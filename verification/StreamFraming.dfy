/**
 The two length-prefixed message streams: native messaging (`host/framing.ts`, little-endian,
 one mebibyte) and the daemon's socket (`warrend/protocol.ts`, big-endian, sixteen). A message
 is its JSON text, taken as opaque bytes.
 */
module StreamFraming {
  import opened Numbers
  import opened Octets
  import opened Results

  /** How a stream spells lengths, the longest it accepts and the longest it sends. */
  datatype Format = Format(littleEndian: bool, accepts: nat, sends: nat)

  const NATIVE := Format(true, 1024 * 1024, 1024 * 1024 - 1)
  const WARREND := Format(false, 16 * 1024 * 1024, 16 * 1024 * 1024)

  const PREFIX: nat := 4

  /** A decoder takes whatever its encoder sends, and a length fits its prefix. */
  predicate Sound(f: Format) {
    f.sends <= f.accepts < Pow(256, PREFIX)
  }

  lemma BothAreSound()
    ensures Sound(NATIVE) && Sound(WARREND)
  {
    assert Pow(256, 1) == 256 && Pow(256, 2) == 65536 && Pow(256, 3) == 16777216;
    assert Pow(256, PREFIX) == 4294967296;
  }

  function Turned(s: Bytes): (r: Bytes)
    ensures |r| == |s|
  {
    if s == [] then [] else Turned(s[1..]) + [s[0]]
  }

  lemma {:induction false} TurnedTwice(s: Bytes)
    ensures Turned(Turned(s)) == s
  {
    if s != [] {
      TurnedTwice(s[1..]);
      TurnedSnoc(Turned(s[1..]), s[0]);
      assert s == [s[0]] + s[1..];
    }
  }

  lemma {:induction false} TurnedSnoc(s: Bytes, b: byte)
    ensures Turned(s + [b]) == [b] + Turned(s)
  {
    if s == [] {
      assert s + [b] == [b] && Turned([b]) == Turned([b][1..]) + [b];
    } else {
      assert (s + [b])[1..] == s[1..] + [b];
      TurnedSnoc(s[1..], b);
    }
  }

  /** A length as the format spells it. */
  function Prefix(f: Format, n: nat): (p: Bytes)
    ensures |p| == PREFIX
  {
    var big := Spelling(n, PREFIX);
    if f.littleEndian then Turned(big) else big
  }

  /** The length a prefix announces. */
  function Announced(f: Format, p: Bytes): nat {
    Value(if f.littleEndian then Turned(p) else p)
  }

  lemma AnnouncedPrefix(f: Format, n: nat)
    requires n < Pow(256, PREFIX)
    ensures Announced(f, Prefix(f, n)) == n
  {
    TurnedTwice(Spelling(n, PREFIX));
    ValueOfSpelling(n, PREFIX);
  }

  /** The native stream spells its lengths low octet first, the daemon's high octet first. */
  lemma PrefixOctets(f: Format, n: nat)
    ensures var p, a := Prefix(f, n), n / 256;
            if f.littleEndian
            then p[0] == n % 256 && p[1] == a % 256 && p[2] == a / 256 % 256 && p[3] == a / 256 / 256 % 256
            else p[3] == n % 256 && p[2] == a % 256 && p[1] == a / 256 % 256 && p[0] == a / 256 / 256 % 256
  {
    var a, b, c := n / 256, n / 256 / 256, n / 256 / 256 / 256;
    assert Spelling(c, 1) == Spelling(c / 256, 0) + [c % 256];
    assert Spelling(b, 2) == Spelling(c, 1) + [b % 256];
    assert Spelling(a, 3) == Spelling(b, 2) + [a % 256];
    var big := [c % 256, b % 256, a % 256, n % 256];
    assert Spelling(n, PREFIX) == big;
    assert big[1..][1..] == big[2..] && big[2..][1..] == big[3..] && big[3..][1..] == [];
    assert Turned(big[3..]) == [] + [n % 256] && Turned(big[2..]) == [n % 256, a % 256];
    assert Turned(big[1..]) == [n % 256, a % 256, b % 256];
  }

  /** What each stream is and how much it carries. */
  lemma TheTwoStreams()
    ensures NATIVE.littleEndian && NATIVE.accepts == 1048576 && NATIVE.sends == 1048575
    ensures !WARREND.littleEndian && WARREND.accepts == 16777216 && WARREND.sends == 16777216
  {
  }

  /** One message on the wire. */
  function Framed(f: Format, message: Bytes): Bytes {
    Prefix(f, |message|) + message
  }

  method Encode(f: Format, message: Bytes) returns (r: Result<Bytes, ()>)
    ensures r.Ok? <==> |message| <= f.sends
    ensures r.Ok? ==> r.value == Framed(f, message)
  {
    if |message| > f.sends {
      return Err(());
    }
    var frame := new byte[PREFIX + |message|];
    Put(frame, Prefix(f, |message|), 0);
    ghost var before := frame[..];
    Put(frame, message, PREFIX);
    assert frame[..] == before[..PREFIX] + message;
    return Ok(frame[..]);
  }

  /** What a buffer holds: its complete messages, what is left, and whether no length was too long. */
  datatype Drained = Drained(messages: seq<Bytes>, rest: Bytes, ok: bool)

  function Drain(f: Format, buffer: Bytes): Drained
    decreases |buffer|
  {
    if |buffer| < PREFIX then Drained([], buffer, true)
    else
      var length := Announced(f, buffer[..PREFIX]);
      if length > f.accepts then Drained([], buffer, false)
      else if |buffer| < PREFIX + length then Drained([], buffer, true)
      else
        var d := Drain(f, buffer[PREFIX + length..]);
        d.(messages := [buffer[PREFIX..PREFIX + length]] + d.messages)
  }

  class Decoder {
    const format: Format
    var buffer: Bytes

    constructor (format: Format)
      ensures this.format == format && buffer == []
    {
      this.format, buffer := format, [];
    }

    /** Appends a chunk and returns every complete message; throws at a length beyond the cap. */
    method Push(chunk: Bytes) returns (r: Result<seq<Bytes>, ()>)
      modifies this`buffer
      ensures var d := Drain(format, old(buffer) + chunk);
              buffer == d.rest && r == if d.ok then Ok(d.messages) else Err(())
    {
      assert buffer == [] ==> buffer + chunk == chunk;
      buffer := if |buffer| == 0 then chunk else buffer + chunk;
      ghost var all := buffer;
      var messages := [];
      while |buffer| >= PREFIX
        invariant Drain(format, all) == Prepended(messages, Drain(format, buffer))
        decreases |buffer|
      {
        var length := Announced(format, buffer[..PREFIX]);
        if length > format.accepts {
          return Err(());
        }
        if |buffer| < PREFIX + length {
          break;
        }
        var message := buffer[PREFIX..PREFIX + length];
        NextMessage(format, messages, buffer, length);
        messages := messages + [message];
        buffer := buffer[PREFIX + length..];
      }
      assert Drain(format, buffer) == Drained([], buffer, true) && messages + [] == messages;
      r := Ok(messages);
    }
  }

  function Prepended(messages: seq<Bytes>, d: Drained): Drained {
    d.(messages := messages + d.messages)
  }

  // ---- every split of the stream -----------------------------------------------------

  /** A complete message at the front comes out first. */
  lemma FrontMessage(f: Format, head: Bytes, tail: Bytes)
    requires |head| >= PREFIX && |head| == PREFIX + Announced(f, head[..PREFIX]) && |head| <= PREFIX + f.accepts
    ensures Drain(f, head + tail) == Prepended([head[PREFIX..]], Drain(f, tail))
  {
    assert (head + tail)[..PREFIX] == head[..PREFIX];
    assert (head + tail)[PREFIX..|head|] == head[PREFIX..];
    assert (head + tail)[|head|..] == tail;
  }

  lemma NextMessage(f: Format, messages: seq<Bytes>, buffer: Bytes, length: nat)
    requires PREFIX + length <= |buffer| && length == Announced(f, buffer[..PREFIX]) && length <= f.accepts
    ensures Prepended(messages, Drain(f, buffer))
         == Prepended(messages + [buffer[PREFIX..PREFIX + length]], Drain(f, buffer[PREFIX + length..]))
  {
    var message, rest := buffer[PREFIX..PREFIX + length], Drain(f, buffer[PREFIX + length..]);
    PrependedTwice(messages, [message], rest);
  }

  /** A buffer can be drained before or after more bytes arrive. */
  lemma {:induction false} DrainSplits(f: Format, buffer: Bytes, more: Bytes)
    requires Drain(f, buffer).ok
    ensures var d := Drain(f, buffer); Drain(f, buffer + more) == Prepended(d.messages, Drain(f, d.rest + more))
    decreases |buffer|
  {
    if |buffer| >= PREFIX && |buffer| >= PREFIX + Announced(f, buffer[..PREFIX]) {
      var at := PREFIX + Announced(f, buffer[..PREFIX]);
      var head, tail := buffer[..at], buffer[at..];
      assert head[..PREFIX] == buffer[..PREFIX];
      assert buffer == head + tail && buffer + more == head + (tail + more);
      FrontMessage(f, head, tail);
      FrontMessage(f, head, tail + more);
      DrainSplits(f, tail, more);
      PrependedTwice([head[PREFIX..]], Drain(f, tail).messages, Drain(f, Drain(f, tail).rest + more));
    } else {
      NothingYet(Drain(f, buffer + more));
    }
  }

  lemma NothingYet(d: Drained)
    ensures Prepended([], d) == d
  {
    assert [] + d.messages == d.messages;
  }

  /** A length beyond the cap stops the stream whatever follows; the messages before it are the same. */
  lemma {:induction false} RefusalStands(f: Format, buffer: Bytes, more: Bytes)
    requires !Drain(f, buffer).ok
    ensures var d, e := Drain(f, buffer), Drain(f, buffer + more); !e.ok && e.messages == d.messages
    decreases |buffer|
  {
    assert (buffer + more)[..PREFIX] == buffer[..PREFIX];
    if Announced(f, buffer[..PREFIX]) <= f.accepts {
      var at := PREFIX + Announced(f, buffer[..PREFIX]);
      var head, tail := buffer[..at], buffer[at..];
      assert head[..PREFIX] == buffer[..PREFIX];
      assert buffer == head + tail && buffer + more == head + (tail + more);
      FrontMessage(f, head, tail);
      FrontMessage(f, head, tail + more);
      RefusalStands(f, tail, more);
    }
  }

  /** A decoder fed one chunk after another, until a push throws. */
  function Fed(f: Format, buffer: Bytes, chunks: seq<Bytes>): Drained
    decreases |chunks|
  {
    if chunks == [] then Drained([], buffer, true)
    else
      var d := Drain(f, buffer + chunks[0]);
      if !d.ok then Drained([], d.rest, false) else Prepended(d.messages, Fed(f, d.rest, chunks[1..]))
  }

  function Joined(chunks: seq<Bytes>): Bytes {
    if chunks == [] then [] else chunks[0] + Joined(chunks[1..])
  }

  /** A buffer a push left behind holds no complete message. */
  predicate Settled(f: Format, buffer: Bytes) {
    Drain(f, buffer) == Drained([], buffer, true)
  }

  lemma {:induction false} RestIsSettled(f: Format, buffer: Bytes)
    requires Drain(f, buffer).ok
    ensures Settled(f, Drain(f, buffer).rest)
    decreases |buffer|
  {
    if |buffer| >= PREFIX && |buffer| >= PREFIX + Announced(f, buffer[..PREFIX]) {
      RestIsSettled(f, buffer[PREFIX + Announced(f, buffer[..PREFIX])..]);
    }
  }

  lemma PrependedTwice(a: seq<Bytes>, b: seq<Bytes>, d: Drained)
    ensures Prepended(a, Prepended(b, d)) == Prepended(a + b, d)
  {
    assert a + (b + d.messages) == a + b + d.messages;
  }

  /** Pushing a stream in pieces gives what draining it whole gives. */
  lemma {:induction false} AnySplit(f: Format, buffer: Bytes, chunks: seq<Bytes>)
    requires Settled(f, buffer) && Drain(f, buffer + Joined(chunks)).ok
    ensures Fed(f, buffer, chunks) == Drain(f, buffer + Joined(chunks))
    decreases |chunks|
  {
    if chunks == [] {
      assert buffer + [] == buffer;
    } else {
      var first, rest := buffer + chunks[0], Joined(chunks[1..]);
      assert buffer + Joined(chunks) == first + rest;
      if !Drain(f, first).ok {
        RefusalStands(f, first, rest);
      } else {
        DrainSplits(f, first, rest);
        RestIsSettled(f, first);
        AnySplit(f, Drain(f, first).rest, chunks[1..]);
      }
    }
  }

  /** A stream with a length beyond the cap throws in every split; nothing is returned but a front of its messages. */
  lemma {:induction false} AnySplitOfRefused(f: Format, buffer: Bytes, chunks: seq<Bytes>)
    requires Settled(f, buffer) && !Drain(f, buffer + Joined(chunks)).ok
    ensures !Fed(f, buffer, chunks).ok
    ensures Fed(f, buffer, chunks).messages <= Drain(f, buffer + Joined(chunks)).messages
    decreases |chunks|
  {
    assert buffer + [] == buffer;
    if chunks != [] {
      var first, rest := buffer + chunks[0], Joined(chunks[1..]);
      assert buffer + Joined(chunks) == first + rest;
      if Drain(f, first).ok {
        DrainSplits(f, first, rest);
        RestIsSettled(f, first);
        AnySplitOfRefused(f, Drain(f, first).rest, chunks[1..]);
      }
    }
  }

  // ---- messages in, messages out ---------------------------------------------------------

  predicate Sendable(f: Format, messages: seq<Bytes>) {
    forall i :: 0 <= i < |messages| ==> |messages[i]| <= f.sends
  }

  function Stream(f: Format, messages: seq<Bytes>): Bytes {
    if messages == [] then [] else Framed(f, messages[0]) + Stream(f, messages[1..])
  }

  lemma {:induction false} DrainOfStream(f: Format, messages: seq<Bytes>, tail: Bytes)
    requires Sound(f) && Sendable(f, messages)
    ensures Drain(f, Stream(f, messages) + tail) == Prepended(messages, Drain(f, tail))
    decreases |messages|
  {
    if messages == [] {
      assert Stream(f, messages) + tail == tail;
      assert [] + Drain(f, tail).messages == Drain(f, tail).messages;
    } else {
      var m, others := messages[0], messages[1..];
      var whole := Stream(f, messages) + tail;
      assert whole == Prefix(f, |m|) + m + (Stream(f, others) + tail);
      assert whole[..PREFIX] == Prefix(f, |m|) && whole[PREFIX..PREFIX + |m|] == m;
      assert whole[PREFIX + |m|..] == Stream(f, others) + tail;
      AnnouncedPrefix(f, |m|);
      DrainOfStream(f, others, tail);
      PrependedTwice([m], others, Drain(f, tail));
      assert [m] + others == messages;
    }
  }

  /**
   Every list of sendable messages and incomplete tail, cut into chunks in any way: the
   messages, in order, and the tail.
   */
  lemma MessagesSurvive(f: Format, messages: seq<Bytes>, tail: Bytes, chunks: seq<Bytes>)
    requires Sound(f) && Sendable(f, messages) && Settled(f, tail)
    requires Joined(chunks) == Stream(f, messages) + tail
    ensures Fed(f, [], chunks) == Drained(messages, tail, true)
  {
    DrainOfStream(f, messages, tail);
    assert [] + Joined(chunks) == Joined(chunks) && messages + [] == messages;
    AnySplit(f, [], chunks);
  }

  /** A length beyond the cap after them throws, in every split. */
  lemma OversizeThrows(f: Format, messages: seq<Bytes>, n: nat, rest: Bytes, chunks: seq<Bytes>)
    requires Sound(f) && Sendable(f, messages) && f.accepts < n < Pow(256, PREFIX)
    requires Joined(chunks) == Stream(f, messages) + (Prefix(f, n) + rest)
    ensures !Fed(f, [], chunks).ok && Fed(f, [], chunks).messages <= messages
  {
    var tail := Prefix(f, n) + rest;
    AnnouncedPrefix(f, n);
    assert tail[..PREFIX] == Prefix(f, n);
    DrainOfStream(f, messages, tail);
    assert [] + Joined(chunks) == Joined(chunks) && messages + [] == messages;
    AnySplitOfRefused(f, [], chunks);
  }

  // ---- what an oversize length costs ---------------------------------------------------------

  lemma {:induction false} StreamAppends(f: Format, a: seq<Bytes>, b: seq<Bytes>)
    ensures Stream(f, a + b) == Stream(f, a) + Stream(f, b)
    decreases |a|
  {
    if a == [] {
      assert a + b == b;
    } else {
      assert (a + b)[1..] == a[1..] + b;
      StreamAppends(f, a[1..], b);
      assert Framed(f, a[0]) + (Stream(f, a[1..]) + Stream(f, b)) == Framed(f, a[0]) + Stream(f, a[1..]) + Stream(f, b);
    }
  }

  lemma PrefixOfAnnounced(f: Format, p: Bytes)
    requires |p| == PREFIX
    ensures Prefix(f, Announced(f, p)) == p
  {
    if f.littleEndian {
      SpellingOfValue(Turned(p));
      TurnedTwice(p);
    } else {
      SpellingOfValue(p);
    }
  }

  lemma StreamCons(f: Format, message: Bytes, others: seq<Bytes>)
    ensures Stream(f, [message] + others) == Framed(f, message) + Stream(f, others)
  {
    assert ([message] + others)[1..] == others;
  }

  lemma FrontSplits(front: Bytes, back: Bytes, s: Bytes, t: Bytes)
    requires front + back == s + t && |front| >= |s|
    ensures front == s + front[|s|..]
  {
    assert front[..|s|] == (front + back)[..|s|] && (s + t)[..|s|] == s;
  }

  /** Draining loses no byte: what came out, framed again, and the rest are what went in. */
  lemma {:induction false} DrainKeepsEveryByte(f: Format, buffer: Bytes)
    ensures var d := Drain(f, buffer); buffer == Stream(f, d.messages) + d.rest
    ensures !Drain(f, buffer).ok ==> |Drain(f, buffer).rest| >= PREFIX
    decreases |buffer|
  {
    if |buffer| >= PREFIX && PREFIX + Announced(f, buffer[..PREFIX]) <= |buffer|
        && Announced(f, buffer[..PREFIX]) <= f.accepts {
      var at := PREFIX + Announced(f, buffer[..PREFIX]);
      var head, tail := buffer[..at], buffer[at..];
      assert buffer == head + tail;
      assert head[..PREFIX] == buffer[..PREFIX];
      FrontMessage(f, head, tail);
      DrainKeepsEveryByte(f, tail);
      KeptWithFront(f, head, tail);
    } else {
      assert Stream(f, []) + buffer == buffer;
    }
  }

  lemma KeptWithFront(f: Format, head: Bytes, tail: Bytes)
    requires |head| >= PREFIX && |head| == PREFIX + Announced(f, head[..PREFIX])
    requires tail == Stream(f, Drain(f, tail).messages) + Drain(f, tail).rest
    ensures var d := Prepended([head[PREFIX..]], Drain(f, tail)); head + tail == Stream(f, d.messages) + d.rest
  {
    var message, d := head[PREFIX..], Drain(f, tail);
    PrefixOfAnnounced(f, head[..PREFIX]);
    assert head == head[..PREFIX] + message;
    StreamCons(f, message, d.messages);
    Associate(head, Stream(f, d.messages), d.rest);
  }

  /** Sendable messages, then a length beyond the cap. */
  predicate Broken(f: Format, messages: seq<Bytes>, n: nat) {
    Sound(f) && Sendable(f, messages) && f.accepts < n < Pow(256, PREFIX)
  }

  lemma DrainOfBroken(f: Format, messages: seq<Bytes>, n: nat, rest: Bytes)
    requires Broken(f, messages, n)
    ensures Drain(f, Stream(f, messages) + (Prefix(f, n) + rest)) == Drained(messages, Prefix(f, n) + rest, false)
  {
    var tail := Prefix(f, n) + rest;
    AnnouncedPrefix(f, n);
    assert tail[..PREFIX] == Prefix(f, n);
    DrainOfStream(f, messages, tail);
    assert messages + [] == messages;
  }

  lemma FrontIsOk(f: Format, messages: seq<Bytes>, n: nat, rest: Bytes, front: Bytes, back: Bytes)
    requires Broken(f, messages, n) && front + back == Stream(f, messages) + (Prefix(f, n) + rest)
    requires |front| < |Stream(f, messages)| + PREFIX
    ensures Drain(f, front).ok
  {
    if !Drain(f, front).ok {
      DrainOfBroken(f, messages, n, rest);
      RefusalStands(f, front, back);
      DrainKeepsEveryByte(f, front);
    }
  }

  /** As long as the oversize length is not complete, a push takes out a front of the messages and leaves the others. */
  lemma FrontOfBroken(f: Format, messages: seq<Bytes>, n: nat, rest: Bytes, front: Bytes, back: Bytes)
    requires Broken(f, messages, n) && front + back == Stream(f, messages) + (Prefix(f, n) + rest)
    requires Drain(f, front).ok
    ensures var d := Drain(f, front); var others := Drain(f, d.rest + back).messages;
            && messages == d.messages + others
            && d.rest + back == Stream(f, others) + (Prefix(f, n) + rest)
            && |front| == |Stream(f, messages)| - |Stream(f, others)| + |d.rest|
  {
    var d := Drain(f, front);
    var others, tail := Drain(f, d.rest + back).messages, Prefix(f, n) + rest;
    DrainOfBroken(f, messages, n, rest);
    DrainSplits(f, front, back);
    DrainKeepsEveryByte(f, front);
    StreamAppends(f, d.messages, others);
    Associate(Stream(f, d.messages), d.rest, back);
    Associate(Stream(f, d.messages), Stream(f, others), tail);
    SplitsEqual(Stream(f, d.messages), d.rest + back, Stream(f, d.messages), Stream(f, others) + tail);
  }

  /** Once it is complete, the push throws and returns nothing. */
  lemma WholeOfBroken(f: Format, messages: seq<Bytes>, n: nat, rest: Bytes, front: Bytes, back: Bytes)
    requires Broken(f, messages, n) && front + back == Stream(f, messages) + (Prefix(f, n) + rest)
    requires |front| >= |Stream(f, messages)| + PREFIX
    ensures !Drain(f, front).ok
  {
    var s, p := Stream(f, messages), Prefix(f, n);
    var part := front[|s| + PREFIX..];
    Associate(s, p, rest);
    FrontSplits(front, back, s + p, rest);
    Associate(s, p, part);
    DrainOfBroken(f, messages, n, part);
  }

  /** Some chunk boundary falls between `lo` and `hi` bytes into the stream. */
  predicate CutWithin(chunks: seq<Bytes>, lo: int, hi: int) {
    lo <= 0 <= hi || (chunks != [] && CutWithin(chunks[1..], lo - |chunks[0]|, hi - |chunks[0]|))
  }

  lemma {:induction false} NoCutBehind(chunks: seq<Bytes>, lo: int, hi: int)
    requires hi < 0
    ensures !CutWithin(chunks, lo, hi)
  {
    if chunks != [] { NoCutBehind(chunks[1..], lo - |chunks[0]|, hi - |chunks[0]|); }
  }

  /** With every message there and the length not complete, all of them come out. */
  lemma EdgeOfBroken(f: Format, messages: seq<Bytes>, n: nat, rest: Bytes, front: Bytes, back: Bytes)
    requires Broken(f, messages, n) && front + back == Stream(f, messages) + (Prefix(f, n) + rest)
    requires |Stream(f, messages)| <= |front| < |Stream(f, messages)| + PREFIX
    ensures Drain(f, front) == Drained(messages, front[|Stream(f, messages)|..], true)
  {
    var s := Stream(f, messages);
    FrontSplits(front, back, s, Prefix(f, n) + rest);
    assert messages + [] == messages;
    DrainOfStream(f, messages, front[|s|..]);
  }

  /** A settled buffer does not hold all of the messages. */
  lemma SettledIsShort(f: Format, messages: seq<Bytes>, n: nat, rest: Bytes, buffer: Bytes, back: Bytes)
    requires Broken(f, messages, n) && messages != [] && Settled(f, buffer)
    requires buffer + back == Stream(f, messages) + (Prefix(f, n) + rest)
    ensures |buffer| < |Stream(f, messages)|
  {
    if |buffer| >= |Stream(f, messages)| + PREFIX {
      WholeOfBroken(f, messages, n, rest, buffer, back);
    } else if |buffer| >= |Stream(f, messages)| {
      EdgeOfBroken(f, messages, n, rest, buffer, back);
    }
  }

  lemma FedStep(f: Format, buffer: Bytes, chunks: seq<Bytes>)
    requires chunks != []
    ensures var d := Drain(f, buffer + chunks[0]);
            Fed(f, buffer, chunks).messages == if d.ok then d.messages + Fed(f, d.rest, chunks[1..]).messages else []
  {
  }

  lemma CutStep(chunks: seq<Bytes>, lo: int, hi: int)
    requires chunks != [] && lo > 0
    ensures CutWithin(chunks, lo, hi) <==> CutWithin(chunks[1..], lo - |chunks[0]|, hi - |chunks[0]|)
  {
  }

  /**
   Of the messages in front of an oversize length, all are returned exactly when there are none
   or some chunk ends after the last of them and before the length is complete.
   */
  lemma {:induction false} ReturnedExactlyWhenCut(
    f: Format, messages: seq<Bytes>, n: nat, rest: Bytes, buffer: Bytes, chunks: seq<Bytes>)
    requires Broken(f, messages, n) && Settled(f, buffer)
    requires buffer + Joined(chunks) == Stream(f, messages) + (Prefix(f, n) + rest)
    ensures var left := |Stream(f, messages)| - |buffer|;
            Fed(f, buffer, chunks).messages == messages <==> messages == [] || CutWithin(chunks, left, left + 3)
    decreases |chunks|, 1
  {
    if messages == [] {
      DrainOfBroken(f, messages, n, rest);
      AnySplitOfRefused(f, buffer, chunks);
    } else {
      SettledIsShort(f, messages, n, rest, buffer, Joined(chunks));
      if chunks != [] {
        var front, left := buffer + chunks[0], |Stream(f, messages)| - |buffer|;
        Associate(buffer, chunks[0], Joined(chunks[1..]));
        CutStep(chunks, left, left + 3);
        if |front| >= |Stream(f, messages)| + PREFIX {
          WholeOfBroken(f, messages, n, rest, front, Joined(chunks[1..]));
          FedStep(f, buffer, chunks);
          NoCutBehind(chunks[1..], left - |chunks[0]|, left + 3 - |chunks[0]|);
        } else {
          FrontIsOk(f, messages, n, rest, front, Joined(chunks[1..]));
          FedStep(f, buffer, chunks);
          ReturnedAfter(f, messages, n, rest, front, chunks[1..], Drain(f, front));
        }
      }
    }
  }

  lemma {:induction false} ReturnedAfter(
    f: Format, messages: seq<Bytes>, n: nat, rest: Bytes, front: Bytes, chunks: seq<Bytes>, d: Drained)
    requires Broken(f, messages, n) && d == Drain(f, front) && d.ok
    requires front + Joined(chunks) == Stream(f, messages) + (Prefix(f, n) + rest)
    requires |front| < |Stream(f, messages)| + PREFIX
    ensures var left := |Stream(f, messages)| - |front|;
            d.messages + Fed(f, d.rest, chunks).messages == messages <==> CutWithin(chunks, left, left + 3)
    decreases |chunks|, 3
  {
    var others := RestOfBroken(f, messages, n, rest, front, Joined(chunks));
    ReturnedAfterFront(f, d.messages, others, n, rest, d.rest, chunks);
  }

  /** What a push leaves to come: the messages it did not take out. */
  lemma RestOfBroken(f: Format, messages: seq<Bytes>, n: nat, rest: Bytes, front: Bytes, back: Bytes)
    returns (others: seq<Bytes>)
    requires Broken(f, messages, n) && front + back == Stream(f, messages) + (Prefix(f, n) + rest)
    requires Drain(f, front).ok && |front| < |Stream(f, messages)| + PREFIX
    ensures var d := Drain(f, front);
            && messages == d.messages + others && Settled(f, d.rest) && (others == [] ==> |d.rest| < PREFIX)
            && d.rest + back == Stream(f, others) + (Prefix(f, n) + rest)
            && |Stream(f, others)| - |d.rest| == |Stream(f, messages)| - |front|
  {
    others := Drain(f, Drain(f, front).rest + back).messages;
    FrontOfBroken(f, messages, n, rest, front, back);
    RestIsSettled(f, front);
  }

  lemma {:induction false} ReturnedAfterFront(
    f: Format, sent: seq<Bytes>, others: seq<Bytes>, n: nat, rest: Bytes, buffer: Bytes, chunks: seq<Bytes>)
    requires Broken(f, sent + others, n) && Settled(f, buffer) && (others == [] ==> |buffer| < PREFIX)
    requires buffer + Joined(chunks) == Stream(f, others) + (Prefix(f, n) + rest)
    ensures var left := |Stream(f, others)| - |buffer|;
            sent + Fed(f, buffer, chunks).messages == sent + others <==> CutWithin(chunks, left, left + 3)
    decreases |chunks|, 2
  {
    SendableTail(f, sent, others);
    ReturnedExactlyWhenCut(f, others, n, rest, buffer, chunks);
    AllOrCut(sent, Fed(f, buffer, chunks).messages, others, chunks, |Stream(f, others)|, |buffer|);
  }

  /** All of the others come out, or a chunk ends behind them: with none of them left it just did. */
  lemma AllOrCut(
    sent: seq<Bytes>, fed: seq<Bytes>, others: seq<Bytes>, chunks: seq<Bytes>, length: int, rest: nat)
    requires fed == others <==> others == [] || CutWithin(chunks, length - rest, length - rest + 3)
    requires others == [] ==> length == 0 && rest < PREFIX
    ensures sent + fed == sent + others <==> CutWithin(chunks, length - rest, length - rest + 3)
  {
    SameTail(sent, fed, others);
  }

  lemma SendableTail(f: Format, a: seq<Bytes>, b: seq<Bytes>)
    requires Sendable(f, a + b)
    ensures Sendable(f, b)
  {
    forall i | 0 <= i < |b| ensures |b[i]| <= f.sends {
      assert (a + b)[|a| + i] == b[i];
    }
  }

  lemma SameTail(a: seq<Bytes>, b: seq<Bytes>, c: seq<Bytes>)
    ensures a + b == a + c <==> b == c
  {
    if a + b == a + c {
      assert (a + b)[|a|..] == b && (a + c)[|a|..] == c;
    }
  }

  lemma StreamOfOne(f: Format, message: Bytes)
    ensures Stream(f, [message]) == Framed(f, message)
  {
    StreamCons(f, message, []);
    assert [message] + [] == [message] && Framed(f, message) + [] == Framed(f, message);
  }

  /** The loss is real: one message and an oversize length in one chunk return nothing. */
  lemma OneChunkLosesTheMessage(f: Format, message: Bytes, n: nat)
    requires Broken(f, [message], n)
    ensures Fed(f, [], [Framed(f, message) + Prefix(f, n)]) == Drained([], Prefix(f, n), false)
  {
    var chunk := Framed(f, message) + Prefix(f, n);
    DrainOfBroken(f, [message], n, []);
    StreamOfOne(f, message);
    assert [] + chunk == chunk == Stream(f, [message]) + (Prefix(f, n) + []);
  }
}
