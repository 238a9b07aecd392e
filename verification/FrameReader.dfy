/**
 Reading one frame off a stream in chunks (`readOneFrame` of `edge.ts`): however the stream was
 cut, the frame is returned without waiting for the stream's end, unless bytes follow it; then
 the cut decides.
 */
module FrameReader {
  import opened Octets
  import opened Postcard
  import opened Frames
  import opened Results

  /** What one `reader.read()` resolves to; a missing value is an empty one. */
  datatype Chunk = Chunk(value: Bytes, done: bool)

  /** The frame or the error, after so many reads; or still waiting for one. */
  datatype Answer = Waiting | Answered(result: Result<Frame, FrameError>, taken: nat)

  function Joined(chunks: seq<Chunk>): Bytes {
    if chunks == [] then [] else chunks[0].value + Joined(chunks[1..])
  }

  predicate StillOpen(chunks: seq<Chunk>) {
    forall i :: 0 <= i < |chunks| ==> !chunks[i].done
  }

  function Later(a: Answer): Answer {
    if a.Waiting? then a else a.(taken := a.taken + 1)
  }

  /** The answer from a buffer on, given the chunks to come. */
  function OneFrame(buf: Bytes, chunks: seq<Chunk>): Answer
    decreases |chunks|
  {
    if buf != [] && DecodedV1(buf) != Err(Truncated) then Answered(DecodedV1(buf), 0)
    else if chunks == [] then Waiting
    else
      var buf' := buf + chunks[0].value;
      if chunks[0].done then Answered(DecodedV1(buf'), 1) else Later(OneFrame(buf', chunks[1..]))
  }

  function After(a: Answer, n: nat): Answer {
    if a.Waiting? then a else a.(taken := a.taken + n)
  }

  /** The loop: decode what has arrived, and read on only while it is truncated. */
  method ReadOneFrame(chunks: seq<Chunk>) returns (answer: Answer)
    ensures answer == OneFrame([], chunks)
  {
    var buf: Bytes := [];
    for i := 0 to |chunks|
      invariant OneFrame([], chunks) == After(OneFrame(buf, chunks[i..]), i)
    {
      assert chunks[i..][1..] == chunks[i + 1..];
      if |buf| > 0 {
        var frame := DecodeFrame(buf);
        if frame != Err(Truncated) {
          return Answered(frame, i);
        }
      }
      assert chunks[i].value == [] ==> buf + chunks[i].value == buf;
      if |chunks[i].value| > 0 {
        buf := buf + chunks[i].value;
      }
      if chunks[i].done {
        var frame := DecodeFrame(buf);
        return Answered(frame, i + 1);
      }
    }
    if |buf| > 0 {
      var frame := DecodeFrame(buf);
      if frame != Err(Truncated) {
        return Answered(frame, |chunks|);
      }
    }
    answer := Waiting;
  }

  // ---- prefixes --------------------------------------------------------------------

  /** Anything after a frame is trailing. */
  lemma FrameThenTrailing(s: Bytes, t: Bytes)
    requires DecodedV1(s).Ok? && t != []
    ensures DecodedV1(s + t) == Err(TrailingBytes)
  {
    assert (s + t)[1..] == s[1..] + t;
    AllExtend(FIELDS_V1, s[1..], t);
  }

  /** A prefix is truncated, or decodes like the whole, or is a frame with bytes after it. */
  lemma PrefixFate(p: Bytes, t: Bytes)
    ensures || DecodedV1(p) == Err(Truncated)
            || DecodedV1(p) == DecodedV1(p + t)
            || (DecodedV1(p).Ok? && DecodedV1(p + t) == Err(TrailingBytes))
  {
    assert t == [] ==> p + t == p;
    if DecodedV1(p).Ok? {
      if t != [] { FrameThenTrailing(p, t); }
    } else if DecodedV1(p) != Err(Truncated) {
      FatalStaysFatal(V1, FIELDS_V1, p, t);
    }
  }

  // ---- every way of cutting the stream ----------------------------------------------

  lemma {:induction false} Chunks(buf: Bytes, chunks: seq<Chunk>, later: seq<Chunk>)
    requires StillOpen(chunks)
    requires var all := DecodedV1(buf + Joined(chunks)); all != Err(Truncated) && all != Err(TrailingBytes)
    ensures var answer := OneFrame(buf, chunks + later);
            answer.Answered? && answer.result == DecodedV1(buf + Joined(chunks)) && answer.taken <= |chunks|
    decreases |chunks|
  {
    var stream := Joined(chunks);
    PrefixFate(buf, stream);
    if chunks == [] {
      assert buf + stream == buf;
    } else if buf == [] || DecodedV1(buf) == Err(Truncated) {
      var rest := (chunks + later)[1..];
      assert rest == chunks[1..] + later;
      assert (buf + chunks[0].value) + Joined(chunks[1..]) == buf + stream;
      Chunks(buf + chunks[0].value, chunks[1..], later);
    }
  }

  /**
   The setup reply of a wire frame, cut into chunks in any way and on a stream that stays
   open: the frame is returned, with no read past its last byte.
   */
  lemma {:induction false} EveryChunking(f: Frame, chunks: seq<Chunk>, later: seq<Chunk>)
    requires Wire(f) && StillOpen(chunks) && Joined(chunks) == [V1] + SpellAll(Items(f))
    ensures OneFrame([], chunks + later).Answered?
    ensures OneFrame([], chunks + later).result == Ok(f)
    ensures OneFrame([], chunks + later).taken <= |chunks|
  {
    WireFramesSurvive(f);
    assert [] + Joined(chunks) == Joined(chunks);
    Chunks([], chunks, later);
  }

  /** A structural error ends the reading, however the bytes were cut. */
  lemma {:induction false} StructuralErrorIsFatal(chunks: seq<Chunk>, later: seq<Chunk>, e: FrameError)
    requires StillOpen(chunks) && DecodedV1(Joined(chunks)) == Err(e) && (e == WrongVersion || e == TooLong)
    ensures OneFrame([], chunks + later).Answered?
    ensures OneFrame([], chunks + later).result == Err(e)
    ensures OneFrame([], chunks + later).taken <= |chunks|
  {
    assert [] + Joined(chunks) == Joined(chunks);
    Chunks([], chunks, later);
  }

  /** While bytes are missing the reader waits, and the end of the stream is then an error. */
  lemma {:induction false} IncompleteWaits(buf: Bytes, chunks: seq<Chunk>)
    requires StillOpen(chunks) && DecodedV1(buf + Joined(chunks)) == Err(Truncated)
    ensures OneFrame(buf, chunks) == Waiting
    ensures OneFrame(buf, chunks + [Chunk([], true)]) == Answered(Err(Truncated), |chunks| + 1)
    decreases |chunks|
  {
    var stream := Joined(chunks);
    PrefixFate(buf, stream);
    if chunks == [] {
      assert buf + stream == buf && buf + [] == buf;
    } else {
      assert (chunks + [Chunk([], true)])[1..] == chunks[1..] + [Chunk([], true)];
      assert (buf + chunks[0].value) + Joined(chunks[1..]) == buf + stream;
      IncompleteWaits(buf + chunks[0].value, chunks[1..]);
    }
  }

  /** Some chunk boundary falls `at` bytes into the stream. */
  predicate CutAt(chunks: seq<Chunk>, at: int) {
    at == 0 || (at > 0 && chunks != [] && CutAt(chunks[1..], at - |chunks[0].value|))
  }

  /** With bytes after the frame, the frame is returned exactly when a chunk ends where it does. */
  lemma {:induction false} TrailingDependsOnTheCut(buf: Bytes, chunks: seq<Chunk>, f: Bytes, t: Bytes)
    requires StillOpen(chunks) && DecodedV1(f).Ok? && t != [] && buf + Joined(chunks) == f + t && |buf| <= |f|
    ensures OneFrame(buf, chunks).Answered?
    ensures OneFrame(buf, chunks).result == if CutAt(chunks, |f| - |buf|) then DecodedV1(f) else Err(TrailingBytes)
    decreases |chunks|
  {
    assert buf == (f + t)[..|buf|] == f[..|buf|];
    if |buf| == |f| {
      assert f[..|buf|] == f;
    } else {
      PrefixIsTruncated(V1, FIELDS_V1, f, |buf|);
      if chunks != [] {
        var buf' := buf + chunks[0].value;
        assert buf' + Joined(chunks[1..]) == buf + Joined(chunks);
        if |buf'| <= |f| {
          TrailingDependsOnTheCut(buf', chunks[1..], f, t);
        } else {
          assert buf' == (f + t)[..|buf'|] == f + t[..|buf'| - |f|];
          FrameThenTrailing(f, t[..|buf'| - |f|]);
        }
      }
    }
  }

  /** Both ends of that: one stream, cut after the frame and not cut at all. */
  lemma {:induction false} CutEitherWay(f: Bytes, t: Bytes)
    requires DecodedV1(f).Ok? && t != []
    ensures OneFrame([], [Chunk(f, false), Chunk(t, false)]) == Answered(DecodedV1(f), 1)
    ensures OneFrame([], [Chunk(f + t, false)]) == Answered(Err(TrailingBytes), 1)
  {
    FrameThenTrailing(f, t);
    assert [] + f == f && [] + (f + t) == f + t;
    assert [Chunk(f, false), Chunk(t, false)][1..] == [Chunk(t, false)];
    assert OneFrame(f, [Chunk(t, false)]) == Answered(DecodedV1(f), 0);
    assert [Chunk(f + t, false)][1..] == [];
    assert OneFrame(f + t, []) == Answered(Err(TrailingBytes), 0);
  }

  /** The chunk that ends the stream is decoded with everything before it. */
  lemma {:induction false} EndDecides(buf: Bytes, chunks: seq<Chunk>, last: Bytes, later: seq<Chunk>)
    requires StillOpen(chunks) && OneFrame(buf, chunks) == Waiting
    ensures OneFrame(buf, chunks + [Chunk(last, true)] + later) ==
            Answered(DecodedV1(buf + Joined(chunks) + last), |chunks| + 1)
    decreases |chunks|
  {
    var all := chunks + [Chunk(last, true)] + later;
    if chunks == [] {
      assert buf + Joined(chunks) == buf && all[0] == Chunk(last, true);
    } else {
      var buf' := buf + chunks[0].value;
      assert all[0] == chunks[0] && all[1..] == chunks[1..] + [Chunk(last, true)] + later;
      assert buf' + Joined(chunks[1..]) == buf + Joined(chunks);
      EndDecides(buf', chunks[1..], last, later);
    }
  }

  /** A wire frame whose last bytes come with the end of the stream is returned too. */
  lemma FrameEndsTheStream(f: Frame, chunks: seq<Chunk>, last: Bytes, later: seq<Chunk>)
    requires Wire(f) && StillOpen(chunks) && Joined(chunks) + last == [V1] + SpellAll(Items(f))
    ensures OneFrame([], chunks + [Chunk(last, true)] + later).Answered?
    ensures OneFrame([], chunks + [Chunk(last, true)] + later).result == Ok(f)
  {
    var whole, front := [V1] + SpellAll(Items(f)), Joined(chunks);
    assert [] + front == front && [] + front + last == whole;
    if last == [] {
      assert front == whole && chunks + [Chunk(last, true)] + later == chunks + ([Chunk(last, true)] + later);
      EveryChunking(f, chunks, [Chunk(last, true)] + later);
    } else {
      WireFramesSurvive(f);
      assert whole[..|front|] == front;
      PrefixIsTruncated(V1, FIELDS_V1, whole, |front|);
      IncompleteWaits([], chunks);
      EndDecides([], chunks, last, later);
    }
  }
}
