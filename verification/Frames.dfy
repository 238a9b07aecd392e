/**
 The multi-hop frames `/v1` and `/v2` (`frame.ts`, `frame-v2.ts`): a version octet and a
 list of postcard fields.
 */
module Frames {
  import opened Numbers
  import opened Octets
  import opened Postcard
  import opened Results

  const EXIT_ID_LEN := 16
  const ENCAPSULATED_KEY_LEN := 32
  const AEAD_TAG_LEN := 16
  const MAX_FRAME_SIZE := 65536

  const V1: byte := 1
  const V2: byte := 2

  datatype Frame = Frame(
    version: nat, exitId: Bytes, epoch: int, seqNo: int, encapsulatedKey: Bytes, aeadTag: Bytes, ciphertext: Bytes)

  datatype FrameV2 = FrameV2(
    version: nat, exitId: Bytes, epoch: int, seqNo: int, encapsulatedKey: Bytes, pqCt: Bytes, aeadTag: Bytes,
    ciphertext: Bytes)

  const FIELDS_V1 := [Raw(EXIT_ID_LEN), Integer, Integer, Raw(ENCAPSULATED_KEY_LEN), Raw(AEAD_TAG_LEN), Block]
  const FIELDS_V2 := [Raw(EXIT_ID_LEN), Integer, Integer, Raw(ENCAPSULATED_KEY_LEN), Block, Raw(AEAD_TAG_LEN), Block]

  // ---- any version octet and list of fields -----------------------------------------

  /** Decoding bytes: the version first, the fields, and nothing after them. */
  function Decoded(version: byte, fields: seq<Field>, s: Bytes): (r: Result<seq<Item>, FrameError>)
    ensures r.Ok? ==> AllFit(fields, r.value)
  {
    if s == [] then Err(Truncated)
    else if s[0] != version then Err(WrongVersion)
    else
      match ReadAll(fields, s[1..])
      case Failed(e) => Err(e)
      case Got(items, length) => if 1 + length == |s| then Ok(items) else Err(TrailingBytes)
  }

  /** Decoding inverts encoding exactly when every integer is short. */
  lemma DecodedSpelling(version: byte, fields: seq<Field>, items: seq<Item>)
    requires AllFit(fields, items)
    ensures Decoded(version, fields, [version] + SpellAll(items))
         == if forall i :: 0 <= i < |items| ==> Short(items[i]) then Ok(items) else Err(TooLong)
  {
    AllRoundTrip(fields, items, []);
    assert SpellAll(items) + [] == SpellAll(items) == ([version] + SpellAll(items))[1..];
  }

  /** Every strict prefix of a frame is truncated: a frame marks its own end. */
  lemma PrefixIsTruncated(version: byte, fields: seq<Field>, s: Bytes, k: nat)
    requires Decoded(version, fields, s).Ok? && k < |s|
    ensures Decoded(version, fields, s[..k]) == Err(Truncated)
  {
    if k > 0 {
      var front, back := s[1..k], s[k..];
      assert s[..k][1..] == front && front + back == s[1..];
      if ReadAll(fields, front) != Failed(Truncated) { AllExtend(fields, front, back); }
    }
  }

  /** Every error but a truncation stays what it is, whatever bytes follow. */
  lemma FatalStaysFatal(version: byte, fields: seq<Field>, s: Bytes, t: Bytes)
    requires Decoded(version, fields, s).Err? && Decoded(version, fields, s).error != Truncated
    ensures Decoded(version, fields, s + t) == Decoded(version, fields, s)
  {
    assert (s + t)[1..] == s[1..] + t;
    if s[0] == version { AllExtend(fields, s[1..], t); }
  }

  // ---- the cursor over a buffer ----------------------------------------------------

  /** `out.set(src, o); o += src.length`. */
  method Append(out: array<byte>, o: nat, src: Bytes) returns (o': nat)
    requires o + |src| <= out.Length
    modifies out
    ensures o' == o + |src| && out[..o'] == old(out[..o]) + src
  {
    o' := o + |src|;
    ghost var before := out[..];
    Put(out, src, o);
    assert out[..o'] == out[..][..o] + out[..][o..o'];
    assert before[..o] == old(out[..o]);
  }

  /** Reads one field at the cursor. */
  method ReadAt(field: Field, bytes: Bytes, o: nat) returns (r: Reading<Item>)
    requires o <= |bytes|
    ensures r == ReadField(field, bytes[o..])
  {
    match field {
      case Raw(size) =>
        if o + size > |bytes| { return Failed(Truncated); }
        assert bytes[o..][..size] == bytes[o..o + size];
        return Got(Fixed(bytes[o..o + size]), size);
      case Integer =>
        var n := DecodeLeb128(bytes[o..]);
        return if n.Failed? then Failed(n.error) else Got(Int(n.value), n.length);
      case Block =>
        var n := DecodeLeb128(bytes[o..]);
        if n.Failed? { return Failed(n.error); }
        var at := o + n.length;
        if at + n.value > |bytes| { return Failed(Truncated); }
        assert bytes[o..][n.length..n.length + n.value] == bytes[at..at + n.value];
        return Got(Blob(bytes[at..at + n.value]), n.length + n.value);
    }
  }

  /** A whole reading from one that starts after `done`, `used` octets in. */
  function Continued(done: seq<Item>, used: nat, rest: Reading<seq<Item>>): Reading<seq<Item>> {
    match rest
    case Failed(e) => Failed(e)
    case Got(items, length) => Got(done + items, used + length)
  }

  lemma ContinuedTwice(done: seq<Item>, used: nat, item: Item, length: nat, rest: Reading<seq<Item>>)
    ensures Continued(done, used, Continued([item], length, rest)) == Continued(done + [item], used + length, rest)
  {
    if rest.Got? { assert done + ([item] + rest.value) == (done + [item]) + rest.value; }
  }

  /** Halfway through a `whole` reading: `done` has been read, the cursor is at `o` and some fields are `left`. */
  ghost predicate Reached(whole: Reading<seq<Item>>, bytes: Bytes, o: int, left: seq<Field>, done: seq<Item>) {
    1 <= o <= |bytes| && whole == Continued(done, o - 1, ReadAll(left, bytes[o..]))
  }

  /** Reads the field at the cursor. */
  method Next(field: Field, bytes: Bytes, o: nat,
              ghost whole: Reading<seq<Item>>, ghost left: seq<Field>, ghost done: seq<Item>)
    returns (r: Reading<Item>)
    requires left != [] && left[0] == field && Reached(whole, bytes, o, left, done)
    ensures r.Failed? ==> whole == Failed(r.error)
    ensures r.Got? ==> Fits(field, r.value) && Reached(whole, bytes, o + r.length, left[1..], done + [r.value])
  {
    r := ReadAt(field, bytes, o);
    if r.Got? {
      ghost var rest := ReadAll(left[1..], bytes[o + r.length..]);
      assert bytes[o..][r.length..] == bytes[o + r.length..];
      ContinuedTwice(done, o - 1, r.value, r.length, rest);
    }
  }

  /** Reads the next two fields. */
  method NextTwo(first: Field, second: Field, bytes: Bytes, o: nat,
                 ghost whole: Reading<seq<Item>>, ghost left: seq<Field>, ghost done: seq<Item>)
    returns (r: Reading<(Item, Item)>)
    requires |left| >= 2 && left[0] == first && left[1] == second && Reached(whole, bytes, o, left, done)
    ensures r.Failed? ==> whole == Failed(r.error)
    ensures r.Got? ==> Fits(first, r.value.0) && Fits(second, r.value.1)
    ensures r.Got? ==> Reached(whole, bytes, o + r.length, left[2..], done + [r.value.0, r.value.1])
  {
    var a := Next(first, bytes, o, whole, left, done);
    if a.Failed? { return Failed(a.error); }
    var b := Next(second, bytes, o + a.length, whole, left[1..], done + [a.value]);
    if b.Failed? { return Failed(b.error); }
    ghost var left', done' := left[2..], done + [a.value, b.value];
    assert left' == left[1..][1..];
    assert done' == done + [a.value] + [b.value];
    return Got((a.value, b.value), a.length + b.length);
  }

  /** The four fields both versions begin with. */
  datatype Head = Head(exitId: Bytes, epoch: nat, seqNo: nat, encapsulatedKey: Bytes)

  function HeadItems(h: Head): seq<Item> {
    [Fixed(h.exitId), Int(h.epoch), Int(h.seqNo), Fixed(h.encapsulatedKey)]
  }

  lemma SetOut(whole: Reading<seq<Item>>, fields: seq<Field>, bytes: Bytes)
    requires bytes != [] && whole == ReadAll(fields, bytes[1..])
    ensures Reached(whole, bytes, 1, fields, [])
  {
    assert whole.Got? ==> [] + whole.value == whole.value;
  }

  /** Reads the four fields after the version octet. */
  method ReadHead(bytes: Bytes, ghost whole: Reading<seq<Item>>, ghost fields: seq<Field>) returns (r: Reading<Head>)
    requires bytes != [] && |fields| >= 4 && Reached(whole, bytes, 1, fields, [])
    requires fields[0] == Raw(EXIT_ID_LEN) && fields[1] == Integer && fields[2] == Integer
    requires fields[3] == Raw(ENCAPSULATED_KEY_LEN)
    ensures r.Failed? ==> whole == Failed(r.error)
    ensures r.Got? ==> |r.value.exitId| == EXIT_ID_LEN && |r.value.encapsulatedKey| == ENCAPSULATED_KEY_LEN
    ensures r.Got? ==> Reached(whole, bytes, 1 + r.length, fields[4..], HeadItems(r.value))
  {
    var a := NextTwo(Raw(EXIT_ID_LEN), Integer, bytes, 1, whole, fields, []);
    if a.Failed? { return Failed(a.error); }
    ghost var done := [] + [a.value.0, a.value.1];
    var b := NextTwo(Integer, Raw(ENCAPSULATED_KEY_LEN), bytes, 1 + a.length, whole, fields[2..], done);
    if b.Failed? { return Failed(b.error); }
    r := Got(Head(a.value.0.octets, a.value.1.value, b.value.0.value, b.value.1.octets), a.length + b.length);
    ghost var left', done' := fields[4..], HeadItems(r.value);
    assert left' == fields[2..][2..];
    assert done' == done + [b.value.0, b.value.1];
  }

  /** With every field read, only the end of the bytes is left to check. */
  lemma Arrived(version: byte, fields: seq<Field>, bytes: Bytes, left: seq<Field>, items: seq<Item>, o: nat)
    requires bytes != [] && bytes[0] == version && |left| == 0
             && Reached(ReadAll(fields, bytes[1..]), bytes, o, left, items)
    ensures Decoded(version, fields, bytes) == if o == |bytes| then Ok(items) else Err(TrailingBytes)
  {
    assert items + [] == items;
  }

  /** Reads the tag and the ciphertext every frame ends with, and checks that it ends there. */
  method Finish(version: byte, bytes: Bytes, o: nat,
                ghost fields: seq<Field>, ghost left: seq<Field>, ghost done: seq<Item>)
    returns (r: Result<(Bytes, Bytes), FrameError>)
    requires bytes != [] && bytes[0] == version && left == [Raw(AEAD_TAG_LEN), Block]
    requires Reached(ReadAll(fields, bytes[1..]), bytes, o, left, done)
    ensures r.Err? ==> Decoded(version, fields, bytes) == Err(r.error)
    ensures r.Ok? ==> |r.value.0| == AEAD_TAG_LEN
    ensures r.Ok? ==> Decoded(version, fields, bytes) == Ok(done + [Fixed(r.value.0), Blob(r.value.1)])
  {
    ghost var whole := ReadAll(fields, bytes[1..]);
    var body := NextTwo(Raw(AEAD_TAG_LEN), Block, bytes, o, whole, left, done);
    if body.Failed? { return Err(body.error); }
    Arrived(version, fields, bytes, left[2..], done + [body.value.0, body.value.1], o + body.length);
    if o + body.length != |bytes| {
      return Err(TrailingBytes);
    }
    return Ok((body.value.0.octets, body.value.1.content));
  }

  lemma {:induction false} SpellSnoc(items: seq<Item>, item: Item)
    ensures SpellAll(items + [item]) == SpellAll(items) + Spell(item)
  {
    if items == [] {
      assert [item][1..] == [] && SpellAll([item]) == Spell(item) + [];
    } else {
      assert (items + [item])[1..] == items[1..] + [item];
      SpellSnoc(items[1..], item);
    }
  }

  /** The bytes written so far: the version octet and `items`. */
  ghost predicate Written(out: Bytes, version: byte, items: seq<Item>) {
    out == [version] + SpellAll(items)
  }

  lemma WrittenBlock(out: Bytes, version: byte, items: seq<Item>, content: Bytes)
    requires Written(out, version, items)
    ensures Written(out + Leb(|content|) + content, version, items + [Blob(content)])
  {
    SpellSnoc(items, Blob(content));
    Associate(out, Leb(|content|), content);
    Associate([version], SpellAll(items), Spell(Blob(content)));
  }

  /** Writes the next field, already spelled. */
  method Write(out: array<byte>, o: nat, octets: Bytes, ghost version: byte, ghost items: seq<Item>, ghost item: Item)
    returns (o': nat)
    requires o + |octets| <= out.Length && octets == Spell(item) && Written(out[..o], version, items)
    modifies out
    ensures o' == o + |octets| && Written(out[..o'], version, items + [item])
  {
    o' := Append(out, o, octets);
    SpellSnoc(items, item);
  }

  /** Writes a length and the octets it announces. */
  method WriteBlock(out: array<byte>, o: nat, size: Bytes, content: Bytes, ghost version: byte, ghost items: seq<Item>)
    returns (o': nat)
    requires o + |size| + |content| <= out.Length && size == Leb(|content|) && Written(out[..o], version, items)
    modifies out
    ensures o' == o + |size| + |content| && Written(out[..o'], version, items + [Blob(content)])
  {
    WrittenBlock(out[..o], version, items, content);
    o' := Append(out, o, size);
    o' := Append(out, o', content);
  }

  /** Writes the version octet and the four fields both versions begin with. */
  method WriteHead(
    out: array<byte>, version: byte, exitId: Bytes, epoch: Bytes, seqNo: Bytes, key: Bytes, ghost h: Head)
    returns (o: nat)
    requires h.exitId == exitId && Leb(h.epoch) == epoch && Leb(h.seqNo) == seqNo && h.encapsulatedKey == key
    requires 1 + |exitId| + |epoch| + |seqNo| + |key| <= out.Length
    modifies out
    ensures o == 1 + |exitId| + |epoch| + |seqNo| + |key| && Written(out[..o], version, HeadItems(h))
  {
    o := Append(out, 0, [version]);
    ghost var items: seq<Item> := [];
    assert out[..o] == [version] + SpellAll(items);
    o := Write(out, o, exitId, version, items, Fixed(exitId));
    items := items + [Fixed(exitId)];
    o := Write(out, o, epoch, version, items, Int(h.epoch));
    items := items + [Int(h.epoch)];
    o := Write(out, o, seqNo, version, items, Int(h.seqNo));
    items := items + [Int(h.seqNo)];
    o := Write(out, o, key, version, items, Fixed(key));
    assert items + [Fixed(key)] == HeadItems(h);
  }

  // ---- /v1 -------------------------------------------------------------------------

  predicate Encodable(f: Frame) {
    && |f.exitId| == EXIT_ID_LEN && |f.encapsulatedKey| == ENCAPSULATED_KEY_LEN && |f.aeadTag| == AEAD_TAG_LEN
    && f.epoch >= 0 && f.seqNo >= 0
  }

  /** A frame of the wire's own types: this version, a `u32` epoch and a `u64` sequence number. */
  predicate Wire(f: Frame) {
    Encodable(f) && f.version == V1 && f.epoch < Pow(2, 32) && f.seqNo < Pow(2, 64) && |f.ciphertext| < Pow(2, 64)
  }

  function Items(f: Frame): seq<Item>
    requires Encodable(f)
  {
    [Fixed(f.exitId), Int(f.epoch), Int(f.seqNo), Fixed(f.encapsulatedKey), Fixed(f.aeadTag), Blob(f.ciphertext)]
  }

  function FrameOf(items: seq<Item>): (f: Frame)
    requires AllFit(FIELDS_V1, items)
    ensures Encodable(f) && Items(f) == items
  {
    assert Fits(FIELDS_V1[0], items[0]) && Fits(FIELDS_V1[1], items[1]) && Fits(FIELDS_V1[2], items[2]);
    assert Fits(FIELDS_V1[3], items[3]) && Fits(FIELDS_V1[4], items[4]) && Fits(FIELDS_V1[5], items[5]);
    Frame(1, items[0].octets, items[1].value, items[2].value, items[3].octets, items[4].octets, items[5].content)
  }

  function DecodedV1(s: Bytes): Result<Frame, FrameError> {
    match Decoded(V1, FIELDS_V1, s)
    case Err(e) => Err(e)
    case Ok(items) => Ok(FrameOf(items))
  }

  lemma SpellTwo(items: seq<Item>, a: Item, b: Item)
    ensures SpellAll(items + [a, b]) == SpellAll(items) + Spell(a) + Spell(b)
  {
    SpellSnoc(items, a);
    SpellSnoc(items + [a], b);
    assert items + [a] + [b] == items + [a, b];
  }

  /** The wire layout, field after field. */
  function Layout(f: Frame): Bytes
    requires Encodable(f)
  {
    f.exitId + Leb(f.epoch) + Leb(f.seqNo) + f.encapsulatedKey + f.aeadTag + (Leb(|f.ciphertext|) + f.ciphertext)
  }

  lemma ItemsSpellTheLayout(f: Frame)
    requires Encodable(f)
    ensures SpellAll(Items(f)) == Layout(f)
  {
    var items := Items(f);
    SpellTwo([], items[0], items[1]);
    SpellTwo(items[..2], items[2], items[3]);
    SpellTwo(items[..4], items[4], items[5]);
    assert [] + [items[0], items[1]] == items[..2] && [] + Spell(items[0]) == f.exitId;
    assert items[..2] + [items[2], items[3]] == items[..4] && items[..4] + [items[4], items[5]] == items;
  }

  /** The encoding: the version octet and the layout. */
  method EncodeFrame(f: Frame) returns (r: Result<Bytes, ()>)
    ensures r.Ok? <==> Encodable(f)
    ensures r.Ok? ==> r.value == [f.version % 256] + SpellAll(Items(f))
    ensures r.Ok? ==> r.value == [f.version % 256] + Layout(f)
  {
    r := WriteFrame(f);
    if r.Ok? { ItemsSpellTheLayout(f); }
  }

  /** Writes the fields through a cursor. The version octet is the low octet of `version`. */
  method WriteFrame(f: Frame) returns (r: Result<Bytes, ()>)
    ensures r.Ok? <==> Encodable(f)
    ensures r.Ok? ==> r.value == [f.version % 256] + SpellAll(Items(f))
  {
    if |f.exitId| != EXIT_ID_LEN || |f.encapsulatedKey| != ENCAPSULATED_KEY_LEN || |f.aeadTag| != AEAD_TAG_LEN {
      return Err(());
    }
    var epoch := EncodeLeb128(f.epoch);
    var seqNo := EncodeLeb128(f.seqNo);
    var ctLen := EncodeLeb128(|f.ciphertext|);
    if epoch.Err? || seqNo.Err? {
      return Err(());
    }
    var out := new byte[1 + EXIT_ID_LEN + |epoch.value| + |seqNo.value| + ENCAPSULATED_KEY_LEN
                        + AEAD_TAG_LEN + |ctLen.value| + |f.ciphertext|];
    ghost var v, h := f.version % 256, Head(f.exitId, f.epoch, f.seqNo, f.encapsulatedKey);
    var o := WriteHead(out, f.version % 256, f.exitId, epoch.value, seqNo.value, f.encapsulatedKey, h);
    ghost var items := HeadItems(h);
    o := Write(out, o, f.aeadTag, v, items, Fixed(f.aeadTag));
    items := items + [Fixed(f.aeadTag)];
    o := WriteBlock(out, o, ctLen.value, f.ciphertext, v, items);
    items := items + [Blob(f.ciphertext)];
    assert items == Items(f) && out[..o] == out[..];
    return Ok(out[..]);
  }

  lemma Recognized(f: Frame, items: seq<Item>)
    requires Encodable(f) && f.version == V1 && |items| == 6
    requires items[0] == Items(f)[0] && items[1] == Items(f)[1] && items[2] == Items(f)[2]
             && items[3] == Items(f)[3] && items[4] == Items(f)[4] && items[5] == Items(f)[5]
    ensures AllFit(FIELDS_V1, items) && FrameOf(items) == f
  {
    assert items == Items(f);
  }

  method DecodeFrame(bytes: Bytes) returns (r: Result<Frame, FrameError>)
    ensures r == DecodedV1(bytes)
  {
    if |bytes| < 1 {
      return Err(Truncated);
    }
    if bytes[0] != V1 {
      return Err(WrongVersion);
    }
    ghost var whole := ReadAll(FIELDS_V1, bytes[1..]);
    SetOut(whole, FIELDS_V1, bytes);
    var head := ReadHead(bytes, whole, FIELDS_V1);
    if head.Failed? { return Err(head.error); }
    var h := head.value;
    ghost var left, done := FIELDS_V1[4..], HeadItems(h);
    var body := Finish(V1, bytes, 1 + head.length, FIELDS_V1, left, done);
    if body.Err? { return Err(body.error); }
    var (aeadTag, ciphertext) := body.value;
    var f := Frame(V1, h.exitId, h.epoch, h.seqNo, h.encapsulatedKey, aeadTag, ciphertext);
    Recognized(f, done + [Fixed(aeadTag), Blob(ciphertext)]);
    return Ok(f);
  }

  /** What a decoder makes of an encoding: the frame, exactly when its version is 1 and its integers have ten groups. */
  lemma RoundTrip(f: Frame)
    requires Encodable(f)
    ensures DecodedV1([f.version % 256] + SpellAll(Items(f))) == Ok(f) <==>
              && f.version == V1
              && f.epoch < Pow(128, 10) && f.seqNo < Pow(128, 10)
              && |f.ciphertext| < Pow(128, 10)
  {
    var items := Items(f);
    if f.version == V1 {
      DecodedSpelling(V1, FIELDS_V1, items);
      AllShort(f);
    }
  }

  lemma AllShort(f: Frame)
    requires Encodable(f)
    ensures (forall i :: 0 <= i < 6 ==> Short(Items(f)[i])) <==>
              f.epoch < Pow(128, MAX_GROUPS) && f.seqNo < Pow(128, MAX_GROUPS) && |f.ciphertext| < Pow(128, MAX_GROUPS)
  {
    var items := Items(f);
    assert Short(items[1]) <==> f.epoch < Pow(128, MAX_GROUPS);
    assert Short(items[2]) <==> f.seqNo < Pow(128, MAX_GROUPS);
    assert Short(items[5]) <==> |f.ciphertext| < Pow(128, MAX_GROUPS);
  }

  /** Every frame of the wire's own types survives the wire. */
  lemma WireFramesSurvive(f: Frame)
    requires Wire(f)
    ensures DecodedV1([V1] + SpellAll(Items(f))) == Ok(f)
  {
    WordsFit();
    RoundTrip(f);
  }

  // ---- /v2 -------------------------------------------------------------------------

  predicate EncodableV2(f: FrameV2) {
    && |f.exitId| == EXIT_ID_LEN && |f.encapsulatedKey| == ENCAPSULATED_KEY_LEN && |f.aeadTag| == AEAD_TAG_LEN
    && f.epoch >= 0 && f.seqNo >= 0
  }

  function ItemsV2(f: FrameV2): seq<Item>
    requires EncodableV2(f)
  {
    [Fixed(f.exitId), Int(f.epoch), Int(f.seqNo), Fixed(f.encapsulatedKey), Blob(f.pqCt), Fixed(f.aeadTag),
     Blob(f.ciphertext)]
  }

  function FrameV2Of(items: seq<Item>): (f: FrameV2)
    requires AllFit(FIELDS_V2, items)
    ensures EncodableV2(f) && ItemsV2(f) == items
  {
    assert Fits(FIELDS_V2[0], items[0]) && Fits(FIELDS_V2[1], items[1]) && Fits(FIELDS_V2[2], items[2]);
    assert Fits(FIELDS_V2[3], items[3]) && Fits(FIELDS_V2[4], items[4]) && Fits(FIELDS_V2[5], items[5]);
    assert Fits(FIELDS_V2[6], items[6]);
    FrameV2(2, items[0].octets, items[1].value, items[2].value, items[3].octets, items[4].content, items[5].octets,
            items[6].content)
  }

  function DecodedV2(s: Bytes): Result<FrameV2, FrameError> {
    if |s| > MAX_FRAME_SIZE then Err(Oversize)
    else
      match Decoded(V2, FIELDS_V2, s)
      case Err(e) => Err(e)
      case Ok(items) => Ok(FrameV2Of(items))
  }

  /** The wire layout of `/v2`: the KEM ciphertext stands between the ephemeral key and the tag. */
  function LayoutV2(f: FrameV2): Bytes
    requires EncodableV2(f)
  {
    f.exitId + Leb(f.epoch) + Leb(f.seqNo) + f.encapsulatedKey + (Leb(|f.pqCt|) + f.pqCt) + f.aeadTag
    + (Leb(|f.ciphertext|) + f.ciphertext)
  }

  lemma ItemsSpellTheLayoutV2(f: FrameV2)
    requires EncodableV2(f)
    ensures SpellAll(ItemsV2(f)) == LayoutV2(f)
  {
    var items := ItemsV2(f);
    SpellTwo([], items[0], items[1]);
    SpellTwo(items[..2], items[2], items[3]);
    SpellTwo(items[..4], items[4], items[5]);
    SpellSnoc(items[..6], items[6]);
    assert [] + [items[0], items[1]] == items[..2] && [] + Spell(items[0]) == f.exitId;
    assert items[..2] + [items[2], items[3]] == items[..4] && items[..4] + [items[4], items[5]] == items[..6];
    assert items[..6] + [items[6]] == items;
  }

  /** The encoding: the version octet and the layout. */
  method EncodeFrameV2(f: FrameV2) returns (r: Result<Bytes, ()>)
    ensures r.Ok? <==> EncodableV2(f)
    ensures r.Ok? ==> r.value == [f.version % 256] + SpellAll(ItemsV2(f))
    ensures r.Ok? ==> r.value == [f.version % 256] + LayoutV2(f)
  {
    r := WriteFrameV2(f);
    if r.Ok? { ItemsSpellTheLayoutV2(f); }
  }

  /** Writes the fields through a cursor. The version octet is the low octet of `version`. */
  method WriteFrameV2(f: FrameV2) returns (r: Result<Bytes, ()>)
    ensures r.Ok? <==> EncodableV2(f)
    ensures r.Ok? ==> r.value == [f.version % 256] + SpellAll(ItemsV2(f))
  {
    if |f.exitId| != EXIT_ID_LEN || |f.encapsulatedKey| != ENCAPSULATED_KEY_LEN || |f.aeadTag| != AEAD_TAG_LEN {
      return Err(());
    }
    var epoch := EncodeLeb128(f.epoch);
    var seqNo := EncodeLeb128(f.seqNo);
    var pqCtLen := EncodeLeb128(|f.pqCt|);
    var ctLen := EncodeLeb128(|f.ciphertext|);
    if epoch.Err? || seqNo.Err? {
      return Err(());
    }
    var out := new byte[1 + EXIT_ID_LEN + |epoch.value| + |seqNo.value| + ENCAPSULATED_KEY_LEN
                        + |pqCtLen.value| + |f.pqCt|
                        + AEAD_TAG_LEN + |ctLen.value| + |f.ciphertext|];
    ghost var v, h := f.version % 256, Head(f.exitId, f.epoch, f.seqNo, f.encapsulatedKey);
    var o := WriteHead(out, f.version % 256, f.exitId, epoch.value, seqNo.value, f.encapsulatedKey, h);
    ghost var items := HeadItems(h);
    o := WriteBlock(out, o, pqCtLen.value, f.pqCt, v, items);
    items := items + [Blob(f.pqCt)];
    o := Write(out, o, f.aeadTag, v, items, Fixed(f.aeadTag));
    items := items + [Fixed(f.aeadTag)];
    o := WriteBlock(out, o, ctLen.value, f.ciphertext, v, items);
    items := items + [Blob(f.ciphertext)];
    assert items == ItemsV2(f) && out[..o] == out[..];
    return Ok(out[..]);
  }

  lemma RecognizedV2(f: FrameV2, items: seq<Item>)
    requires EncodableV2(f) && f.version == V2 && |items| == 7
    requires items[0] == ItemsV2(f)[0] && items[1] == ItemsV2(f)[1] && items[2] == ItemsV2(f)[2]
             && items[3] == ItemsV2(f)[3] && items[4] == ItemsV2(f)[4] && items[5] == ItemsV2(f)[5]
             && items[6] == ItemsV2(f)[6]
    ensures AllFit(FIELDS_V2, items) && FrameV2Of(items) == f
  {
    assert items == ItemsV2(f);
  }

  /** Reads the head of a `/v2` frame and its KEM ciphertext. */
  method ReadHeadV2(bytes: Bytes, ghost whole: Reading<seq<Item>>) returns (r: Reading<(Head, Bytes)>)
    requires bytes != [] && Reached(whole, bytes, 1, FIELDS_V2, [])
    ensures r.Failed? ==> whole == Failed(r.error)
    ensures r.Got? ==> |r.value.0.exitId| == EXIT_ID_LEN && |r.value.0.encapsulatedKey| == ENCAPSULATED_KEY_LEN
    ensures r.Got? ==> Reached(whole, bytes, 1 + r.length, FIELDS_V2[5..], HeadItems(r.value.0) + [Blob(r.value.1)])
  {
    var head := ReadHead(bytes, whole, FIELDS_V2);
    if head.Failed? { return Failed(head.error); }
    var pqCt := Next(Block, bytes, 1 + head.length, whole, FIELDS_V2[4..], HeadItems(head.value));
    if pqCt.Failed? { return Failed(pqCt.error); }
    ghost var left := FIELDS_V2[5..];
    assert left == FIELDS_V2[4..][1..];
    return Got((head.value, pqCt.value.content), head.length + pqCt.length);
  }

  method DecodeFrameV2(bytes: Bytes) returns (r: Result<FrameV2, FrameError>)
    ensures r == DecodedV2(bytes)
  {
    if |bytes| > MAX_FRAME_SIZE {
      return Err(Oversize);
    }
    if |bytes| < 1 {
      return Err(Truncated);
    }
    if bytes[0] != V2 {
      return Err(WrongVersion);
    }
    ghost var whole := ReadAll(FIELDS_V2, bytes[1..]);
    SetOut(whole, FIELDS_V2, bytes);
    var head := ReadHeadV2(bytes, whole);
    if head.Failed? { return Err(head.error); }
    var (h, pqCt) := head.value;
    ghost var left, done := FIELDS_V2[5..], HeadItems(h) + [Blob(pqCt)];
    var body := Finish(V2, bytes, 1 + head.length, FIELDS_V2, left, done);
    if body.Err? { return Err(body.error); }
    var (aeadTag, ciphertext) := body.value;
    var f := FrameV2(V2, h.exitId, h.epoch, h.seqNo, h.encapsulatedKey, pqCt, aeadTag, ciphertext);
    RecognizedV2(f, done + [Fixed(aeadTag), Blob(ciphertext)]);
    return Ok(f);
  }

  /** The frame comes back exactly when its version is 2, its integers have ten groups and it is not oversize. */
  lemma RoundTripV2(f: FrameV2)
    requires EncodableV2(f)
    ensures var s := [f.version % 256] + SpellAll(ItemsV2(f));
            DecodedV2(s) == Ok(f) <==>
              && f.version == 2 && f.epoch < Pow(128, 10) && f.seqNo < Pow(128, 10)
              && |s| <= 65536
  {
    var items := ItemsV2(f);
    if f.version == V2 {
      DecodedSpelling(V2, FIELDS_V2, items);
      if |SpellAll(items)| < MAX_FRAME_SIZE { AllShortV2(f); }
    }
  }

  lemma AllShortV2(f: FrameV2)
    requires EncodableV2(f) && |SpellAll(ItemsV2(f))| < MAX_FRAME_SIZE
    ensures (forall i :: 0 <= i < 7 ==> Short(ItemsV2(f)[i])) <==>
              f.epoch < Pow(128, MAX_GROUPS) && f.seqNo < Pow(128, MAX_GROUPS)
  {
    var items := ItemsV2(f);
    ItemIsPart(items, 4);
    ItemIsPart(items, 6);
    PowIncreases(128, 3, MAX_GROUPS);
    assert Pow(128, 3) == 2097152;
    assert Short(items[1]) <==> f.epoch < Pow(128, MAX_GROUPS);
    assert Short(items[2]) <==> f.seqNo < Pow(128, MAX_GROUPS);
  }

  lemma {:induction false} ItemIsPart(items: seq<Item>, i: nat)
    requires i < |items|
    ensures |Spell(items[i])| <= |SpellAll(items)|
  {
    if i > 0 { ItemIsPart(items[1..], i - 1); }
  }

  /** No bytes are a frame of both versions. */
  lemma NeverCrossDecode(s: Bytes)
    ensures DecodedV1(s).Ok? ==> DecodedV2(s).Err?
    ensures |s| <= MAX_FRAME_SIZE && DecodedV1(s).Ok? ==> DecodedV2(s) == Err(WrongVersion)
    ensures DecodedV2(s).Ok? ==> DecodedV1(s) == Err(WrongVersion)
  {
  }
}
