/**
 The per-packet key schedule of the multi-hop seal (`seal.ts`, `pq-seal.ts`): every packet has
 a key exported for its slot, which is its epoch, its sequence number and its direction. The
 key derivation and the AEAD are functions given from outside.
 */
module Sealing {
  import opened Numbers
  import opened Octets
  import opened Results

  const EPOCH_LEN: nat := 4
  const SEQ_LEN: nat := 8
  const TAG_LEN: nat := 16
  const EXIT_ID_LEN: nat := 16
  const REVERSE_TAG: byte := 2

  function Ascii(s: string): (r: Bytes)
    requires forall i :: 0 <= i < |s| ==> s[i] < 128 as char
    ensures |r| == |s| && forall i :: 0 <= i < |s| ==> r[i] == s[i] as int
  {
    seq(|s|, i requires 0 <= i < |s| => s[i] as int)
  }

  /** The label both the associated data and the export info begin with, one for each frame version. */
  function LabelV1(): (r: Bytes)
    ensures |r| == 22 && r[17] == 49
  {
    Ascii("warren/multihop/v1/aad")
  }

  function LabelV2(): (r: Bytes)
    ensures |r| == 25 && r[17] == 50
  {
    Ascii("warren/multihop/v2/pq-aad")
  }

  /** The labels, octet by octet: `warren/multihop/v1/aad` and `warren/multihop/v2/pq-aad`. */
  lemma LabelOctets()
    ensures LabelV1() == [119, 97, 114, 114, 101, 110, 47, 109, 117, 108, 116, 105, 104, 111, 112, 47, 118, 49, 47,
                          97, 97, 100]
    ensures LabelV2() == [119, 97, 114, 114, 101, 110, 47, 109, 117, 108, 116, 105, 104, 111, 112, 47, 118, 50, 47,
                          112, 113, 45, 97, 97, 100]
  {
    assert LabelV1() == Ascii("warren/multihop/v1/aad") && LabelV2() == Ascii("warren/multihop/v2/pq-aad");
  }

  // ---- infos and associated data -------------------------------------------------------

  /** What a packet's key is exported for. */
  datatype Slot = Slot(epoch: nat, seqNo: nat, reverse: bool)

  function Info(domain: Bytes, slot: Slot): Bytes {
    domain + Spelling(slot.epoch, EPOCH_LEN) + Spelling(slot.seqNo, SEQ_LEN)
    + if slot.reverse then [REVERSE_TAG] else []
  }

  function Aad(domain: Bytes, exitId: Bytes, slot: Slot): Bytes {
    domain + exitId + Spelling(slot.epoch, EPOCH_LEN) + Spelling(slot.seqNo, SEQ_LEN)
  }

  /** The slots a fixed-width spelling cannot tell apart. */
  predicate SameSlot(a: Slot, b: Slot) {
    a.reverse == b.reverse && SameWord(a.epoch, b.epoch, EPOCH_LEN) && SameWord(a.seqNo, b.seqNo, SEQ_LEN)
  }

  predicate SameWord(m: nat, n: nat, len: nat) {
    PowNonNegative(256, len);
    m % Pow(256, len) == n % Pow(256, len)
  }

  lemma SpellingsCollide(m: nat, n: nat, len: nat)
    ensures Spelling(m, len) == Spelling(n, len) <==> SameWord(m, n, len)
  {
    SpellingOfResidue(m, len);
    SpellingOfResidue(n, len);
    var p := Pow(256, len);
    if Spelling(m, len) == Spelling(n, len) {
      SpellingIsInjective(m % p, n % p, len);
    }
  }

  /** Two slots share an export info exactly when no fixed-width spelling tells them apart. */
  lemma InfosCollide(domain: Bytes, a: Slot, b: Slot)
    ensures Info(domain, a) == Info(domain, b) <==> SameSlot(a, b)
  {
    var ea, eb := Spelling(a.epoch, EPOCH_LEN), Spelling(b.epoch, EPOCH_LEN);
    var sa, sb := Spelling(a.seqNo, SEQ_LEN), Spelling(b.seqNo, SEQ_LEN);
    var da, db := if a.reverse then [REVERSE_TAG] else [], if b.reverse then [REVERSE_TAG] else [];
    SplitsEqual(domain + ea + sa, da, domain + eb + sb, db);
    SplitsEqual(domain + ea, sa, domain + eb, sb);
    SplitsEqual(domain, ea, domain, eb);
    SpellingsCollide(a.epoch, b.epoch, EPOCH_LEN);
    SpellingsCollide(a.seqNo, b.seqNo, SEQ_LEN);
  }

  /** Associated data tells exits and slots apart; the direction is left to the key. */
  lemma AadsCollide(domain: Bytes, x: Bytes, a: Slot, y: Bytes, b: Slot)
    requires |x| == |y| == EXIT_ID_LEN
    ensures Aad(domain, x, a) == Aad(domain, y, b) <==> x == y && SameSlot(a.(reverse := false), b.(reverse := false))
  {
    var ea, eb := Spelling(a.epoch, EPOCH_LEN), Spelling(b.epoch, EPOCH_LEN);
    var sa, sb := Spelling(a.seqNo, SEQ_LEN), Spelling(b.seqNo, SEQ_LEN);
    SplitsEqual(domain + x + ea, sa, domain + y + eb, sb);
    SplitsEqual(domain + x, ea, domain + y, eb);
    SplitsEqual(domain, x, domain, y);
    SpellingsCollide(a.epoch, b.epoch, EPOCH_LEN);
    SpellingsCollide(a.seqNo, b.seqNo, SEQ_LEN);
  }

  lemma SmallWordsDiffer(m: nat, n: nat, len: nat)
    requires m < Pow(256, len) && n < Pow(256, len)
    ensures SameWord(m, n, len) <==> m == n
  {
    DivModUnique(m, Pow(256, len), 0, m);
    DivModUnique(n, Pow(256, len), 0, n);
  }

  /** A slot whose epoch is below 2^32 and whose sequence number is below 2^64. */
  predicate InRange(s: Slot) {
    s.epoch < Pow(2, 32) && s.seqNo < Pow(2, 64)
  }

  lemma WordSizes()
    ensures Pow(256, EPOCH_LEN) == Pow(2, 32) && Pow(256, SEQ_LEN) == Pow(2, 64)
  {
    assert Pow(2, 8) == 256;
    PowMultiplies(2, 8, EPOCH_LEN);
    PowMultiplies(2, 8, SEQ_LEN);
  }

  /** In that range every slot has an export info of its own. */
  lemma SlotsHaveTheirOwnInfo(domain: Bytes, a: Slot, b: Slot)
    requires InRange(a) && InRange(b)
    ensures Info(domain, a) == Info(domain, b) <==> a == b
  {
    WordSizes();
    InfosCollide(domain, a, b);
    SmallWordsDiffer(a.epoch, b.epoch, EPOCH_LEN);
    SmallWordsDiffer(a.seqNo, b.seqNo, SEQ_LEN);
  }

  /** The two frame versions share no export info at all. */
  lemma VersionsShareNoInfo(a: Slot, b: Slot)
    ensures Info(LabelV1(), a) != Info(LabelV2(), b)
  {
    assert Info(LabelV1(), a)[17] == LabelV1()[17];
    assert Info(LabelV2(), b)[17] == LabelV2()[17];
  }

  // ---- the buffers ----------------------------------------------------------------------

  method ComposeExportInfo(domain: Bytes, epoch: nat, seqNo: nat) returns (out: array<byte>)
    ensures fresh(out) && out[..] == Info(domain, Slot(epoch, seqNo, false))
    ensures out.Length == |domain| + 12 && out[..|domain|] == domain
    ensures Value(out[|domain|..|domain| + 4]) == epoch % Pow(256, 4)
    ensures Value(out[|domain| + 4..]) == seqNo % Pow(256, 8)
  {
    out := new byte[|domain| + EPOCH_LEN + SEQ_LEN];
    Put(out, domain, 0);
    ghost var one := out[..];
    Put(out, Spelling(epoch, EPOCH_LEN), |domain|);
    ghost var two := out[..];
    assert two[..|domain| + EPOCH_LEN] == one[..|domain|] + Spelling(epoch, EPOCH_LEN);
    Put(out, Spelling(seqNo, SEQ_LEN), |domain| + EPOCH_LEN);
    assert out[..] == two[..|domain| + EPOCH_LEN] + Spelling(seqNo, SEQ_LEN);
    assert out[..][..|domain|] == domain && out[..][|domain|..|domain| + 4] == Spelling(epoch, EPOCH_LEN);
    assert out[..][|domain| + 4..] == Spelling(seqNo, SEQ_LEN);
    WordSpelled(epoch, EPOCH_LEN);
    WordSpelled(seqNo, SEQ_LEN);
  }

  lemma WordSpelled(n: nat, len: nat)
    ensures Pow(256, len) > 0 && Value(Spelling(n, len)) == n % Pow(256, len)
  {
    SpellingOfResidue(n, len);
    ValueOfSpelling(n % Pow(256, len), len);
  }

  method ComposeExportInfoReverse(domain: Bytes, epoch: nat, seqNo: nat) returns (out: array<byte>)
    ensures fresh(out) && out[..] == Info(domain, Slot(epoch, seqNo, true))
    ensures out.Length == |domain| + 13 && out[out.Length - 1] == 2
  {
    var forward := ComposeExportInfo(domain, epoch, seqNo);
    out := new byte[forward.Length + 1];
    Put(out, forward[..], 0);
    out[forward.Length] := REVERSE_TAG;
    assert out[..] == forward[..] + [REVERSE_TAG];
  }

  method ComposeAad(domain: Bytes, exitId: Bytes, epoch: nat, seqNo: nat) returns (out: array<byte>)
    requires |exitId| == EXIT_ID_LEN
    ensures fresh(out) && forall reverse :: out[..] == Aad(domain, exitId, Slot(epoch, seqNo, reverse))
    ensures out.Length == |domain| + 28 && out[..|domain|] == domain && out[|domain|..|domain| + 16] == exitId
    ensures Value(out[|domain| + 16..|domain| + 20]) == epoch % Pow(256, 4)
    ensures Value(out[|domain| + 20..]) == seqNo % Pow(256, 8)
  {
    out := new byte[|domain| + EXIT_ID_LEN + EPOCH_LEN + SEQ_LEN];
    var o := |domain|;
    Put(out, domain, 0);
    ghost var one := out[..];
    Put(out, exitId, o);
    ghost var two := out[..];
    assert two[..o + EXIT_ID_LEN] == one[..o] + exitId;
    o := o + EXIT_ID_LEN;
    Put(out, Spelling(epoch, EPOCH_LEN), o);
    ghost var three := out[..];
    assert three[..o + EPOCH_LEN] == two[..o] + Spelling(epoch, EPOCH_LEN);
    o := o + EPOCH_LEN;
    Put(out, Spelling(seqNo, SEQ_LEN), o);
    assert out[..] == three[..o] + Spelling(seqNo, SEQ_LEN);
    assert out[..][..|domain|] == domain && out[..][|domain|..|domain| + 16] == exitId;
    assert out[..][|domain| + 16..|domain| + 20] == Spelling(epoch, EPOCH_LEN);
    assert out[..][|domain| + 20..] == Spelling(seqNo, SEQ_LEN);
    WordSpelled(epoch, EPOCH_LEN);
    WordSpelled(seqNo, SEQ_LEN);
  }

  // ---- sealing and opening -------------------------------------------------------------------

  /** Key derivation and the AEAD, with the tag at the end of what `encrypt` gives. */
  datatype Suite = Suite(
    derive: (Bytes, Bytes) -> Bytes, encrypt: (Bytes, Bytes, Bytes) -> Bytes,
    decrypt: (Bytes, Bytes, Bytes) -> Option<Bytes>)

  /** What is encrypted can be decrypted. */
  ghost predicate Correct(suite: Suite) {
    forall key, aad, plain ::
      && |suite.encrypt(key, aad, plain)| == |plain| + TAG_LEN
      && suite.decrypt(key, aad, suite.encrypt(key, aad, plain)) == Some(plain)
  }

  /** One end of a session: the label of its version, the secret, and the exit it is bound to. */
  datatype Party = Party(domain: Bytes, secret: Bytes, exitId: Bytes)

  function Key(suite: Suite, p: Party, slot: Slot): Bytes {
    suite.derive(p.secret, Info(p.domain, slot))
  }

  function Sealed(suite: Suite, p: Party, slot: Slot, payload: Bytes): Bytes {
    suite.encrypt(Key(suite, p, slot), Aad(p.domain, p.exitId, slot), payload)
  }

  /** The detached tag put back: refused when longer than a tag, padded with zeros when shorter. */
  function Reattached(ciphertext: Bytes, tag: Bytes): Option<Bytes> {
    if |tag| > TAG_LEN then None else Some(ciphertext + tag + Zeros(TAG_LEN - |tag|))
  }

  function Open(suite: Suite, p: Party, slot: Slot, ciphertext: Bytes, tag: Bytes): Option<Bytes> {
    match Reattached(ciphertext, tag)
    case None => None
    case Some(sealed) => suite.decrypt(Key(suite, p, slot), Aad(p.domain, p.exitId, slot), sealed)
  }

  /** Opening what came back: refused when it names another exit, else opened on its reverse slot. */
  function OpenBack(
    suite: Suite, p: Party, exitId: Bytes, epoch: nat, seqNo: nat, ciphertext: Bytes, tag: Bytes): Option<Bytes>
  {
    if exitId != p.exitId then None else Open(suite, p, Slot(epoch, seqNo, true), ciphertext, tag)
  }

  function Body(sealed: Bytes): Bytes
    requires |sealed| >= TAG_LEN
  {
    sealed[..|sealed| - TAG_LEN]
  }

  function Tag(sealed: Bytes): Bytes
    requires |sealed| >= TAG_LEN
  {
    sealed[|sealed| - TAG_LEN..]
  }

  method Attach(ciphertext: Bytes, tag: Bytes) returns (sealed: Bytes)
    requires |tag| <= TAG_LEN
    ensures Some(sealed) == Reattached(ciphertext, tag)
  {
    var out := new byte[|ciphertext| + TAG_LEN](_ => 0);
    assert out[..] == Zeros(|ciphertext| + TAG_LEN);
    Put(out, ciphertext, 0);
    Put(out, tag, |ciphertext|);
    assert out[..] == ciphertext + tag + Zeros(TAG_LEN - |tag|);
    return out[..];
  }

  /** A tag of more than 16 octets opens nothing; a shorter one counts as filled up with zeros. */
  lemma TagIsFilledUp(suite: Suite, p: Party, slot: Slot, ciphertext: Bytes, tag: Bytes)
    ensures |tag| > 16 ==> Open(suite, p, slot, ciphertext, tag).None?
    ensures |tag| <= 16 ==>
              Open(suite, p, slot, ciphertext, tag) == Open(suite, p, slot, ciphertext, tag + Zeros(16 - |tag|))
  {
    if |tag| <= 16 {
      var full := tag + Zeros(16 - |tag|);
      assert ciphertext + full + Zeros(TAG_LEN - |full|) == ciphertext + tag + Zeros(TAG_LEN - |tag|);
    }
  }

  /** What one end seals on a slot the other opens on it. */
  lemma OpensWhatWasSealed(suite: Suite, p: Party, slot: Slot, payload: Bytes)
    requires Correct(suite)
    ensures var sealed := Sealed(suite, p, slot, payload);
            |sealed| == |payload| + TAG_LEN && Open(suite, p, slot, Body(sealed), Tag(sealed)) == Some(payload)
  {
    var key, aad := Key(suite, p, slot), Aad(p.domain, p.exitId, slot);
    assert |suite.encrypt(key, aad, payload)| == |payload| + TAG_LEN;
    var sealed := Sealed(suite, p, slot, payload);
    assert Body(sealed) + Tag(sealed) + Zeros(TAG_LEN - |Tag(sealed)|) == sealed;
  }

  // ---- what an opened packet proves ------------------------------------------------------------

  /** One honest use of the seal. */
  datatype Use = Use(party: Party, slot: Slot, payload: Bytes)

  /** The AEAD opens nothing but what `uses` sealed, under the same key and associated data. */
  ghost predicate Unforged(suite: Suite, uses: set<Use>) {
    forall key, aad, sealed :: suite.decrypt(key, aad, sealed).Some? ==>
      exists u :: u in uses && MadeBy(suite, u, key, aad, sealed) && suite.decrypt(key, aad, sealed).value == u.payload
  }

  predicate MadeBy(suite: Suite, u: Use, key: Bytes, aad: Bytes, sealed: Bytes) {
    && key == Key(suite, u.party, u.slot) && aad == Aad(u.party.domain, u.party.exitId, u.slot)
    && sealed == Sealed(suite, u.party, u.slot, u.payload)
  }

  ghost predicate DerivesApart(suite: Suite) {
    forall s, i, t, j :: suite.derive(s, i) == suite.derive(t, j) ==> s == t && i == j
  }

  /** What opens on a slot was sealed on it, with the same secret and for the same exit. */
  lemma OpenedWasSealedOn(suite: Suite, uses: set<Use>, p: Party, slot: Slot, ciphertext: Bytes, tag: Bytes)
    returns (u: Use)
    requires Unforged(suite, uses) && DerivesApart(suite) && |p.exitId| == EXIT_ID_LEN
    requires forall v :: v in uses ==> v.party.domain == p.domain && |v.party.exitId| == EXIT_ID_LEN
    requires Open(suite, p, slot, ciphertext, tag).Some?
    ensures u in uses && u.party.secret == p.secret && u.party.exitId == p.exitId && SameSlot(u.slot, slot)
    ensures Open(suite, p, slot, ciphertext, tag) == Some(u.payload)
  {
    var sealed := Reattached(ciphertext, tag).value;
    var key, aad := Key(suite, p, slot), Aad(p.domain, p.exitId, slot);
    assert suite.decrypt(key, aad, sealed).Some?;
    u :| u in uses && MadeBy(suite, u, key, aad, sealed) && suite.decrypt(key, aad, sealed).value == u.payload;
    AadsCollide(p.domain, p.exitId, slot, u.party.exitId, u.slot);
    InfosCollide(p.domain, u.slot, slot);
  }

  /** A connection opens what its exit sealed for the way back. */
  lemma OpensItsExitsAnswers(suite: Suite, p: Party, epoch: nat, seqNo: nat, payload: Bytes)
    requires Correct(suite)
    ensures var sealed := Sealed(suite, p, Slot(epoch, seqNo, true), payload);
            && |sealed| >= TAG_LEN
            && OpenBack(suite, p, p.exitId, epoch, seqNo, Body(sealed), Tag(sealed)) == Some(payload)
  {
    OpensWhatWasSealed(suite, p, Slot(epoch, seqNo, true), payload);
  }

  /**
   And nothing else: what it opens names its exit and was sealed for the way back, on that slot,
   with its secret. A packet of its own, sent back to it, is not.
   */
  lemma OpenedBackWasSealedBack(
    suite: Suite, uses: set<Use>, p: Party, exitId: Bytes, epoch: nat, seqNo: nat, ciphertext: Bytes, tag: Bytes)
    requires Unforged(suite, uses) && DerivesApart(suite) && |p.exitId| == EXIT_ID_LEN
    requires forall v :: v in uses ==> v.party.domain == p.domain && |v.party.exitId| == EXIT_ID_LEN
    requires OpenBack(suite, p, exitId, epoch, seqNo, ciphertext, tag).Some?
    ensures exitId == p.exitId
    ensures exists u :: u in uses && u.party.secret == p.secret && u.party.exitId == exitId
                        && SameSlot(u.slot, Slot(epoch, seqNo, true))
                        && OpenBack(suite, p, exitId, epoch, seqNo, ciphertext, tag) == Some(u.payload)
  {
    var u := OpenedWasSealedOn(suite, uses, p, Slot(epoch, seqNo, true), ciphertext, tag);
  }

  // ---- one connection ---------------------------------------------------------------------

  /** The slots of a connection's first `n` seals. */
  function Slots(n: nat): (s: seq<Slot>)
    ensures |s| == n && forall i :: 0 <= i < n ==> s[i] == Slot(0, i, false)
  {
    seq(n, i requires 0 <= i < n => Slot(0, i, false))
  }

  /** An edge connection: epoch 0 and a sequence number that only grows. */
  class EdgeConnection {
    const suite: Suite
    const party: Party
    var seqNo: nat
    ghost var used: seq<Slot>

    ghost predicate Valid()
      reads this
    {
      used == Slots(seqNo) && |party.exitId| == EXIT_ID_LEN
    }

    constructor (suite: Suite, party: Party)
      requires |party.exitId| == EXIT_ID_LEN
      ensures Valid() && seqNo == 0 && this.suite == suite && this.party == party
    {
      this.suite, this.party := suite, party;
      seqNo, used := 0, [];
    }

    method NextSeq() returns (s: nat)
      modifies this`seqNo
      ensures s == old(seqNo) && seqNo == old(seqNo) + 1
    {
      s := seqNo;
      seqNo := seqNo + 1;
    }

    /** `setup` and `sendData` both seal here: the payload goes out on the next forward slot. */
    method Seal(payload: Bytes) returns (sealed: Bytes)
      requires Valid()
      modifies this
      ensures Valid() && used == old(used) + [Slot(0, old(seqNo), false)]
      ensures sealed == Sealed(suite, party, Slot(0, old(seqNo), false), payload)
    {
      var s := NextSeq();
      var info := ComposeExportInfo(party.domain, 0, s);
      var key := suite.derive(party.secret, info[..]);
      var aad := ComposeAad(party.domain, party.exitId, 0, s);
      ghost var slot := Slot(0, s, false);
      assert aad[..] == Aad(party.domain, party.exitId, slot);
      sealed := suite.encrypt(key, aad[..], payload);
      used := used + [slot];
    }

    /** The parts of a reverse frame, its tag put back into one buffer with the ciphertext. */
    method OpenResponse(exitId: Bytes, epoch: nat, seqNo: nat, ciphertext: Bytes, tag: Bytes) returns (r: Option<Bytes>)
      requires Valid()
      ensures r == OpenBack(suite, party, exitId, epoch, seqNo, ciphertext, tag)
    {
      if exitId != party.exitId {
        return None;
      }
      var info := ComposeExportInfoReverse(party.domain, epoch, seqNo);
      var key := suite.derive(party.secret, info[..]);
      var aad := ComposeAad(party.domain, exitId, epoch, seqNo);
      assert aad[..] == Aad(party.domain, exitId, Slot(epoch, seqNo, true));
      if |tag| > TAG_LEN {
        return None;
      }
      var sealed := Attach(ciphertext, tag);
      return suite.decrypt(key, aad[..], sealed);
    }
  }

  /** A connection never seals twice on one export info, for its first 2^64 seals and no further. */
  lemma NeverTwiceOnOneInfo(domain: Bytes, n: nat)
    ensures n <= Pow(2, 64) <==>
              forall i, j :: 0 <= i < j < n ==> Info(domain, Slots(n)[i]) != Info(domain, Slots(n)[j])
  {
    var words := Pow(2, 64);
    if n <= words {
      forall i, j | 0 <= i < j < n ensures Info(domain, Slots(n)[i]) != Info(domain, Slots(n)[j]) {
        PowIncreases(2, 0, 32);
        SlotsHaveTheirOwnInfo(domain, Slots(n)[i], Slots(n)[j]);
      }
    } else {
      WordSizes();
      PowIncreases(2, 0, 64);
      InfosCollide(domain, Slots(n)[0], Slots(n)[words]);
      DivModUnique(words, words, 1, 0);
    }
  }

  /** Nor do the two directions ever share one. */
  lemma DirectionsShareNoInfo(domain: Bytes, a: Slot, b: Slot)
    requires a.reverse != b.reverse
    ensures Info(domain, a) != Info(domain, b)
  {
    InfosCollide(domain, a, b);
  }
}
