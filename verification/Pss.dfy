/**
 EMSA-PSS with SHA-384 (sections 9.1.1 and 9.1.2 of RFC 8017), as `token.ts` encodes and
 verifies it. The hash is any function with 48-octet results.
 */
module Pss {
  import opened Numbers
  import opened Octets
  import opened Results

  const HASH_LEN := 48

  /** Any hash; only its 48-octet results are ever used. */
  type Hash = Bytes -> Bytes

  /** The hash and the mask generation function PSS is built from. */
  datatype Scheme = Scheme(hash: Hash, mask: (Bytes, nat) -> Bytes)

  /** A mask of the length asked for, zeros from a generator that gives another length. */
  function MaskOf(scheme: Scheme, seed: Bytes, length: nat): (m: Bytes)
    ensures |m| == length
  {
    if |scheme.mask(seed, length)| == length then scheme.mask(seed, length) else Zeros(length)
  }

  /** PSS with MGF1 over the same hash. */
  function Mgf1Scheme(hash: Hash): (scheme: Scheme)
    ensures scheme.hash == hash
    ensures forall seed: Bytes, length: nat :: MaskOf(scheme, seed, length) == Mask(hash, seed, length)
  {
    Scheme(hash, (seed: Bytes, length: nat) => Mask(hash, seed, length))
  }

  /** SHA-384: a hash value is 48 octets, so a stand-in with another length counts as zeros. */
  function Digest(hash: Hash, x: Bytes): (h: Bytes)
    ensures |h| == HASH_LEN
    ensures |hash(x)| == HASH_LEN ==> h == hash(x)
  {
    if |hash(x)| == HASH_LEN then hash(x) else Zeros(HASH_LEN)
  }

  // ---- mask generation ---------------------------------------------------

  /** Block `n` of the mask: the hash of the seed and a 32-bit counter. */
  function MaskHash(hash: Hash, seed: Bytes, n: nat): (h: Bytes)
    ensures |h| == HASH_LEN
  {
    Digest(hash, seed + Spelling(n, 4))
  }

  /** Octet `i` of the mask of section B.2.1 of RFC 8017: octet `i % 48` of block `i / 48`. */
  function MaskOctet(hash: Hash, seed: Bytes, i: nat): byte {
    MaskHash(hash, seed, i / HASH_LEN)[i % HASH_LEN]
  }

  function Mask(hash: Hash, seed: Bytes, length: nat): (mask: Bytes)
    ensures |mask| == length
  {
    if length == 0 then [] else Mask(hash, seed, length - 1) + [MaskOctet(hash, seed, length - 1)]
  }

  lemma {:induction false} MaskAt(hash: Hash, seed: Bytes, length: nat, i: nat)
    requires i < length
    ensures Mask(hash, seed, length)[i] == MaskOctet(hash, seed, i)
  {
    if i < length - 1 { MaskAt(hash, seed, length - 1, i); }
  }

  lemma BlockOfMask(hash: Hash, seed: Bytes, length: nat, counter: nat, take: nat)
    requires take <= HASH_LEN && HASH_LEN * counter + take <= length
    ensures Mask(hash, seed, length)[HASH_LEN * counter..HASH_LEN * counter + take] ==
            MaskHash(hash, seed, counter)[..take]
  {
    forall j | 0 <= j < take
      ensures Mask(hash, seed, length)[HASH_LEN * counter + j] == MaskHash(hash, seed, counter)[j]
    {
      MaskAt(hash, seed, length, HASH_LEN * counter + j);
      DivModUnique(HASH_LEN * counter + j, HASH_LEN, counter, j);
    }
  }

  method Mgf1(hash: Hash, seed: Bytes, length: nat) returns (mask: Bytes)
    ensures mask == Mask(hash, seed, length)
  {
    var out := new byte[length];
    var counter, offset := 0, 0;
    while offset < length
      invariant 0 <= offset <= length
      invariant offset == HASH_LEN * counter || offset == length
      invariant out[..offset] == Mask(hash, seed, length)[..offset]
    {
      var block := MaskHash(hash, seed, counter);
      var take := if HASH_LEN < length - offset then HASH_LEN else length - offset;
      ghost var before := out[..];
      Put(out, block[..take], offset);
      BlockOfMask(hash, seed, length, counter, take);
      AppendBlock(before, out[..], Mask(hash, seed, length), block[..take], offset);
      offset := offset + take;
      counter := counter + 1;
    }
    mask := out[..];
    assert out[..offset] == out[..];
  }

  /** Writing the next piece of `target` extends the part of the buffer that agrees with it. */
  lemma AppendBlock(before: Bytes, after: Bytes, target: Bytes, piece: Bytes, at: nat)
    requires |before| == |target| && at + |piece| <= |target|
    requires after == Overwritten(before, piece, at)
    requires before[..at] == target[..at] && target[at..at + |piece|] == piece
    ensures after[..at + |piece|] == target[..at + |piece|]
  {
    assert target[..at + |piece|] == target[..at] + target[at..at + |piece|];
  }

  // ---- bit operations on octets ------------------------------------------

  /** Exclusive or of two non-negative integers, bit by bit. */
  function XorBits(a: nat, b: nat): nat {
    if a == 0 && b == 0 then 0 else 2 * XorBits(a / 2, b / 2) + (a + b) % 2
  }

  lemma XorHalves(a: nat, b: nat)
    ensures XorBits(a, b) / 2 == XorBits(a / 2, b / 2) && XorBits(a, b) % 2 == (a + b) % 2
  {
  }

  lemma Parity(x: nat, y: nat, k: nat)
    requires y % 2 == (x + k) % 2
    ensures (y + k) % 2 == x % 2
  {
  }

  lemma {:induction false} XorTwice(x: nat, k: nat)
    ensures XorBits(XorBits(x, k), k) == x
  {
    if x != 0 || k != 0 {
      var y := XorBits(x, k);
      XorHalves(x, k);
      XorHalves(y, k);
      XorTwice(x / 2, k / 2);
      Parity(x, y, k);
      var z := XorBits(y, k);
      assert z / 2 == x / 2 && z % 2 == x % 2;
    }
  }

  lemma {:induction false} XorFits(a: nat, b: nat, n: nat)
    requires a < Pow(2, n) && b < Pow(2, n)
    ensures XorBits(a, b) < Pow(2, n)
  {
    if a != 0 || b != 0 { XorFits(a / 2, b / 2, n - 1); }
  }

  function XorOctet(a: byte, b: byte): byte {
    assert Pow(2, 8) == 256;
    XorFits(a, b, 8);
    XorBits(a, b)
  }

  /** The low `n` bits of an integer. */
  function Low(x: nat, n: nat): (r: nat)
    ensures r <= x
  {
    if n == 0 then 0 else 2 * Low(x / 2, n - 1) + x % 2
  }

  lemma {:induction false} LowFits(x: nat, n: nat)
    ensures Low(x, n) < Pow(2, n)
  {
    if n > 0 { LowFits(x / 2, n - 1); }
  }

  /** Exclusive or works on the low bits alone. */
  lemma {:induction false} XorOfLow(a: nat, b: nat, n: nat)
    ensures Low(XorBits(Low(a, n), b), n) == Low(XorBits(a, b), n)
  {
    if n > 0 {
      var l := Low(a, n);
      assert l / 2 == Low(a / 2, n - 1) && l % 2 == a % 2;
      XorHalves(l, b);
      XorHalves(a, b);
      SameParity(l, a, b);
      XorOfLow(a / 2, b / 2, n - 1);
    }
  }

  lemma SameParity(x: nat, y: nat, b: nat)
    requires x % 2 == y % 2
    ensures (x + b) % 2 == (y + b) % 2
  {
  }

  /** `x & (0xff >> clearBits)`. */
  function LowBits(x: byte, clearBits: nat): byte
    requires clearBits <= 7
  {
    Low(x, 8 - clearBits)
  }

  /** `x & (0xff << (8 - clearBits)) != 0`: more is set than the low bits. */
  predicate HasTopBits(x: byte, clearBits: nat)
    requires clearBits <= 7
  {
    LowBits(x, clearBits) != x
  }

  lemma OneIsLow(x: byte, c: nat)
    requires c <= 7 && x <= 1
    ensures !HasTopBits(x, c)
  {
    assert Low(x / 2, 7 - c) == 0;
  }

  lemma MaskingUndone(x: byte, k: byte, c: nat)
    requires c <= 7 && !HasTopBits(x, c)
    ensures LowBits(XorOctet(LowBits(XorOctet(x, k), c), k), c) == x
  {
    XorOfLow(XorOctet(x, k), k, 8 - c);
    XorTwice(x, k);
  }

  lemma LowIsLow(x: byte, c: nat)
    requires c <= 7
    ensures !HasTopBits(LowBits(x, c), c)
  {
    LowTwice(x, 8 - c);
  }

  lemma {:induction false} LowTwice(x: nat, n: nat)
    ensures Low(Low(x, n), n) == Low(x, n)
  {
    if n > 0 { LowTwice(x / 2, n - 1); }
  }

  // ---- the encoded message -----------------------------------------------

  function EmLen(emBits: nat): nat { (emBits + 7) / 8 }

  function ClearBits(emBits: nat): (c: nat)
    ensures c <= 7
  {
    8 * EmLen(emBits) - emBits
  }

  /** `M'` hashed: eight zero octets, the message hash, the salt. */
  function SaltedHash(scheme: Scheme, message: Bytes, salt: Bytes): (h: Bytes)
    ensures |h| == HASH_LEN
  {
    Digest(scheme.hash, Zeros(8) + Digest(scheme.hash, message) + salt)
  }

  /** `DB`: zero padding, a one, the salt. */
  function DataBlock(dbLen: nat, salt: Bytes): (db: Bytes)
    requires |salt| < dbLen
    ensures |db| == dbLen && db[0] <= 1
  {
    Zeros(dbLen - |salt| - 1) + [1] + salt
  }

  function Xor(a: Bytes, b: Bytes): (r: Bytes)
    requires |a| == |b|
    ensures |r| == |a|
  {
    seq(|a|, i requires 0 <= i < |a| => XorOctet(a[i], b[i]))
  }

  function ClearTop(s: Bytes, clearBits: nat): (r: Bytes)
    requires s != [] && clearBits <= 7
    ensures |r| == |s|
  {
    s[0 := LowBits(s[0], clearBits)]
  }

  predicate Encodable(emBits: nat, saltLen: nat) {
    EmLen(emBits) >= HASH_LEN + saltLen + 2
  }

  /** Masking and unmasking are the same operation: XOR, then the top bits cleared. */
  function Masked(db: Bytes, mask: Bytes, clearBits: nat): (r: Bytes)
    requires |db| == |mask| > 0 && clearBits <= 7
    ensures |r| == |db|
  {
    ClearTop(Xor(db, mask), clearBits)
  }

  lemma UnmaskMasked(db: Bytes, mask: Bytes, c: nat)
    requires |db| == |mask| > 0 && c <= 7
    requires !HasTopBits(db[0], c)
    ensures Masked(Masked(db, mask, c), mask, c) == db
  {
    MaskingUndone(db[0], mask[0], c);
    forall i | 1 <= i < |db| ensures Masked(Masked(db, mask, c), mask, c)[i] == db[i] {
      XorTwice(db[i], mask[i]);
    }
  }

  method MaskBlock(db: Bytes, mask: Bytes, clearBits: nat) returns (r: Bytes)
    requires |db| == |mask| > 0 && clearBits <= 7
    ensures r == Masked(db, mask, clearBits)
  {
    var out := new byte[|db|];
    for i := 0 to |db|
      invariant out[..i] == Xor(db, mask)[..i]
    {
      out[i] := XorOctet(db[i], mask[i]);
    }
    assert out[..] == Xor(db, mask);
    out[0] := LowBits(out[0], clearBits);
    r := out[..];
  }

  /** EMSA-PSS-ENCODE: masked data block, salted hash, trailer octet. */
  function Encoding(scheme: Scheme, message: Bytes, emBits: nat, salt: Bytes): (em: Bytes)
    requires Encodable(emBits, |salt|)
    ensures |em| == EmLen(emBits)
  {
    var h := SaltedHash(scheme, message, salt);
    var dbLen := EmLen(emBits) - HASH_LEN - 1;
    Masked(DataBlock(dbLen, salt), MaskOf(scheme, h, dbLen), ClearBits(emBits)) + h + [0xbc]
  }

  method FillDataBlock(dbLen: nat, salt: Bytes) returns (block: Bytes)
    requires |salt| < dbLen
    ensures block == DataBlock(dbLen, salt)
  {
    var db := new byte[dbLen](_ => 0);
    db[dbLen - |salt| - 1] := 1;
    Put(db, salt, dbLen - |salt|);
    block := db[..];
  }

  method AssembleEncoding(scheme: Scheme, message: Bytes, emBits: nat, salt: Bytes, h: Bytes, dbMask: Bytes)
      returns (em: Bytes)
    requires Encodable(emBits, |salt|) && h == SaltedHash(scheme, message, salt)
    requires dbMask == MaskOf(scheme, h, EmLen(emBits) - HASH_LEN - 1)
    ensures em == Encoding(scheme, message, emBits, salt)
  {
    var emLen := (emBits + 7) / 8;
    var db := FillDataBlock(emLen - HASH_LEN - 1, salt);
    var maskedDb := MaskBlock(db, dbMask, 8 * emLen - emBits);
    em := maskedDb + h + [0xbc];
  }

  method EmsaPssEncode(hash: Hash, message: Bytes, emBits: nat, salt: Bytes) returns (r: Result<Bytes, ()>)
    ensures r.Ok? <==> Encodable(emBits, |salt|)
    ensures r.Ok? ==> r.value == Encoding(Mgf1Scheme(hash), message, emBits, salt)
  {
    var emLen := (emBits + 7) / 8;
    if emLen < HASH_LEN + |salt| + 2 {
      return Err(());
    }
    var scheme := Mgf1Scheme(hash);
    var h := SaltedHash(scheme, message, salt);
    var dbMask := Mgf1(hash, h, emLen - HASH_LEN - 1);
    var em := AssembleEncoding(scheme, message, emBits, salt, h, dbMask);
    return Ok(em);
  }

  // ---- verification ------------------------------------------------------

  /**
   The encoding of section 9.1.1 of RFC 8017, part by part: it ends in 0xbc; before that stands the
   hash of eight zero octets, the message hash and the salt; and what is in front unmasks to zeros,
   a one and the salt.
   */
  lemma EncodingLayout(scheme: Scheme, message: Bytes, emBits: nat, salt: Bytes)
    requires Encodable(emBits, |salt|)
    ensures var em, len := Encoding(scheme, message, emBits, salt), (emBits + 7) / 8;
            var h := Digest(scheme.hash, [0, 0, 0, 0, 0, 0, 0, 0] + Digest(scheme.hash, message) + salt);
            && |em| == len && em[len - 1] == 0xbc && em[len - 49..len - 1] == h
            && Masked(em[..len - 49], MaskOf(scheme, h, len - 49), ClearBits(emBits))
               == Zeros(len - |salt| - 50) + [1] + salt
  {
    var em, len := Encoding(scheme, message, emBits, salt), EmLen(emBits);
    assert Zeros(8) == [0, 0, 0, 0, 0, 0, 0, 0];
    assert em[..len - 49] + em[len - 49..len - 1] == em[..len - 1];
    EncodingHasParts(scheme, message, emBits, salt, em[..len - 49], em[len - 49..len - 1]);
  }

  /** What verification accepts: the encodings of the message under the 48-octet salts. */
  ghost predicate IsEncoding(scheme: Scheme, message: Bytes, em: Bytes, emBits: nat) {
    && Encodable(emBits, HASH_LEN)
    && exists salt: Bytes :: |salt| == HASH_LEN && em == Encoding(scheme, message, emBits, salt)
  }

  /** The masked block, the hash and the trailer of an encoded message. */
  ghost predicate Parts(em: Bytes, maskedDb: Bytes, h: Bytes, emBits: nat) {
    && |maskedDb| > 0 && |h| == HASH_LEN
    && em == maskedDb + h + [0xbc]
    && !HasTopBits(maskedDb[0], ClearBits(emBits))
  }

  /** Every encoding has the parts verification looks for, and unmasks to its data block. */
  lemma EncodingHasParts(scheme: Scheme, message: Bytes, emBits: nat, salt: Bytes, maskedDb: Bytes, h: Bytes)
    requires Encodable(emBits, |salt|)
    requires |maskedDb| == EmLen(emBits) - HASH_LEN - 1 && |h| == HASH_LEN
    requires maskedDb + h == Encoding(scheme, message, emBits, salt)[..EmLen(emBits) - 1]
    ensures Parts(Encoding(scheme, message, emBits, salt), maskedDb, h, emBits)
    ensures h == SaltedHash(scheme, message, salt)
    ensures Masked(maskedDb, MaskOf(scheme, h, |maskedDb|), ClearBits(emBits)) == DataBlock(|maskedDb|, salt)
  {
    var em := Encoding(scheme, message, emBits, salt);
    var h' := SaltedHash(scheme, message, salt);
    var db, mask := DataBlock(|maskedDb|, salt), MaskOf(scheme, h', |maskedDb|);
    var masked' := Masked(db, mask, ClearBits(emBits));
    assert em[..EmLen(emBits) - 1] == masked' + h';
    SplitsEqual(maskedDb, h, masked', h');
    OneIsLow(db[0], ClearBits(emBits));
    LowIsLow(XorOctet(db[0], mask[0]), ClearBits(emBits));
    UnmaskMasked(db, mask, ClearBits(emBits));
  }

  /** An encoded message whose block unmasks to a data block is the encoding under that salt. */
  lemma PartsAreEncoding(scheme: Scheme, message: Bytes, em: Bytes, emBits: nat, salt: Bytes, maskedDb: Bytes, h: Bytes)
    requires Encodable(emBits, |salt|) && Parts(em, maskedDb, h, emBits) && |em| == EmLen(emBits)
    requires h == SaltedHash(scheme, message, salt)
    requires Masked(maskedDb, MaskOf(scheme, h, |maskedDb|), ClearBits(emBits)) == DataBlock(|maskedDb|, salt)
    ensures em == Encoding(scheme, message, emBits, salt)
  {
    UnmaskMasked(maskedDb, MaskOf(scheme, h, |maskedDb|), ClearBits(emBits));
  }

  /** A data block is one with this salt exactly when padding, marker and salt are in place. */
  lemma DataBlockShape(db: Bytes, salt: Bytes)
    requires |salt| < |db|
    ensures
      var p := |db| - |salt| - 1;
      (db == DataBlock(|db|, salt)) <==> ((forall i :: 0 <= i < p ==> db[i] == 0) && db[p] == 1 && db[p + 1..] == salt)
  {
    var p := |db| - |salt| - 1;
    if (forall i :: 0 <= i < p ==> db[i] == 0) && db[p] == 1 && db[p + 1..] == salt {
      assert db == db[..p] + [db[p]] + db[p + 1..];
      assert db[..p] == Zeros(p);
    }
    if db == DataBlock(|db|, salt) {
      assert db[p + 1..] == salt;
    }
  }

  /** Whether a data block carries a `sLen`-octet salt behind zero padding and the marker. */
  method HasPadding(db: Bytes, sLen: nat) returns (ok: bool)
    requires sLen < |db|
    ensures ok <==> db == DataBlock(|db|, db[|db| - sLen..])
  {
    DataBlockShape(db, db[|db| - sLen..]);
    for i := 0 to |db| - sLen - 1
      invariant forall j :: 0 <= j < i ==> db[j] == 0
    {
      if db[i] != 0 {
        return false;
      }
    }
    return db[|db| - sLen - 1] == 1;
  }

  /** The checks of EMSA-PSS-VERIFY on a message long enough, given the mask its hash seeds. */
  method CheckEncoding(scheme: Scheme, message: Bytes, em: Bytes, emBits: nat, maskedDb: Bytes, h: Bytes, dbMask: Bytes)
      returns (ok: bool)
    requires Encodable(emBits, HASH_LEN) && |em| == EmLen(emBits)
    requires |maskedDb| == |em| - HASH_LEN - 1 && |h| == HASH_LEN && em[..|em| - 1] == maskedDb + h
    requires dbMask == MaskOf(scheme, h, |maskedDb|)
    ensures ok <==> IsEncoding(scheme, message, em, emBits)
  {
    var clearBits := 8 * |em| - emBits;
    assert em == em[..|em| - 1] + [em[|em| - 1]];
    ChecksMeanEncoding(scheme, message, em, emBits, maskedDb, h);
    if em[|em| - 1] != 0xbc || HasTopBits(maskedDb[0], clearBits) {
      return false;
    }
    var db := MaskBlock(maskedDb, dbMask, clearBits);
    var padded := HasPadding(db, HASH_LEN);
    var hPrime := SaltedHash(scheme, message, db[|db| - HASH_LEN..]);
    return padded && hPrime == h;
  }

  /** EMSA-PSS-VERIFY accepts exactly the encodings of the message. */
  method EmsaPssVerify(hash: Hash, message: Bytes, em: Bytes, emBits: nat) returns (ok: bool)
    ensures ok <==> |em| >= EmLen(emBits) && IsEncoding(Mgf1Scheme(hash), message, em[..EmLen(emBits)], emBits)
  {
    var emLen := (emBits + 7) / 8;
    if emLen < HASH_LEN + HASH_LEN + 2 || |em| < emLen {
      return false;
    }
    var dbLen := emLen - HASH_LEN - 1;
    var maskedDb := em[..dbLen];
    var h := em[dbLen..dbLen + HASH_LEN];
    assert em[..emLen][..emLen - 1] == maskedDb + h;
    var dbMask := Mgf1(hash, h, dbLen);
    ok := CheckEncoding(Mgf1Scheme(hash), message, em[..emLen], emBits, maskedDb, h, dbMask);
  }

  /** The checks of verification, all together. */
  ghost predicate Checks(scheme: Scheme, message: Bytes, em: Bytes, emBits: nat, maskedDb: Bytes, h: Bytes)
    requires |maskedDb| > HASH_LEN
  {
    var db := Masked(maskedDb, MaskOf(scheme, h, |maskedDb|), ClearBits(emBits));
    var salt := db[|db| - HASH_LEN..];
    Parts(em, maskedDb, h, emBits) && db == DataBlock(|db|, salt) && h == SaltedHash(scheme, message, salt)
  }

  /** They hold of the encodings of the message and of nothing else. */
  lemma ChecksMeanEncoding(scheme: Scheme, message: Bytes, em: Bytes, emBits: nat, maskedDb: Bytes, h: Bytes)
    requires Encodable(emBits, HASH_LEN) && |em| == EmLen(emBits)
    requires |maskedDb| == EmLen(emBits) - HASH_LEN - 1 && |h| == HASH_LEN
    requires em[..|em| - 1] == maskedDb + h
    ensures IsEncoding(scheme, message, em, emBits) <==> Checks(scheme, message, em, emBits, maskedDb, h)
  {
    if IsEncoding(scheme, message, em, emBits) {
      EncodingsPassChecks(scheme, message, em, emBits, maskedDb, h);
    }
    if Checks(scheme, message, em, emBits, maskedDb, h) {
      CheckedIsEncoding(scheme, message, em, emBits, maskedDb, h);
    }
  }

  lemma EncodingsPassChecks(scheme: Scheme, message: Bytes, em: Bytes, emBits: nat, maskedDb: Bytes, h: Bytes)
    requires IsEncoding(scheme, message, em, emBits)
    requires |maskedDb| == EmLen(emBits) - HASH_LEN - 1 && |h| == HASH_LEN
    requires |em| == EmLen(emBits) && em[..|em| - 1] == maskedDb + h
    ensures Checks(scheme, message, em, emBits, maskedDb, h)
  {
    var s: Bytes :| |s| == HASH_LEN && em == Encoding(scheme, message, emBits, s);
    EncodingHasParts(scheme, message, emBits, s, maskedDb, h);
    SaltOfDataBlock(|maskedDb|, s);
  }

  lemma CheckedIsEncoding(scheme: Scheme, message: Bytes, em: Bytes, emBits: nat, maskedDb: Bytes, h: Bytes)
    requires Encodable(emBits, HASH_LEN) && |em| == EmLen(emBits)
    requires |maskedDb| == EmLen(emBits) - HASH_LEN - 1
    requires Checks(scheme, message, em, emBits, maskedDb, h)
    ensures IsEncoding(scheme, message, em, emBits)
  {
    var db := Masked(maskedDb, MaskOf(scheme, h, |maskedDb|), ClearBits(emBits));
    PartsAreEncoding(scheme, message, em, emBits, db[|db| - HASH_LEN..], maskedDb, h);
  }

  lemma SaltOfDataBlock(dbLen: nat, salt: Bytes)
    requires |salt| < dbLen
    ensures DataBlock(dbLen, salt)[dbLen - |salt|..] == salt
  {
  }

  // ---- the encoded message as an integer ---------------------------------

  lemma PowersOfTwo(k: nat)
    ensures Pow(256, k) == Pow(2, 8 * k)
  {
    PowMultiplies(2, 8, k);
    assert Pow(2, 8) == 256;
  }

  /** A string whose top bits are clear is below the matching power of two. */
  lemma ValueOfLowTop(s: Bytes, c: nat)
    requires s != [] && c <= 7 && !HasTopBits(s[0], c)
    ensures Value(s) < Pow(2, 8 * |s| - c)
  {
    var k := |s| - 1;
    ValueOfHead(s);
    ValueBound(s[1..]);
    PowersOfTwo(k);
    PowAdds(2, 8 - c, 8 * k);
    LowFits(s[0], 8 - c);
    LeadingDigit(s[0], Pow(2, 8 - c), Pow(256, k), Value(s[1..]));
  }

  /** An encoded message is below two to its number of bits. */
  lemma EncodingBound(scheme: Scheme, message: Bytes, emBits: nat, salt: Bytes)
    requires Encodable(emBits, |salt|)
    ensures Value(Encoding(scheme, message, emBits, salt)) < Pow(2, emBits)
  {
    var em := Encoding(scheme, message, emBits, salt);
    var dbLen := EmLen(emBits) - HASH_LEN - 1;
    var maskedDb, h := em[..dbLen], em[dbLen..dbLen + HASH_LEN];
    assert em[..|em| - 1] == maskedDb + h;
    EncodingHasParts(scheme, message, emBits, salt, maskedDb, h);
    assert em[0] == maskedDb[0];
    ValueOfLowTop(em, ClearBits(emBits));
  }

  lemma LeadingDigit(d: nat, top: nat, p: nat, rest: nat)
    requires d < top && rest < p
    ensures d * p + rest < top * p
  {
    assert (d + 1) * p <= top * p;
  }
}
