/**
 Octet strings and the integers they spell, big-endian (section 4 of RFC 8017): the
 `os2ip` and `i2osp` loops of `token.ts`, and the fixed-width writers of the sealing code.
 */
module Octets {
  import opened Numbers
  import opened Results

  type byte = b: int | 0 <= b < 256

  type Bytes = seq<byte>

  function Zeros(n: nat): (z: Bytes)
    ensures |z| == n && forall i :: 0 <= i < n ==> z[i] == 0
  {
    seq(n, _ => 0)
  }

  /** The integer a string spells. */
  function Value(s: Bytes): nat {
    if s == [] then 0 else 256 * Value(s[..|s| - 1]) + s[|s| - 1]
  }

  /** The low `len` octets of an integer. */
  function Spelling(n: nat, len: nat): (s: Bytes)
    ensures |s| == len
  {
    if len == 0 then [] else Spelling(n / 256, len - 1) + [n % 256]
  }

  lemma {:induction false} ValueBound(s: Bytes)
    ensures Value(s) < Pow(256, |s|)
  {
    if s != [] { ValueBound(s[..|s| - 1]); }
  }

  /** Writing and reading back gives the integer, when it fits. */
  lemma {:induction false} ValueOfSpelling(n: nat, len: nat)
    requires n < Pow(256, len)
    ensures Value(Spelling(n, len)) == n
  {
    if len > 0 {
      var s := Spelling(n, len);
      assert s[..|s| - 1] == Spelling(n / 256, len - 1);
      ValueOfSpelling(n / 256, len - 1);
    }
  }

  /** Reading and writing back gives the string. */
  lemma {:induction false} SpellingOfValue(s: Bytes)
    ensures Spelling(Value(s), |s|) == s
  {
    if s != [] {
      var init, last := s[..|s| - 1], s[|s| - 1];
      DivModUnique(Value(s), 256, Value(init), last);
      SpellingOfValue(init);
      assert s == init + [s[|s| - 1]];
    }
  }

  lemma SpellingIsInjective(m: nat, n: nat, len: nat)
    requires m < Pow(256, len) && n < Pow(256, len)
    requires Spelling(m, len) == Spelling(n, len)
    ensures m == n
  {
    ValueOfSpelling(m, len);
    ValueOfSpelling(n, len);
  }

  /** Only the residue modulo 256^len is written. */
  lemma {:induction false} SpellingOfResidue(n: nat, len: nat)
    ensures Pow(256, len) > 0 && Spelling(n % Pow(256, len), len) == Spelling(n, len)
  {
    PowNonNegative(256, len);
    if len > 0 {
      PowNonNegative(256, len - 1);
      var p := Pow(256, len - 1);
      var q, r := n / (256 * p), n % (256 * p);
      assert n == (256 * p) * q + r;
      var k := r % 256;
      assert n / 256 == p * q + r / 256 && n % 256 == k by {
        assert n == 256 * (p * q + r / 256) + k;
        DivModUnique(n, 256, p * q + r / 256, k);
      }
      assert r / 256 < p;
      DivModUnique(n / 256, p, q, r / 256);
      SpellingOfResidue(n / 256, len - 1);
    }
  }

  lemma HeadWeight(head: int, p: int, middle: int, last: int)
    ensures 256 * (head * p + middle) + last == head * (256 * p) + (256 * middle + last)
  {
    assert 256 * (head * p) == head * (256 * p);
  }

  /** The leading octet weighs 256 to the number of octets after it. */
  lemma {:induction false} ValueOfHead(s: Bytes)
    requires s != []
    ensures Value(s) == s[0] * Pow(256, |s| - 1) + Value(s[1..])
  {
    if |s| == 1 {
      assert s[..0] == [] && s[1..] == [];
    } else {
      var init, tail := s[..|s| - 1], s[1..];
      assert tail[..|tail| - 1] == init[1..];
      ValueOfHead(init);
      HeadWeight(s[0], Pow(256, |s| - 2), Value(init[1..]), s[|s| - 1]);
    }
  }

  // ---- the loops ---------------------------------------------------------

  method OctetsToInteger(bytes: Bytes) returns (n: nat)
    ensures n == Value(bytes)
  {
    n := 0;
    for i := 0 to |bytes|
      invariant n == Value(bytes[..i])
    {
      assert bytes[..i + 1][..i] == bytes[..i];
      n := n * 256 + bytes[i];
    }
    assert bytes[..|bytes|] == bytes;
  }

  /** Fills the buffer from its last octet; an error when the integer does not fit. */
  method IntegerToOctets(n: nat, len: nat) returns (r: Result<Bytes, ()>)
    ensures r.Ok? <==> n < Pow(256, len)
    ensures r.Ok? ==> r.value == Spelling(n, len) && Value(r.value) == n
  {
    var out := new byte[len];
    var v: nat := n;
    var i := len;
    while i > 0
      invariant 0 <= i <= len
      invariant Spelling(v, i) + out[i..] == Spelling(n, len)
      invariant v < Pow(256, i) <==> n < Pow(256, len)
    {
      i := i - 1;
      ghost var done := out[i + 1..];
      out[i] := v % 256;
      assert out[i..] == [v % 256] + done;
      v := v / 256;
    }
    if v != 0 {
      return Err(());
    }
    assert out[0..] == out[..];
    ValueOfSpelling(n, len);
    return Ok(out[..]);
  }

  // ---- concatenation -----------------------------------------------------

  lemma Associate(a: Bytes, b: Bytes, c: Bytes)
    ensures (a + b) + c == a + (b + c)
  {
  }

  /** Two strings with heads of one length are equal when heads and tails are. */
  lemma SplitsEqual(a: Bytes, b: Bytes, c: Bytes, d: Bytes)
    requires |a| == |c|
    ensures a + b == c + d <==> a == c && b == d
  {
    if a + b == c + d {
      assert a == (a + b)[..|a|] && c == (c + d)[..|a|];
      assert b == (a + b)[|a|..] && d == (c + d)[|a|..];
    }
  }

  // ---- writing into a buffer ---------------------------------------------

  /** A buffer with `src` written over it at `at`. */
  function Overwritten(buffer: Bytes, src: Bytes, at: nat): (r: Bytes)
    requires at + |src| <= |buffer|
    ensures |r| == |buffer|
    ensures r[..at] == buffer[..at] && r[at..at + |src|] == src && r[at + |src|..] == buffer[at + |src|..]
  {
    buffer[..at] + src + buffer[at + |src|..]
  }

  /** `buffer.set(src, at)`. */
  method Put(buffer: array<byte>, src: Bytes, at: nat)
    requires at + |src| <= buffer.Length
    modifies buffer
    ensures buffer[..] == Overwritten(old(buffer[..]), src, at)
  {
    forall i | 0 <= i < |src| {
      buffer[at + i] := src[i];
    }
  }
}
