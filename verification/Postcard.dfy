/**
 The postcard wire fields the multi-hop frames are made of: raw octets of a fixed size,
 LEB128 integers (`varint.ts`) and length-prefixed blocks. A frame is a list of fields, so
 what holds of every list of fields holds of both frame versions.
 */
module Postcard {
  import opened Numbers
  import opened Octets
  import opened Results

  /** Why bytes are not a frame. Only `Truncated` can be cured by more bytes. */
  datatype FrameError = Truncated | TooLong | WrongVersion | TrailingBytes | Oversize

  /** A value read off the front of some bytes, with how many it took. */
  datatype Reading<T> = Got(value: T, length: nat) | Failed(error: FrameError)

  // ---- LEB128 -----------------------------------------------------------------

  const MAX_GROUPS := 10

  /** Seven bits an octet, lowest first, the high bit on all but the last. */
  function Leb(n: nat): (s: Bytes)
    ensures s != []
  {
    if n < 128 then [n] else [128 + n % 128] + Leb(n / 128)
  }

  method EncodeLeb128(value: int) returns (r: Result<Bytes, ()>)
    ensures r.Ok? <==> value >= 0
    ensures r.Ok? ==> r.value == Leb(value)
  {
    if value < 0 {
      return Err(());
    }
    var v: nat := value;
    var out: Bytes := [];
    while true
      invariant out + Leb(v) == Leb(value)
      decreases v
    {
      var group := v % 128;
      if v / 128 == 0 {
        out := out + [group];
        break;
      }
      out := out + [128 + group];
      v := v / 128;
    }
    r := Ok(out);
  }

  /** The integer at the front of `s`, `used` groups of it having been read already. */
  function ReadNumber(s: Bytes, used: nat): (r: Reading<nat>)
    ensures r.Got? ==> 0 < r.length <= |s|
    ensures r.Failed? ==> r.error == Truncated || r.error == TooLong
  {
    if s == [] then Failed(Truncated)
    else if s[0] < 128 then Got(s[0], 1)
    else if used + 1 >= MAX_GROUPS then Failed(TooLong)
    else
      match ReadNumber(s[1..], used + 1)
      case Failed(e) => Failed(e)
      case Got(v, length) => Got(s[0] - 128 + 128 * v, length + 1)
  }

  /** A reading that goes on after `i` octets worth `value`. */
  function Carried(value: nat, scale: nat, i: nat, rest: Reading<nat>): Reading<nat> {
    match rest
    case Failed(e) => Failed(e)
    case Got(v, length) => Got(value + scale * v, i + length)
  }

  lemma CarryOn(value: nat, scale: nat, i: nat, group: nat, v: nat)
    ensures value + scale * (group + 128 * v) == value + scale * group + (128 * scale) * v
  {
    assert scale * (128 * v) == (128 * scale) * v;
    assert scale * (group + 128 * v) == scale * group + scale * (128 * v);
  }

  /** The decoder's loop: `value` grows by each group at its shift, and ten continued groups are too many. */
  method DecodeLeb128(input: Bytes) returns (r: Reading<nat>)
    ensures r == ReadNumber(input, 0)
  {
    var value: nat, scale: nat := 0, 1;
    for i := 0 to |input|
      invariant i < MAX_GROUPS
      invariant ReadNumber(input, 0) == Carried(value, scale, i, ReadNumber(input[i..], i))
    {
      var group := input[i] % 128;
      assert input[i..][1..] == input[i + 1..];
      if input[i] < 128 {
        return Got(value + scale * group, i + 1);
      }
      if i + 1 >= MAX_GROUPS {
        return Failed(TooLong);
      }
      if ReadNumber(input[i + 1..], i + 1).Got? {
        CarryOn(value, scale, i, group, ReadNumber(input[i + 1..], i + 1).value);
      }
      value, scale := value + scale * group, 128 * scale;
    }
    r := Failed(Truncated);
  }

  lemma GroupsLeft(n: nat, groups: nat)
    ensures n / 128 < Pow(128, groups) <==> n < Pow(128, groups + 1)
  {
  }

  /** Decoding inverts encoding, whatever follows, for exactly the integers of ten groups. */
  lemma {:induction false} NumberRoundTrip(n: nat, rest: Bytes, used: nat)
    requires used < MAX_GROUPS
    ensures ReadNumber(Leb(n) + rest, used)
         == if n < Pow(128, MAX_GROUPS - used) then Got(n, |Leb(n)|) else Failed(TooLong)
  {
    GroupsLeft(n, MAX_GROUPS - used - 1);
    if n < 128 {
      PowNonNegative(128, MAX_GROUPS - used - 1);
    } else {
      assert (Leb(n) + rest)[1..] == Leb(n / 128) + rest;
      if used + 1 < MAX_GROUPS {
        NumberRoundTrip(n / 128, rest, used + 1);
      }
    }
  }

  /** More bytes change nothing but a truncation. */
  lemma {:induction false} NumberExtends(s: Bytes, t: Bytes, used: nat)
    requires ReadNumber(s, used) != Failed(Truncated)
    ensures ReadNumber(s + t, used) == ReadNumber(s, used)
  {
    if s[0] >= 128 && used + 1 < MAX_GROUPS {
      assert (s + t)[1..] == s[1..] + t;
      NumberExtends(s[1..], t, used + 1);
    }
  }

  /** Octet i carries bits 7i to 7i + 6 of the integer, and the high bit on all but the last. */
  lemma {:induction false} LebOctet(n: nat, i: nat)
    requires i < |Leb(n)|
    ensures Pow(128, i) > 0
    ensures Leb(n)[i] == n / Pow(128, i) % 128 + if i < |Leb(n)| - 1 then 128 else 0
    ensures i == |Leb(n)| - 1 ==> n / Pow(128, i) < 128
    decreases i
  {
    PowNonNegative(128, i);
    if i > 0 {
      LebOctet(n / 128, i - 1);
      DivideTwice(n, Pow(128, i - 1));
    }
  }

  lemma DivideTwice(n: nat, p: nat)
    requires p > 0
    ensures n / 128 / p == n / (128 * p)
  {
    var q := n / 128 / p;
    var r := n / 128 % p;
    assert n == 128 * (p * q + r) + n % 128;
    assert 128 * (p * q) == (128 * p) * q;
    DivModUnique(n, 128 * p, q, 128 * r + n % 128);
  }

  /** Every `u64` fits in ten groups. */
  lemma WordsFit()
    ensures Pow(2, 32) <= Pow(2, 64) <= Pow(128, MAX_GROUPS)
  {
    PowMultiplies(2, 7, 10);
    PowIncreases(2, 64, 70);
    PowIncreases(2, 32, 64);
    assert Pow(2, 7) == 128;
  }

  // ---- fields --------------------------------------------------------------------

  datatype Field = Raw(size: nat) | Integer | Block

  datatype Item = Fixed(octets: Bytes) | Int(value: nat) | Blob(content: Bytes)

  predicate Fits(field: Field, item: Item) {
    match field
    case Raw(size) => item.Fixed? && |item.octets| == size
    case Integer => item.Int?
    case Block => item.Blob?
  }

  predicate AllFit(fields: seq<Field>, items: seq<Item>) {
    |items| == |fields| && forall i :: 0 <= i < |fields| ==> Fits(fields[i], items[i])
  }

  /** The integers of a field are of ten groups at most. */
  predicate Short(item: Item) {
    match item
    case Fixed(_) => true
    case Int(value) => value < Pow(128, MAX_GROUPS)
    case Blob(content) => |content| < Pow(128, MAX_GROUPS)
  }

  function Spell(item: Item): Bytes {
    match item
    case Fixed(octets) => octets
    case Int(value) => Leb(value)
    case Blob(content) => Leb(|content|) + content
  }

  function SpellAll(items: seq<Item>): Bytes {
    if items == [] then [] else Spell(items[0]) + SpellAll(items[1..])
  }

  function ReadField(field: Field, s: Bytes): (r: Reading<Item>)
    ensures r.Got? ==> r.length <= |s| && Fits(field, r.value)
    ensures r.Failed? ==> r.error == Truncated || r.error == TooLong
  {
    match field
    case Raw(size) => if size > |s| then Failed(Truncated) else Got(Fixed(s[..size]), size)
    case Integer =>
      (match ReadNumber(s, 0)
       case Failed(e) => Failed(e)
       case Got(v, length) => Got(Int(v), length))
    case Block =>
      match ReadNumber(s, 0)
      case Failed(e) => Failed(e)
      case Got(size, length) =>
        if length + size > |s| then Failed(Truncated) else Got(Blob(s[length..length + size]), length + size)
  }

  function ReadAll(fields: seq<Field>, s: Bytes): (r: Reading<seq<Item>>)
    ensures r.Got? ==> r.length <= |s| && AllFit(fields, r.value)
    ensures r.Failed? ==> r.error == Truncated || r.error == TooLong
  {
    if fields == [] then Got([], 0)
    else
      match ReadField(fields[0], s)
      case Failed(e) => Failed(e)
      case Got(item, length) =>
        match ReadAll(fields[1..], s[length..])
        case Failed(e) => Failed(e)
        case Got(items, more) => Got([item] + items, length + more)
  }

  lemma FieldRoundTrip(field: Field, item: Item, rest: Bytes)
    requires Fits(field, item)
    ensures ReadField(field, Spell(item) + rest)
         == if Short(item) then Got(item, |Spell(item)|) else Failed(TooLong)
  {
    match item
    case Fixed(octets) =>
    case Int(value) => NumberRoundTrip(value, rest, 0);
    case Blob(content) =>
      assert Spell(item) + rest == Leb(|content|) + (content + rest);
      NumberRoundTrip(|content|, content + rest, 0);
  }

  /** Reading inverts writing exactly when every integer is short; a long one is refused as such. */
  lemma {:induction false} AllRoundTrip(fields: seq<Field>, items: seq<Item>, rest: Bytes)
    requires AllFit(fields, items)
    ensures ReadAll(fields, SpellAll(items) + rest)
         == if forall i :: 0 <= i < |items| ==> Short(items[i]) then Got(items, |SpellAll(items)|) else Failed(TooLong)
  {
    if items != [] {
      var first, others := Spell(items[0]), SpellAll(items[1..]);
      assert SpellAll(items) + rest == first + (others + rest);
      FieldRoundTrip(fields[0], items[0], others + rest);
      assert (first + (others + rest))[|first|..] == others + rest;
      AllRoundTrip(fields[1..], items[1..], rest);
      assert forall i :: 0 <= i < |items| ==> items[i] == if i == 0 then items[0] else items[1..][i - 1];
      assert items == [items[0]] + items[1..];
    }
  }

  lemma FieldExtends(field: Field, s: Bytes, t: Bytes)
    requires ReadField(field, s) != Failed(Truncated)
    ensures ReadField(field, s + t) == ReadField(field, s)
  {
    if field.Raw? {
      assert (s + t)[..field.size] == s[..field.size];
    } else {
      NumberExtends(s, t, 0);
      var n := ReadNumber(s, 0);
      if field.Block? && n.Got? {
        assert (s + t)[n.length..n.length + n.value] == s[n.length..n.length + n.value];
      }
    }
  }

  /** More bytes change nothing but a truncation. */
  lemma {:induction false} AllExtend(fields: seq<Field>, s: Bytes, t: Bytes)
    requires ReadAll(fields, s) != Failed(Truncated)
    ensures ReadAll(fields, s + t) == ReadAll(fields, s)
  {
    if fields != [] {
      var first := ReadField(fields[0], s);
      FieldExtends(fields[0], s, t);
      if first.Got? {
        assert (s + t)[first.length..] == s[first.length..] + t;
        AllExtend(fields[1..], s[first.length..], t);
      }
    }
  }
}
