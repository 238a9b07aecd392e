/**
 Nodes of the signed multi-hop directory (`multihop.ts`): strict validation of parsed JSON and
 the frozen canonical form the envelope signature covers. Text is left to the JSON library: a
 document is a parsed value, and a canonical form is the list of fields that is printed.
 */
module DirectoryNodes {
  import opened Results

  const MAX_SAFE_INTEGER: int := 0x1F_FFFF_FFFF_FFFF

  /** The field names the format knows, and any other. */
  datatype Key =
    | RelayPart | ExitPart | Country | City | Asn | Weight | Attestation | EdgeCert
    | RelayId | RelayEd25519 | Endpoint | EndpointV6 | CoverDomain | TcpFallback | Signature
    | ExitId | ExitEd25519 | ExitX25519 | DnsDisabled | ExitMlkem768
    | Version | Nodes | Generation | SignedAt | ExpiresAt | OperationalKey | OperationalCert | ServerKey
    | EnvelopeSignature
    | Unknown(name: string)

  /** A parsed JSON value. Numbers that are not integers are all alike. */
  datatype Json =
    | Null | Bool(b: bool) | Num(n: int) | Fraction | Str(s: string) | Arr(items: seq<Json>)
    | Obj(members: map<Key, Json>)

  // ---- field readers --------------------------------------------------------------------

  predicate HexDigit(c: char) {
    '0' <= c <= '9' || 'a' <= c <= 'f' || 'A' <= c <= 'F'
  }

  predicate IsHex(s: string) {
    forall i :: 0 <= i < |s| ==> HexDigit(s[i])
  }

  function LowerDigit(c: char): char {
    if 'A' <= c <= 'F' then c - 'A' + 'a' else c
  }

  function Lower(s: string): (r: string)
    ensures |r| == |s| && forall i :: 0 <= i < |s| ==> r[i] == LowerDigit(s[i])
  {
    seq(|s|, i requires 0 <= i < |s| => LowerDigit(s[i]))
  }

  /** Lower-case hex: what a validated hex field holds. */
  predicate IsLowerHex(s: string) {
    IsHex(s) && Lower(s) == s
  }

  lemma LowerIsLowerHex(s: string)
    requires IsHex(s)
    ensures IsLowerHex(Lower(s))
  {
    var r := Lower(s);
    assert forall i :: 0 <= i < |s| ==> r[i] == LowerDigit(s[i]) && Lower(r)[i] == LowerDigit(r[i]);
    assert Lower(r) == r;
  }

  function AsObject(v: Json, required: set<Key>, optional: set<Key>): Option<map<Key, Json>> {
    if v.Obj? && v.members.Keys <= required + optional && required <= v.members.Keys then Some(v.members) else None
  }

  function AsString(v: Json): Option<string> {
    if v.Str? then Some(v.s) else None
  }

  function AsU64(v: Json): Option<nat> {
    if v.Num? && 0 <= v.n <= MAX_SAFE_INTEGER then Some(v.n) else None
  }

  function AsBool(v: Json): Option<bool> {
    if v.Bool? then Some(v.b) else None
  }

  function AsFixedHex(v: Json, bytes: nat): Option<string> {
    if v.Str? && |v.s| == 2 * bytes && IsHex(v.s) then Some(Lower(v.s)) else None
  }

  function AsHex(v: Json): Option<string> {
    if v.Str? && |v.s| % 2 == 0 && IsHex(v.s) then Some(Lower(v.s)) else None
  }

  /** An optional field: absent is fine, present must read. */
  function Maybe<T>(m: map<Key, Json>, key: Key, read: Json -> Option<T>): Option<Option<T>> {
    if key !in m then Some(None)
    else
      match read(m[key])
      case None => None
      case Some(v) => Some(Some(v))
  }

  // ---- nodes ---------------------------------------------------------------------------------

  datatype Relay = Relay(
    relayId: string, ed25519: string, endpoint: string, endpointV6: Option<string>, coverDomain: Option<string>,
    tcpFallback: Option<bool>, signature: string)

  datatype Exit = Exit(
    exitId: string, ed25519: string, x25519: string, endpoint: Option<string>, coverDomain: Option<string>,
    signature: string, dnsDisabled: Option<bool>, mlkem768: Option<string>)

  datatype Node = Node(
    relay: Relay, exit: Exit, country: string, city: string, asn: nat, weight: nat, attestation: string,
    edgeCert: Option<string>)

  function ValidateRelay(v: Json): Option<Relay> {
    match AsObject(v, {RelayId, RelayEd25519, Endpoint, Signature}, {EndpointV6, CoverDomain, TcpFallback})
    case None => None
    case Some(m) =>
      var id, ed := AsFixedHex(m[RelayId], 16), AsFixedHex(m[RelayEd25519], 32);
      var at, sig := AsString(m[Endpoint]), AsFixedHex(m[Signature], 64);
      var v6, cover := Maybe(m, EndpointV6, AsString), Maybe(m, CoverDomain, AsString);
      var tcp := Maybe(m, TcpFallback, AsBool);
      if id.None? || ed.None? || at.None? || sig.None? || v6.None? || cover.None? || tcp.None? then None
      else Some(Relay(id.value, ed.value, at.value, v6.value, cover.value, tcp.value, sig.value))
  }

  function ValidateExit(v: Json): Option<Exit> {
    match AsObject(v, {ExitId, ExitEd25519, ExitX25519, Signature}, {Endpoint, CoverDomain, DnsDisabled, ExitMlkem768})
    case None => None
    case Some(m) =>
      var id, ed := AsFixedHex(m[ExitId], 16), AsFixedHex(m[ExitEd25519], 32);
      var x, sig := AsFixedHex(m[ExitX25519], 32), AsFixedHex(m[Signature], 64);
      var at, cover := Maybe(m, Endpoint, AsString), Maybe(m, CoverDomain, AsString);
      var dns, pq := Maybe(m, DnsDisabled, AsBool), Maybe(m, ExitMlkem768, AsHex);
      if id.None? || ed.None? || x.None? || sig.None? || at.None? || cover.None? || dns.None? || pq.None? then None
      else Some(Exit(id.value, ed.value, x.value, at.value, cover.value, sig.value, dns.value, pq.value))
  }

  function EdgeCertHash(v: Json): Option<string> {
    AsFixedHex(v, 32)
  }

  function ValidateNode(v: Json): Option<Node> {
    match AsObject(v, {RelayPart, ExitPart, Country, City, Weight, Attestation}, {Asn, EdgeCert})
    case None => None
    case Some(m) =>
      var relay, exit := ValidateRelay(m[RelayPart]), ValidateExit(m[ExitPart]);
      var country, city := AsString(m[Country]), AsString(m[City]);
      var weight, attestation := AsU64(m[Weight]), AsString(m[Attestation]);
      var asn, cert := Maybe(m, Asn, AsU64), Maybe(m, EdgeCert, EdgeCertHash);
      if relay.None? || exit.None? || country.None? || city.None? || weight.None? || attestation.None?
         || asn.None? || cert.None?
      then None
      else
        Some(Node(relay.value, exit.value, country.value, city.value, if asn.value.None? then 0 else asn.value.value,
                  weight.value, attestation.value, cert.value))
  }

  // ---- the canonical form -----------------------------------------------------------------------

  /** What is printed: an object is its fields in order. */
  datatype Printed =
    | PBool(b: bool) | PNum(n: int) | PStr(s: string) | PList(items: seq<Printed>)
    | PRec(fields: seq<Field>)

  datatype Field = Field(key: Key, value: Printed)

  function Text(key: Key, s: Option<string>): seq<Field> {
    if s.None? then [] else [Field(key, PStr(s.value))]
  }

  /** A flag is printed only when set. */
  function Flag(key: Key, b: Option<bool>): seq<Field> {
    if b == Some(true) then [Field(key, PBool(true))] else []
  }

  function CanonicalRelay(r: Relay): Printed {
    PRec([Field(RelayId, PStr(r.relayId)), Field(RelayEd25519, PStr(r.ed25519)), Field(Endpoint, PStr(r.endpoint))]
         + Text(EndpointV6, r.endpointV6) + Text(CoverDomain, r.coverDomain) + Flag(TcpFallback, r.tcpFallback)
         + [Field(Signature, PStr(r.signature))])
  }

  function CanonicalExit(x: Exit): Printed {
    PRec([Field(ExitId, PStr(x.exitId)), Field(ExitEd25519, PStr(x.ed25519)), Field(ExitX25519, PStr(x.x25519))]
         + Text(Endpoint, x.endpoint) + Text(CoverDomain, x.coverDomain) + [Field(Signature, PStr(x.signature))]
         + Flag(DnsDisabled, x.dnsDisabled) + Text(ExitMlkem768, x.mlkem768))
  }

  function CanonicalNode(n: Node): Printed {
    PRec([Field(RelayPart, CanonicalRelay(n.relay)), Field(ExitPart, CanonicalExit(n.exit)),
          Field(Country, PStr(n.country)), Field(City, PStr(n.city)), Field(Asn, PNum(n.asn)),
          Field(Weight, PNum(n.weight)), Field(Attestation, PStr(n.attestation))]
         + Text(EdgeCert, n.edgeCert))
  }

  /** Reading a printed value back; a repeated field would keep its last value. */
  function Read(p: Printed): Json {
    match p
    case PBool(b) => Bool(b)
    case PNum(n) => Num(n)
    case PStr(s) => Str(s)
    case PList(items) => Arr(ReadList(items))
    case PRec(fields) => Obj(ReadFields(fields))
  }

  function ReadList(items: seq<Printed>): (r: seq<Json>)
    ensures |r| == |items| && forall i :: 0 <= i < |items| ==> r[i] == Read(items[i])
  {
    if items == [] then [] else [Read(items[0])] + ReadList(items[1..])
  }

  function ReadFields(fields: seq<Field>): map<Key, Json> {
    if fields == [] then map[]
    else map[fields[0].key := ReadValue(fields[0])] + ReadFields(fields[1..])
  }

  function ReadValue(f: Field): Json {
    Read(f.value)
  }

  lemma MergeAssociates(a: map<Key, Json>, b: map<Key, Json>, c: map<Key, Json>)
    ensures a + (b + c) == (a + b) + c
  {
  }

  lemma {:induction false} ReadAppends(a: seq<Field>, b: seq<Field>)
    ensures ReadFields(a + b) == ReadFields(a) + ReadFields(b)
  {
    if a == [] {
      assert a + b == b;
      assert map[] + ReadFields(b) == ReadFields(b);
    } else {
      assert (a + b)[1..] == a[1..] + b;
      ReadAppends(a[1..], b);
      MergeAssociates(map[a[0].key := ReadValue(a[0])], ReadFields(a[1..]), ReadFields(b));
    }
  }

  /** One more field read at the end. */
  function Plus(m: map<Key, Json>, key: Key, v: Option<Json>): map<Key, Json> {
    if v.None? then m else m[key := v.value]
  }

  lemma ReadText(a: seq<Field>, key: Key, s: Option<string>)
    ensures ReadFields(a + Text(key, s)) == Plus(ReadFields(a), key, if s.None? then None else Some(Str(s.value)))
  {
    if s.Some? { ReadOne(a, key, PStr(s.value)); } else { assert a + [] == a; }
  }

  lemma ReadFlag(a: seq<Field>, key: Key, b: Option<bool>)
    ensures ReadFields(a + Flag(key, b)) == Plus(ReadFields(a), key, if b == Some(true) then Some(Bool(true)) else None)
  {
    if b == Some(true) { ReadOne(a, key, PBool(true)); } else { assert a + [] == a; }
  }

  lemma ReadOne(a: seq<Field>, key: Key, p: Printed)
    ensures ReadFields(a + [Field(key, p)]) == ReadFields(a)[key := Read(p)]
  {
    var one := [Field(key, p)];
    ReadAppends(a, one);
    assert one[1..] == [];
    assert ReadFields(one) == map[key := Read(p)];
  }

  // ---- the normal form is a normal form ---------------------------------------------------------------

  /** A flag that is not set is no flag. */
  function SetFlag(b: Option<bool>): Option<bool> {
    if b == Some(true) then b else None
  }

  function NormalRelay(r: Relay): Relay {
    r.(tcpFallback := SetFlag(r.tcpFallback))
  }

  function NormalExit(x: Exit): Exit {
    x.(dnsDisabled := SetFlag(x.dnsDisabled))
  }

  function Normal(n: Node): Node {
    n.(relay := NormalRelay(n.relay), exit := NormalExit(n.exit))
  }

  predicate FixedHex(s: string, bytes: nat) {
    |s| == 2 * bytes && IsLowerHex(s)
  }

  predicate ValidRelay(r: Relay) {
    FixedHex(r.relayId, 16) && FixedHex(r.ed25519, 32) && FixedHex(r.signature, 64)
  }

  predicate ValidExit(x: Exit) {
    && FixedHex(x.exitId, 16) && FixedHex(x.ed25519, 32) && FixedHex(x.x25519, 32) && FixedHex(x.signature, 64)
    && (x.mlkem768.Some? ==> |x.mlkem768.value| % 2 == 0 && IsLowerHex(x.mlkem768.value))
  }

  predicate ValidNode(n: Node) {
    && ValidRelay(n.relay) && ValidExit(n.exit) && n.asn <= MAX_SAFE_INTEGER && n.weight <= MAX_SAFE_INTEGER
    && (n.edgeCert.Some? ==> FixedHex(n.edgeCert.value, 32))
  }

  lemma ReadHex(v: Json, bytes: nat)
    ensures AsFixedHex(v, bytes).Some? ==> FixedHex(AsFixedHex(v, bytes).value, bytes)
    ensures AsHex(v).Some? ==> |AsHex(v).value| % 2 == 0 && IsLowerHex(AsHex(v).value)
  {
    if v.Str? && IsHex(v.s) { LowerIsLowerHex(v.s); }
  }

  /** Validation hands out nothing but valid nodes. */
  lemma ValidatedIsValid(v: Json)
    ensures ValidateNode(v).Some? ==> ValidNode(ValidateNode(v).value)
  {
    if ValidateNode(v).Some? {
      var relay, exit := v.members[RelayPart], v.members[ExitPart];
      ValidatedRelay(relay);
      ValidatedExit(exit);
      if EdgeCert in v.members { ReadHex(v.members[EdgeCert], 32); }
    }
  }

  lemma ValidatedRelay(v: Json)
    ensures ValidateRelay(v).Some? ==> ValidRelay(ValidateRelay(v).value)
  {
    if ValidateRelay(v).Some? {
      ReadHex(v.members[RelayId], 16);
      ReadHex(v.members[RelayEd25519], 32);
      ReadHex(v.members[Signature], 64);
    }
  }

  lemma ValidatedExit(v: Json)
    ensures ValidateExit(v).Some? ==> ValidExit(ValidateExit(v).value)
  {
    if ValidateExit(v).Some? {
      ReadHex(v.members[ExitId], 16);
      ReadHex(v.members[ExitEd25519], 32);
      ReadHex(v.members[ExitX25519], 32);
      ReadHex(v.members[Signature], 64);
      if ExitMlkem768 in v.members { ReadHex(v.members[ExitMlkem768], 0); }
    }
  }

  lemma ThreeFields(k: Key, a: Printed, l: Key, b: Printed, m: Key, c: Printed)
    ensures ReadFields([Field(k, a), Field(l, b), Field(m, c)]) == map[k := Read(a), l := Read(b), m := Read(c)]
  {
    var one, two := [Field(k, a)], [Field(k, a), Field(l, b)];
    ReadOne([], k, a);
    ReadOne(one, l, b);
    ReadOne(two, m, c);
    assert [] + one == one && one + [Field(l, b)] == two;
    assert two + [Field(m, c)] == [Field(k, a), Field(l, b), Field(m, c)];
  }

  function Quoted(s: Option<string>): Option<Json> {
    if s.None? then None else Some(Str(s.value))
  }

  function Raised(b: Option<bool>): Option<Json> {
    if b == Some(true) then Some(Bool(true)) else None
  }

  /** A canonical relay, read back, as an object. */
  function RelayObject(r: Relay): map<Key, Json> {
    var m := map[RelayId := Str(r.relayId), RelayEd25519 := Str(r.ed25519), Endpoint := Str(r.endpoint)];
    var n := Plus(Plus(m, EndpointV6, Quoted(r.endpointV6)), CoverDomain, Quoted(r.coverDomain));
    Plus(n, TcpFallback, Raised(r.tcpFallback))[Signature := Str(r.signature)]
  }

  lemma RelayReads(r: Relay)
    ensures Read(CanonicalRelay(r)) == Obj(RelayObject(r))
  {
    var f := [Field(RelayId, PStr(r.relayId)), Field(RelayEd25519, PStr(r.ed25519)), Field(Endpoint, PStr(r.endpoint))];
    ThreeFields(RelayId, PStr(r.relayId), RelayEd25519, PStr(r.ed25519), Endpoint, PStr(r.endpoint));
    ReadText(f, EndpointV6, r.endpointV6);
    f := f + Text(EndpointV6, r.endpointV6);
    ReadText(f, CoverDomain, r.coverDomain);
    f := f + Text(CoverDomain, r.coverDomain);
    ReadFlag(f, TcpFallback, r.tcpFallback);
    f := f + Flag(TcpFallback, r.tcpFallback);
    ReadOne(f, Signature, PStr(r.signature));
  }

  /** An optional field of an object holds `v`, or is absent. */
  predicate Holds(m: map<Key, Json>, key: Key, v: Option<Json>) {
    if v.None? then key !in m else key in m && m[key] == v.value
  }

  predicate RelayMembers(m: map<Key, Json>, r: Relay) {
    && {RelayId, RelayEd25519, Endpoint, Signature} <= m.Keys
    && m.Keys <= {RelayId, RelayEd25519, Endpoint, Signature} + {EndpointV6, CoverDomain, TcpFallback}
    && m[RelayId] == Str(r.relayId) && m[RelayEd25519] == Str(r.ed25519) && m[Endpoint] == Str(r.endpoint)
    && m[Signature] == Str(r.signature) && Holds(m, EndpointV6, Quoted(r.endpointV6))
    && Holds(m, CoverDomain, Quoted(r.coverDomain)) && Holds(m, TcpFallback, Raised(r.tcpFallback))
  }

  lemma MembersOfRelay(r: Relay)
    ensures RelayMembers(RelayObject(r), r)
  {
  }

  lemma RelayValidates(m: map<Key, Json>, r: Relay)
    requires RelayMembers(m, r) && ValidRelay(r)
    ensures ValidateRelay(Obj(m)) == Some(NormalRelay(r))
  {
  }

  lemma RelayRoundTrip(r: Relay)
    requires ValidRelay(r)
    ensures ValidateRelay(Read(CanonicalRelay(r))) == Some(NormalRelay(r))
  {
    RelayReads(r);
    MembersOfRelay(r);
    RelayValidates(RelayObject(r), r);
  }

  /** A canonical exit, read back, as an object. */
  function ExitObject(x: Exit): map<Key, Json> {
    var m := map[ExitId := Str(x.exitId), ExitEd25519 := Str(x.ed25519), ExitX25519 := Str(x.x25519)];
    var o := Plus(Plus(m, Endpoint, Quoted(x.endpoint)), CoverDomain, Quoted(x.coverDomain));
    var n := o[Signature := Str(x.signature)];
    Plus(Plus(n, DnsDisabled, Raised(x.dnsDisabled)), ExitMlkem768, Quoted(x.mlkem768))
  }

  lemma ExitReads(x: Exit)
    ensures Read(CanonicalExit(x)) == Obj(ExitObject(x))
  {
    var f := [Field(ExitId, PStr(x.exitId)), Field(ExitEd25519, PStr(x.ed25519)), Field(ExitX25519, PStr(x.x25519))];
    ThreeFields(ExitId, PStr(x.exitId), ExitEd25519, PStr(x.ed25519), ExitX25519, PStr(x.x25519));
    ReadText(f, Endpoint, x.endpoint);
    f := f + Text(Endpoint, x.endpoint);
    ReadText(f, CoverDomain, x.coverDomain);
    f := f + Text(CoverDomain, x.coverDomain);
    ReadOne(f, Signature, PStr(x.signature));
    f := f + [Field(Signature, PStr(x.signature))];
    ReadFlag(f, DnsDisabled, x.dnsDisabled);
    f := f + Flag(DnsDisabled, x.dnsDisabled);
    ReadText(f, ExitMlkem768, x.mlkem768);
  }

  lemma ExitRoundTrip(x: Exit)
    requires ValidExit(x)
    ensures ValidateExit(Read(CanonicalExit(x))) == Some(NormalExit(x))
  {
    ExitReads(x);
    MembersOfExit(x);
    ExitValidates(ExitObject(x), x);
  }

  predicate ExitMembers(m: map<Key, Json>, x: Exit) {
    && {ExitId, ExitEd25519, ExitX25519, Signature} <= m.Keys
    && m.Keys <= {ExitId, ExitEd25519, ExitX25519, Signature} + {Endpoint, CoverDomain, DnsDisabled, ExitMlkem768}
    && m[ExitId] == Str(x.exitId) && m[ExitEd25519] == Str(x.ed25519) && m[ExitX25519] == Str(x.x25519)
    && m[Signature] == Str(x.signature) && Holds(m, Endpoint, Quoted(x.endpoint))
    && Holds(m, CoverDomain, Quoted(x.coverDomain)) && Holds(m, DnsDisabled, Raised(x.dnsDisabled))
    && Holds(m, ExitMlkem768, Quoted(x.mlkem768))
  }

  lemma MembersOfExit(x: Exit)
    ensures ExitMembers(ExitObject(x), x)
  {
  }

  lemma ExitValidates(m: map<Key, Json>, x: Exit)
    requires ExitMembers(m, x) && ValidExit(x)
    ensures ValidateExit(Obj(m)) == Some(NormalExit(x))
  {
  }

  function NodeObject(n: Node): map<Key, Json> {
    var m := map[RelayPart := Read(CanonicalRelay(n.relay)), ExitPart := Read(CanonicalExit(n.exit)),
                 Country := Str(n.country),
                 City := Str(n.city), Asn := Num(n.asn), Weight := Num(n.weight), Attestation := Str(n.attestation)];
    Plus(m, EdgeCert, Quoted(n.edgeCert))
  }

  lemma NodeReads(n: Node)
    ensures Read(CanonicalNode(n)) == Obj(NodeObject(n))
  {
    var relay, exit := CanonicalRelay(n.relay), CanonicalExit(n.exit);
    var f := [Field(RelayPart, relay), Field(ExitPart, exit), Field(Country, PStr(n.country))];
    ThreeFields(RelayPart, relay, ExitPart, exit, Country, PStr(n.country));
    ReadOne(f, City, PStr(n.city));
    f := f + [Field(City, PStr(n.city))];
    ReadOne(f, Asn, PNum(n.asn));
    f := f + [Field(Asn, PNum(n.asn))];
    ReadOne(f, Weight, PNum(n.weight));
    f := f + [Field(Weight, PNum(n.weight))];
    ReadOne(f, Attestation, PStr(n.attestation));
    f := f + [Field(Attestation, PStr(n.attestation))];
    ReadText(f, EdgeCert, n.edgeCert);
    f := f + Text(EdgeCert, n.edgeCert);
    assert CanonicalNode(n) == PRec(f);
  }

  /** Canonicalizing is idempotent: a canonical form validates, to the normal node, whose form it is. */
  lemma CanonicalIsNormal(n: Node)
    requires ValidNode(n)
    ensures ValidateNode(Read(CanonicalNode(n))) == Some(Normal(n))
    ensures CanonicalNode(Normal(n)) == CanonicalNode(n)
  {
    NodeReads(n);
    MembersOfNode(n);
    RelayRoundTrip(n.relay);
    ExitRoundTrip(n.exit);
    NodeValidates(NodeObject(n), n);
  }

  predicate NodeMembers(m: map<Key, Json>, n: Node) {
    && {RelayPart, ExitPart, Country, City, Weight, Attestation} <= m.Keys
    && m.Keys <= {RelayPart, ExitPart, Country, City, Weight, Attestation} + {Asn, EdgeCert}
    && m[Country] == Str(n.country) && m[City] == Str(n.city) && m[Weight] == Num(n.weight)
    && m[Attestation] == Str(n.attestation) && Holds(m, Asn, Some(Num(n.asn))) && Holds(m, EdgeCert, Quoted(n.edgeCert))
  }

  lemma MembersOfNode(n: Node)
    ensures NodeMembers(NodeObject(n), n)
    ensures NodeObject(n)[RelayPart] == Read(CanonicalRelay(n.relay))
            && NodeObject(n)[ExitPart] == Read(CanonicalExit(n.exit))
  {
  }

  lemma NodeTexts(m: map<Key, Json>, n: Node)
    requires NodeMembers(m, n) && ValidNode(n)
    ensures AsObject(Obj(m), {RelayPart, ExitPart, Country, City, Weight, Attestation}, {Asn, EdgeCert}) == Some(m)
    ensures AsString(m[Country]) == Some(n.country) && AsString(m[City]) == Some(n.city)
    ensures AsU64(m[Weight]) == Some(n.weight) && AsString(m[Attestation]) == Some(n.attestation)
    ensures Maybe(m, Asn, AsU64) == Some(Some(n.asn)) && Maybe(m, EdgeCert, EdgeCertHash) == Some(n.edgeCert)
  {
  }

  lemma NodeValidates(m: map<Key, Json>, n: Node)
    requires NodeMembers(m, n) && ValidNode(n)
    requires ValidateRelay(m[RelayPart]) == Some(NormalRelay(n.relay))
    requires ValidateExit(m[ExitPart]) == Some(NormalExit(n.exit))
    ensures ValidateNode(Obj(m)) == Some(Normal(n))
  {
    NodeTexts(m, n);
    var r := ValidateNode(Obj(m));
    assert r.Some? && r.value.edgeCert == n.edgeCert && r.value.asn == n.asn;
  }

  /** Two valid nodes have one canonical form exactly when they have one normal form. */
  lemma CanonicalDetermines(m: Node, n: Node)
    requires ValidNode(m) && ValidNode(n)
    ensures CanonicalNode(m) == CanonicalNode(n) <==> Normal(m) == Normal(n)
  {
    CanonicalIsNormal(m);
    CanonicalIsNormal(n);
  }

  // ---- what a validated node holds ---------------------------------------------------------------

  /** An optional text of an object. */
  function TextAt(m: map<Key, Json>, key: Key): Option<string> {
    if key in m && m[key].Str? then Some(m[key].s) else None
  }

  function FlagAt(m: map<Key, Json>, key: Key): Option<bool> {
    if key in m && m[key].Bool? then Some(m[key].b) else None
  }

  function LowerAt(m: map<Key, Json>, key: Key): Option<string> {
    if key in m && m[key].Str? then Some(Lower(m[key].s)) else None
  }

  /** Every field of a validated relay is the member of its own name, hex in lower case. */
  lemma RelayHoldsItsMembers(v: Json)
    requires ValidateRelay(v).Some?
    ensures v.Obj?
    ensures var r, m := ValidateRelay(v).value, v.members;
            && Some(r.relayId) == LowerAt(m, RelayId) && Some(r.ed25519) == LowerAt(m, RelayEd25519)
            && Some(r.signature) == LowerAt(m, Signature) && Some(r.endpoint) == TextAt(m, Endpoint)
            && r.endpointV6 == TextAt(m, EndpointV6) && r.coverDomain == TextAt(m, CoverDomain)
            && r.tcpFallback == FlagAt(m, TcpFallback)
  {
  }

  lemma ExitHoldsItsMembers(v: Json)
    requires ValidateExit(v).Some?
    ensures v.Obj?
    ensures var x, m := ValidateExit(v).value, v.members;
            && Some(x.exitId) == LowerAt(m, ExitId) && Some(x.ed25519) == LowerAt(m, ExitEd25519)
            && Some(x.x25519) == LowerAt(m, ExitX25519) && Some(x.signature) == LowerAt(m, Signature)
            && x.endpoint == TextAt(m, Endpoint) && x.coverDomain == TextAt(m, CoverDomain)
            && x.dnsDisabled == FlagAt(m, DnsDisabled) && x.mlkem768 == LowerAt(m, ExitMlkem768)
  {
  }

  /** And of a validated node: a missing number of the network is 0. */
  lemma NodeHoldsItsMembers(v: Json)
    requires ValidateNode(v).Some?
    ensures v.Obj? && RelayPart in v.members && ExitPart in v.members
    ensures var n, m := ValidateNode(v).value, v.members;
            && ValidateRelay(m[RelayPart]) == Some(n.relay) && ValidateExit(m[ExitPart]) == Some(n.exit)
            && Some(n.country) == TextAt(m, Country) && Some(n.city) == TextAt(m, City)
            && Some(n.attestation) == TextAt(m, Attestation) && n.edgeCert == LowerAt(m, EdgeCert)
            && (n.asn == if Asn in m && m[Asn].Num? then m[Asn].n else 0)
            && Weight in m && m[Weight] == Num(n.weight)
  {
  }
}
