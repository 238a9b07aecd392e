/**
 Which documents are taken at all, and how a canonical form is laid out (`multihop.ts`): strict
 objects with nothing missing and nothing unknown, and fields in a frozen order.
 */
module DirectoryForms {
  import opened Results
  import opened DirectoryNodes
  import opened Directory

  // ---- what is taken ---------------------------------------------------------------------------

  predicate HexAt(m: map<Key, Json>, key: Key, digits: nat) {
    key in m && m[key].Str? && |m[key].s| == digits && IsHex(m[key].s)
  }

  predicate StrAt(m: map<Key, Json>, key: Key) {
    key in m && m[key].Str?
  }

  /** An integer a JavaScript number holds exactly. */
  predicate CountAt(m: map<Key, Json>, key: Key) {
    key in m && m[key].Num? && 0 <= m[key].n <= 9007199254740991
  }

  predicate BoolAt(m: map<Key, Json>, key: Key) {
    key in m && m[key].Bool?
  }

  predicate EvenHexAt(m: map<Key, Json>, key: Key) {
    key in m && m[key].Str? && |m[key].s| % 2 == 0 && IsHex(m[key].s)
  }

  /** 16-byte ids, 32-byte keys and 64-byte signatures, in hex of either case. */
  predicate RelayTaken(v: Json) {
    && v.Obj?
    && v.members.Keys <= {RelayId, RelayEd25519, Endpoint, EndpointV6, CoverDomain, TcpFallback, Signature}
    && HexAt(v.members, RelayId, 32) && HexAt(v.members, RelayEd25519, 64) && HexAt(v.members, Signature, 128)
    && StrAt(v.members, Endpoint)
    && (EndpointV6 in v.members ==> StrAt(v.members, EndpointV6))
    && (CoverDomain in v.members ==> StrAt(v.members, CoverDomain))
    && (TcpFallback in v.members ==> BoolAt(v.members, TcpFallback))
  }

  predicate ExitTaken(v: Json) {
    && v.Obj?
    && v.members.Keys <=
       {ExitId, ExitEd25519, ExitX25519, Endpoint, CoverDomain, Signature, DnsDisabled, ExitMlkem768}
    && HexAt(v.members, ExitId, 32) && HexAt(v.members, ExitEd25519, 64) && HexAt(v.members, ExitX25519, 64)
    && HexAt(v.members, Signature, 128)
    && (Endpoint in v.members ==> StrAt(v.members, Endpoint))
    && (CoverDomain in v.members ==> StrAt(v.members, CoverDomain))
    && (DnsDisabled in v.members ==> BoolAt(v.members, DnsDisabled))
    && (ExitMlkem768 in v.members ==> EvenHexAt(v.members, ExitMlkem768))
  }

  predicate NodeTaken(v: Json) {
    && v.Obj?
    && v.members.Keys <= {RelayPart, ExitPart, Country, City, Asn, Weight, Attestation, EdgeCert}
    && RelayPart in v.members && RelayTaken(v.members[RelayPart])
    && ExitPart in v.members && ExitTaken(v.members[ExitPart])
    && StrAt(v.members, Country) && StrAt(v.members, City) && CountAt(v.members, Weight)
    && StrAt(v.members, Attestation)
    && (Asn in v.members ==> CountAt(v.members, Asn))
    && (EdgeCert in v.members ==> HexAt(v.members, EdgeCert, 64))
  }

  lemma RelayTakenExactly(v: Json)
    ensures ValidateRelay(v).Some? <==> RelayTaken(v)
  {
  }

  lemma ExitTakenExactly(v: Json)
    ensures ValidateExit(v).Some? <==> ExitTaken(v)
  {
  }

  lemma NodeTakenExactly(v: Json)
    ensures ValidateNode(v).Some? <==> NodeTaken(v)
  {
    if v.Obj? && RelayPart in v.members { RelayTakenExactly(v.members[RelayPart]); }
    if v.Obj? && ExitPart in v.members { ExitTakenExactly(v.members[ExitPart]); }
  }

  /** A list is read all together, item by item, or not at all. */
  lemma {:induction false} AllInOrder<T>(validate: Json -> Option<T>, items: seq<Json>)
    ensures var r := ParseAll(validate, items);
            && (r.Some? <==> forall v :: v in items ==> validate(v).Some?)
            && (r.Some? ==> |r.value| == |items|)
            && (r.Some? ==> forall i :: 0 <= i < |items| ==> validate(items[i]) == Some(r.value[i]))
  {
    if items != [] {
      AllInOrder(validate, items[1..]);
      assert items == [items[0]] + items[1..];
    }
  }

  lemma NodesTakenExactly(items: seq<Json>)
    ensures ParseNodes(items).Some? <==> forall v :: v in items ==> NodeTaken(v)
  {
    AllInOrder(ValidateNode, items);
    forall v | v in items ensures ValidateNode(v).Some? <==> NodeTaken(v) {
      NodeTakenExactly(v);
    }
  }

  predicate Titled(v: Json) {
    && v.Obj?
    && v.members.Keys == {Version, Nodes, Generation, SignedAt, ExpiresAt, OperationalKey, OperationalCert, ServerKey,
                          EnvelopeSignature}
    && CountAt(v.members, Version)
  }

  predicate DocTaken(v: Json) {
    && Titled(v) && v.members[Version].n == 2
    && StrAt(v.members, ServerKey) && StrAt(v.members, OperationalKey) && StrAt(v.members, OperationalCert)
    && StrAt(v.members, EnvelopeSignature)
    && CountAt(v.members, Generation) && CountAt(v.members, SignedAt) && CountAt(v.members, ExpiresAt)
    && v.members[Nodes].Arr? && forall n :: n in v.members[Nodes].items ==> NodeTaken(n)
  }

  /** A document is another version's, or taken, or no directory; each exactly then. */
  lemma DocTakenExactly(v: Json)
    ensures Parse(v).Ok? <==> DocTaken(v)
    ensures Parse(v) == Err(UnsupportedVersion) <==> Titled(v) && v.members[Version].n != 2
    ensures Parse(v).Err? ==> Parse(v).error == UnsupportedVersion || Parse(v).error == NotJson
  {
    if v.Obj? && Nodes in v.members && v.members[Nodes].Arr? { NodesTakenExactly(v.members[Nodes].items); }
  }

  /** What was read is what stands under each name, the nodes in their order. */
  lemma DocHoldsItsMembers(v: Json)
    requires Parse(v).Ok?
    ensures v.Obj? && v.members.Keys == TOP_LEVEL && v.members[Nodes].Arr?
    ensures var d, m := Parse(v).value, v.members;
            && m[Generation] == Num(d.generation) && m[SignedAt] == Num(d.signedAt) && m[ExpiresAt] == Num(d.expiresAt)
            && m[OperationalKey] == Str(d.operational) && m[OperationalCert] == Str(d.cert)
            && m[ServerKey] == Str(d.server) && m[EnvelopeSignature] == Str(d.signature)
            && |d.nodes| == |m[Nodes].items|
            && forall i :: 0 <= i < |d.nodes| ==> ValidateNode(m[Nodes].items[i]) == Some(d.nodes[i])
  {
    AllInOrder(ValidateNode, v.members[Nodes].items);
  }

  // ---- the frozen order ------------------------------------------------------------------------

  /** The place of a field among those it can stand beside. */
  function Rank(key: Key): nat {
    match key
    case RelayId => 0 case RelayEd25519 => 1
    case ExitId => 0 case ExitEd25519 => 1 case ExitX25519 => 2
    case Endpoint => 3 case EndpointV6 => 4 case CoverDomain => 5 case TcpFallback => 6 case Signature => 7
    case DnsDisabled => 8 case ExitMlkem768 => 9
    case RelayPart => 0 case ExitPart => 1 case Country => 2 case City => 3 case Asn => 4 case Weight => 5
    case Attestation => 6 case EdgeCert => 7
    case Version => 0 case Nodes => 1 case Generation => 2 case SignedAt => 3 case ExpiresAt => 4
    case OperationalKey => 5 case OperationalCert => 6 case ServerKey => 7 case EnvelopeSignature => 8
    case Unknown(_) => 9
  }

  /** Strictly rising ranks, from `lo` up to `hi`. */
  predicate Rising(fields: seq<Field>, lo: nat, hi: nat) {
    && (forall i :: 0 <= i < |fields| ==> lo <= Rank(fields[i].key) < hi)
    && (forall i, j :: 0 <= i < j < |fields| ==> Rank(fields[i].key) < Rank(fields[j].key))
  }

  lemma RisingOn(a: seq<Field>, b: seq<Field>, lo: nat, mid: nat, hi: nat)
    requires Rising(a, lo, mid) && Rising(b, mid, hi) && lo <= mid <= hi
    ensures Rising(a + b, lo, hi)
  {
  }

  lemma FourRise(a: Field, b: Field, c: Field, d: Field, lo: nat)
    requires Rank(a.key) == lo && Rank(b.key) == lo + 1 && Rank(c.key) == lo + 2 && Rank(d.key) == lo + 3
    ensures Rising([a, b, c, d], lo, lo + 4)
  {
  }

  /** A relay is printed in one order, whatever optional fields it has. */
  lemma RelayRises(r: Relay)
    ensures CanonicalRelay(r).PRec? && Rising(CanonicalRelay(r).fields, 0, 10)
  {
    var f := [Field(RelayId, PStr(r.relayId)), Field(RelayEd25519, PStr(r.ed25519)), Field(Endpoint, PStr(r.endpoint))];
    RisingOn(f, Text(EndpointV6, r.endpointV6), 0, 4, 5);
    f := f + Text(EndpointV6, r.endpointV6);
    RisingOn(f, Text(CoverDomain, r.coverDomain), 0, 5, 6);
    f := f + Text(CoverDomain, r.coverDomain);
    RisingOn(f, Flag(TcpFallback, r.tcpFallback), 0, 6, 7);
    f := f + Flag(TcpFallback, r.tcpFallback);
    RisingOn(f, [Field(Signature, PStr(r.signature))], 0, 7, 10);
  }

  lemma ExitRises(x: Exit)
    ensures CanonicalExit(x).PRec? && Rising(CanonicalExit(x).fields, 0, 10)
  {
    var f := [Field(ExitId, PStr(x.exitId)), Field(ExitEd25519, PStr(x.ed25519)), Field(ExitX25519, PStr(x.x25519))];
    RisingOn(f, Text(Endpoint, x.endpoint), 0, 3, 4);
    f := f + Text(Endpoint, x.endpoint);
    RisingOn(f, Text(CoverDomain, x.coverDomain), 0, 5, 6);
    f := f + Text(CoverDomain, x.coverDomain);
    RisingOn(f, [Field(Signature, PStr(x.signature))], 0, 7, 8);
    f := f + [Field(Signature, PStr(x.signature))];
    RisingOn(f, Flag(DnsDisabled, x.dnsDisabled), 0, 8, 9);
    f := f + Flag(DnsDisabled, x.dnsDisabled);
    RisingOn(f, Text(ExitMlkem768, x.mlkem768), 0, 9, 10);
  }

  lemma NodeRises(n: Node)
    ensures CanonicalNode(n).PRec? && Rising(CanonicalNode(n).fields, 0, 8)
  {
    var f := [Field(RelayPart, CanonicalRelay(n.relay)), Field(ExitPart, CanonicalExit(n.exit)),
              Field(Country, PStr(n.country)), Field(City, PStr(n.city)), Field(Asn, PNum(n.asn)),
              Field(Weight, PNum(n.weight)), Field(Attestation, PStr(n.attestation))];
    RisingOn(f, Text(EdgeCert, n.edgeCert), 0, 7, 8);
  }

  /** And so is the document around them. */
  lemma PreimageRises(d: Doc)
    ensures Preimage(d).PRec? && |Preimage(d).fields| == 8 && Rising(Preimage(d).fields, 0, 8)
  {
    var f := [Field(Version, PNum(DIRECTORY_VERSION)), Field(Nodes, PList(CanonicalNodes(d.nodes))),
              Field(Generation, PNum(d.generation)), Field(SignedAt, PNum(d.signedAt))];
    var g := [Field(ExpiresAt, PNum(d.expiresAt)), Field(OperationalKey, PStr(d.operational)),
              Field(OperationalCert, PStr(d.cert)), Field(ServerKey, PStr(d.server))];
    FourRise(f[0], f[1], f[2], f[3], 0);
    FourRise(g[0], g[1], g[2], g[3], 4);
    RisingOn(f, g, 0, 4, 8);
    assert Preimage(d).fields == f + g;
  }
}
