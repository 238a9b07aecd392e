/**
 Verifying the signed multi-hop directory (`verifyMultihopDirectory`): the pinned server signs
 the canonical form, a pinned root certifies the operational key, and that key vouches for
 every part of a node. Ed25519 is a predicate given from outside, over what is signed.
 */
module Directory {
  import opened Results
  import opened DirectoryNodes

  const DIRECTORY_VERSION := 2
  const MAX_VALIDITY_SECS: int := 7 * 24 * 60 * 60
  const MLKEM768_KEY_DIGITS := 2 * 1184

  /** What a signature is over. Each kind has a context string of its own in front. */
  datatype Statement =
    | Envelope(preimage: Printed)
    | RootSigns(operational: string)
    | RelayOf(relayId: string, ed25519: string)
    | NodeAt(relayId: string, exitEd25519: string, asn: nat, country: string)
    | ExitV1(exitId: string, x25519: string)
    | ExitV2(exitId: string, x25519: string, dnsDisabled: bool)
    | ExitPq(exitId: string, x25519: string, dnsDisabled: bool, mlkem768: string)

  /** Which strings are keys and signatures, who signed what, and lower-casing. */
  datatype Crypto = Crypto(
    isKey: string -> bool, isSignature: string -> bool, signed: (string, Statement, string) -> bool,
    lower: string -> string)

  datatype Doc = Doc(
    nodes: seq<Node>, generation: nat, signedAt: nat, expiresAt: nat, operational: string, cert: string, server: string,
    signature: string)

  datatype Error =
    NotJson | UnsupportedVersion | ServerNotPinned | InvalidHex | BadEnvelope | ValidityTooLong | BadOperationalCert

  datatype VerifiedExit = VerifiedExit(
    exitId: string, ed25519: string, x25519: string, endpoint: string, endpointV6: Option<string>, country: string,
    city: string, weight: nat, dnsDisabled: bool, edgeCert: Option<string>, coverDomain: Option<string>,
    mlkem768: Option<string>)

  datatype Verified = Verified(
    exits: seq<VerifiedExit>, generation: nat, signedAt: nat, expiresAt: nat, dropped: int, server: string)

  // ---- reading --------------------------------------------------------------------------------

  /** Every item validated, or none. */
  function ParseAll<T>(validate: Json -> Option<T>, items: seq<Json>): Option<seq<T>> {
    if items == [] then Some([])
    else
      var first, rest := validate(items[0]), ParseAll(validate, items[1..]);
      if first.None? || rest.None? then None else Some([first.value] + rest.value)
  }

  function ParseNodes(items: seq<Json>): Option<seq<Node>> {
    ParseAll(ValidateNode, items)
  }

  const TOP_LEVEL: set<Key> :=
    {Version, Nodes, Generation, SignedAt, ExpiresAt, OperationalKey, OperationalCert, ServerKey, EnvelopeSignature}

  function Parse(v: Json): Result<Doc, Error> {
    match AsObject(v, TOP_LEVEL, {})
    case None => Err(NotJson)
    case Some(m) =>
      var version := AsU64(m[Version]);
      if version.None? then Err(NotJson)
      else if version.value != DIRECTORY_VERSION then Err(UnsupportedVersion)
      else
        var server, operational := AsString(m[ServerKey]), AsString(m[OperationalKey]);
        var cert, signature := AsString(m[OperationalCert]), AsString(m[EnvelopeSignature]);
        var generation, signedAt, expiresAt := AsU64(m[Generation]), AsU64(m[SignedAt]), AsU64(m[ExpiresAt]);
        var nodes := if m[Nodes].Arr? then ParseNodes(m[Nodes].items) else None;
        if server.None? || operational.None? || cert.None? || signature.None? || generation.None? || signedAt.None?
           || expiresAt.None? || nodes.None?
        then Err(NotJson)
        else
          Ok(Doc(nodes.value, generation.value, signedAt.value, expiresAt.value, operational.value, cert.value,
                 server.value, signature.value))
  }

  function CanonicalNodes(nodes: seq<Node>): (r: seq<Printed>)
    ensures |r| == |nodes| && forall i :: 0 <= i < |nodes| ==> r[i] == CanonicalNode(nodes[i])
  {
    seq(|nodes|, i requires 0 <= i < |nodes| => CanonicalNode(nodes[i]))
  }

  /** What the envelope signature covers, in its frozen order. */
  function Preimage(d: Doc): Printed {
    PRec([Field(Version, PNum(DIRECTORY_VERSION)), Field(Nodes, PList(CanonicalNodes(d.nodes))),
          Field(Generation, PNum(d.generation)), Field(SignedAt, PNum(d.signedAt)), Field(ExpiresAt, PNum(d.expiresAt)),
          Field(OperationalKey, PStr(d.operational)), Field(OperationalCert, PStr(d.cert)),
          Field(ServerKey, PStr(d.server))])
  }

  // ---- vouching ---------------------------------------------------------------------------------

  datatype Vouched = Vouched(dnsDisabled: bool, mlkem768: Option<string>)

  function Dns(n: Node): bool {
    n.exit.dnsDisabled == Some(true)
  }

  /** The attestation covers the low 32 bits of the number. */
  function AsnWord(asn: nat): nat {
    asn % 0x1_0000_0000
  }

  predicate PqSigned(c: Crypto, op: string, n: Node) {
    && n.exit.mlkem768.Some? && |n.exit.mlkem768.value| == MLKEM768_KEY_DIGITS
    && c.signed(op, ExitPq(n.exit.exitId, n.exit.x25519, Dns(n), n.exit.mlkem768.value), n.exit.signature)
  }

  function Vouch(c: Crypto, op: string, n: Node): Option<Vouched> {
    var x := n.exit;
    if !c.signed(op, RelayOf(n.relay.relayId, n.relay.ed25519), n.relay.signature) then None
    else if !c.signed(op, NodeAt(n.relay.relayId, x.ed25519, AsnWord(n.asn), n.country), n.attestation) then None
    else if PqSigned(c, op, n) then Some(Vouched(Dns(n), x.mlkem768))
    else if c.signed(op, ExitV2(x.exitId, x.x25519, Dns(n)), x.signature) then Some(Vouched(Dns(n), None))
    else if c.signed(op, ExitV1(x.exitId, x.x25519), x.signature) then
      (if Dns(n) then None else Some(Vouched(false, None)))
    else None
  }

  function ExitOf(n: Node, v: Vouched): VerifiedExit {
    VerifiedExit(n.exit.exitId, n.exit.ed25519, n.exit.x25519, n.relay.endpoint, n.relay.endpointV6, n.country, n.city,
                 n.weight, v.dnsDisabled, n.edgeCert, n.exit.coverDomain, v.mlkem768)
  }

  /** The exits of the vouched nodes, in order. */
  function Surfaced(c: Crypto, op: string, nodes: seq<Node>): (exits: seq<VerifiedExit>)
    ensures |exits| <= |nodes|
  {
    if nodes == [] then []
    else
      var n := nodes[|nodes| - 1];
      var before, vouch := Surfaced(c, op, nodes[..|nodes| - 1]), Vouch(c, op, n);
      if vouch.None? then before else before + [ExitOf(n, vouch.value)]
  }

  // ---- the whole check ------------------------------------------------------------------------------

  predicate IsOneOf(c: Crypto, key: string, pins: seq<string>) {
    exists i :: 0 <= i < |pins| && c.lower(pins[i]) == c.lower(key)
  }

  predicate RootSigned(c: Crypto, root: string, d: Doc) {
    c.isKey(root) && c.signed(root, RootSigns(d.operational), d.cert)
  }

  predicate SomeRootSigned(c: Crypto, d: Doc, roots: seq<string>) {
    exists i :: 0 <= i < |roots| && RootSigned(c, roots[i], d)
  }

  /** An empty list of pins trusts on first use. */
  predicate Pinned(c: Crypto, key: string, pins: seq<string>) {
    |pins| > 0 ==> IsOneOf(c, key, pins)
  }

  predicate Certified(c: Crypto, d: Doc, roots: seq<string>) {
    |roots| > 0 ==> SomeRootSigned(c, d, roots)
  }

  function Checked(c: Crypto, d: Doc, pins: seq<string>, roots: seq<string>): Option<Error> {
    if !Pinned(c, d.server, pins) then Some(ServerNotPinned)
    else if !c.isKey(d.server) || !c.isSignature(d.signature) then Some(InvalidHex)
    else if !c.signed(d.server, Envelope(Preimage(d)), d.signature) then Some(BadEnvelope)
    else if d.expiresAt - d.signedAt > MAX_VALIDITY_SECS then Some(ValidityTooLong)
    else if !c.isKey(d.operational) then Some(InvalidHex)
    else if !Certified(c, d, roots) then Some(BadOperationalCert)
    else None
  }

  function Verify(c: Crypto, d: Doc, pins: seq<string>, roots: seq<string>): Result<Verified, Error> {
    Verdict(c, d, Checked(c, d, pins, roots), Surfaced(c, d.operational, d.nodes))
  }

  /** The first check that fails, or the exits with the document's own dates and the nodes left out. */
  function Verdict(c: Crypto, d: Doc, failure: Option<Error>, exits: seq<VerifiedExit>): Result<Verified, Error> {
    match failure
    case Some(e) => Err(e)
    case None => Ok(Verified(exits, d.generation, d.signedAt, d.expiresAt, |d.nodes| - |exits|, c.lower(d.server)))
  }

  /** The loop that gathers the vouched nodes. */
  method GatherExits(c: Crypto, op: string, nodes: seq<Node>) returns (exits: seq<VerifiedExit>)
    ensures exits == Surfaced(c, op, nodes)
  {
    exits := [];
    for i := 0 to |nodes|
      invariant exits == Surfaced(c, op, nodes[..i])
    {
      assert nodes[..i + 1][..i] == nodes[..i];
      var vouch := Vouch(c, op, nodes[i]);
      if vouch.None? {
        continue;
      }
      exits := exits + [ExitOf(nodes[i], vouch.value)];
    }
    assert nodes[..|nodes|] == nodes;
  }

  method VerifyMultihopDirectory(c: Crypto, v: Json, pins: seq<string>, roots: seq<string>)
      returns (r: Result<Verified, Error>)
    ensures r == match Parse(v) case Err(e) => Err(e) case Ok(d) => Verify(c, d, pins, roots)
  {
    var parsed := Parse(v);
    if parsed.Err? {
      return Err(parsed.error);
    }
    r := VerifyDocument(c, parsed.value, pins, roots);
  }

  /** Whether a key is among the pins, whatever the case of its digits. */
  method FindPin(c: Crypto, key: string, pins: seq<string>) returns (found: bool)
    ensures found <==> IsOneOf(c, key, pins)
  {
    var got := c.lower(key);
    for i := 0 to |pins|
      invariant forall k :: 0 <= k < i ==> c.lower(pins[k]) != got
    {
      if c.lower(pins[i]) == got {
        return true;
      }
    }
    return false;
  }

  /** Whether some pinned root that is a key certified the operational key. */
  method FindRoot(c: Crypto, d: Doc, roots: seq<string>) returns (found: bool)
    ensures found <==> SomeRootSigned(c, d, roots)
  {
    for i := 0 to |roots|
      invariant forall k :: 0 <= k < i ==> !RootSigned(c, roots[k], d)
    {
      if c.isKey(roots[i]) && c.signed(roots[i], RootSigns(d.operational), d.cert) {
        assert RootSigned(c, roots[i], d);
        return true;
      }
    }
    return false;
  }

  /** The checks in order, each with its own error. */
  method CheckDocument(c: Crypto, d: Doc, pins: seq<string>, roots: seq<string>) returns (failure: Option<Error>)
    ensures failure == Checked(c, d, pins, roots)
    ensures failure.None? <==>
              && (pins == [] || exists i :: 0 <= i < |pins| && c.lower(pins[i]) == c.lower(d.server))
              && c.isKey(d.server) && c.isSignature(d.signature)
              && c.signed(d.server, Envelope(Preimage(d)), d.signature) && d.expiresAt <= d.signedAt + MAX_VALIDITY_SECS
              && c.isKey(d.operational) && (roots == [] || exists i :: 0 <= i < |roots| && RootSigned(c, roots[i], d))
  {
    if |pins| > 0 {
      var pinned := FindPin(c, d.server, pins);
      if !pinned {
        return Some(ServerNotPinned);
      }
    }
    var preimage := Preimage(d);
    if !c.isKey(d.server) {
      return Some(InvalidHex);
    }
    if !c.isSignature(d.signature) {
      return Some(InvalidHex);
    }
    if !c.signed(d.server, Envelope(preimage), d.signature) {
      return Some(BadEnvelope);
    }
    if d.expiresAt - d.signedAt > MAX_VALIDITY_SECS {
      return Some(ValidityTooLong);
    }
    if !c.isKey(d.operational) {
      return Some(InvalidHex);
    }
    if |roots| > 0 {
      var certified := FindRoot(c, d, roots);
      if !certified {
        return Some(BadOperationalCert);
      }
    }
    return None;
  }

  method VerifyDocument(c: Crypto, d: Doc, pins: seq<string>, roots: seq<string>) returns (r: Result<Verified, Error>)
    ensures r == Verify(c, d, pins, roots)
  {
    var failure := CheckDocument(c, d, pins, roots);
    if failure.Some? {
      return Err(failure.value);
    }
    var exits := GatherExits(c, d.operational, d.nodes);
    return Verdict(c, d, None, exits);
  }

  // ---- the output follows the canonical form ------------------------------------------------------------

  predicate ValidDoc(d: Doc) {
    && (forall i :: 0 <= i < |d.nodes| ==> ValidNode(d.nodes[i]))
    && d.generation <= MAX_SAFE_INTEGER && d.signedAt <= MAX_SAFE_INTEGER && d.expiresAt <= MAX_SAFE_INTEGER
  }

  lemma {:induction false} ParsedNodesAreValid(items: seq<Json>)
    ensures ParseNodes(items).Some? ==>
              forall i :: 0 <= i < |ParseNodes(items).value| ==> ValidNode(ParseNodes(items).value[i])
  {
    if items != [] {
      ValidatedIsValid(items[0]);
      ParsedNodesAreValid(items[1..]);
    }
  }

  lemma ParsedIsValid(v: Json)
    ensures Parse(v).Ok? ==> ValidDoc(Parse(v).value)
  {
    if Parse(v).Ok? { ParsedNodesAreValid(v.members[Nodes].items); }
  }

  /** A node surfaces like its normal form: an unset flag is the same absent and false. */
  lemma NormalVouchesAlike(c: Crypto, op: string, n: Node)
    ensures Vouch(c, op, n) == Vouch(c, op, Normal(n))
    ensures forall v :: ExitOf(n, v) == ExitOf(Normal(n), v)
  {
  }

  lemma {:induction false} SameFormsSurfaceAlike(c: Crypto, op: string, a: seq<Node>, b: seq<Node>)
    requires |a| == |b| && forall i :: 0 <= i < |a| ==> Normal(a[i]) == Normal(b[i])
    ensures Surfaced(c, op, a) == Surfaced(c, op, b)
  {
    if a != [] {
      var last := |a| - 1;
      NormalVouchesAlike(c, op, a[last]);
      NormalVouchesAlike(c, op, b[last]);
      SameFormsSurfaceAlike(c, op, a[..last], b[..last]);
      var v := Vouch(c, op, a[last]);
      assert v.Some? ==> ExitOf(a[last], v.value) == ExitOf(Normal(a[last]), v.value);
      assert v.Some? ==> ExitOf(b[last], v.value) == ExitOf(Normal(b[last]), v.value);
    }
  }

  lemma PreimageDetermines(a: Doc, b: Doc)
    requires ValidDoc(a) && ValidDoc(b) && Preimage(a) == Preimage(b)
    ensures b == a.(nodes := b.nodes, signature := b.signature)
    ensures |a.nodes| == |b.nodes| && forall i :: 0 <= i < |a.nodes| ==> Normal(a.nodes[i]) == Normal(b.nodes[i])
  {
    var f, g := Preimage(a).fields, Preimage(b).fields;
    assert f[1] == g[1] && f[2] == g[2] && f[3] == g[3] && f[4] == g[4] && f[5] == g[5] && f[6] == g[6] && f[7] == g[7];
    var x, y := CanonicalNodes(a.nodes), CanonicalNodes(b.nodes);
    assert x == y;
    forall i | 0 <= i < |a.nodes| ensures Normal(a.nodes[i]) == Normal(b.nodes[i]) {
      assert x[i] == CanonicalNode(a.nodes[i]) && y[i] == CanonicalNode(b.nodes[i]);
      CanonicalDetermines(a.nodes[i], b.nodes[i]);
    }
  }

  lemma AlikeDocsVerifyAlike(c: Crypto, a: Doc, b: Doc, pins: seq<string>, roots: seq<string>)
    requires ValidDoc(a) && ValidDoc(b) && Preimage(a) == Preimage(b) && a.signature == b.signature
    ensures Verify(c, a, pins, roots) == Verify(c, b, pins, roots)
  {
    PreimageDetermines(a, b);
    SameFormsSurfaceAlike(c, a.operational, a.nodes, b.nodes);
    SameVerdict(c, a, b, pins, roots);
  }

  lemma SameVerdict(c: Crypto, a: Doc, b: Doc, pins: seq<string>, roots: seq<string>)
    requires b == a.(nodes := b.nodes) && Preimage(a) == Preimage(b) && |a.nodes| == |b.nodes|
    requires Surfaced(c, a.operational, a.nodes) == Surfaced(c, a.operational, b.nodes)
    ensures Verify(c, a, pins, roots) == Verify(c, b, pins, roots)
  {
    CheckedAlike(c, a, b, pins, roots);
    VerdictAlike(c, a, b, Checked(c, a, pins, roots), Surfaced(c, a.operational, a.nodes));
  }

  lemma VerdictAlike(c: Crypto, a: Doc, b: Doc, failure: Option<Error>, exits: seq<VerifiedExit>)
    requires b == a.(nodes := b.nodes) && |a.nodes| == |b.nodes|
    ensures Verdict(c, a, failure, exits) == Verdict(c, b, failure, exits)
  {
  }

  lemma CheckedAlike(c: Crypto, a: Doc, b: Doc, pins: seq<string>, roots: seq<string>)
    requires b == a.(nodes := b.nodes) && Preimage(a) == Preimage(b)
    ensures Checked(c, a, pins, roots) == Checked(c, b, pins, roots)
  {
  }

  /** Documents with one canonical form and one signature verify alike, error or exits and all. */
  lemma OutputFollowsPreimage(c: Crypto, v: Json, w: Json, pins: seq<string>, roots: seq<string>)
    ensures Parse(v).Ok? && Parse(w).Ok? && Preimage(Parse(v).value) == Preimage(Parse(w).value)
            && Parse(v).value.signature == Parse(w).value.signature ==>
              Verify(c, Parse(v).value, pins, roots) == Verify(c, Parse(w).value, pins, roots)
  {
    ParsedIsValid(v);
    ParsedIsValid(w);
    if Parse(v).Ok? && Parse(w).Ok? && Preimage(Parse(v).value) == Preimage(Parse(w).value)
       && Parse(v).value.signature == Parse(w).value.signature
    {
      AlikeDocsVerifyAlike(c, Parse(v).value, Parse(w).value, pins, roots);
    }
  }

  // ---- a document printed and read back ------------------------------------------------------------

  /** The canonical document: the preimage and its signature. */
  function Document(d: Doc): Printed {
    PRec(Preimage(d).fields + [Field(EnvelopeSignature, PStr(d.signature))])
  }

  function NormalNodes(nodes: seq<Node>): (r: seq<Node>)
    ensures |r| == |nodes| && forall i :: 0 <= i < |nodes| ==> r[i] == Normal(nodes[i])
  {
    seq(|nodes|, i requires 0 <= i < |nodes| => Normal(nodes[i]))
  }

  function NormalDoc(d: Doc): Doc {
    d.(nodes := NormalNodes(d.nodes))
  }

  lemma {:induction false} ParsedInTurn<T>(validate: Json -> Option<T>, items: seq<Json>, values: seq<T>)
    requires |items| == |values| && forall i :: 0 <= i < |items| ==> validate(items[i]) == Some(values[i])
    ensures ParseAll(validate, items) == Some(values)
    decreases |items|
  {
    if items != [] {
      ParsedInTurn(validate, items[1..], values[1..]);
      assert values == [values[0]] + values[1..];
    }
  }

  lemma NodesReadBack(nodes: seq<Node>)
    requires forall i :: 0 <= i < |nodes| ==> ValidNode(nodes[i])
    ensures ParseNodes(ReadList(CanonicalNodes(nodes))) == Some(NormalNodes(nodes))
  {
    var items := ReadList(CanonicalNodes(nodes));
    forall i | 0 <= i < |nodes| ensures ValidateNode(items[i]) == Some(NormalNodes(nodes)[i]) {
      CanonicalIsNormal(nodes[i]);
      assert items[i] == Read(CanonicalNodes(nodes)[i]);
    }
    ParsedInTurn(ValidateNode, items, NormalNodes(nodes));
  }

  predicate DocMembers(m: map<Key, Json>, nodes: Json, d: Doc) {
    && m.Keys == TOP_LEVEL && m[Version] == Num(DIRECTORY_VERSION) && m[Nodes] == nodes
    && m[Generation] == Num(d.generation) && m[SignedAt] == Num(d.signedAt) && m[ExpiresAt] == Num(d.expiresAt)
    && m[OperationalKey] == Str(d.operational) && m[OperationalCert] == Str(d.cert) && m[ServerKey] == Str(d.server)
    && m[EnvelopeSignature] == Str(d.signature)
  }

  /** The fields of a document, three at a time. */
  function DatesPart(d: Doc): seq<Field> {
    [Field(SignedAt, PNum(d.signedAt)), Field(ExpiresAt, PNum(d.expiresAt)), Field(OperationalKey, PStr(d.operational))]
  }

  function KeysPart(d: Doc): seq<Field> {
    [Field(OperationalCert, PStr(d.cert)), Field(ServerKey, PStr(d.server)),
     Field(EnvelopeSignature, PStr(d.signature))]
  }

  function NodesPart(d: Doc): seq<Field> {
    [Field(Version, PNum(DIRECTORY_VERSION)), Field(Nodes, PList(CanonicalNodes(d.nodes))),
     Field(Generation, PNum(d.generation))]
  }

  lemma DocumentParts(d: Doc)
    ensures Document(d).fields == NodesPart(d) + DatesPart(d) + KeysPart(d)
  {
  }

  /** What the parts read as. */
  function NodesRead(nodes: Json, d: Doc): map<Key, Json> {
    map[Version := Num(DIRECTORY_VERSION), Nodes := nodes, Generation := Num(d.generation)]
  }

  function DatesRead(d: Doc): map<Key, Json> {
    map[SignedAt := Num(d.signedAt), ExpiresAt := Num(d.expiresAt), OperationalKey := Str(d.operational)]
  }

  function KeysRead(d: Doc): map<Key, Json> {
    map[OperationalCert := Str(d.cert), ServerKey := Str(d.server), EnvelopeSignature := Str(d.signature)]
  }

  lemma NodesPartReads(d: Doc)
    ensures ReadFields(NodesPart(d)) == NodesRead(Read(PList(CanonicalNodes(d.nodes))), d)
  {
    var nodes := PList(CanonicalNodes(d.nodes));
    ThreeFields(Version, PNum(DIRECTORY_VERSION), Nodes, nodes, Generation, PNum(d.generation));
  }

  lemma DatesPartReads(d: Doc)
    ensures ReadFields(DatesPart(d)) == DatesRead(d)
  {
    ThreeFields(SignedAt, PNum(d.signedAt), ExpiresAt, PNum(d.expiresAt), OperationalKey, PStr(d.operational));
  }

  lemma KeysPartReads(d: Doc)
    ensures ReadFields(KeysPart(d)) == KeysRead(d)
  {
    ThreeFields(OperationalCert, PStr(d.cert), ServerKey, PStr(d.server), EnvelopeSignature, PStr(d.signature));
  }

  lemma DocumentReads(d: Doc)
    ensures var nodes := Read(PList(CanonicalNodes(d.nodes)));
            Read(Document(d)) == Obj(NodesRead(nodes, d) + DatesRead(d) + KeysRead(d))
  {
    DocumentParts(d);
    ReadAppends(NodesPart(d), DatesPart(d));
    ReadAppends(NodesPart(d) + DatesPart(d), KeysPart(d));
    NodesPartReads(d);
    DatesPartReads(d);
    KeysPartReads(d);
  }

  lemma PartsMake(nodes: Json, d: Doc)
    ensures DocMembers(NodesRead(nodes, d) + DatesRead(d) + KeysRead(d), nodes, d)
  {
    KeysOfParts(NodesRead(nodes, d), DatesRead(d), KeysRead(d));
  }

  lemma KeysOfParts(a: map<Key, Json>, b: map<Key, Json>, c: map<Key, Json>)
    requires a.Keys == {Version, Nodes, Generation} && b.Keys == {SignedAt, ExpiresAt, OperationalKey}
    requires c.Keys == {OperationalCert, ServerKey, EnvelopeSignature}
    ensures (a + b + c).Keys == TOP_LEVEL
  {
    assert (a + b + c).Keys == a.Keys + b.Keys + c.Keys;
  }

  lemma DocumentParses(m: map<Key, Json>, items: seq<Json>, nodes: seq<Node>, d: Doc)
    requires DocMembers(m, Arr(items), d) && ParseNodes(items) == Some(nodes)
    requires d.generation <= MAX_SAFE_INTEGER && d.signedAt <= MAX_SAFE_INTEGER && d.expiresAt <= MAX_SAFE_INTEGER
    ensures Parse(Obj(m)) == Ok(d.(nodes := nodes))
  {
  }

  lemma NormalDocIsAlike(d: Doc)
    requires ValidDoc(d)
    ensures ValidDoc(NormalDoc(d)) && Preimage(NormalDoc(d)) == Preimage(d)
  {
    forall i | 0 <= i < |d.nodes| ensures CanonicalNode(Normal(d.nodes[i])) == CanonicalNode(d.nodes[i]) {
      CanonicalIsNormal(d.nodes[i]);
    }
    assert CanonicalNodes(NormalNodes(d.nodes)) == CanonicalNodes(d.nodes);
  }

  lemma DocumentReadsBack(d: Doc)
    requires ValidDoc(d)
    ensures Parse(Read(Document(d))) == Ok(NormalDoc(d))
  {
    var items := ReadList(CanonicalNodes(d.nodes));
    DocumentReads(d);
    NodesReadBack(d.nodes);
    DocumentOf(items, NormalNodes(d.nodes), d);
  }

  lemma DocumentOf(items: seq<Json>, nodes: seq<Node>, d: Doc)
    requires ParseNodes(items) == Some(nodes)
    requires d.generation <= MAX_SAFE_INTEGER && d.signedAt <= MAX_SAFE_INTEGER && d.expiresAt <= MAX_SAFE_INTEGER
    ensures Parse(Obj(NodesRead(Arr(items), d) + DatesRead(d) + KeysRead(d))) == Ok(d.(nodes := nodes))
  {
    PartsMake(Arr(items), d);
    DocumentParses(NodesRead(Arr(items), d) + DatesRead(d) + KeysRead(d), items, nodes, d);
  }

  /**
   A document printed in canonical form and read back is the normal document, with the same
   preimage and the same outcome.
   */
  lemma CanonicalDocumentVerifiesAlike(c: Crypto, d: Doc, pins: seq<string>, roots: seq<string>)
    requires ValidDoc(d)
    ensures Parse(Read(Document(d))) == Ok(NormalDoc(d)) && Preimage(NormalDoc(d)) == Preimage(d)
    ensures Verify(c, NormalDoc(d), pins, roots) == Verify(c, d, pins, roots)
  {
    DocumentReadsBack(d);
    NormalDocIsAlike(d);
    AlikeDocsVerifyAlike(c, NormalDoc(d), d, pins, roots);
  }

  // ---- what a verified directory vouches for -----------------------------------------------------------------

  lemma {:induction false} SurfacedComesFrom(c: Crypto, op: string, nodes: seq<Node>, e: VerifiedExit)
    requires e in Surfaced(c, op, nodes)
    ensures exists i :: 0 <= i < |nodes| && Vouch(c, op, nodes[i]).Some?
                        && e == ExitOf(nodes[i], Vouch(c, op, nodes[i]).value)
  {
    var last := |nodes| - 1;
    var before, vouch := Surfaced(c, op, nodes[..last]), Vouch(c, op, nodes[last]);
    if e in before {
      SurfacedComesFrom(c, op, nodes[..last], e);
      var i :| 0 <= i < last && Vouch(c, op, nodes[..last][i]).Some?
          && e == ExitOf(nodes[..last][i], Vouch(c, op, nodes[..last][i]).value);
      assert nodes[..last][i] == nodes[i];
    } else {
      assert e == ExitOf(nodes[last], vouch.value);
    }
  }

  /** The signatures that stand behind a surfaced exit. */
  predicate Backed(c: Crypto, op: string, n: Node, e: VerifiedExit) {
    && c.signed(op, RelayOf(n.relay.relayId, n.relay.ed25519), n.relay.signature)
    && c.signed(op, NodeAt(n.relay.relayId, e.ed25519, AsnWord(n.asn), e.country), n.attestation)
    && (e.mlkem768.Some? ==>
          c.signed(op, ExitPq(e.exitId, e.x25519, e.dnsDisabled, e.mlkem768.value), n.exit.signature)
          && |e.mlkem768.value| == MLKEM768_KEY_DIGITS)
    && (e.mlkem768.None? && e.dnsDisabled ==> c.signed(op, ExitV2(e.exitId, e.x25519, true), n.exit.signature))
    && (e.mlkem768.None? && !e.dnsDisabled ==>
          || c.signed(op, ExitV2(e.exitId, e.x25519, false), n.exit.signature)
          || c.signed(op, ExitV1(e.exitId, e.x25519), n.exit.signature))
  }

  lemma VouchedIsBacked(c: Crypto, op: string, n: Node)
    requires Vouch(c, op, n).Some?
    ensures Backed(c, op, n, ExitOf(n, Vouch(c, op, n).value))
  {
  }

  /**
   Every exit a verified directory surfaces is backed, an ML-KEM key and a set DNS flag by a
   signature that covers them; and the exits and the dropped nodes are all the nodes.
   */
  lemma {:induction false} EveryExitIsBacked(c: Crypto, d: Doc, pins: seq<string>, roots: seq<string>)
    requires Verify(c, d, pins, roots).Ok?
    ensures var r := Verify(c, d, pins, roots).value; |r.exits| + r.dropped == |d.nodes| && r.dropped >= 0
    ensures forall e :: e in Verify(c, d, pins, roots).value.exits ==>
              exists i :: 0 <= i < |d.nodes| && Backed(c, d.operational, d.nodes[i], e)
  {
    var op, nodes := d.operational, d.nodes;
    forall e | e in Surfaced(c, op, nodes) ensures exists i :: 0 <= i < |nodes| && Backed(c, op, nodes[i], e) {
      SurfacedComesFrom(c, op, nodes, e);
      var i :| 0 <= i < |nodes| && Vouch(c, op, nodes[i]).Some? && e == ExitOf(nodes[i], Vouch(c, op, nodes[i]).value);
      VouchedIsBacked(c, op, nodes[i]);
    }
  }

  /** A fully vouched node is never dropped: the count of exits is the count of vouched nodes. */
  lemma {:induction false} DroppedAreUnvouched(c: Crypto, op: string, nodes: seq<Node>)
    ensures |Surfaced(c, op, nodes)| == |nodes| <==> forall i :: 0 <= i < |nodes| ==> Vouch(c, op, nodes[i]).Some?
  {
    if nodes != [] {
      var last := |nodes| - 1;
      DroppedAreUnvouched(c, op, nodes[..last]);
      assert forall i :: 0 <= i < last ==> nodes[..last][i] == nodes[i];
      if forall i :: 0 <= i < |nodes| ==> Vouch(c, op, nodes[i]).Some? {
        assert forall i :: 0 <= i < last ==> Vouch(c, op, nodes[..last][i]).Some?;
      }
    }
  }
}
