/**
 Which nodes of a directory become exits, and what is shown of them: the outcome of
 `verifyMultihopDirectory` told by the signatures and the document alone.
 */
module DirectoryExits {
  import opened Results
  import opened DirectoryNodes
  import opened Directory

  predicate FlagSet(n: Node) {
    n.exit.dnsDisabled.Some? && n.exit.dnsDisabled.value
  }

  /** The operational key signed the relay, and the exit's identity where the node says it is. */
  predicate NodeSigned(c: Crypto, op: string, n: Node) {
    && c.signed(op, RelayOf(n.relay.relayId, n.relay.ed25519), n.relay.signature)
    && c.signed(op, NodeAt(n.relay.relayId, n.exit.ed25519, n.asn % 4294967296, n.country), n.attestation)
  }

  /** It signed the exit with an ML-KEM key of 1184 bytes. */
  predicate KeySigned(c: Crypto, op: string, n: Node) {
    && n.exit.mlkem768.Some? && |n.exit.mlkem768.value| == 2 * 1184
    && c.signed(op, ExitPq(n.exit.exitId, n.exit.x25519, FlagSet(n), n.exit.mlkem768.value), n.exit.signature)
  }

  /** It signed the exit in some way that covers its DNS flag, or in the oldest one with the flag not set. */
  predicate ExitSigned(c: Crypto, op: string, n: Node) {
    || KeySigned(c, op, n)
    || c.signed(op, ExitV2(n.exit.exitId, n.exit.x25519, FlagSet(n)), n.exit.signature)
    || (c.signed(op, ExitV1(n.exit.exitId, n.exit.x25519), n.exit.signature) && !FlagSet(n))
  }

  predicate Honest(c: Crypto, op: string, n: Node) {
    NodeSigned(c, op, n) && ExitSigned(c, op, n)
  }

  /**
   What an exit shows of its node: the relay's addresses and never the exit's own, and a key only
   if it was signed.
   */
  predicate Shows(c: Crypto, op: string, e: VerifiedExit, n: Node) {
    && e.exitId == n.exit.exitId && e.ed25519 == n.exit.ed25519 && e.x25519 == n.exit.x25519
    && e.endpoint == n.relay.endpoint && e.endpointV6 == n.relay.endpointV6
    && e.country == n.country && e.city == n.city && e.weight == n.weight
    && e.dnsDisabled == FlagSet(n) && e.edgeCert == n.edgeCert && e.coverDomain == n.exit.coverDomain
    && (e.mlkem768 == if KeySigned(c, op, n) then n.exit.mlkem768 else None)
  }

  /** A node is vouched for exactly when it is honest, and then shows as itself. */
  lemma VouchedExactlyWhenHonest(c: Crypto, op: string, n: Node)
    ensures Vouch(c, op, n).Some? <==> Honest(c, op, n)
    ensures Vouch(c, op, n).Some? ==> Shows(c, op, ExitOf(n, Vouch(c, op, n).value), n)
  {
  }

  /** The honest nodes, in document order. */
  function Kept(c: Crypto, op: string, nodes: seq<Node>): (kept: seq<Node>)
    ensures forall n :: n in kept <==> n in nodes && Honest(c, op, n)
  {
    if nodes == [] then []
    else
      var before, n := Kept(c, op, nodes[..|nodes| - 1]), nodes[|nodes| - 1];
      assert nodes == nodes[..|nodes| - 1] + [n];
      if Honest(c, op, n) then before + [n] else before
  }

  lemma {:induction false} SurfacedAreTheKept(c: Crypto, op: string, nodes: seq<Node>)
    ensures var exits, kept := Surfaced(c, op, nodes), Kept(c, op, nodes);
            |exits| == |kept| && forall i :: 0 <= i < |exits| ==> Shows(c, op, exits[i], kept[i])
  {
    if nodes != [] {
      var init, n := nodes[..|nodes| - 1], nodes[|nodes| - 1];
      VouchedExactlyWhenHonest(c, op, n);
      SurfacedAreTheKept(c, op, init);
    }
  }

  /**
   A verified directory has the exits of the honest nodes, one for each and in their order, the
   document's own generation and dates, the signer, and a count of the others.
   */
  lemma VerifiedShowsTheHonest(c: Crypto, d: Doc, pins: seq<string>, roots: seq<string>)
    requires Verify(c, d, pins, roots).Ok?
    ensures var r, kept := Verify(c, d, pins, roots).value, Kept(c, d.operational, d.nodes);
            && |r.exits| == |kept| && (forall i :: 0 <= i < |kept| ==> Shows(c, d.operational, r.exits[i], kept[i]))
            && r.dropped == |d.nodes| - |kept| && r.generation == d.generation
            && r.signedAt == d.signedAt && r.expiresAt == d.expiresAt && r.server == c.lower(d.server)
  {
    SurfacedAreTheKept(c, d.operational, d.nodes);
  }

  // ---- the errors ------------------------------------------------------------------------------------

  predicate PinHolds(c: Crypto, d: Doc, pins: seq<string>) {
    pins == [] || exists i :: 0 <= i < |pins| && c.lower(pins[i]) == c.lower(d.server)
  }

  predicate EnvelopeHolds(c: Crypto, d: Doc) {
    c.isKey(d.server) && c.isSignature(d.signature) && c.signed(d.server, Envelope(Preimage(d)), d.signature)
  }

  /** At most seven days. */
  predicate ShortLived(d: Doc) {
    d.expiresAt <= d.signedAt + 604800
  }

  predicate CertHolds(c: Crypto, d: Doc, roots: seq<string>) {
    roots == [] ||
    exists i :: 0 <= i < |roots| && c.isKey(roots[i]) && c.signed(roots[i], RootSigns(d.operational), d.cert)
  }

  lemma CertMeansSomeRoot(c: Crypto, d: Doc, roots: seq<string>)
    ensures Certified(c, d, roots) <==> CertHolds(c, d, roots)
  {
    if SomeRootSigned(c, d, roots) {
      var i :| 0 <= i < |roots| && RootSigned(c, roots[i], d);
      assert c.isKey(roots[i]) && c.signed(roots[i], RootSigns(d.operational), d.cert);
    }
    if exists i :: 0 <= i < |roots| && c.isKey(roots[i]) && c.signed(roots[i], RootSigns(d.operational), d.cert) {
      var i :| 0 <= i < |roots| && c.isKey(roots[i]) && c.signed(roots[i], RootSigns(d.operational), d.cert);
      assert RootSigned(c, roots[i], d);
    }
  }

  /** Which error a document is refused with: that of the first link of the chain that does not hold. */
  lemma RefusedAtTheFirstBrokenLink(c: Crypto, d: Doc, pins: seq<string>, roots: seq<string>)
    ensures var r := Verify(c, d, pins, roots);
            && (r == Err(ServerNotPinned) <==> !PinHolds(c, d, pins))
            && (r == Err(BadEnvelope) <==>
                  PinHolds(c, d, pins) && c.isKey(d.server) && c.isSignature(d.signature) && !EnvelopeHolds(c, d))
            && (r == Err(ValidityTooLong) <==> PinHolds(c, d, pins) && EnvelopeHolds(c, d) && !ShortLived(d))
            && (r == Err(BadOperationalCert) <==>
                  && PinHolds(c, d, pins) && EnvelopeHolds(c, d) && ShortLived(d) && c.isKey(d.operational)
                  && !CertHolds(c, d, roots))
            && (r == Err(InvalidHex) <==>
                  && PinHolds(c, d, pins)
                  && (!c.isKey(d.server) || !c.isSignature(d.signature)
                      || (EnvelopeHolds(c, d) && ShortLived(d) && !c.isKey(d.operational))))
  {
    CertMeansSomeRoot(c, d, roots);
  }
}
