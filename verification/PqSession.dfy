/**
 The two ends of a `/v2` session (`pq-seal.ts`): a client that rotates its secret and keeps
 the previous one for a while, and an exit made from the client's setup frame. The KEM is a
 function given from outside.
 */
module PqSession {
  import opened Octets
  import opened Results
  import opened Sealing
  import F = Frames

  /** One encapsulation: the shared secret and the two halves of its ciphertext. */
  datatype Encapsulation = Encapsulation(secret: Bytes, x25519Ct: Bytes, mlkemCt: Bytes)

  datatype OldEpoch = OldEpoch(secret: Bytes, epoch: nat)

  datatype Client = Client(
    exitId: Bytes, secret: Bytes, encapsulatedKey: Bytes, pqCt: Bytes, epoch: nat, pending: Option<OldEpoch>)

  datatype Exit = Exit(exitId: Bytes, secret: Bytes, encapsulatedKey: Bytes)

  datatype OpenError = WrongExit | WrongVersion | NoKeyForEpoch | NotAuthentic

  function Created(enc: Encapsulation, exitId: Bytes): Client {
    Client(exitId, enc.secret, enc.x25519Ct, enc.mlkemCt, 0, None)
  }

  function Rekeyed(c: Client, enc: Encapsulation): Client {
    Client(c.exitId, enc.secret, enc.x25519Ct, enc.mlkemCt, c.epoch + 1, Some(OldEpoch(c.secret, c.epoch)))
  }

  function PartyOf(secret: Bytes, exitId: Bytes): Party {
    Party(LabelV2(), secret, exitId)
  }

  /** A frame sealed on a slot, its tag detached. */
  function SealedFrame(
    suite: Suite, p: Party, slot: Slot, payload: Bytes, encapsulatedKey: Bytes, pqCt: Bytes): F.FrameV2
    requires |Sealed(suite, p, slot, payload)| >= TAG_LEN
  {
    var sealed := Sealed(suite, p, slot, payload);
    F.FrameV2(2, p.exitId, slot.epoch, slot.seqNo, encapsulatedKey, pqCt, Tag(sealed), Body(sealed))
  }

  function OpenWith(suite: Suite, p: Party, f: F.FrameV2, reverse: bool): Result<Bytes, OpenError>
    requires f.epoch >= 0 && f.seqNo >= 0
  {
    match Open(suite, p, Slot(f.epoch, f.seqNo, reverse), f.ciphertext, f.aeadTag)
    case None => Err(NotAuthentic)
    case Some(plain) => Ok(plain)
  }

  /** The secret a client holds for an epoch. */
  function SecretFor(c: Client, epoch: int): Option<Bytes> {
    if epoch == c.epoch then Some(c.secret)
    else if c.pending.Some? && c.pending.value.epoch == epoch then Some(c.pending.value.secret)
    else None
  }

  function Response(suite: Suite, c: Client, f: F.FrameV2): Result<Bytes, OpenError>
    requires f.epoch >= 0 && f.seqNo >= 0
  {
    if f.exitId != c.exitId then Err(WrongExit)
    else if f.version != 2 then Err(WrongVersion)
    else
      match SecretFor(c, f.epoch)
      case None => Err(NoKeyForEpoch)
      case Some(secret) => OpenWith(suite, PartyOf(secret, c.exitId), f, true)
  }

  function ExitOpens(suite: Suite, x: Exit, f: F.FrameV2): Result<Bytes, OpenError>
    requires f.epoch >= 0 && f.seqNo >= 0
  {
    if f.exitId != x.exitId then Err(WrongExit)
    else if f.version != 2 then Err(WrongVersion)
    else OpenWith(suite, PartyOf(x.secret, x.exitId), f, false)
  }

  /** A frame from the exit: reverse direction, no KEM ciphertext, the ephemeral key echoed. */
  function ExitSeals(suite: Suite, x: Exit, payload: Bytes, epoch: nat, seqNo: nat): F.FrameV2
    requires Correct(suite)
  {
    var p, slot := PartyOf(x.secret, x.exitId), Slot(epoch, seqNo, true);
    OpensWhatWasSealed(suite, p, slot, payload);
    SealedFrame(suite, p, slot, payload, x.encapsulatedKey, [])
  }

  function ClientSeals(suite: Suite, c: Client, payload: Bytes, epoch: nat, seqNo: nat, pqCt: Bytes): F.FrameV2
    requires Correct(suite)
  {
    var p, slot := PartyOf(c.secret, c.exitId), Slot(epoch, seqNo, false);
    OpensWhatWasSealed(suite, p, slot, payload);
    SealedFrame(suite, p, slot, payload, c.encapsulatedKey, pqCt)
  }

  /** The exit's end, decapsulated from the material of a setup frame. */
  function ExitFrom(decapsulate: (Bytes, Bytes) -> Bytes, f: F.FrameV2): Exit {
    Exit(f.exitId, decapsulate(f.pqCt, f.encapsulatedKey), f.encapsulatedKey)
  }

  class PqClientSession {
    const exitId: Bytes
    var sharedSecret: Bytes
    var encapsulatedKey: Bytes
    var pqCt: Bytes
    var epoch: nat
    var pendingOldEpoch: Option<OldEpoch>

    ghost function View(): Client
      reads this
    {
      Client(exitId, sharedSecret, encapsulatedKey, pqCt, epoch, pendingOldEpoch)
    }

    constructor (enc: Encapsulation, exitId: Bytes)
      requires |exitId| == EXIT_ID_LEN
      ensures View() == Created(enc, exitId)
    {
      this.exitId := exitId;
      sharedSecret, encapsulatedKey, pqCt := enc.secret, enc.x25519Ct, enc.mlkemCt;
      epoch, pendingOldEpoch := 0, None;
    }

    /** `enc` is the fresh encapsulation the rotation draws. */
    method Rekey(enc: Encapsulation) returns (key: Bytes, ct: Bytes)
      modifies this
      ensures View() == Rekeyed(old(View()), enc) && key == enc.x25519Ct && ct == enc.mlkemCt
    {
      pendingOldEpoch := Some(OldEpoch(sharedSecret, epoch));
      sharedSecret := enc.secret;
      encapsulatedKey := enc.x25519Ct;
      pqCt := enc.mlkemCt;
      epoch := epoch + 1;
      return encapsulatedKey, pqCt;
    }

    method PrunePendingOldEpoch()
      modifies this
      ensures View() == old(View()).(pending := None)
    {
      pendingOldEpoch := None;
    }

    method OpenResponse(suite: Suite, f: F.FrameV2) returns (r: Result<Bytes, OpenError>)
      requires f.epoch >= 0 && f.seqNo >= 0
      ensures r == Response(suite, View(), f)
    {
      if f.exitId != exitId {
        return Err(WrongExit);
      }
      if f.version != 2 {
        return Err(WrongVersion);
      }
      var secret: Bytes;
      if f.epoch == epoch {
        secret := sharedSecret;
      } else if pendingOldEpoch.Some? && pendingOldEpoch.value.epoch == f.epoch {
        secret := pendingOldEpoch.value.secret;
      } else {
        return Err(NoKeyForEpoch);
      }
      return OpenWith(suite, PartyOf(secret, exitId), f, true);
    }
  }

  // ---- the rekey window -------------------------------------------------------------------

  datatype Op = Rekey(enc: Encapsulation) | Prune

  /** A client after a history of rotations and prunings. */
  function After(enc: Encapsulation, exitId: Bytes, ops: seq<Op>): Client {
    if ops == [] then Created(enc, exitId)
    else
      var c := After(enc, exitId, ops[..|ops| - 1]);
      match ops[|ops| - 1]
      case Rekey(next) => Rekeyed(c, next)
      case Prune => c.(pending := None)
  }

  /** The encapsulations drawn, by epoch. */
  function Drawn(enc: Encapsulation, ops: seq<Op>): (encs: seq<Encapsulation>)
    ensures encs != []
  {
    if ops == [] then [enc]
    else
      var encs := Drawn(enc, ops[..|ops| - 1]);
      match ops[|ops| - 1]
      case Rekey(next) => encs + [next]
      case Prune => encs
  }

  /** The overlap window is open from a rotation until the next pruning. */
  predicate WindowOpen(ops: seq<Op>) {
    ops != [] && ops[|ops| - 1].Rekey?
  }

  /** A client holds the secret of its epoch and, while the window is open, of the one before. */
  lemma {:induction false} HoldsTwoEpochs(enc: Encapsulation, exitId: Bytes, ops: seq<Op>, epoch: nat)
    ensures var c, encs := After(enc, exitId, ops), Drawn(enc, ops);
            && c.exitId == exitId && c.epoch == |encs| - 1
            && c.encapsulatedKey == encs[c.epoch].x25519Ct && c.pqCt == encs[c.epoch].mlkemCt
            && (c.pending.Some? ==> WindowOpen(ops))
            && (SecretFor(c, epoch).Some? <==> epoch == c.epoch || (WindowOpen(ops) && epoch + 1 == c.epoch))
            && (SecretFor(c, epoch).Some? ==> SecretFor(c, epoch).value == encs[epoch].secret)
    decreases |ops|
  {
    if ops != [] {
      var before := ops[..|ops| - 1];
      HoldsTwoEpochs(enc, exitId, before, epoch);
      HoldsTwoEpochs(enc, exitId, before, After(enc, exitId, before).epoch);
    }
  }

  /** An honest exit of some epoch: the one the client drew for it. */
  predicate HonestExit(x: Exit, exitId: Bytes, encs: seq<Encapsulation>, epoch: nat) {
    x.exitId == exitId && (epoch < |encs| ==> x.secret == encs[epoch].secret)
  }

  /**
   Every honest reverse frame of the current epoch, and of the one before while the window is
   open, opens; no other does.
   */
  lemma OpensExactlyTheWindow(
    suite: Suite, enc: Encapsulation, exitId: Bytes, ops: seq<Op>, x: Exit, payload: Bytes, epoch: nat, seqNo: nat)
    requires Correct(suite) && HonestExit(x, exitId, Drawn(enc, ops), epoch)
    ensures var c := After(enc, exitId, ops);
            Response(suite, c, ExitSeals(suite, x, payload, epoch, seqNo)) ==
              if epoch == c.epoch || (WindowOpen(ops) && epoch + 1 == c.epoch) then Ok(payload) else Err(NoKeyForEpoch)
  {
    HoldsTwoEpochs(enc, exitId, ops, epoch);
    OpensWhatWasSealed(suite, PartyOf(x.secret, x.exitId), Slot(epoch, seqNo, true), payload);
  }

  /** An exit made from the client's setup frame shares its secret: each opens what the other seals. */
  lemma SetupEstablishes(
    suite: Suite, decapsulate: (Bytes, Bytes) -> Bytes, enc: Encapsulation, exitId: Bytes, ops: seq<Op>,
    hello: Bytes, up: Bytes, down: Bytes, seqNo: nat, other: nat)
    requires Correct(suite)
    requires forall i :: 0 <= i < |Drawn(enc, ops)| ==>
               decapsulate(Drawn(enc, ops)[i].mlkemCt, Drawn(enc, ops)[i].x25519Ct) == Drawn(enc, ops)[i].secret
    ensures var c := After(enc, exitId, ops);
            var setup := ClientSeals(suite, c, hello, c.epoch, seqNo, c.pqCt);
            var x := ExitFrom(decapsulate, setup);
            && ExitOpens(suite, x, setup) == Ok(hello)
            && ExitOpens(suite, x, ClientSeals(suite, c, up, c.epoch, other, [])) == Ok(up)
            && Response(suite, c, ExitSeals(suite, x, down, c.epoch, other)) == Ok(down)
  {
    var c, encs := After(enc, exitId, ops), Drawn(enc, ops);
    HoldsTwoEpochs(enc, exitId, ops, c.epoch);
    assert decapsulate(encs[c.epoch].mlkemCt, encs[c.epoch].x25519Ct) == c.secret;
    var p := PartyOf(c.secret, c.exitId);
    OpensWhatWasSealed(suite, p, Slot(c.epoch, seqNo, false), hello);
    OpensWhatWasSealed(suite, p, Slot(c.epoch, other, false), up);
    OpensWhatWasSealed(suite, p, Slot(c.epoch, other, true), down);
  }

  // ---- what an opened frame proves ------------------------------------------------------------

  /**
   A frame the client opens was sealed by a holder of that epoch's secret, in the reverse
   direction and on the frame's own slot, and carries what was sealed: not a frame of another
   direction, slot, epoch or exit.
   */
  lemma OpenedWasSealedBack(suite: Suite, uses: set<Use>, enc: Encapsulation, exitId: Bytes, ops: seq<Op>, f: F.FrameV2)
    requires Unforged(suite, uses) && DerivesApart(suite)
    requires forall u :: u in uses ==> u.party.domain == LabelV2() && |u.party.exitId| == EXIT_ID_LEN
    requires |exitId| == EXIT_ID_LEN && f.epoch >= 0 && f.seqNo >= 0
    requires Response(suite, After(enc, exitId, ops), f).Ok?
    ensures f.epoch < |Drawn(enc, ops)|
    ensures exists u :: u in uses && u.party.secret == Drawn(enc, ops)[f.epoch].secret
                        && u.party.exitId == exitId == f.exitId
                        && SameSlot(u.slot, Slot(f.epoch, f.seqNo, true))
                        && Response(suite, After(enc, exitId, ops), f) == Ok(u.payload)
  {
    HoldsTwoEpochs(enc, exitId, ops, f.epoch);
    var c := After(enc, exitId, ops);
    var p, slot := PartyOf(SecretFor(c, f.epoch).value, exitId), Slot(f.epoch, f.seqNo, true);
    var u := OpenedWasSealedOn(suite, uses, p, slot, f.ciphertext, f.aeadTag);
    assert u.party.secret == Drawn(enc, ops)[f.epoch].secret;
  }

  /** What an exit opens was sealed forward, on the frame's own slot, by a holder of its secret. */
  lemma ExitOpensWhatWasSealedForward(suite: Suite, uses: set<Use>, x: Exit, f: F.FrameV2)
    requires Unforged(suite, uses) && DerivesApart(suite)
    requires forall u :: u in uses ==> u.party.domain == LabelV2() && |u.party.exitId| == EXIT_ID_LEN
    requires |x.exitId| == EXIT_ID_LEN && f.epoch >= 0 && f.seqNo >= 0 && ExitOpens(suite, x, f).Ok?
    ensures f.exitId == x.exitId && f.version == 2
    ensures exists u :: u in uses && u.party.secret == x.secret && u.party.exitId == x.exitId
                        && SameSlot(u.slot, Slot(f.epoch, f.seqNo, false)) && ExitOpens(suite, x, f) == Ok(u.payload)
  {
    var p, slot := PartyOf(x.secret, x.exitId), Slot(f.epoch, f.seqNo, false);
    var u := OpenedWasSealedOn(suite, uses, p, slot, f.ciphertext, f.aeadTag);
  }

  /** A frame from the exit carries no KEM ciphertext and echoes the ephemeral key; a client's carries its own. */
  lemma FramesCarry(suite: Suite, x: Exit, c: Client, payload: Bytes, epoch: nat, seqNo: nat, pqCt: Bytes)
    requires Correct(suite)
    ensures var f := ExitSeals(suite, x, payload, epoch, seqNo);
            && f.version == 2 && f.exitId == x.exitId && f.epoch == epoch && f.seqNo == seqNo
            && f.pqCt == [] && f.encapsulatedKey == x.encapsulatedKey
            && |f.aeadTag| == 16 && |f.ciphertext| == |payload|
    ensures var f := ClientSeals(suite, c, payload, epoch, seqNo, pqCt);
            && f.version == 2 && f.exitId == c.exitId && f.epoch == epoch && f.seqNo == seqNo
            && f.pqCt == pqCt && f.encapsulatedKey == c.encapsulatedKey
            && |f.aeadTag| == 16 && |f.ciphertext| == |payload|
  {
    OpensWhatWasSealed(suite, PartyOf(x.secret, x.exitId), Slot(epoch, seqNo, true), payload);
    OpensWhatWasSealed(suite, PartyOf(c.secret, c.exitId), Slot(epoch, seqNo, false), payload);
  }

  /** Which error a frame is refused with: another exit first, then another version, then an epoch with no secret. */
  lemma RefusedExactly(suite: Suite, c: Client, f: F.FrameV2)
    requires f.epoch >= 0 && f.seqNo >= 0
    ensures var r := Response(suite, c, f);
            && (r == Err(WrongExit) <==> f.exitId != c.exitId)
            && (r == Err(WrongVersion) <==> f.exitId == c.exitId && f.version != 2)
            && (r == Err(NoKeyForEpoch) <==>
                  && f.exitId == c.exitId && f.version == 2 && f.epoch != c.epoch
                  && (c.pending.None? || c.pending.value.epoch != f.epoch))
  {
  }

  lemma ExitRefusesExactly(suite: Suite, x: Exit, f: F.FrameV2)
    requires f.epoch >= 0 && f.seqNo >= 0
    ensures var r := ExitOpens(suite, x, f);
            && (r == Err(WrongExit) <==> f.exitId != x.exitId)
            && (r == Err(WrongVersion) <==> f.exitId == x.exitId && f.version != 2)
            && r != Err(NoKeyForEpoch)
  {
  }
}
