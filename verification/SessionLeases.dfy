/**
 Which live session holds which token: the leases of `token-manager.ts` and the token walk of
 `session-walk.ts` as `edge.ts` drives it, with other sessions claiming and releasing at
 every await of the walk.
 */
module SessionLeases {
  import opened Octets
  import opened Results

  type Serial = Bytes

  const MAX_SESSION_TOKENS := 8

  /** A lease is live until its first release. */
  datatype Lease = Lease(key: Serial, live: bool)

  /** The held serials, and every lease ever given out, by number. */
  datatype Book = Book(held: set<Serial>, leases: seq<Lease>)

  const EMPTY := Book({}, [])

  /** A claim: refused for bytes that are no token and for a serial a live session holds. */
  function Claim(b: Book, serial: Option<Serial>): (Book, Option<nat>) {
    if serial.None? || serial.value in b.held then (b, None)
    else (Book(b.held + {serial.value}, b.leases + [Lease(serial.value, true)]), Some(|b.leases|))
  }

  function Release(b: Book, lease: nat): Book {
    if lease >= |b.leases| || !b.leases[lease].live then b
    else Book(b.held - {b.leases[lease].key}, b.leases[lease := b.leases[lease].(live := false)])
  }

  // ---- the held set -----------------------------------------------------------

  predicate LiveFor(b: Book, i: nat, key: Serial) {
    i < |b.leases| && b.leases[i].live && b.leases[i].key == key
  }

  /** The held set is the set of serials of live leases, and no two live leases share one. */
  ghost predicate Consistent(b: Book) {
    && (forall key :: key in b.held <==> exists i: nat :: LiveFor(b, i, key))
    && (forall i: nat, j: nat, key :: LiveFor(b, i, key) && LiveFor(b, j, key) ==> i == j)
  }

  lemma ClaimKeeps(b: Book, serial: Option<Serial>)
    requires Consistent(b)
    ensures Consistent(Claim(b, serial).0)
  {
    var (b', lease) := Claim(b, serial);
    if lease.Some? {
      assert LiveFor(b', lease.value, serial.value);
      assert forall i: nat, key :: i < |b.leases| ==> (LiveFor(b', i, key) <==> LiveFor(b, i, key));
    }
  }

  lemma ReleaseKeeps(b: Book, lease: nat)
    requires Consistent(b)
    ensures Consistent(Release(b, lease))
  {
    var b' := Release(b, lease);
    if lease < |b.leases| && b.leases[lease].live {
      assert LiveFor(b, lease, b.leases[lease].key);
      assert forall i: nat, key :: LiveFor(b', i, key) <==> i != lease && LiveFor(b, i, key);
      forall key ensures key in b'.held <==> exists i: nat :: LiveFor(b', i, key) {
        if key in b'.held {
          var i: nat :| LiveFor(b, i, key);
          assert LiveFor(b', i, key);
        }
      }
    }
  }

  /** What the sessions of one manager do. */
  datatype Op = Claims(serial: Option<Serial>) | Releases(lease: nat)

  function Apply(b: Book, op: Op): Book {
    match op
    case Claims(serial) => Claim(b, serial).0
    case Releases(lease) => Release(b, lease)
  }

  function Run(b: Book, ops: seq<Op>): Book
    decreases |ops|
  {
    if ops == [] then b else Run(Apply(b, ops[0]), ops[1..])
  }

  lemma {:induction false} RunKeeps(b: Book, ops: seq<Op>)
    requires Consistent(b)
    ensures Consistent(Run(b, ops))
    decreases |ops|
  {
    if ops != [] {
      match ops[0] {
        case Claims(serial) => ClaimKeeps(b, serial);
        case Releases(lease) => ReleaseKeeps(b, lease);
      }
      RunKeeps(Apply(b, ops[0]), ops[1..]);
    }
  }

  /** Over every history of claims and releases, held means held by exactly one live lease. */
  lemma HeldByExactlyOne(ops: seq<Op>, key: Serial)
    ensures var b := Run(EMPTY, ops); key in b.held <==> exists i: nat :: LiveFor(b, i, key)
    ensures var b := Run(EMPTY, ops); forall i: nat, j: nat :: LiveFor(b, i, key) && LiveFor(b, j, key) ==> i == j
  {
    RunKeeps(EMPTY, ops);
  }

  /** A released lease stays dead, whatever is claimed later. */
  lemma {:induction false} DeadStaysDead(b: Book, lease: nat, ops: seq<Op>)
    requires lease < |b.leases| && !b.leases[lease].live
    ensures lease < |Run(b, ops).leases| && !Run(b, ops).leases[lease].live
    decreases |ops|
  {
    if ops != [] { DeadStaysDead(Apply(b, ops[0]), lease, ops[1..]); }
  }

  /** Releasing again, at any later time, frees nothing: not even the same serial claimed since. */
  lemma StaleReleaseFreesNothing(b: Book, lease: nat, ops: seq<Op>)
    requires lease < |b.leases|
    ensures var later := Run(Release(b, lease), ops); Release(later, lease) == later
  {
    DeadStaysDead(Release(b, lease), lease, ops);
  }

  // ---- the session stack ---------------------------------------------------------

  /** The tokens with a serial no live session holds, in order. */
  function Free(tokens: seq<Bytes>, serialOf: Bytes -> Option<Serial>, held: set<Serial>): (free: seq<Bytes>)
    ensures forall t :: t in free ==> t in tokens && serialOf(t).Some? && serialOf(t).value !in held
  {
    if tokens == [] then []
    else
      var rest := Free(tokens[1..], serialOf, held);
      var serial := serialOf(tokens[0]);
      if serial.Some? && serial.value !in held then [tokens[0]] + rest else rest
  }

  /** The free tokens from the manager's rotation on, wrapping around. */
  function SessionStack(
    tokens: seq<Bytes>, rotation: nat, serialOf: Bytes -> Option<Serial>, held: set<Serial>): seq<Bytes>
  {
    if tokens == [] then []
    else
      var start := rotation % |tokens|;
      Free(tokens[start..] + tokens[..start], serialOf, held)
  }

  lemma {:induction false} FreeSplits(
    a: seq<Bytes>, b: seq<Bytes>, serialOf: Bytes -> Option<Serial>, held: set<Serial>)
    ensures Free(a + b, serialOf, held) == Free(a, serialOf, held) + Free(b, serialOf, held)
  {
    if a == [] {
      assert a + b == b;
    } else {
      assert (a + b)[1..] == a[1..] + b;
      FreeSplits(a[1..], b, serialOf, held);
    }
  }

  /** A token is in the stack as often as it is stored, if it has a serial no live session holds; else not at all. */
  lemma {:induction false} FreeCounts(
    tokens: seq<Bytes>, serialOf: Bytes -> Option<Serial>, held: set<Serial>, t: Bytes)
    ensures multiset(Free(tokens, serialOf, held))[t]
         == if serialOf(t).Some? && serialOf(t).value !in held then multiset(tokens)[t] else 0
  {
    if tokens != [] {
      FreeCounts(tokens[1..], serialOf, held, t);
      assert tokens == [tokens[0]] + tokens[1..];
    }
  }

  lemma {:induction false} AllFree(tokens: seq<Bytes>, serialOf: Bytes -> Option<Serial>, held: set<Serial>)
    requires forall t :: t in tokens ==> serialOf(t).Some? && serialOf(t).value !in held
    ensures Free(tokens, serialOf, held) == tokens
  {
    if tokens != [] {
      assert tokens == [tokens[0]] + tokens[1..];
      AllFree(tokens[1..], serialOf, held);
    }
  }

  /** With all of them free, the stack is the stored list from the rotation on, and then what is before it. */
  lemma StackFollowsTheRotation(
    tokens: seq<Bytes>, rotation: nat, serialOf: Bytes -> Option<Serial>, held: set<Serial>, start: nat)
    requires tokens != [] && start == rotation % |tokens|
    requires forall t :: t in tokens ==> serialOf(t).Some? && serialOf(t).value !in held
    ensures SessionStack(tokens, rotation, serialOf, held) == tokens[start..] + tokens[..start]
  {
    var turned := tokens[start..] + tokens[..start];
    assert forall t :: t in turned ==> t in tokens;
    AllFree(turned, serialOf, held);
  }

  /** The rotation loses nothing and repeats nothing: a stack is every free token, once each as stored. */
  lemma StackIsEveryFreeToken(tokens: seq<Bytes>, rotation: nat, serialOf: Bytes -> Option<Serial>, held: set<Serial>)
    ensures multiset(SessionStack(tokens, rotation, serialOf, held)) == multiset(Free(tokens, serialOf, held))
  {
    if tokens != [] {
      var start := rotation % |tokens|;
      FreeSplits(tokens[start..], tokens[..start], serialOf, held);
      FreeSplits(tokens[..start], tokens[start..], serialOf, held);
      assert tokens == tokens[..start] + tokens[start..];
    }
  }

  // ---- the walk ---------------------------------------------------------------------

  /** How the network meets one setup attempt: no connection, one that breaks, or the exit's reply on one. */
  datatype Setup = CannotOpen | Breaks | Rejected | Answered

  /**
   How an attempt ends: as the network has it, or with the sealing session refused once the
   connection is up.
   */
  datatype Outcome = Ended(setup: Setup) | SessionRefused

  /** An attempt's environment: what other sessions do while it waits, and while its error propagates. */
  datatype Turn = Turn(during: seq<Op>, setup: Setup, after: seq<Op>)

  /** The session is made when the connection is ready, and only then; it may not be possible at all. */
  function OutcomeOf(setup: Setup, seals: bool): Outcome {
    if !setup.CannotOpen? && !seals then SessionRefused else Ended(setup)
  }

  /** The leases, and the connections opened so far with those still open. */
  datatype Edge = Edge(book: Book, dialed: nat, open: set<nat>)

  /** What became of a place of the stack: its claim was refused, or its token was presented. */
  datatype Visit = PassedOver | Presented(lease: Option<nat>, connection: Option<nat>, outcome: Outcome)

  datatype WalkResult =
    | Admitted(token: Bytes, lease: Option<nat>, connection: nat)
    | Threw
    | NoSessionToken(refused: nat)

  /** Other sessions release only the leases they hold, never this walk's. */
  function Spared(ops: seq<Op>, mine: Option<nat>): (r: seq<Op>)
    ensures mine.Some? ==> Releases(mine.value) !in r
  {
    if ops == [] then []
    else if mine.Some? && ops[0] == Releases(mine.value) then Spared(ops[1..], mine)
    else [ops[0]] + Spared(ops[1..], mine)
  }

  function ReleaseAny(b: Book, lease: Option<nat>): Book {
    if lease.Some? then Release(b, lease.value) else b
  }

  /** Closing a connection lets its lease go. */
  function Close(e: Edge, connection: nat, lease: Option<nat>): Edge {
    e.(open := e.open - {connection}, book := ReleaseAny(e.book, lease))
  }

  /**
   One attempt on a connection of its own, with the walk's own release behind it. A session
   refused on a ready connection leaves that connection as it is.
   */
  function Attempted(e: Edge, lease: Option<nat>, turn: Turn, seals: bool): (Edge, Visit) {
    var waited := e.(book := Run(e.book, Spared(turn.during, lease)));
    var c := e.dialed;
    var up := waited.(dialed := c + 1, open := e.open + {c});
    var outcome := OutcomeOf(turn.setup, seals);
    match outcome
    case SessionRefused =>
      var thrown := up.(book := Run(up.book, Spared(turn.after, lease)));
      (thrown.(book := ReleaseAny(thrown.book, lease)), Presented(lease, Some(c), outcome))
    case Ended(CannotOpen) =>
      var thrown := waited.(book := Run(waited.book, Spared(turn.after, lease)));
      (thrown.(book := ReleaseAny(thrown.book, lease)), Presented(lease, None, outcome))
    case Ended(Breaks) =>
      var closed := Close(up, c, lease);
      var thrown := closed.(book := Run(closed.book, turn.after));
      (thrown.(book := ReleaseAny(thrown.book, lease)), Presented(lease, Some(c), outcome))
    case Ended(Rejected) =>
      var closed := Close(up, c, lease);
      (closed.(book := ReleaseAny(closed.book, lease)), Presented(lease, Some(c), outcome))
    case Ended(Answered) => (up, Presented(lease, Some(c), outcome))
  }

  /** One place: claim its token if the caller claims, and present it unless the claim is refused. */
  function Visited(e: Edge, serial: Option<Serial>, claiming: bool, turn: Turn, seals: bool): (Edge, Visit) {
    if !claiming then Attempted(e, None, turn, seals)
    else
      var (book, lease) := Claim(e.book, serial);
      if lease.None? then (e, PassedOver) else Attempted(e.(book := book), lease, turn, seals)
  }

  /** What ends a walk: any reply but a rejection, and any error. */
  predicate Stops(v: Visit) {
    v.Presented? && v.outcome != Ended(Rejected)
  }

  function Ending(v: Visit, token: Bytes): WalkResult {
    if v.Presented? && v.outcome == Ended(Answered) && v.connection.Some?
    then Admitted(token, v.lease, v.connection.value)
    else Threw
  }

  /** How far a walk may go. */
  function Limit(stack: seq<Bytes>): nat {
    if |stack| < MAX_SESSION_TOKENS then |stack| else MAX_SESSION_TOKENS
  }

  /**
   What a walk is over: the stack, the serials of its tokens, whether it claims, the exit it is
   for, and what happens at each place.
   */
  datatype Plan = Plan(
    stack: seq<Bytes>, serialOf: Bytes -> Option<Serial>, claiming: bool, exitId: Bytes, keyUsable: bool,
    turns: nat -> Turn)

  const EXIT_ID_LEN := 16

  /** A sealing session can be made for the exit: its id has the right length and its key is a usable point. */
  predicate Seals(p: Plan) {
    |p.exitId| == EXIT_ID_LEN && p.keyUsable
  }

  function VisitedAt(e: Edge, p: Plan, at: nat): (Edge, Visit)
    requires at < |p.stack|
  {
    Visited(e, p.serialOf(p.stack[at]), p.claiming, p.turns(at), Seals(p))
  }

  function Walked(e: Edge, p: Plan, at: nat, refused: nat): (Edge, WalkResult, seq<Visit>)
    requires at <= Limit(p.stack)
    decreases Limit(p.stack) - at
  {
    if at == Limit(p.stack) then (e, NoSessionToken(refused), [])
    else
      var (next, v) := VisitedAt(e, p, at);
      if Stops(v) then (next, Ending(v, p.stack[at]), [v])
      else
        var (end, result, visits) := Walked(next, p, at + 1, refused + if v.Presented? then 1 else 0);
        (end, result, [v] + visits)
  }

  // ---- the walk, step by step ----------------------------------------------------------

  class LeaseBook {
    var held: set<Serial>
    var leases: seq<Lease>
    // The edge connections the process has opened, and which of them are open.
    var dialed: nat
    var open: set<nat>

    ghost function View(): Book
      reads this
    {
      Book(held, leases)
    }

    ghost function Now(): Edge
      reads this
    {
      Edge(View(), dialed, open)
    }

    constructor ()
      ensures Now() == Edge(EMPTY, 0, {})
    {
      held, leases := {}, [];
      dialed, open := 0, {};
    }

    method ClaimToken(serial: Option<Serial>) returns (lease: Option<nat>)
      modifies this`held, this`leases
      ensures (View(), lease) == Claim(old(View()), serial)
    {
      if serial.None? || serial.value in held {
        return None;
      }
      held := held + {serial.value};
      leases := leases + [Lease(serial.value, true)];
      return Some(|leases| - 1);
    }

    method ReleaseLease(lease: nat)
      modifies this`held, this`leases
      ensures View() == Release(old(View()), lease)
    {
      if lease >= |leases| || !leases[lease].live {
        return;
      }
      held := held - {leases[lease].key};
      leases := leases[lease := leases[lease].(live := false)];
    }

    /** `lease?.release()`. */
    method ReleaseIfAny(lease: Option<nat>)
      modifies this`held, this`leases
      ensures View() == ReleaseAny(old(View()), lease)
    {
      if lease.Some? {
        ReleaseLease(lease.value);
      }
    }

    method Others(ops: seq<Op>)
      modifies this`held, this`leases
      ensures View() == Run(old(View()), ops)
    {
      var i := 0;
      while i < |ops|
        invariant 0 <= i <= |ops|
        invariant Run(View(), ops[i..]) == Run(old(View()), ops)
      {
        assert ops[i..][1..] == ops[i + 1..];
        match ops[i] {
          case Claims(serial) => var _ := ClaimToken(serial);
          case Releases(lease) => ReleaseLease(lease);
        }
        i := i + 1;
      }
    }

    method OpenConnection() returns (c: nat)
      modifies this`dialed, this`open
      ensures c == old(dialed) && dialed == c + 1 && open == old(open) + {c}
    {
      c := dialed;
      dialed, open := dialed + 1, open + {c};
    }

    method CloseConnection(c: nat, lease: Option<nat>)
      modifies this`held, this`leases, this`open
      ensures Now() == Close(old(Now()), c, lease)
    {
      open := open - {c};
      ReleaseIfAny(lease);
    }

    /** One attempt presenting a token alone, on a connection that holds `lease` and releases it on close. */
    method Present(lease: Option<nat>, turn: Turn, seals: bool) returns (visit: Visit)
      modifies this
      ensures (Now(), visit) == Attempted(old(Now()), lease, turn, seals)
    {
      Others(Spared(turn.during, lease));
      if turn.setup.CannotOpen? {
        Others(Spared(turn.after, lease));
        ReleaseIfAny(lease);
        return Presented(lease, None, Ended(CannotOpen));
      }
      var c := OpenConnection();
      if !seals {
        // The transport is ready when the session throws, and nothing closes it.
        Others(Spared(turn.after, lease));
        ReleaseIfAny(lease);
        return Presented(lease, Some(c), SessionRefused);
      }
      match turn.setup {
        case Breaks =>
          CloseConnection(c, lease);
          Others(turn.after);
          ReleaseIfAny(lease);
        case Rejected =>
          CloseConnection(c, lease);
          ReleaseIfAny(lease);
        case Answered =>
      }
      return Presented(lease, Some(c), Ended(turn.setup));
    }

    method VisitPlace(serial: Option<Serial>, claiming: bool, turn: Turn, seals: bool) returns (visit: Visit)
      modifies this
      ensures (Now(), visit) == Visited(old(Now()), serial, claiming, turn, seals)
    {
      var lease: Option<nat> := None;
      if claiming {
        lease := ClaimToken(serial);
        if lease.None? {
          return PassedOver;
        }
      }
      visit := Present(lease, turn, seals);
    }

    /**
     The walk over a stack, presenting one token per setup. `turns(i)` is what happens around
     the attempt at place i: other sessions of the manager claim and release while it waits.
     */
    method Walk(p: Plan) returns (result: WalkResult, visits: seq<Visit>)
      modifies this
      ensures (Now(), result, visits) == Walked(old(Now()), p, 0, 0)
    {
      visits := [];
      var refused := 0;
      ghost var whole := Walked(Now(), p, 0, 0);
      assert visits + whole.2 == whole.2;
      while |visits| < Limit(p.stack)
        invariant |visits| <= Limit(p.stack)
        invariant Walked(old(Now()), p, 0, 0) == After(visits, Walked(Now(), p, |visits|, refused))
        decreases Limit(p.stack) - |visits|
      {
        ghost var before := Now();
        var at := |visits|;
        var visit := VisitPlace(p.serialOf(p.stack[at]), p.claiming, p.turns(at), Seals(p));
        WalkOn(before, p, refused, visits);
        visits := visits + [visit];
        if visit.PassedOver? {
          continue;
        }
        if visit.outcome != Ended(Rejected) {
          return Ending(visit, p.stack[at]), visits;
        }
        refused := refused + 1;
      }
      assert visits + [] == visits;
      result := NoSessionToken(refused);
    }
  }

  function After(visits: seq<Visit>, w: (Edge, WalkResult, seq<Visit>)): (Edge, WalkResult, seq<Visit>) {
    (w.0, w.1, visits + w.2)
  }

  /** One place further. */
  lemma WalkOn(e: Edge, p: Plan, refused: nat, visits: seq<Visit>)
    requires |visits| < Limit(p.stack)
    ensures var at := |visits|; var (next, v) := VisitedAt(e, p, at);
            After(visits, Walked(e, p, at, refused)) ==
              if Stops(v) then (next, Ending(v, p.stack[at]), visits + [v])
              else After(visits + [v], Walked(next, p, at + 1, refused + if v.Presented? then 1 else 0))
  {
    var at := |visits|;
    var (next, v) := VisitedAt(e, p, at);
    if !Stops(v) {
      var rest := Walked(next, p, at + 1, refused + if v.Presented? then 1 else 0).2;
      assert visits + ([v] + rest) == (visits + [v]) + rest;
    }
  }

  // ---- what a walk keeps -------------------------------------------------------------------

  /** Leases only come and die: none is renumbered, renamed or revived. */
  ghost predicate Later(b: Book, c: Book) {
    && |b.leases| <= |c.leases|
    && forall i :: 0 <= i < |b.leases| ==> c.leases[i].key == b.leases[i].key && (c.leases[i].live ==> b.leases[i].live)
  }

  lemma {:induction false} RunIsLater(b: Book, ops: seq<Op>)
    ensures Later(b, Run(b, ops))
    decreases |ops|
  {
    if ops != [] { RunIsLater(Apply(b, ops[0]), ops[1..]); }
  }

  lemma {:induction false} SparedLeaseSurvives(b: Book, lease: nat, ops: seq<Op>)
    requires lease < |b.leases| && Releases(lease) !in ops
    ensures lease < |Run(b, ops).leases| && Run(b, ops).leases[lease] == b.leases[lease]
    decreases |ops|
  {
    if ops != [] {
      assert ops[0] in ops;
      SparedLeaseSurvives(Apply(b, ops[0]), lease, ops[1..]);
    }
  }

  /** Connections are numbered as they are opened. */
  ghost predicate WellFormed(e: Edge) {
    Consistent(e.book) && forall c :: c in e.open ==> c < e.dialed
  }

  ghost predicate LiveIn(b: Book, lease: nat) {
    lease < |b.leases| && b.leases[lease].live
  }

  lemma OthersKeep(b: Book, ops: seq<Op>)
    requires Consistent(b)
    ensures Consistent(Run(b, ops)) && Later(b, Run(b, ops))
  {
    RunKeeps(b, ops);
    RunIsLater(b, ops);
  }

  lemma ReleaseAnyKeeps(b: Book, lease: Option<nat>)
    requires Consistent(b)
    ensures Consistent(ReleaseAny(b, lease)) && Later(b, ReleaseAny(b, lease))
    ensures lease.Some? ==> !LiveIn(ReleaseAny(b, lease), lease.value)
  {
    if lease.Some? { ReleaseKeeps(b, lease.value); }
  }

  /** The outcomes that leave a connection open. */
  predicate StaysOpen(o: Outcome) {
    o == Ended(Answered) || o == SessionRefused
  }

  /**
   An attempt: its lease is live afterwards exactly when it was answered, its connection open
   exactly when it was answered or its session refused, and every other connection and lease is
   left to its owner.
   */
  lemma AttemptKeeps(e: Edge, lease: Option<nat>, turn: Turn, seals: bool)
    requires WellFormed(e) && (lease.Some? ==> LiveIn(e.book, lease.value))
    ensures var (next, v) := Attempted(e, lease, turn, seals);
            var outcome := OutcomeOf(turn.setup, seals);
            && WellFormed(next) && Later(e.book, next.book)
            && (next.dialed == if turn.setup.CannotOpen? then e.dialed else e.dialed + 1)
            && v == Presented(lease, v.connection, outcome)
            && (v.connection == if turn.setup.CannotOpen? then None else Some(e.dialed))
            && next.open == (if StaysOpen(outcome) then e.open + {e.dialed} else e.open)
            && (lease.Some? ==> (LiveIn(next.book, lease.value) <==> outcome == Ended(Answered)))
  {
    var waited := Run(e.book, Spared(turn.during, lease));
    OthersKeep(e.book, Spared(turn.during, lease));
    assert e.open + {e.dialed} - {e.dialed} == e.open;
    match OutcomeOf(turn.setup, seals) {
      case SessionRefused =>
        OthersKeep(waited, Spared(turn.after, lease));
        ReleaseAnyKeeps(Run(waited, Spared(turn.after, lease)), lease);
      case Ended(CannotOpen) =>
        OthersKeep(waited, Spared(turn.after, lease));
        ReleaseAnyKeeps(Run(waited, Spared(turn.after, lease)), lease);
      case Ended(Breaks) =>
        ReleaseAnyKeeps(waited, lease);
        OthersKeep(ReleaseAny(waited, lease), turn.after);
        ReleaseAnyKeeps(Run(ReleaseAny(waited, lease), turn.after), lease);
      case Ended(Rejected) =>
        ReleaseAnyKeeps(waited, lease);
        ReleaseAnyKeeps(ReleaseAny(waited, lease), lease);
      case Ended(Answered) =>
        if lease.Some? { SparedLeaseSurvives(e.book, lease.value, Spared(turn.during, lease)); }
    }
  }

  /** A claim is refused for bytes that are no token and for a held serial. */
  predicate Unclaimable(b: Book, serial: Option<Serial>) {
    serial.None? || serial.value in b.held
  }

  /** What one visit of a walk says of its place. */
  ghost predicate Tells(e: Edge, next: Edge, v: Visit, serial: Option<Serial>, claiming: bool, outcome: Outcome) {
    if claiming && Unclaimable(e.book, serial) then v == PassedOver && next == e
    else
      && v.Presented? && v.outcome == outcome
      && (v.lease == if claiming then Some(|e.book.leases|) else None)
      && (v.connection == if outcome == Ended(CannotOpen) then None else Some(e.dialed))
      && (v.connection.Some? ==> next.dialed == e.dialed + 1)
      && next.open == (if StaysOpen(outcome) then e.open + {e.dialed} else e.open)
      && (claiming ==>
            && LaterKey(next.book, |e.book.leases|, serial)
            && (LiveIn(next.book, |e.book.leases|) <==> outcome == Ended(Answered)))
  }

  ghost predicate LaterKey(b: Book, lease: nat, serial: Option<Serial>) {
    serial.Some? && lease < |b.leases| && b.leases[lease].key == serial.value
  }

  lemma VisitTells(e: Edge, serial: Option<Serial>, claiming: bool, turn: Turn, seals: bool)
    requires WellFormed(e)
    ensures var (next, v) := Visited(e, serial, claiming, turn, seals);
            && WellFormed(next) && Later(e.book, next.book) && e.dialed <= next.dialed
            && Tells(e, next, v, serial, claiming, OutcomeOf(turn.setup, seals))
  {
    if !claiming {
      AttemptKeeps(e, None, turn, seals);
    } else if !Unclaimable(e.book, serial) {
      ClaimKeeps(e.book, serial);
      var (book, lease) := Claim(e.book, serial);
      AttemptKeeps(e.(book := book), lease, turn, seals);
    }
  }

  // ---- what a walk comes to ------------------------------------------------------------------

  /** The state the walk finds at place `i`. */
  function Found(e: Edge, p: Plan, at: nat, i: nat): Edge
    requires at + i < |p.stack|
    decreases i
  {
    if i == 0 then e else Found(VisitedAt(e, p, at).0, p, at + 1, i - 1)
  }

  function Refusals(visits: seq<Visit>): nat {
    if visits == [] then 0 else (if visits[0].Presented? then 1 else 0) + Refusals(visits[1..])
  }

  /** A walk with a place ahead of it. */
  lemma WalkUnfolds(e: Edge, p: Plan, at: nat, refused: nat)
    requires at < Limit(p.stack)
    ensures var (next, v) := VisitedAt(e, p, at);
            Walked(e, p, at, refused) ==
              if Stops(v) then (next, Ending(v, p.stack[at]), [v])
              else After([v], Walked(next, p, at + 1, refused + if v.Presented? then 1 else 0))
  {
  }

  /** The visits of a walk are those of the states it finds, one place after the other. */
  lemma {:induction false} VisitsFollow(e: Edge, p: Plan, at: nat, refused: nat, i: nat)
    requires at <= Limit(p.stack) && i < |Walked(e, p, at, refused).2|
    ensures at + i < Limit(p.stack)
    ensures Walked(e, p, at, refused).2[i] == VisitedAt(Found(e, p, at, i), p, at + i).1
    decreases i
  {
    var (next, v) := VisitedAt(e, p, at);
    WalkUnfolds(e, p, at, refused);
    if i > 0 { VisitsFollow(next, p, at + 1, refused + if v.Presented? then 1 else 0, i - 1); }
  }

  /** They go up to the first that stops the walk, which then decides its result. */
  ghost predicate Concludes(w: (Edge, WalkResult, seq<Visit>), p: Plan, at: nat, refused: nat) {
    && at + |w.2| <= Limit(p.stack)
    && (forall i :: 0 <= i < |w.2| - 1 ==> !Stops(w.2[i]))
    && (if w.2 != [] && Stops(w.2[|w.2| - 1]) then w.1 == Ending(w.2[|w.2| - 1], p.stack[at + |w.2| - 1])
        else at + |w.2| == Limit(p.stack) && w.1 == NoSessionToken(refused + Refusals(w.2)))
  }

  lemma {:induction false} WalkConcludes(e: Edge, p: Plan, at: nat, refused: nat)
    requires at <= Limit(p.stack)
    ensures Concludes(Walked(e, p, at, refused), p, at, refused)
    decreases Limit(p.stack) - at
  {
    if at < Limit(p.stack) {
      var (next, v) := VisitedAt(e, p, at);
      WalkUnfolds(e, p, at, refused);
      if !Stops(v) {
        var one := if v.Presented? then 1 else 0;
        WalkConcludes(next, p, at + 1, refused + one);
        ConcludesAfter(Walked(next, p, at + 1, refused + one), v, p, at, refused);
      }
    }
  }

  lemma ConcludesAfter(w: (Edge, WalkResult, seq<Visit>), v: Visit, p: Plan, at: nat, refused: nat)
    requires !Stops(v) && Concludes(w, p, at + 1, refused + if v.Presented? then 1 else 0)
    ensures Concludes(After([v], w), p, at, refused)
  {
    var visits := [v] + w.2;
    assert visits[1..] == w.2;
    forall i | 0 <= i < |visits| - 1 ensures !Stops(visits[i]) {
      if i > 0 { assert visits[i] == w.2[i - 1]; }
    }
    assert w.2 != [] ==> visits[|visits| - 1] == w.2[|w.2| - 1];
  }

  /** The walk keeps the book consistent, and the states it finds are well-formed. */
  lemma {:induction false} FoundIsWellFormed(e: Edge, p: Plan, at: nat, i: nat)
    requires WellFormed(e) && at + i < |p.stack|
    ensures WellFormed(Found(e, p, at, i)) && |e.book.leases| <= |Found(e, p, at, i).book.leases|
    decreases i
  {
    if i > 0 {
      VisitTells(e, p.serialOf(p.stack[at]), p.claiming, p.turns(at), Seals(p));
      FoundIsWellFormed(VisitedAt(e, p, at).0, p, at + 1, i - 1);
    }
  }

  /**
   Place by place: a token is passed over exactly when it cannot be claimed there, and an
   attempt ends as its turn does.
   */
  lemma EveryPlaceIsAccounted(e: Edge, p: Plan, i: nat)
    requires WellFormed(e) && i < |Walked(e, p, 0, 0).2|
    ensures i < Limit(p.stack)
    ensures var v, b := Walked(e, p, 0, 0).2[i], Found(e, p, 0, i).book;
            && (v.PassedOver? <==> p.claiming && Unclaimable(b, p.serialOf(p.stack[i])))
            && (v.Presented? ==>
                  && v.outcome == OutcomeOf(p.turns(i).setup, Seals(p)) && (v.lease.Some? <==> p.claiming)
                  && (v.connection.None? <==> v.outcome == Ended(CannotOpen)))
  {
    VisitsFollow(e, p, 0, 0, i);
    FoundIsWellFormed(e, p, 0, i);
    VisitTells(Found(e, p, 0, i), p.serialOf(p.stack[i]), p.claiming, p.turns(i), Seals(p));
  }

  /** The connection a walk leaves open: the last one's, if it was answered or its session refused. */
  function LeftOpen(visits: seq<Visit>): set<nat> {
    if visits != [] && visits[|visits| - 1].Presented? && StaysOpen(visits[|visits| - 1].outcome)
       && visits[|visits| - 1].connection.Some?
    then {visits[|visits| - 1].connection.value}
    else {}
  }

  /**
   No lease a visit was given is live, but the last one's if the walk was answered; and no
   connection one opened is open, but that one's or the last one's if its session was refused.
   */
  ghost predicate Ends(e: Edge, end: Edge, result: WalkResult, visits: seq<Visit>, p: Plan) {
    && WellFormed(end) && Later(e.book, end.book)
    && end.open == e.open + LeftOpen(visits)
    && (forall i :: 0 <= i < |visits| && visits[i].Presented? && visits[i].lease.Some? ==>
          && visits[i].lease.value >= |e.book.leases|
          && (LiveIn(end.book, visits[i].lease.value) <==> result.Admitted? && i == |visits| - 1))
    && (forall i :: 0 <= i < |visits| && visits[i].Presented? && visits[i].connection.Some? ==>
          && visits[i].connection.value >= e.dialed
          && (visits[i].connection.value in end.open <==> i == |visits| - 1 && StaysOpen(visits[i].outcome)))
    && (result.Admitted? ==> LeftOpen(visits) == {result.connection} && (result.lease.Some? <==> p.claiming))
    && (result.Admitted? && p.claiming ==>
          LiveIn(end.book, result.lease.value) && LaterKey(end.book, result.lease.value, p.serialOf(result.token)))
  }

  lemma EndsAfterStop(e: Edge, p: Plan, at: nat)
    requires WellFormed(e) && at < Limit(p.stack) && Stops(VisitedAt(e, p, at).1)
    ensures var (next, v) := VisitedAt(e, p, at); Ends(e, next, Ending(v, p.stack[at]), [v], p)
  {
    VisitTells(e, p.serialOf(p.stack[at]), p.claiming, p.turns(at), Seals(p));
  }

  /** A visit that does not stop the walk leaves nothing of its own behind. */
  lemma EndsAfterMore(e: Edge, next: Edge, v: Visit, end: Edge, result: WalkResult, rest: seq<Visit>, p: Plan)
    requires Ends(next, end, result, rest, p) && Later(e.book, next.book) && next.open == e.open
             && e.dialed <= next.dialed
    requires v.Presented? && v.lease.Some? ==> v.lease.value >= |e.book.leases| && v.lease.value < |next.book.leases|
    requires v.Presented? && v.lease.Some? ==> !LiveIn(next.book, v.lease.value)
    requires WellFormed(e) && (v.Presented? && v.connection.Some? ==> e.dialed <= v.connection.value < next.dialed)
    requires !Stops(v) && (result.Admitted? ==> rest != [])
    ensures Ends(e, end, result, [v] + rest, p)
  {
    var visits := [v] + rest;
    assert rest != [] ==> visits[|visits| - 1] == rest[|rest| - 1];
    assert LeftOpen(visits) == LeftOpen(rest);
    forall i | 0 <= i < |visits| && visits[i].Presented? && visits[i].lease.Some?
      ensures visits[i].lease.value >= |e.book.leases|
      ensures LiveIn(end.book, visits[i].lease.value) <==> result.Admitted? && i == |visits| - 1
    {
      if i > 0 { assert visits[i] == rest[i - 1]; }
    }
    forall i | 0 <= i < |visits| && visits[i].Presented? && visits[i].connection.Some?
      ensures visits[i].connection.value >= e.dialed
      ensures visits[i].connection.value in end.open <==> i == |visits| - 1 && StaysOpen(visits[i].outcome)
    {
      if i > 0 { assert visits[i] == rest[i - 1]; }
    }
  }

  lemma {:induction false} WalkEndsFrom(e: Edge, p: Plan, at: nat, refused: nat)
    requires WellFormed(e) && at <= Limit(p.stack)
    ensures var (end, result, visits) := Walked(e, p, at, refused); Ends(e, end, result, visits, p)
    decreases Limit(p.stack) - at
  {
    if at < Limit(p.stack) {
      var (next, v) := VisitedAt(e, p, at);
      VisitTells(e, p.serialOf(p.stack[at]), p.claiming, p.turns(at), Seals(p));
      if Stops(v) {
        EndsAfterStop(e, p, at);
      } else {
        var one := if v.Presented? then 1 else 0;
        WalkEndsFrom(next, p, at + 1, refused + one);
        WalkConcludes(next, p, at + 1, refused + one);
        var (end, result, rest) := Walked(next, p, at + 1, refused + one);
        EndsAfterMore(e, next, v, end, result, rest, p);
      }
    }
  }

  /**
   At most eight places are visited. The walk ends at the first that is answered or throws, and
   gives up only after the last. In the end the connection of an admitted token is open and its
   lease is live. No other lease of the walk is live, and no other connection of it open but one
   whose session was refused.
   */
  lemma WalkEnds(e: Edge, p: Plan)
    requires WellFormed(e)
    ensures var (end, result, visits) := Walked(e, p, 0, 0);
            && |visits| <= Limit(p.stack) <= MAX_SESSION_TOKENS
            && Ends(e, end, result, visits, p)
            && ResultOf(result, visits, p)
  {
    WalkEndsFrom(e, p, 0, 0);
    WalkConcludes(e, p, 0, 0);
    var (end, result, visits) := Walked(e, p, 0, 0);
    forall i | 0 <= i < |visits| && visits[i].Presented?
      ensures visits[i].outcome == OutcomeOf(p.turns(i).setup, Seals(p))
      ensures visits[i].connection.None? <==> visits[i].outcome == Ended(CannotOpen)
    {
      EveryPlaceIsAccounted(e, p, i);
    }
    ResultFollows(result, visits, p);
  }

  /** How the attempt at a place ends. */
  function OutcomeAt(p: Plan, i: nat): Outcome {
    OutcomeOf(p.turns(i).setup, Seals(p))
  }

  /** The result, by how the attempts ended. */
  ghost predicate ResultOf(result: WalkResult, visits: seq<Visit>, p: Plan)
    requires |visits| <= |p.stack|
  {
    && (forall i :: 0 <= i < |visits| && visits[i].Presented? ==> visits[i].outcome == OutcomeAt(p, i))
    && (forall i :: 0 <= i < |visits| - 1 && visits[i].Presented? ==> OutcomeAt(p, i) == Ended(Rejected))
    && if visits != [] && visits[|visits| - 1].Presented? && OutcomeAt(p, |visits| - 1) != Ended(Rejected)
       then
         var last := visits[|visits| - 1];
         if OutcomeAt(p, |visits| - 1) == Ended(Answered)
         then result.Admitted? && result.token == p.stack[|visits| - 1] && result.lease == last.lease
              && Some(result.connection) == last.connection
         else result == Threw
       else |visits| == Limit(p.stack) && result == NoSessionToken(Refusals(visits))
  }

  lemma ResultFollows(result: WalkResult, visits: seq<Visit>, p: Plan)
    requires forall i :: 0 <= i < |visits| && visits[i].Presented? ==>
               && visits[i].outcome == OutcomeAt(p, i)
               && (visits[i].connection.None? <==> visits[i].outcome == Ended(CannotOpen))
    requires |visits| <= Limit(p.stack) && (forall i :: 0 <= i < |visits| - 1 ==> !Stops(visits[i]))
    requires if visits != [] && Stops(visits[|visits| - 1])
             then result == Ending(visits[|visits| - 1], p.stack[|visits| - 1])
             else |visits| == Limit(p.stack) && result == NoSessionToken(Refusals(visits))
    ensures ResultOf(result, visits, p)
  {
  }

  // ---- what a walk may leave open ---------------------------------------------------------------

  /** Nothing of the walk is open but the connection of an admitted token. */
  predicate LeavesNothing(e: Edge, end: Edge, result: WalkResult) {
    end.open == if result.Admitted? then e.open + {result.connection} else e.open
  }

  /** No attempt of a walk got a connection. */
  predicate NoneConnected(visits: seq<Visit>, p: Plan) {
    forall i :: 0 <= i < |visits| && visits[i].Presented? ==> p.turns(i).setup.CannotOpen?
  }

  /**
   A walk leaves nothing of its own open, the admitted connection aside, exactly when a session
   can be made for its exit, or no attempt gets as far as a connection.
   */
  lemma LeavesNothingExactly(e: Edge, p: Plan)
    requires WellFormed(e)
    ensures var (end, result, visits) := Walked(e, p, 0, 0);
            LeavesNothing(e, end, result) <==> Seals(p) || NoneConnected(visits, p)
  {
    var (end, result, visits) := Walked(e, p, 0, 0);
    WalkEnds(e, p);
    if visits != [] { EveryPlaceIsAccounted(e, p, |visits| - 1); }
    LeavesByEnds(e, end, result, visits, p);
  }

  lemma LeavesByEnds(e: Edge, end: Edge, result: WalkResult, visits: seq<Visit>, p: Plan)
    requires WellFormed(e) && |visits| <= |p.stack| && Ends(e, end, result, visits, p) && ResultOf(result, visits, p)
    requires visits != [] && visits[|visits| - 1].Presented? ==>
               (visits[|visits| - 1].connection.None? <==> visits[|visits| - 1].outcome == Ended(CannotOpen))
    ensures LeavesNothing(e, end, result) <==> Seals(p) || NoneConnected(visits, p)
  {
    assert forall i: nat :: !Seals(p) ==> OutcomeAt(p, i) != Ended(Rejected);
    var left := LeftOpen(visits);
    assert forall c :: c in left ==> c >= e.dialed;
  }

  /** An exit id one byte short: the transport comes up, the session throws, and the connection stays. */
  lemma ShortIdStrandsAConnection()
    ensures var p := Plan([[]], _ => None, false, Zeros(15), true, _ => Turn([], Answered, []));
            var (end, result, visits) := Walked(Edge(EMPTY, 0, {}), p, 0, 0);
            result == Threw && end.open == {0}
  {
    var p := Plan([[]], _ => None, false, Zeros(15), true, _ => Turn([], Answered, []));
    var e := Edge(EMPTY, 0, {});
    assert Limit(p.stack) == 1 && !Seals(p);
    WalkUnfolds(e, p, 0, 0);
    assert VisitedAt(e, p, 0).1 == Presented(None, Some(0), SessionRefused);
  }

  // ---- how far a walk goes ------------------------------------------------------------------------

  /** A walk that gives up visited its whole stack, or the first eight places of a longer one. */
  lemma GivesUpAfterTheLast(e: Edge, p: Plan)
    requires WellFormed(e) && Walked(e, p, 0, 0).1.NoSessionToken?
    ensures |Walked(e, p, 0, 0).2| == if |p.stack| < 8 then |p.stack| else 8
  {
    WalkEnds(e, p);
  }

  /** The token of a place can be presented there. */
  predicate Presentable(e: Edge, p: Plan, i: nat)
    requires i < |p.stack|
  {
    !p.claiming || !Unclaimable(Found(e, p, 0, i).book, p.serialOf(p.stack[i]))
  }

  /** The visit of a place does not end the walk. */
  predicate GoesOn(e: Edge, p: Plan, at: nat, j: nat)
    requires at + j < |p.stack|
  {
    !Stops(VisitedAt(Found(e, p, at, j), p, at + j).1)
  }

  lemma {:induction false} ReachesPlace(e: Edge, p: Plan, at: nat, refused: nat, i: nat)
    requires at + i < Limit(p.stack) && forall j: nat :: j < i ==> GoesOn(e, p, at, j)
    ensures |Walked(e, p, at, refused).2| > i
    decreases i
  {
    var (next, v) := VisitedAt(e, p, at);
    WalkUnfolds(e, p, at, refused);
    if i > 0 {
      var further := at + 1;
      assert GoesOn(e, p, at, 0);
      forall j: nat | j < i - 1 ensures GoesOn(next, p, further, j) {
        assert GoesOn(e, p, at, j + 1);
      }
      ReachesPlace(next, p, further, refused + if v.Presented? then 1 else 0, i - 1);
    }
  }

  lemma RejectedGoesOn(e: Edge, p: Plan, j: nat)
    requires WellFormed(e) && Seals(p) && j < |p.stack|
    requires !Presentable(e, p, j) || p.turns(j).setup == Rejected
    ensures GoesOn(e, p, 0, j)
  {
    FoundIsWellFormed(e, p, 0, j);
    VisitTells(Found(e, p, 0, j), p.serialOf(p.stack[j]), p.claiming, p.turns(j), Seals(p));
  }

  /**
   The first of the first eight places that can be claimed where the walk finds it and is answered
   is admitted, if every token presented before it was rejected.
   */
  lemma FirstAnsweredIsAdmitted(e: Edge, p: Plan, i: nat)
    requires WellFormed(e) && |p.exitId| == 16 && p.keyUsable && i < |p.stack| && i < 8
    requires forall j: nat :: j < i ==> !Presentable(e, p, j) || p.turns(j).setup == Rejected
    requires Presentable(e, p, i) && p.turns(i).setup == Answered
    ensures var result := Walked(e, p, 0, 0).1; result.Admitted? && result.token == p.stack[i]
  {
    forall j: nat | j < i ensures GoesOn(e, p, 0, j) {
      RejectedGoesOn(e, p, j);
    }
    ReachesPlace(e, p, 0, 0, i);
    EveryPlaceIsAccounted(e, p, i);
    WalkEnds(e, p);
    var (end, result, visits) := Walked(e, p, 0, 0);
    LastIsAnswered(result, visits, p, i);
  }

  lemma LastIsAnswered(result: WalkResult, visits: seq<Visit>, p: Plan, i: nat)
    requires i < |visits| <= |p.stack| && ResultOf(result, visits, p) && visits[i].Presented?
    requires OutcomeAt(p, i) == Ended(Answered)
    ensures result.Admitted? && result.token == p.stack[i]
  {
    assert i == |visits| - 1;
  }
}
