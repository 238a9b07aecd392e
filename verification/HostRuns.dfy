/**
 Every interleaving of the native host's request handlers, tunnel builds, shutdowns and
 state reports over the locked sections of `HostSession`. One loop polls all handlers, so
 they interleave only at awaits; a state sink may fire between any two steps.
 */
module HostRuns {
  import opened Results
  import opened HostSession

  type HandlerId = nat

  datatype Request =
    | Hello(speaksOurs: bool, named: Result<Option<string>, ()>)
    | Status(route: string)
    | Connect
    | Disconnect
    | Ask
    | Refused

  /** Where a handler is parked. */
  datatype Handler =
    | Creating(id: string, generation: nat)
    | Dialing(id: string, generation: nat, tunnel: TunnelId)
    | Asking(id: string)
    | Stopping(id: string, tunnel: TunnelId, answer: Body)
    | Closing(tunnel: TunnelId)
    | Closed
    | Done(id: string)

  /** An answer or a state event, with the handler or the generation it came from. */
  datatype Message =
    | Answer(handler: HandlerId, id: string, body: Body)
    | StateEvent(generation: nat, state: HostState)

  /** Who is responsible for a tunnel. */
  datatype Owner = InFlight(handler: HandlerId) | Slot | Ending(handler: HandlerId) | Gone

  /** A tunnel the backend built: the generation of its connect and its owner now. */
  datatype TunnelRecord = TunnelRecord(generation: nat, owner: Owner)

  datatype System = System(
    inner: Inner, handlers: map<HandlerId, Handler>, outbox: seq<Message>,
    tunnels: map<TunnelId, TunnelRecord>, stopped: set<TunnelId>, sinks: set<nat>)

  const BOOT := System(START, map[], [], map[], {}, {})

  datatype Event =
    | Arrive(handler: HandlerId, id: string, request: Request)
    | Close(handler: HandlerId)
    | Created(handler: HandlerId, result: Result<TunnelId, ErrorCode>)
    | Dialed(handler: HandlerId, dialed: Result<Listeners, ErrorCode>)
    | Stopped(handler: HandlerId)
    | Told(handler: HandlerId, told: Result<string, ErrorCode>)
    | Report(generation: nat, state: HostState)

  predicate Enabled(s: System, e: Event) {
    match e
    case Arrive(k, _, _) => k !in s.handlers
    case Close(k) => k !in s.handlers
    case Created(k, r) => k in s.handlers && s.handlers[k].Creating? && (r.Ok? ==> r.value !in s.tunnels)
    case Dialed(k, _) => k in s.handlers && s.handlers[k].Dialing?
    case Stopped(k) => k in s.handlers && (s.handlers[k].Stopping? || s.handlers[k].Closing?)
    case Told(k, _) => k in s.handlers && s.handlers[k].Asking?
    case Report(g, _) => g in s.sinks
  }

  function Reply(s: System, k: HandlerId, id: string, body: Body): System {
    s.(handlers := s.handlers[k := Done(id)], outbox := s.outbox + [Answer(k, id, body)])
  }

  /** Shut a tunnel down, then answer; answer at once when there is none. */
  function StopThenReply(s: System, k: HandlerId, id: string, taken: Option<TunnelId>, body: Body): System {
    match taken
    case None => Reply(s, k, id, body)
    case Some(t) =>
      s.(handlers := s.handlers[k := Stopping(id, t, body)], tunnels := Hand(s.tunnels, t, Ending(k)))
  }

  function Hand(tunnels: map<TunnelId, TunnelRecord>, t: TunnelId, owner: Owner): map<TunnelId, TunnelRecord> {
    if t in tunnels then tunnels[t := tunnels[t].(owner := owner)] else tunnels
  }

  /** A connect lands under the lock; the handler goes on to shut a discarded tunnel down. */
  function Settle(s: System, k: HandlerId, id: string, generation: nat, outcome: Outcome): System {
    var (inner, discard, body) := Settled(s.inner, generation, outcome);
    var kept := s.(inner := inner,
                   tunnels := if inner.tunnel.Some? then Hand(s.tunnels, inner.tunnel.value, Slot) else s.tunnels);
    StopThenReply(kept, k, id, discard, body)
  }

  function Arrived(s: System, k: HandlerId, id: string, request: Request): System {
    match request
    case Hello(ours, named) =>
      if ours && named.Ok? then Reply(s.(inner := s.inner.(channel := named.value)), k, id, HelloAnswer)
      else Reply(s, k, id, ErrorAnswer(Protocol))
    case Status(route) => Reply(s, k, id, StatusAnswer(s.inner.state, s.inner.endpoints, s.inner.exit, route))
    case Connect =>
      (match Begun(s.inner)
       case (Err(code), _) => Reply(s, k, id, ErrorAnswer(code))
       case (Ok(g), inner) => s.(inner := inner, handlers := s.handlers[k := Creating(id, g)], sinks := s.sinks + {g}))
    case Disconnect =>
      var (inner, taken) := TornDown(s.inner);
      StopThenReply(s.(inner := inner), k, id, taken, DisconnectAnswer)
    case Ask => s.(handlers := s.handlers[k := Asking(id)])
    case Refused => Reply(s, k, id, ErrorAnswer(Protocol))
  }

  function Step(s: System, e: Event): System
    requires Enabled(s, e)
  {
    match e
    case Arrive(k, id, request) => Arrived(s, k, id, request)
    case Close(k) =>
      var (inner, taken) := TornDown(s.inner.(closed := true));
      (match taken
       case None => s.(inner := inner, handlers := s.handlers[k := Closed])
       case Some(t) =>
         s.(inner := inner, handlers := s.handlers[k := Closing(t)], tunnels := Hand(s.tunnels, t, Ending(k))))
    case Created(k, r) =>
      var h := s.handlers[k];
      (match r
       case Ok(t) =>
         s.(handlers := s.handlers[k := Dialing(h.id, h.generation, t)],
            tunnels := s.tunnels[t := TunnelRecord(h.generation, InFlight(k))])
       case Err(code) => Settle(s, k, h.id, h.generation, NotBuilt(None, code)))
    case Dialed(k, dialed) =>
      var h := s.handlers[k];
      Settle(s, k, h.id, h.generation, Landed(h.tunnel, dialed))
    case Stopped(k) =>
      var h := s.handlers[k];
      var down := s.(stopped := s.stopped + {h.tunnel}, tunnels := Hand(s.tunnels, h.tunnel, Gone));
      if h.Stopping? then Reply(down, k, h.id, h.answer) else down.(handlers := s.handlers[k := Closed])
    case Told(k, told) =>
      Reply(s, k, s.handlers[k].id, if told.Ok? then BackendAnswer(told.value) else ErrorAnswer(told.error))
    case Report(g, state) =>
      var (inner, queued) := Reported(s.inner, g, state);
      s.(inner := inner, outbox := s.outbox + if queued then [StateEvent(g, state)] else [])
  }

  predicate IsRun(s: System, es: seq<Event>)
    decreases |es|
  {
    es == [] || (Enabled(s, es[0]) && IsRun(Step(s, es[0]), es[1..]))
  }

  function Run(s: System, es: seq<Event>): System
    requires IsRun(s, es)
    decreases |es|
  {
    if es == [] then s else Run(Step(s, es[0]), es[1..])
  }

  // ---- what every step keeps -----------------------------------------------

  predicate IsConnect(h: Handler) { h.Creating? || h.Dialing? }

  /** A connect is being built under the current generation. */
  ghost predicate CurrentConnect(s: System) {
    exists k :: k in s.handlers && IsConnect(s.handlers[k]) && s.handlers[k].generation == s.inner.generation
  }

  /** At most one connect is in flight, the flag says so, and none is ahead of the generation. */
  ghost predicate Flights(s: System) {
    && (forall k, l :: k in s.handlers && l in s.handlers && IsConnect(s.handlers[k]) && IsConnect(s.handlers[l]) ==>
          k == l)
    && (forall k :: k in s.handlers && IsConnect(s.handlers[k]) ==>
         s.inner.connecting && s.handlers[k].generation <= s.inner.generation)
  }

  /** `o` has the tunnel `t` in its hands. */
  ghost predicate Holds(s: System, o: Owner, t: TunnelId) {
    match o
    case InFlight(k) => k in s.handlers && s.handlers[k].Dialing? && s.handlers[k].tunnel == t
    case Slot => s.inner.tunnel == Some(t)
    case Ending(k) => k in s.handlers && (s.handlers[k].Stopping? || s.handlers[k].Closing?)
        && s.handlers[k].tunnel == t
    case Gone => t in s.stopped
  }

  /** Every tunnel built is in the hands of its owner, and in nobody else's. */
  ghost predicate Owned(s: System) {
    && (forall t :: t in s.tunnels ==> Holds(s, s.tunnels[t].owner, t))
    && (forall t, o :: Holds(s, o, t) ==> t in s.tunnels && s.tunnels[t].owner == o)
  }

  /** The stored tunnel is of the current generation, and no connect runs beside it. */
  ghost predicate Stored(s: System) {
    && (s.inner.tunnel.Some? ==>
          && !s.inner.connecting
          && s.inner.tunnel.value in s.tunnels && s.tunnels[s.inner.tunnel.value].generation == s.inner.generation)
    && (forall k :: k in s.handlers && s.handlers[k].Dialing? ==>
          s.handlers[k].tunnel in s.tunnels && s.tunnels[s.handlers[k].tunnel].generation == s.handlers[k].generation)
  }

  /** With no tunnel and no current connect, the session reports nothing but `disconnected`. */
  ghost predicate Quiet(s: System) {
    && (forall g :: g in s.sinks ==> g <= s.inner.generation)
    && (s.inner.generation in s.sinks ==> s.inner.tunnel.Some? || CurrentConnect(s))
    && (s.inner.tunnel.None? ==> s.inner.endpoints.None? && s.inner.exit.None?)
    && (s.inner.tunnel.None? && !CurrentConnect(s) ==> s.inner.state == Disconnected)
    && (s.inner.closed ==> s.inner.tunnel.None? && !CurrentConnect(s))
  }

  /** Handlers that are done were answered once, under their own id, and no others were. */
  ghost predicate Answered(s: System) {
    && (forall i :: 0 <= i < |s.outbox| && s.outbox[i].Answer? ==>
          s.outbox[i].handler in s.handlers && s.handlers[s.outbox[i].handler] == Done(s.outbox[i].id))
    && (forall i, j :: 0 <= i < j < |s.outbox| && s.outbox[i].Answer? && s.outbox[j].Answer? ==>
          s.outbox[i].handler != s.outbox[j].handler)
    && (forall k :: k in s.handlers && s.handlers[k].Done? ==> HasAnswer(s, k))
  }

  ghost predicate HasAnswer(s: System, k: HandlerId) {
    exists i :: 0 <= i < |s.outbox| && s.outbox[i].Answer? && s.outbox[i].handler == k
  }

  ghost predicate Inv(s: System) {
    Flights(s) && Owned(s) && Stored(s) && Quiet(s) && Answered(s)
  }

  // ---- one lemma per kind of step --------------------------------------------

  /** A handler that builds no tunnel moves on: connects, slot and reports are as they were. */
  lemma BystanderKeeps(s: System, s': System, k: HandlerId)
    requires Inv(s) && (k in s.handlers ==> !IsConnect(s.handlers[k]))
    requires k in s'.handlers && !IsConnect(s'.handlers[k]) && s'.handlers == s.handlers[k := s'.handlers[k]]
    requires s'.inner == s.inner && s'.sinks == s.sinks
    requires forall t :: t in s.tunnels ==> t in s'.tunnels && s'.tunnels[t].generation == s.tunnels[t].generation
    ensures Flights(s') && Stored(s') && Quiet(s')
  {
    assert forall l :: l in s.handlers && IsConnect(s.handlers[l]) ==>
           l in s'.handlers && s'.handlers[l] == s.handlers[l];
    assert CurrentConnect(s') <==> CurrentConnect(s);
  }

  lemma ReplyKeeps(s: System, k: HandlerId, id: string, body: Body)
    requires Inv(s) && (k in s.handlers ==> s.handlers[k].Asking?)
    ensures Inv(Reply(s, k, id, body))
  {
    var s' := Reply(s, k, id, body);
    AnsweredOnce(s, s', k, id, body);
    BystanderKeeps(s, s', k);
    assert forall o, t :: Holds(s', o, t) <==> Holds(s, o, t);
  }

  /** Appending the one answer of a handler that had none. */
  lemma AnsweredOnce(s: System, s': System, k: HandlerId, id: string, body: Body)
    requires Answered(s) && (k in s.handlers ==> !s.handlers[k].Done?)
    requires s'.handlers == s.handlers[k := Done(id)] && s'.outbox == s.outbox + [Answer(k, id, body)]
    ensures Answered(s')
  {
    var n := |s.outbox|;
    assert s'.outbox[n] == Answer(k, id, body);
    forall l | l in s'.handlers && s'.handlers[l].Done?
      ensures HasAnswer(s', l)
    {
      if l != k {
        assert HasAnswer(s, l);
        var i :| 0 <= i < n && s.outbox[i].Answer? && s.outbox[i].handler == l;
        assert s'.outbox[i] == s.outbox[i];
      }
    }
  }

  /** A handler that moves on without being answered. */
  lemma UnansweredStep(s: System, s': System, k: HandlerId)
    requires Answered(s) && (k in s.handlers ==> !s.handlers[k].Done?)
    requires k in s'.handlers && !s'.handlers[k].Done? && s'.handlers == s.handlers[k := s'.handlers[k]]
    requires s'.outbox == s.outbox
    ensures Answered(s')
  {
    forall l | l in s'.handlers && s'.handlers[l].Done?
      ensures HasAnswer(s', l)
    {
      assert HasAnswer(s, l);
    }
  }

  lemma ConnectKeeps(s: System, k: HandlerId, id: string)
    requires Inv(s) && k !in s.handlers
    ensures Inv(Arrived(s, k, id, Connect))
  {
    var s' := Arrived(s, k, id, Connect);
    match Begun(s.inner) {
      case (Err(code), _) => ReplyKeeps(s, k, id, ErrorAnswer(code));
      case (Ok(g), _) =>
        UnansweredStep(s, s', k);
        assert forall o, t :: Holds(s', o, t) <==> Holds(s, o, t);
        assert s'.handlers[k].generation == s'.inner.generation;
    }
  }

  lemma AskKeeps(s: System, k: HandlerId, id: string)
    requires Inv(s) && k !in s.handlers
    ensures Inv(Arrived(s, k, id, Ask))
  {
    var s' := Arrived(s, k, id, Ask);
    UnansweredStep(s, s', k);
    BystanderKeeps(s, s', k);
    assert forall o, t :: Holds(s', o, t) <==> Holds(s, o, t);
  }

  /** The tunnel taken by a teardown passes from the slot to the handler shutting it down. */
  lemma TakenFromSlot(s: System, s': System, k: HandlerId, t: TunnelId)
    requires Inv(s) && k !in s.handlers && s.inner.tunnel == Some(t)
    requires s'.inner.tunnel.None? && s'.stopped == s.stopped && s'.tunnels == Hand(s.tunnels, t, Ending(k))
    requires k in s'.handlers && (s'.handlers[k].Stopping? || s'.handlers[k].Closing?) && s'.handlers[k].tunnel == t
    requires s'.handlers == s.handlers[k := s'.handlers[k]]
    ensures Owned(s')
  {
    assert Holds(s, Slot, t);
    forall o, u ensures Holds(s', o, u) <==> (if u == t then o == Ending(k) else Holds(s, o, u)) {
      if u == t && Holds(s, o, u) { assert o == Slot; }
    }
  }

  /** What a teardown leaves of the connects in flight: none of them is current any more. */
  lemma NoneCurrent(s: System, s': System)
    requires Flights(s) && s'.inner.generation > s.inner.generation
    requires forall k :: k in s'.handlers && IsConnect(s'.handlers[k]) ==>
             k in s.handlers && s.handlers[k] == s'.handlers[k]
    ensures !CurrentConnect(s')
  {
  }

  lemma DisconnectKeeps(s: System, k: HandlerId, id: string)
    requires Inv(s) && k !in s.handlers
    ensures Inv(Arrived(s, k, id, Disconnect))
  {
    var s' := Arrived(s, k, id, Disconnect);
    NoneCurrent(s, s');
    match s.inner.tunnel {
      case None =>
        AnsweredOnce(s, s', k, id, DisconnectAnswer);
        assert forall o, t :: Holds(s', o, t) <==> Holds(s, o, t);
      case Some(t) =>
        UnansweredStep(s, s', k);
        TakenFromSlot(s, s', k, t);
    }
  }

  lemma CloseKeeps(s: System, k: HandlerId)
    requires Inv(s) && Enabled(s, Close(k))
    ensures Inv(Step(s, Close(k)))
  {
    var s' := Step(s, Close(k));
    NoneCurrent(s, s');
    UnansweredStep(s, s', k);
    match s.inner.tunnel {
      case None => assert forall o, t :: Holds(s', o, t) <==> Holds(s, o, t);
      case Some(t) => TakenFromSlot(s, s', k, t);
    }
  }

  lemma CreatedKeeps(s: System, k: HandlerId, t: TunnelId)
    requires Inv(s) && Enabled(s, Created(k, Ok(t)))
    ensures Inv(Step(s, Created(k, Ok(t))))
  {
    var s' := Step(s, Created(k, Ok(t)));
    UnansweredStep(s, s', k);
    forall o, u ensures Holds(s', o, u) <==> (if u == t then o == InFlight(k) else Holds(s, o, u)) {
      if u == t { assert !Holds(s, o, t); }
    }
    assert CurrentConnect(s') <==> CurrentConnect(s) by {
      assert forall l :: l in s.handlers && IsConnect(s.handlers[l]) <==> l in s'.handlers && IsConnect(s'.handlers[l]);
      assert forall l :: l in s.handlers && IsConnect(s.handlers[l]) ==>
             s.handlers[l].generation == s'.handlers[l].generation;
    }
  }

  /** The built tunnel goes into the slot: its connect was not cancelled. */
  lemma StoreKeeps(s: System, k: HandlerId, listeners: Listeners)
    requires Inv(s) && k in s.handlers && s.handlers[k].Dialing? && s.handlers[k].generation == s.inner.generation
    ensures Inv(Settle(s, k, s.handlers[k].id, s.handlers[k].generation, Built(s.handlers[k].tunnel, listeners)))
  {
    var h := s.handlers[k];
    var s' := Settle(s, k, h.id, h.generation, Built(h.tunnel, listeners));
    AnsweredOnce(s, s', k, h.id, ConnectAnswer(listeners));
    assert Holds(s, InFlight(k), h.tunnel);
    assert CurrentConnect(s);
    forall o, u ensures Holds(s', o, u) <==> (if u == h.tunnel then o == Slot else Holds(s, o, u)) {
      if u == h.tunnel && Holds(s, o, u) { assert o == InFlight(k); }
    }
  }

  /** A cancelled or failed connect hands its tunnel to its own shutdown. */
  lemma DiscardKeeps(s: System, k: HandlerId, outcome: Outcome)
    requires Inv(s) && k in s.handlers && s.handlers[k].Dialing?
    requires outcome.Built? ==> outcome.tunnel == s.handlers[k].tunnel && s.handlers[k].generation != s.inner.generation
    requires outcome.NotBuilt? ==> outcome.half == Some(s.handlers[k].tunnel)
    ensures Inv(Settle(s, k, s.handlers[k].id, s.handlers[k].generation, outcome))
  {
    var h := s.handlers[k];
    var s' := Settle(s, k, h.id, h.generation, outcome);
    UnansweredStep(s, s', k);
    assert Holds(s, InFlight(k), h.tunnel);
    SettledQuiet(s, s', k);
    forall o, u ensures Holds(s', o, u) <==> (if u == h.tunnel then o == Ending(k) else Holds(s, o, u)) {
      if u == h.tunnel && Holds(s, o, u) { assert o == InFlight(k); }
    }
  }

  /** A connect whose tunnel was never built leaves nothing behind. */
  lemma NeverBuiltKeeps(s: System, k: HandlerId, code: ErrorCode)
    requires Inv(s) && k in s.handlers && s.handlers[k].Creating?
    ensures Inv(Settle(s, k, s.handlers[k].id, s.handlers[k].generation, NotBuilt(None, code)))
  {
    var h := s.handlers[k];
    var s' := Settle(s, k, h.id, h.generation, NotBuilt(None, code));
    AnsweredOnce(s, s', k, h.id, ErrorAnswer(code));
    assert s.inner.tunnel.None? by { assert s.inner.connecting; }
    SettledQuiet(s, s', k);
    assert forall o, u :: Holds(s', o, u) <==> Holds(s, o, u);
  }

  /** Once the only connect in flight has landed without a tunnel, nothing is current. */
  lemma SettledQuiet(s: System, s': System, k: HandlerId)
    requires Inv(s) && k in s.handlers && IsConnect(s.handlers[k])
    requires k in s'.handlers && !IsConnect(s'.handlers[k]) && s'.handlers == s.handlers[k := s'.handlers[k]]
    requires s'.sinks == s.sinks
    requires s'.inner == (if s.handlers[k].generation == s.inner.generation
                          then s.inner.(connecting := false, generation := s.inner.generation + 1,
                                        state := Disconnected)
                          else s.inner.(connecting := false))
    ensures Quiet(s')
  {
    assert s.inner.connecting && s.inner.tunnel.None?;
    assert forall l :: l in s.handlers && IsConnect(s.handlers[l]) ==> l == k;
    if s.handlers[k].generation != s.inner.generation {
      assert !CurrentConnect(s);
    }
  }

  lemma StoppedOwned(s: System, k: HandlerId)
    requires Owned(s) && Enabled(s, Stopped(k))
    ensures Owned(Step(s, Stopped(k)))
  {
    var t := s.handlers[k].tunnel;
    var s' := Step(s, Stopped(k));
    assert Holds(s, Ending(k), t);
    forall o, u ensures Holds(s', o, u) <==> (if u == t then o == Gone else Holds(s, o, u)) {
      if u == t && Holds(s, o, u) { assert o == Ending(k); }
    }
  }

  lemma StoppedKeeps(s: System, k: HandlerId)
    requires Inv(s) && Enabled(s, Stopped(k))
    ensures Inv(Step(s, Stopped(k)))
  {
    var h := s.handlers[k];
    var s' := Step(s, Stopped(k));
    if h.Stopping? { AnsweredOnce(s, s', k, h.id, h.answer); } else { UnansweredStep(s, s', k); }
    StoppedOwned(s, k);
    BystanderKeeps(s, s', k);
  }

  lemma ReportKeeps(s: System, g: nat, state: HostState)
    requires Inv(s) && Enabled(s, Report(g, state))
    ensures Inv(Step(s, Report(g, state)))
  {
    var s' := Step(s, Report(g, state));
    assert forall o, u :: Holds(s', o, u) <==> Holds(s, o, u);
    assert CurrentConnect(s') <==> CurrentConnect(s);
    forall l | l in s'.handlers && s'.handlers[l].Done? ensures HasAnswer(s', l) {
      assert HasAnswer(s, l);
      var i :| 0 <= i < |s.outbox| && s.outbox[i].Answer? && s.outbox[i].handler == l;
      assert s'.outbox[i] == s.outbox[i];
    }
  }

  /** Every enabled step keeps the invariant. */
  lemma StepKeeps(s: System, e: Event)
    requires Inv(s) && Enabled(s, e)
    ensures Inv(Step(s, e))
  {
    match e {
      case Arrive(k, id, request) => ArriveKeeps(s, k, id, request);
      case Close(k) => CloseKeeps(s, k);
      case Created(k, Ok(t)) => CreatedKeeps(s, k, t);
      case Created(k, Err(code)) => NeverBuiltKeeps(s, k, code);
      case Dialed(k, dialed) =>
        var h := s.handlers[k];
        var outcome := Landed(h.tunnel, dialed);
        if outcome.Built? && h.generation == s.inner.generation {
          StoreKeeps(s, k, outcome.listeners);
        } else {
          DiscardKeeps(s, k, outcome);
        }
      case Stopped(k) => StoppedKeeps(s, k);
      case Told(k, told) =>
        ReplyKeeps(s, k, s.handlers[k].id, if told.Ok? then BackendAnswer(told.value) else ErrorAnswer(told.error));
      case Report(g, state) => ReportKeeps(s, g, state);
    }
  }

  lemma ArriveKeeps(s: System, k: HandlerId, id: string, request: Request)
    requires Inv(s) && k !in s.handlers
    ensures Inv(Arrived(s, k, id, request))
  {
    match request {
      case Hello(ours, named) =>
        if ours && named.Ok? {
          ChannelKeeps(s, named.value);
          ReplyKeeps(s.(inner := s.inner.(channel := named.value)), k, id, HelloAnswer);
        } else {
          ReplyKeeps(s, k, id, ErrorAnswer(Protocol));
        }
      case Status(route) =>
        ReplyKeeps(s, k, id, StatusAnswer(s.inner.state, s.inner.endpoints, s.inner.exit, route));
      case Connect => ConnectKeeps(s, k, id);
      case Disconnect => DisconnectKeeps(s, k, id);
      case Ask => AskKeeps(s, k, id);
      case Refused => ReplyKeeps(s, k, id, ErrorAnswer(Protocol));
    }
  }

  lemma ChannelKeeps(s: System, channel: Option<string>)
    requires Inv(s)
    ensures Inv(s.(inner := s.inner.(channel := channel)))
  {
    var s' := s.(inner := s.inner.(channel := channel));
    assert forall o, t :: Holds(s', o, t) <==> Holds(s, o, t);
    assert CurrentConnect(s') <==> CurrentConnect(s);
    assert forall k :: HasAnswer(s', k) <==> HasAnswer(s, k);
  }

  // ---- what holds of every run -----------------------------------------------

  lemma {:induction false} RunKeeps(s: System, es: seq<Event>)
    requires Inv(s) && IsRun(s, es)
    ensures Inv(Run(s, es))
    decreases |es|
  {
    if es != [] {
      StepKeeps(s, es[0]);
      RunKeeps(Step(s, es[0]), es[1..]);
    }
  }

  lemma BootIsSafe()
    ensures Inv(BOOT)
  {
  }

  /** Every tunnel ever built has exactly one owner: its connect, the slot, or a shutdown. */
  lemma ExactlyOneOwner(es: seq<Event>, t: TunnelId)
    requires IsRun(BOOT, es) && t in Run(BOOT, es).tunnels
    ensures exists o :: Holds(Run(BOOT, es), o, t)
    ensures forall o, o' :: Holds(Run(BOOT, es), o, t) && Holds(Run(BOOT, es), o', t) ==> o == o'
  {
    BootIsSafe();
    RunKeeps(BOOT, es);
    assert Holds(Run(BOOT, es), Run(BOOT, es).tunnels[t].owner, t);
  }

  /** The stored tunnel is of the current generation; two connects are never in flight. */
  lemma StoredIsCurrent(es: seq<Event>)
    requires IsRun(BOOT, es)
    ensures
      var s := Run(BOOT, es);
      && (s.inner.tunnel.Some? ==>
            && s.inner.tunnel.value in s.tunnels && s.tunnels[s.inner.tunnel.value].generation == s.inner.generation
            && forall k :: k in s.handlers ==> !IsConnect(s.handlers[k]))
      && forall k, l :: k in s.handlers && l in s.handlers && IsConnect(s.handlers[k]) && IsConnect(s.handlers[l]) ==>
           k == l
  {
    BootIsSafe();
    RunKeeps(BOOT, es);
  }

  /** With no tunnel and no current connect, a status answer is `disconnected` and names nothing. */
  lemma IdleReportsDisconnected(es: seq<Event>)
    requires IsRun(BOOT, es)
    requires Run(BOOT, es).inner.tunnel.None? && !CurrentConnect(Run(BOOT, es))
    ensures
      var i := Run(BOOT, es).inner;
      i.state == Disconnected && i.endpoints.None? && i.exit.None?
  {
    BootIsSafe();
    RunKeeps(BOOT, es);
  }

  /** Closing is for good: after it no tunnel is ever stored again. */
  lemma {:induction false} NothingStoredAfterClose(s: System, es: seq<Event>)
    requires Inv(s) && s.inner.closed && IsRun(s, es)
    ensures Run(s, es).inner.closed && Run(s, es).inner.tunnel.None?
    decreases |es|
  {
    if es != [] {
      StepKeeps(s, es[0]);
      NothingStoredAfterClose(Step(s, es[0]), es[1..]);
    }
  }

  /**
   No event of a torn-down or failed generation enters the outbox once that generation was
   bumped: whatever a run appends is of the generation it started from or a later one.
   */
  lemma {:induction false} NoStaleEvents(s: System, es: seq<Event>)
    requires IsRun(s, es)
    ensures s.outbox <= Run(s, es).outbox && s.inner.generation <= Run(s, es).inner.generation
    ensures forall i :: |s.outbox| <= i < |Run(s, es).outbox| && Run(s, es).outbox[i].StateEvent? ==>
              Run(s, es).outbox[i].generation >= s.inner.generation
    decreases |es|
  {
    if es != [] {
      var next := Step(s, es[0]);
      StepAppends(s, es[0]);
      NoStaleEvents(next, es[1..]);
      var out := Run(next, es[1..]).outbox;
      forall i | |s.outbox| <= i < |out| && out[i].StateEvent? ensures out[i].generation >= s.inner.generation {
        if i < |next.outbox| { assert out[i] == next.outbox[i]; }
      }
    }
  }

  /** A step appends at most one message, and a state event is of the current generation. */
  lemma StepAppends(s: System, e: Event)
    requires Enabled(s, e)
    ensures s.inner.generation <= Step(s, e).inner.generation
    ensures Step(s, e).outbox == s.outbox
            || exists m: Message :: Step(s, e).outbox == s.outbox + [m]
                                    && (m.StateEvent? ==> m.generation == s.inner.generation)
  {
  }

  /** A finished request has one answer, carrying its own id; an unfinished one has none. */
  lemma AnsweredExactlyOnce(es: seq<Event>, k: HandlerId)
    requires IsRun(BOOT, es) && k in Run(BOOT, es).handlers
    ensures
      var s := Run(BOOT, es);
      && (s.handlers[k].Done? <==> HasAnswer(s, k))
      && forall i, j :: 0 <= i < |s.outbox| && 0 <= j < |s.outbox| && s.outbox[i].Answer? && s.outbox[j].Answer?
                        && s.outbox[i].handler == k == s.outbox[j].handler ==>
           i == j && s.outbox[i].id == s.handlers[k].id
  {
    BootIsSafe();
    RunKeeps(BOOT, es);
  }

  // ---- every request gets there ------------------------------------------------

  /** How many awaits a handler still has ahead of it. */
  function AwaitsLeft(h: Handler): nat {
    match h
    case Creating(_, _) => 3
    case Dialing(_, _, _) => 2
    case Asking(_) => 1
    case Stopping(_, _, _) => 1
    case Closing(_) => 1
    case Closed => 0
    case Done(_) => 0
  }

  predicate Resumes(e: Event, k: HandlerId) {
    (e.Created? || e.Dialed? || e.Stopped? || e.Told?) && e.handler == k
  }

  /** An unfinished handler is always waiting for something, and what it waits for moves it on. */
  lemma AwaitsRunOut(s: System, k: HandlerId, e: Event)
    requires k in s.handlers && AwaitsLeft(s.handlers[k]) > 0 && Resumes(e, k) && Enabled(s, e)
    ensures k in Step(s, e).handlers && AwaitsLeft(Step(s, e).handlers[k]) < AwaitsLeft(s.handlers[k])
    ensures forall l :: l in s.handlers && l != k ==>
            l in Step(s, e).handlers && Step(s, e).handlers[l] == s.handlers[l]
  {
  }

  /** No other step touches it. */
  lemma OthersLeaveItWaiting(s: System, k: HandlerId, e: Event)
    requires k in s.handlers && Enabled(s, e) && !Resumes(e, k)
    ensures k in Step(s, e).handlers && Step(s, e).handlers[k] == s.handlers[k]
  {
  }

  /** How often a run resumes a handler. */
  function Resumptions(es: seq<Event>, k: HandlerId): nat {
    if es == [] then 0 else (if Resumes(es[0], k) then 1 else 0) + Resumptions(es[1..], k)
  }

  /** In every run a handler is resumed at most three times, and each time brings it closer to its answer. */
  lemma {:induction false} AtMostThreeResumptions(s: System, es: seq<Event>, k: HandlerId)
    requires IsRun(s, es) && k in s.handlers
    ensures k in Run(s, es).handlers
    ensures Resumptions(es, k) + AwaitsLeft(Run(s, es).handlers[k]) <= AwaitsLeft(s.handlers[k]) <= 3
    decreases |es|
  {
    if es != [] {
      if Resumes(es[0], k) { AwaitsRunOut(s, k, es[0]); } else { OthersLeaveItWaiting(s, k, es[0]); }
      AtMostThreeResumptions(Step(s, es[0]), es[1..], k);
    }
  }

  /** Some number is no tunnel's. */
  lemma {:induction false} UnusedTunnel(taken: set<TunnelId>) returns (unused: TunnelId)
    ensures forall t :: t in taken ==> t < unused
    decreases taken
  {
    unused := 0;
    if taken != {} {
      var t :| t in taken;
      var rest := UnusedTunnel(taken - {t});
      unused := if t < rest then rest else t + 1;
      assert forall u :: u in taken ==> u == t || u in taken - {t};
    }
  }

  /**
   From wherever it waits, a handler has an enabled event that resumes it, and resuming it
   alone, three times at the most, finishes it.
   */
  lemma {:induction false} CanAlwaysFinish(s: System, k: HandlerId) returns (es: seq<Event>)
    requires k in s.handlers
    ensures IsRun(s, es) && |es| == Resumptions(es, k) <= 3
    ensures AwaitsLeft(s.handlers[k]) > 0 ==> es != []
    ensures k in Run(s, es).handlers && AwaitsLeft(Run(s, es).handlers[k]) == 0
    decreases AwaitsLeft(s.handlers[k])
  {
    es := [];
    if AwaitsLeft(s.handlers[k]) > 0 {
      var unused := UnusedTunnel(s.tunnels.Keys);
      var e := match s.handlers[k]
        case Creating(_, _) => Created(k, Ok(unused))
        case Dialing(_, _, _) => Dialed(k, Err(Protocol))
        case Asking(_) => Told(k, Err(Protocol))
        case _ => Stopped(k);
      AwaitsRunOut(s, k, e);
      var rest := CanAlwaysFinish(Step(s, e), k);
      es := [e] + rest;
      assert es[1..] == rest;
      AtMostThreeResumptions(s, es, k);
    }
  }
}
