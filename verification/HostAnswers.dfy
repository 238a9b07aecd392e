/**
 What the native host answers (`session.rs`): for every step that any interleaving can take,
 which message enters the outbox, and when a connect is told that it is up.
 */
module HostAnswers {
  import opened Results
  import opened HostSession
  import opened HostRuns

  /** The request of `k` is answered with `body`, under its id, and is done. */
  predicate Replies(s: System, s': System, k: HandlerId, id: string, body: Body) {
    s'.outbox == s.outbox + [Answer(k, id, body)] && k in s'.handlers && s'.handlers[k] == Done(id)
  }

  /** `k` goes on to shut `t` down, and to answer with `body` after that. */
  predicate Parks(s: System, s': System, k: HandlerId, id: string, t: TunnelId, body: Body) {
    s'.outbox == s.outbox && k in s'.handlers && s'.handlers[k] == Stopping(id, t, body)
  }

  /** Nothing is said, and `k` waits as `h`. */
  predicate Waits(s: System, s': System, k: HandlerId, h: Handler) {
    s'.outbox == s.outbox && k in s'.handlers && s'.handlers[k] == h
  }

  predicate HasCredentials(l: Listeners) {
    |l.username| > 0 && |l.password| > 0
  }

  /** The session holds `t` and reports the listeners it was dialed with. */
  predicate Up(i: Inner, t: TunnelId, l: Listeners) {
    i.tunnel == Some(t) && i.endpoints == Some(l.endpoints) && i.exit == l.exit && i.state == Connected && !i.connecting
  }

  /** What a request is due on arrival. */
  predicate ArrivalDue(s: System, s': System, k: HandlerId, id: string, request: Request) {
    match request
    case Hello(ours, named) =>
      && Replies(s, s', k, id, if ours && named.Ok? then HelloAnswer else ErrorAnswer(Protocol))
      && s'.inner == s.inner.(channel := if ours && named.Ok? then named.value else s.inner.channel)
    case Status(route) =>
      Replies(s, s', k, id, StatusAnswer(s.inner.state, s.inner.endpoints, s.inner.exit, route)) && s'.inner == s.inner
    case Connect =>
      if s.inner.closed then Replies(s, s', k, id, ErrorAnswer(Tunnel)) && s'.inner == s.inner
      else if s.inner.connecting || s.inner.tunnel.Some? then
        Replies(s, s', k, id, ErrorAnswer(AlreadyConnected)) && s'.inner == s.inner
      else Waits(s, s', k, Creating(id, s.inner.generation + 1)) && s'.inner.generation == s.inner.generation + 1
    case Disconnect =>
      && (if s.inner.tunnel.None? then Replies(s, s', k, id, DisconnectAnswer)
          else Parks(s, s', k, id, s.inner.tunnel.value, DisconnectAnswer))
      && s'.inner.generation > s.inner.generation && s'.inner.tunnel.None?
    case Ask => Waits(s, s', k, Asking(id))
    case Refused => Replies(s, s', k, id, ErrorAnswer(Protocol)) && s'.inner == s.inner
  }

  /** What a connect is due when its dialing ends. */
  predicate DialDue(s: System, s': System, k: HandlerId, h: Handler, dialed: Result<Listeners, ErrorCode>)
    requires h.Dialing?
  {
    match dialed
    case Err(code) => Parks(s, s', k, h.id, h.tunnel, ErrorAnswer(code)) && s'.inner.tunnel == s.inner.tunnel
    case Ok(l) =>
      if !HasCredentials(l) then
        Parks(s, s', k, h.id, h.tunnel, ErrorAnswer(Protocol)) && s'.inner.tunnel == s.inner.tunnel
      else if h.generation != s.inner.generation then
        Parks(s, s', k, h.id, h.tunnel, ErrorAnswer(Tunnel)) && s'.inner.tunnel == s.inner.tunnel
      else Replies(s, s', k, h.id, ConnectAnswer(l)) && Up(s'.inner, h.tunnel, l)
  }

  /** What every step is due. */
  predicate Due(s: System, e: Event, s': System)
    requires Enabled(s, e)
  {
    match e
    case Arrive(k, id, request) => ArrivalDue(s, s', k, id, request)
    case Close(k) => s'.outbox == s.outbox && s'.inner.tunnel.None? && s'.inner.closed
    case Created(k, Ok(t)) => Waits(s, s', k, Dialing(s.handlers[k].id, s.handlers[k].generation, t))
    case Created(k, Err(code)) => Replies(s, s', k, s.handlers[k].id, ErrorAnswer(code))
    case Dialed(k, dialed) => DialDue(s, s', k, s.handlers[k], dialed)
    case Stopped(k) =>
      var h := s.handlers[k];
      if h.Stopping? then Replies(s, s', k, h.id, h.answer) else Waits(s, s', k, Closed)
    case Told(k, told) =>
      Replies(s, s', k, s.handlers[k].id, if told.Ok? then BackendAnswer(told.value) else ErrorAnswer(told.error))
    case Report(g, state) =>
      if g == s.inner.generation then s'.outbox == s.outbox + [StateEvent(g, state)] && s'.inner.state == state
      else s'.outbox == s.outbox && s'.inner == s.inner
  }

  /** Every step answers what is due, and nothing else. */
  lemma StepSaysWhatIsDue(s: System, e: Event)
    requires Enabled(s, e)
    ensures Due(s, e, Step(s, e))
  {
    match e {
      case Arrive(k, id, request) =>
      case Dialed(k, dialed) =>
      case _ =>
    }
  }

  // ---- who is told that a connect is up -------------------------------------------------------

  /** No handler shutting a tunnel down has a connect's success to tell. */
  ghost predicate NoneParkedUp(s: System) {
    forall k :: k in s.handlers && s.handlers[k].Stopping? ==> !s.handlers[k].answer.ConnectAnswer?
  }

  lemma StepParksNoSuccess(s: System, e: Event)
    requires NoneParkedUp(s) && Enabled(s, e)
    ensures NoneParkedUp(Step(s, e))
  {
  }

  lemma {:induction false} RunParksNoSuccess(s: System, es: seq<Event>)
    requires NoneParkedUp(s) && IsRun(s, es)
    ensures NoneParkedUp(Run(s, es))
    decreases |es|
  {
    if es != [] {
      StepParksNoSuccess(s, es[0]);
      RunParksNoSuccess(Step(s, es[0]), es[1..]);
    }
  }

  /** `e` is the successful end of the dialing of `k`, not cancelled meanwhile. */
  predicate Lands(s: System, e: Event, k: HandlerId, l: Listeners) {
    && e == Dialed(k, Ok(l)) && HasCredentials(l)
    && k in s.handlers && s.handlers[k].Dialing? && s.handlers[k].generation == s.inner.generation
  }

  /**
   After every run, a step tells `k` that its connect is up exactly when its dialing ends there,
   with credentials and under the current generation; the slot then holds its tunnel.
   */
  lemma ConnectToldExactlyWhenUp(es: seq<Event>, e: Event, k: HandlerId, id: string, l: Listeners)
    requires IsRun(BOOT, es) && Enabled(Run(BOOT, es), e)
    ensures var s := Run(BOOT, es);
            Step(s, e).outbox == s.outbox + [Answer(k, id, ConnectAnswer(l))] <==>
              Lands(s, e, k, l) && id == s.handlers[k].id
    ensures var s := Run(BOOT, es); Lands(s, e, k, l) ==> Up(Step(s, e).inner, s.handlers[k].tunnel, l)
  {
    var s := Run(BOOT, es);
    RunParksNoSuccess(BOOT, es);
    StepSaysWhatIsDue(s, e);
    if Step(s, e).outbox == s.outbox + [Answer(k, id, ConnectAnswer(l))] {
      assert Step(s, e).outbox[|s.outbox|] == Answer(k, id, ConnectAnswer(l));
    }
  }

  /** A stored tunnel's addresses and exit are those some connect was answered with. */
  ghost predicate StoredWasTold(s: System) {
    s.inner.tunnel.Some? ==> exists i :: 0 <= i < |s.outbox| && Tells(s.outbox[i], s.inner)
  }

  predicate Tells(m: Message, i: Inner) {
    && m.Answer? && m.body.ConnectAnswer?
    && i.endpoints == Some(m.body.listeners.endpoints) && i.exit == m.body.listeners.exit
  }

  lemma StepKeepsTold(s: System, e: Event)
    requires StoredWasTold(s) && Enabled(s, e)
    ensures StoredWasTold(Step(s, e))
  {
    var s' := Step(s, e);
    StepSaysWhatIsDue(s, e);
    if s'.inner.tunnel.Some? {
      if e.Dialed? && e.dialed.Ok? && Lands(s, e, e.handler, e.dialed.value) {
        assert Tells(s'.outbox[|s.outbox|], s'.inner);
      } else {
        SlotUntouched(s, e);
        var i :| 0 <= i < |s.outbox| && Tells(s.outbox[i], s.inner);
        assert s'.outbox[i] == s.outbox[i];
      }
    }
  }

  /** Only a landing connect puts a tunnel into the slot, and what is reported of one stays while it is there. */
  lemma SlotUntouched(s: System, e: Event)
    requires Enabled(s, e) && Step(s, e).inner.tunnel.Some?
    requires !(e.Dialed? && e.dialed.Ok? && Lands(s, e, e.handler, e.dialed.value))
    ensures Step(s, e).inner.tunnel == s.inner.tunnel
    ensures Step(s, e).inner.endpoints == s.inner.endpoints && Step(s, e).inner.exit == s.inner.exit
    ensures s.outbox <= Step(s, e).outbox
  {
  }

  lemma {:induction false} RunKeepsTold(s: System, es: seq<Event>)
    requires StoredWasTold(s) && IsRun(s, es)
    ensures StoredWasTold(Run(s, es))
    decreases |es|
  {
    if es != [] {
      StepKeepsTold(s, es[0]);
      RunKeepsTold(Step(s, es[0]), es[1..]);
    }
  }

  /** After every run a status of a stored tunnel names the addresses and the exit its connect was answered with. */
  lemma StatusTellsTheConnect(es: seq<Event>, k: HandlerId, id: string, route: string)
    requires IsRun(BOOT, es) && k !in Run(BOOT, es).handlers && Run(BOOT, es).inner.tunnel.Some?
    ensures var s := Run(BOOT, es);
            exists m :: m in s.outbox && Tells(m, s.inner)
              && var told := m.body.listeners;
                 Step(s, Arrive(k, id, Status(route))).outbox
                 == s.outbox + [Answer(k, id, StatusAnswer(s.inner.state, Some(told.endpoints), told.exit, route))]
  {
    var s := Run(BOOT, es);
    RunKeepsTold(BOOT, es);
    StepSaysWhatIsDue(s, Arrive(k, id, Status(route)));
    var i :| 0 <= i < |s.outbox| && Tells(s.outbox[i], s.inner);
    assert s.outbox[i] in s.outbox;
  }
}
