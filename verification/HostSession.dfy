/**
 One browser connection of the native host (`session.rs`): the fields behind its mutex and
 the sections of code that run under the lock. Everything between two locked sections of a
 request handler is an await, which `HostRuns` interleaves.
 */
module HostSession {
  import opened Results

  type TunnelId = nat

  datatype HostState = Connecting | Connected | Reconnecting | Draining | Failed | Disconnected

  datatype ErrorCode = Protocol | AlreadyConnected | Tunnel | Backend(code: string)

  datatype Listeners = Listeners(endpoints: string, username: string, password: string, exit: Option<string>)

  /** What a request is answered with. */
  datatype Body =
    | HelloAnswer
    | StatusAnswer(state: HostState, endpoints: Option<string>, exit: Option<string>, route: string)
    | ConnectAnswer(listeners: Listeners)
    | DisconnectAnswer
    | BackendAnswer(value: string)
    | ErrorAnswer(code: ErrorCode)

  /** The fields under the mutex. */
  datatype Inner = Inner(
    state: HostState, endpoints: Option<string>, exit: Option<string>, tunnel: Option<TunnelId>,
    connecting: bool, closed: bool, channel: Option<string>, generation: nat)

  const START := Inner(Disconnected, None, None, None, false, false, None, 0)

  /** How a connect's build ended: with listeners, or with an error and maybe a half-built tunnel. */
  datatype Outcome = Built(tunnel: TunnelId, listeners: Listeners) | NotBuilt(half: Option<TunnelId>, code: ErrorCode)

  // ---- the locked sections -------------------------------------------------

  /** A connect starts: refused once closed or while a tunnel is up or coming up. */
  function Begun(i: Inner): (Result<nat, ErrorCode>, Inner) {
    if i.closed then (Err(Tunnel), i)
    else if i.connecting || i.tunnel.Some? then (Err(AlreadyConnected), i)
    else (Ok(i.generation + 1), i.(connecting := true, generation := i.generation + 1))
  }

  /** A connect of `generation` lands: a tunnel that must not live comes back out. */
  function Settled(i: Inner, generation: nat, outcome: Outcome): (Inner, Option<TunnelId>, Body) {
    var freed := i.(connecting := false);
    match outcome
    case Built(tunnel, listeners) =>
      if i.generation == generation then
        (freed.(tunnel := Some(tunnel), endpoints := Some(listeners.endpoints), exit := listeners.exit,
                state := Connected),
         None, ConnectAnswer(listeners))
      else
        (freed, Some(tunnel), ErrorAnswer(Tunnel))
    case NotBuilt(half, code) =>
      (if i.generation == generation then freed.(generation := i.generation + 1, state := Disconnected) else freed,
       half, ErrorAnswer(code))
  }

  /** A teardown takes the tunnel out and moves the generation on. */
  function TornDown(i: Inner): (Inner, Option<TunnelId>) {
    (i.(generation := i.generation + 1, endpoints := None, exit := None, state := Disconnected, tunnel := None),
     i.tunnel)
  }

  /** A state report of `generation`: dropped unless that generation is the current one. */
  function Reported(i: Inner, generation: nat, state: HostState): (Inner, bool) {
    if i.generation != generation then (i, false) else (i.(state := state), true)
  }

  /** Credentials a connect refuses to hand on: either half empty. */
  function Landed(tunnel: TunnelId, dialed: Result<Listeners, ErrorCode>): Outcome {
    match dialed
    case Err(code) => NotBuilt(Some(tunnel), code)
    case Ok(l) =>
      if |l.username| == 0 || |l.password| == 0 then NotBuilt(Some(tunnel), Protocol) else Built(tunnel, l)
  }

  // ---- the session object ----------------------------------------------------

  class Session {
    var state: HostState
    var endpoints: Option<string>
    var exit: Option<string>
    var tunnel: Option<TunnelId>
    var connecting: bool
    var closed: bool
    var channel: Option<string>
    var generation: nat

    ghost function View(): Inner
      reads this
    {
      Inner(state, endpoints, exit, tunnel, connecting, closed, channel, generation)
    }

    constructor ()
      ensures View() == START
    {
      state, endpoints, exit, tunnel := Disconnected, None, None, None;
      connecting, closed, channel, generation := false, false, None, 0;
    }

    /** `hello`: another protocol or an unknown channel is refused and changes nothing. */
    method Hello(speaksOurs: bool, named: Result<Option<string>, ()>) returns (answer: Body)
      modifies this`channel
      ensures speaksOurs && named.Ok? ==> answer == HelloAnswer && channel == named.value
      ensures !(speaksOurs && named.Ok?) ==> answer == ErrorAnswer(Protocol) && channel == old(channel)
    {
      if !speaksOurs {
        return ErrorAnswer(Protocol);
      }
      match named {
        case Err(_) => return ErrorAnswer(Protocol);
        case Ok(c) =>
          channel := c;
          return HelloAnswer;
      }
    }

    method BeginConnect() returns (r: Result<nat, ErrorCode>)
      modifies this
      ensures (r, View()) == Begun(old(View()))
    {
      if closed {
        return Err(Tunnel);
      }
      if connecting || tunnel.Some? {
        return Err(AlreadyConnected);
      }
      connecting := true;
      generation := generation + 1;
      return Ok(generation);
    }

    method SettleConnect(mine: nat, outcome: Outcome) returns (discard: Option<TunnelId>, answer: Body)
      modifies this
      ensures (View(), discard, answer) == Settled(old(View()), mine, outcome)
    {
      connecting := false;
      var current := generation == mine;
      match outcome {
        case Built(built, listeners) =>
          if current {
            tunnel := Some(built);
            endpoints := Some(listeners.endpoints);
            exit := listeners.exit;
            state := Connected;
            return None, ConnectAnswer(listeners);
          }
          return Some(built), ErrorAnswer(Tunnel);
        case NotBuilt(half, code) =>
          if current {
            generation := generation + 1;
            state := Disconnected;
          }
          return half, ErrorAnswer(code);
      }
    }

    method TearDown() returns (taken: Option<TunnelId>)
      modifies this
      ensures (View(), taken) == TornDown(old(View()))
    {
      generation := generation + 1;
      endpoints := None;
      exit := None;
      state := Disconnected;
      taken := tunnel;
      tunnel := None;
    }

    method Close() returns (taken: Option<TunnelId>)
      modifies this
      ensures (View(), taken) == TornDown(old(View()).(closed := true))
    {
      closed := true;
      taken := TearDown();
    }

    /** A state sink fires; `queued` tells whether the event entered the outbox. */
    method Report(mine: nat, reported: HostState) returns (queued: bool)
      modifies this
      ensures (View(), queued) == Reported(old(View()), mine, reported)
    {
      if generation != mine {
        return false;
      }
      state := reported;
      return true;
    }
  }
}
