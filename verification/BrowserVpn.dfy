/**
 The browser VPN controller (`client.ts` of the extension) on Chromium: its fields, the
 browser's proxy setting, and the native host behind its port. Public calls are serialized;
 what interleaves with one is a list of environment events at each of its awaits.
 */
module BrowserVpn {
  import opened Results

  /** Every spawned host process is a new one. */
  type HostId = nat

  /** What the extension points the browser at: nothing that answers, or a host's HTTP listener. */
  datatype Value = Lockdown | Listener(host: HostId)

  /** The browser's proxy setting: nobody's, or this extension's. */
  datatype Setting = Unset | Ours(value: Value)

  datatype Endpoints = Endpoints(host: HostId, http: Option<string>, socks5: string)

  /** Listener credentials and the host that minted them. */
  datatype Auth = Auth(host: HostId, secret: string)

  datatype Vpn = Vpn(
    port: Option<HostId>, portDead: bool, greeted: bool,
    proxied: bool, tunnelUp: bool, endpoints: Option<Endpoints>, auth: Option<Auth>,
    connecting: bool, questions: nat, releasing: bool,
    nextHost: HostId, setting: Setting, writes: seq<Setting>)

  /** The host `h` is attached: its port is ours and has not reported its disconnect. */
  predicate Attached(v: Vpn, h: HostId) { v.port == Some(h) && !v.portDead }

  /** The credentials handed to a challenge from `listener`. */
  function ForListener(v: Vpn, listener: string): Option<Auth> {
    if v.auth.None? || v.endpoints.None? then None
    else if v.endpoints.value.http == Some(listener) || v.endpoints.value.socks5 == listener then v.auth
    else None
  }

  /** A write to the proxy setting; `Unset` is a clear. */
  function Put(v: Vpn, setting: Setting): Vpn {
    v.(setting := setting, writes := v.writes + [setting])
  }

  // ---- the port ------------------------------------------------------------

  function OpenPort(v: Vpn): Vpn {
    if v.port.Some? && !v.portDead then v
    else v.(port := Some(v.nextHost), portDead := false, greeted := false, nextHost := v.nextHost + 1)
  }

  function ClosePort(v: Vpn): Vpn { v.(port := None, portDead := false) }

  /** The port reports its disconnect. Only the host of a live tunnel is a lost host. */
  function HostGone(v: Vpn): Vpn {
    var lost := v.tunnelUp && !v.releasing;
    var gone := v.(portDead := true, tunnelUp := false, auth := None);
    if lost then Put(gone, Ours(Lockdown)) else gone
  }

  /**
   What may happen while a call awaits: the host dies; a question (status, exits, account,
   datapath) is put, its hello goes through or is refused, and it ends.
   */
  datatype Event = HostDies | Ask | HelloOk | HelloRefused | AskEnds

  function Happens(v: Vpn, e: Event): Vpn {
    match e
    case HostDies => if v.port.Some? && !v.portDead then HostGone(v) else v
    case Ask => OpenPort(v.(questions := v.questions + 1))
    case HelloOk => if v.port.Some? && !v.portDead then v.(greeted := true) else v
    case HelloRefused => if v.port.Some? && !v.portDead && !v.greeted then ClosePort(v) else v
    case AskEnds =>
      if v.questions == 0 then v
      else
        var fewer := v.(questions := v.questions - 1);
        if fewer.questions == 0 && !v.tunnelUp && !v.connecting then ClosePort(fewer) else fewer
  }

  function Await(v: Vpn, events: seq<Event>): Vpn
    decreases |events|
  {
    if events == [] then v else Await(Happens(v, events[0]), events[1..])
  }

  // ---- the public calls ------------------------------------------------------

  /** What the host answers a connect with. */
  datatype Response = HostError | Answer(http: Option<string>, socks5: string, credentials: Option<string>)

  /**
   The environment of one connect: whether the browser's setting can be read and the host
   spawned, the host's answer, and the events at each await in turn.
   */
  datatype Dial = Dial(
    readable: bool, installed: bool, response: Response,
    beforeRequest: seq<Event>, onRequest: seq<Event>, onHarden: seq<Event>,
    onRoute: seq<Event>, onVerify: seq<Event>, onRestore: seq<Event>)

  datatype Status = Connected(host: HostId) | Refused | Failed

  /** The failure path: what the extension held before is put back, anything else is cleared. */
  function Undone(v: Vpn, before: Option<Setting>, hardened: bool, d: Dial): (Vpn, Status) {
    var dropped := v.(endpoints := None, auth := None);
    var restored :=
      if !hardened then dropped
      else Await(Put(dropped, if before.Some? && before.value.Ours? then before.value else Unset), d.onRestore);
    (ClosePort(restored).(connecting := false), Failed)
  }

  /** The controller once it holds the listeners and credentials of the host's answer. */
  function Given(v: Vpn, h: HostId, d: Dial): Vpn
    requires d.response.Answer? && d.response.credentials.Some?
  {
    v.(endpoints := Some(Endpoints(h, d.response.http, d.response.socks5)),
       auth := Some(Auth(h, d.response.credentials.value)))
  }

  /** The browser once pointed at the listener and verified. */
  function Pointed(v: Vpn, h: HostId, d: Dial): Vpn {
    Await(Await(Put(v, Ours(Listener(h))), d.onRoute), d.onVerify)
  }

  /** From the host's answer on: harden, route, verify, and check the host twice. */
  function Routed(v: Vpn, h: HostId, before: Option<Setting>, d: Dial): (Vpn, Status)
    requires d.response.Answer?
  {
    if d.response.credentials.None? then Undone(v, before, false, d)
    else
      var hardened := Await(v, d.onHarden);
      if hardened.portDead then Undone(hardened, before, true, d)
      else
        var held := Given(hardened, h, d);
        if d.response.http.None? then Undone(held, before, true, d)
        else
          var verified := Pointed(held, h, d);
          if verified.portDead then Undone(verified, before, true, d)
          else (verified.(proxied := true, tunnelUp := true, connecting := false), Connected(h))
  }

  function Connect(v: Vpn, d: Dial): (Vpn, Status) {
    if v.connecting || v.tunnelUp then (v, Refused)
    else
      var before := if d.readable then Some(v.setting) else None;
      var asked := Await(v.(connecting := true), d.beforeRequest);
      if !d.installed && !(asked.port.Some? && !asked.portDead) then Undone(asked, before, false, d)
      else
        var spawned := OpenPort(asked);
        var h := spawned.port.value;
        var answered := Await(spawned, d.onRequest);
        // A port that died or was closed meanwhile rejected the request.
        if !Attached(answered, h) || d.response.HostError? then Undone(answered, before, false, d)
        else Routed(answered.(greeted := true), h, before, d)
  }

  /** A host still attached is told to drop its tunnel, for as long as that takes or times out. */
  function Told(v: Vpn, events: seq<Event>): Vpn {
    if v.port.Some? && !v.portDead then Await(v, events) else v
  }

  /** The tunnel is the controller's no more, answered or not. */
  function LetGo(v: Vpn): Vpn {
    ClosePort(v.(tunnelUp := false, endpoints := None, auth := None)).(releasing := false)
  }

  function Reconnect(v: Vpn, onBlock: seq<Event>, onRelease: seq<Event>, d: Dial): (Vpn, Status) {
    if !v.tunnelUp then Connect(v, d)
    else if v.connecting then (v, Refused)
    else
      var blocked := Await(Put(v, Ours(Lockdown)), onBlock);
      Connect(LetGo(Told(blocked.(releasing := true), onRelease)), d)
  }

  function ApplySplit(v: Vpn, onRoute: seq<Event>, onVerify: seq<Event>): (Vpn, Status) {
    if !v.tunnelUp || v.endpoints.None? then (v, Refused)
    else if v.endpoints.value.http.None? then (v, Failed)
    else
      var h := v.endpoints.value.host;
      (Await(Await(Put(v, Ours(Listener(h))), onRoute), onVerify), Connected(h))
  }

  function Disconnect(v: Vpn, onRelease: seq<Event>, onClear: seq<Event>): Vpn {
    var told := Told(v.(releasing := true), onRelease);
    var cleared := Await(Put(told, Unset), onClear);
    LetGo(cleared.(proxied := false))
  }

  // ---- the controller object ---------------------------------------------------

  class Controller {
    var port: Option<HostId>
    var portDead: bool
    var greeted: bool
    var proxied: bool
    var tunnelUp: bool
    var endpoints: Option<Endpoints>
    var auth: Option<Auth>
    var connecting: bool
    var questions: nat
    var releasing: bool
    // The browser: the host processes it has spawned, the proxy setting and its history.
    var nextHost: HostId
    var setting: Setting
    ghost var writes: seq<Setting>

    ghost function View(): Vpn
      reads this
    {
      Vpn(port, portDead, greeted, proxied, tunnelUp, endpoints, auth, connecting, questions, releasing,
          nextHost, setting, writes)
    }

    constructor (found: Setting)
      ensures View() == Start(found)
    {
      port, portDead, greeted := None, false, false;
      proxied, tunnelUp, endpoints, auth := false, false, None, None;
      connecting, questions, releasing := false, 0, false;
      nextHost, setting, writes := 0, found, [];
    }

    method SetProxy(value: Setting)
      modifies this
      ensures View() == Put(old(View()), value)
    {
      setting := value;
      writes := writes + [value];
    }

    method OpenHostPort()
      modifies this
      ensures View() == OpenPort(old(View()))
    {
      if port.Some? && !portDead {
        return;
      }
      port, nextHost := Some(nextHost), nextHost + 1;
      portDead, greeted := false, false;
    }

    method CloseHostPort()
      modifies this
      ensures View() == ClosePort(old(View()))
    {
      port, portDead := None, false;
    }

    method OnDisconnect()
      modifies this
      ensures View() == HostGone(old(View()))
    {
      portDead := true;
      var lost := tunnelUp && !releasing;
      tunnelUp := false;
      auth := None;
      if lost {
        SetProxy(Ours(Lockdown));
      }
    }

    method Occur(e: Event)
      modifies this
      ensures View() == Happens(old(View()), e)
    {
      match e {
        case HostDies => if port.Some? && !portDead { OnDisconnect(); }
        case Ask =>
          questions := questions + 1;
          OpenHostPort();
        case HelloOk => if port.Some? && !portDead { greeted := true; }
        case HelloRefused => if port.Some? && !portDead && !greeted { CloseHostPort(); }
        case AskEnds =>
          if questions > 0 {
            questions := questions - 1;
            if questions == 0 && !tunnelUp && !connecting {
              CloseHostPort();
            }
          }
      }
    }

    method Interleave(events: seq<Event>)
      modifies this
      ensures View() == Await(old(View()), events)
    {
      var i := 0;
      while i < |events|
        invariant 0 <= i <= |events|
        invariant Await(View(), events[i..]) == Await(old(View()), events)
      {
        assert events[i..][1..] == events[i + 1..];
        Occur(events[i]);
        i := i + 1;
      }
    }

    /** Interleaves while the host is told to let go, if one is attached. */
    method TellHost(events: seq<Event>)
      modifies this
      ensures View() == Told(old(View()), events)
    {
      if port.Some? && !portDead {
        Interleave(events);
      }
    }

    method Abandon()
      modifies this
      ensures View() == LetGo(old(View()))
    {
      tunnelUp, endpoints, auth := false, None, None;
      CloseHostPort();
      releasing := false;
    }

    method Drop()
      modifies this
      ensures View() == old(View()).(endpoints := None, auth := None)
    {
      endpoints := None;
      auth := None;
    }

    method Hold(listeners: Endpoints, credentials: Auth)
      modifies this
      ensures View() == old(View()).(endpoints := Some(listeners), auth := Some(credentials))
    {
      endpoints := Some(listeners);
      auth := Some(credentials);
    }

    method Begin()
      modifies this
      ensures View() == old(View()).(connecting := true)
    {
      connecting := true;
    }

    method Greet()
      modifies this
      ensures View() == old(View()).(greeted := true)
    {
      greeted := true;
    }

    method TunnelUp()
      modifies this
      ensures View() == old(View()).(proxied := true, tunnelUp := true, connecting := false)
    {
      proxied, tunnelUp, connecting := true, true, false;
    }

    method Flag(release: bool)
      modifies this
      ensures View() == old(View()).(releasing := release)
    {
      releasing := release;
    }

    method Undo(before: Option<Setting>, hardened: bool, d: Dial) returns (status: Status)
      modifies this
      ensures (View(), status) == Undone(old(View()), before, hardened, d)
    {
      Drop();
      if !hardened {
        GiveUp();
        return Failed;
      }
      SetProxy(if before.Some? && before.value.Ours? then before.value else Unset);
      Interleave(d.onRestore);
      GiveUp();
      return Failed;
    }

    method GiveUp()
      modifies this
      ensures View() == ClosePort(old(View())).(connecting := false)
    {
      CloseHostPort();
      connecting := false;
    }

    method Route(h: HostId, before: Option<Setting>, d: Dial) returns (status: Status)
      requires d.response.Answer?
      modifies this
      ensures (View(), status) == Routed(old(View()), h, before, d)
    {
      if d.response.credentials.None? {
        status := Undo(before, false, d);
        return;
      }
      Interleave(d.onHarden);
      if portDead {
        status := Undo(before, true, d);
        return;
      }
      Hold(Endpoints(h, d.response.http, d.response.socks5), Auth(h, d.response.credentials.value));
      if d.response.http.None? {
        status := Undo(before, true, d);
        return;
      }
      SetProxy(Ours(Listener(h)));
      Interleave(d.onRoute);
      Interleave(d.onVerify);
      if portDead {
        status := Undo(before, true, d);
        return;
      }
      TunnelUp();
      return Connected(h);
    }

    method Dial(d: Dial) returns (status: Status)
      modifies this
      ensures (View(), status) == Connect(old(View()), d)
    {
      if connecting || tunnelUp {
        return Refused;
      }
      var before := if d.readable then Some(setting) else None;
      Begin();
      Interleave(d.beforeRequest);
      if !d.installed && !(port.Some? && !portDead) {
        status := Undo(before, false, d);
        return;
      }
      OpenHostPort();
      var h := port.value;
      Interleave(d.onRequest);
      if !(port == Some(h) && !portDead) || d.response.HostError? {
        status := Undo(before, false, d);
        return;
      }
      Greet();
      status := Route(h, before, d);
    }

    method Redial(onBlock: seq<Event>, onRelease: seq<Event>, d: Dial) returns (status: Status)
      modifies this
      ensures (View(), status) == Reconnect(old(View()), onBlock, onRelease, d)
    {
      if !tunnelUp {
        status := Dial(d);
        return;
      }
      if connecting {
        return Refused;
      }
      SetProxy(Ours(Lockdown));
      Interleave(onBlock);
      Flag(true);
      TellHost(onRelease);
      Abandon();
      status := Dial(d);
    }

    method Resplit(onRoute: seq<Event>, onVerify: seq<Event>) returns (status: Status)
      modifies this
      ensures (View(), status) == ApplySplit(old(View()), onRoute, onVerify)
    {
      if !tunnelUp || endpoints.None? {
        return Refused;
      }
      if endpoints.value.http.None? {
        return Failed;
      }
      var h := endpoints.value.host;
      SetProxy(Ours(Listener(h)));
      Interleave(onRoute);
      Interleave(onVerify);
      return Connected(h);
    }

    method Release(onRelease: seq<Event>, onClear: seq<Event>)
      modifies this
      ensures View() == Disconnect(old(View()), onRelease, onClear)
    {
      Flag(true);
      TellHost(onRelease);
      SetProxy(Unset);
      Interleave(onClear);
      proxied := false;
      Abandon();
    }
  }

  /** A controller just built, over whatever the browser's setting was found at. */
  function Start(found: Setting): Vpn {
    Vpn(None, false, false, false, false, None, None, false, 0, false, 0, found, [])
  }
}
