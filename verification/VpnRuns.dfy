/**
 The fail-closed policy of the browser VPN controller over every run of serialized public
 calls, with the host able to die and questions able to be put at every await.
 */
module VpnRuns {
  import opened Results
  import opened BrowserVpn

  datatype Action =
    | Dials(d: Dial)
    | Redials(onBlock: seq<Event>, onRelease: seq<Event>, d: Dial)
    | Resplits(onRoute: seq<Event>, onVerify: seq<Event>)
    | Releases(onRelease: seq<Event>, onClear: seq<Event>)
    | Rests(events: seq<Event>)

  function Act(v: Vpn, a: Action): Vpn {
    match a
    case Dials(d) => Connect(v, d).0
    case Redials(onBlock, onRelease, d) => Reconnect(v, onBlock, onRelease, d).0
    case Resplits(onRoute, onVerify) => ApplySplit(v, onRoute, onVerify).0
    case Releases(onRelease, onClear) => Disconnect(v, onRelease, onClear)
    case Rests(events) => Await(v, events)
  }

  function Run(v: Vpn, actions: seq<Action>): Vpn
    decreases |actions|
  {
    if actions == [] then v else Run(Act(v, actions[0]), actions[1..])
  }

  // ---- windows ---------------------------------------------------------------

  /** What a window may change: an event blocks the browser or leaves the setting alone. */
  ghost predicate OnlyBlocks(v: Vpn, w: Vpn) {
    && w.proxied == v.proxied && w.connecting == v.connecting && w.releasing == v.releasing
    && w.endpoints == v.endpoints && (w.tunnelUp ==> v.tunnelUp) && (w.auth == v.auth || w.auth.None?)
    && (w.setting == v.setting || w.setting == Ours(Lockdown))
    && (!v.tunnelUp || v.releasing ==> w.setting == v.setting)
  }

  lemma EventOnlyBlocks(v: Vpn, e: Event)
    ensures OnlyBlocks(v, Happens(v, e)) && HeldThrough(v, Happens(v, e))
  {
  }

  lemma {:induction false} WindowOnlyBlocks(v: Vpn, events: seq<Event>)
    ensures OnlyBlocks(v, Await(v, events)) && HeldThrough(v, Await(v, events))
    decreases |events|
  {
    if events != [] {
      var next := Happens(v, events[0]);
      EventOnlyBlocks(v, events[0]);
      WindowOnlyBlocks(next, events[1..]);
      HeldChain(v, next, Await(next, events[1..]));
    }
  }

  // ---- never cleared -----------------------------------------------------------

  /** Every write from `v` to `w` left the setting with the extension. */
  ghost predicate NothingCleared(v: Vpn, w: Vpn) {
    v.writes <= w.writes && forall i :: |v.writes| <= i < |w.writes| ==> w.writes[i].Ours?
  }

  /** From `v` to `w` a browser held on the tunnel stays held. */
  ghost predicate HeldThrough(v: Vpn, w: Vpn) {
    v.proxied && v.setting.Ours? ==> w.proxied && w.setting.Ours? && NothingCleared(v, w)
  }

  lemma HeldChain(u: Vpn, v: Vpn, w: Vpn)
    requires HeldThrough(u, v) && HeldThrough(v, w)
    ensures HeldThrough(u, w)
  {
    if u.proxied && u.setting.Ours? {
      forall i | |u.writes| <= i < |w.writes| ensures w.writes[i].Ours? {
        if i < |v.writes| { assert w.writes[i] == v.writes[i]; }
      }
    }
  }

  lemma PutHolds(v: Vpn, setting: Setting)
    requires v.proxied ==> setting.Ours?
    ensures HeldThrough(v, Put(v, setting))
  {
  }

  lemma UndoneHolds(v: Vpn, before: Option<Setting>, hardened: bool, d: Dial)
    requires v.proxied ==> before.Some? && before.value.Ours?
    ensures HeldThrough(v, Undone(v, before, hardened, d).0)
  {
    if hardened {
      var dropped := v.(endpoints := None, auth := None);
      var put := Put(dropped, if before.Some? && before.value.Ours? then before.value else Unset);
      WindowOnlyBlocks(put, d.onRestore);
      HeldChain(v, put, Await(put, d.onRestore));
    }
  }

  /** Up to the last check of the host, or the failure path from the first one that failed. */
  lemma RoutedHolds(v: Vpn, h: HostId, before: Option<Setting>, d: Dial)
    requires v.proxied ==> before.Some? && before.value.Ours?
    requires d.response.Answer?
    ensures HeldThrough(v, Routed(v, h, before, d).0)
  {
    var hardened := Await(v, d.onHarden);
    WindowOnlyBlocks(v, d.onHarden);
    if d.response.credentials.None? {
      UndoneHolds(v, before, false, d);
    } else if hardened.portDead {
      UndoneHolds(hardened, before, true, d);
      HeldChain(v, hardened, Undone(hardened, before, true, d).0);
    } else {
      HeldRoutedHolds(Given(hardened, h, d), h, before, d);
      HeldChain(v, hardened, Routed(v, h, before, d).0);
    }
  }

  lemma HeldRoutedHolds(held: Vpn, h: HostId, before: Option<Setting>, d: Dial)
    requires held.proxied ==> before.Some? && before.value.Ours?
    requires d.response.Answer? && d.response.credentials.Some?
    ensures
      var verified := Pointed(held, h, d);
      && HeldThrough(held, verified)
      && HeldThrough(held, Undone(held, before, true, d).0)
      && HeldThrough(held, Undone(verified, before, true, d).0)
      && verified.setting.Ours?
  {
    var put := Put(held, Ours(Listener(h)));
    PutHolds(held, Ours(Listener(h)));
    WindowOnlyBlocks(put, d.onRoute);
    var routed := Await(put, d.onRoute);
    HeldChain(held, put, routed);
    WindowOnlyBlocks(routed, d.onVerify);
    var verified := Await(routed, d.onVerify);
    HeldChain(held, routed, verified);
    UndoneHolds(held, before, true, d);
    UndoneHolds(verified, before, true, d);
    HeldChain(held, verified, Undone(verified, before, true, d).0);
  }

  lemma ConnectHolds(v: Vpn, d: Dial)
    requires d.readable && (v.proxied ==> v.setting.Ours?)
    ensures HeldThrough(v, Connect(v, d).0)
  {
    var before := Some(v.setting);
    var asked := Await(v.(connecting := true), d.beforeRequest);
    WindowOnlyBlocks(v.(connecting := true), d.beforeRequest);
    UndoneHolds(asked, before, false, d);
    HeldChain(v, asked, Undone(asked, before, false, d).0);
    var spawned := OpenPort(asked);
    var answered := Await(spawned, d.onRequest);
    WindowOnlyBlocks(spawned, d.onRequest);
    HeldChain(v, spawned, answered);
    UndoneHolds(answered, before, false, d);
    HeldChain(v, answered, Undone(answered, before, false, d).0);
    if d.response.Answer? {
      var greeted := answered.(greeted := true);
      RoutedHolds(greeted, spawned.port.value, before, d);
      HeldChain(v, greeted, Routed(greeted, spawned.port.value, before, d).0);
    }
  }

  lemma ReconnectHolds(v: Vpn, onBlock: seq<Event>, onRelease: seq<Event>, d: Dial)
    requires d.readable && (v.proxied ==> v.setting.Ours?)
    ensures HeldThrough(v, Reconnect(v, onBlock, onRelease, d).0)
  {
    ConnectHolds(v, d);
    var put := Put(v, Ours(Lockdown));
    var blocked := Await(put, onBlock);
    WindowOnlyBlocks(put, onBlock);
    HeldChain(v, put, blocked);
    var releasing := blocked.(releasing := true);
    WindowOnlyBlocks(releasing, onRelease);
    var told := Told(releasing, onRelease);
    HeldChain(v, releasing, told);
    ConnectHolds(LetGo(told), d);
    HeldChain(v, LetGo(told), Connect(LetGo(told), d).0);
  }

  lemma ActHolds(v: Vpn, a: Action)
    requires !a.Releases? && Readable(a) && v.proxied && v.setting.Ours?
    ensures HeldThrough(v, Act(v, a))
  {
    match a {
      case Dials(d) => ConnectHolds(v, d);
      case Redials(onBlock, onRelease, d) => ReconnectHolds(v, onBlock, onRelease, d);
      case Resplits(onRoute, onVerify) =>
        if v.endpoints.Some? {
          var put := Put(v, Ours(Listener(v.endpoints.value.host)));
          WindowOnlyBlocks(put, onRoute);
          HeldChain(v, put, Await(put, onRoute));
          WindowOnlyBlocks(Await(put, onRoute), onVerify);
          HeldChain(v, Await(put, onRoute), Await(Await(put, onRoute), onVerify));
        }
      case Rests(events) => WindowOnlyBlocks(v, events);
    }
  }

  /** The browser lets the extension read its proxy setting before a connect. */
  predicate Readable(a: Action) { a.Dials? || a.Redials? ==> a.d.readable }

  /**
   Once connected, and until an explicit disconnect, the proxy setting is never cleared:
   whatever connects fail, hosts die and questions interleave, every write leaves it ours.
   */
  lemma {:induction false} HeldUntilDisconnect(v: Vpn, actions: seq<Action>)
    requires v.proxied && v.setting.Ours?
    requires forall a :: a in actions ==> !a.Releases? && Readable(a)
    ensures
      var w := Run(v, actions);
      w.proxied && w.setting.Ours? && NothingCleared(v, w)
    decreases |actions|
  {
    if actions != [] {
      ActHolds(v, actions[0]);
      HeldUntilDisconnect(Act(v, actions[0]), actions[1..]);
      HeldChain(v, Act(v, actions[0]), Run(v, actions));
    }
  }

  /** A successful connect is where that guarantee starts. */
  lemma ConnectedIsHeld(v: Vpn, d: Dial)
    requires Connect(v, d).1.Connected?
    ensures Connect(v, d).0.proxied && Connect(v, d).0.setting.Ours? && Connect(v, d).0.tunnelUp
  {
    var asked := Await(v.(connecting := true), d.beforeRequest);
    var spawned := OpenPort(asked);
    var h := spawned.port.value;
    var hardened := Await(Await(spawned, d.onRequest).(greeted := true), d.onHarden);
    var held := Given(hardened, h, d);
    HeldRoutedHolds(held.(proxied := false), h, None, d);
    var put := Put(held, Ours(Listener(h)));
    WindowOnlyBlocks(put, d.onRoute);
    WindowOnlyBlocks(Await(put, d.onRoute), d.onVerify);
  }

  // ---- the setting must be readable ----------------------------------------------

  const UP := Dial(true, true, Answer(Some("127.0.0.1:8118"), "127.0.0.1:1080", Some("secret")), [], [], [], [], [], [])
  const BLIND := UP.(readable := false, onHarden := [HostDies])

  lemma TwoActions(v: Vpn, a: Action, b: Action)
    ensures Run(v, [a, b]) == Act(Act(v, a), b)
  {
    assert [a, b][1..] == [b] && [b][1..] == [];
    assert Run(Act(v, a), [b]) == Act(Act(v, a), b);
  }

  /**
   Where the setting cannot be read, a connect that fails over a dead host's lockdown clears
   it: the browser goes direct with no disconnect asked for.
   */
  lemma BlindConnectClears()
    ensures
      var connected := Act(Start(Unset), Dials(UP));
      var after := Run(connected, [Rests([HostDies]), Dials(BLIND)]);
      connected.proxied && connected.setting.Ours? && after.proxied && after.setting == Unset
  {
    var connected := Act(Start(Unset), Dials(UP));
    var dead := Act(connected, Rests([HostDies]));
    assert dead.setting == Ours(Lockdown) && !dead.tunnelUp && dead.proxied;
    TwoActions(connected, Rests([HostDies]), Dials(BLIND));
  }

  /** No disconnect, and every connect finds the setting readable or every one does not. */
  ghost predicate Uses(actions: seq<Action>, readable: bool) {
    forall a :: a in actions ==> !a.Releases? && (a.Dials? || a.Redials? ==> a.d.readable == readable)
  }

  /** The fail-closed guarantee holds of all runs exactly when the setting can be read. */
  lemma HeldIffReadable(readable: bool)
    ensures readable <==>
      forall v: Vpn, actions: seq<Action> :: v.proxied && v.setting.Ours? && Uses(actions, readable) ==>
        Run(v, actions).setting.Ours?
  {
    if readable {
      forall v: Vpn, actions: seq<Action> | v.proxied && v.setting.Ours? && Uses(actions, readable)
        ensures Run(v, actions).setting.Ours?
      {
        HeldUntilDisconnect(v, actions);
      }
    } else {
      BlindConnectClears();
      var actions := [Rests([HostDies]), Dials(BLIND)];
      assert Uses(actions, false);
    }
  }

  // ---- a listener is named only while its host lives --------------------------------

  /** Between calls: the listener named, the credentials held and the attached host are of one tunnel. */
  ghost predicate Sound(v: Vpn) {
    && !v.connecting && !v.releasing
    && (v.port.Some? ==> v.port.value < v.nextHost)
    && (v.tunnelUp ==>
          && v.proxied && v.greeted && v.endpoints.Some? && v.auth.Some?
          && Attached(v, v.endpoints.value.host) && v.auth.value.host == v.endpoints.value.host
          && v.setting == Ours(Listener(v.endpoints.value.host)))
    && (!v.tunnelUp ==> v.auth.None? && !(v.setting.Ours? && v.setting.value.Listener?))
  }

  lemma EventIsSound(v: Vpn, e: Event)
    requires Sound(v)
    ensures Sound(Happens(v, e))
  {
  }

  lemma {:induction false} WindowIsSound(v: Vpn, events: seq<Event>)
    requires Sound(v)
    ensures Sound(Await(v, events))
    decreases |events|
  {
    if events != [] {
      EventIsSound(v, events[0]);
      WindowIsSound(Happens(v, events[0]), events[1..]);
    }
  }

  // ---- the port, as a connect sees it ----------------------------------------------

  /** The port as seen by a connect that got its answer over it. */
  datatype Seen = Mine | Dead | Theirs(greeted: bool) | Absent

  /** How an event during a connect's awaits moves it: a question over a dead port spawns another host. */
  function WatchOne(seen: Seen, e: Event): Seen {
    match e
    case HostDies => if seen.Absent? then Absent else Dead
    case Ask => if seen.Dead? || seen.Absent? then Theirs(false) else seen
    case HelloOk => if seen.Theirs? then Theirs(true) else seen
    case HelloRefused => if seen == Theirs(false) then Absent else seen
    case AskEnds => seen
  }

  function Watch(seen: Seen, events: seq<Event>): Seen
    decreases |events|
  {
    if events == [] then seen else Watch(WatchOne(seen, events[0]), events[1..])
  }

  ghost predicate Sees(v: Vpn, h: HostId, seen: Seen) {
    && v.connecting && h < v.nextHost
    && match seen
       case Mine => v.port == Some(h) && !v.portDead && v.greeted
       case Dead => v.port.Some? && v.portDead
       case Theirs(g) => v.port.Some? && v.port != Some(h) && !v.portDead && v.greeted == g
       case Absent => v.port.None? && !v.portDead
  }

  lemma WatchTracksOne(v: Vpn, h: HostId, seen: Seen, e: Event)
    requires Sees(v, h, seen)
    ensures Sees(Happens(v, e), h, WatchOne(seen, e))
  {
  }

  lemma {:induction false} WatchTracks(v: Vpn, h: HostId, seen: Seen, events: seq<Event>)
    requires Sees(v, h, seen)
    ensures Sees(Await(v, events), h, Watch(seen, events))
    decreases |events|
  {
    if events != [] {
      WatchTracksOne(v, h, seen, events[0]);
      WatchTracks(Happens(v, events[0]), h, WatchOne(seen, events[0]), events[1..]);
    }
  }

  /** The port is still the connect's own exactly when no host died. */
  lemma {:induction false} MineMeansNoDeath(events: seq<Event>)
    ensures Watch(Mine, events) == Mine <==> HostDies !in events
    decreases |events|
  {
    if events != [] {
      assert events == [events[0]] + events[1..];
      if events[0] == HostDies {
        NeverMineAgain(WatchOne(Mine, HostDies), events[1..]);
      } else {
        MineMeansNoDeath(events[1..]);
      }
    }
  }

  lemma {:induction false} NeverMineAgain(seen: Seen, events: seq<Event>)
    requires seen != Mine
    ensures Watch(seen, events) != Mine
    decreases |events|
  {
    if events != [] { NeverMineAgain(WatchOne(seen, events[0]), events[1..]); }
  }

  /** Credentials outlive a window without a death. */
  lemma {:induction false} AuthKept(v: Vpn, events: seq<Event>)
    requires HostDies !in events
    ensures Await(v, events).auth == v.auth
    decreases |events|
  {
    if events != [] {
      assert events[0] in events;
      AuthKept(Happens(v, events[0]), events[1..]);
    }
  }

  /** The port at the first check of the host, and at the last. */
  function AtFirstCheck(d: Dial): Seen {
    Watch(Mine, d.onHarden)
  }

  function AtLastCheck(d: Dial): Seen {
    Watch(Watch(AtFirstCheck(d), d.onRoute), d.onVerify)
  }

  /** No host died between the answer and the end of the connect. */
  predicate NoDeath(d: Dial) {
    HostDies !in d.onHarden && HostDies !in d.onRoute && HostDies !in d.onVerify
  }

  lemma LastIsMine(d: Dial)
    ensures AtLastCheck(d) == Mine <==> NoDeath(d)
    ensures AtLastCheck(d) == Mine ==> AtFirstCheck(d) == Mine
  {
    MineMeansNoDeath(d.onHarden);
    var first := AtFirstCheck(d);
    if first == Mine { MineMeansNoDeath(d.onRoute); } else { NeverMineAgain(first, d.onRoute); }
    var second := Watch(first, d.onRoute);
    if second == Mine { MineMeansNoDeath(d.onVerify); } else { NeverMineAgain(second, d.onVerify); }
  }

  /** The host answered with all a connect needs. */
  predicate FullAnswer(d: Dial) {
    d.response.Answer? && d.response.credentials.Some? && d.response.http.Some?
  }

  /** No death is hidden from the checks: none happens, or the port is dead at one of them. */
  predicate NothingHidden(d: Dial) {
    FullAnswer(d) ==> NoDeath(d) || AtFirstCheck(d) == Dead || AtLastCheck(d) == Dead
  }

  /** Without a question a dead port stays dead. */
  lemma {:induction false} WatchWithoutQuestions(seen: Seen, events: seq<Event>)
    requires (seen == Mine || seen == Dead) && Ask !in events
    ensures Watch(seen, events) == Mine || Watch(seen, events) == Dead
    ensures seen == Dead ==> Watch(seen, events) == Dead
    decreases |events|
  {
    if events != [] {
      assert events[0] in events;
      WatchWithoutQuestions(WatchOne(seen, events[0]), events[1..]);
    }
  }

  /** A caller that asks nothing between the answer and the end of its connect has no death hidden from it. */
  lemma AskingNothingIsEnough(d: Dial)
    requires Ask !in d.onHarden && Ask !in d.onRoute && Ask !in d.onVerify
    ensures NothingHidden(d) && TakenLive(d)
  {
    WatchWithoutQuestions(Mine, d.onHarden);
    WatchWithoutQuestions(AtFirstCheck(d), d.onRoute);
    WatchWithoutQuestions(Watch(AtFirstCheck(d), d.onRoute), d.onVerify);
    LastIsMine(d);
  }

  lemma {:induction false} WindowBoundsHosts(v: Vpn, events: seq<Event>)
    requires v.port.Some? ==> v.port.value < v.nextHost
    ensures var w := Await(v, events); w.port.Some? ==> w.port.value < w.nextHost
    decreases |events|
  {
    if events != [] { WindowBoundsHosts(Happens(v, events[0]), events[1..]); }
  }

  /** The controller between calls with no tunnel. */
  ghost predicate Down(v: Vpn) {
    !v.tunnelUp && !v.releasing && !(v.setting.Ours? && v.setting.value.Listener?)
  }

  lemma UndoneIsSound(v: Vpn, before: Option<Setting>, hardened: bool, d: Dial)
    requires !v.tunnelUp && !v.releasing
    requires !hardened ==> Down(v)
    requires hardened && before.Some? && before.value.Ours? ==> !before.value.value.Listener?
    ensures Sound(Undone(v, before, hardened, d).0)
  {
    if hardened {
      var put := Put(v.(endpoints := None, auth := None),
                     if before.Some? && before.value.Ours? then before.value else Unset);
      WindowOnlyBlocks(put, d.onRestore);
    }
  }

  /** The browser pointed at the listener, and what the connect makes of the two checks. */
  lemma PointedIsSound(held: Vpn, h: HostId, before: Option<Setting>, d: Dial)
    requires Sees(held, h, AtFirstCheck(d)) && AtFirstCheck(d) != Dead && !held.tunnelUp && !held.releasing
    requires held.endpoints.Some? && held.endpoints.value.host == h && held.auth.Some? && held.auth.value.host == h
    requires before.Some? && before.value.Ours? ==> !before.value.value.Listener?
    ensures var verified := Pointed(held, h, d);
            && Sees(verified, h, AtLastCheck(d)) && Sound(Undone(verified, before, true, d).0)
            && verified.setting == Ours(Listener(h))
            && (Sound(verified.(proxied := true, tunnelUp := true, connecting := false)) <==> NoDeath(d))
  {
    var put := Put(held, Ours(Listener(h)));
    WindowOnlyBlocks(put, d.onRoute);
    WatchTracks(put, h, AtFirstCheck(d), d.onRoute);
    var routed := Await(put, d.onRoute);
    WindowOnlyBlocks(routed, d.onVerify);
    WatchTracks(routed, h, Watch(AtFirstCheck(d), d.onRoute), d.onVerify);
    UndoneIsSound(Await(routed, d.onVerify), before, true, d);
    LastIsMine(d);
    if NoDeath(d) {
      AuthKept(put, d.onRoute);
      AuthKept(routed, d.onVerify);
    }
  }

  /** From the answer on: the controller is sound afterwards exactly when no death was hidden. */
  lemma RoutedIsSound(v: Vpn, h: HostId, before: Option<Setting>, d: Dial)
    requires Down(v) && Sees(v, h, Mine) && d.response.Answer?
    requires before.Some? && before.value.Ours? ==> !before.value.value.Listener?
    ensures Sound(Routed(v, h, before, d).0) <==> NothingHidden(d)
  {
    var hardened := Await(v, d.onHarden);
    WindowOnlyBlocks(v, d.onHarden);
    WatchTracks(v, h, Mine, d.onHarden);
    LastIsMine(d);
    if d.response.credentials.None? {
      UndoneIsSound(v, before, false, d);
    } else if hardened.portDead {
      UndoneIsSound(hardened, before, true, d);
    } else {
      var held := Given(hardened, h, d);
      UndoneIsSound(held, before, true, d);
      if d.response.http.Some? { PointedIsSound(held, h, before, d); }
    }
  }

  /** The connect's request is answered over a port that is still its own. */
  predicate Reaches(v: Vpn, d: Dial) {
    var asked := Await(v.(connecting := true), d.beforeRequest);
    && !v.connecting && !v.tunnelUp && (d.installed || (asked.port.Some? && !asked.portDead)) && d.response.Answer?
    && Attached(Await(OpenPort(asked), d.onRequest), OpenPort(asked).port.value)
  }

  /**
   A connect leaves a sound controller sound, unless it is answered and a death is hidden from
   it: exactly then not.
   */
  lemma ConnectIsSound(v: Vpn, d: Dial)
    requires Sound(v)
    ensures Sound(Connect(v, d).0) <==> !Reaches(v, d) || NothingHidden(d)
  {
    if !v.tunnelUp {
      var before := if d.readable then Some(v.setting) else None;
      var asked := Await(v.(connecting := true), d.beforeRequest);
      WindowOnlyBlocks(v.(connecting := true), d.beforeRequest);
      WindowBoundsHosts(v.(connecting := true), d.beforeRequest);
      UndoneIsSound(asked, before, false, d);
      var spawned := OpenPort(asked);
      var answered := Await(spawned, d.onRequest);
      WindowOnlyBlocks(spawned, d.onRequest);
      WindowBoundsHosts(spawned, d.onRequest);
      UndoneIsSound(answered, before, false, d);
      if d.response.Answer? && Attached(answered, spawned.port.value) {
        RoutedIsSound(answered.(greeted := true), spawned.port.value, before, d);
      }
    }
  }

  lemma ReconnectIsSound(v: Vpn, onBlock: seq<Event>, onRelease: seq<Event>, d: Dial)
    requires Sound(v) && NothingHidden(d)
    ensures Sound(Reconnect(v, onBlock, onRelease, d).0)
  {
    if v.tunnelUp {
      var put := Put(v, Ours(Lockdown));
      var blocked := Await(put, onBlock);
      WindowOnlyBlocks(put, onBlock);
      var releasing := blocked.(releasing := true);
      WindowOnlyBlocks(releasing, onRelease);
      ConnectIsSound(LetGo(Told(releasing, onRelease)), d);
    } else {
      ConnectIsSound(v, d);
    }
  }

  lemma ActIsSound(v: Vpn, a: Action)
    requires Sound(v) && (a.Dials? || a.Redials? ==> NothingHidden(a.d))
    ensures Sound(Act(v, a))
  {
    match a {
      case Dials(d) => ConnectIsSound(v, d);
      case Redials(onBlock, onRelease, d) => ReconnectIsSound(v, onBlock, onRelease, d);
      case Resplits(onRoute, onVerify) =>
        if v.endpoints.Some? && v.tunnelUp {
          var put := Put(v, Ours(Listener(v.endpoints.value.host)));
          WindowIsSound(put, onRoute);
          WindowIsSound(Await(put, onRoute), onVerify);
        }
      case Releases(onRelease, onClear) =>
        var releasing := v.(releasing := true);
        WindowOnlyBlocks(releasing, onRelease);
        var told := Told(releasing, onRelease);
        WindowOnlyBlocks(Put(told, Unset), onClear);
      case Rests(events) => WindowIsSound(v, events);
    }
  }

  lemma {:induction false} RunIsSound(v: Vpn, actions: seq<Action>)
    requires Sound(v) && forall a :: a in actions && (a.Dials? || a.Redials?) ==> NothingHidden(a.d)
    ensures Sound(Run(v, actions))
    decreases |actions|
  {
    if actions != [] {
      ActIsSound(v, actions[0]);
      RunIsSound(Act(v, actions[0]), actions[1..]);
    }
  }

  /**
   After every run whose connects have no death hidden from them, the setting names a listener
   only while its host is attached, and credentials are handed out only for that host.
   */
  lemma ListenerOnlyWhileAlive(found: Setting, actions: seq<Action>, listener: string)
    requires found == Unset || found == Ours(Lockdown)
    requires forall a :: a in actions && (a.Dials? || a.Redials?) ==> NothingHidden(a.d)
    ensures
      var v := Run(Start(found), actions);
      && (v.setting.Ours? && v.setting.value.Listener? ==> Attached(v, v.setting.value.host))
      && (ForListener(v, listener).Some? ==> Attached(v, ForListener(v, listener).value.host))
  {
    RunIsSound(Start(found), actions);
  }

  // ---- and at every moment inside a call -----------------------------------------------

  /** Credentials held are those of the attached host. */
  ghost predicate CredentialsLive(v: Vpn) {
    v.auth.Some? ==> Attached(v, v.auth.value.host) && v.greeted && (v.tunnelUp || v.connecting)
  }

  lemma EventKeepsCredentialsLive(v: Vpn, e: Event)
    requires CredentialsLive(v)
    ensures CredentialsLive(Happens(v, e))
  {
  }

  /** They are at every moment of an await: before, between and after its events. */
  ghost predicate LiveThrough(v: Vpn, events: seq<Event>) {
    forall k: nat :: k <= |events| ==> CredentialsLive(Await(v, events[..k]))
  }

  lemma {:induction false} LiveAfter(v: Vpn, events: seq<Event>)
    requires CredentialsLive(v)
    ensures CredentialsLive(Await(v, events))
    decreases |events|
  {
    if events != [] {
      EventKeepsCredentialsLive(v, events[0]);
      LiveAfter(Happens(v, events[0]), events[1..]);
    }
  }

  /** An await keeps them so throughout exactly when it starts so. */
  lemma LiveWindow(v: Vpn, events: seq<Event>)
    ensures LiveThrough(v, events) <==> CredentialsLive(v)
    ensures CredentialsLive(v) ==> CredentialsLive(Await(v, events))
  {
    assert events[..0] == [] && Await(v, events[..0]) == v;
    if CredentialsLive(v) {
      forall k: nat | k <= |events| ensures CredentialsLive(Await(v, events[..k])) {
        LiveAfter(v, events[..k]);
      }
      LiveAfter(v, events);
    }
  }

  // The awaits of each call, in turn, as the call goes through them.

  ghost predicate UndoneLive(v: Vpn, before: Option<Setting>, hardened: bool, d: Dial) {
    hardened ==>
      LiveThrough(Put(v.(endpoints := None, auth := None),
                      if before.Some? && before.value.Ours? then before.value else Unset), d.onRestore)
  }

  ghost predicate PointedLive(v: Vpn, h: HostId, d: Dial) {
    var put := Put(v, Ours(Listener(h)));
    LiveThrough(put, d.onRoute) && LiveThrough(Await(put, d.onRoute), d.onVerify)
  }

  ghost predicate RoutedLive(v: Vpn, h: HostId, before: Option<Setting>, d: Dial)
    requires d.response.Answer?
  {
    d.response.credentials.Some? ==>
      var hardened := Await(v, d.onHarden);
      && LiveThrough(v, d.onHarden)
      && if hardened.portDead then UndoneLive(hardened, before, true, d)
         else
           var held := Given(hardened, h, d);
           if d.response.http.None? then UndoneLive(held, before, true, d)
           else
             && PointedLive(held, h, d)
             && (Pointed(held, h, d).portDead ==> UndoneLive(Pointed(held, h, d), before, true, d))
  }

  /** A connect once it has a port to ask over. */
  ghost predicate SpawnedLive(spawned: Vpn, before: Option<Setting>, d: Dial)
    requires spawned.port.Some?
  {
    var answered := Await(spawned, d.onRequest);
    && LiveThrough(spawned, d.onRequest)
    && (Attached(answered, spawned.port.value) && d.response.Answer? ==>
          RoutedLive(answered.(greeted := true), spawned.port.value, before, d))
  }

  ghost predicate ConnectLive(v: Vpn, d: Dial) {
    v.connecting || v.tunnelUp ||
    var before := if d.readable then Some(v.setting) else None;
    var asked := Await(v.(connecting := true), d.beforeRequest);
    && LiveThrough(v.(connecting := true), d.beforeRequest)
    && (d.installed || (asked.port.Some? && !asked.portDead) ==> SpawnedLive(OpenPort(asked), before, d))
  }

  ghost predicate ToldLive(v: Vpn, events: seq<Event>) {
    v.port.Some? && !v.portDead ==> LiveThrough(v, events)
  }

  ghost predicate ActLive(v: Vpn, a: Action) {
    match a
    case Dials(d) => ConnectLive(v, d)
    case Redials(onBlock, onRelease, d) =>
      if !v.tunnelUp then ConnectLive(v, d)
      else
        var blocked := Await(Put(v, Ours(Lockdown)), onBlock).(releasing := true);
        !v.connecting ==>
          && LiveThrough(Put(v, Ours(Lockdown)), onBlock)
          && ToldLive(blocked, onRelease)
          && ConnectLive(LetGo(Told(blocked, onRelease)), d)
    case Resplits(onRoute, onVerify) =>
      v.tunnelUp && v.endpoints.Some? && v.endpoints.value.http.Some? ==>
        var put := Put(v, Ours(Listener(v.endpoints.value.host)));
        LiveThrough(put, onRoute) && LiveThrough(Await(put, onRoute), onVerify)
    case Releases(onRelease, onClear) =>
      var releasing := v.(releasing := true);
      ToldLive(releasing, onRelease) && LiveThrough(Put(Told(releasing, onRelease), Unset), onClear)
    case Rests(events) => LiveThrough(v, events)
  }

  ghost predicate RunLive(v: Vpn, actions: seq<Action>)
    decreases |actions|
  {
    actions != [] ==> ActLive(v, actions[0]) && RunLive(Act(v, actions[0]), actions[1..])
  }

  /** When the credentials of an answer are taken, its host is attached or known to be dead. */
  predicate TakenLive(d: Dial) {
    FullAnswer(d) ==> AtFirstCheck(d) == Mine || AtFirstCheck(d) == Dead
  }

  /** Between calls. */
  ghost predicate Resting(v: Vpn) {
    CredentialsLive(v) && !v.connecting && (v.port.Some? ==> v.port.value < v.nextHost)
  }

  lemma UndoneIsLive(v: Vpn, before: Option<Setting>, hardened: bool, d: Dial)
    ensures UndoneLive(v, before, hardened, d)
    ensures Resting(Undone(v, before, hardened, d).0)
  {
    if hardened {
      var put := Put(v.(endpoints := None, auth := None),
                     if before.Some? && before.value.Ours? then before.value else Unset);
      LiveWindow(put, d.onRestore);
      WindowOnlyBlocks(put, d.onRestore);
    }
  }

  lemma PointedIsLive(held: Vpn, h: HostId, d: Dial)
    requires held.connecting
    ensures PointedLive(held, h, d) <==> CredentialsLive(held)
    ensures CredentialsLive(held) ==> CredentialsLive(Pointed(held, h, d))
    ensures (held.port.Some? ==> held.port.value < held.nextHost) ==>
              var w := Pointed(held, h, d); w.port.Some? ==> w.port.value < w.nextHost
  {
    var put := Put(held, Ours(Listener(h)));
    LiveWindow(put, d.onRoute);
    LiveWindow(Await(put, d.onRoute), d.onVerify);
    if held.port.Some? ==> held.port.value < held.nextHost {
      WindowBoundsHosts(put, d.onRoute);
      WindowBoundsHosts(Await(put, d.onRoute), d.onVerify);
    }
  }

  /** A window before there are credentials brings none. */
  lemma WindowWithoutCredentials(v: Vpn, events: seq<Event>)
    requires v.auth.None? && (v.port.Some? ==> v.port.value < v.nextHost)
    ensures LiveThrough(v, events)
    ensures var w := Await(v, events);
            w.auth.None? && w.connecting == v.connecting && (w.port.Some? ==> w.port.value < w.nextHost)
  {
    LiveWindow(v, events);
    WindowOnlyBlocks(v, events);
    WindowBoundsHosts(v, events);
  }

  /** From the answer on, credentials are live at every moment exactly when they are taken live. */
  lemma RoutedIsLive(v: Vpn, h: HostId, before: Option<Setting>, d: Dial)
    requires Sees(v, h, Mine) && v.auth.None? && d.response.Answer?
    ensures RoutedLive(v, h, before, d) <==> TakenLive(d)
    ensures TakenLive(d) ==> Resting(Routed(v, h, before, d).0)
  {
    var hardened := Await(v, d.onHarden);
    WindowWithoutCredentials(v, d.onHarden);
    WatchTracks(v, h, Mine, d.onHarden);
    if d.response.credentials.None? {
      UndoneIsLive(v, before, false, d);
    } else if hardened.portDead {
      UndoneIsLive(hardened, before, true, d);
    } else {
      var held := Given(hardened, h, d);
      UndoneIsLive(held, before, true, d);
      PointedIsLive(held, h, d);
      UndoneIsLive(Pointed(held, h, d), before, true, d);
    }
  }

  lemma SpawnedIsLive(spawned: Vpn, before: Option<Setting>, d: Dial)
    requires spawned.connecting && spawned.auth.None? && spawned.port.Some? && spawned.port.value < spawned.nextHost
    requires TakenLive(d)
    ensures SpawnedLive(spawned, before, d)
    ensures var answered := Await(spawned, d.onRequest);
            Attached(answered, spawned.port.value) && d.response.Answer? ==>
              Resting(Routed(answered.(greeted := true), spawned.port.value, before, d).0)
  {
    var answered := Await(spawned, d.onRequest);
    WindowWithoutCredentials(spawned, d.onRequest);
    if Attached(answered, spawned.port.value) && d.response.Answer? {
      RoutedIsLive(answered.(greeted := true), spawned.port.value, before, d);
    }
  }

  lemma ConnectIsLive(v: Vpn, d: Dial)
    requires Resting(v) && TakenLive(d)
    ensures ConnectLive(v, d) && Resting(Connect(v, d).0)
  {
    if !v.tunnelUp {
      var before := if d.readable then Some(v.setting) else None;
      var begun := v.(connecting := true);
      var asked := Await(begun, d.beforeRequest);
      WindowWithoutCredentials(begun, d.beforeRequest);
      if !d.installed && !(asked.port.Some? && !asked.portDead) {
        UndoneIsLive(asked, before, false, d);
      } else {
        SpawnedIsLive(OpenPort(asked), before, d);
        UndoneIsLive(Await(OpenPort(asked), d.onRequest), before, false, d);
      }
    }
  }

  lemma LetGoIsResting(v: Vpn)
    requires !v.connecting
    ensures Resting(LetGo(v))
  {
  }

  lemma ActIsLive(v: Vpn, a: Action)
    requires Resting(v) && (a.Dials? || a.Redials? ==> TakenLive(a.d))
    ensures ActLive(v, a) && Resting(Act(v, a))
  {
    match a {
      case Dials(d) => ConnectIsLive(v, d);
      case Redials(onBlock, onRelease, d) => RedialIsLive(v, onBlock, onRelease, d);
      case Resplits(onRoute, onVerify) =>
        if v.tunnelUp && v.endpoints.Some? && v.endpoints.value.http.Some? {
          var put := Put(v, Ours(Listener(v.endpoints.value.host)));
          RestsLive(put, onRoute);
          RestsLive(Await(put, onRoute), onVerify);
        }
      case Releases(onRelease, onClear) =>
        var releasing := v.(releasing := true);
        RestsLive(releasing, onRelease);
        var put := Put(Told(releasing, onRelease), Unset);
        RestsLive(put, onClear);
        LetGoIsResting(Await(put, onClear).(proxied := false));
      case Rests(events) => RestsLive(v, events);
    }
  }

  lemma RestsLive(v: Vpn, events: seq<Event>)
    requires Resting(v)
    ensures LiveThrough(v, events) && Resting(Await(v, events))
  {
    LiveWindow(v, events);
    WindowOnlyBlocks(v, events);
    WindowBoundsHosts(v, events);
  }

  lemma RedialIsLive(v: Vpn, onBlock: seq<Event>, onRelease: seq<Event>, d: Dial)
    requires Resting(v) && TakenLive(d)
    ensures ActLive(v, Redials(onBlock, onRelease, d)) && Resting(Reconnect(v, onBlock, onRelease, d).0)
  {
    if v.tunnelUp {
      var put := Put(v, Ours(Lockdown));
      RestsLive(put, onBlock);
      var blocked := Await(put, onBlock).(releasing := true);
      RestsLive(blocked, onRelease);
      LetGoIsResting(Told(blocked, onRelease));
      ConnectIsLive(LetGo(Told(blocked, onRelease)), d);
    } else {
      ConnectIsLive(v, d);
    }
  }

  /**
   In every run whose connects take their credentials live, credentials held at any moment of
   any await of any call are those of the attached host, and so are all that are handed out.
   */
  lemma {:induction false} CredentialsLiveThroughout(v: Vpn, actions: seq<Action>)
    requires Resting(v)
    requires forall a :: a in actions && (a.Dials? || a.Redials?) ==> TakenLive(a.d)
    ensures RunLive(v, actions) && Resting(Run(v, actions))
    decreases |actions|
  {
    if actions != [] {
      ActIsLive(v, actions[0]);
      CredentialsLiveThroughout(Act(v, actions[0]), actions[1..]);
    }
  }

  /**
   A controller just built rests, whatever the setting was found at; and live credentials are
   all `forListener` gives.
   */
  lemma HandedOutLive(found: Setting, v: Vpn, listener: string)
    ensures Resting(Start(found))
    ensures CredentialsLive(v) && ForListener(v, listener).Some? ==> Attached(v, ForListener(v, listener).value.host)
  {
  }

  // ---- what a question during a connect can do --------------------------------------------

  /**
   A connect that got a full answer returns success exactly when its port looks alive at both
   checks, and its listener's host is then attached exactly when no host died meanwhile.
   */
  lemma QuestionsCanHideADeadHost(v: Vpn, h: HostId, before: Option<Setting>, d: Dial)
    requires Sees(v, h, Mine) && Down(v) && FullAnswer(d)
    ensures
      var (w, status) := Routed(v, h, before, d);
      && (status == Connected(h) <==> AtFirstCheck(d) != Dead && AtLastCheck(d) != Dead)
      && (status == Connected(h) ==> w.setting == Ours(Listener(h)) && (Attached(w, h) <==> NoDeath(d)))
  {
    var hardened := Await(v, d.onHarden);
    WatchTracks(v, h, Mine, d.onHarden);
    WindowOnlyBlocks(v, d.onHarden);
    LastIsMine(d);
    if !hardened.portDead { PointedIsSound(Given(hardened, h, d), h, None, d); }
  }

  /** The failing family is real: one status question after the host's death hides it. */
  lemma QuestionHidesDeath()
    ensures
      var w := Act(Start(Unset), Dials(UP.(onRoute := [HostDies, Ask])));
      w.tunnelUp && w.setting == Ours(Listener(0)) && !Attached(w, 0)
    ensures
      var w := Act(Start(Unset), Dials(UP.(onHarden := [HostDies, Ask])));
      ForListener(w, "127.0.0.1:8118").Some? && ForListener(w, "127.0.0.1:8118").value.host == 0 && !Attached(w, 0)
  {
    var spawned := OpenPort(Start(Unset).(connecting := true)).(greeted := true);
    assert [HostDies, Ask][1..] == [Ask] && [Ask][1..] == [];
    var put := Put(Given(spawned, 0, UP), Ours(Listener(0)));
    assert Await(put, [HostDies, Ask]) == Happens(Happens(put, HostDies), Ask);
    assert Await(spawned, [HostDies, Ask]) == Happens(Happens(spawned, HostDies), Ask);
  }

  // ---- what a caller gets ------------------------------------------------------------------

  /** A disconnect lets go of everything: whatever happens meanwhile, the setting is cleared and nothing is held. */
  lemma DisconnectClears(v: Vpn, onRelease: seq<Event>, onClear: seq<Event>)
    ensures var w := Disconnect(v, onRelease, onClear);
            && w.setting == Unset && !w.proxied && !w.tunnelUp && !w.releasing
            && w.auth.None? && w.endpoints.None? && w.port.None?
  {
    var releasing := v.(releasing := true);
    WindowOnlyBlocks(releasing, onRelease);
    WindowOnlyBlocks(Put(Told(releasing, onRelease), Unset), onClear);
  }

  lemma UndoneRestores(v: Vpn, before: Option<Setting>, hardened: bool, d: Dial)
    requires !v.tunnelUp
    ensures var w := Undone(v, before, hardened, d).0;
            && w.setting == (if !hardened then v.setting else if before.None? then Unset else before.value)
            && w.proxied == v.proxied && !w.tunnelUp && !w.connecting
            && w.auth.None? && w.endpoints.None? && w.port.None?
  {
    if hardened {
      WindowOnlyBlocks(Put(v.(endpoints := None, auth := None),
                           if before.Some? && before.value.Ours? then before.value else Unset), d.onRestore);
    }
  }

  /** From the answer on, a connect that fails puts the setting back, and one that succeeds names its listener. */
  lemma RoutedEnds(v: Vpn, h: HostId, before: Option<Setting>, d: Dial)
    requires !v.tunnelUp && d.response.Answer? && (before.Some? ==> before.value == v.setting)
    ensures var (w, status) := Routed(v, h, before, d);
            if status == Connected(h) then
              && FullAnswer(d) && w.setting == Ours(Listener(h)) && w.proxied && w.tunnelUp && !w.connecting
              && w.endpoints == Some(Endpoints(h, d.response.http, d.response.socks5))
              && (w.auth.None? || w.auth == Some(Auth(h, d.response.credentials.value)))
            else
              && status == Failed && (before.Some? || d.response.credentials.None? ==> w.setting == v.setting)
              && (before.None? && d.response.credentials.Some? ==> w.setting == Unset)
              && w.auth.None? && w.endpoints.None? && w.port.None? && !w.tunnelUp && !w.connecting
  {
    var hardened := Await(v, d.onHarden);
    WindowOnlyBlocks(v, d.onHarden);
    if d.response.credentials.None? {
      UndoneRestores(v, before, false, d);
    } else if hardened.portDead {
      UndoneRestores(hardened, before, true, d);
    } else {
      var held := Given(hardened, h, d);
      UndoneRestores(held, before, true, d);
      var put := Put(held, Ours(Listener(h)));
      WindowOnlyBlocks(put, d.onRoute);
      WindowOnlyBlocks(Await(put, d.onRoute), d.onVerify);
      UndoneRestores(Pointed(held, h, d), before, true, d);
    }
  }

  /**
   A connect over a readable setting, in every state and interleaving: refused it changes nothing,
   failed it leaves the setting it found and holds nothing, and successful it holds the listeners
   of its own host's answer and points the browser at them.
   */
  lemma ConnectEnds(v: Vpn, d: Dial)
    requires d.readable
    ensures var (w, status) := Connect(v, d);
            match status
            case Refused => w == v && (v.connecting || v.tunnelUp)
            case Failed => w.setting == v.setting && w.auth.None? && w.endpoints.None? && w.port.None? && !w.tunnelUp
            case Connected(h) =>
              && FullAnswer(d) && w.setting == Ours(Listener(h)) && w.proxied && w.tunnelUp && !w.connecting
              && w.endpoints == Some(Endpoints(h, d.response.http, d.response.socks5))
              && (w.auth.None? || w.auth == Some(Auth(h, d.response.credentials.value)))
  {
    if !v.connecting && !v.tunnelUp {
      var before := Some(v.setting);
      var begun := v.(connecting := true);
      var asked := Await(begun, d.beforeRequest);
      WindowOnlyBlocks(begun, d.beforeRequest);
      UndoneRestores(asked, before, false, d);
      var spawned := OpenPort(asked);
      var answered := Await(spawned, d.onRequest);
      WindowOnlyBlocks(spawned, d.onRequest);
      UndoneRestores(answered, before, false, d);
      if d.response.Answer? { RoutedEnds(answered.(greeted := true), spawned.port.value, before, d); }
    }
  }

  /** With no death after the answer, the credentials of the answer are held. */
  lemma CredentialsOfTheAnswer(v: Vpn, h: HostId, before: Option<Setting>, d: Dial)
    requires FullAnswer(d) && NoDeath(d) && Routed(v, h, before, d).1 == Connected(h)
    ensures Routed(v, h, before, d).0.auth == Some(Auth(h, d.response.credentials.value))
  {
    var held := Given(Await(v, d.onHarden), h, d);
    AuthKept(Put(held, Ours(Listener(h))), d.onRoute);
    AuthKept(Await(Put(held, Ours(Listener(h))), d.onRoute), d.onVerify);
  }

  /** Credentials go to the two addresses of the held listeners, and to no other. */
  lemma CredentialsGoToTheListeners(v: Vpn, listener: string)
    ensures ForListener(v, listener).Some? <==>
              && v.auth.Some? && v.endpoints.Some?
              && (v.endpoints.value.socks5 == listener || v.endpoints.value.http == Some(listener))
    ensures ForListener(v, listener).Some? ==> ForListener(v, listener) == v.auth
  {
  }

  /** New split rules are written at once, for the live tunnel's own listener; without one nothing is. */
  lemma ResplitWrites(v: Vpn, onRoute: seq<Event>, onVerify: seq<Event>)
    ensures var (w, status) := ApplySplit(v, onRoute, onVerify);
            if v.tunnelUp && v.endpoints.Some? && v.endpoints.value.http.Some? then
              && status == Connected(v.endpoints.value.host)
              && v.writes + [Ours(Listener(v.endpoints.value.host))] <= w.writes
            else w == v && status == if v.tunnelUp && v.endpoints.Some? then Failed else Refused
  {
    if v.tunnelUp && v.endpoints.Some? && v.endpoints.value.http.Some? {
      var put := Put(v, Ours(Listener(v.endpoints.value.host)));
      WritesGrow(put, onRoute);
      WritesGrow(Await(put, onRoute), onVerify);
    }
  }

  lemma {:induction false} WritesGrow(v: Vpn, events: seq<Event>)
    ensures v.writes <= Await(v, events).writes
    decreases |events|
  {
    if events != [] { WritesGrow(Happens(v, events[0]), events[1..]); }
  }

  /** A reconnect dials from a blocked browser and a controller that holds nothing; failing, it stays blocked. */
  lemma ReconnectDials(v: Vpn, onBlock: seq<Event>, onRelease: seq<Event>, d: Dial) returns (released: Vpn)
    requires v.tunnelUp && !v.connecting
    ensures Reconnect(v, onBlock, onRelease, d) == Connect(released, d)
    ensures released.setting == Ours(Lockdown) && released.proxied == v.proxied && released.port.None?
    ensures !released.tunnelUp && !released.connecting && released.auth.None? && released.endpoints.None?
    ensures d.readable && !Reconnect(v, onBlock, onRelease, d).1.Connected? ==>
              Reconnect(v, onBlock, onRelease, d).0.setting == Ours(Lockdown)
  {
    var put := Put(v, Ours(Lockdown));
    var blocked := Await(put, onBlock);
    WindowOnlyBlocks(put, onBlock);
    WindowOnlyBlocks(blocked.(releasing := true), onRelease);
    released := LetGo(Told(blocked.(releasing := true), onRelease));
    if d.readable { ConnectEnds(released, d); }
  }

  /** Without a tunnel a reconnect is a connect; beside a connect it is refused. */
  lemma ReconnectOtherwise(v: Vpn, onBlock: seq<Event>, onRelease: seq<Event>, d: Dial)
    requires !v.tunnelUp || v.connecting
    ensures Reconnect(v, onBlock, onRelease, d) == if v.tunnelUp then (v, Refused) else Connect(v, d)
  {
  }

  // ---- no idle host --------------------------------------------------------------------------

  /** With no tunnel, no connect and no question, no host process is attached. */
  predicate IdleIsDetached(v: Vpn) {
    v.questions == 0 && !v.tunnelUp && !v.connecting ==> v.port.None? || v.portDead
  }

  lemma EventDetaches(v: Vpn, e: Event)
    requires IdleIsDetached(v)
    ensures IdleIsDetached(Happens(v, e))
  {
  }

  lemma {:induction false} WindowDetaches(v: Vpn, events: seq<Event>)
    requires IdleIsDetached(v)
    ensures IdleIsDetached(Await(v, events))
    decreases |events|
  {
    if events != [] {
      EventDetaches(v, events[0]);
      WindowDetaches(Happens(v, events[0]), events[1..]);
    }
  }

  lemma ConnectDetaches(v: Vpn, d: Dial)
    requires IdleIsDetached(v)
    ensures IdleIsDetached(Connect(v, d).0)
  {
  }

  lemma ActDetaches(v: Vpn, a: Action)
    requires IdleIsDetached(v)
    ensures IdleIsDetached(Act(v, a))
  {
    match a {
      case Dials(d) => ConnectDetaches(v, d);
      case Redials(onBlock, onRelease, d) =>
        ConnectDetaches(v, d);
        ConnectDetaches(LetGo(Told(Await(Put(v, Ours(Lockdown)), onBlock).(releasing := true), onRelease)), d);
      case Resplits(onRoute, onVerify) =>
        if v.tunnelUp && v.endpoints.Some? {
          var put := Put(v, Ours(Listener(v.endpoints.value.host)));
          WindowDetaches(put, onRoute);
          WindowDetaches(Await(put, onRoute), onVerify);
        }
      case Releases(onRelease, onClear) =>
      case Rests(events) => WindowDetaches(v, events);
    }
  }

  /** After every run, an idle controller keeps no host process: the last question to end lets it go. */
  lemma {:induction false} IdleKeepsNoHost(v: Vpn, actions: seq<Action>)
    requires IdleIsDetached(v)
    ensures IdleIsDetached(Run(v, actions))
    decreases |actions|
  {
    if actions != [] {
      ActDetaches(v, actions[0]);
      IdleKeepsNoHost(Act(v, actions[0]), actions[1..]);
    }
  }
}
