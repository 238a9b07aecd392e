/**
 The stock of pre-minted session tokens (`token-manager.ts`): the store, the settle ledger,
 the persisted bundle and the device revocation, changed by overlapping refreshes and by
 takes. JSON and base64 are transparent: a bundle is the value it spells.
 */
module TokenStock {
  import opened BlindToken
  import opened Octets
  import opened Results

  type Epoch = int

  const BUNDLE_VERSION := 1

  /** What the persistence seam holds. */
  datatype Bundle = Bundle(v: int, epochSecs: int, epochs: map<Epoch, seq<Bytes>>)

  datatype Stock = Stock(
    store: map<Epoch, seq<Bytes>>, settled: set<Epoch>, epochSecs: Option<int>, revoked: bool, saved: Option<Bundle>)

  // ---- persistence -----------------------------------------------------------

  function Persist(s: Stock): Stock {
    s.(saved := Some(Bundle(BUNDLE_VERSION, if s.epochSecs.Some? then s.epochSecs.value else 0, s.store)))
  }

  /** Entries of another length than a token's are skipped. */
  function TokensOnly(entries: seq<Bytes>): (tokens: seq<Bytes>)
    ensures forall t :: t in tokens ==> |t| == TOKEN_LEN
  {
    if entries == [] then []
    else if |entries[0]| == TOKEN_LEN then [entries[0]] + TokensOnly(entries[1..])
    else TokensOnly(entries[1..])
  }

  /** What a restarted process reads: nothing from an absent, unreadable or foreign bundle. */
  function Loaded(saved: Option<Bundle>): (Option<int>, map<Epoch, seq<Bytes>>) {
    if saved.None? || saved.value.v != BUNDLE_VERSION then (None, map[])
    else
      var b := saved.value;
      (if b.epochSecs > 0 then Some(b.epochSecs) else None, ReadBack(b.epochs, b.epochs.Keys))
  }

  /** What is stocked of some epochs of a bundle: those not negative, with their well-formed tokens if any. */
  function ReadBack(epochs: map<Epoch, seq<Bytes>>, some: set<Epoch>): map<Epoch, seq<Bytes>> {
    map e | e in epochs && e in some && e >= 0 && TokensOnly(epochs[e]) != [] :: TokensOnly(epochs[e])
  }

  function Opened(saved: Option<Bundle>): Stock {
    var (epochSecs, store) := Loaded(saved);
    Stock(store, {}, epochSecs, false, saved)
  }

  /** The stock up to epochs with an empty list. */
  function NonEmpty(store: map<Epoch, seq<Bytes>>): map<Epoch, seq<Bytes>> {
    map e | e in store && store[e] != [] :: store[e]
  }

  /** Reloading the saved bundle gives what is in memory. */
  ghost predicate InStep(s: Stock) {
    Loaded(s.saved) == (s.epochSecs, NonEmpty(s.store))
  }

  // ---- the synchronous pieces --------------------------------------------------

  function Revoke(s: Stock): Stock { Persist(s.(revoked := true, store := map[])) }

  function EpochAt(s: Stock, now: nat): Option<Epoch> {
    if s.epochSecs.None? || s.epochSecs.value <= 0 then None else Some(now / s.epochSecs.value)
  }

  /** Pops one token of the current epoch. */
  function Take(s: Stock, now: nat): (Stock, Option<Bytes>) {
    var epoch := EpochAt(s, now);
    if epoch.None? || epoch.value !in s.store || s.store[epoch.value] == [] then (s, None)
    else
      var tokens := s.store[epoch.value];
      var rest := tokens[..|tokens| - 1];
      var store := if rest == [] then s.store - {epoch.value} else s.store[epoch.value := rest];
      (Persist(s.(store := store)), Some(tokens[|tokens| - 1]))
  }

  /** Spent epochs go, the new epoch length is learned, and what is left to mint is listed. */
  function Published(s: Stock, now: nat, epochSecs: int, keys: seq<Epoch>): (Stock, seq<Epoch>)
    requires epochSecs > 0
  {
    var current := now / epochSecs;
    var pruned := s.(store := (map e | e in s.store && e >= current :: s.store[e]),
                     settled := (set e | e in s.settled && e >= current),
                     epochSecs := Some(epochSecs));
    (pruned, Wanted(keys, current, pruned.settled))
  }

  function Wanted(keys: seq<Epoch>, current: Epoch, settled: set<Epoch>): (targets: seq<Epoch>)
    ensures forall e :: e in targets <==> e in keys && e >= current && e !in settled
  {
    if keys == [] then []
    else (if keys[0] >= current && keys[0] !in settled then [keys[0]] else []) + Wanted(keys[1..], current, settled)
  }

  /** How minting one epoch ended. */
  datatype Mint = Tokens(tokens: seq<Bytes>) | DeviceRevoked | EveryEpochRefused | AlreadyIssued | Transient

  /** The stock after one epoch, and whether the pass goes on. */
  function Minted(s: Stock, epoch: Epoch, mint: Mint): (Stock, bool) {
    match mint
    case Tokens(tokens) =>
      if s.revoked then (s, true)
      else (s.(settled := s.settled + {epoch},
               store := s.store[epoch := (if epoch in s.store then s.store[epoch] else []) + tokens]), true)
    case DeviceRevoked => (Revoke(s), false)
    case EveryEpochRefused => (Persist(s), false)
    case AlreadyIssued => (s.(settled := s.settled + {epoch}), true)
    case Transient => (s, true)
  }

  // ---- refreshes and takes, interleaved ------------------------------------------

  datatype Registration = Registered | RegistrationRevoked | LimitReached | RegistrationFailed

  /** Where a refresh is parked. */
  datatype Refresh = Registering(now: nat) | Fetching(now: nat) | Minting(targets: seq<Epoch>)

  datatype World = World(stock: Stock, refreshes: map<nat, Refresh>)

  datatype Event =
    | Start(id: nat, now: nat)
    | Answered(id: nat, registration: Registration)
    | Fetched(id: nat, directory: Option<(int, seq<Epoch>)>)
    | MintEnds(id: nat, mint: Mint)
    | Taken(now: nat)

  predicate Enabled(w: World, e: Event) {
    match e
    case Start(id, _) => id !in w.refreshes
    case Answered(id, _) => id in w.refreshes && w.refreshes[id].Registering?
    case Fetched(id, _) => id in w.refreshes && w.refreshes[id].Fetching?
    case MintEnds(id, mint) =>
      && id in w.refreshes && w.refreshes[id].Minting? && w.refreshes[id].targets != []
      && (mint.Tokens? ==> forall t :: t in mint.tokens ==> |t| == TOKEN_LEN)
    case Taken(_) => true
  }

  /** A pass over the remaining targets: it ends by persisting when there are none. */
  function GoOn(s: Stock, refreshes: map<nat, Refresh>, id: nat, targets: seq<Epoch>): World {
    if targets == [] then World(Persist(s), refreshes - {id}) else World(s, refreshes[id := Minting(targets)])
  }

  function Step(w: World, e: Event): World
    requires Enabled(w, e)
  {
    match e
    case Start(id, now) => if w.stock.revoked then w else w.(refreshes := w.refreshes[id := Registering(now)])
    case Answered(id, registration) =>
      var ended := w.refreshes - {id};
      (match registration
       case RegistrationRevoked => World(Revoke(w.stock), ended)
       case LimitReached => w.(refreshes := ended)
       case _ => w.(refreshes := w.refreshes[id := Fetching(w.refreshes[id].now)]))
    case Fetched(id, directory) =>
      if directory.None? || directory.value.0 <= 0 then w.(refreshes := w.refreshes - {id})
      else
        var (s, targets) := Published(w.stock, w.refreshes[id].now, directory.value.0, directory.value.1);
        GoOn(s, w.refreshes, id, targets)
    case MintEnds(id, mint) =>
      var targets := w.refreshes[id].targets;
      var (s, more) := Minted(w.stock, targets[0], mint);
      if more then GoOn(s, w.refreshes, id, targets[1..]) else World(s, w.refreshes - {id})
    case Taken(now) => w.(stock := Take(w.stock, now).0)
  }

  predicate IsRun(w: World, es: seq<Event>)
    decreases |es|
  {
    es == [] || (Enabled(w, es[0]) && IsRun(Step(w, es[0]), es[1..]))
  }

  function Run(w: World, es: seq<Event>): World
    requires IsRun(w, es)
    decreases |es|
  {
    if es == [] then w else Run(Step(w, es[0]), es[1..])
  }

  // ---- what every step keeps -------------------------------------------------------

  /** The store holds tokens of non-negative epochs, and the epoch length is positive. */
  ghost predicate Tidy(s: Stock) {
    && (forall e :: e in s.store ==> e >= 0 && forall t :: t in s.store[e] ==> |t| == TOKEN_LEN)
    && (s.epochSecs.Some? ==> s.epochSecs.value > 0)
  }

  /** A revoked device has nothing in memory and nothing saved. */
  ghost predicate NothingLeft(s: Stock) {
    s.revoked ==> s.store == map[] && s.saved.Some? && s.saved.value.epochs == map[]
  }

  ghost predicate Inv(w: World) {
    && Tidy(w.stock) && NothingLeft(w.stock)
    && (forall id :: id in w.refreshes && w.refreshes[id].Minting? ==>
          forall e :: e in w.refreshes[id].targets ==> e >= 0)
    && (Pending(w) || InStep(w.stock))
  }

  /** Some refresh is between the directory and the end of its pass. */
  ghost predicate Pending(w: World) {
    exists id :: id in w.refreshes && w.refreshes[id].Minting?
  }

  /** A refresh that was not minting moves on: the others are as they were. */
  lemma StillPending(w: World, w': World, id: nat)
    requires Pending(w) && (id in w.refreshes ==> !w.refreshes[id].Minting?)
    requires forall i :: i in w.refreshes && i != id ==> i in w'.refreshes && w'.refreshes[i] == w.refreshes[i]
    ensures Pending(w')
  {
    var m :| m in w.refreshes && w.refreshes[m].Minting?;
    assert m in w'.refreshes && w'.refreshes[m].Minting?;
  }

  lemma {:induction false} AllAreTokens(entries: seq<Bytes>)
    requires forall t :: t in entries ==> |t| == TOKEN_LEN
    ensures TokensOnly(entries) == entries
  {
    if entries != [] {
      assert entries[0] in entries;
      AllAreTokens(entries[1..]);
    }
  }

  /** Saving a tidy stock puts the bundle in step with it. */
  lemma PersistInStep(s: Stock)
    requires Tidy(s)
    ensures InStep(Persist(s))
  {
    forall e | e in s.store ensures TokensOnly(s.store[e]) == s.store[e] {
      AllAreTokens(s.store[e]);
    }
    assert Loaded(Persist(s).saved).1 == NonEmpty(s.store);
  }

  lemma LoadedIsTidy(saved: Option<Bundle>)
    ensures Inv(World(Opened(saved), map[]))
  {
    assert NonEmpty(Opened(saved).store) == Opened(saved).store;
  }

  lemma TakeKeeps(s: Stock, now: nat)
    requires Tidy(s) && NothingLeft(s)
    ensures Tidy(Take(s, now).0) && NothingLeft(Take(s, now).0)
    ensures Take(s, now).0 == s || InStep(Take(s, now).0)
  {
    var next := Take(s, now).0;
    if next != s {
      assert Tidy(next);
      PersistInStep(next);
    }
  }

  lemma MintedKeeps(s: Stock, epoch: Epoch, mint: Mint)
    requires Tidy(s) && NothingLeft(s) && epoch >= 0
    requires mint.Tokens? ==> forall t :: t in mint.tokens ==> |t| == TOKEN_LEN
    ensures Tidy(Minted(s, epoch, mint).0) && NothingLeft(Minted(s, epoch, mint).0)
    ensures !Minted(s, epoch, mint).1 ==> InStep(Minted(s, epoch, mint).0)
  {
    if mint.DeviceRevoked? { PersistInStep(s.(revoked := true, store := map[])); }
    if mint.EveryEpochRefused? { PersistInStep(s); }
  }

  lemma GoOnKeeps(w: World, s: Stock, id: nat, targets: seq<Epoch>)
    requires Inv(w) && Tidy(s) && NothingLeft(s) && forall e :: e in targets ==> e >= 0
    ensures Inv(GoOn(s, w.refreshes, id, targets))
  {
    PersistInStep(s);
    if targets != [] {
      var next := GoOn(s, w.refreshes, id, targets);
      assert id in next.refreshes && next.refreshes[id].Minting?;
    }
  }

  lemma StepKeeps(w: World, e: Event)
    requires Inv(w) && Enabled(w, e)
    ensures Inv(Step(w, e))
  {
    if Pending(w) && !e.Taken? && !e.MintEnds? { StillPending(w, Step(w, e), e.id); }
    match e {
      case Start(id, now) =>
      case Answered(id, registration) =>
        if registration.RegistrationRevoked? { PersistInStep(w.stock.(revoked := true, store := map[])); }
      case Fetched(id, directory) =>
        if directory.Some? && directory.value.0 > 0 {
          var (s, targets) := Published(w.stock, w.refreshes[id].now, directory.value.0, directory.value.1);
          assert w.refreshes[id].now / directory.value.0 >= 0;
          GoOnKeeps(w, s, id, targets);
        }
      case MintEnds(id, mint) =>
        var targets := w.refreshes[id].targets;
        assert targets[0] in targets && forall e :: e in targets[1..] ==> e in targets;
        MintedKeeps(w.stock, targets[0], mint);
        var (s, more) := Minted(w.stock, targets[0], mint);
        if more { GoOnKeeps(w, s, id, targets[1..]); }
      case Taken(now) =>
        TakeKeeps(w.stock, now);
        if Pending(w) { assert Pending(Step(w, e)); }
    }
  }

  // ---- what holds of every run --------------------------------------------------------

  lemma {:induction false} RunKeeps(w: World, es: seq<Event>)
    requires Inv(w) && IsRun(w, es)
    ensures Inv(Run(w, es))
    decreases |es|
  {
    if es != [] {
      StepKeeps(w, es[0]);
      RunKeeps(Step(w, es[0]), es[1..]);
    }
  }

  /** With no refresh in flight, a restart finds exactly the stock in memory. */
  lemma ReloadFindsTheStock(saved: Option<Bundle>, es: seq<Event>)
    requires IsRun(World(Opened(saved), map[]), es)
    requires Run(World(Opened(saved), map[]), es).refreshes == map[]
    ensures
      var s := Run(World(Opened(saved), map[]), es).stock;
      && Opened(s.saved).store == NonEmpty(s.store)
      && Opened(s.saved).epochSecs == s.epochSecs
  {
    LoadedIsTidy(saved);
    RunKeeps(World(Opened(saved), map[]), es);
  }

  /** Revocation is for good: from then on nothing is in stock and nothing is saved. */
  lemma {:induction false} RevokedForGood(w: World, es: seq<Event>)
    requires Inv(w) && w.stock.revoked && IsRun(w, es)
    ensures
      var s := Run(w, es).stock;
      s.revoked && s.store == map[] && s.saved.Some? && s.saved.value.epochs == map[]
    decreases |es|
  {
    if es != [] {
      StepKeeps(w, es[0]);
      RevokedForGood(Step(w, es[0]), es[1..]);
    }
  }

  /** A token taken is gone from memory and from the saved bundle, and nothing else is. */
  lemma TakeConserves(s: Stock, now: nat)
    requires Tidy(s) && Take(s, now).1.Some?
    ensures
      var (after, token) := Take(s, now);
      var epoch := EpochAt(s, now).value;
      && multiset(if epoch in after.store then after.store[epoch] else []) + multiset{token.value}
         == multiset(s.store[epoch])
      && (forall e :: e != epoch ==> (e in after.store <==> e in s.store))
      && (forall e :: e != epoch && e in s.store ==> after.store[e] == s.store[e])
      && after.saved == Some(Bundle(BUNDLE_VERSION, s.epochSecs.value, after.store))
  {
    var tokens := s.store[EpochAt(s, now).value];
    assert tokens == tokens[..|tokens| - 1] + [tokens[|tokens| - 1]];
  }

  // ---- the manager object --------------------------------------------------------------

  lemma {:induction false} TokensOnlySplits(a: seq<Bytes>, b: seq<Bytes>)
    ensures TokensOnly(a + b) == TokensOnly(a) + TokensOnly(b)
  {
    if a == [] {
      assert a + b == b;
    } else {
      assert (a + b)[1..] == a[1..] + b;
      TokensOnlySplits(a[1..], b);
    }
  }

  class TokenManager {
    var store: map<Epoch, seq<Bytes>>
    var settled: set<Epoch>
    var epochSecs: Option<int>
    var revoked: bool
    var saved: Option<Bundle>

    ghost function View(): Stock
      reads this
    {
      Stock(store, settled, epochSecs, revoked, saved)
    }

    constructor (found: Option<Bundle>)
      ensures View() == Opened(found)
    {
      store, settled, epochSecs, revoked, saved := map[], {}, None, false, found;
      new;
      LoadPersisted();
    }

    /** Reads the saved bundle epoch by epoch; one that is absent or foreign leaves the stock empty. */
    method LoadPersisted()
      requires store == map[] && epochSecs == None
      modifies this`epochSecs, this`store
      ensures (epochSecs, store) == Loaded(saved)
    {
      if saved.None? || saved.value.v != BUNDLE_VERSION {
        return;
      }
      var b := saved.value;
      if b.epochSecs > 0 {
        epochSecs := Some(b.epochSecs);
      }
      store := ReadEpochs(b.epochs);
    }

    static method ReadEpochs(epochs: map<Epoch, seq<Bytes>>) returns (store: map<Epoch, seq<Bytes>>)
      ensures store == ReadBack(epochs, epochs.Keys)
    {
      store := map[];
      var left := epochs.Items;
      ghost var seen: set<Epoch> := {};
      while left != {}
        invariant left <= epochs.Items
        invariant forall e :: e in epochs ==> (e in seen <==> (e, epochs[e]) !in left)
        invariant seen <= epochs.Keys && store == ReadBack(epochs, seen)
        decreases left
      {
        var entry :| entry in left;
        left := left - {entry};
        var (epoch, encoded) := entry;
        var tokens := ReadEntries(encoded);
        if epoch >= 0 && tokens != [] {
          store := store[epoch := tokens];
        }
        seen := seen + {epoch};
      }
      assert forall e :: e in epochs ==> e in seen;
    }

    /** One epoch's entries of a bundle, the malformed ones skipped. */
    static method ReadEntries(entries: seq<Bytes>) returns (tokens: seq<Bytes>)
      ensures tokens == TokensOnly(entries)
    {
      tokens := [];
      for i := 0 to |entries|
        invariant tokens == TokensOnly(entries[..i])
      {
        assert entries[..i + 1] == entries[..i] + [entries[i]];
        TokensOnlySplits(entries[..i], [entries[i]]);
        if |entries[i]| == TOKEN_LEN {
          tokens := tokens + [entries[i]];
        }
      }
      assert entries[..|entries|] == entries;
    }

    method Save()
      modifies this
      ensures View() == Persist(old(View()))
    {
      saved := Some(Bundle(BUNDLE_VERSION, if epochSecs.Some? then epochSecs.value else 0, store));
    }

    method OnRevoked()
      modifies this
      ensures View() == Revoke(old(View()))
    {
      revoked := true;
      store := map[];
      Save();
    }

    method TakeCurrentStack(now: nat) returns (token: Option<Bytes>)
      modifies this
      ensures (View(), token) == Take(old(View()), now)
    {
      if epochSecs.None? || epochSecs.value <= 0 {
        return None;
      }
      var epoch := now / epochSecs.value;
      if epoch !in store || store[epoch] == [] {
        return None;
      }
      var tokens := store[epoch];
      token := Some(tokens[|tokens| - 1]);
      tokens := tokens[..|tokens| - 1];
      if tokens == [] {
        store := store - {epoch};
      } else {
        store := store[epoch := tokens];
      }
      Save();
    }

    /** The directory arrived: prune, learn the epoch length, list what to mint. */
    method OnDirectory(now: nat, length: int, keys: seq<Epoch>) returns (targets: seq<Epoch>)
      requires length > 0
      modifies this
      ensures (View(), targets) == Published(old(View()), now, length, keys)
    {
      var current := now / length;
      store := map e | e in store && e >= current :: store[e];
      settled := set e | e in settled && e >= current;
      epochSecs := Some(length);
      targets := Wanted(keys, current, settled);
    }

    /** One epoch's mint ended; `more` tells whether the pass goes on. */
    method OnMinted(epoch: Epoch, mint: Mint) returns (more: bool)
      modifies this
      ensures (View(), more) == Minted(old(View()), epoch, mint)
    {
      match mint {
        case Tokens(tokens) =>
          if !revoked {
            settled := settled + {epoch};
            store := store[epoch := (if epoch in store then store[epoch] else []) + tokens];
          }
          return true;
        case DeviceRevoked =>
          OnRevoked();
          return false;
        case EveryEpochRefused =>
          Save();
          return false;
        case AlreadyIssued =>
          settled := settled + {epoch};
          return true;
        case Transient => return true;
      }
    }
  }
}
