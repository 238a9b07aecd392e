/**
 Where session tokens go (`token-manager.ts`): over every interleaving of refreshes and takes,
 what an epoch held and what was minted for it is what is stocked, taken or pruned.
 */
module TokenFlow {
  import opened Octets
  import opened Results
  import opened TokenStock

  /** The tokens stocked for an epoch. */
  function Held(s: Stock, epoch: Epoch): multiset<Bytes> {
    if epoch in s.store then multiset(s.store[epoch]) else multiset{}
  }

  /** What a step brings into an epoch: the tokens an unrevoked refresh minted for it. */
  function MintedBy(w: World, e: Event, epoch: Epoch): multiset<Bytes>
    requires Enabled(w, e)
  {
    if e.MintEnds? && e.mint.Tokens? && w.refreshes[e.id].targets[0] == epoch && !w.stock.revoked
    then multiset(e.mint.tokens)
    else multiset{}
  }

  /** What a step hands out of an epoch: the token a take returns, at a time that falls in it. */
  function TakenBy(w: World, e: Event, epoch: Epoch): multiset<Bytes>
    requires Enabled(w, e)
  {
    if e.Taken? && w.stock.epochSecs.Some? && w.stock.epochSecs.value > 0 && e.now / w.stock.epochSecs.value == epoch
       && Take(w.stock, e.now).1.Some?
    then multiset{Take(w.stock, e.now).1.value}
    else multiset{}
  }

  /** What a step drops of an epoch: all of it, when a directory shows that it has passed. */
  function PrunedBy(w: World, e: Event, epoch: Epoch): multiset<Bytes>
    requires Enabled(w, e)
  {
    if e.Fetched? && e.directory.Some? && e.directory.value.0 > 0
       && epoch < w.refreshes[e.id].now / e.directory.value.0
    then Held(w.stock, epoch)
    else multiset{}
  }

  lemma TakeStepConserves(s: Stock, now: nat, epoch: Epoch)
    requires Tidy(s) && Take(s, now).1.Some?
    ensures var (after, token) := Take(s, now);
            Held(s, epoch) == Held(after, epoch)
                              + if now / s.epochSecs.value == epoch then multiset{token.value} else multiset{}
  {
    TakeConserves(s, now);
  }

  lemma MintStepConserves(s: Stock, target: Epoch, mint: Mint, epoch: Epoch)
    requires !TokenStock.Minted(s, target, mint).0.revoked
    ensures var after := TokenStock.Minted(s, target, mint).0;
            Held(after, epoch) ==
              if mint.Tokens? && target == epoch then Held(s, epoch) + multiset(mint.tokens) else Held(s, epoch)
  {
  }

  lemma FetchStepConserves(s: Stock, now: nat, length: int, keys: seq<Epoch>, epoch: Epoch)
    requires length > 0
    ensures var after := Published(s, now, length, keys).0;
            Held(after, epoch) == if epoch < now / length then multiset{} else Held(s, epoch)
  {
  }

  /** The law for one step. */
  predicate Conserves(w: World, e: Event, epoch: Epoch)
    requires Enabled(w, e)
  {
    Held(w.stock, epoch) + MintedBy(w, e, epoch)
    == Held(Step(w, e).stock, epoch) + TakenBy(w, e, epoch) + PrunedBy(w, e, epoch)
  }

  lemma TakenConserves(w: World, now: nat, epoch: Epoch)
    requires Tidy(w.stock)
    ensures Conserves(w, Event.Taken(now), epoch)
  {
    if Take(w.stock, now).1.Some? { TakeStepConserves(w.stock, now, epoch); }
  }

  /** Saving changes nothing in the stock itself. */
  lemma MintStepStock(w: World, id: nat, mint: Mint)
    requires Enabled(w, MintEnds(id, mint))
    ensures var after := Step(w, MintEnds(id, mint)).stock;
            var minted := TokenStock.Minted(w.stock, w.refreshes[id].targets[0], mint).0;
            && after.store == minted.store && after.revoked == minted.revoked
            && (!minted.revoked ==> !w.stock.revoked)
  {
  }

  lemma MintConserves(w: World, id: nat, mint: Mint, epoch: Epoch)
    requires Enabled(w, MintEnds(id, mint)) && !Step(w, MintEnds(id, mint)).stock.revoked
    ensures Conserves(w, MintEnds(id, mint), epoch)
  {
    MintStepStock(w, id, mint);
    MintStepConserves(w.stock, w.refreshes[id].targets[0], mint, epoch);
    assert Held(Step(w, MintEnds(id, mint)).stock, epoch) ==
           Held(w.stock, epoch) + MintedBy(w, MintEnds(id, mint), epoch);
  }

  lemma FetchConserves(w: World, id: nat, directory: Option<(int, seq<Epoch>)>, epoch: Epoch)
    requires Enabled(w, Fetched(id, directory))
    ensures Conserves(w, Fetched(id, directory), epoch)
  {
    if directory.Some? && directory.value.0 > 0 {
      FetchStepConserves(w.stock, w.refreshes[id].now, directory.value.0, directory.value.1, epoch);
    }
  }

  /** A step of a manager that is not revoked conserves the tokens of every epoch. */
  lemma StepConserves(w: World, e: Event, epoch: Epoch)
    requires Enabled(w, e) && Tidy(w.stock) && !Step(w, e).stock.revoked
    ensures Conserves(w, e, epoch)
  {
    match e {
      case Taken(now) => TakenConserves(w, now, epoch);
      case MintEnds(id, mint) => MintConserves(w, id, mint, epoch);
      case Fetched(id, directory) => FetchConserves(w, id, directory, epoch);
      case Start(id, now) =>
      case Answered(id, registration) =>
    }
  }

  lemma Balance(
    a: multiset<Bytes>, b: multiset<Bytes>, c: multiset<Bytes>, m: multiset<Bytes>, t: multiset<Bytes>,
    p: multiset<Bytes>, m': multiset<Bytes>, t': multiset<Bytes>, p': multiset<Bytes>)
    requires a + m == b + t + p && b + m' == c + t' + p'
    ensures a + (m + m') == c + (t + t') + (p + p')
  {
    forall x: Bytes ensures (a + (m + m'))[x] == (c + (t + t') + (p + p'))[x] {
      assert (a + m)[x] == (b + t + p)[x] && (b + m')[x] == (c + t' + p')[x];
    }
  }

  function Minted(w: World, es: seq<Event>, epoch: Epoch): multiset<Bytes>
    requires IsRun(w, es)
    decreases |es|
  {
    if es == [] then multiset{} else MintedBy(w, es[0], epoch) + Minted(Step(w, es[0]), es[1..], epoch)
  }

  function Taken(w: World, es: seq<Event>, epoch: Epoch): multiset<Bytes>
    requires IsRun(w, es)
    decreases |es|
  {
    if es == [] then multiset{} else TakenBy(w, es[0], epoch) + Taken(Step(w, es[0]), es[1..], epoch)
  }

  function Pruned(w: World, es: seq<Event>, epoch: Epoch): multiset<Bytes>
    requires IsRun(w, es)
    decreases |es|
  {
    if es == [] then multiset{} else PrunedBy(w, es[0], epoch) + Pruned(Step(w, es[0]), es[1..], epoch)
  }

  /** Over every run that does not end revoked: held and minted is stocked, taken and pruned. */
  lemma {:induction false} RunConserves(w: World, es: seq<Event>, epoch: Epoch)
    requires Inv(w) && IsRun(w, es) && !Run(w, es).stock.revoked
    ensures Held(w.stock, epoch) + Minted(w, es, epoch)
         == Held(Run(w, es).stock, epoch) + Taken(w, es, epoch) + Pruned(w, es, epoch)
    decreases |es|
  {
    if es != [] {
      var next := Step(w, es[0]);
      StepKeeps(w, es[0]);
      if next.stock.revoked { RevokedForGood(next, es[1..]); }
      StepConserves(w, es[0], epoch);
      RunConserves(next, es[1..], epoch);
      Balance(Held(w.stock, epoch), Held(next.stock, epoch), Held(Run(next, es[1..]).stock, epoch),
              MintedBy(w, es[0], epoch), TakenBy(w, es[0], epoch), PrunedBy(w, es[0], epoch),
              Minted(next, es[1..], epoch), Taken(next, es[1..], epoch), Pruned(next, es[1..], epoch));
    }
  }

  // ---- what is taken, asked for and settled ------------------------------------------------------

  /** A take gives a token exactly when the epoch of its time has one, and it is one of that epoch's. */
  lemma TakeGivesTheEpochs(s: Stock, now: nat)
    ensures Take(s, now).1.Some? <==>
              && s.epochSecs.Some? && s.epochSecs.value > 0
              && now / s.epochSecs.value in s.store && s.store[now / s.epochSecs.value] != []
    ensures Take(s, now).1.Some? ==> Take(s, now).1.value in s.store[now / s.epochSecs.value]
  {
  }

  /** A directory is asked for every epoch it publishes that has not passed and is not settled. */
  lemma AskedForTheUnsettled(s: Stock, now: nat, length: int, keys: seq<Epoch>, epoch: Epoch)
    requires length > 0
    ensures var (after, targets) := Published(s, now, length, keys);
            && (epoch in targets <==> epoch in keys && epoch >= now / length && epoch !in s.settled)
            && (epoch in after.settled <==> epoch in s.settled && epoch >= now / length)
            && after.epochSecs == Some(length)
  {
  }

  /** An epoch is settled by its tokens and by the issuer's word that it was issued before, and by nothing else. */
  lemma SettledByAnswers(w: World, id: nat, mint: Mint)
    requires Enabled(w, MintEnds(id, mint)) && !w.stock.revoked
    ensures var epoch, next := w.refreshes[id].targets[0], Step(w, MintEnds(id, mint));
            && (epoch in next.stock.settled <==> epoch in w.stock.settled || mint.Tokens? || mint.AlreadyIssued?)
            && (id in next.refreshes <==>
                  !mint.DeviceRevoked? && !mint.EveryEpochRefused? && |w.refreshes[id].targets| > 1)
            && (next.stock.revoked <==> mint.DeviceRevoked?)
  {
  }

  /** Each as often as it is published. */
  lemma {:induction false} WantedCounts(keys: seq<Epoch>, current: Epoch, settled: set<Epoch>, epoch: Epoch)
    ensures multiset(Wanted(keys, current, settled))[epoch]
         == if epoch >= current && epoch !in settled then multiset(keys)[epoch] else 0
  {
    if keys != [] {
      assert keys == [keys[0]] + keys[1..];
      WantedCounts(keys[1..], current, settled, epoch);
    }
  }

  lemma Joins(x: seq<Epoch>, y: seq<Epoch>, z: seq<Epoch>)
    ensures x + (y + z) == (x + y) + z
  {
  }

  function FirstWanted(keys: seq<Epoch>, current: Epoch, settled: set<Epoch>): seq<Epoch>
    requires keys != []
  {
    if keys[0] >= current && keys[0] !in settled then [keys[0]] else []
  }

  lemma WantedUnfolds(keys: seq<Epoch>, current: Epoch, settled: set<Epoch>)
    requires keys != []
    ensures Wanted(keys, current, settled) == FirstWanted(keys, current, settled) + Wanted(keys[1..], current, settled)
  {
  }

  /** Epochs are asked for in the order they are published. */
  lemma {:induction false} WantedInOrder(a: seq<Epoch>, b: seq<Epoch>, current: Epoch, settled: set<Epoch>)
    ensures Wanted(a + b, current, settled) == Wanted(a, current, settled) + Wanted(b, current, settled)
    decreases |a|
  {
    if a == [] {
      assert a + b == b;
    } else {
      WantedUnfolds(a + b, current, settled);
      WantedUnfolds(a, current, settled);
      assert (a + b)[1..] == a[1..] + b;
      WantedInOrder(a[1..], b, current, settled);
      Joins(FirstWanted(a, current, settled), Wanted(a[1..], current, settled), Wanted(b, current, settled));
    }
  }

  lemma {:induction false} TokensCount(entries: seq<Bytes>, t: Bytes)
    ensures multiset(TokensOnly(entries))[t] == if |t| == 354 then multiset(entries)[t] else 0
  {
    if entries != [] {
      assert entries == [entries[0]] + entries[1..];
      TokensCount(entries[1..], t);
    }
  }

  /** A restart stocks the 354-byte entries of a version 1 bundle, of the epochs not negative, and nothing else. */
  lemma RestartStocks(saved: Option<Bundle>, epoch: Epoch, t: Bytes)
    ensures var s := Opened(saved);
            && s.settled == {} && !s.revoked && s.saved == saved
            && (s.epochSecs == if saved.Some? && saved.value.v == 1 && saved.value.epochSecs > 0
                               then Some(saved.value.epochSecs) else None)
            && Held(s, epoch)[t] ==
               if saved.Some? && saved.value.v == 1 && epoch >= 0 && epoch in saved.value.epochs && |t| == 354
               then multiset(saved.value.epochs[epoch])[t] else 0
  {
    if saved.Some? && epoch in saved.value.epochs { TokensCount(saved.value.epochs[epoch], t); }
  }

  // ---- one refresh -------------------------------------------------------------------------------

  /** A revoked manager starts no refresh; any other registers first. */
  lemma StartsUnlessRevoked(w: World, id: nat, now: nat)
    requires Enabled(w, Start(id, now))
    ensures var next := Step(w, Start(id, now));
            && next.stock == w.stock && (id in next.refreshes <==> !w.stock.revoked)
            && (id in next.refreshes ==> next.refreshes[id] == Registering(now))
  {
  }

  /** A revocation or a full account ends the refresh there; any other registration, a failed one too, goes on. */
  lemma RegistrationDecides(w: World, id: nat, registration: Registration)
    requires Enabled(w, Answered(id, registration))
    ensures var next := Step(w, Answered(id, registration));
            && (id in next.refreshes <==> registration.Registered? || registration.RegistrationFailed?)
            && (id in next.refreshes ==> next.refreshes[id] == Fetching(w.refreshes[id].now))
            && (registration.RegistrationRevoked? ==> next.stock.revoked && next.stock.store == map[])
            && (!registration.RegistrationRevoked? ==> next.stock == w.stock)
  {
  }

  /** The answers to a pass, one for each epoch asked for. */
  function Ends(id: nat, mints: seq<Mint>): (es: seq<Event>)
    ensures |es| == |mints|
  {
    if mints == [] then [] else [MintEnds(id, mints[0])] + Ends(id, mints[1..])
  }

  predicate Settling(mint: Mint) {
    mint.AlreadyIssued? || (mint.Tokens? && forall t :: t in mint.tokens ==> |t| == 354)
  }

  /** A pass that is answered for every epoch settles every epoch it asked for, and saves. */
  lemma {:induction false} PassSettles(w: World, id: nat, mints: seq<Mint>)
    requires id in w.refreshes && w.refreshes[id].Minting? && !w.stock.revoked
    requires w.refreshes[id].targets != [] && |mints| == |w.refreshes[id].targets|
    requires forall i :: 0 <= i < |mints| ==> Settling(mints[i])
    ensures IsRun(w, Ends(id, mints))
    ensures var end := Run(w, Ends(id, mints));
            && end.stock == Persist(end.stock) && id !in end.refreshes && !end.stock.revoked
            && w.stock.settled <= end.stock.settled
            && forall e :: e in w.refreshes[id].targets ==> e in end.stock.settled
    decreases |mints|
  {
    var targets := w.refreshes[id].targets;
    assert Settling(mints[0]);
    var next := Step(w, MintEnds(id, mints[0]));
    var es := Ends(id, mints);
    assert es[0] == MintEnds(id, mints[0]) && es[1..] == Ends(id, mints[1..]);
    assert targets == [targets[0]] + targets[1..];
    if |mints| > 1 {
      PassSettles(next, id, mints[1..]);
    }
  }
}
