/**
 The simple event loop with the syncers of the setup, in their order: starter,
 translator, failure checker. All three see the same snapshot object, and the
 starter edits it before the other two look at it.
 */
module EventLoop {
  import opened Types
  import S = Starter
  import T = Translator
  import F = FailureCheck

  // ----- the loop on values -----

  /** What an iteration leaves behind; `batch` is what the checker monitors under its live context. */
  datatype LoopState = LoopState(crashed: bool, previous: Option<seq<Exp>>, batch: seq<Exp>,
                                 desired: Result<seq<T.Rule>, T.Failure>)

  datatype Delivery = Delivery(snap: seq<Exp>, env: S.Env)

  const INITIAL := LoopState(false, None, [], Ok([]))

  function Next(c: T.Config, s: LoopState, d: Delivery): LoopState {
    var snap := S.Promote(d.snap, d.env);
    if s.crashed then s
    else if F.Decide(s.previous, snap) == F.Crash then s.(crashed := true, desired := T.Translate(c, snap))
    else LoopState(false, Some(snap),
                   if F.Decide(s.previous, snap) == F.Resync then WithState(snap, Started) else s.batch,
                   T.Translate(c, snap))
  }

  function RunFrom(c: T.Config, ds: seq<Delivery>): LoopState {
    if ds == [] then INITIAL else Next(c, RunFrom(c, ds[..|ds| - 1]), ds[|ds| - 1])
  }

  /** The snapshots as the checker's decider sees them: after the starter's edits. */
  function Seen(ds: seq<Delivery>): (r: seq<seq<Exp>>)
    ensures |r| == |ds|
    ensures forall k :: 0 <= k < |ds| ==> r[k] == S.Promote(ds[k].snap, ds[k].env)
  {
    seq(|ds|, k requires 0 <= k < |ds| => S.Promote(ds[k].snap, ds[k].env))
  }

  ghost predicate DeliveriesWellFormed(ds: seq<Delivery>) {
    forall k :: 0 <= k < |ds| ==> WellFormed(ds[k].snap)
  }

  lemma PromoteWellFormed(list: seq<Exp>, env: S.Env)
    requires WellFormed(list)
    ensures WellFormed(S.Promote(list, env))
  {
    var promoted := S.Promote(list, env);
    assert forall i :: 0 <= i < |list| ==> promoted[i].ref == list[i].ref && list[i] in list;
  }

  lemma {:induction false} SeenWellFormed(ds: seq<Delivery>)
    requires DeliveriesWellFormed(ds)
    ensures F.AllWellFormed(Seen(ds))
  {
    if ds != [] {
      var n := |ds| - 1;
      SeenWellFormed(ds[..n]);
      PromoteWellFormed(ds[n].snap, ds[n].env);
      assert Seen(ds)[..n] == Seen(ds[..n]);
    }
  }

  lemma {:induction false} CrashFreeExtends(seen: seq<seq<Exp>>, snap: seq<Exp>)
    requires F.CrashFree(seen)
    ensures F.CrashFree(seen + [snap]) <==> F.Decide(F.Before(seen + [snap], |seen|), snap) != F.Crash
  {
    hide F.Decide;
    assert (seen + [snap])[..|seen|] == seen;
  }

  /** The loop's fields follow the decider's view of the run. */
  ghost predicate Follows(c: T.Config, s: LoopState, seen: seq<seq<Exp>>) {
    && !s.crashed
    && F.CrashFree(seen)
    && s.batch == F.Batch(seen)
    && s.previous == F.Before(seen, |seen|)
    && (seen != [] ==> s.desired == T.Translate(c, seen[|seen| - 1]))
  }

  lemma NextFollows(c: T.Config, s: LoopState, seen: seq<seq<Exp>>, d: Delivery)
    requires Follows(c, s, seen) && !Next(c, s, d).crashed
    ensures Follows(c, Next(c, s, d), seen + [S.Promote(d.snap, d.env)])
  {
    var snap := S.Promote(d.snap, d.env);
    var all := seen + [snap];
    CrashFreeExtends(seen, snap);
    assert all[..|seen|] == seen && all[|seen|] == snap;
    assert F.Before(all, |seen|) == F.Before(seen, |seen|);
  }

  lemma CrashIsFinal(c: T.Config, s: LoopState, d: Delivery)
    ensures s.crashed ==> Next(c, s, d) == s
  {
  }

  lemma InitialFollows(c: T.Config)
    ensures Follows(c, INITIAL, [])
  {
  }

  lemma {:induction false} RunFollowsDecider(c: T.Config, ds: seq<Delivery>)
    requires !RunFrom(c, ds).crashed
    ensures Follows(c, RunFrom(c, ds), Seen(ds))
  {
    hide Next, Follows, S.Promote;
    InitialFollows(c);
    if ds == [] {
      assert Seen(ds) == [];
    } else {
      var init := ds[..|ds| - 1];
      CrashIsFinal(c, RunFrom(c, init), ds[|ds| - 1]);
      RunFollowsDecider(c, init);
      NextFollows(c, RunFrom(c, init), Seen(init), ds[|ds| - 1]);
      assert Seen(ds) == Seen(init) + [Seen(ds)[|ds| - 1]];
    }
  }

  /** The refs a delivered snapshot holds in one of two states. */
  ghost function RefsPendingOrStarted(list: seq<Exp>): set<Ref> {
    set e | e in list && (e.result.state == Pending || e.result.state == Started) :: e.ref
  }

  lemma PromotedStartedRefs(list: seq<Exp>, env: S.Env)
    ensures RefSet(WithState(S.Promote(list, env), Started)) == RefsPendingOrStarted(list)
  {
    var promoted := S.Promote(list, env);
    forall e | e in promoted && e.result.state == Started ensures e.ref in RefsPendingOrStarted(list) {
      var k :| 0 <= k < |promoted| && promoted[k] == e;
      assert list[k] in list;
    }
    forall e | e in list && (e.result.state == Pending || e.result.state == Started)
      ensures e.ref in RefSet(WithState(promoted, Started))
    {
      var k :| 0 <= k < |list| && list[k] == e;
      assert promoted[k] in promoted && promoted[k] in WithState(promoted, Started);
    }
  }

  /**
   Incremental resync refines always-resync: after every iteration of every run that has not crashed,
   the monitored batch has the started experiments of the latest snapshot, with the same failure
   conditions and, where the monitored spec is set, the same duration.
   */
  lemma {:induction false} BatchCoversSnapshot(c: T.Config, ds: seq<Delivery>)
    requires ds != [] && DeliveriesWellFormed(ds) && !RunFrom(c, ds).crashed
    ensures F.Covers(RunFrom(c, ds).batch, WithState(Seen(ds)[|ds| - 1], Started))
  {
    hide F.Covers, F.Batch, F.CrashFree, T.Translate, F.Decide, RunFrom;
    RunFollowsDecider(c, ds);
    SeenWellFormed(ds);
    F.BatchCoversLatest(Seen(ds));
  }

  /** The batch holds exactly the keys delivered as pending or started, whatever the starter's writes return. */
  lemma {:induction false} BatchRefsArePendingOrStarted(c: T.Config, ds: seq<Delivery>)
    requires ds != [] && DeliveriesWellFormed(ds) && !RunFrom(c, ds).crashed
    ensures RefSet(RunFrom(c, ds).batch) == RefsPendingOrStarted(ds[|ds| - 1].snap)
  {
    BatchCoversSnapshot(c, ds);
    PromotedStartedRefs(ds[|ds| - 1].snap, ds[|ds| - 1].env);
  }

  /** The rules handed over are those of the snapshot as delivered, before the starter's edits. */
  lemma {:induction false} RulesOfDeliveredSnapshot(c: T.Config, ds: seq<Delivery>)
    requires ds != [] && !RunFrom(c, ds).crashed
    ensures RunFrom(c, ds).desired == T.Translate(c, ds[|ds| - 1].snap)
  {
    RunFollowsDecider(c, ds);
    T.StartingCommutesWithTranslation(c, ds[|ds| - 1].snap, ds[|ds| - 1].env);
  }

  /** Exact agreement, durations included, after each of the first n iterations. */
  ghost predicate AgreesThrough(c: T.Config, ds: seq<Delivery>, n: nat)
    requires n <= |ds|
  {
    n == 0 ||
    (AgreesThrough(c, ds, n - 1) && F.Mirrors(RunFrom(c, ds[..n]).batch, WithState(Seen(ds)[n - 1], Started)))
  }

  lemma {:induction false} PrefixDoesNotCrash(c: T.Config, ds: seq<Delivery>, n: nat)
    requires n <= |ds| && !RunFrom(c, ds).crashed
    ensures !RunFrom(c, ds[..n]).crashed
  {
    if RunFrom(c, ds[..n]).crashed {
      CrashPersists(c, ds, n);
    }
  }

  lemma {:induction false} PrefixBatch(c: T.Config, ds: seq<Delivery>, n: nat)
    requires n <= |ds| && !RunFrom(c, ds).crashed
    ensures RunFrom(c, ds[..n]).batch == F.Batch(Seen(ds)[..n])
  {
    hide RunFrom, F.Batch, T.Translate, F.CrashFree, F.Before;
    PrefixDoesNotCrash(c, ds, n);
    RunFollowsDecider(c, ds[..n]);
    assert Seen(ds[..n]) == Seen(ds)[..n];
  }

  lemma {:induction false} AgreementIsTheDeciders(c: T.Config, ds: seq<Delivery>, n: nat)
    requires n <= |ds| && !RunFrom(c, ds).crashed
    ensures AgreesThrough(c, ds, n) <==> F.MirrorsThrough(Seen(ds), n)
  {
    hide RunFrom, F.Mirrors, F.Batch, WithState, S.Promote;
    if n > 0 {
      AgreementIsTheDeciders(c, ds, n - 1);
      PrefixBatch(c, ds, n);
    }
  }

  /** Exact agreement through a whole run: if and only if no skipped step gains a duration and nothing else. */
  lemma {:induction false} RunAgreesExactly(c: T.Config, ds: seq<Delivery>)
    requires DeliveriesWellFormed(ds) && !RunFrom(c, ds).crashed
    ensures AgreesThrough(c, ds, |ds|) <==> F.NoSilentGainThrough(Seen(ds), |ds|)
  {
    hide RunFrom, F.MirrorsThrough, F.NoSilentGainThrough, AgreesThrough, T.Translate, F.Batch;
    AgreementIsTheDeciders(c, ds, |ds|);
    RunFollowsDecider(c, ds);
    SeenWellFormed(ds);
    F.AlwaysAgreesExactly(Seen(ds), |ds|);
  }

  // ----- the batch against the snapshots as delivered -----

  /** The same duration and the same triggers, condition by condition. */
  predicate SameTerms(b: Exp, e: Exp) {
    && DurationOf(b) == DurationOf(e) && |Conditions(b)| == |Conditions(e)|
    && forall k :: 0 <= k < |Conditions(b)| ==> Conditions(b)[k].trigger == Conditions(e)[k].trigger
  }

  /** The batch has exactly the experiments delivered as pending or started, on the terms they were delivered with. */
  ghost predicate MonitorsDelivered(batch: seq<Exp>, snap: seq<Exp>) {
    && RefSet(batch) == RefsPendingOrStarted(snap)
    && forall b, e :: b in batch && e in snap && b.ref == e.ref ==> SameTerms(b, e)
  }

  /** What the checker sees of a delivered experiment has its terms. */
  lemma PromotedTerms(snap: seq<Exp>, env: S.Env, i: nat)
    requires i < |snap|
    ensures S.Promote(snap, env)[i].ref == snap[i].ref && SameTerms(S.Promote(snap, env)[i], snap[i])
  {
    hide S.Promote;
    S.PromotionFrame(snap, env, i);
  }

  lemma SameTermsExactly(b: Exp, c: Exp, e: Exp)
    requires F.Tracks(b, c) && SameTerms(c, e)
    ensures F.Agrees(b, c) <==> SameTerms(b, e)
  {
  }

  /** A batch that covers the promoted snapshot mirrors it exactly if it has the terms delivered. */
  lemma {:induction false} DeliveredMirrors(batch: seq<Exp>, snap: seq<Exp>, env: S.Env)
    requires WellFormed(snap) && F.Covers(batch, WithState(S.Promote(snap, env), Started))
    ensures F.Mirrors(batch, WithState(S.Promote(snap, env), Started)) <==> MonitorsDelivered(batch, snap)
  {
    hide SameTerms, F.Tracks, F.Agrees;
    var promoted := S.Promote(snap, env);
    PromotedStartedRefs(snap, env);
    PromoteWellFormed(snap, env);
    if F.Mirrors(batch, WithState(promoted, Started)) {
      forall b, e | b in batch && e in snap && b.ref == e.ref ensures SameTerms(b, e) {
        assert b.ref in RefSet(batch);
        var c := F.AtRef(WithState(promoted, Started), b.ref);
        var i := SamePlace(snap, env, c, e);
        PromotedTerms(snap, env, i);
        SameTermsExactly(b, c, e);
      }
    }
    if MonitorsDelivered(batch, snap) {
      forall b, c | b in batch && c in WithState(promoted, Started) && b.ref == c.ref ensures F.Agrees(b, c) {
        var i :| 0 <= i < |promoted| && promoted[i] == c;
        PromotedTerms(snap, env, i);
        assert snap[i] in snap;
        SameTermsExactly(b, c, snap[i]);
      }
    }
  }

  /** With unique keys, an experiment and its promotion are at the same place. */
  lemma SamePlace(snap: seq<Exp>, env: S.Env, c: Exp, e: Exp) returns (i: nat)
    requires WellFormed(snap) && c in S.Promote(snap, env) && e in snap && c.ref == e.ref
    ensures i < |snap| && snap[i] == e && S.Promote(snap, env)[i] == c
  {
    i :| 0 <= i < |snap| && snap[i] == e;
    var k :| 0 <= k < |snap| && S.Promote(snap, env)[k] == c;
    PromotedTerms(snap, env, k);
  }

  ghost predicate DeliveredThrough(c: T.Config, ds: seq<Delivery>, n: nat)
    requires n <= |ds|
  {
    n == 0 || (DeliveredThrough(c, ds, n - 1) && MonitorsDelivered(RunFrom(c, ds[..n]).batch, ds[n - 1].snap))
  }

  lemma {:induction false} WellFormedDelivery(ds: seq<Delivery>, n: nat)
    requires DeliveriesWellFormed(ds) && n < |ds|
    ensures WellFormed(ds[n].snap) && DeliveriesWellFormed(ds[..n + 1])
  {
  }

  lemma {:induction false} DeliveredIsSeen(c: T.Config, ds: seq<Delivery>, n: nat)
    requires n <= |ds| && DeliveriesWellFormed(ds) && !RunFrom(c, ds).crashed
    ensures DeliveredThrough(c, ds, n) <==> AgreesThrough(c, ds, n)
  {
    hide RunFrom, F.Mirrors, F.Covers, MonitorsDelivered, WithState, S.Promote, DeliveriesWellFormed, WellFormed;
    if n > 0 {
      DeliveredIsSeen(c, ds, n - 1);
      WellFormedDelivery(ds, n - 1);
      PrefixDoesNotCrash(c, ds, n);
      BatchCoversSnapshot(c, ds[..n]);
      assert Seen(ds[..n])[n - 1] == Seen(ds)[n - 1];
      DeliveredMirrors(RunFrom(c, ds[..n]).batch, ds[n - 1].snap, ds[n - 1].env);
    }
  }

  /**
   Exact agreement with what was delivered: after every iteration the batch has the experiments delivered as
   pending or started, with the durations and triggers they were delivered with, if and only if no skipped
   step gains a duration and nothing else.
   */
  lemma {:induction false} RunMonitorsDelivered(c: T.Config, ds: seq<Delivery>)
    requires DeliveriesWellFormed(ds) && !RunFrom(c, ds).crashed
    ensures DeliveredThrough(c, ds, |ds|) <==> F.NoSilentGainThrough(Seen(ds), |ds|)
  {
    hide RunFrom, F.NoSilentGainThrough, AgreesThrough, DeliveredThrough, DeliveriesWellFormed;
    DeliveredIsSeen(c, ds, |ds|);
    RunAgreesExactly(c, ds);
  }

  // ----- when a run crashes -----

  /** Between snapshots k - 1 and k, a started experiment loses its spec where the decider gets to see it. */
  ghost predicate DropsSpecAt(seen: seq<seq<Exp>>, k: int) {
    0 < k < |seen| && F.DropsSpec(WithState(seen[k - 1], Started), WithState(seen[k], Started))
  }

  lemma {:induction false} NextCrashesExactly(c: T.Config, s: LoopState, seen: seq<seq<Exp>>, d: Delivery)
    requires Follows(c, s, seen) && F.AllWellFormed(seen) && WellFormed(d.snap)
    ensures Next(c, s, d).crashed <==> DropsSpecAt(seen + [S.Promote(d.snap, d.env)], |seen|)
  {
    hide F.DropsSpec, F.Decide, F.Batch, F.CrashFree, T.Translate, S.Promote, WithState, WellFormed, F.AllWellFormed;
    var snap := S.Promote(d.snap, d.env);
    PromoteWellFormed(d.snap, d.env);
    if seen == [] {
      F.FirstNeverCrashes(snap);
    } else {
      F.WellFormedAt(seen, |seen| - 1);
      F.CrashExactly(seen[|seen| - 1], snap);
    }
  }

  /** A run crashes if and only if some two adjacent snapshots drop a spec. */
  lemma {:induction false} CrashesExactly(c: T.Config, ds: seq<Delivery>)
    requires DeliveriesWellFormed(ds)
    ensures RunFrom(c, ds).crashed <==> exists k :: DropsSpecAt(Seen(ds), k)
  {
    hide F.DropsSpec, T.Translate, S.Promote, Follows, Next, WithState, WellFormed, F.AllWellFormed;
    if ds == [] {
      RunFromNothing(c);
    } else {
      var n := |ds| - 1;
      var init := ds[..n];
      assert Seen(ds) == Seen(init) + [Seen(ds)[n]];
      CrashesExactly(c, init);
      forall k: int ensures k < n ==> (DropsSpecAt(Seen(ds), k) <==> DropsSpecAt(Seen(init), k)) {
      }
      RunFromLast(c, ds);
      CrashIsFinal(c, RunFrom(c, init), ds[n]);
      if RunFrom(c, init).crashed {
        var k :| DropsSpecAt(Seen(init), k);
        assert DropsSpecAt(Seen(ds), k);
      } else {
        RunFollowsDecider(c, init);
        SeenWellFormed(init);
        NextCrashesExactly(c, RunFrom(c, init), Seen(init), ds[n]);
      }
    }
  }

  lemma {:induction false} RunFromLast(c: T.Config, ds: seq<Delivery>)
    requires ds != []
    ensures RunFrom(c, ds) == Next(c, RunFrom(c, ds[..|ds| - 1]), ds[|ds| - 1])
  {
  }

  /** Such runs exist: an experiment that is delivered started, first with a spec, then without. */
  lemma {:induction false} DroppedSpecCrashes(c: T.Config, env: S.Env)
    ensures RunFrom(c, [Delivery([F.TIMED], env), Delivery([F.BARE], env)]).crashed
  {
    var p, e := F.TIMED, F.BARE;
    var ds := [Delivery([p], env), Delivery([e], env)];
    assert S.Promote([p], env) == [p] && S.Promote([e], env) == [e];
    hide RunFrom, F.DropsSpec, S.Promote, WithState;
    F.DroppedSingleton(p, e);
    CrashesExactly(c, ds);
    assert DropsSpecAt(Seen(ds), 1);
  }

  // ----- the loop on objects -----

  datatype Syncer = Starting | Translating | Checking

  const SYNCERS := [Starting, Translating, Checking]

  /** A cancellable context, and the experiments monitored under it. */
  class Context {
    const owner: Syncer
    var live: bool
    var monitors: seq<Exp>

    constructor (owner: Syncer)
      ensures this.owner == owner && live && monitors == []
    {
      this.owner, live, monitors := owner, true, [];
    }

    method Cancel()
      modifies this`live
      ensures !live
    {
      live := false;
    }
  }

  class SimpleEventLoop {
    const config: T.Config
    var previousSnapshot: Option<seq<Experiment>>
    var syncerCancels: map<Syncer, Context>
    var crashed: bool
    var desired: Result<seq<T.Rule>, T.Failure>
    ghost var issued: set<Context>

    /** Of all contexts ever issued, exactly the latest one of each syncer is live. */
    ghost predicate Valid()
      reads this`syncerCancels, this`issued, issued
    {
      && (forall s :: s in syncerCancels ==> syncerCancels[s] in issued && syncerCancels[s].owner == s)
      && (forall x :: x in issued ==> (x.live <==> x.owner in syncerCancels && syncerCancels[x.owner] == x))
    }

    function PreviousObjects(): seq<Experiment>
      reads this
    {
      if previousSnapshot == None then [] else previousSnapshot.value
    }

    function Batch(): seq<Exp>
      reads this, syncerCancels.Values
    {
      if Checking in syncerCancels then syncerCancels[Checking].monitors else []
    }

    function View(): LoopState
      reads this, PreviousObjects(), syncerCancels.Values
    {
      LoopState(crashed, F.ViewsOf(previousSnapshot), Batch(), desired)
    }

    constructor (config: T.Config)
      ensures Valid() && View() == INITIAL && issued == {} && this.config == config
    {
      this.config := config;
      previousSnapshot, syncerCancels, crashed, desired, issued := None, map[], false, Ok([]), {};
    }

    /** What the syncer answers before it is synced; the translator is no decider and always syncs. */
    method Consult(syncer: Syncer, snapshot: seq<Experiment>) returns (d: F.Decision)
      ensures syncer == Starting ==> d == if WithState(Views(snapshot), Pending) == [] then F.Keep else F.Resync
      ensures syncer == Translating ==> d == F.Resync
      ensures syncer == Checking ==> d == F.Decide(F.ViewsOf(previousSnapshot), Views(snapshot))
    {
      match syncer
      case Starting =>
        var pending := FilterByState(snapshot, Pending);
        SelectedViews(snapshot, Pending);
        d := if |pending| > 0 then F.Resync else F.Keep;
      case Translating =>
        d := F.Resync;
      case Checking =>
        d := F.ShouldSync(previousSnapshot, snapshot);
    }

    /** `syncer.Sync` under a fresh context. */
    method SyncUnder(syncer: Syncer, snapshot: seq<Experiment>, env: S.Env, context: Context)
      requires Distinct(snapshot)
      modifies this`desired, context`monitors, snapshot
      ensures syncer == Checking ==> context.monitors == WithState(old(Views(snapshot)), Started)
      ensures Views(snapshot) == if syncer == Starting then S.Promote(old(Views(snapshot)), env) else old(Views(snapshot))
      ensures desired == if syncer == Translating then T.Translate(config, old(Views(snapshot))) else old(desired)
    {
      hide T.Translate, S.Promote, WithState, Selected, S.StartErrors, S.Writes;
      match syncer {
        case Starting =>
          var _, _ := S.Sync(snapshot, env);
        case Translating =>
          desired := T.TranslateExperiments(config, snapshot);
        case Checking =>
          var started := FilterByState(snapshot, Started);
          SelectedViews(snapshot, Started);
          context.monitors := Views(started);
      }
    }

    /** `syncerCancels[syncer] = canc`, once the syncer's previous context is cancelled. */
    method Record(syncer: Syncer, context: Context)
      requires context.live && context.owner == syncer && context !in issued
      requires forall s :: s in syncerCancels ==> syncerCancels[s] in issued && syncerCancels[s].owner == s
      requires forall x :: x in issued ==>
        (x.live <==> x.owner != syncer && x.owner in syncerCancels && syncerCancels[x.owner] == x)
      modifies this`syncerCancels, this`issued
      ensures Valid() && issued == old(issued) + {context}
      ensures syncerCancels == old(syncerCancels)[syncer := context]
    {
      syncerCancels := syncerCancels[syncer := context];
      issued := issued + {context};
    }

    /** Cancels the syncer's previous context and syncs it under a new one. */
    method Restart(syncer: Syncer, snapshot: seq<Experiment>, env: S.Env)
      requires Valid() && Distinct(snapshot)
      modifies this`syncerCancels, this`desired, this`issued, issued, snapshot
      ensures Valid() && old(issued) <= issued && fresh(issued - old(issued))
      ensures syncer in syncerCancels && fresh(syncerCancels[syncer])
      ensures syncerCancels == old(syncerCancels)[syncer := syncerCancels[syncer]]
      ensures forall x :: x in old(issued) ==> x.monitors == old(x.monitors)
      ensures syncer == Checking ==> syncerCancels[syncer].monitors == WithState(old(Views(snapshot)), Started)
      ensures Views(snapshot) == if syncer == Starting then S.Promote(old(Views(snapshot)), env) else old(Views(snapshot))
      ensures desired == if syncer == Translating then T.Translate(config, old(Views(snapshot))) else old(desired)
    {
      hide T.Translate, S.Promote, WithState;
      if syncer in syncerCancels {
        syncerCancels[syncer].Cancel();
      }
      var context := new Context(syncer);
      SyncUnder(syncer, snapshot, env, context);
      Record(syncer, context);
    }

    /** The monitored batch changes only when the checker is restarted. */
    method RestartKeepsBatch(syncer: Syncer, snapshot: seq<Experiment>, env: S.Env)
      requires Valid() && Distinct(snapshot) && forall e :: e in snapshot ==> e !in PreviousObjects()
      modifies this`syncerCancels, this`desired, this`issued, issued, snapshot
      ensures Valid() && old(issued) <= issued && fresh(issued - old(issued))
      ensures Batch() == if syncer == Checking then WithState(old(Views(snapshot)), Started) else old(Batch())
      ensures F.ViewsOf(previousSnapshot) == old(F.ViewsOf(previousSnapshot))
      ensures Views(snapshot) == if syncer == Starting then S.Promote(old(Views(snapshot)), env) else old(Views(snapshot))
      ensures desired == if syncer == Translating then T.Translate(config, old(Views(snapshot))) else old(desired)
    {
      hide T.Translate, S.Promote, WithState;
      Restart(syncer, snapshot, env);
      if previousSnapshot.Some? {
        forall e | e in previousSnapshot.value ensures e.View() == old(e.View()) {
          assert e in old(PreviousObjects());
          assert e !in snapshot;
        }
        assert Views(previousSnapshot.value) == old(Views(previousSnapshot.value));
      }
    }

    /** How far an iteration has come: the first k syncers have had their turn. */
    ghost predicate Progress(k: nat, snapshot: seq<Experiment>, start: LoopState, d: Delivery)
      reads this, PreviousObjects(), syncerCancels.Values, snapshot
    {
      var promoted := S.Promote(d.snap, d.env);
      && !crashed && !start.crashed
      && F.ViewsOf(previousSnapshot) == start.previous
      && Views(snapshot) == (if k == 0 then d.snap else promoted)
      && desired == (if k < 2 then start.desired else T.Translate(config, promoted))
      && (k < 3 ==> Batch() == start.batch)
      && (k == 3 ==> F.Decide(start.previous, promoted) != F.Crash)
      && (k == 3 ==>
            Batch() == if F.Decide(start.previous, promoted) == F.Resync then WithState(promoted, Started) else start.batch)
    }

    /** One syncer's turn: ask it, and restart it unless it declines. */
    method Turn(k: nat, snapshot: seq<Experiment>, env: S.Env, ghost start: LoopState, ghost d: Delivery)
      requires k < |SYNCERS| && Valid() && d.env == env
      requires Distinct(snapshot) && forall e :: e in snapshot ==> e !in PreviousObjects()
      requires Progress(k, snapshot, start, d)
      modifies this`syncerCancels, this`desired, this`issued, this`crashed, issued, snapshot
      ensures Valid() && old(issued) <= issued && fresh(issued - old(issued))
      ensures !crashed ==> Progress(k + 1, snapshot, start, d)
      ensures crashed ==> View() == Next(config, start, d)
    {
      hide T.Translate, S.Promote, WithState, F.Decide, Valid;
      PromoteNothing(d.snap, env);
      var decision := Consult(SYNCERS[k], snapshot);
      if decision == F.Crash {
        crashed := true;
        return;
      }
      if decision == F.Resync {
        RestartKeepsBatch(SYNCERS[k], snapshot, env);
      }
    }

    /**
     One iteration over the syncers. The new snapshot shares no object with the previous one, as the
     emitter hands out clones.
     */
    method Iterate(snapshot: seq<Experiment>, env: S.Env)
      requires Valid() && !crashed
      requires Distinct(snapshot) && forall e :: e in snapshot ==> e !in PreviousObjects()
      modifies this, issued, snapshot
      ensures Valid() && old(issued) <= issued && fresh(issued - old(issued))
      ensures View() == Next(config, old(View()), Delivery(old(Views(snapshot)), env))
      ensures !crashed ==> previousSnapshot == Some(snapshot)
    {
      hide T.Translate, S.Promote, WithState, F.Decide, Valid;
      ghost var start, d := View(), Delivery(Views(snapshot), env);
      for k := 0 to |SYNCERS|
        invariant Valid() && old(issued) <= issued && fresh(issued - old(issued))
        invariant previousSnapshot == old(previousSnapshot)
        invariant Progress(k, snapshot, start, d)
      {
        Turn(k, snapshot, env, start, d);
        if crashed {
          return;
        }
      }
      previousSnapshot := Some(snapshot);
    }

    /** When the loop ends, every context it holds is cancelled: none of those issued is live any more. */
    method CancelAll()
      requires Valid()
      modifies issued
      ensures forall x :: x in issued ==> !x.live && x.monitors == old(x.monitors)
      ensures View() == old(View())
    {
      var rest := syncerCancels.Keys;
      while rest != {}
        invariant rest <= syncerCancels.Keys
        invariant forall x :: x in issued ==> x.monitors == old(x.monitors)
        invariant forall x :: x in issued ==> (x.live <==> x.owner in rest && syncerCancels[x.owner] == x)
      {
        var s :| s in rest;
        syncerCancels[s].Cancel();
        rest := rest - {s};
      }
    }
  }

  function ObjectsOf(snaps: seq<seq<Experiment>>): set<Experiment> {
    set k, e | 0 <= k < |snaps| && e in snaps[k] :: e
  }

  function Deliveries(snaps: seq<seq<Experiment>>, envs: seq<S.Env>): (r: seq<Delivery>)
    requires |snaps| == |envs|
    reads ObjectsOf(snaps)
    ensures |r| == |snaps|
    ensures forall k :: 0 <= k < |snaps| ==> r[k] == Delivery(Views(snaps[k]), envs[k])
  {
    if snaps == [] then []
    else
      var n := |snaps| - 1;
      assert forall k, e :: 0 <= k < n && e in snaps[..n][k] ==> e in snaps[k] && e in ObjectsOf(snaps);
      assert forall e :: e in snaps[n] ==> e in ObjectsOf(snaps);
      Deliveries(snaps[..n], envs[..n]) + [Delivery(Views(snaps[n]), envs[n])]
  }

  /** The loop stands before snapshot k of the run, and the snapshots from k on are as delivered. */
  ghost predicate Ready(el: SimpleEventLoop, snaps: seq<seq<Experiment>>, ds: seq<Delivery>, k: nat)
    requires k <= |snaps| == |ds|
    reads *
  {
    && el.Valid() && !el.crashed
    && el.previousSnapshot == (if k == 0 then None else Some(snaps[k - 1]))
    && (forall j :: k <= j < |snaps| ==> Views(snaps[j]) == ds[j].snap)
    && el.View() == RunFrom(el.config, ds[..k])
  }

  /** The whole loop over the snapshots of a watch, up to a crash or the end of the stream. */
  method Run(config: T.Config, snaps: seq<seq<Experiment>>, envs: seq<S.Env>) returns (el: SimpleEventLoop)
    requires |snaps| == |envs| && AllClones(snaps)
    modifies ObjectsOf(snaps)
    ensures fresh(el) && el.crashed == RunFrom(config, old(Deliveries(snaps, envs))).crashed
    ensures !el.crashed ==> el.View() == RunFrom(config, old(Deliveries(snaps, envs)))
    ensures forall x :: x in el.issued ==> !x.live
  {
    hide Next, Deliveries, RunFrom, AllClones, SimpleEventLoop.Valid, SimpleEventLoop.Batch;
    ghost var ds := Deliveries(snaps, envs);
    el := new SimpleEventLoop(config);
    RunFromNothing(config);
    RunAll(el, snaps, envs, ds);
    el.CancelAll();
  }

  method RunAll(el: SimpleEventLoop, snaps: seq<seq<Experiment>>, envs: seq<S.Env>, ghost ds: seq<Delivery>)
    requires |snaps| == |envs| == |ds| && AllClones(snaps) && forall k :: 0 <= k < |ds| ==> ds[k].env == envs[k]
    requires Ready(el, snaps, ds, 0)
    modifies el, el.issued, ObjectsOf(snaps)
    ensures el.Valid() && fresh(el.issued - old(el.issued)) && el.crashed == RunFrom(el.config, ds).crashed
    ensures !el.crashed ==> el.View() == RunFrom(el.config, ds)
  {
    hide Next, RunFrom, AllClones, SimpleEventLoop.Valid, SimpleEventLoop.Batch;
    var k := 0;
    while k < |snaps| && !el.crashed
      invariant 0 <= k <= |snaps| && fresh(el.issued - old(el.issued)) && el.Valid()
      invariant if el.crashed then RunFrom(el.config, ds).crashed else Ready(el, snaps, ds, k)
    {
      assert forall e :: e in snaps[k] ==> e in ObjectsOf(snaps);
      Advance(el, snaps, envs, k, ds);
      k := k + 1;
    }
    assert ds[..|snaps|] == ds;
  }

  /** Taking the next snapshot leaves the later ones as delivered. */
  method Advance(el: SimpleEventLoop, snaps: seq<seq<Experiment>>, envs: seq<S.Env>, k: nat, ghost ds: seq<Delivery>)
    requires k < |snaps| == |envs| == |ds| && AllClones(snaps) && ds[k].env == envs[k]
    requires Ready(el, snaps, ds, k)
    modifies el, el.issued, snaps[k]
    ensures el.Valid() && old(el.issued) <= el.issued && fresh(el.issued - old(el.issued))
    ensures if el.crashed then RunFrom(el.config, ds).crashed else Ready(el, snaps, ds, k + 1)
  {
    hide Next, RunFrom, SimpleEventLoop.Valid, SimpleEventLoop.Batch;
    RunFromNext(el.config, ds, k);
    el.Iterate(snaps[k], envs[k]);
    forall j | k < j < |snaps| ensures Views(snaps[j]) == ds[j].snap {
      forall e | e in snaps[j] ensures e !in snaps[k] && e.View() == old(e.View()) {
      }
      assert Views(snaps[j]) == old(Views(snaps[j]));
    }
    if el.crashed {
      CrashPersists(el.config, ds, k + 1);
    }
  }

  lemma {:induction false} RunFromNothing(c: T.Config)
    ensures RunFrom(c, []) == INITIAL
  {
  }

  lemma {:induction false} RunFromNext(c: T.Config, ds: seq<Delivery>, k: nat)
    requires k < |ds|
    ensures RunFrom(c, ds[..k + 1]) == Next(c, RunFrom(c, ds[..k]), ds[k])
  {
    assert ds[..k + 1][..k] == ds[..k];
  }

  lemma {:induction false} CrashPersists(c: T.Config, ds: seq<Delivery>, n: nat)
    requires n <= |ds| && RunFrom(c, ds[..n]).crashed
    ensures RunFrom(c, ds).crashed
  {
    if n == |ds| {
      assert ds[..n] == ds;
    } else {
      var init := ds[..|ds| - 1];
      assert init[..n] == ds[..n];
      CrashPersists(c, init, n);
      CrashIsFinal(c, RunFrom(c, init), ds[|ds| - 1]);
    }
  }

  lemma {:induction false} PromoteNothing(list: seq<Exp>, env: S.Env)
    ensures WithState(list, Pending) == [] ==> S.Promote(list, env) == list
  {
    if WithState(list, Pending) == [] {
      forall i | 0 <= i < |list| ensures S.Promote(list, env)[i] == list[i] {
        assert list[i] in list && list[i] !in WithState(list, Pending);
      }
    }
  }
}
