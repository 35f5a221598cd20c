/**
 The failure checker's sync decider. It compares only the started experiments of
 two adjacent snapshots; this module proves what that buys over whole runs.
 */
module FailureCheck {
  import opened Types

  /** `Crash` is the nil dereference of a spec that went from set to nil. */
  datatype Decision = Resync | Keep | Crash

  predicate Named(e: Exp, ns: string, name: string) {
    e.ref.name == name && (ns == "" || e.ref.ns == ns)
  }

  /** `ExperimentList.Find`: the first match; an empty namespace matches any. */
  function Find(list: seq<Exp>, ns: string, name: string): (r: Option<Exp>)
    ensures r.Some? ==> r.value in list && Named(r.value, ns, name)
    ensures r == None ==> forall e :: e in list ==> !Named(e, ns, name)
  {
    if list == [] then None
    else if Named(list[0], ns, name) then Some(list[0])
    else Find(list[1..], ns, name)
  }

  function FaultsChanged(old_: Exp, new_: Exp): Decision {
    if old_.spec == None then
      if new_.spec.Some? && |new_.spec.value.conditions| > 0 then Resync else Keep
    else if new_.spec == None then Crash
    else if Conditions(old_) == Conditions(new_) && DurationOf(old_) == DurationOf(new_) then Keep
    else Resync
  }

  function Compare(original: seq<Exp>, updated: Exp): Decision {
    match Find(original, updated.ref.ns, updated.ref.name)
    case None => Resync
    case Some(e) => FaultsChanged(e, updated)
  }

  /** The decider's loop from index i on: the first experiment that is not unchanged decides. */
  function Scan(original: seq<Exp>, updated: seq<Exp>, i: nat): Decision
    requires i <= |updated|
    decreases |updated| - i
  {
    if i == |updated| then Keep
    else if Compare(original, updated[i]) != Keep then Compare(original, updated[i])
    else Scan(original, updated, i + 1)
  }

  function StartedIn(snap: Option<seq<Exp>>): seq<Exp> {
    match snap case None => [] case Some(list) => WithState(list, Started)
  }

  function DecideStarted(original: seq<Exp>, updated: seq<Exp>): Decision {
    if |original| != |updated| then Resync else Scan(original, updated, 0)
  }

  function Decide(previous: Option<seq<Exp>>, snap: seq<Exp>): Decision {
    DecideStarted(StartedIn(previous), WithState(snap, Started))
  }

  method FindIn(list: seq<Experiment>, ns: string, name: string) returns (r: Option<Experiment>)
    ensures r.Some? ==> r.value in list && Find(Views(list), ns, name) == Some(r.value.View())
    ensures r == None ==> Find(Views(list), ns, name) == None
  {
    assert Views(list)[0..] == Views(list);
    for k := 0 to |list|
      invariant Find(Views(list), ns, name) == Find(Views(list)[k..], ns, name)
    {
      assert Views(list)[k..][1..] == Views(list)[k + 1..];
      if list[k].ref.name == name {
        if ns == "" || list[k].ref.ns == ns {
          return Some(list[k]);
        }
      }
    }
    return None;
  }

  /** The length test and the loop of `ShouldSync`, with their early returns. */
  method CompareStarted(originalList: seq<Experiment>, updatedList: seq<Experiment>) returns (d: Decision)
    ensures d == DecideStarted(Views(originalList), Views(updatedList))
  {
    hide Find;
    if |originalList| != |updatedList| {
      return Resync;
    }
    ghost var original, updated := Views(originalList), Views(updatedList);
    for k := 0 to |updatedList|
      invariant Scan(original, updated, 0) == Scan(original, updated, k)
    {
      var found := FindIn(originalList, updatedList[k].ref.ns, updatedList[k].ref.name);
      if found == None {
        return Resync;
      }
      var change := FaultsChanged(found.value.View(), updatedList[k].View());
      if change != Keep {
        return change;
      }
    }
    return Keep;
  }

  function ViewsOf(snap: Option<seq<Experiment>>): Option<seq<Exp>>
    reads if snap == None then [] else snap.value
  {
    if snap == None then None else Some(Views(snap.value))
  }

  method ShouldSync(previous: Option<seq<Experiment>>, snap: seq<Experiment>) returns (d: Decision)
    ensures d == Decide(ViewsOf(previous), Views(snap))
  {
    hide DecideStarted, WithState, Selected;
    var updatedList := FilterByState(snap, Started);
    SelectedViews(snap, Started);
    var originalList := [];
    if previous.Some? {
      originalList := FilterByState(previous.value, Started);
      SelectedViews(previous.value, Started);
    }
    assert Views(originalList) == StartedIn(ViewsOf(previous));
    d := CompareStarted(originalList, updatedList);
  }

  // ----- what one decision means -----

  /** The experiment at index i is the first of that name. */
  predicate FirstNamed(list: seq<Exp>, ns: string, name: string, i: nat) {
    && i < |list| && list[i].ref.name == name && (ns == "" || list[i].ref.ns == ns)
    && forall j :: 0 <= j < i ==> list[j].ref.name != name || (ns != "" && list[j].ref.ns != ns)
  }

  /** The first match is found, whatever the list. */
  lemma {:induction false} FindFirst(list: seq<Exp>, ns: string, name: string) returns (i: nat)
    requires Find(list, ns, name).Some?
    ensures FirstNamed(list, ns, name, i) && list[i] == Find(list, ns, name).value
  {
    if Named(list[0], ns, name) {
      i := 0;
    } else {
      var k := FindFirst(list[1..], ns, name);
      i := k + 1;
      assert forall j :: 0 < j < i ==> list[j] == list[1..][j - 1];
    }
  }

  /** In a well-formed list, looking up a key finds exactly the experiment with that key. */
  lemma {:induction false} FindExactly(list: seq<Exp>, e: Exp)
    requires WellFormed(list) && e in list
    ensures Find(list, e.ref.ns, e.ref.name) == Some(e)
  {
    var found := Find(list, e.ref.ns, e.ref.name);
    var i :| 0 <= i < |list| && list[i] == e;
    var j :| 0 <= j < |list| && Some(list[j]) == found;
  }

  lemma {:induction false} ScanKeepExactly(original: seq<Exp>, updated: seq<Exp>, i: nat)
    requires i <= |updated|
    ensures Scan(original, updated, i) == Keep <==> forall k :: i <= k < |updated| ==> Compare(original, updated[k]) == Keep
    decreases |updated| - i
  {
    if i < |updated| {
      ScanKeepExactly(original, updated, i + 1);
    }
  }

  /** The loop, from index i on, reaches index k and dereferences nil there. */
  ghost predicate ScanCrashesAt(original: seq<Exp>, updated: seq<Exp>, i: nat, k: int) {
    && i <= k < |updated| && Compare(original, updated[k]) == Crash
    && forall j :: i <= j < k ==> Compare(original, updated[j]) == Keep
  }

  lemma ScanCrashesLater(original: seq<Exp>, updated: seq<Exp>, i: nat, k: int)
    requires i < |updated|
    ensures Compare(original, updated[i]) == Keep ==>
      (ScanCrashesAt(original, updated, i, k) <==> ScanCrashesAt(original, updated, i + 1, k))
    ensures Compare(original, updated[i]) != Keep ==>
      (ScanCrashesAt(original, updated, i, k) <==> k == i && Compare(original, updated[i]) == Crash)
  {
  }

  lemma {:induction false} ScanCrashExactly(original: seq<Exp>, updated: seq<Exp>, i: nat)
    requires i <= |updated|
    ensures Scan(original, updated, i) == Crash <==> exists k :: ScanCrashesAt(original, updated, i, k)
    decreases |updated| - i
  {
    hide Compare;
    if i < |updated| {
      ScanCrashExactly(original, updated, i + 1);
      forall k: int {
        ScanCrashesLater(original, updated, i, k);
      }
      if Compare(original, updated[i]) == Crash {
        assert ScanCrashesAt(original, updated, i, i);
      } else if Scan(original, updated, i) == Crash {
        var k :| ScanCrashesAt(original, updated, i + 1, k);
        assert ScanCrashesAt(original, updated, i, k);
      }
    }
  }

  /** As many distinct keys on both sides, and every new one known: then the keys are the same. */
  lemma Pigeonhole(original: seq<Exp>, updated: seq<Exp>)
    requires WellFormed(original) && WellFormed(updated) && |original| == |updated|
    requires RefSet(updated) <= RefSet(original)
    ensures RefSet(updated) == RefSet(original)
  {
    RefSetSize(original);
    RefSetSize(updated);
    assert |RefSet(original) - RefSet(updated)| == 0;
  }

  lemma AtRef(list: seq<Exp>, ref: Ref) returns (e: Exp)
    requires ref in RefSet(list)
    ensures e in list && e.ref == ref
  {
    e :| e in list && e.ref == ref;
  }

  // ----- when the decider skips -----

  /** The monitored experiment b has the failure conditions of c, and its duration if b has a spec. */
  predicate Tracks(b: Exp, c: Exp) {
    Conditions(b) == Conditions(c) && (b.spec.Some? ==> c.spec.Some? && DurationOf(b) == DurationOf(c))
  }

  /** The same, with the durations equal in every case. */
  predicate Agrees(b: Exp, c: Exp) {
    Conditions(b) == Conditions(c) && DurationOf(b) == DurationOf(c)
  }

  ghost predicate Covers(batch: seq<Exp>, current: seq<Exp>) {
    && RefSet(batch) == RefSet(current)
    && forall b, c :: b in batch && c in current && b.ref == c.ref ==> Tracks(b, c)
  }

  ghost predicate Mirrors(batch: seq<Exp>, current: seq<Exp>) {
    && RefSet(batch) == RefSet(current)
    && forall b, c :: b in batch && c in current && b.ref == c.ref ==> Agrees(b, c)
  }

  lemma KeepsExactly(p: Exp, c: Exp)
    ensures FaultsChanged(p, c) == Keep <==> Tracks(p, c)
  {
  }

  lemma ComparedExactly(original: seq<Exp>, c: Exp)
    requires WellFormed(original) && c.ref.ns != ""
    ensures Compare(original, c) == Keep <==> exists p :: p in original && p.ref == c.ref && Tracks(p, c)
  {
    if p :| p in original && p.ref == c.ref {
      FindExactly(original, p);
      KeepsExactly(p, c);
      forall q | q in original && q.ref == c.ref ensures q == p {
        FindExactly(original, q);
      }
    }
  }

  lemma CoveredAreCompared(original: seq<Exp>, updated: seq<Exp>)
    requires WellFormed(original) && WellFormed(updated) && Covers(original, updated)
    ensures forall c :: c in updated ==> Compare(original, c) == Keep
  {
    hide Compare, Tracks, WellFormed;
    forall c | c in updated ensures Compare(original, c) == Keep {
      assert c.ref in RefSet(updated);
      var p := AtRef(original, c.ref);
      assert c.ref.ns != "" by { Namespaced(updated, c); }
      ComparedExactly(original, c);
    }
  }

  lemma Namespaced(list: seq<Exp>, e: Exp)
    requires WellFormed(list) && e in list
    ensures e.ref.ns != ""
  {
  }

  lemma ComparedAreCovered(original: seq<Exp>, updated: seq<Exp>)
    requires WellFormed(original) && WellFormed(updated) && |original| == |updated|
    requires forall c :: c in updated ==> Compare(original, c) == Keep
    ensures Covers(original, updated)
  {
    hide Compare, Tracks;
    forall c | c in updated ensures exists p :: p in original && p.ref == c.ref && Tracks(p, c) {
      ComparedExactly(original, c);
    }
    Pigeonhole(original, updated);
    forall p, c | p in original && c in updated && p.ref == c.ref ensures Tracks(p, c) {
      var q :| q in original && q.ref == c.ref && Tracks(q, c);
      FindExactly(original, p);
      FindExactly(original, q);
    }
  }

  /** The decider skips a snapshot if and only if the started experiments of the previous one cover it. */
  lemma {:induction false} KeepExactly(previous: seq<Exp>, snap: seq<Exp>)
    requires WellFormed(previous) && WellFormed(snap)
    ensures Decide(Some(previous), snap) == Keep <==> Covers(WithState(previous, Started), WithState(snap, Started))
  {
    hide Compare, Covers, WellFormed;
    var original, updated := WithState(previous, Started), WithState(snap, Started);
    WithStateWellFormed(previous, Started);
    WithStateWellFormed(snap, Started);
    ScanKeepExactly(original, updated, 0);
    if Decide(Some(previous), snap) == Keep {
      forall c | c in updated ensures Compare(original, c) == Keep {
        var k :| 0 <= k < |updated| && updated[k] == c;
      }
      ComparedAreCovered(original, updated);
    }
    if Covers(original, updated) {
      SameSize(original, updated);
      CoveredAreCompared(original, updated);
    }
  }

  lemma SameSize(original: seq<Exp>, updated: seq<Exp>)
    requires WellFormed(original) && WellFormed(updated) && Covers(original, updated)
    ensures |original| == |updated|
  {
    RefSetSize(original);
    RefSetSize(updated);
  }

  // ----- when the decider crashes -----

  /** The experiment had a spec before and has none now. */
  ghost predicate LosesSpec(original: seq<Exp>, c: Exp) {
    exists p :: p in original && p.ref == c.ref && p.spec.Some? && c.spec == None
  }

  ghost predicate TrackedIn(original: seq<Exp>, c: Exp) {
    exists p :: p in original && p.ref == c.ref && Tracks(p, c)
  }

  /** As many started experiments as before, one of which lost its spec, and all before that one are tracked. */
  ghost predicate DropsSpec(original: seq<Exp>, updated: seq<Exp>) {
    |original| == |updated| && exists k :: DropsSpecAt(original, updated, k)
  }

  ghost predicate DropsSpecAt(original: seq<Exp>, updated: seq<Exp>, k: int) {
    0 <= k < |updated| && LosesSpec(original, updated[k]) && forall j :: 0 <= j < k ==> TrackedIn(original, updated[j])
  }

  lemma ComparedCrashExactly(original: seq<Exp>, c: Exp)
    requires WellFormed(original) && c.ref.ns != ""
    ensures Compare(original, c) == Crash <==> LosesSpec(original, c)
  {
    if p :| p in original && p.ref == c.ref {
      FindExactly(original, p);
      forall q | q in original && q.ref == c.ref ensures q == p {
        FindExactly(original, q);
      }
    }
  }

  lemma CrashesWhereSpecDrops(original: seq<Exp>, updated: seq<Exp>, k: int)
    requires WellFormed(original) && WellFormed(updated)
    ensures ScanCrashesAt(original, updated, 0, k) <==> DropsSpecAt(original, updated, k)
  {
    hide Compare, LosesSpec, TrackedIn, WellFormed;
    forall j | 0 <= j < |updated|
      ensures Compare(original, updated[j]) == Crash <==> LosesSpec(original, updated[j])
      ensures Compare(original, updated[j]) == Keep <==> TrackedIn(original, updated[j])
    {
      Namespaced(updated, updated[j]);
      ComparedCrashExactly(original, updated[j]);
      TrackedExactly(original, updated[j]);
    }
  }

  /** The nil dereference happens if and only if the snapshots drop a spec where nothing stops the loop before. */
  lemma {:induction false} CrashExactly(previous: seq<Exp>, snap: seq<Exp>)
    requires WellFormed(previous) && WellFormed(snap)
    ensures Decide(Some(previous), snap) == Crash <==> DropsSpec(WithState(previous, Started), WithState(snap, Started))
  {
    hide ScanCrashesAt, DropsSpecAt, WellFormed, WithState, Scan;
    var original, updated := WithState(previous, Started), WithState(snap, Started);
    WithStateWellFormed(previous, Started);
    WithStateWellFormed(snap, Started);
    ScanCrashExactly(original, updated, 0);
    forall k ensures ScanCrashesAt(original, updated, 0, k) <==> DropsSpecAt(original, updated, k) {
      CrashesWhereSpecDrops(original, updated, k);
    }
  }

  lemma TrackedExactly(original: seq<Exp>, c: Exp)
    requires WellFormed(original) && c.ref.ns != ""
    ensures Compare(original, c) == Keep <==> TrackedIn(original, c)
  {
    ComparedExactly(original, c);
  }

  lemma FirstNeverCrashes(snap: seq<Exp>)
    ensures Decide(None, snap) != Crash
  {
  }

  // ----- what the synced batch has to do with the snapshot -----

  predicate OnlyDurationGained(p: Exp, c: Exp) {
    p.spec == None && c.spec.Some? && Conditions(c) == [] && DurationOf(c).Some?
  }

  /** An experiment without a spec obtains one that has a duration and no failure condition. */
  ghost predicate GainsOnlyDuration(original: seq<Exp>, updated: seq<Exp>) {
    exists p, c :: p in original && c in updated && p.ref == c.ref && OnlyDurationGained(p, c)
  }

  lemma SyncedListCoversItself(list: seq<Exp>)
    requires WellFormed(list)
    ensures Covers(list, list) && Mirrors(list, list)
  {
    forall b, c | b in list && c in list && b.ref == c.ref
      ensures b == c
    {
      var i :| 0 <= i < |list| && list[i] == b;
      var j :| 0 <= j < |list| && list[j] == c;
    }
  }

  lemma SkippingKeepsCoverage(batch: seq<Exp>, original: seq<Exp>, updated: seq<Exp>)
    requires Covers(batch, original) && Covers(original, updated)
    ensures Covers(batch, updated)
  {
    forall b, c | b in batch && c in updated && b.ref == c.ref
      ensures Tracks(b, c)
    {
      assert b.ref in RefSet(batch);
      var p := AtRef(original, b.ref);
      assert Tracks(b, p) && Tracks(p, c);
    }
  }

  /** A skipped step keeps exact agreement if and only if no experiment gains a duration alone. */
  lemma SkippingKeepsAgreementExactly(batch: seq<Exp>, original: seq<Exp>, updated: seq<Exp>)
    requires Mirrors(batch, original) && Covers(original, updated)
    ensures Mirrors(batch, updated) <==> !GainsOnlyDuration(original, updated)
  {
    if p, c :| p in original && c in updated && p.ref == c.ref && OnlyDurationGained(p, c) {
      assert p.ref in RefSet(original);
      var b := AtRef(batch, p.ref);
      assert Agrees(b, p) && !Agrees(b, c);
    } else {
      forall b, c | b in batch && c in updated && b.ref == c.ref
        ensures Agrees(b, c)
      {
        assert b.ref in RefSet(batch);
        var p := AtRef(original, b.ref);
        assert Agrees(b, p) && Tracks(p, c);
      }
    }
  }

  // ----- whole runs -----

  ghost predicate AllWellFormed(seen: seq<seq<Exp>>) {
    seen == [] || (AllWellFormed(seen[..|seen| - 1]) && WellFormed(seen[|seen| - 1]))
  }

  function Before(seen: seq<seq<Exp>>, k: nat): Option<seq<Exp>>
    requires k <= |seen|
  {
    if k == 0 then None else Some(seen[k - 1])
  }

  ghost predicate CrashFree(seen: seq<seq<Exp>>) {
    seen == [] ||
    (CrashFree(seen[..|seen| - 1]) && Decide(Before(seen, |seen| - 1), seen[|seen| - 1]) != Crash)
  }

  /** The experiments of the last sync, after the decider has seen all of `seen`. */
  function Batch(seen: seq<seq<Exp>>): seq<Exp> {
    if seen == [] then []
    else
      var n := |seen| - 1;
      if Decide(Before(seen, n), seen[n]) == Resync then WithState(seen[n], Started) else Batch(seen[..n])
  }

  lemma {:induction false} WellFormedAt(seen: seq<seq<Exp>>, k: nat)
    requires AllWellFormed(seen) && k < |seen|
    ensures WellFormed(seen[k])
  {
    if k < |seen| - 1 {
      WellFormedAt(seen[..|seen| - 1], k);
    }
  }

  lemma {:induction false} DecidedAt(seen: seq<seq<Exp>>, k: nat)
    requires CrashFree(seen) && k < |seen|
    ensures Decide(Before(seen, k), seen[k]) != Crash
  {
    if k < |seen| - 1 {
      DecidedAt(seen[..|seen| - 1], k);
    }
  }

  /** If the first snapshot is skipped, it has no started experiment, and nothing was synced. */
  lemma {:induction false} FirstSkipIsEmpty(seen: seq<seq<Exp>>)
    requires |seen| == 1 && Decide(None, seen[0]) == Keep
    ensures WithState(seen[0], Started) == [] == Batch(seen)
  {
    assert Before(seen, 0) == None;
    assert seen[..0] == [];
  }

  /** Comparing adjacent snapshots suffices: the batch covers the latest snapshot in every run. */
  lemma {:induction false} BatchCoversLatest(seen: seq<seq<Exp>>)
    requires seen != [] && AllWellFormed(seen) && CrashFree(seen)
    ensures Covers(Batch(seen), WithState(seen[|seen| - 1], Started))
  {
    hide Decide, Covers, Mirrors, WellFormed, WithState;
    var n := |seen| - 1;
    WellFormedAt(seen, n);
    DecidedAt(seen, n);
    WithStateWellFormed(seen[n], Started);
    SyncedListCoversItself(WithState(seen[n], Started));
    if Decide(Before(seen, n), seen[n]) != Resync {
      if n == 0 {
        FirstSkipIsEmpty(seen);
      } else {
        WellFormedAt(seen, n - 1);
        BatchCoversLatest(seen[..n]);
        KeepExactly(seen[n - 1], seen[n]);
        SkippingKeepsCoverage(Batch(seen[..n]), WithState(seen[n - 1], Started), WithState(seen[n], Started));
      }
    }
  }

  /** Nothing the decider looks at changes, but an experiment gains a duration. */
  ghost predicate SilentGainAt(seen: seq<seq<Exp>>, k: nat)
    requires k < |seen|
  {
    k > 0 && Covers(WithState(seen[k - 1], Started), WithState(seen[k], Started))
    && GainsOnlyDuration(WithState(seen[k - 1], Started), WithState(seen[k], Started))
  }

  ghost predicate MirrorsAt(seen: seq<seq<Exp>>, k: nat)
    requires k < |seen|
  {
    Mirrors(Batch(seen[..k + 1]), WithState(seen[k], Started))
  }

  /** Exact agreement after each of the first n iterations. */
  ghost predicate MirrorsThrough(seen: seq<seq<Exp>>, n: nat)
    requires n <= |seen|
  {
    n == 0 || (MirrorsThrough(seen, n - 1) && MirrorsAt(seen, n - 1))
  }

  /** None of the first n iterations skips a gained duration. */
  ghost predicate NoSilentGainThrough(seen: seq<seq<Exp>>, n: nat)
    requires n <= |seen|
  {
    n == 0 || (NoSilentGainThrough(seen, n - 1) && !SilentGainAt(seen, n - 1))
  }

  /** Over a whole run, exact agreement after every iteration holds iff no skipped step gains only a duration. */
  lemma {:induction false} AlwaysAgreesExactly(seen: seq<seq<Exp>>, n: nat)
    requires AllWellFormed(seen) && CrashFree(seen) && n <= |seen|
    ensures MirrorsThrough(seen, n) <==> NoSilentGainThrough(seen, n)
  {
    hide MirrorsAt, SilentGainAt, CrashFree, AllWellFormed;
    if n > 0 {
      AlwaysAgreesExactly(seen, n - 1);
      if MirrorsThrough(seen, n - 1) {
        StepAgreesExactly(seen, n - 1);
      }
    }
  }

  lemma {:induction false} StepAgreesExactly(seen: seq<seq<Exp>>, n: nat)
    requires n < |seen| && AllWellFormed(seen) && CrashFree(seen)
    requires n > 0 ==> MirrorsAt(seen, n - 1)
    ensures MirrorsAt(seen, n) <==> !SilentGainAt(seen, n)
  {
    hide Decide, Mirrors, Covers, GainsOnlyDuration, WellFormed;
    var upTo := seen[..n + 1];
    assert upTo[..n] == seen[..n] && Before(upTo, n) == Before(seen, n);
    WellFormedAt(seen, n);
    DecidedAt(seen, n);
    if n > 0 {
      WellFormedAt(seen, n - 1);
      KeepExactly(seen[n - 1], seen[n]);
    }
    if Decide(Before(seen, n), seen[n]) == Resync {
      WithStateWellFormed(seen[n], Started);
      SyncedListCoversItself(WithState(seen[n], Started));
    } else if n == 0 {
      FirstSkipIsEmpty(upTo);
      SyncedListCoversItself([]) by { EmptyIsWellFormed(); }
    } else {
      SkippingKeepsAgreementExactly(Batch(seen[..n]), WithState(seen[n - 1], Started), WithState(seen[n], Started));
    }
  }

  lemma EmptyIsWellFormed()
    ensures WellFormed([])
  {
  }

  /** A started experiment without a spec, and the same one with only a duration. */
  const BARE := Exp(Ref("ns", "e"), 1, "", None, Outcome(Started, map[], Some(0), None))
  const TIMED := BARE.(spec := Some(Spec([], [], Some(60), None)))

  /** Exact agreement does fail: a spec that appears with only a duration is not synced. */
  lemma SilentGainExists()
    ensures AllWellFormed([[BARE], [TIMED]]) && CrashFree([[BARE], [TIMED]])
    ensures !MirrorsAt([[BARE], [TIMED]], 1)
  {
    hide Decide, Mirrors, Covers, WithState, GainsOnlyDuration, MirrorsAt;
    var bare, timed := BARE, TIMED;
    var seen := [[bare], [timed]];
    SingletonStarted(bare);
    SingletonStarted(timed);
    FirstSingleton(bare);
    SkippedSingleton(bare, timed);
    assert seen[..1] == [[bare]] && [[bare]][..0] == [];
    assert Before([[bare]], 0) == None && Before(seen, 1) == Some([bare]);
    assert AllWellFormed([[bare]]);
    assert CrashFree([]) && CrashFree([[bare]]);
    KeepExactly([bare], [timed]);
    assert GainsOnlyDuration([bare], [timed]) by { GainedSingleton(bare, timed); }
    AgreesAtFirst(seen);
    StepAgreesExactly(seen, 1);
  }

  lemma FirstSingleton(e: Exp)
    requires e.result.state == Started
    ensures Decide(None, [e]) == Resync
  {
    SingletonStarted(e);
  }

  lemma GainedSingleton(p: Exp, c: Exp)
    requires p.ref == c.ref && OnlyDurationGained(p, c)
    ensures GainsOnlyDuration([p], [c])
  {
    assert p in [p] && c in [c];
  }

  lemma DroppedSingleton(p: Exp, c: Exp)
    requires p.ref == c.ref && p.result.state == c.result.state == Started && p.spec.Some? && c.spec == None
    ensures DropsSpec(WithState([p], Started), WithState([c], Started))
  {
    SingletonStarted(p);
    SingletonStarted(c);
    assert p in [p];
    assert DropsSpecAt([p], [c], 0);
  }

  lemma SingletonStarted(e: Exp)
    requires e.result.state == Started
    ensures WithState([e], Started) == [e]
  {
    assert [e][..0] == [];
  }

  lemma SkippedSingleton(p: Exp, c: Exp)
    requires p.ref == c.ref && p.result.state == c.result.state == Started && FaultsChanged(p, c) == Keep
    ensures Decide(Some([p]), [c]) == Keep
  {
    SingletonStarted(p);
    SingletonStarted(c);
    assert Find([p], c.ref.ns, c.ref.name) == Some(p);
    ScanKeepExactly([p], [c], 0);
  }

  lemma {:induction false} AgreesAtFirst(seen: seq<seq<Exp>>)
    requires seen != [] && AllWellFormed(seen) && CrashFree(seen)
    ensures MirrorsAt(seen, 0)
  {
    hide MirrorsAt, AllWellFormed, CrashFree;
    StepAgreesExactly(seen, 0);
  }
}
