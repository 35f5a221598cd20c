/**
 The life of stored experiments. Writers hold copies of any age; a write succeeds
 only against the version it was copied from. Users create, edit and delete, the
 starter promotes, and monitors write verdicts, in any interleaving.
 */
module Lifecycle {
  import opened Types
  import S = Starter
  import M = Monitor

  /**
   `live` is what the API server stores, `past` every value it ever stored, by version. `births` is
   the version at which the present or last experiment of a key was created.
   */
  datatype Store = Store(live: map<Ref, Exp>, past: map<nat, Exp>, births: map<Ref, nat>, next: nat)

  /** The writers' copies are named by their version. */
  datatype Step =
    | Create(ref: Ref, spec: Option<Spec>)
    | Delete(ref: Ref)
    | Edit(copy: nat, spec: Option<Spec>)
    | Start(copy: nat, env: S.Env)
    | Verdict(copy: nat, report: Option<M.Report>, value: string, threshold: string, now: Time)

  const EMPTY := Store(map[], map[], map[], 0)

  /** The `failureReport` map of a report, with the two numbers as printed. */
  function Fields(r: M.Report, value: string, threshold: string): (f: map<string, string>)
    ensures f != map[]
  {
    match r
    case InvalidConfig =>
      var f := map["failure_type" := "invalid_config", "message" := "no failure conditions specified"];
      assert "message" in f;
      f
    case Crossed(_, _, operator) =>
      var f := map["failure_type" := "value_exceeded_threshold", "value" := value, "threshold" := threshold,
                   "comparison_operator" := operator];
      assert "value" in f;
      f
  }

  /** Which texts a report has, and under which keys. */
  lemma FieldsExactly(r: M.Report, value: string, threshold: string)
    ensures r.InvalidConfig? ==> Fields(r, value, threshold).Keys == {"failure_type", "message"}
    ensures r.InvalidConfig? ==> Fields(r, value, threshold)["failure_type"] == "invalid_config"
    ensures r.InvalidConfig? ==> Fields(r, value, threshold)["message"] == "no failure conditions specified"
    ensures r.Crossed? ==>
      Fields(r, value, threshold).Keys == {"failure_type", "value", "threshold", "comparison_operator"}
    ensures r.Crossed? ==> Fields(r, value, threshold)["failure_type"] == "value_exceeded_threshold"
    ensures r.Crossed? ==>
      && Fields(r, value, threshold)["value"] == value && Fields(r, value, threshold)["threshold"] == threshold
      && Fields(r, value, threshold)["comparison_operator"] == r.operator
  {
    var a, b, c, d := "failure_type", "value", "threshold", "comparison_operator";
    assert a[0] == 'f' && b[0] == 'v' && c[0] == 't' && d[0] == 'c' && "message"[0] == 'm';
  }

  /** What `reportResult` makes of the copy it read: only success leaves the failure report alone. */
  function WithVerdict(e: Exp, report: Option<M.Report>, value: string, threshold: string, now: Time): Exp {
    match report
    case None => e.(result := e.result.(state := Succeeded, timeFinished := Some(now)))
    case Some(r) => e.(result := e.result.(state := Failed, report := Fields(r, value, threshold), timeFinished := Some(now)))
  }

  /** Stores a value under the next version. */
  function Put(s: Store, e: Exp): Store {
    var stored := e.(version := s.next);
    s.(live := s.live[e.ref := stored], past := s.past[s.next := stored], next := s.next + 1)
  }

  /** An overwriting write: refused unless the copy has the stored version. */
  function CompareAndSwap(s: Store, e: Exp): Store {
    if e.ref in s.live && s.live[e.ref].version == e.version then Put(s, e) else s
  }

  function Apply(s: Store, step: Step): Store {
    match step
    case Create(ref, spec) =>
      if ref in s.live then s
      else Put(s, Exp(ref, 0, "", spec, Outcome(Pending, map[], None, None))).(births := s.births[ref := s.next])
    case Delete(ref) => s.(live := s.live - {ref})
    case Edit(copy, spec) => if copy in s.past then CompareAndSwap(s, s.past[copy].(spec := spec)) else s
    case Start(copy, env) =>
      if copy in s.past && s.past[copy].result.state == Pending && S.Names(s.past[copy], env).duplicate == None
      then CompareAndSwap(s, S.Started(s.past[copy], env)) else s
    case Verdict(copy, report, value, threshold, now) =>
      if copy in s.past then CompareAndSwap(s, WithVerdict(s.past[copy], report, value, threshold, now)) else s
  }

  function Exec(s: Store, steps: seq<Step>): Store {
    if steps == [] then s else Apply(Exec(s, steps[..|steps| - 1]), steps[|steps| - 1])
  }

  // ----- invariants -----

  function Rank(state: State): nat {
    match state case Pending => 0 case Started => 1 case Failed => 2 case Succeeded => 2
  }

  /** A finishing time exactly in the two final states; a start time once started; a failure has a report. */
  ghost predicate Sound(e: Exp) {
    && (e.result.timeFinished.Some? <==> Concluded(e))
    && (e.result.state == Started ==> e.result.timeStarted.Some?)
    && (e.result.state == Failed ==> e.result.report != map[])
  }

  ghost predicate Inv(s: Store) {
    && (forall v :: v in s.past ==> s.past[v].version == v < s.next && Sound(s.past[v]))
    && (forall r :: r in s.live ==>
          && s.live[r].ref == r && s.live[r].version in s.past && s.past[s.live[r].version] == s.live[r]
          && r in s.births)
    && (forall r :: r in s.births ==> s.births[r] < s.next)
  }

  /** A write that succeeds is based on the stored value itself, because its copy has the stored version. */
  lemma SwapIsBasedOnStored(s: Store, copy: nat, e: Exp)
    requires Inv(s) && copy in s.past && e.ref == s.past[copy].ref && e.version == copy
    ensures CompareAndSwap(s, e) != s ==> e.ref in s.live && s.live[e.ref] == s.past[copy]
  {
  }

  lemma PutKeeps(s: Store, e: Exp)
    requires Inv(s) && e.ref in s.births && Sound(e)
    ensures Inv(Put(s, e))
  {
  }

  lemma StepKeeps(s: Store, step: Step)
    requires Inv(s)
    ensures Inv(Apply(s, step))
  {
    hide Put, Fields, S.Names;
    match step
    case Create(ref, spec) =>
      if ref !in s.live {
        var e := Exp(ref, 0, "", spec, Outcome(Pending, map[], None, None));
        CreateKeeps(s, e);
      }
    case Delete(_) =>
    case Edit(copy, spec) => if copy in s.past { SwapKeeps(s, s.past[copy].(spec := spec)); }
    case Start(copy, env) =>
      if copy in s.past && s.past[copy].result.state == Pending { SwapKeeps(s, S.Started(s.past[copy], env)); }
    case Verdict(copy, report, value, threshold, now) =>
      if copy in s.past {
        var e := WithVerdict(s.past[copy], report, value, threshold, now);
        assert report.Some? ==> Fields(report.value, value, threshold) != map[];
        SwapKeeps(s, e);
      }
  }

  lemma CreateKeeps(s: Store, e: Exp)
    requires Inv(s) && Sound(e)
    ensures Inv(Put(s, e).(births := s.births[e.ref := s.next]))
  {
  }

  lemma SwapKeeps(s: Store, e: Exp)
    requires Inv(s) && Sound(e)
    ensures Inv(CompareAndSwap(s, e))
  {
    if CompareAndSwap(s, e) != s {
      PutKeeps(s, e);
    }
  }

  lemma {:induction false} RunKeeps(steps: seq<Step>)
    ensures Inv(Exec(EMPTY, steps))
  {
    if steps != [] {
      hide Apply;
      RunKeeps(steps[..|steps| - 1]);
      StepKeeps(Exec(EMPTY, steps[..|steps| - 1]), steps[|steps| - 1]);
    }
  }

  /** In every run, a stored experiment has a finishing time exactly when it is final, and a failure has a report. */
  lemma {:induction false} StoredIsSound(steps: seq<Step>, ref: Ref)
    requires ref in Exec(EMPTY, steps).live
    ensures Exec(EMPTY, steps).live[ref].result.timeFinished.Some? <==> Concluded(Exec(EMPTY, steps).live[ref])
    ensures Exec(EMPTY, steps).live[ref].result.state == Started ==> Exec(EMPTY, steps).live[ref].result.timeStarted.Some?
    ensures Exec(EMPTY, steps).live[ref].result.state == Failed ==> Exec(EMPTY, steps).live[ref].result.report != map[]
  {
    RunKeeps(steps);
  }

  // ----- what each write changes -----

  /** The write is based on the stored version; a promotion also needs a pending experiment with distinct names. */
  ghost predicate Succeeds(s: Store, step: Step, ref: Ref) {
    ref in s.live &&
    match step
    case Edit(copy, _) => copy == s.live[ref].version
    case Start(copy, env) =>
      && copy == s.live[ref].version && s.live[ref].result.state == Pending
      && S.GivenNamesDistinct(Conditions(s.live[ref]), env.nameAt(ref))
    case Verdict(copy, _, _, _, _) => copy == s.live[ref].version
    case _ => false
  }

  /** What the step makes of the stored value: an edit its spec, a promotion its start, a verdict its outcome. */
  ghost predicate Becomes(was: Exp, now: Exp, step: Step) {
    match step
    case Edit(_, spec) => now.(version := was.version) == was.(spec := spec)
    case Start(_, env) => S.StartedFrom(now.(version := was.version), was, env)
    case Verdict(_, report, value, threshold, time) =>
      && now.ref == was.ref && now.status == was.status && now.spec == was.spec
      && now.result.timeStarted == was.result.timeStarted && now.result.timeFinished == Some(time)
      && now.result.state == (if report == None then Succeeded else Failed)
      && now.result.report == (if report == None then was.result.report else Fields(report.value, value, threshold))
    case _ => false
  }

  lemma NamesExactly(e: Exp, env: S.Env)
    ensures S.Names(e, env).duplicate == None <==> S.GivenNamesDistinct(Conditions(e), env.nameAt(e.ref))
  {
    S.NamingSucceedsExactly(Conditions(e), 0, env.nameAt(e.ref));
  }

  lemma SwapExactly(s: Store, copy: nat, e: Exp, ref: Ref)
    requires Inv(s) && copy in s.past && e.ref == s.past[copy].ref && e.version == copy && ref in s.live
    ensures var t := CompareAndSwap(s, e);
      if copy == s.live[ref].version then t.live == s.live[ref := e.(version := s.next)] && e.ref == ref
      else ref in t.live && t.live[ref] == s.live[ref]
  {
  }

  /**
   A stored value is replaced exactly by a write that succeeds, which gives it a new version and changes what
   it is meant to change and nothing else; any other step leaves it, or deletes it.
   */
  lemma WritesExactly(s: Store, step: Step, ref: Ref)
    requires Inv(s) && ref in s.live
    ensures ref in Apply(s, step).live <==> step != Delete(ref)
    ensures ref in Apply(s, step).live ==>
      if Succeeds(s, step, ref)
      then Becomes(s.live[ref], Apply(s, step).live[ref], step) && Apply(s, step).live[ref].version == s.next
      else Apply(s, step).live[ref] == s.live[ref]
  {
    hide Fields, S.Names, S.StartedFrom, CompareAndSwap, S.GivenNamesDistinct, Sound;
    var version := s.live[ref].version;
    match step
    case Create(_, _) =>
    case Delete(_) =>
    case Edit(copy, spec) =>
      if copy in s.past {
        SwapExactly(s, copy, s.past[copy].(spec := spec), ref);
      }
    case Start(copy, env) =>
      if copy in s.past {
        SwapExactly(s, copy, S.Started(s.past[copy], env), ref);
        NamesExactly(s.past[copy], env);
        PromotedBecomes(s.past[copy], env, s.next);
      }
    case Verdict(copy, report, value, threshold, now) =>
      if copy in s.past {
        SwapExactly(s, copy, WithVerdict(s.past[copy], report, value, threshold, now), ref);
      }
  }

  lemma PromotedBecomes(e: Exp, env: S.Env, version: nat)
    ensures S.StartedFrom(S.Started(e, env).(version := version).(version := e.version), e, env)
  {
    S.StartedFrame(e, env);
    assert S.Started(e, env).(version := version).(version := e.version) == S.Started(e, env);
  }

  /** A new experiment is pending, with the spec it was given and nothing else, under a new version. */
  lemma CreatesExactly(s: Store, step: Step, ref: Ref)
    requires Inv(s) && ref !in s.live
    ensures ref in Apply(s, step).live <==> step.Create? && step.ref == ref
    ensures ref in Apply(s, step).live ==>
      Apply(s, step).live[ref] == Exp(ref, s.next, "", step.spec, Outcome(Pending, map[], None, None))
  {
    hide Fields, S.Names, Sound;
  }

  // ----- the rank never falls -----

  /** The experiment s has at ref is still there in t, as it was created then, and its rank has not fallen. */
  ghost predicate NotFallen(s: Store, t: Store, ref: Ref)
    requires ref in s.live && ref in s.births
  {
    && s.next <= t.next
    && (ref in t.live && ref in t.births && t.births[ref] == s.births[ref] ==>
          Rank(s.live[ref].result.state) <= Rank(t.live[ref].result.state))
  }

  lemma StepNeverLowers(s: Store, step: Step, ref: Ref)
    requires Inv(s) && ref in s.live
    ensures NotFallen(s, Apply(s, step), ref)
    ensures ref in Apply(s, step).births && Apply(s, step).births[ref] == s.births[ref]
  {
    hide Fields, S.Names, Sound;
    match step
    case Create(_, _) =>
    case Delete(_) =>
    case Edit(copy, spec) => if copy in s.past { SwapIsBasedOnStored(s, copy, s.past[copy].(spec := spec)); }
    case Start(copy, env) => if copy in s.past { SwapIsBasedOnStored(s, copy, S.Started(s.past[copy], env)); }
    case Verdict(copy, report, value, threshold, now) =>
      if copy in s.past { SwapIsBasedOnStored(s, copy, WithVerdict(s.past[copy], report, value, threshold, now)); }
  }

  /** A key that is not stored comes back only by a creation, at a later version. */
  lemma StepOnAbsent(s: Store, step: Step, ref: Ref)
    requires Inv(s) && ref !in s.live
    ensures s.next <= Apply(s, step).next
    ensures ref in Apply(s, step).live ==> ref in Apply(s, step).births && Apply(s, step).births[ref] == s.next
  {
    hide Fields, S.Names, Sound;
  }

  lemma {:induction false} RunNeverLowers(s: Store, more: seq<Step>, ref: Ref)
    requires Inv(s) && ref in s.live
    ensures Inv(Exec(s, more)) && NotFallen(s, Exec(s, more), ref)
  {
    if more != [] {
      hide Apply, Sound;
      var t, last := Exec(s, more[..|more| - 1]), more[|more| - 1];
      RunNeverLowers(s, more[..|more| - 1], ref);
      StepKeeps(t, last);
      if ref in t.live {
        StepNeverLowers(t, last, ref);
      } else {
        StepOnAbsent(t, last, ref);
      }
    }
  }

  /**
   Pending, Started, final: over any interleaving of creations, edits, deletions, starter writes and
   verdict writes, the rank of one and the same stored experiment never decreases.
   */
  lemma {:induction false} RankNeverDecreases(steps: seq<Step>, more: seq<Step>, ref: Ref)
    requires ref in Exec(EMPTY, steps).live && ref in Exec(Exec(EMPTY, steps), more).live
    requires ref in Exec(EMPTY, steps).births && ref in Exec(Exec(EMPTY, steps), more).births
    requires Exec(EMPTY, steps).births[ref] == Exec(Exec(EMPTY, steps), more).births[ref]
    ensures Rank(Exec(EMPTY, steps).live[ref].result.state) <= Rank(Exec(Exec(EMPTY, steps), more).live[ref].result.state)
  {
    RunKeeps(steps);
    RunNeverLowers(Exec(EMPTY, steps), more, ref);
  }

  // ----- when a verdict is permanent -----

  /** A verdict of the other outcome, given on the value now stored. */
  predicate Flips(s: Store, step: Step, ref: Ref) {
    && step.Verdict? && ref in s.live && step.copy == s.live[ref].version
    && (step.report == None <==> s.live[ref].result.state == Failed)
  }

  /** One step changes a stored final state if and only if it flips it. */
  lemma FlipExactly(s: Store, step: Step, ref: Ref)
    requires Inv(s) && ref in s.live && Concluded(s.live[ref])
    ensures ref in Apply(s, step).live && Apply(s, step).live[ref].result.state != s.live[ref].result.state
       <==> Flips(s, step, ref)
  {
    hide Fields, S.Names, Sound;
    match step
    case Create(_, _) =>
    case Delete(_) =>
    case Edit(copy, spec) => if copy in s.past { SwapIsBasedOnStored(s, copy, s.past[copy].(spec := spec)); }
    case Start(copy, env) => if copy in s.past { SwapIsBasedOnStored(s, copy, S.Started(s.past[copy], env)); }
    case Verdict(copy, report, value, threshold, now) =>
      if copy in s.past { SwapIsBasedOnStored(s, copy, WithVerdict(s.past[copy], report, value, threshold, now)); }
  }

  /** The experiment stored at the key in t is the one stored there in s. */
  predicate SameLife(s: Store, t: Store, ref: Ref) {
    && ref in s.live && ref in s.births && ref in t.live && ref in t.births && s.births[ref] == t.births[ref]
  }

  /** As long as the experiment lives, its state is the one it has in s. */
  predicate Permanent(s: Store, more: seq<Step>, ref: Ref) {
    more == [] ||
    (Permanent(s, more[..|more| - 1], ref) &&
     (SameLife(s, Exec(s, more), ref) ==> Exec(s, more).live[ref].result.state == s.live[ref].result.state))
  }

  predicate NeverFlipped(s: Store, more: seq<Step>, ref: Ref) {
    more == [] ||
    (NeverFlipped(s, more[..|more| - 1], ref) &&
     !(SameLife(s, Exec(s, more[..|more| - 1]), ref) && Flips(Exec(s, more[..|more| - 1]), more[|more| - 1], ref)))
  }

  lemma LifeGoesOn(s: Store, t: Store, step: Step, ref: Ref)
    requires Inv(s) && Inv(t) && ref in s.live && s.next <= t.next
    ensures SameLife(s, Apply(t, step), ref) <==> SameLife(s, t, ref) && ref in Apply(t, step).live
  {
    hide Apply;
    if ref in t.live {
      StepNeverLowers(t, step, ref);
    } else {
      StepOnAbsent(t, step, ref);
    }
  }

  lemma {:induction false} StillSame(s: Store, more: seq<Step>, ref: Ref)
    requires Permanent(s, more, ref) && SameLife(s, Exec(s, more), ref)
    ensures Exec(s, more).live[ref].result.state == s.live[ref].result.state
  {
    if more == [] {
      assert Exec(s, more) == s;
    }
  }

  /** A verdict stays as long as the experiment lives, if and only if no verdict of the other outcome is given on it. */
  lemma {:induction false} PermanentExactly(s: Store, more: seq<Step>, ref: Ref)
    requires Inv(s) && ref in s.live && Concluded(s.live[ref])
    ensures Permanent(s, more, ref) <==> NeverFlipped(s, more, ref)
  {
    if more != [] {
      hide Apply, Inv, Flips, SameLife, Concluded;
      var init, last := more[..|more| - 1], more[|more| - 1];
      var t := Exec(s, init);
      PermanentExactly(s, init, ref);
      RunNeverLowers(s, init, ref);
      LifeGoesOn(s, t, last, ref);
      if Permanent(s, init, ref) && SameLife(s, t, ref) {
        StillSame(s, init, ref);
        FinalByState(s, t, ref);
        FlipExactly(t, last, ref);
      }
    }
  }

  lemma FinalByState(s: Store, t: Store, ref: Ref)
    requires SameLife(s, t, ref) && Concluded(s.live[ref]) && s.live[ref].result.state == t.live[ref].result.state
    ensures Concluded(t.live[ref])
  {
  }

  lemma {:induction false} VersionsGrow(s: Store, more: seq<Step>, ref: Ref)
    requires Inv(s) && ref in s.live
    ensures ref in Exec(s, more).live ==> s.live[ref].version <= Exec(s, more).live[ref].version
  {
    if more != [] {
      VersionsGrow(s, more[..|more| - 1], ref);
      RunNeverLowers(s, more[..|more| - 1], ref);
      StepVersions(Exec(s, more[..|more| - 1]), more[|more| - 1], ref);
    }
  }

  lemma StepVersions(t: Store, step: Step, ref: Ref)
    ensures ref in Apply(t, step).live ==>
      (ref in t.live && Apply(t, step).live[ref].version == t.live[ref].version)
      || Apply(t, step).live[ref].version == t.next
  {
    hide Fields, S.Names;
  }

  /** So a verdict is permanent if no other one is given by a writer that read the experiment after it. */
  lemma {:induction false} LateReadersOnly(s: Store, more: seq<Step>, ref: Ref)
    requires Inv(s) && ref in s.live && Concluded(s.live[ref])
    requires forall i :: 0 <= i < |more| && more[i].Verdict? ==> more[i].copy < s.live[ref].version
    ensures Permanent(s, more, ref)
  {
    NeverFlippedByOthers(s, more, ref);
    PermanentExactly(s, more, ref);
  }

  lemma {:induction false} NeverFlippedByOthers(s: Store, more: seq<Step>, ref: Ref)
    requires Inv(s) && ref in s.live
    requires forall i :: 0 <= i < |more| && more[i].Verdict? ==> more[i].copy < s.live[ref].version
    ensures NeverFlipped(s, more, ref)
  {
    if more != [] {
      hide Apply, Inv;
      NeverFlippedByOthers(s, more[..|more| - 1], ref);
      VersionsGrow(s, more[..|more| - 1], ref);
      assert more[|more| - 1].Verdict? ==> more[|more| - 1].copy < s.live[ref].version;
    }
  }

  // ----- a run in which a verdict flips -----

  const FAILING := M.Crossed(Fin(49.0), Fin(50.0), "<")
  const DEFAULT_ENV := S.Env(0, (r: Ref) => (i: nat) => "", (r: Ref) => None)
  const CREATED := [Create(M.GUARDED.ref, M.GUARDED.spec)]
  const STARTED := CREATED + [Start(0, DEFAULT_ENV)]
  const FAILED := STARTED + [Verdict(1, Some(FAILING), "49", "50", 1)]

  lemma {:induction false} ExecNext(s: Store, steps: seq<Step>, step: Step)
    ensures Exec(s, steps + [step]) == Apply(Exec(s, steps), step)
  {
    assert (steps + [step])[..|steps|] == steps;
  }

  lemma CreatedRun()
    ensures Exec(EMPTY, CREATED) == Put(EMPTY, Exp(M.GUARDED.ref, 0, "", M.GUARDED.spec, Outcome(Pending, map[], None, None)))
                                      .(births := map[M.GUARDED.ref := 0])
  {
    ExecNext(EMPTY, [], CREATED[0]);
    assert [] + [CREATED[0]] == CREATED;
  }

  lemma StartedRun()
    ensures var s := Exec(EMPTY, STARTED);
            && s.next == 2 && M.GUARDED.ref in s.live && s.live[M.GUARDED.ref].version == 1
            && s.live[M.GUARDED.ref].ref == M.GUARDED.ref
            && s.live[M.GUARDED.ref].result.state == Started && 1 in s.past && s.past[1] == s.live[M.GUARDED.ref]
  {
    hide CREATED;
    CreatedRun();
    ExecNext(EMPTY, CREATED, Start(0, DEFAULT_ENV));
    var e := Exp(M.GUARDED.ref, 0, "", M.GUARDED.spec, Outcome(Pending, map[], None, None));
    OneName(e, DEFAULT_ENV);
  }

  lemma OneName(e: Exp, env: S.Env)
    requires |Conditions(e)| == 1
    ensures S.Names(e, env).duplicate == None
  {
    var conditions, nameAt := Conditions(e), env.nameAt(e.ref);
    S.NamingSucceedsExactly(conditions, 0, nameAt);
  }

  lemma FailedRun()
    ensures var s := Exec(EMPTY, FAILED);
            && s.next == 3 && M.GUARDED.ref in s.live && s.live[M.GUARDED.ref].version == 2
            && s.live[M.GUARDED.ref].ref == M.GUARDED.ref && s.live[M.GUARDED.ref].result.state == Failed
            && s.live[M.GUARDED.ref].result.report != map[] && 2 in s.past && s.past[2] == s.live[M.GUARDED.ref]
  {
    hide STARTED, Fields;
    StartedRun();
    ExecNext(EMPTY, STARTED, Verdict(1, Some(FAILING), "49", "50", 1));
  }

  /**
   A final state is not the last word: created, started, failed by one monitor, and then reported as a
   success by another, which keeps the failure report.
   */
  lemma VerdictMayFlip()
    ensures var s := Exec(EMPTY, FAILED); M.GUARDED.ref in s.live && s.live[M.GUARDED.ref].result.state == Failed
    ensures var t := Exec(EMPTY, FAILED + [Verdict(2, None, "", "", 2)]);
            && M.GUARDED.ref in t.live && t.live[M.GUARDED.ref].result.state == Succeeded
            && t.live[M.GUARDED.ref].result.report != map[]
  {
    hide FAILED;
    FailedRun();
    ExecNext(EMPTY, FAILED, Verdict(2, None, "", "", 2));
  }
}
