/**
 The experiment starter: it promotes the pending experiments of a snapshot in
 place, names their failure conditions, and writes them. The clock and the
 outcome of each write are parameters.
 */
module Starter {
  import opened Types

  /** The instant of a sync, the names the clock generates, and the error of each write. */
  datatype Env = Env(now: Time, nameAt: Ref -> nat -> string, rejected: Ref -> Option<string>)

  /** Conditions after the naming loop, and the duplicate that stopped it, if any. */
  datatype Naming = Naming(conditions: seq<Condition>, duplicate: Option<string>)

  function NameOf(c: Condition, generated: string): string {
    if c.name == "" then generated else c.name
  }

  /** The naming loop from index i on; the conditions before i are already named. */
  function NameFrom(conditions: seq<Condition>, i: nat, nameAt: nat -> string): (r: Naming)
    requires i <= |conditions|
    ensures |r.conditions| == |conditions|
    ensures forall k :: 0 <= k < |conditions| ==> r.conditions[k].trigger == conditions[k].trigger
    ensures forall k :: 0 <= k < |conditions| && conditions[k].name != "" ==> r.conditions[k].name == conditions[k].name
    ensures forall k :: 0 <= k < i ==> r.conditions[k] == conditions[k]
    decreases |conditions| - i
  {
    if i == |conditions| then Naming(conditions, None)
    else
      var name := NameOf(conditions[i], nameAt(i));
      var named := conditions[i := conditions[i].(name := name)];
      if exists k :: 0 <= k < i && conditions[k].name == name then Naming(named, Some(name))
      else NameFrom(named, i + 1, nameAt)
  }

  ghost predicate DistinctNames(conditions: seq<Condition>) {
    forall i, j :: 0 <= i < j < |conditions| ==> conditions[i].name != conditions[j].name
  }

  /** The names the conditions are going to have: their own, or else a generated one. */
  ghost predicate GivenNamesDistinct(conditions: seq<Condition>, nameAt: nat -> string) {
    forall i: nat, j: nat :: i < j < |conditions| ==>
      NameOf(conditions[i], nameAt(i)) != NameOf(conditions[j], nameAt(j))
  }

  /** The conditions before index i already have their names, and these are distinct. */
  ghost predicate NamedBefore(conditions: seq<Condition>, i: nat, nameAt: nat -> string)
    requires i <= |conditions|
  {
    && (forall k: nat :: k < i ==> conditions[k].name == NameOf(conditions[k], nameAt(k)))
    && DistinctNames(conditions[..i])
  }

  /** The naming loop succeeds if and only if the names it is given or generates are pairwise distinct. */
  lemma {:induction false} NamingSucceedsExactly(conditions: seq<Condition>, i: nat, nameAt: nat -> string)
    requires i <= |conditions| && NamedBefore(conditions, i, nameAt)
    ensures NameFrom(conditions, i, nameAt).duplicate == None <==> GivenNamesDistinct(conditions, nameAt)
    decreases |conditions| - i
  {
    if i == |conditions| {
      assert conditions[..i] == conditions;
      forall a: nat, b: nat | a < b < i ensures NameOf(conditions[a], nameAt(a)) != NameOf(conditions[b], nameAt(b)) {
      }
    } else {
      var name := NameOf(conditions[i], nameAt(i));
      var named := conditions[i := conditions[i].(name := name)];
      if k :| 0 <= k < i && conditions[k].name == name {
        assert NameOf(conditions[k], nameAt(k)) == NameOf(conditions[i], nameAt(i));
      } else {
        hide GivenNamesDistinct, NamedBefore;
        NextNamed(conditions, i, nameAt);
        NamingSucceedsExactly(named, i + 1, nameAt);
        NamingKeepsGivenNames(conditions, i, nameAt);
      }
    }
  }

  lemma NamingKeepsGivenNames(conditions: seq<Condition>, i: nat, nameAt: nat -> string)
    requires i < |conditions|
    ensures GivenNamesDistinct(conditions[i := conditions[i].(name := NameOf(conditions[i], nameAt(i)))], nameAt)
       <==> GivenNamesDistinct(conditions, nameAt)
  {
    var named := conditions[i := conditions[i].(name := NameOf(conditions[i], nameAt(i)))];
    assert forall k: nat :: k < |conditions| ==> NameOf(named[k], nameAt(k)) == NameOf(conditions[k], nameAt(k));
  }

  /** Where the loop succeeds, every condition has the name it was given or generated, and they are distinct. */
  lemma {:induction false} SuccessNamesAll(conditions: seq<Condition>, i: nat, nameAt: nat -> string)
    requires i <= |conditions| && NamedBefore(conditions, i, nameAt)
    requires NameFrom(conditions, i, nameAt).duplicate == None
    ensures DistinctNames(NameFrom(conditions, i, nameAt).conditions)
    ensures forall k: nat :: k < |conditions| ==>
      NameFrom(conditions, i, nameAt).conditions[k].name == NameOf(conditions[k], nameAt(k))
    decreases |conditions| - i
  {
    if i == |conditions| {
      assert conditions[..i] == conditions;
    } else {
      var name := NameOf(conditions[i], nameAt(i));
      var named := conditions[i := conditions[i].(name := name)];
      assert named[..i + 1] == conditions[..i] + [named[i]];
      SuccessNamesAll(named, i + 1, nameAt);
    }
  }

  /** Condition j is the first whose name an earlier one has, names being given or else generated. */
  ghost predicate FirstRepeat(conditions: seq<Condition>, nameAt: nat -> string, j: nat) {
    && j < |conditions|
    && (exists k: nat :: k < j && NameOf(conditions[k], nameAt(k)) == NameOf(conditions[j], nameAt(j)))
    && forall a: nat, b: nat :: a < b < j ==> NameOf(conditions[a], nameAt(a)) != NameOf(conditions[b], nameAt(b))
  }

  lemma NamedRepeats(conditions: seq<Condition>, i: nat, nameAt: nat -> string, j: nat)
    requires i < |conditions|
    ensures var named := conditions[i := conditions[i].(name := NameOf(conditions[i], nameAt(i)))];
      FirstRepeat(named, nameAt, j) <==> FirstRepeat(conditions, nameAt, j)
  {
    var named := conditions[i := conditions[i].(name := NameOf(conditions[i], nameAt(i)))];
    assert forall k: nat :: k < |conditions| ==> NameOf(named[k], nameAt(k)) == NameOf(conditions[k], nameAt(k));
  }

  lemma RepeatsHere(conditions: seq<Condition>, i: nat, nameAt: nat -> string, k: nat)
    requires i < |conditions| && NamedBefore(conditions, i, nameAt)
    requires k < i && conditions[k].name == NameOf(conditions[i], nameAt(i))
    ensures FirstRepeat(conditions, nameAt, i)
  {
    assert NameOf(conditions[k], nameAt(k)) == NameOf(conditions[i], nameAt(i));
    forall a: nat, b: nat | a < b < i ensures NameOf(conditions[a], nameAt(a)) != NameOf(conditions[b], nameAt(b)) {
      assert conditions[..i][a].name != conditions[..i][b].name;
    }
  }

  lemma NextNamed(conditions: seq<Condition>, i: nat, nameAt: nat -> string)
    requires i < |conditions| && NamedBefore(conditions, i, nameAt)
    requires !exists k :: 0 <= k < i && conditions[k].name == NameOf(conditions[i], nameAt(i))
    ensures NamedBefore(conditions[i := conditions[i].(name := NameOf(conditions[i], nameAt(i)))], i + 1, nameAt)
  {
    var named := conditions[i := conditions[i].(name := NameOf(conditions[i], nameAt(i)))];
    assert named[..i + 1] == conditions[..i] + [named[i]];
  }

  /**
   Where the loop stops early, it reports the name of the first condition that repeats one. The conditions up
   to there have their names, those after it are as they were.
   */
  lemma {:induction false} NamingStopsExactly(conditions: seq<Condition>, i: nat, nameAt: nat -> string) returns (j: nat)
    requires i <= |conditions| && NamedBefore(conditions, i, nameAt)
    requires NameFrom(conditions, i, nameAt).duplicate.Some?
    ensures i <= j < |conditions| && FirstRepeat(conditions, nameAt, j)
    ensures NameFrom(conditions, i, nameAt).duplicate == Some(NameOf(conditions[j], nameAt(j)))
    ensures forall k: nat :: i <= k <= j ==> NameFrom(conditions, i, nameAt).conditions[k].name == NameOf(conditions[k], nameAt(k))
    ensures forall k: nat :: j < k < |conditions| ==> NameFrom(conditions, i, nameAt).conditions[k] == conditions[k]
    decreases |conditions| - i
  {
    hide FirstRepeat, NamedBefore;
    var name := NameOf(conditions[i], nameAt(i));
    var named := conditions[i := conditions[i].(name := name)];
    if k :| 0 <= k < i && conditions[k].name == name {
      j := i;
      RepeatsHere(conditions, i, nameAt, k);
    } else {
      NextNamed(conditions, i, nameAt);
      j := NamingStopsExactly(named, i + 1, nameAt);
      assert forall k: nat :: i < k < |conditions| ==> named[k] == conditions[k];
      assert NameFrom(conditions, i, nameAt) == NameFrom(named, i + 1, nameAt);
      assert NameFrom(named, i + 1, nameAt).conditions[i] == named[i];
      NamedRepeats(conditions, i, nameAt, j);
    }
  }

  function Names(e: Exp, env: Env): Naming {
    NameFrom(Conditions(e), 0, env.nameAt(e.ref))
  }

  /** What `writeAsStarted` leaves in memory, whether or not it fails afterwards. */
  function Started(e: Exp, env: Env): Exp {
    e.(result := e.result.(timeStarted := Some(env.now), state := State.Started),
       spec := match e.spec case None => None case Some(s) => Some(s.(conditions := Names(e, env).conditions)))
  }

  /** The snapshot after a starter sync: pending experiments promoted, the others untouched. */
  function Promote(list: seq<Exp>, env: Env): (r: seq<Exp>)
    ensures |r| == |list|
    ensures forall i :: 0 <= i < |list| ==>
      r[i] == if list[i].result.state == Pending then Started(list[i], env) else list[i]
  {
    seq(|list|, i requires 0 <= i < |list| =>
      if list[i].result.state == Pending then Started(list[i], env) else list[i])
  }

  /** The spec of w is that of e but for the names of the conditions. */
  predicate SameTerms(w: Exp, e: Exp) {
    match (w.spec, e.spec)
    case (None, None) => true
    case (Some(a), Some(b)) =>
      && a.faults == b.faults && a.targetMesh == b.targetMesh && a.duration == b.duration
      && |a.conditions| == |b.conditions|
      && forall k :: 0 <= k < |a.conditions| ==> a.conditions[k].trigger == b.conditions[k].trigger
    case _ => false
  }

  /** The promotion sets the state and the start time, and names conditions that have no name; all else stays. */
  predicate StartedFrom(w: Exp, e: Exp, env: Env) {
    && w.ref == e.ref && w.version == e.version && w.status == e.status
    && w.result == Outcome(State.Started, e.result.report, Some(env.now), e.result.timeFinished)
    && SameTerms(w, e)
    && (e.spec.Some? ==> forall k :: 0 <= k < |e.spec.value.conditions| && e.spec.value.conditions[k].name != "" ==>
         w.spec.value.conditions[k] == e.spec.value.conditions[k])
  }

  lemma StartedFrame(e: Exp, env: Env)
    ensures StartedFrom(Started(e, env), e, env)
  {
  }

  /** One sync's edits, field by field: pending experiments are started from what was delivered, others are untouched. */
  lemma PromotionFrame(list: seq<Exp>, env: Env, i: nat)
    requires i < |list|
    ensures |Promote(list, env)| == |list|
    ensures if list[i].result.state == Pending then StartedFrom(Promote(list, env)[i], list[i], env)
            else Promote(list, env)[i] == list[i]
  {
    hide Started, StartedFrom;
    StartedFrame(list[i], env);
  }

  /** `validateOrGenerateFailureConditionNames`: assigns names in place, up to the first duplicate. */
  method ValidateOrGenerateNames(e: Experiment, nameAt: nat -> string) returns (duplicate: Option<string>)
    modifies e`spec
    ensures e.View() == old(e.View()).(spec := e.spec)
    ensures old(e.spec) == None ==> e.spec == None && duplicate == None
    ensures old(e.spec).Some? ==>
      var naming := NameFrom(old(e.spec).value.conditions, 0, nameAt);
      e.spec == Some(old(e.spec).value.(conditions := naming.conditions)) && duplicate == naming.duplicate
  {
    if e.spec == None {
      return None;
    }
    var nameMap: map<string, bool> := map[];
    var n := |e.spec.value.conditions|;
    var i := 0;
    while i < n
      invariant i <= n && e.spec.Some? && |e.spec.value.conditions| == n
      invariant e.spec == Some(old(e.spec).value.(conditions := e.spec.value.conditions))
      invariant forall s :: s in nameMap <==> exists k :: 0 <= k < i && e.spec.value.conditions[k].name == s
      invariant NameFrom(e.spec.value.conditions, i, nameAt) == NameFrom(old(e.spec).value.conditions, 0, nameAt)
    {
      var conditions := e.spec.value.conditions;
      var name := NameOf(conditions[i], nameAt(i));
      e.spec := Some(e.spec.value.(conditions := conditions[i := conditions[i].(name := name)]));
      if name in nameMap {
        return Some(name);
      }
      nameMap := nameMap[name := true];
      i := i + 1;
    }
    return None;
  }

  /** The error of starting one experiment: a duplicate name first, else the rejected write. */
  function StartError(e: Exp, env: Env): Option<string> {
    if Names(e, env).duplicate.Some? then Names(e, env).duplicate else env.rejected(e.ref)
  }

  method WriteAsStarted(e: Experiment, env: Env) returns (error: Option<string>, written: Option<Exp>)
    modifies e
    ensures e.View() == Started(old(e.View()), env)
    ensures error == StartError(old(e.View()), env)
    ensures written == if Names(old(e.View()), env).duplicate == None then Some(e.View()) else None
  {
    e.result := e.result.(timeStarted := Some(env.now));
    e.result := e.result.(state := State.Started);
    error := ValidateOrGenerateNames(e, env.nameAt(e.ref));
    written := None;
    if error == None {
      written := Some(e.View());
      error := env.rejected(e.ref);
    }
  }

  /** The errors of starting a list of experiments, in order. */
  function StartErrors(pending: seq<Exp>, env: Env): seq<string> {
    if pending == [] then []
    else
      var last := pending[|pending| - 1];
      StartErrors(pending[..|pending| - 1], env)
      + match StartError(last, env) case None => [] case Some(e) => [e]
  }

  /** The values that reach the store: only those whose names passed validation. */
  function Writes(pending: seq<Exp>, env: Env): seq<Exp> {
    if pending == [] then []
    else
      var last := pending[|pending| - 1];
      Writes(pending[..|pending| - 1], env)
      + if Names(last, env).duplicate == None then [Started(last, env)] else []
  }

  /** Every write promotes: its key is that of a pending experiment and its names are distinct. */
  lemma {:induction false} WritesAreValid(pending: seq<Exp>, env: Env)
    ensures forall w :: w in Writes(pending, env) ==>
      w.result.state == State.Started && DistinctNames(Conditions(w)) && w.ref in RefSet(pending)
  {
    if pending != [] {
      var last := pending[|pending| - 1];
      WritesAreValid(pending[..|pending| - 1], env);
      if Names(last, env).duplicate == None {
        SuccessNamesAll(Conditions(last), 0, env.nameAt(last.ref));
      }
    }
  }

  /** What one experiment contributes: it is written if its names are distinct, and the error is theirs or the write's. */
  lemma {:induction false} OneStarts(e: Exp, env: Env)
    ensures GivenNamesDistinct(Conditions(e), env.nameAt(e.ref)) ==>
      && |Writes([e], env)| == 1 && StartedFrom(Writes([e], env)[0], e, env)
      && StartErrors([e], env) == (match env.rejected(e.ref) case None => [] case Some(error) => [error])
    ensures !GivenNamesDistinct(Conditions(e), env.nameAt(e.ref)) ==>
      && Writes([e], env) == []
      && exists j: nat :: FirstRepeat(Conditions(e), env.nameAt(e.ref), j)
                     && StartErrors([e], env) == [NameOf(Conditions(e)[j], env.nameAt(e.ref)(j))]
  {
    hide StartedFrom, Started;
    assert [e][..0] == [];
    NothingStarted(env);
    StartedFrame(e, env);
    NamingSucceedsExactly(Conditions(e), 0, env.nameAt(e.ref));
    if Names(e, env).duplicate.Some? {
      var j := NamingStopsExactly(Conditions(e), 0, env.nameAt(e.ref));
    }
  }

  /** And a list contributes what its experiments do, in order: none is skipped, an error stops nothing. */
  lemma {:induction false} StartsInOrder(pending: seq<Exp>, more: seq<Exp>, env: Env)
    ensures Writes(pending + more, env) == Writes(pending, env) + Writes(more, env)
    ensures StartErrors(pending + more, env) == StartErrors(pending, env) + StartErrors(more, env)
  {
    if more == [] {
      assert pending + more == pending;
    } else {
      assert (pending + more)[..|pending + more| - 1] == pending + more[..|more| - 1];
      StartsInOrder(pending, more[..|more| - 1], env);
    }
  }

  lemma {:induction false} NothingStarted(env: Env)
    ensures StartErrors([], env) == [] && Writes([], env) == []
  {
  }

  lemma {:induction false} StartsNext(was: seq<Exp>, k: nat, env: Env)
    requires k < |was|
    ensures StartErrors(was[..k + 1], env)
         == StartErrors(was[..k], env) + match StartError(was[k], env) case None => [] case Some(e) => [e]
    ensures Writes(was[..k + 1], env)
         == Writes(was[..k], env) + if Names(was[k], env).duplicate == None then [Started(was[k], env)] else []
  {
    assert was[..k + 1][..k] == was[..k];
  }

  /** The `Each` loop over the pending experiments: every one is edited, errors do not stop it. */
  method StartAll(pending: seq<Experiment>, env: Env) returns (errs: seq<string>, written: seq<Exp>)
    requires Distinct(pending)
    modifies pending
    ensures forall j :: 0 <= j < |pending| ==> pending[j].View() == Started(old(pending[j].View()), env)
    ensures errs == StartErrors(old(Views(pending)), env)
    ensures written == Writes(old(Views(pending)), env)
  {
    hide Started, Names, StartError, StartErrors, Writes;
    errs, written := [], [];
    ghost var was := Views(pending);
    NothingStarted(env);
    for k := 0 to |pending|
      invariant forall j :: k <= j < |pending| ==> pending[j].View() == was[j]
      invariant forall j :: 0 <= j < k ==> pending[j].View() == Started(was[j], env)
      invariant errs == StartErrors(was[..k], env)
      invariant written == Writes(was[..k], env)
    {
      StartsNext(was, k, env);
      var error, value := WriteAsStarted(pending[k], env);
      if error.Some? {
        errs := errs + [error.value];
      }
      if value.Some? {
        written := written + [value.value];
      }
    }
    assert was[..|pending|] == was;
  }

  /** One starter sync edits every pending experiment of the shared snapshot, and nothing else. */
  method Sync(snap: seq<Experiment>, env: Env) returns (errs: seq<string>, written: seq<Exp>)
    requires Distinct(snap)
    modifies snap
    ensures Views(snap) == Promote(old(Views(snap)), env)
    ensures errs == StartErrors(WithState(old(Views(snap)), Pending), env)
    ensures written == Writes(WithState(old(Views(snap)), Pending), env)
  {
    hide Started, StartErrors, Writes, Selected, WithState;
    var pending := FilterByState(snap, Pending);
    SelectedDistinct(snap, Pending);
    SelectedViews(snap, Pending);
    errs, written := StartAll(pending, env);
    forall i | 0 <= i < |snap|
      ensures snap[i].View() == Promote(old(Views(snap)), env)[i]
    {
      if old(snap[i].result.state) == Pending {
        var j :| 0 <= j < |pending| && pending[j] == snap[i];
      } else {
        assert snap[i] !in pending;
      }
    }
  }
}
