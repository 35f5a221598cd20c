/**
 The API values every other module shares: experiments, their specs and their
 results, in two forms. `Exp` is the value of an experiment; `Experiment` is the
 mutable object a snapshot points to, which syncers edit in place.
 */
module Types {
  datatype Option<+T> = None | Some(value: T)
  datatype Result<+T, +E> = Ok(value: T) | Err(error: E)

  type Time = int
  type Duration = int

  /** The key of a resource: namespace and name. */
  datatype Ref = Ref(ns: string, name: string)

  datatype State = Pending | Started | Failed | Succeeded

  /** A float64 with its order, rounding aside. */
  datatype Float = NaN | NegInf | Fin(r: real) | PosInf

  datatype Query = NoQuery | CustomQuery(text: string) | SuccessRate(service: Option<Ref>, interval: Option<Duration>)
  datatype PromTrigger = PromTrigger(query: Query, threshold: Float, operator: string)
  datatype Trigger = Unset | Webhook(url: string) | Prometheus(prom: PromTrigger)

  /** `trigger` is a pointer in the API, so it can be missing. */
  datatype Condition = Condition(name: string, trigger: Option<Trigger>)

  datatype Fault = EmptyFault | Abort(status: int, percentage: Float) | Delay(duration: Duration, percentage: Float)

  /** The references and the fault are pointers in the API; a nil list and an empty one behave alike. */
  datatype InjectedFault =
    InjectedFault(origins: seq<Option<Ref>>, destinations: seq<Option<Ref>>, fault: Option<Fault>)

  datatype Spec =
    Spec(faults: seq<InjectedFault>, conditions: seq<Condition>, duration: Option<Duration>, targetMesh: Option<Ref>)

  datatype Outcome =
    Outcome(state: State, report: map<string, string>, timeStarted: Option<Time>, timeFinished: Option<Time>)

  datatype Exp = Exp(ref: Ref, version: nat, status: string, spec: Option<Spec>, result: Outcome)

  /** The two final states. */
  predicate Concluded(e: Exp) {
    e.result.state == Failed || e.result.state == Succeeded
  }

  /** A nil spec counts as one without failure conditions and without a duration. */
  function Conditions(e: Exp): seq<Condition> {
    match e.spec case None => [] case Some(s) => s.conditions
  }

  function DurationOf(e: Exp): Option<Duration> {
    match e.spec case None => None case Some(s) => s.duration
  }

  /** The experiment object of the API. Its name and namespace are fixed; syncers assign the rest. */
  class Experiment {
    const ref: Ref
    var version: nat
    var status: string
    var spec: Option<Spec>
    var result: Outcome

    constructor (e: Exp)
      ensures View() == e
    {
      ref, version, status, spec, result := e.ref, e.version, e.status, e.spec, e.result;
    }

    function View(): Exp
      reads this
    {
      Exp(ref, version, status, spec, result)
    }

    /** An edit through the pointer, by any holder of it. */
    method Assign(e: Exp)
      requires e.ref == ref
      modifies this
      ensures View() == e
    {
      version, status, spec, result := e.version, e.status, e.spec, e.result;
    }
  }

  /** The values behind a list of experiment pointers. */
  function Views(list: seq<Experiment>): (r: seq<Exp>)
    reads list
    ensures |r| == |list|
    ensures forall i :: 0 <= i < |list| ==> r[i] == list[i].View()
  {
    seq(|list|, i requires 0 <= i < |list| reads list => list[i].View())
  }

  lemma ViewsAppend(list: seq<Experiment>, e: Experiment)
    ensures Views(list + [e]) == Views(list) + [e.View()]
  {
  }

  ghost predicate Distinct<T>(xs: seq<T>) {
    forall i, j :: 0 <= i < j < |xs| ==> xs[i] != xs[j]
  }

  /** The emitter's promise: clones throughout, so no object occurs twice within or across snapshots. */
  ghost predicate AllClones(snaps: seq<seq<Experiment>>) {
    && (forall k :: 0 <= k < |snaps| ==> Distinct(snaps[k]))
    && (forall j, k, e :: 0 <= j < k < |snaps| && e in snaps[j] ==> e !in snaps[k])
  }

  ghost function RefSet(list: seq<Exp>): set<Ref> {
    set e | e in list :: e.ref
  }

  /** What the API server guarantees of one list: keys are unique and namespaced. */
  ghost predicate WellFormed(list: seq<Exp>) {
    && (forall i, j :: 0 <= i < j < |list| ==> list[i].ref != list[j].ref)
    && (forall e :: e in list ==> e.ref.ns != "")
  }

  /** `utils.ExperimentsWithState` and `startedExperiments`: keep the experiments in one state, in order. */
  function WithState(list: seq<Exp>, state: State): (r: seq<Exp>)
    ensures forall e :: e in r <==> e in list && e.result.state == state
  {
    if list == [] then []
    else
      var init, last := list[..|list| - 1], list[|list| - 1];
      assert list == init + [last];
      WithState(init, state) + if last.result.state == state then [last] else []
  }

  lemma {:induction false} WithStateWellFormed(list: seq<Exp>, state: State)
    requires WellFormed(list)
    ensures WellFormed(WithState(list, state))
  {
    if list != [] {
      var init, last := list[..|list| - 1], list[|list| - 1];
      WithStateWellFormed(init, state);
      forall e | e in WithState(init, state) ensures e.ref != last.ref {
        var k :| 0 <= k < |init| && init[k] == e;
        assert list[k] == e;
      }
    }
  }

  lemma {:induction false} WithStateNext(xs: seq<Exp>, last: Exp, state: State)
    ensures WithState(xs + [last], state) == WithState(xs, state) + if last.result.state == state then [last] else []
  {
    assert (xs + [last])[..|xs|] == xs;
  }

  /** Two lists after each other are filtered one after the other, in their order. */
  lemma {:induction false} WithStateInOrder(xs: seq<Exp>, ys: seq<Exp>, state: State)
    ensures WithState(xs + ys, state) == WithState(xs, state) + WithState(ys, state)
  {
    hide WithState;
    if ys == [] {
      assert xs + ys == xs;
      NothingWithState(state);
    } else {
      var init, last := ys[..|ys| - 1], ys[|ys| - 1];
      assert xs + ys == (xs + init) + [last] && ys == init + [last];
      WithStateInOrder(xs, init, state);
      WithStateNext(xs + init, last, state);
      WithStateNext(init, last, state);
    }
  }

  lemma {:induction false} NothingWithState(state: State)
    ensures WithState([], state) == []
  {
  }

  /** The pointers whose experiments are in one state, in order. */
  function Selected(list: seq<Experiment>, state: State): (r: seq<Experiment>)
    reads list
    ensures forall i :: 0 <= i < |r| ==> r[i] in list && r[i].result.state == state
    ensures forall i :: 0 <= i < |list| && list[i].result.state == state ==> list[i] in r
  {
    if list == [] then []
    else
      var init, last := list[..|list| - 1], list[|list| - 1];
      assert list == init + [last];
      Selected(init, state) + if last.result.state == state then [last] else []
  }

  lemma {:induction false} SelectedViews(list: seq<Experiment>, state: State)
    ensures Views(Selected(list, state)) == WithState(Views(list), state)
  {
    if list != [] {
      var init, last := list[..|list| - 1], list[|list| - 1];
      SelectedViews(init, state);
      assert Views(list)[..|list| - 1] == Views(init);
      ViewsAppend(Selected(init, state), last);
    }
  }

  lemma {:induction false} SelectedDistinct(list: seq<Experiment>, state: State)
    requires Distinct(list)
    ensures Distinct(Selected(list, state))
  {
    if list != [] {
      var init, last := list[..|list| - 1], list[|list| - 1];
      SelectedDistinct(init, state);
      assert last !in init;
    }
  }

  /** The callback loop of `Each` that collects the pointers in one state. */
  method FilterByState(list: seq<Experiment>, state: State) returns (kept: seq<Experiment>)
    ensures kept == Selected(list, state)
  {
    kept := [];
    for k := 0 to |list|
      invariant kept == Selected(list[..k], state)
    {
      assert list[..k + 1][..k] == list[..k];
      if list[k].result.state == state {
        kept := kept + [list[k]];
      }
    }
    assert list[..|list|] == list;
  }

  /** Experiments with distinct keys are as many as their keys. */
  lemma {:induction false} RefSetSize(list: seq<Exp>)
    requires WellFormed(list)
    ensures |RefSet(list)| == |list|
  {
    if list == [] {
      assert RefSet(list) == {};
    } else {
      hide WellFormed, RefSet;
      var init, last := list[..|list| - 1], list[|list| - 1];
      LastKeyIsNew(list);
      RefSetSize(init);
      RefSetAppend(init, last);
      assert list == init + [last];
    }
  }

  lemma LastKeyIsNew(list: seq<Exp>)
    requires WellFormed(list) && list != []
    ensures WellFormed(list[..|list| - 1]) && list[|list| - 1].ref !in RefSet(list[..|list| - 1])
  {
    var init := list[..|list| - 1];
    forall e | e in init ensures e.ref != list[|list| - 1].ref && e in list {
      var k :| 0 <= k < |init| && init[k] == e;
      assert list[k] == e;
    }
  }

  lemma RefSetAppend(init: seq<Exp>, last: Exp)
    ensures RefSet(init + [last]) == RefSet(init) + {last.ref}
  {
  }
}
