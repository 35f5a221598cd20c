/**
 The simple emitter on the heap. It keeps no cache: each list it receives replaces
 the current snapshot, pointer by pointer.
 */
module SimpleEmitterObjects {
  import opened Types
  import opened Emission
  import opened Emitters
  import opened EmitterObjects

  /** An entry of the untyped list: an experiment object, or the value of another resource. */
  datatype Untyped = ExperimentObject(e: Experiment) | Other(res: Resource)

  function ValueOf(u: Untyped): Resource
    reads if u.ExperimentObject? then {u.e} else {}
  {
    match u case ExperimentObject(e) => AnExperiment(e.View()) case Other(res) => res
  }

  ghost function ObjectsOf(list: seq<Untyped>): set<Experiment> {
    set u | u in list && u.ExperimentObject? :: u.e
  }

  function ValuesOf(list: seq<Untyped>): seq<Resource>
    reads ObjectsOf(list)
  {
    if list == [] then []
    else
      assert list == list[..|list| - 1] + [list[|list| - 1]];
      ValuesOf(list[..|list| - 1]) + [ValueOf(list[|list| - 1])]
  }

  lemma {:induction false} TypedAppend(list: seq<Resource>, x: Resource)
    ensures x.AnExperiment? ==> Typed(list + [x]) == Typed(list).(experiments := Typed(list).experiments + [x])
    ensures x.AReport? ==> Typed(list + [x]) == Typed(list).(reports := Typed(list).reports + [x])
    ensures x.AnOther? ==> Typed(list + [x]) == Typed(list)
    ensures OfKind(list + [x], None) == if x.AnOther? then OfKind(list, None) + [x] else OfKind(list, None)
  {
    assert (list + [x])[..|list|] == list;
  }

  lemma NothingTyped()
    ensures Typed([]) == EMPTY && OfKind([], None) == []
  {
  }

  lemma DerefAppend(p: Pointers, e: Experiment)
    ensures Deref(p.(experiments := p.experiments + [e]))
         == Deref(p).(experiments := Deref(p).experiments + [AnExperiment(e.View())])
  {
    ResourcesAppend(p.experiments, [e]);
  }

  /** The type switch: experiments and reports in order; a resource of another type is an error. */
  method Partition(list: seq<Untyped>) returns (p: Pointers, refused: seq<Resource>)
    requires forall u :: u in list && u.Other? ==> !u.res.AnExperiment?
    ensures Deref(p) == Typed(ValuesOf(list)) && refused == OfKind(ValuesOf(list), None)
    ensures Members(p.experiments) <= ObjectsOf(list)
  {
    hide OfKind, Typed;
    NothingTyped();
    p, refused := Pointers([], []), [];
    for k := 0 to |list|
      invariant Deref(p) == Typed(ValuesOf(list[..k])) && refused == OfKind(ValuesOf(list[..k]), None)
      invariant forall e :: e in p.experiments ==> ExperimentObject(e) in list
    {
      var u := list[k];
      assert list[..k + 1][..k] == list[..k];
      TypedAppend(ValuesOf(list[..k]), ValueOf(u));
      match u
      case ExperimentObject(e) =>
        DerefAppend(p, e);
        p := p.(experiments := p.experiments + [e]);
      case Other(res) =>
        if res.AReport? {
          p := p.(reports := p.reports + [res]);
        } else {
          refused := refused + [res];
        }
    }
    assert list[..|list|] == list;
  }

  class ApiSimpleEmitter {
    var original: Pointers
    var current: Pointers
    /** What went down the snapshots channel; consumers keep the pointers. */
    var sent: seq<Pointers>
    /** What the loop took up, and the snapshots as they were when sent. */
    ghost var events: seq<Event>
    ghost var log: seq<Sent>

    ghost function Own(): set<Experiment>
      reads this
    {
      Members(original.experiments) + Members(current.experiments)
    }

    /** No consumer holds an object of the emitter, and its two snapshots are those of the loop on values. */
    ghost predicate Valid()
      reads this, Own()
    {
      && Own() !! Given(sent) && SentAreClones(sent)
      && Loop(Deref(original), Deref(current), log) == Run(events)
    }

    constructor ()
      ensures Valid() && sent == [] && events == []
    {
      original, current, sent := Pointers([], []), Pointers([], []), [];
      events, log := [], [];
    }

    method Sync()
      requires Valid()
      modifies this
      ensures Valid() && events == old(events) + [Tick] && current == old(current)
      ensures Hash(old(Deref(original))) == Hash(old(Deref(current))) ==> sent == old(sent)
      ensures Hash(old(Deref(original))) != Hash(old(Deref(current))) ==>
        |sent| > 0 && sent[..|sent| - 1] == old(sent) && Deref(sent[|sent| - 1]) == old(Deref(current))
    {
      hide Hash, Run, Given, SentAreClones, Deref, Members;
      RunAppend(events, Tick);
      if Hash(Deref(original)) == Hash(Deref(current)) {
        events := events + [Tick];
        return;
      }
      var kept, copy := CloneTwice(current, Given(sent) + Own());
      GivenAppend(sent, copy);
      ClonesAppend(sent, copy);
      events, log, original, sent := events + [Tick], log + [Sent(Deref(current), true)], kept, sent + [copy];
    }

    method ForceEmit()
      requires Valid()
      modifies this
      ensures Valid() && events == old(events) + [Force] && original == old(original) && current == old(current)
      ensures |sent| > 0 && sent[..|sent| - 1] == old(sent) && Deref(sent[|sent| - 1]) == old(Deref(current))
    {
      hide Hash, Run, Given, SentAreClones, Deref, Members;
      RunAppend(events, Force);
      var copy := Clone(current, Given(sent) + Own());
      GivenAppend(sent, copy);
      ClonesAppend(sent, copy);
      events, log, sent := events + [Force], log + [Sent(Deref(current), false)], sent + [copy];
    }

    /** A list from the aggregated watch, whose objects no consumer has. */
    method ReceiveUntyped(list: seq<Untyped>) returns (refused: seq<Resource>)
      requires Valid() && ObjectsOf(list) !! Given(sent)
      requires forall u :: u in list && u.Other? ==> !u.res.AnExperiment?
      modifies this
      ensures Valid() && events == old(events) + [Update(Typed(ValuesOf(list)))]
      ensures original == old(original) && sent == old(sent) && refused == OfKind(ValuesOf(list), None)
    {
      hide Hash, Run, Given, SentAreClones, Deref, Members, Typed;
      RunAppend(events, Update(Typed(ValuesOf(list))));
      var p;
      p, refused := Partition(list);
      events, current := events + [Update(Typed(ValuesOf(list)))], p;
    }

    /** Any edit, by a consumer, of an experiment in a snapshot it was sent. */
    method ConsumerEdit(k: nat, i: nat, e: Exp)
      requires Valid() && k < |sent| && i < |sent[k].experiments| && e.ref == sent[k].experiments[i].ref
      modifies sent[k].experiments[i]
      ensures Valid() && Deref(original) == old(Deref(original)) && Deref(current) == old(Deref(current))
    {
      hide Hash, Run, Given;
      GivenHas(sent, k, i);
      sent[k].experiments[i].Assign(e);
    }
  }
}
