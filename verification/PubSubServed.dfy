/**
 When a list with subscribers loses its entry in the map, and when subscribers are
 closed: step by step, and through whole runs.
 */
module PubSubServed {
  import opened Types
  import opened PubSub
  import opened PubSubSteps
  import opened PubSubRefs

  /** The list is the one the map has for its query; a poller of the query, if there is one, publishes on it. */
  predicate Mapped(s: System, p: nat) {
    p < |s.lists| && s.lists[p].query in s.queries && s.queries[s.lists[p].query] == p
  }

  ghost predicate ListServed(s: System, p: nat) {
    p < |s.lists| && s.lists[p].subs != [] ==> Mapped(s, p)
  }

  /** Every list with subscribers is in the map: there are no orphans. */
  ghost predicate AllServed(s: System) {
    forall p: nat :: ListServed(s, p)
  }

  /** The map has a list with subscribers for the query. */
  predicate HasSubscribers(s: System, q: string) {
    q in s.queries && s.queries[q] < |s.lists| && s.lists[s.queries[q]].subs != []
  }

  /**
   The step takes a list with subscribers out of the map, or gives a list that is not in the map its
   first one: an Insert over another list, a Delete, the end of a poller, or an Attach.
   */
  predicate Orphans(s: System, step: Step) {
    match step
    case Insert(t) =>
      && t in s.threads && s.threads[t].Inserting? && MapFree(s)
      && HasSubscribers(s, s.threads[t].query) && s.queries[s.threads[t].query] != s.threads[t].list
    case Delete(t) => t in s.threads && s.threads[t].Deleting? && MapFree(s) && HasSubscribers(s, s.threads[t].query)
    case DeleteOnExit(t) => t in s.threads && s.threads[t].ExitClosed? && HasSubscribers(s, s.threads[t].query)
    case Attach(t) =>
      t in s.threads && s.threads[t].Attaching? && Writable(s, s.threads[t].list) && !Mapped(s, s.threads[t].list)
    case _ => false
  }

  /** The step closes a list that has subscribers. */
  predicate Evicts(s: System, step: Step) {
    match step
    case CloseIdle(t) =>
      t in s.threads && s.threads[t].Closing? && Writable(s, s.threads[t].list) && s.lists[s.threads[t].list].subs != []
    case CloseOnExit(t) =>
      && t in s.threads && s.threads[t].ExitLocked? && HasSubscribers(s, s.threads[t].query)
      && Writable(s, s.queries[s.threads[t].query])
    case _ => false
  }

  // ----- what a step does to lists and map -----

  /** The lists' subscribers and the map are the same; there may be new, empty lists. */
  ghost predicate SameLists(s: System, s': System) {
    && s'.queries == s.queries && |s.lists| <= |s'.lists|
    && (forall p :: 0 <= p < |s.lists| ==> s'.lists[p].subs == s.lists[p].subs && s'.lists[p].query == s.lists[p].query)
    && (forall p :: |s.lists| <= p < |s'.lists| ==> s'.lists[p].subs == [])
  }

  lemma SameListsSameServed(s: System, s': System)
    requires SameLists(s, s') && AllServed(s)
    ensures AllServed(s')
  {
    forall p: nat ensures ListServed(s', p) {
      assert ListServed(s, p);
    }
  }

  /** Fewer subscribers in one list, and the same map. */
  lemma FewerSubscribers(s: System, s': System, p: nat)
    requires AllServed(s) && p < |s.lists| == |s'.lists| && s'.queries == s.queries
    requires s'.lists[p].query == s.lists[p].query && (s'.lists[p].subs != [] ==> s.lists[p].subs != [])
    requires forall r :: 0 <= r < |s.lists| && r != p ==> s'.lists[r].subs == s.lists[r].subs && s'.lists[r].query == s.lists[r].query
    ensures AllServed(s')
  {
    forall r: nat ensures ListServed(s', r) {
      assert ListServed(s, r);
    }
  }

  lemma InsertServed(s: System, t: nat)
    requires AllServed(s) && Refs(s) && t in s.threads && s.threads[t].Inserting? && MapFree(s)
    ensures AllServed(Apply(s, Insert(t))) <==> !Orphans(s, Insert(t))
  {
    hide Refs;
    var s', q, p := Apply(s, Insert(t)), s.threads[t].query, s.threads[t].list;
    MapAndThread(s, t);
    if Orphans(s, Insert(t)) {
      assert !ListServed(s', s.queries[q]);
    } else {
      forall r: nat ensures ListServed(s', r) {
        assert ListServed(s, r);
      }
    }
  }

  lemma AttachServed(s: System, t: nat)
    requires AllServed(s) && t in s.threads && s.threads[t].Attaching? && Writable(s, s.threads[t].list)
    ensures AllServed(Apply(s, Attach(t))) <==> !Orphans(s, Attach(t))
  {
    var s', p := Apply(s, Attach(t)), s.threads[t].list;
    assert s'.lists[p].subs != [] && s'.lists[p].query == s.lists[p].query && s'.queries == s.queries;
    if Orphans(s, Attach(t)) {
      assert !ListServed(s', p);
    } else {
      forall r: nat ensures ListServed(s', r) {
        assert ListServed(s, r);
      }
    }
  }

  /** The query leaves the map. */
  lemma RemovedServed(s: System, s': System, q: string)
    requires AllServed(s) && Refs(s) && s'.lists == s.lists && s'.queries == s.queries - {q}
    ensures AllServed(s') <==> !HasSubscribers(s, q)
  {
    if HasSubscribers(s, q) {
      assert RefOk(s.lists, q, s.queries[q]);
      assert !ListServed(s', s.queries[q]);
    } else {
      forall r: nat ensures ListServed(s', r) {
        assert ListServed(s, r);
      }
    }
  }

  lemma DetachServed(s: System, t: nat)
    requires AllServed(s) && t in s.threads && s.threads[t].Detaching? && Writable(s, s.threads[t].list)
    ensures AllServed(Apply(s, Detach(t)))
  {
    var l, c := s.lists[s.threads[t].list], s.threads[t].channel;
    assert l.subs == [] ==> Without(l.subs, c) == [];
    FewerSubscribers(s, Apply(s, Detach(t)), s.threads[t].list);
  }

  lemma ClosedServed(s: System, s': System, p: nat)
    requires AllServed(s) && p < |s.lists| && s'.lists == Closed(s, p).lists && s'.queries == s.queries
    ensures AllServed(s')
  {
    FewerSubscribers(s, s', p);
  }

  /** The other steps change neither map nor subscribers. */
  predicate Structural(s: System, step: Step) {
    match step
    case Insert(t) => t in s.threads && s.threads[t].Inserting? && MapFree(s)
    case Attach(t) => t in s.threads && s.threads[t].Attaching? && Writable(s, s.threads[t].list)
    case Detach(t) => t in s.threads && s.threads[t].Detaching? && Writable(s, s.threads[t].list)
    case CloseIdle(t) => t in s.threads && s.threads[t].Closing? && Writable(s, s.threads[t].list)
    case Delete(t) => t in s.threads && s.threads[t].Deleting? && MapFree(s)
    case CloseOnExit(t) => t in s.threads && s.threads[t].ExitLocked?
    case DeleteOnExit(t) => t in s.threads && s.threads[t].ExitClosed?
    case _ => false
  }

  lemma ClientSameLists(s: System, step: Step, t: nat)
    requires t in s.threads && !Structural(s, step) && StepOf(step, t)
    ensures SameLists(s, ApplyClient(s, step, t))
  {
    hide Joined, Parted, Closed, Writable;
  }

  /** A step that is thread t's. */
  predicate StepOf(step: Step, t: nat) {
    !step.Receive? && !step.CancelRoot? && step.t == t
  }

  lemma PollerSameLists(s: System, step: Step, t: nat)
    requires t in s.threads && !Structural(s, step) && StepOf(step, t)
    ensures SameLists(s, ApplyPoller(s, step, t))
  {
    hide Closed;
  }

  lemma OthersSameLists(s: System, step: Step)
    requires !Structural(s, step)
    ensures SameLists(s, Apply(s, step))
  {
    hide ApplyClient, ApplyPoller, Structural;
    match step
    case Receive(c) =>
    case Spawn(t, poller) =>
    case LookUp(t) =>
    case CallSubscribe(t, q) =>
    case CallUnsubscribe(t, q, c) =>
    case CancelRoot =>
    case _ =>
      if step.t in s.threads {
        ClientSameLists(s, step, step.t);
        PollerSameLists(s, step, step.t);
      }
  }

  /** A step keeps every list with subscribers in the map if and only if it is not one of the four that orphan. */
  lemma StepServesExactly(s: System, step: Step)
    requires AllServed(s) && Refs(s)
    ensures AllServed(Apply(s, step)) <==> !Orphans(s, step)
  {
    if !Structural(s, step) {
      hide Apply, AllServed;
      OthersSameLists(s, step);
      SameListsSameServed(s, Apply(s, step));
    } else {
      hide AllServed, Refs, Closed;
      match step
      case Insert(t) => InsertServed(s, t);
      case Attach(t) => AttachServed(s, t);
      case Detach(t) => DetachServed(s, t);
      case CloseIdle(t) => ClosedServed(s, Apply(s, step), s.threads[t].list);
      case Delete(t) => RemovedServed(s, Apply(s, step), s.threads[t].query);
      case CloseOnExit(t) => ExitServed(s, t);
      case DeleteOnExit(t) => RemovedServed(s, Apply(s, step), s.threads[t].query);
    }
  }

  lemma ExitServed(s: System, t: nat)
    requires AllServed(s) && t in s.threads && s.threads[t].ExitLocked?
    ensures AllServed(Apply(s, CloseOnExit(t)))
  {
    hide AllServed, Closed;
    var q, s' := s.threads[t].query, Apply(s, CloseOnExit(t));
    if q in s.queries && Writable(s, s.queries[q]) {
      ClosedKept(s, s.queries[q], t);
      ClosedServed(s, s', s.queries[q]);
    } else {
      SameListsSameServed(s, s');
    }
  }

  // ----- whom a step closes -----

  /** Some channel is closed by the step. */
  ghost predicate SomeClosed(s: System, s': System) {
    exists c :: 0 <= c < |s.chans| && c < |s'.chans| && !s.chans[c].closed && s'.chans[c].closed
  }

  lemma ClosedCloses(s: System, p: nat, s': System)
    requires Safe(s) && p < |s.lists| && s'.chans == Closed(s, p).chans
    ensures SomeClosed(s, s') <==> s.lists[p].subs != []
    ensures NewOpen(s, s')
  {
    assert ListOk(s.chans, s.lists[p], p);
    if s.lists[p].subs != [] {
      var c := s.lists[p].subs[0];
      assert c in s.lists[p].subs && !s.chans[c].closed && s'.chans[c].closed;
    }
  }

  /** New channels are open. */
  ghost predicate NewOpen(s: System, s': System) {
    |s.chans| <= |s'.chans| && forall c :: |s.chans| <= c < |s'.chans| ==> !s'.chans[c].closed
  }

  /** Nothing is closed that was open before. */
  ghost predicate SameOpen(s: System, s': System) {
    NewOpen(s, s') && forall c :: 0 <= c < |s.chans| ==> s'.chans[c].closed == s.chans[c].closed
  }

  /** The steps that call `close` on a list. */
  predicate ClosesList(s: System, step: Step) {
    match step
    case CloseIdle(t) => t in s.threads && s.threads[t].Closing? && Writable(s, s.threads[t].list)
    case CloseOnExit(t) => t in s.threads && s.threads[t].ExitLocked?
    case _ => false
  }

  lemma ClientSameOpen(s: System, step: Step, t: nat)
    requires t in s.threads && !ClosesList(s, step) && StepOf(step, t)
    ensures SameOpen(s, ApplyClient(s, step, t))
  {
    hide Closed, Writable;
  }

  lemma PollerSameOpen(s: System, step: Step, t: nat)
    requires t in s.threads && !ClosesList(s, step) && StepOf(step, t)
    ensures SameOpen(s, ApplyPoller(s, step, t))
  {
    hide Closed;
  }

  lemma OthersSameOpen(s: System, step: Step)
    requires !ClosesList(s, step)
    ensures SameOpen(s, Apply(s, step))
  {
    hide ApplyClient, ApplyPoller, ClosesList;
    match step
    case Receive(c) =>
    case Spawn(t, poller) =>
    case LookUp(t) =>
    case CallSubscribe(t, q) =>
    case CallUnsubscribe(t, q, c) =>
    case CancelRoot =>
    case _ =>
      if step.t in s.threads {
        ClientSameOpen(s, step, step.t);
        PollerSameOpen(s, step, step.t);
      }
  }

  /** A step closes a channel if and only if it closes a list that has subscribers. */
  lemma StepEvictsExactly(s: System, step: Step)
    requires Safe(s) && Refs(s)
    ensures SomeClosed(s, Apply(s, step)) <==> Evicts(s, step)
    ensures NewOpen(s, Apply(s, step))
  {
    hide Safe, Refs, Closed, CloseAll;
    if !ClosesList(s, step) {
      hide Apply;
      OthersSameOpen(s, step);
    } else {
      match step
      case CloseIdle(t) => ClosedCloses(s, s.threads[t].list, Apply(s, step));
      case CloseOnExit(t) =>
        var q := s.threads[t].query;
        if q in s.queries && Writable(s, s.queries[q]) {
          ClosedCloses(s, s.queries[q], Apply(s, step));
        }
    }
  }

  // ----- whole runs -----

  ghost predicate ServedThroughout(steps: seq<Step>) {
    steps == [] || (ServedThroughout(steps[..|steps| - 1]) && AllServed(Exec(steps)))
  }

  ghost predicate NeverOrphans(steps: seq<Step>) {
    steps == [] || (NeverOrphans(steps[..|steps| - 1]) && !Orphans(Exec(steps[..|steps| - 1]), steps[|steps| - 1]))
  }

  lemma {:induction false} ServedNow(steps: seq<Step>)
    requires ServedThroughout(steps)
    ensures AllServed(Exec(steps))
  {
  }

  /** Through a whole run no subscriber is orphaned, if and only if none of its steps is one of the four. */
  lemma {:induction false} ServedExactly(steps: seq<Step>)
    ensures ServedThroughout(steps) <==> NeverOrphans(steps)
  {
    if steps != [] {
      hide Apply, AllServed, Orphans, Refs;
      var init, last := steps[..|steps| - 1], steps[|steps| - 1];
      ServedExactly(init);
      if ServedThroughout(init) {
        ServedNow(init);
        EveryRunRefs(init);
        StepServesExactly(Exec(init), last);
        assert Exec(steps) == Apply(Exec(init), last);
      }
    }
  }

  ghost predicate NeverEvicts(steps: seq<Step>) {
    steps == [] || (NeverEvicts(steps[..|steps| - 1]) && !Evicts(Exec(steps[..|steps| - 1]), steps[|steps| - 1]))
  }

  ghost predicate NoneClosed(s: System) {
    forall c :: 0 <= c < |s.chans| ==> !s.chans[c].closed
  }

  ghost predicate NoneClosedThroughout(steps: seq<Step>) {
    steps == [] || (NoneClosedThroughout(steps[..|steps| - 1]) && NoneClosed(Exec(steps)))
  }

  lemma StillNoneClosed(s: System, s': System)
    requires NoneClosed(s) && NewOpen(s, s')
    ensures NoneClosed(s') <==> !SomeClosed(s, s')
  {
  }

  lemma {:induction false} OpenNow(steps: seq<Step>)
    requires NoneClosedThroughout(steps)
    ensures NoneClosed(Exec(steps))
  {
  }

  /** Through a whole run no subscription is closed, if and only if no step closes a list that has subscribers. */
  lemma {:induction false} OpenExactly(steps: seq<Step>)
    ensures NoneClosedThroughout(steps) <==> NeverEvicts(steps)
  {
    if steps != [] {
      hide Apply, NoneClosed, Evicts, Refs, Safe, SomeClosed, NewOpen;
      var init, last := steps[..|steps| - 1], steps[|steps| - 1];
      OpenExactly(init);
      if NoneClosedThroughout(init) {
        OpenNow(init);
        EveryRunRefs(init);
        EveryRunIsSafe(init);
        StepEvictsExactly(Exec(init), last);
        StillNoneClosed(Exec(init), Apply(Exec(init), last));
        assert Exec(steps) == Apply(Exec(init), last);
      }
    }
  }
}
