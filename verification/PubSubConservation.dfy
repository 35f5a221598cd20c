/**
 Conservation at lock granularity: in runs whose windows stay apart, and outside a
 query's windows, the map, the subscribers of the query and its pollers agree.
 */
module PubSubConservation {
  import opened Types
  import opened PubSubSteps
  import opened PubSubRefs
  import opened PubSubServed
  import opened PubSubWindows

  ghost predicate InWindow(s: System, q: string) {
    exists t :: t in s.threads && Window(s.threads[t]) == Some(q)
  }

  predicate Polls(thread: Thread, q: string) {
    match thread
    case Waiting(p) => p == q
    case Querying(p) => p == q
    case Notifying(p, _) => p == q
    case Starting(p, _, _) => p == q
    case Publishing(p, _) => p == q
    case _ => false
  }

  /** A polling goroutine of the query is alive and has not given up. */
  ghost predicate Polled(s: System, q: string) {
    exists t :: t in s.threads && Polls(s.threads[t], q)
  }

  predicate Inserts(thread: Thread, q: string) {
    thread.Inserting? && thread.query == q
  }

  ghost predicate BeingInserted(s: System, q: string) {
    exists t :: t in s.threads && Inserts(s.threads[t], q)
  }

  /** A query stays in the map without subscribers only during a window. */
  ghost predicate NoneIdle(s: System) {
    forall q :: q in s.queries && !HasSubscribers(s, q) ==> InWindow(s, q)
  }

  /** While the root context lives, a query that is in the map, or about to be, is polled. */
  ghost predicate AllPolled(s: System) {
    !s.rootDone ==> forall q :: q in s.queries || BeingInserted(s, q) ==> Polled(s, q)
  }

  // ----- no query is left idle -----

  lemma ClientLeavesBusy(s: System, step: Step, t: nat, q: string)
    requires Refs(s) && t in s.threads && Window(s.threads[t]) == Some(q) && WindowOk(s, s.threads[t])
    ensures var s' := ApplyClient(s, step, t);
      t in s'.threads && (Window(s'.threads[t]) == Some(q) || q !in s'.queries || HasSubscribers(s', q))
  {
    hide Refs, Parted, Closed;
    MapAndThread(s, t);
    match s.threads[t]
    case Detaching(_, c, p) => PartedKept(s, p, c, t);
    case Closing(_, p) => ClosedKept(s, p, t);
    case _ =>
  }

  lemma PollerLeavesBusy(s: System, step: Step, t: nat, q: string)
    requires t in s.threads && Window(s.threads[t]) == Some(q)
    ensures var s' := ApplyPoller(s, step, t);
      t in s'.threads && (Window(s'.threads[t]) == Some(q) || q !in s'.queries)
  {
    hide Closed, Sent;
    if s.threads[t].ExitLocked? && q in s.queries && Writable(s, s.queries[q]) {
      ClosedKept(s, s.queries[q], t);
    }
  }

  /** A thread leaves its window only when its query is gone or has subscribers. */
  lemma MoverLeavesBusy(s: System, step: Step, t: nat, q: string)
    requires Refs(s) && t in s.threads && Window(s.threads[t]) == Some(q) && WindowOk(s, s.threads[t])
    requires Mover(step) == Some(t)
    ensures var s' := Apply(s, step);
      t in s'.threads && (Window(s'.threads[t]) == Some(q) || q !in s'.queries || HasSubscribers(s', q))
  {
    hide ApplyClient, ApplyPoller, Refs, WindowOk, HasSubscribers;
    match step
    case CallSubscribe(_, _) =>
    case CallUnsubscribe(_, _, _) =>
    case LookUp(_) =>
    case Spawn(_, _) =>
    case Receive(_) =>
    case CancelRoot =>
    case _ => OrdinaryLeavesBusy(s, step, t, q);
  }

  lemma OrdinaryLeavesBusy(s: System, step: Step, t: nat, q: string)
    requires Refs(s) && t in s.threads && Window(s.threads[t]) == Some(q) && WindowOk(s, s.threads[t])
    requires Mover(step) == Some(t) && Ordinary(step)
    ensures var s' := Apply(s, step);
      t in s'.threads && (Window(s'.threads[t]) == Some(q) || q !in s'.queries || HasSubscribers(s', q))
  {
    hide ApplyClient, ApplyPoller, Refs, WindowOk, HasSubscribers, Window;
    if OfClient(step) {
      ClientLeavesBusy(s, step, t, q);
    } else {
      PollerLeavesBusy(s, step, t, q);
    }
  }

  /** A query nobody has a window on: a step leaves it as it is. */
  lemma OutsideWindows(s: System, step: Step, q: string)
    requires Refs(s)
    requires (Mover(step).Some? && Mover(step).value in s.threads ==> Window(s.threads[Mover(step).value]) != Some(q))
    ensures SameQuery(s, Apply(s, step), q)
  {
    hide Refs, Apply, Structural, SameLists, SameQuery, Window;
    RootStaysDone(s, step);
    if Structural(s, step) {
      StructuralHasWindow(s, step);
      StructuralTouches(s, step, step.t, q);
    } else {
      OthersSameLists(s, step);
      SameListsSameQuery(s, Apply(s, step), q);
    }
  }

  lemma StepLeavesNoneIdle(s: System, step: Step)
    requires Refs(s) && WindowsOk(s) && NoneIdle(s)
    ensures NoneIdle(Apply(s, step))
  {
    hide Refs, Apply, Window, WindowOk, HasSubscribers, SameQuery, OthersStay;
    var s' := Apply(s, step);
    forall q | q in s'.queries && !HasSubscribers(s', q) ensures InWindow(s', q) {
      var mover := Mover(step);
      if mover.Some? && mover.value in s.threads && Window(s.threads[mover.value]) == Some(q) {
        MoverLeavesBusy(s, step, mover.value, q);
      } else {
        OutsideWindows(s, step, q);
        StaysInWindow(s, step, q);
      }
    }
  }

  lemma StaysInWindow(s: System, step: Step, q: string)
    requires Refs(s) && NoneIdle(s) && SameQuery(s, Apply(s, step), q)
    requires Mover(step).Some? && Mover(step).value in s.threads ==> Window(s.threads[Mover(step).value]) != Some(q)
    requires q in Apply(s, step).queries && !HasSubscribers(Apply(s, step), q)
    ensures InWindow(Apply(s, step), q)
  {
    hide Refs, Apply, Window, HasSubscribers;
    var s' := Apply(s, step);
    assert MapOk(s) by { RefsMap(s); }
    SubscribersStay(s, s', q);
    var u :| u in s.threads && Window(s.threads[u]) == Some(q);
    if Mover(step) == None {
      NobodyMoves(s, step);
    } else {
      StepOthersStay(s, step);
    }
    assert u in s'.threads && s'.threads[u] == s.threads[u];
  }

  lemma RefsMap(s: System)
    requires Refs(s)
    ensures MapOk(s)
  {
  }

  // ----- every query is polled -----

  lemma PollerStepStays(s: System, step: Step, t: nat, q: string)
    requires t in s.threads && Polls(s.threads[t], q)
    ensures var s' := ApplyPoller(s, step, t);
      && t in s'.threads
      && (Polls(s'.threads[t], q) || (s'.threads[t] == Exiting(q) && (s.rootDone || q !in s.queries)))
  {
    hide Sent, Closed;
    if s.threads[t].Publishing? && s.threads[t].list < |s.lists| && t in s.lists[s.threads[t].list].readers {
      SentKept(s, t, s.threads[t].list);
    }
  }

  /** What a poller becomes: still one, or one that gives up because its query is gone or the root is. */
  lemma PollerStaysOrExits(s: System, step: Step, t: nat, q: string)
    requires t in s.threads && Polls(s.threads[t], q) && Mover(step) == Some(t)
    ensures var s' := Apply(s, step);
      && t in s'.threads
      && (Polls(s'.threads[t], q) || (s'.threads[t] == Exiting(q) && (s.rootDone || q !in s.queries)))
  {
    hide ApplyClient, ApplyPoller;
    match step
    case CallSubscribe(_, _) =>
    case CallUnsubscribe(_, _, _) =>
    case LookUp(_) =>
    case Spawn(_, _) =>
    case Receive(_) =>
    case CancelRoot =>
    case _ =>
      if OfClient(step) {
        ClientKeepsPoller(s, step, t, q);
      } else {
        PollerStepStays(s, step, t, q);
      }
  }

  lemma ClientKeepsPoller(s: System, step: Step, t: nat, q: string)
    requires t in s.threads && Polls(s.threads[t], q)
    ensures ApplyClient(s, step, t) == s
  {
  }

  lemma SpawnComesFrom(s: System, t: nat, poller: nat, q: string)
    requires q in Apply(s, Spawn(t, poller)).queries || BeingInserted(Apply(s, Spawn(t, poller)), q)
    ensures q in s.queries || BeingInserted(s, q) || Polled(Apply(s, Spawn(t, poller)), q)
  {
    var s' := Apply(s, Spawn(t, poller));
    if s' != s && s.threads[t].query == q {
      assert poller in s'.threads && Polls(s'.threads[poller], q);
    } else if BeingInserted(s', q) {
      var u :| u in s'.threads && Inserts(s'.threads[u], q);
      assert u in s.threads && Inserts(s.threads[u], q);
    }
  }

  /** The other steps outside clients and pollers insert nothing. */
  lemma QuietComesFrom(s: System, step: Step)
    requires step.LookUp? || step.CallSubscribe? || step.CallUnsubscribe? || step.Receive? || step.CancelRoot?
    ensures Apply(s, step).queries == s.queries
    ensures forall u :: u in Apply(s, step).threads && Apply(s, step).threads[u].Inserting? ==>
      u in s.threads && s.threads[u] == Apply(s, step).threads[u]
  {
    hide LookedUp, Taken;
    match step
    case LookUp(t) => if t in s.threads { LookUpInserts(s, t); }
    case Receive(c) => if c < |s.chans| { TakenOnlyChannels(s, c); }
    case CallSubscribe(_, _) =>
    case CallUnsubscribe(_, _, _) =>
    case CancelRoot =>
  }

  lemma LookUpInserts(s: System, t: nat)
    requires t in s.threads
    ensures LookedUp(s, t).queries == s.queries
    ensures forall u :: u in LookedUp(s, t).threads && LookedUp(s, t).threads[u].Inserting? ==>
      u in s.threads && s.threads[u] == LookedUp(s, t).threads[u]
  {
  }

  /** A query gets into the map, or is about to, only from there, unless its poller has just been started. */
  lemma WhereQueriesComeFrom(s: System, step: Step, q: string)
    requires q in Apply(s, step).queries || BeingInserted(Apply(s, step), q)
    ensures q in s.queries || BeingInserted(s, q) || (step.Spawn? && Polled(Apply(s, step), q))
  {
    if step.Spawn? {
      SpawnComesFrom(s, step.t, step.poller, q);
    } else if Ordinary(step) {
      if step.t in s.threads {
        OrdinaryComesFrom(s, step, step.t, q);
      } else {
        NobodyThere(s, step);
      }
    } else {
      hide Apply;
      QuietComesFrom(s, step);
      if BeingInserted(Apply(s, step), q) {
        OldInserts(s, Apply(s, step), q);
      }
    }
  }

  lemma OldInserts(s: System, s': System, q: string)
    requires BeingInserted(s', q)
    requires forall u :: u in s'.threads && s'.threads[u].Inserting? ==> u in s.threads && s.threads[u] == s'.threads[u]
    ensures BeingInserted(s, q)
  {
    var u :| u in s'.threads && Inserts(s'.threads[u], q);
    assert Inserts(s.threads[u], q);
  }

  lemma OrdinaryComesFrom(s: System, step: Step, t: nat, q: string)
    requires t in s.threads && Mover(step) == Some(t) && Ordinary(step)
    requires q in Apply(s, step).queries || BeingInserted(Apply(s, step), q)
    ensures q in s.queries || BeingInserted(s, q)
  {
    hide Joined, Parted, Closed, Sent;
    var s' := Apply(s, step);
    assert q in s'.queries && q !in s.queries ==> Inserts(s.threads[t], q) by {
      NewQueries(s, step, t, q);
    }
    if BeingInserted(s', q) {
      NewInserts(s, step, t);
      OldInserts(s, s', q);
    }
  }

  lemma NewQueries(s: System, step: Step, t: nat, q: string)
    requires t in s.threads && Mover(step) == Some(t) && Ordinary(step)
    ensures q in Apply(s, step).queries && q !in s.queries ==> Inserts(s.threads[t], q)
  {
    hide ApplyClient, ApplyPoller;
    if OfClient(step) {
      ClientNewQueries(s, step, t, q);
    } else {
      PollerNewQueries(s, step, t, q);
    }
  }

  lemma ClientNewQueries(s: System, step: Step, t: nat, q: string)
    requires t in s.threads
    ensures q in ApplyClient(s, step, t).queries && q !in s.queries ==> Inserts(s.threads[t], q)
  {
  }

  lemma PollerNewQueries(s: System, step: Step, t: nat, q: string)
    requires t in s.threads
    ensures q in ApplyPoller(s, step, t).queries ==> q in s.queries
  {
  }

  lemma ClientInserts(s: System, step: Step, t: nat)
    requires t in s.threads
    ensures var s' := ApplyClient(s, step, t);
      t in s'.threads && (s'.threads[t].Inserting? ==> s'.threads[t] == s.threads[t])
  {
    hide Joined, Parted, Closed;
    if s.threads[t].Attaching? && Writable(s, s.threads[t].list) { JoinedKept(s, s.threads[t].list, t); }
    if s.threads[t].Detaching? && Writable(s, s.threads[t].list) {
      PartedKept(s, s.threads[t].list, s.threads[t].channel, t);
    }
    if s.threads[t].Closing? && Writable(s, s.threads[t].list) { ClosedKept(s, s.threads[t].list, t); }
  }

  lemma PollerInserts(s: System, step: Step, t: nat)
    requires t in s.threads
    ensures var s' := ApplyPoller(s, step, t);
      t in s'.threads && (s'.threads[t].Inserting? ==> s'.threads[t] == s.threads[t])
  {
    hide Closed, Sent;
    if s.threads[t].ExitLocked? && s.threads[t].query in s.queries && Writable(s, s.queries[s.threads[t].query]) {
      ClosedKept(s, s.queries[s.threads[t].query], t);
    }
    if s.threads[t].Publishing? && s.threads[t].list < |s.lists| && t in s.lists[s.threads[t].list].readers {
      SentKept(s, t, s.threads[t].list);
    }
  }

  lemma NewInserts(s: System, step: Step, t: nat)
    requires t in s.threads && Mover(step) == Some(t) && Ordinary(step)
    ensures forall u :: u in Apply(s, step).threads && Apply(s, step).threads[u].Inserting? ==>
      u in s.threads && s.threads[u] == Apply(s, step).threads[u]
  {
    hide ApplyClient, ApplyPoller;
    StepOthersStay(s, step);
    if OfClient(step) {
      ClientInserts(s, step, t);
    } else {
      PollerInserts(s, step, t);
    }
  }

  lemma StepKeepsPolled(s: System, step: Step)
    requires AllPolled(s) && Apart(Apply(s, step))
    ensures AllPolled(Apply(s, step))
  {
    hide Apply;
    var s' := Apply(s, step);
    RootStaysDone(s, step);
    if !s'.rootDone {
      forall q | q in s'.queries || BeingInserted(s', q) ensures Polled(s', q) {
        WhereQueriesComeFrom(s, step, q);
        if q in s.queries || BeingInserted(s, q) {
          var u :| u in s.threads && Polls(s.threads[u], q);
          PollerPersists(s, step, u, q);
        }
      }
    }
  }

  /** A poller stays one, since giving up would overlap with the insertion of its query. */
  lemma PollerPersists(s: System, step: Step, u: nat, q: string)
    requires u in s.threads && Polls(s.threads[u], q) && !s.rootDone && Apart(Apply(s, step))
    requires q in s.queries || BeingInserted(s, q)
    ensures Polled(Apply(s, step), q)
  {
    hide Apply;
    var s' := Apply(s, step);
    if Mover(step) == None {
      NobodyMoves(s, step);
      assert u in s'.threads && Polls(s'.threads[u], q);
    } else if Mover(step) != Some(u) {
      StepOthersStay(s, step);
      assert u in s'.threads && Polls(s'.threads[u], q);
    } else {
      StepOthersStay(s, step);
      PollerStaysOrExits(s, step, u, q);
      if BeingInserted(s, q) {
        var v :| v in s.threads && Inserts(s.threads[v], q);
        assert v in s'.threads && Window(s'.threads[v]) == Some(q);
      }
      assert Polls(s'.threads[u], q);
    }
  }

  // ----- whole runs -----

  lemma {:induction false} RunsAgree(steps: seq<Step>)
    requires ApartThroughout(steps)
    ensures NoneIdle(Exec(steps)) && AllPolled(Exec(steps))
  {
    hide Apply, Refs, WindowsOk, Apart, NoneIdle, AllPolled;
    if steps == [] {
      NothingYet();
    } else {
      var init := steps[..|steps| - 1];
      RunsAgree(init);
      WindowsStayOk(init);
      EveryRunRefs(init);
      ApartNow(steps);
      StepLeavesNoneIdle(Exec(init), steps[|steps| - 1]);
      StepKeepsPolled(Exec(init), steps[|steps| - 1]);
    }
  }

  lemma NothingYet()
    ensures NoneIdle(EMPTY) && AllPolled(EMPTY)
  {
  }

  /** The subscriptions of a query: the channels created for it that have not left. */
  ghost function SubscriptionsOf(s: System, q: string): set<nat> {
    set c: nat | 0 <= c < |s.chans| && Lives(s, c) && s.chans[c].home < |s.lists| && s.lists[s.chans[c].home].query == q
  }

  ghost function SubscribersOf(s: System, q: string): seq<nat> {
    if q in s.queries && s.queries[q] < |s.lists| then s.lists[s.queries[q]].subs else []
  }

  lemma SubscribersAreSubscriptions(s: System, q: string, c: nat)
    requires Safe(s) && Refs(s) && LivePlaced(s) && AllServed(s)
    ensures c in SubscribersOf(s, q) <==> c in SubscriptionsOf(s, q)
  {
    if c in SubscribersOf(s, q) {
      var p := s.queries[q];
      assert ListOk(s.chans, s.lists[p], p) && RefOk(s.lists, q, p);
    }
    if c in SubscriptionsOf(s, q) {
      var p := s.chans[c].home;
      assert c in s.lists[p].subs && ListServed(s, p);
    }
  }

  lemma {:induction false} DistinctSize(list: seq<nat>, members: set<nat>)
    requires Distinct(list) && forall c :: c in list <==> c in members
    ensures |list| == |members|
  {
    if list == [] {
      assert members == {};
    } else {
      assert list[0] !in list[1..];
      DistinctSize(list[1..], members - {list[0]});
    }
  }

  /**
   Conservation at lock granularity. If no two windows on one query ever overlapped and the root context
   lives, then outside the windows of a query: as many subscribers as subscriptions that have not left,
   the query in the map exactly if there is one, and then a goroutine that polls it.
   */
  lemma {:induction false} SubscriptionsAreConserved(steps: seq<Step>, q: string)
    requires ApartThroughout(steps) && !Exec(steps).rootDone && !InWindow(Exec(steps), q)
    ensures |SubscribersOf(Exec(steps), q)| == |SubscriptionsOf(Exec(steps), q)|
    ensures q in Exec(steps).queries <==> SubscriptionsOf(Exec(steps), q) != {}
    ensures q in Exec(steps).queries ==> Polled(Exec(steps), q)
  {
    hide Exec, Apart, AllServed, Refs, Safe, LivePlaced;
    var s := Exec(steps);
    RunsAgree(steps);
    ApartRunsServe(steps);
    ServedNow(steps);
    EveryRunIsSafe(steps);
    EveryRunRefs(steps);
    EveryRunPlaces(steps);
    forall c: nat ensures c in SubscribersOf(s, q) <==> c in SubscriptionsOf(s, q) {
      SubscribersAreSubscriptions(s, q, c);
    }
    SubscribersDistinct(s, q);
    DistinctSize(SubscribersOf(s, q), SubscriptionsOf(s, q));
    if q in s.queries {
      assert HasSubscribers(s, q);
    }
    if SubscribersOf(s, q) != [] {
      assert SubscribersOf(s, q)[0] in SubscriptionsOf(s, q);
    }
  }

  lemma SubscribersDistinct(s: System, q: string)
    requires Safe(s)
    ensures Distinct(SubscribersOf(s, q))
  {
    if q in s.queries && s.queries[q] < |s.lists| {
      assert ListOk(s.chans, s.lists[s.queries[q]], s.queries[q]);
    }
  }
}
