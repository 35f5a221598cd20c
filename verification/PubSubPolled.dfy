/**
 A query in the map is meant to have a poller. When exactly that holds through a
 run, and what becomes of the subscribers of a query that has none.
 */
module PubSubPolled {
  import opened Types
  import opened PubSub
  import opened PubSubSteps
  import opened PubSubRefs
  import opened PubSubServed
  import opened PubSubWindows
  import opened PubSubConservation
  import opened PubSubDeadlock
  import R = PubSubRace

  /** While the root context lives, every query in the map is polled. */
  ghost predicate MappedPolled(s: System) {
    s.rootDone || forall q :: q in s.queries ==> Polled(s, q)
  }

  /**
   The step puts a query into the map whose poller has already given up: between its start and this step it
   ticked and found no entry.
   */
  ghost predicate InsertsUnpolled(s: System, step: Step) {
    match step
    case Insert(t) =>
      && t in s.threads && s.threads[t].Inserting? && MapFree(s)
      && !s.rootDone && !Polled(s, s.threads[t].query)
    case _ => false
  }

  lemma InsertAdds(s: System, t: nat)
    requires t in s.threads && s.threads[t].Inserting? && MapFree(s)
    ensures var s' := Apply(s, Insert(t));
      && s'.queries == s.queries[s.threads[t].query := s.threads[t].list] && s'.rootDone == s.rootDone
      && s'.threads == s.threads[t := Attaching(s.threads[t].query, s.threads[t].list)]
  {
    hide ApplyPoller, Joined, Parted, Closed;
  }

  /** A step other than an Insert adds no query to the map. */
  lemma OthersAddNothing(s: System, step: Step, q: string)
    requires q in Apply(s, step).queries && q !in s.queries
    ensures step.Insert? && step.t in s.threads && s.threads[step.t].Inserting? && s.threads[step.t].query == q && MapFree(s)
  {
    if Ordinary(step) {
      if step.t !in s.threads {
        NobodyThere(s, step);
      } else if OfClient(step) {
        ClientIsClient(s, step);
        ClientAdds(s, step, step.t, q);
      } else {
        PollerIsPoller(s, step);
        PollerNewQueries(s, step, step.t, q);
      }
    } else if step.Spawn? {
    } else {
      QuietComesFrom(s, step);
    }
  }

  lemma ClientAdds(s: System, step: Step, t: nat, q: string)
    requires t in s.threads && q in ApplyClient(s, step, t).queries && q !in s.queries
    ensures step.Insert? && s.threads[t].Inserting? && s.threads[t].query == q && MapFree(s)
  {
  }

  /** A live poller's query stays polled while it is in the map, whoever moves. */
  lemma PollerRemains(s: System, step: Step, u: nat, q: string)
    requires u in s.threads && Polls(s.threads[u], q) && !s.rootDone && (q in s.queries || Mover(step) != Some(u))
    ensures Polled(Apply(s, step), q)
  {
    hide Apply;
    var s' := Apply(s, step);
    if Mover(step) == None {
      NobodyMoves(s, step);
    } else {
      StepOthersStay(s, step);
      if Mover(step) == Some(u) {
        PollerStaysOrExits(s, step, u, q);
      }
    }
    assert u in s'.threads && Polls(s'.threads[u], q);
  }

  /** One step keeps every query in the map polled if and only if it does not insert one that is not. */
  lemma StepPollsExactly(s: System, step: Step)
    requires MappedPolled(s)
    ensures MappedPolled(Apply(s, step)) <==> !InsertsUnpolled(s, step)
  {
    hide Apply, Polled;
    var s' := Apply(s, step);
    RootStaysDone(s, step);
    if InsertsUnpolled(s, step) {
      InsertAdds(s, step.t);
      NobodyNewPolls(s, step.t);
      assert s.threads[step.t].query in s'.queries;
    } else if !s'.rootDone {
      forall q | q in s'.queries ensures Polled(s', q) {
        if q !in s.queries {
          OthersAddNothing(s, step, q);
        }
        var u := APoller(s, q);
        if q !in s.queries {
          assert !Polls(s.threads[step.t], q);
        }
        PollerRemains(s, step, u, q);
      }
    }
  }

  lemma APoller(s: System, q: string) returns (u: nat)
    requires Polled(s, q)
    ensures u in s.threads && Polls(s.threads[u], q)
  {
    u :| u in s.threads && Polls(s.threads[u], q);
  }

  lemma NobodyNewPolls(s: System, t: nat)
    requires t in s.threads && s.threads[t].Inserting? && MapFree(s)
    ensures Polled(Apply(s, Insert(t)), s.threads[t].query) ==> Polled(s, s.threads[t].query)
  {
    hide Apply;
    var s', q := Apply(s, Insert(t)), s.threads[t].query;
    InsertAdds(s, t);
    if Polled(s', q) {
      var u :| u in s'.threads && Polls(s'.threads[u], q);
      assert u in s.threads && Polls(s.threads[u], q);
    }
  }

  // ----- whole runs -----

  ghost predicate PolledThroughout(steps: seq<Step>) {
    steps == [] || (PolledThroughout(steps[..|steps| - 1]) && MappedPolled(Exec(steps)))
  }

  ghost predicate NeverInsertsUnpolled(steps: seq<Step>) {
    steps == [] ||
    (NeverInsertsUnpolled(steps[..|steps| - 1]) && !InsertsUnpolled(Exec(steps[..|steps| - 1]), steps[|steps| - 1]))
  }

  lemma {:induction false} PolledNow(steps: seq<Step>)
    requires PolledThroughout(steps)
    ensures MappedPolled(Exec(steps))
  {
  }

  /** Through a whole run every query in the map is polled, if and only if no step inserts one that is not. */
  lemma {:induction false} PolledExactly(steps: seq<Step>)
    ensures PolledThroughout(steps) <==> NeverInsertsUnpolled(steps)
  {
    if steps != [] {
      hide Apply, MappedPolled, InsertsUnpolled;
      var init, last := steps[..|steps| - 1], steps[|steps| - 1];
      PolledExactly(init);
      if PolledThroughout(init) {
        PolledNow(init);
        StepPollsExactly(Exec(init), last);
        assert Exec(steps) == Apply(Exec(init), last);
      }
    }
  }

  /**
   So a subscription that has not left is in the list the map has for its query, and that query is polled,
   in every run without the steps that orphan and the step above.
   */
  lemma {:induction false} SubscriptionsAreServed(steps: seq<Step>, c: nat)
    requires NeverOrphans(steps) && NeverInsertsUnpolled(steps) && !Exec(steps).rootDone && Lives(Exec(steps), c)
    ensures var s := Exec(steps); var p := s.chans[c].home;
      Mapped(s, p) && c in s.lists[p].subs && Polled(s, s.lists[p].query)
  {
    hide Exec, Apply, Orphans, InsertsUnpolled, Polled;
    ServedExactly(steps);
    PolledExactly(steps);
    ServedNow(steps);
    PolledNow(steps);
    EveryRunPlaces(steps);
    assert ListServed(Exec(steps), Exec(steps).chans[c].home);
  }

  // ----- when a poller gives up -----

  /** It is between two ticks, and finds its query gone at the next one, or the root context ended. */
  predicate GivesUp(s: System, step: Step, t: nat) {
    && t in s.threads && s.threads[t].Waiting?
    && ((step == Tick(t) && MapFree(s) && s.threads[t].query !in s.queries) || (step == StopOnRoot(t) && s.rootDone))
  }

  predicate StillPolls(s: System, t: nat, q: string) {
    t in s.threads && Polls(s.threads[t], q)
  }

  lemma PollerGivesUp(s: System, step: Step, t: nat, q: string)
    requires t in s.threads && Polls(s.threads[t], q) && Ordinary(step) && step.t == t
    ensures StillPolls(ApplyPoller(s, step, t), t, q) <==> !GivesUp(s, step, t)
  {
    hide Sent, Closed;
    if s.threads[t].Publishing? && s.threads[t].list < |s.lists| && t in s.lists[s.threads[t].list].readers {
      SentOnlyData(s, t, s.threads[t].list);
    }
  }

  lemma QuietGivesUp(s: System, step: Step, t: nat, q: string)
    requires t in s.threads && Polls(s.threads[t], q) && !Ordinary(step)
    ensures StillPolls(Apply(s, step), t, q)
  {
    hide Taken;
    if step.Receive? && step.c < |s.chans| {
      TakenOnlyChannels(s, step.c);
    }
  }

  /** A polling goroutine goes on polling its query through every step but these two. */
  lemma GivesUpExactly(s: System, step: Step, t: nat, q: string)
    requires t in s.threads && Polls(s.threads[t], q)
    ensures StillPolls(Apply(s, step), t, q) <==> !GivesUp(s, step, t)
  {
    hide Apply, ApplyClient, ApplyPoller, Polls;
    if !Ordinary(step) {
      QuietGivesUp(s, step, t, q);
    } else if step.t !in s.threads {
      NobodyThere(s, step);
    } else if step.t != t {
      OrdinaryMoves(s, step);
    } else if OfClient(step) {
      ClientIsClient(s, step);
      ClientKeepsPoller(s, step, t, q);
    } else {
      PollerIsPoller(s, step);
      PollerGivesUp(s, step, t, q);
    }
  }

  // ----- conservation, exactly -----

  /** As many subscribers of each query as subscriptions that have not left, and every query in the map polled. */
  ghost predicate Conserved(s: System) {
    (forall q :: |SubscribersOf(s, q)| == |SubscriptionsOf(s, q)|) && MappedPolled(s)
  }

  /** Subscribers are subscriptions, in any case. */
  lemma SubscribersAreAmong(s: System, q: string)
    requires Safe(s) && Refs(s)
    ensures Distinct(SubscribersOf(s, q)) && forall c :: c in SubscribersOf(s, q) ==> c in SubscriptionsOf(s, q)
  {
    hide Refs;
    RefsMap(s);
    SubscribersDistinct(s, q);
    if q in s.queries {
      assert RefOk(s.lists, q, s.queries[q]);
      assert ListOk(s.chans, s.lists[s.queries[q]], s.queries[q]);
    }
  }

  lemma {:induction false} FewerThan(list: seq<nat>, members: set<nat>, c: nat)
    requires Distinct(list) && (forall d :: d in list ==> d in members) && c in members && c !in list
    ensures |list| < |members|
  {
    if list != [] {
      assert list[0] !in list[1..];
      FewerThan(list[1..], members - {list[0]}, c);
    }
  }

  /** A subscriber of a list that is not in the map is missing among its query's. */
  lemma OrphanIsMissing(s: System, p: nat)
    requires Safe(s) && Refs(s) && p < |s.lists| && s.lists[p].subs != [] && !Mapped(s, p)
    ensures var q := s.lists[p].query; |SubscribersOf(s, q)| < |SubscriptionsOf(s, q)|
  {
    var q, c := s.lists[p].query, s.lists[p].subs[0];
    assert ListOk(s.chans, s.lists[p], p) && c in s.lists[p].subs;
    assert c in SubscriptionsOf(s, q);
    assert q in s.queries && s.queries[q] < |s.lists| ==> ListOk(s.chans, s.lists[s.queries[q]], s.queries[q]);
    SubscribersAreAmong(s, q);
    FewerThan(SubscribersOf(s, q), SubscriptionsOf(s, q), c);
  }

  lemma ServedIsConserved(s: System)
    requires Safe(s) && Refs(s) && LivePlaced(s)
    ensures Conserved(s) <==> AllServed(s) && MappedPolled(s)
  {
    hide Safe, Refs, LivePlaced, MappedPolled, SubscribersOf, SubscriptionsOf;
    if AllServed(s) {
      forall q ensures |SubscribersOf(s, q)| == |SubscriptionsOf(s, q)| {
        forall c: nat ensures c in SubscribersOf(s, q) <==> c in SubscriptionsOf(s, q) {
          SubscribersAreSubscriptions(s, q, c);
        }
        SubscribersDistinct(s, q);
        DistinctSize(SubscribersOf(s, q), SubscriptionsOf(s, q));
      }
    } else {
      var p: nat :| !ListServed(s, p);
      OrphanIsMissing(s, p);
    }
  }

  ghost predicate ConservedThroughout(steps: seq<Step>) {
    steps == [] || (ConservedThroughout(steps[..|steps| - 1]) && Conserved(Exec(steps)))
  }

  lemma {:induction false} ServedAndPolled(steps: seq<Step>)
    ensures ConservedThroughout(steps) <==> ServedThroughout(steps) && PolledThroughout(steps)
  {
    if steps != [] {
      hide Apply, Exec, Safe, Refs, LivePlaced, AllServed, MappedPolled, Conserved;
      ServedAndPolled(steps[..|steps| - 1]);
      EveryRunIsSafe(steps);
      EveryRunRefs(steps);
      EveryRunPlaces(steps);
      ServedIsConserved(Exec(steps));
    }
  }

  /**
   Exact conservation at lock granularity. Through a whole run each query has as many subscribers as
   subscriptions that have not left, and is polled while it is in the map and the root context lives, if and
   only if no step orphans a subscriber or inserts a query that nobody polls.
   */
  lemma {:induction false} ConservedExactly(steps: seq<Step>)
    ensures ConservedThroughout(steps) <==> NeverOrphans(steps) && NeverInsertsUnpolled(steps)
  {
    hide Exec;
    ServedAndPolled(steps);
    ServedExactly(steps);
    PolledExactly(steps);
  }

  // ----- a query that nobody polls -----

  /** A Subscribe that found no entry for the query starts a poller. */
  predicate StartsPoller(s: System, step: Step, q: string) {
    match step
    case Spawn(t, poller) => t in s.threads && s.threads[t] == Creating(q) && poller !in s.threads
    case _ => false
  }

  lemma OrdinaryPolls(s: System, step: Step, q: string)
    requires Ordinary(step) && step.t in s.threads && step.t in Apply(s, step).threads
    requires Polls(Apply(s, step).threads[step.t], q)
    ensures Polls(s.threads[step.t], q)
  {
    hide ApplyClient, ApplyPoller, Apply;
    if OfClient(step) {
      ClientIsClient(s, step);
      ClientPolls(s, step, step.t, q);
    } else {
      PollerIsPoller(s, step);
      PollerPolls(s, step, step.t, q);
    }
  }

  lemma ClientPolls(s: System, step: Step, t: nat, q: string)
    requires t in s.threads && t in ApplyClient(s, step, t).threads && Polls(ApplyClient(s, step, t).threads[t], q)
    ensures Polls(s.threads[t], q)
  {
    hide Joined, Parted, Closed;
  }

  lemma PollerPolls(s: System, step: Step, t: nat, q: string)
    requires t in s.threads && t in ApplyPoller(s, step, t).threads && Polls(ApplyPoller(s, step, t).threads[t], q)
    ensures Polls(s.threads[t], q)
  {
    hide Closed, Sent;
    if s.threads[t].Publishing? && s.threads[t].list < |s.lists| && t in s.lists[s.threads[t].list].readers {
      SentKept(s, t, s.threads[t].list);
    }
  }

  lemma QuietPolls(s: System, step: Step, u: nat, q: string)
    requires !Ordinary(step) && u in Apply(s, step).threads && Polls(Apply(s, step).threads[u], q)
    ensures (u in s.threads && Polls(s.threads[u], q)) || StartsPoller(s, step, q)
  {
    hide Taken;
    if step.Receive? && step.c < |s.chans| {
      TakenOnlyChannels(s, step.c);
    }
  }

  lemma NewPoller(s: System, step: Step, u: nat, q: string)
    requires u in Apply(s, step).threads && Polls(Apply(s, step).threads[u], q)
    ensures (u in s.threads && Polls(s.threads[u], q)) || StartsPoller(s, step, q)
  {
    hide Apply, StartsPoller, Polls;
    if !Ordinary(step) {
      QuietPolls(s, step, u, q);
    } else if step.t !in s.threads {
      NobodyThere(s, step);
    } else {
      OrdinaryMoves(s, step);
      if u == step.t {
        OrdinaryPolls(s, step, q);
      }
    }
  }

  /** A query nobody polls becomes polled by no other step. */
  lemma PollersAreSpawned(s: System, step: Step, q: string)
    requires !Polled(s, q)
    ensures Polled(Apply(s, step), q) <==> StartsPoller(s, step, q)
  {
    var s' := Apply(s, step);
    if StartsPoller(s, step, q) {
      assert step.poller in s'.threads && Polls(s'.threads[step.poller], q);
    } else if Polled(s', q) {
      hide Apply;
      var u :| u in s'.threads && Polls(s'.threads[u], q);
      NewPoller(s, step, u, q);
    }
  }

  /** The step sends to the subscribers of list p. */
  predicate SendsOn(s: System, step: Step, p: nat) {
    match step
    case Send(t) => t in s.threads && s.threads[t].Publishing? && s.threads[t].list == p
    case _ => false
  }

  ghost predicate SameStream(s: System, s': System, c: nat) {
    c < |s.chans| && c < |s'.chans| && Stream(s'.chans[c]) == Stream(s.chans[c])
  }

  lemma ClientStreams(s: System, step: Step, t: nat, c: nat)
    requires t in s.threads && c < |s.chans|
    ensures SameStream(s, ApplyClient(s, step, t), c)
  {
    hide Without;
  }

  lemma SentStreams(s: System, t: nat, p: nat, c: nat)
    requires Safe(s) && p < |s.lists| && t in s.lists[p].readers && c < |s.chans| && s.chans[c].home != p
    ensures SameStream(s, Sent(s, t, p), c)
  {
    var l := s.lists[p];
    assert ListOk(s.chans, l, p);
    assert l.readers[t].cursor < |l.subs| ==> l.subs[l.readers[t].cursor] in l.subs;
  }

  lemma PollerStreams(s: System, step: Step, t: nat, c: nat)
    requires Safe(s) && t in s.threads && c < |s.chans| && Ordinary(step) && step.t == t && !SendsOn(s, step, s.chans[c].home)
    ensures SameStream(s, ApplyPoller(s, step, t), c)
  {
    hide Safe, Sent;
    if step.Send? && s.threads[t].Publishing? && s.threads[t].list < |s.lists| && t in s.lists[s.threads[t].list].readers {
      SentStreams(s, t, s.threads[t].list, c);
    }
  }

  lemma TakenStreams(s: System, d: nat, c: nat)
    requires d < |s.chans| && c < |s.chans|
    ensures SameStream(s, Taken(s, d), c)
  {
    if s.chans[d].buffer != [] {
      assert [s.chans[d].buffer[0]] + s.chans[d].buffer[1..] == s.chans[d].buffer;
    }
  }

  lemma QuietStreams(s: System, step: Step, c: nat)
    requires !Ordinary(step) && c < |s.chans|
    ensures SameStream(s, Apply(s, step), c)
  {
    hide Taken;
    if step.Receive? && step.c < |s.chans| {
      TakenStreams(s, step.c, c);
    }
  }

  /** What a channel is sent comes from the publishes on its list. */
  lemma StepStreams(s: System, step: Step, c: nat)
    requires Safe(s) && c < |s.chans| && !SendsOn(s, step, s.chans[c].home)
    ensures SameStream(s, Apply(s, step), c)
  {
    hide Apply, ApplyClient, ApplyPoller, Safe, SendsOn;
    if !Ordinary(step) {
      QuietStreams(s, step, c);
    } else if step.t !in s.threads {
      NobodyThere(s, step);
    } else if OfClient(step) {
      ClientIsClient(s, step);
      ClientStreams(s, step, step.t, c);
    } else {
      PollerIsPoller(s, step);
      PollerStreams(s, step, step.t, c);
    }
  }

  lemma SenderPolls(s: System, step: Step, p: nat, q: string)
    requires Refs(s) && SendsOn(s, step, p) && p < |s.lists| && s.lists[p].query == q
    ensures Polled(s, q)
  {
    hide Refs;
    MapAndThread(s, step.t);
    assert Polls(s.threads[step.t], q);
  }

  /** A query nobody polls: its channels are sent nothing. */
  lemma UnpolledIsSilent(s: System, step: Step, q: string, c: nat)
    requires Safe(s) && Refs(s) && !Polled(s, q) && ChannelFor(s, c, q)
    ensures SameStream(s, Apply(s, step), c) && ChannelFor(Apply(s, step), c, q)
  {
    hide Safe, Apply, Refs, Polled, SendsOn;
    if SendsOn(s, step, s.chans[c].home) {
      SenderPolls(s, step, s.chans[c].home, q);
    } else {
      StepStreams(s, step, c);
      StepKeepsHomes(s, step);
    }
  }

  /** After `steps`, no Subscribe starts a poller of the query. */
  ghost predicate NeverStarts(steps: seq<Step>, more: seq<Step>, q: string) {
    more == [] ||
    (NeverStarts(steps, more[..|more| - 1], q)
     && !StartsPoller(Exec(steps + more[..|more| - 1]), more[|more| - 1], q))
  }

  /** The subscribers of a query nobody polls get nothing, in every continuation, until a Subscribe starts a new poller. */
  lemma {:induction false} UnpolledGetNothing(steps: seq<Step>, more: seq<Step>, q: string, c: nat)
    requires !Polled(Exec(steps), q) && ChannelFor(Exec(steps), c, q) && NeverStarts(steps, more, q)
    ensures !Polled(Exec(steps + more), q) && ChannelFor(Exec(steps + more), c, q)
    ensures SameStream(Exec(steps), Exec(steps + more), c)
  {
    hide Exec, Apply, Polled, StartsPoller, ChannelFor, Safe, Refs;
    if more == [] {
      assert steps + more == steps;
      ForIsThere(Exec(steps), c, q);
    } else {
      var init, last := more[..|more| - 1], more[|more| - 1];
      UnpolledGetNothing(steps, init, q, c);
      EveryRunIsSafe(steps + init);
      EveryRunRefs(steps + init);
      PollersAreSpawned(Exec(steps + init), last, q);
      UnpolledIsSilent(Exec(steps + init), last, q, c);
      assert steps + more == (steps + init) + [last];
      ExecNext(steps + init, last);
    }
  }

  lemma ForIsThere(s: System, c: nat, q: string)
    requires ChannelFor(s, c, q)
    ensures c < |s.chans|
  {
  }

  // ----- later Subscribes do not help -----

  ghost predicate NoCreator(s: System, q: string) {
    forall t :: t in s.threads ==> s.threads[t] != Creating(q)
  }

  lemma ClientCreates(s: System, step: Step, t: nat, q: string)
    requires t in s.threads && t in ApplyClient(s, step, t).threads && s.threads[t] != Creating(q)
    ensures ApplyClient(s, step, t).threads[t] != Creating(q)
  {
    hide Joined, Parted, Closed;
    match s.threads[t]
    case Attaching(_, p) => if Writable(s, p) { JoinedKept(s, p, t); }
    case Detaching(_, c, p) => if Writable(s, p) { PartedKept(s, p, c, t); }
    case Closing(_, p) => if Writable(s, p) { ClosedKept(s, p, t); }
    case _ =>
  }

  lemma PollerCreates(s: System, step: Step, t: nat, q: string)
    requires t in s.threads && t in ApplyPoller(s, step, t).threads && s.threads[t] != Creating(q)
    ensures ApplyPoller(s, step, t).threads[t] != Creating(q)
  {
    hide Closed, Sent;
    match s.threads[t]
    case Publishing(_, p) => if p < |s.lists| && t in s.lists[p].readers { SentKept(s, t, p); }
    case ExitLocked(r) => if r in s.queries && Writable(s, s.queries[r]) { ClosedKept(s, s.queries[r], t); }
    case _ =>
  }

  lemma QuietCreates(s: System, step: Step, q: string)
    requires !Ordinary(step) && NoCreator(s, q) && q in s.queries
    ensures NoCreator(Apply(s, step), q)
  {
    hide Taken;
    if step.Receive? && step.c < |s.chans| {
      TakenOnlyChannels(s, step.c);
    }
  }

  /** A Subscribe that finds the entry does not start a poller. */
  lemma StepCreates(s: System, step: Step, q: string)
    requires NoCreator(s, q) && q in s.queries
    ensures NoCreator(Apply(s, step), q)
  {
    hide Apply, ApplyClient, ApplyPoller;
    if !Ordinary(step) {
      QuietCreates(s, step, q);
    } else if step.t !in s.threads {
      NobodyThere(s, step);
    } else {
      OrdinaryMoves(s, step);
      if OfClient(step) {
        ClientIsClient(s, step);
        if step.t in Apply(s, step).threads { ClientCreates(s, step, step.t, q); }
      } else {
        PollerIsPoller(s, step);
        if step.t in Apply(s, step).threads { PollerCreates(s, step, step.t, q); }
      }
    }
  }

  /** Up to here, the entry has stayed in the map. */
  ghost predicate EntryStays(steps: seq<Step>, more: seq<Step>, q: string) {
    q in Exec(steps + more).queries && (more == [] || EntryStays(steps, more[..|more| - 1], q))
  }

  lemma {:induction false} NobodyCreates(steps: seq<Step>, more: seq<Step>, q: string)
    requires NoCreator(Exec(steps), q) && EntryStays(steps, more, q)
    ensures NoCreator(Exec(steps + more), q) && NeverStarts(steps, more, q)
  {
    hide Exec, Apply;
    if more == [] {
      assert steps + more == steps;
    } else {
      var init, last := more[..|more| - 1], more[|more| - 1];
      NobodyCreates(steps, init, q);
      StepCreates(Exec(steps + init), last, q);
      assert steps + more == (steps + init) + [last];
      ExecNext(steps + init, last);
    }
  }

  // ----- such a run -----

  /** The new poller ticks before its list is in the map, finds no entry, and gives up. */
  const GIVES_UP := [CallSubscribe(0, "q")] + [LookUp(0)] + [Spawn(0, 1)]
    + [Tick(1)] + [LockAccess(1)] + [CloseOnExit(1)] + [DeleteOnExit(1)]

  const UNPOLLED := GIVES_UP + [Insert(0)] + [Attach(0)]

  function GivingUp(poller: Thread, writer: Option<nat>): System {
    SPAWNED.(threads := map[0 := Inserting("q", 0), 1 := poller], writer := writer)
  }

  lemma GivingUpMoves(before: Thread, after: Thread, writer: Option<nat>)
    ensures To(GivingUp(before, writer), 1, after) == GivingUp(after, writer)
  {
  }

  lemma GivingUpSteps()
    ensures Apply(GivingUp(Waiting("q"), None), Tick(1)) == GivingUp(Exiting("q"), None)
    ensures Apply(GivingUp(Exiting("q"), None), LockAccess(1)) == GivingUp(ExitLocked("q"), Some(1))
  {
    hide ApplyClient, Closed, Sent, To;
    GivingUpMoves(Waiting("q"), Exiting("q"), None);
    GivingUpMoves(Exiting("q"), ExitLocked("q"), Some(1));
  }

  lemma NothingToClose()
    ensures Apply(GivingUp(ExitLocked("q"), Some(1)), CloseOnExit(1)) == GivingUp(ExitClosed("q"), Some(1))
  {
    hide ApplyClient, Closed, Sent, To;
    GivingUpMoves(ExitLocked("q"), ExitClosed("q"), Some(1));
  }

  lemma GivenUpStep()
    ensures Apply(GivingUp(ExitClosed("q"), Some(1)), DeleteOnExit(1)) == GivingUp(Gone, None)
  {
    hide ApplyClient, Closed, Sent;
    var none: map<string, nat> := map[];
    assert none - {"q"} == none;
  }

  lemma GivesUpRun()
    ensures Exec(GIVES_UP) == GivingUp(Gone, None)
  {
    FirstSteps();
    GivingUpSteps();
    NothingToClose();
    GivenUpStep();
    StartRun();
    assert SPAWNED == GivingUp(Waiting("q"), None);
    hide Exec, Apply, GivingUp, CALLED, MISSED, SPAWNED, EMPTY;
    var a := [CallSubscribe(0, "q")];
    var b := a + [LookUp(0)] + [Spawn(0, 1)];
    assert [] + a == a;
    ExecNext([], CallSubscribe(0, "q"));
    ExecNext(a, LookUp(0));
    ExecNext(a + [LookUp(0)], Spawn(0, 1));
    ExecNext(b, Tick(1));
    ExecNext(b + [Tick(1)], LockAccess(1));
    ExecNext(b + [Tick(1)] + [LockAccess(1)], CloseOnExit(1));
    ExecNext(b + [Tick(1)] + [LockAccess(1)] + [CloseOnExit(1)], DeleteOnExit(1));
  }

  const UNPOLLED_STATE := UnreadState(ALONE, 0, map[], 0, Gone)

  lemma InsertedAfterwards()
    ensures Apply(Apply(GivingUp(Gone, None), Insert(0)), Attach(0)) == UNPOLLED_STATE
  {
    hide ApplyPoller, Parted, Closed;
    var none: seq<nat> := [];
    var l := SubList("q", none, {}, map[], []);
    var s := Apply(GivingUp(Gone, None), Insert(0));
    assert none + [0] == [0] && l.keys + {0} == {0} && s.lists == [l] && s.queries == map["q" := 0];
    assert s.threads == map[0 := Attaching("q", 0), 1 := Gone];
    assert [l][0 := l.(subs := [0], keys := {0})] == [SubList("q", [0], {0}, map[], [])];
    assert Joined(s, 0).chans == [Chan([], [], false, 0, 0, None)];
    assert Joined(s, 0).lists == [SubList("q", [0], {0}, map[], [])] + ALONE.extra;
  }

  lemma UnpolledRun()
    ensures Exec(UNPOLLED) == UNPOLLED_STATE
  {
    GivesUpRun();
    InsertedAfterwards();
    hide Exec, Apply, GivingUp, UNPOLLED_STATE, GIVES_UP;
    ExecNext(GIVES_UP, Insert(0));
    ExecNext(GIVES_UP + [Insert(0)], Attach(0));
  }

  /**
   Nobody is orphaned or closed and the subscriber is in the map's list, but nobody polls its query, and no
   Subscribe is about to.
   */
  lemma SubscriberWithoutPoller()
    ensures var s := Exec(UNPOLLED);
      && AllServed(s) && NoneClosed(s) && !s.rootDone && 0 in s.threads && s.threads[0] == Subscribed(0)
      && HasSubscribers(s, "q") && !Polled(s, "q") && NoCreator(s, "q")
      && ChannelFor(s, 0, "q") && Stream(s.chans[0]) == []
  {
    hide Exec;
    UnpolledRun();
    forall p: nat ensures ListServed(UNPOLLED_STATE, p) {
      assert |UNPOLLED_STATE.lists| == 1;
    }
  }

  /** It never gets a value as long as the entry stays in the map, whoever else subscribes. */
  lemma {:induction false} SubscriberWithoutValues(more: seq<Step>)
    requires EntryStays(UNPOLLED, more, "q")
    ensures |Exec(UNPOLLED + more).chans| > 0 && Stream(Exec(UNPOLLED + more).chans[0]) == []
  {
    hide UNPOLLED, Exec, Polled, ChannelFor;
    SubscriberWithoutPoller();
    NobodyCreates(UNPOLLED, more, "q");
    UnpolledGetNothing(UNPOLLED, more, "q", 0);
  }

  // ----- at most one poller -----

  ghost predicate AtMostOne(s: System, q: string) {
    forall t, u ::
      (t in s.threads && u in s.threads && Polls(s.threads[t], q) && Polls(s.threads[u], q)) ==> t == u
  }

  /** A Subscribe starts a poller while the query has one. */
  ghost predicate StartsSecond(s: System, step: Step, q: string) {
    StartsPoller(s, step, q) && Polled(s, q)
  }

  lemma StartedPolls(s: System, step: Step, q: string)
    requires StartsPoller(s, step, q)
    ensures var s' := Apply(s, step);
      && step.poller in s'.threads && Polls(s'.threads[step.poller], q) && step.poller !in s.threads
      && forall u :: u in s.threads && Polls(s.threads[u], q) ==> u in s'.threads && Polls(s'.threads[u], q)
    ensures var s' := Apply(s, step);
      forall u :: u in s'.threads && u != step.poller && Polls(s'.threads[u], q) ==> u in s.threads && Polls(s.threads[u], q)
  {
  }

  /** A step keeps at most one poller if and only if it does not start another. */
  lemma StepKeepsOneExactly(s: System, step: Step, q: string)
    requires AtMostOne(s, q)
    ensures AtMostOne(Apply(s, step), q) <==> !StartsSecond(s, step, q)
  {
    hide Apply, StartsPoller;
    if StartsPoller(s, step, q) {
      StartedPolls(s, step, q);
      if Polled(s, q) {
        var u := APoller(s, q);
        assert u in Apply(s, step).threads && Polls(Apply(s, step).threads[u], q);
      }
    } else {
      forall u | u in Apply(s, step).threads && Polls(Apply(s, step).threads[u], q)
        ensures u in s.threads && Polls(s.threads[u], q)
      {
        NewPoller(s, step, u, q);
      }
    }
  }

  ghost predicate OneThroughout(steps: seq<Step>, q: string) {
    steps == [] || (OneThroughout(steps[..|steps| - 1], q) && AtMostOne(Exec(steps), q))
  }

  ghost predicate NeverStartsSecond(steps: seq<Step>, q: string) {
    steps == [] ||
    (NeverStartsSecond(steps[..|steps| - 1], q) && !StartsSecond(Exec(steps[..|steps| - 1]), steps[|steps| - 1], q))
  }

  lemma {:induction false} OneNow(steps: seq<Step>, q: string)
    requires OneThroughout(steps, q)
    ensures AtMostOne(Exec(steps), q)
  {
  }

  /** Through a whole run a query has at most one poller, if and only if no Subscribe starts one while it has one. */
  lemma {:induction false} OnePollerExactly(steps: seq<Step>, q: string)
    ensures OneThroughout(steps, q) <==> NeverStartsSecond(steps, q)
  {
    if steps != [] {
      hide Apply, AtMostOne, StartsSecond;
      var init, last := steps[..|steps| - 1], steps[|steps| - 1];
      OnePollerExactly(init, q);
      if OneThroughout(init, q) {
        OneNow(init, q);
        StepKeepsOneExactly(Exec(init), last, q);
        assert Exec(steps) == Apply(Exec(init), last);
      }
    }
  }

  /** Two Subscribe calls that overlap leave two pollers, though nobody has unsubscribed. */
  lemma OverlappingSubscribesStartTwo()
    ensures !AtMostOne(Exec(R.BOTH_MISS), "q")
  {
    hide Exec;
    R.BothMiss();
    assert 2 in Exec(R.BOTH_MISS).threads && 3 in Exec(R.BOTH_MISS).threads;
  }
}
