/**
 What threads, the map and the channels of the query publisher refer to, in every
 run: lists that exist and were created for the right query, a read lock that its
 publisher holds, and lists that hold every channel that has not left.
 */
module PubSubRefs {
  import opened Types
  import opened PubSub
  import opened PubSubSteps

  predicate RefOk(lists: seq<SubList>, q: string, p: nat) {
    p < |lists| && lists[p].query == q
  }

  predicate ThreadOk(lists: seq<SubList>, t: nat, thread: Thread) {
    match thread
    case Inserting(q, p) => RefOk(lists, q, p)
    case Attaching(q, p) => RefOk(lists, q, p)
    case Detaching(q, _, p) => RefOk(lists, q, p)
    case Checking(q, p) => RefOk(lists, q, p)
    case Closing(q, p) => RefOk(lists, q, p)
    case Starting(q, _, p) => RefOk(lists, q, p)
    case Publishing(q, p) => RefOk(lists, q, p) && t in lists[p].readers
    case _ => true
  }

  ghost predicate Refs(s: System) {
    && (forall q :: q in s.queries ==> RefOk(s.lists, q, s.queries[q]))
    && (forall t :: t in s.threads ==> ThreadOk(s.lists, t, s.threads[t]))
  }

  /** Lists stay where they are, keep their query, and lose no reader but t. */
  ghost predicate ListsKept(lists: seq<SubList>, lists': seq<SubList>, t: nat) {
    && |lists| <= |lists'|
    && forall p :: 0 <= p < |lists| ==>
         lists'[p].query == lists[p].query && forall u :: u in lists[p].readers && u != t ==> u in lists'[p].readers
  }

  lemma OthersKept(lists: seq<SubList>, lists': seq<SubList>, t: nat, u: nat, thread: Thread)
    requires ListsKept(lists, lists', t) && u != t && ThreadOk(lists, u, thread)
    ensures ThreadOk(lists', u, thread)
  {
  }

  /** One thread moves, and the map changes only by sound entries. */
  lemma MoveKeeps(s: System, s': System, t: nat)
    requires Refs(s) && ListsKept(s.lists, s'.lists, t)
    requires t in s'.threads && ThreadOk(s'.lists, t, s'.threads[t])
    requires forall u :: u in s'.threads && u != t ==>
      (u in s.threads && s'.threads[u] == s.threads[u]) || s'.threads[u].Waiting?
    requires forall q :: q in s'.queries ==> (q in s.queries && s'.queries[q] == s.queries[q]) || RefOk(s'.lists, q, s'.queries[q])
    ensures Refs(s')
  {
    forall u | u in s'.threads ensures ThreadOk(s'.lists, u, s'.threads[u]) {
      if u != t && u in s.threads && s'.threads[u] == s.threads[u] {
        OthersKept(s.lists, s'.lists, t, u, s.threads[u]);
      }
    }
    forall q | q in s'.queries ensures RefOk(s'.lists, q, s'.queries[q]) {
      assert q in s.queries ==> RefOk(s.lists, q, s.queries[q]);
    }
  }

  lemma JoinedKept(s: System, p: nat, t: nat)
    requires p < |s.lists|
    ensures ListsKept(s.lists, Joined(s, p).lists, t)
    ensures Joined(s, p).threads == s.threads && Joined(s, p).queries == s.queries
  {
  }

  lemma PartedKept(s: System, p: nat, c: nat, t: nat)
    requires p < |s.lists|
    ensures ListsKept(s.lists, Parted(s, p, c).lists, t)
    ensures Parted(s, p, c).threads == s.threads && Parted(s, p, c).queries == s.queries
  {
  }

  lemma ClosedKept(s: System, p: nat, t: nat)
    requires p < |s.lists|
    ensures ListsKept(s.lists, Closed(s, p).lists, t)
    ensures Closed(s, p).threads == s.threads && Closed(s, p).queries == s.queries
  {
  }

  lemma SentOnlyData(s: System, t: nat, p: nat)
    requires p < |s.lists| && t in s.lists[p].readers
    ensures Sent(s, t, p).threads == s.threads && Sent(s, t, p).queries == s.queries
  {
  }

  lemma SentReaders(s: System, t: nat, p: nat)
    requires p < |s.lists| && t in s.lists[p].readers
    ensures |Sent(s, t, p).lists| == |s.lists| && forall r :: 0 <= r < |s.lists| ==>
      Sent(s, t, p).lists[r].query == s.lists[r].query && Sent(s, t, p).lists[r].readers.Keys == s.lists[r].readers.Keys
  {
  }

  lemma SentKept(s: System, t: nat, p: nat)
    requires p < |s.lists| && t in s.lists[p].readers
    ensures ListsKept(s.lists, Sent(s, t, p).lists, t) && forall r :: 0 <= r < |s.lists| ==>
      Sent(s, t, p).lists[r].readers.Keys == s.lists[r].readers.Keys
    ensures Sent(s, t, p).threads == s.threads && Sent(s, t, p).queries == s.queries
  {
    hide Sent;
    SentOnlyData(s, t, p);
    SentReaders(s, t, p);
    forall r | 0 <= r < |s.lists| ensures forall u :: u in s.lists[r].readers ==> u in Sent(s, t, p).lists[r].readers {
      assert Sent(s, t, p).lists[r].readers.Keys == s.lists[r].readers.Keys;
    }
  }

  lemma ClientRefs(s: System, step: Step, t: nat)
    requires Refs(s) && t in s.threads
    ensures Refs(ApplyClient(s, step, t))
  {
    hide Joined, Parted, Closed, Refs;
    var s', thread := ApplyClient(s, step, t), s.threads[t];
    assert ThreadOk(s.lists, t, thread) && MapOk(s) by { MapAndThread(s, t); }
    match thread
    case Attaching(_, p) => JoinedKept(s, p, t); if s' != s { MoveKeeps(s, s', t); }
    case Detaching(_, c, p) => PartedKept(s, p, c, t); if s' != s { MoveKeeps(s, s', t); }
    case Closing(_, p) => ClosedKept(s, p, t); if s' != s { MoveKeeps(s, s', t); }
    case _ => if s' != s { MoveKeeps(s, s', t); }
  }

  ghost predicate MapOk(s: System) {
    forall q :: q in s.queries ==> RefOk(s.lists, q, s.queries[q])
  }

  lemma MapAndThread(s: System, t: nat)
    requires Refs(s) && t in s.threads
    ensures MapOk(s) && ThreadOk(s.lists, t, s.threads[t])
  {
  }

  lemma PublishingRefs(s: System, step: Step, t: nat)
    requires Refs(s) && t in s.threads && s.threads[t].Publishing?
    ensures Refs(ApplyPoller(s, step, t))
  {
    hide Sent, Refs;
    var s', p := ApplyPoller(s, step, t), s.threads[t].list;
    assert ThreadOk(s.lists, t, s.threads[t]) && MapOk(s) by { MapAndThread(s, t); }
    SentKept(s, t, p);
    if s' != s {
      MoveKeeps(s, s', t);
    }
  }

  lemma ExitRefs(s: System, step: Step, t: nat)
    requires Refs(s) && t in s.threads && (s.threads[t].ExitLocked? || s.threads[t].ExitClosed?)
    ensures Refs(ApplyPoller(s, step, t))
  {
    hide Closed, Refs;
    var s', q := ApplyPoller(s, step, t), s.threads[t].query;
    assert MapOk(s) by { MapAndThread(s, t); }
    if q in s.queries {
      ClosedKept(s, s.queries[q], t);
    }
    if s' != s {
      MoveKeeps(s, s', t);
    }
  }

  lemma StartingRefs(s: System, step: Step, t: nat)
    requires Refs(s) && t in s.threads && s.threads[t].Starting?
    ensures Refs(ApplyPoller(s, step, t))
  {
    hide Refs;
    var s' := ApplyPoller(s, step, t);
    assert ThreadOk(s.lists, t, s.threads[t]) && MapOk(s) by { MapAndThread(s, t); }
    if s' != s {
      MoveKeeps(s, s', t);
    }
  }

  lemma PollerRefs(s: System, step: Step, t: nat)
    requires Refs(s) && t in s.threads
    ensures Refs(ApplyPoller(s, step, t))
  {
    match s.threads[t]
    case ExitLocked(_) => ExitRefs(s, step, t);
    case ExitClosed(_) => ExitRefs(s, step, t);
    case Publishing(_, _) => PublishingRefs(s, step, t);
    case Starting(_, _, _) => StartingRefs(s, step, t);
    case _ => QuietPollerRefs(s, step, t);
  }

  lemma QuietPollerRefs(s: System, step: Step, t: nat)
    requires Refs(s) && t in s.threads && !s.threads[t].ExitLocked? && !s.threads[t].ExitClosed?
    requires !s.threads[t].Publishing? && !s.threads[t].Starting?
    ensures Refs(ApplyPoller(s, step, t))
  {
    hide Refs;
    var s' := ApplyPoller(s, step, t);
    assert MapOk(s) by { MapAndThread(s, t); }
    if s' != s {
      MoveKeeps(s, s', t);
    }
  }

  lemma LookUpRefs(s: System, t: nat)
    requires Refs(s) && t in s.threads
    ensures Refs(LookedUp(s, t))
  {
    hide Refs;
    assert ThreadOk(s.lists, t, s.threads[t]) && MapOk(s) by { MapAndThread(s, t); }
    MoveKeeps(s, LookedUp(s, t), t);
  }

  lemma SpawnRefs(s: System, t: nat, poller: nat)
    requires Refs(s)
    ensures Refs(Apply(s, Spawn(t, poller)))
  {
    hide Refs;
    var s' := Apply(s, Spawn(t, poller));
    if s' != s {
      assert MapOk(s) by { MapAndThread(s, t); }
      MoveKeeps(s, s', t);
    }
  }

  lemma CallRefs(s: System, t: nat, thread: Thread)
    requires Refs(s) && t !in s.threads && (thread.Subscribing? || thread.Leaving?)
    ensures Refs(To(s, t, thread))
  {
    hide Refs;
    MoveKeeps(s, To(s, t, thread), t);
  }

  lemma SameRefs(s: System, s': System)
    requires Refs(s) && s'.threads == s.threads && s'.lists == s.lists && s'.queries == s.queries
    ensures Refs(s')
  {
  }

  lemma StepKeepsRefs(s: System, step: Step)
    requires Refs(s)
    ensures Refs(Apply(s, step))
  {
    hide ApplyClient, ApplyPoller, LookedUp, Taken, Refs;
    match step
    case Receive(c) =>
      if c < |s.chans| {
        TakenOnlyChannels(s, c);
        SameRefs(s, Taken(s, c));
      }
    case Spawn(t, poller) => SpawnRefs(s, t, poller);
    case LookUp(t) => if t in s.threads { LookUpRefs(s, t); }
    case CallSubscribe(t, q) => if t !in s.threads { CallRefs(s, t, Subscribing(q)); }
    case CallUnsubscribe(t, q, c) => if t !in s.threads { CallRefs(s, t, Leaving(q, c)); }
    case CancelRoot => SameRefs(s, s.(rootDone := true));
    case _ =>
      if step.t in s.threads {
        ClientRefs(s, step, step.t);
        PollerRefs(s, step, step.t);
      }
  }

  lemma TakenOnlyChannels(s: System, c: nat)
    requires c < |s.chans|
    ensures Taken(s, c) == s.(chans := Taken(s, c).chans)
  {
  }

  lemma {:induction false} EveryRunRefs(steps: seq<Step>)
    ensures Refs(Exec(steps))
  {
    if steps != [] {
      hide Apply, Refs;
      EveryRunRefs(steps[..|steps| - 1]);
      StepKeepsRefs(Exec(steps[..|steps| - 1]), steps[|steps| - 1]);
    }
  }

  // ----- channels that have not left -----

  predicate Lives(s: System, c: nat) {
    c < |s.chans| && s.chans[c].until == None
  }

  /** A channel that has not left is in the list it was created in. */
  ghost predicate LivePlaced(s: System) {
    forall c: nat :: Lives(s, c) ==> s.chans[c].home < |s.lists| && c in s.lists[s.chans[c].home].subs
  }

  lemma JoinedPlaced(s: System, p: nat)
    requires LivePlaced(s) && p < |s.lists|
    ensures LivePlaced(Joined(s, p))
  {
    var s' := Joined(s, p);
    forall d: nat | Lives(s', d) ensures s'.chans[d].home < |s'.lists| && d in s'.lists[s'.chans[d].home].subs {
      assert d < |s.chans| ==> Lives(s, d);
    }
  }

  lemma PartedPlaced(s: System, p: nat, c: nat)
    requires LivePlaced(s) && Safe(s) && p < |s.lists|
    ensures LivePlaced(Parted(s, p, c))
  {
    var s', l := Parted(s, p, c), s.lists[p];
    assert ListOk(s.chans, l, p);
    forall d: nat | Lives(s', d) ensures s'.chans[d].home < |s'.lists| && d in s'.lists[s'.chans[d].home].subs {
      WithoutMember(l.subs, c, d);
    }
  }

  lemma ClosedPlaced(s: System, p: nat)
    requires LivePlaced(s) && p < |s.lists|
    ensures LivePlaced(Closed(s, p))
  {
    var s' := Closed(s, p);
    forall d: nat | Lives(s', d) ensures s'.chans[d].home < |s'.lists| && d in s'.lists[s'.chans[d].home].subs {
      assert Lives(s, d);
    }
  }

  lemma SentPlaced(s: System, t: nat, p: nat)
    requires LivePlaced(s) && p < |s.lists| && t in s.lists[p].readers
    ensures LivePlaced(Sent(s, t, p))
  {
    var s' := Sent(s, t, p);
    forall d: nat | Lives(s', d) ensures s'.chans[d].home < |s'.lists| && d in s'.lists[s'.chans[d].home].subs {
      assert Lives(s, d);
    }
  }

  /** The channels' whereabouts are the same, and the lists have the same subscribers. */
  lemma SamePlaces(m: System, s': System)
    requires LivePlaced(m) && |m.lists| <= |s'.lists| && |s'.chans| == |m.chans|
    requires forall c :: 0 <= c < |m.chans| ==> s'.chans[c].home == m.chans[c].home && s'.chans[c].until == m.chans[c].until
    requires forall p :: 0 <= p < |m.lists| ==> s'.lists[p].subs == m.lists[p].subs
    ensures LivePlaced(s')
  {
    forall d: nat | Lives(s', d) ensures s'.chans[d].home < |s'.lists| && d in s'.lists[s'.chans[d].home].subs {
      assert Lives(m, d);
    }
  }

  lemma ClientPlaced(s: System, step: Step, t: nat)
    requires LivePlaced(s) && Safe(s) && t in s.threads
    ensures LivePlaced(ApplyClient(s, step, t))
  {
    hide Joined, Parted, Closed, LivePlaced, Safe;
    var s' := ApplyClient(s, step, t);
    if step.Attach? && s.threads[t].Attaching? && Writable(s, s.threads[t].list) {
      JoinedPlaced(s, s.threads[t].list);
      SamePlaces(Joined(s, s.threads[t].list), s');
    } else if step.Detach? && s.threads[t].Detaching? && Writable(s, s.threads[t].list) {
      PartedPlaced(s, s.threads[t].list, s.threads[t].channel);
      SamePlaces(Parted(s, s.threads[t].list, s.threads[t].channel), s');
    } else if step.CloseIdle? && s.threads[t].Closing? && Writable(s, s.threads[t].list) {
      ClosedPlaced(s, s.threads[t].list);
      SamePlaces(Closed(s, s.threads[t].list), s');
    } else {
      SamePlaces(s, s');
    }
  }

  lemma ExitPlaced(s: System, step: Step, t: nat)
    requires LivePlaced(s) && t in s.threads && s.threads[t].ExitLocked?
    ensures LivePlaced(ApplyPoller(s, step, t))
  {
    hide Closed, LivePlaced;
    var s', q := ApplyPoller(s, step, t), s.threads[t].query;
    if step.CloseOnExit? && q in s.queries && Writable(s, s.queries[q]) {
      ClosedPlaced(s, s.queries[q]);
      SamePlaces(Closed(s, s.queries[q]), s');
    } else {
      SamePlaces(s, s');
    }
  }

  lemma PublishingPlaced(s: System, step: Step, t: nat)
    requires LivePlaced(s) && t in s.threads && s.threads[t].Publishing?
    ensures LivePlaced(ApplyPoller(s, step, t))
  {
    hide Sent, LivePlaced;
    var p := s.threads[t].list;
    if step.Send? && p < |s.lists| && t in s.lists[p].readers {
      SentPlaced(s, t, p);
    } else {
      SamePlaces(s, ApplyPoller(s, step, t));
    }
  }

  lemma PollerPlaced(s: System, step: Step, t: nat)
    requires LivePlaced(s) && t in s.threads
    ensures LivePlaced(ApplyPoller(s, step, t))
  {
    hide LivePlaced;
    if s.threads[t].ExitLocked? {
      hide ApplyPoller;
      ExitPlaced(s, step, t);
    } else if s.threads[t].Publishing? {
      hide ApplyPoller;
      PublishingPlaced(s, step, t);
    } else {
      SamePlaces(s, ApplyPoller(s, step, t));
    }
  }

  lemma QuietPlaced(s: System, step: Step)
    requires LivePlaced(s) && !Ordinary(step)
    ensures LivePlaced(Apply(s, step))
  {
    hide LivePlaced;
    SamePlaces(s, Apply(s, step));
  }

  lemma StepKeepsPlaced(s: System, step: Step)
    requires LivePlaced(s) && Safe(s)
    ensures LivePlaced(Apply(s, step))
  {
    hide Apply, ApplyClient, ApplyPoller, Safe, LivePlaced;
    if !Ordinary(step) {
      QuietPlaced(s, step);
    } else if step.t !in s.threads {
      NobodyThere(s, step);
    } else if OfClient(step) {
      ClientIsClient(s, step);
      ClientPlaced(s, step, step.t);
    } else {
      PollerIsPoller(s, step);
      PollerPlaced(s, step, step.t);
    }
  }

  lemma NothingPlaced()
    ensures LivePlaced(EMPTY)
  {
  }

  lemma {:induction false} EveryRunPlaces(steps: seq<Step>)
    ensures LivePlaced(Exec(steps))
  {
    if steps == [] {
      NothingPlaced();
    } else {
      hide Apply, LivePlaced, Safe;
      EveryRunPlaces(steps[..|steps| - 1]);
      EveryRunIsSafe(steps[..|steps| - 1]);
      StepKeepsPlaced(Exec(steps[..|steps| - 1]), steps[|steps| - 1]);
    }
  }

  // ----- channels keep their list, and lists their query -----

  ghost predicate HomesKept(s: System, s': System) {
    && |s.chans| <= |s'.chans| && |s.lists| <= |s'.lists|
    && (forall c :: 0 <= c < |s.chans| ==> s'.chans[c].home == s.chans[c].home)
    && (forall p :: 0 <= p < |s.lists| ==> s'.lists[p].query == s.lists[p].query)
  }

  /** The channel was made for the query. */
  predicate ChannelFor(s: System, c: nat, q: string) {
    c < |s.chans| && s.chans[c].home < |s.lists| && s.lists[s.chans[c].home].query == q
  }

  lemma JoinedHomes(s: System, p: nat)
    requires p < |s.lists|
    ensures HomesKept(s, Joined(s, p))
  {
  }

  lemma PartedHomes(s: System, p: nat, c: nat)
    requires p < |s.lists|
    ensures HomesKept(s, Parted(s, p, c))
  {
  }

  lemma ClosedHomes(s: System, p: nat)
    requires p < |s.lists|
    ensures HomesKept(s, Closed(s, p))
  {
  }

  lemma SentHomes(s: System, t: nat, p: nat)
    requires p < |s.lists| && t in s.lists[p].readers
    ensures HomesKept(s, Sent(s, t, p))
  {
  }

  lemma TakenHomes(s: System, c: nat)
    requires c < |s.chans|
    ensures HomesKept(s, Taken(s, c))
  {
  }

  lemma ClientHomes(s: System, step: Step, t: nat)
    requires t in s.threads
    ensures HomesKept(s, ApplyClient(s, step, t))
  {
    hide Joined, Parted, Closed;
    match s.threads[t]
    case Attaching(_, p) => if Writable(s, p) { JoinedHomes(s, p); }
    case Detaching(_, c, p) => if Writable(s, p) { PartedHomes(s, p, c); }
    case Closing(_, p) => if Writable(s, p) { ClosedHomes(s, p); }
    case _ =>
  }

  lemma PublishingHomes(s: System, step: Step, t: nat)
    requires t in s.threads && s.threads[t].Publishing?
    ensures HomesKept(s, ApplyPoller(s, step, t))
  {
    hide Sent;
    var p := s.threads[t].list;
    if p < |s.lists| && t in s.lists[p].readers {
      SentHomes(s, t, p);
    }
  }

  lemma ExitHomes(s: System, step: Step, t: nat)
    requires t in s.threads && s.threads[t].ExitLocked?
    ensures HomesKept(s, ApplyPoller(s, step, t))
  {
    hide Closed;
    var q := s.threads[t].query;
    if q in s.queries && Writable(s, s.queries[q]) {
      ClosedHomes(s, s.queries[q]);
    }
  }

  lemma PollerHomes(s: System, step: Step, t: nat)
    requires t in s.threads
    ensures HomesKept(s, ApplyPoller(s, step, t))
  {
    if s.threads[t].Publishing? {
      hide ApplyPoller;
      PublishingHomes(s, step, t);
    } else if s.threads[t].ExitLocked? {
      hide ApplyPoller;
      ExitHomes(s, step, t);
    }
  }

  lemma QuietHomes(s: System, step: Step)
    requires !Ordinary(step)
    ensures HomesKept(s, Apply(s, step))
  {
    hide Taken;
    if step.Receive? && step.c < |s.chans| {
      TakenHomes(s, step.c);
    }
  }

  lemma StepKeepsHomes(s: System, step: Step)
    ensures HomesKept(s, Apply(s, step))
  {
    hide Apply, ApplyClient, ApplyPoller, HomesKept;
    if !Ordinary(step) {
      QuietHomes(s, step);
    } else if step.t !in s.threads {
      NobodyThere(s, step);
      SameHomes(s);
    } else if OfClient(step) {
      ClientIsClient(s, step);
      ClientHomes(s, step, step.t);
    } else {
      PollerIsPoller(s, step);
      PollerHomes(s, step, step.t);
    }
  }

  lemma SameHomes(s: System)
    ensures HomesKept(s, s)
  {
  }

  // ----- whose thread a step moves -----

  ghost predicate OnlyMoves(s: System, s': System, t: nat) {
    s'.threads == s.threads || (t in s'.threads && s'.threads == s.threads[t := s'.threads[t]])
  }

  lemma ClientMoves(s: System, step: Step, t: nat)
    requires t in s.threads
    ensures OnlyMoves(s, ApplyClient(s, step, t), t)
  {
    hide Joined, Parted, Closed;
    match s.threads[t]
    case Attaching(_, p) => if Writable(s, p) { JoinedKept(s, p, t); }
    case Detaching(_, c, p) => if Writable(s, p) { PartedKept(s, p, c, t); }
    case Closing(_, p) => if Writable(s, p) { ClosedKept(s, p, t); }
    case _ =>
  }

  lemma PublishingMoves(s: System, step: Step, t: nat)
    requires t in s.threads && s.threads[t].Publishing?
    ensures OnlyMoves(s, ApplyPoller(s, step, t), t)
  {
    hide Sent;
    var p := s.threads[t].list;
    if p < |s.lists| && t in s.lists[p].readers {
      SentOnlyData(s, t, p);
    }
  }

  lemma ExitMoves(s: System, step: Step, t: nat)
    requires t in s.threads && s.threads[t].ExitLocked?
    ensures OnlyMoves(s, ApplyPoller(s, step, t), t)
  {
    hide Closed;
    var q := s.threads[t].query;
    if q in s.queries && Writable(s, s.queries[q]) {
      ClosedKept(s, s.queries[q], t);
    }
  }

  lemma PollerMoves(s: System, step: Step, t: nat)
    requires t in s.threads
    ensures OnlyMoves(s, ApplyPoller(s, step, t), t)
  {
    if s.threads[t].Publishing? {
      hide ApplyPoller;
      PublishingMoves(s, step, t);
    } else if s.threads[t].ExitLocked? {
      hide ApplyPoller;
      ExitMoves(s, step, t);
    }
  }

  lemma OrdinaryMoves(s: System, step: Step)
    requires Ordinary(step)
    ensures OnlyMoves(s, Apply(s, step), step.t)
  {
    hide Apply, ApplyClient, ApplyPoller;
    if step.t !in s.threads {
      NobodyThere(s, step);
    } else if OfClient(step) {
      ClientIsClient(s, step);
      ClientMoves(s, step, step.t);
    } else {
      PollerIsPoller(s, step);
      PollerMoves(s, step, step.t);
    }
  }
}
