/**
 What holds of the query publisher as it is written, at lock granularity, as long
 as the calls and the exits of pollers that work on one query do not overlap: no
 subscriber is orphaned or closed, and subscriptions, map and pollers agree.
 */
module PubSubWindows {
  import opened Types
  import opened PubSubSteps
  import opened PubSubRefs
  import opened PubSubServed

  /** The query whose entry or list a thread is about to read and then change. */
  function Window(thread: Thread): Option<string> {
    match thread
    case Creating(q) => Some(q)
    case Inserting(q, _) => Some(q)
    case Attaching(q, _) => Some(q)
    case Detaching(q, _, _) => Some(q)
    case Checking(q, _) => Some(q)
    case Closing(q, _) => Some(q)
    case Deleting(q) => Some(q)
    case Exiting(q) => Some(q)
    case ExitLocked(q) => Some(q)
    case ExitClosed(q) => Some(q)
    case _ => None
  }

  /** No two threads have a window on the same query. */
  ghost predicate Apart(s: System) {
    forall t, u ::
      (t in s.threads && u in s.threads && Window(s.threads[t]).Some? && Window(s.threads[t]) == Window(s.threads[u]))
      ==> t == u
  }

  ghost predicate ApartThroughout(steps: seq<Step>) {
    steps == [] || (ApartThroughout(steps[..|steps| - 1]) && Apart(Exec(steps)))
  }

  // ----- what a thread in its window knows -----

  predicate MapsTo(s: System, q: string, p: nat) {
    q in s.queries && s.queries[q] == p
  }

  predicate IsEmpty(s: System, p: nat) {
    p < |s.lists| && s.lists[p].subs == []
  }

  predicate WindowOk(s: System, thread: Thread) {
    match thread
    case Creating(q) => q !in s.queries
    case Inserting(q, p) => q !in s.queries && IsEmpty(s, p)
    case Attaching(q, p) => MapsTo(s, q, p)
    case Detaching(q, _, p) => MapsTo(s, q, p)
    case Checking(q, p) => MapsTo(s, q, p)
    case Closing(q, p) => MapsTo(s, q, p) && IsEmpty(s, p)
    case Deleting(q) => !HasSubscribers(s, q)
    case Exiting(q) => s.rootDone || q !in s.queries
    case ExitLocked(q) => s.rootDone || q !in s.queries
    case ExitClosed(q) => !HasSubscribers(s, q)
    case _ => true
  }

  ghost predicate WindowsOk(s: System) {
    forall t :: t in s.threads ==> WindowOk(s, s.threads[t])
  }

  lemma NoStepOrphans(s: System, step: Step)
    requires WindowsOk(s) && Refs(s)
    ensures !Orphans(s, step)
    ensures !s.rootDone ==> !Evicts(s, step)
  {
    match step
    case Insert(t) => assert t in s.threads ==> WindowOk(s, s.threads[t]);
    case Attach(t) => assert t in s.threads ==> WindowOk(s, s.threads[t]) && ThreadOk(s.lists, t, s.threads[t]);
    case CloseIdle(t) => assert t in s.threads ==> WindowOk(s, s.threads[t]);
    case Delete(t) => assert t in s.threads ==> WindowOk(s, s.threads[t]);
    case CloseOnExit(t) => assert t in s.threads ==> WindowOk(s, s.threads[t]);
    case DeleteOnExit(t) => assert t in s.threads ==> WindowOk(s, s.threads[t]);
    case _ =>
  }

  // ----- what a step leaves alone -----

  /** As far as query q is concerned, map and lists are the same, and the root context has not come back. */
  ghost predicate SameQuery(s: System, s': System, q: string) {
    && (q in s'.queries <==> q in s.queries) && (q in s.queries ==> s'.queries[q] == s.queries[q])
    && |s.lists| <= |s'.lists|
    && (forall p :: 0 <= p < |s.lists| ==> s'.lists[p].query == s.lists[p].query)
    && (forall p :: 0 <= p < |s.lists| && s.lists[p].query == q ==> s'.lists[p].subs == s.lists[p].subs)
    && (s.rootDone ==> s'.rootDone)
  }

  lemma WindowStaysOk(s: System, s': System, t: nat, q: string)
    requires Refs(s) && t in s.threads && Window(s.threads[t]) == Some(q)
    requires WindowOk(s, s.threads[t]) && SameQuery(s, s', q)
    ensures WindowOk(s', s.threads[t])
  {
    hide Refs;
    MapAndThread(s, t);
  }

  lemma SubscribersStay(s: System, s': System, q: string)
    requires MapOk(s) && SameQuery(s, s', q)
    ensures HasSubscribers(s', q) <==> HasSubscribers(s, q)
  {
  }

  lemma SameListsSameQuery(s: System, s': System, q: string)
    requires SameLists(s, s') && (s.rootDone ==> s'.rootDone)
    ensures SameQuery(s, s', q)
  {
  }

  lemma RootStaysDone(s: System, step: Step)
    ensures s.rootDone ==> Apply(s, step).rootDone
    ensures step != CancelRoot ==> Apply(s, step).rootDone == s.rootDone
  {
    hide ApplyClient, ApplyPoller;
    match step
    case CallSubscribe(_, _) =>
    case CallUnsubscribe(_, _, _) =>
    case LookUp(_) =>
    case Spawn(_, _) =>
    case Receive(_) =>
    case CancelRoot =>
    case _ =>
      if step.t in s.threads {
        ClientRoot(s, step, step.t);
        PollerRoot(s, step, step.t);
      }
  }

  lemma ClientRoot(s: System, step: Step, t: nat)
    requires t in s.threads
    ensures ApplyClient(s, step, t).rootDone == s.rootDone
  {
  }

  lemma PollerRoot(s: System, step: Step, t: nat)
    requires t in s.threads
    ensures ApplyPoller(s, step, t).rootDone == s.rootDone
  {
  }

  // ----- who moves -----

  /** Only thread t changes its window; a thread that is new has none. */
  ghost predicate OthersStay(s: System, s': System, t: nat) {
    && (forall u :: u in s.threads && u != t ==> u in s'.threads && s'.threads[u] == s.threads[u])
    && (forall u :: u in s'.threads && u != t ==> u in s.threads || Window(s'.threads[u]) == None)
  }

  /** The thread a step belongs to; for a receive or the end of the root context, none. */
  function Mover(step: Step): Option<nat> {
    if step.Receive? || step.CancelRoot? then None else Some(step.t)
  }

  lemma ClientOthersStay(s: System, step: Step, t: nat)
    requires t in s.threads
    ensures OthersStay(s, ApplyClient(s, step, t), t)
  {
    hide Joined, Parted, Closed;
    if s.threads[t].Attaching? && Writable(s, s.threads[t].list) { JoinedKept(s, s.threads[t].list, t); }
    if s.threads[t].Detaching? && Writable(s, s.threads[t].list) {
      PartedKept(s, s.threads[t].list, s.threads[t].channel, t);
    }
    if s.threads[t].Closing? && Writable(s, s.threads[t].list) { ClosedKept(s, s.threads[t].list, t); }
  }

  lemma PollerOthersStay(s: System, step: Step, t: nat)
    requires t in s.threads
    ensures OthersStay(s, ApplyPoller(s, step, t), t)
  {
    hide Closed, Sent;
    if s.threads[t].ExitLocked? && s.threads[t].query in s.queries && Writable(s, s.queries[s.threads[t].query]) {
      ClosedKept(s, s.queries[s.threads[t].query], t);
    }
    if s.threads[t].Publishing? && s.threads[t].list < |s.lists| && t in s.lists[s.threads[t].list].readers {
      SentKept(s, t, s.threads[t].list);
    }
  }

  lemma LookUpOthersStay(s: System, t: nat)
    requires t in s.threads
    ensures OthersStay(s, LookedUp(s, t), t)
  {
  }

  lemma SpawnOthersStay(s: System, t: nat, poller: nat)
    ensures OthersStay(s, Apply(s, Spawn(t, poller)), t)
  {
  }

  lemma StepOthersStay(s: System, step: Step)
    requires Mover(step).Some?
    ensures OthersStay(s, Apply(s, step), Mover(step).value)
  {
    hide ApplyClient, ApplyPoller, LookedUp;
    match step
    case CallSubscribe(_, _) =>
    case CallUnsubscribe(_, _, _) =>
    case LookUp(t) => if t in s.threads { LookUpOthersStay(s, t); }
    case Spawn(t, poller) => SpawnOthersStay(s, t, poller);
    case Receive(_) =>
    case CancelRoot =>
    case _ =>
      if step.t in s.threads {
        ClientOthersStay(s, step, step.t);
        PollerOthersStay(s, step, step.t);
      }
  }

  lemma NobodyMoves(s: System, step: Step)
    requires Mover(step) == None
    ensures Apply(s, step).threads == s.threads && SameLists(s, Apply(s, step))
  {
  }

  /** Only list p changes, and it is not query q's. */
  ghost predicate OnlyList(s: System, s': System, p: nat) {
    && s'.queries == s.queries && p < |s.lists| == |s'.lists| && (s.rootDone ==> s'.rootDone)
    && (forall r :: 0 <= r < |s.lists| ==> s'.lists[r].query == s.lists[r].query)
    && (forall r :: 0 <= r < |s.lists| && r != p ==> s'.lists[r].subs == s.lists[r].subs)
  }

  lemma JoinedOnlyList(s: System, p: nat)
    requires p < |s.lists|
    ensures OnlyList(s, Joined(s, p), p)
  {
  }

  lemma PartedOnlyList(s: System, p: nat, c: nat)
    requires p < |s.lists|
    ensures OnlyList(s, Parted(s, p, c), p)
  {
  }

  lemma ClosedOnlyList(s: System, p: nat)
    requires p < |s.lists|
    ensures OnlyList(s, Closed(s, p), p) && IsEmpty(Closed(s, p), p)
  {
  }

  /** A step that changes map or subscribers belongs to a thread in its window. */
  lemma StructuralHasWindow(s: System, step: Step)
    requires Structural(s, step)
    ensures Mover(step) == Some(step.t) && step.t in s.threads && Window(s.threads[step.t]).Some?
  {
  }

  lemma ListStepTouches(s: System, step: Step, t: nat, q: string)
    requires Refs(s) && Structural(s, step) && Mover(step) == Some(t)
    requires step.Attach? || step.Detach? || step.CloseIdle? || step.CloseOnExit?
    requires Window(s.threads[t]) != Some(q)
    ensures SameQuery(s, Apply(s, step), q)
  {
    hide Refs, Joined, Parted, Closed;
    MapAndThread(s, t);
    match step
    case Attach(_) => JoinedOnlyList(s, s.threads[t].list);
    case Detach(_) => PartedOnlyList(s, s.threads[t].list, s.threads[t].channel);
    case CloseIdle(_) => ClosedOnlyList(s, s.threads[t].list);
    case CloseOnExit(_) =>
      if s.threads[t].query in s.queries {
        assert RefOk(s.lists, s.threads[t].query, s.queries[s.threads[t].query]);
        ClosedOnlyList(s, s.queries[s.threads[t].query]);
      }
  }

  lemma MapStepTouches(s: System, step: Step, t: nat, q: string)
    requires Structural(s, step) && Mover(step) == Some(t) && (step.Insert? || step.Delete? || step.DeleteOnExit?)
    requires Window(s.threads[t]) != Some(q)
    ensures SameQuery(s, Apply(s, step), q)
  {
  }

  /** And it touches only that thread's query. */
  lemma StructuralTouches(s: System, step: Step, t: nat, q: string)
    requires Refs(s) && Structural(s, step) && Mover(step) == Some(t) && Window(s.threads[t]) != Some(q)
    ensures SameQuery(s, Apply(s, step), q)
  {
    hide Refs, Apply, SameQuery;
    if step.Insert? || step.Delete? || step.DeleteOnExit? {
      MapStepTouches(s, step, t, q);
    } else {
      ListStepTouches(s, step, t, q);
    }
  }

  /** Where a thread stays as it is, so does what it relies on. */
  lemma StepSameQuery(s: System, step: Step, u: nat, q: string)
    requires Refs(s) && Apart(s) && u in s.threads && Window(s.threads[u]) == Some(q) && Mover(step) != Some(u)
    ensures SameQuery(s, Apply(s, step), q)
  {
    hide Refs, Apply, Structural, SameLists, SameQuery;
    RootStaysDone(s, step);
    if Structural(s, step) {
      StructuralHasWindow(s, step);
      StructuralTouches(s, step, step.t, q);
    } else {
      OthersSameLists(s, step);
      SameListsSameQuery(s, Apply(s, step), q);
    }
  }

  // ----- the moving thread's own window -----

  lemma ClientWindowOk(s: System, step: Step, t: nat)
    requires Refs(s) && t in s.threads && WindowOk(s, s.threads[t])
    ensures t in ApplyClient(s, step, t).threads && WindowOk(ApplyClient(s, step, t), ApplyClient(s, step, t).threads[t])
  {
    hide Refs, Joined, Parted, Closed;
    MapAndThread(s, t);
    match s.threads[t]
    case Attaching(_, p) => JoinedKept(s, p, t);
    case Detaching(_, c, p) => PartedKept(s, p, c, t);
    case Closing(_, p) =>
      ClosedKept(s, p, t);
      ClosedOnlyList(s, p);
    case _ =>
  }

  lemma ExitWindowOk(s: System, step: Step, t: nat)
    requires t in s.threads && (s.threads[t].ExitLocked? || s.threads[t].ExitClosed?) && WindowOk(s, s.threads[t])
    ensures t in ApplyPoller(s, step, t).threads && WindowOk(ApplyPoller(s, step, t), ApplyPoller(s, step, t).threads[t])
  {
    hide Closed;
    var q := s.threads[t].query;
    if q in s.queries && Writable(s, s.queries[q]) {
      ClosedKept(s, s.queries[q], t);
      ClosedOnlyList(s, s.queries[q]);
    }
  }

  lemma PublishWindowOk(s: System, step: Step, t: nat)
    requires t in s.threads && s.threads[t].Publishing?
    ensures t in ApplyPoller(s, step, t).threads && WindowOk(ApplyPoller(s, step, t), ApplyPoller(s, step, t).threads[t])
  {
    hide Sent;
    if s.threads[t].list < |s.lists| && t in s.lists[s.threads[t].list].readers {
      SentKept(s, t, s.threads[t].list);
    }
  }

  lemma PollerWindowOk(s: System, step: Step, t: nat)
    requires t in s.threads && WindowOk(s, s.threads[t])
    ensures t in ApplyPoller(s, step, t).threads && WindowOk(ApplyPoller(s, step, t), ApplyPoller(s, step, t).threads[t])
  {
    hide Sent, Closed;
    if s.threads[t].ExitLocked? || s.threads[t].ExitClosed? {
      ExitWindowOk(s, step, t);
    } else if s.threads[t].Publishing? {
      PublishWindowOk(s, step, t);
    }
  }

  lemma MoverWindowOk(s: System, step: Step, t: nat)
    requires Refs(s) && WindowsOk(s) && Mover(step) == Some(t) && t in Apply(s, step).threads
    ensures WindowOk(Apply(s, step), Apply(s, step).threads[t])
  {
    hide ApplyClient, ApplyPoller, Refs;
    if t in s.threads {
      assert WindowOk(s, s.threads[t]);
      MapAndThread(s, t);
    }
    match step
    case CallSubscribe(_, _) =>
    case CallUnsubscribe(_, _, _) =>
    case LookUp(_) =>
    case Spawn(_, _) =>
    case Receive(_) =>
    case CancelRoot =>
    case _ =>
      if step.t in s.threads {
        ClientWindowOk(s, step, step.t);
        PollerWindowOk(s, step, step.t);
      }
  }

  /** While windows are apart, every step leaves every window sound. */
  lemma StepKeepsWindows(s: System, step: Step)
    requires Refs(s) && Apart(s) && WindowsOk(s)
    ensures WindowsOk(Apply(s, step))
  {
    hide Refs, Apply, Apart, WindowOk, Window, SameQuery;
    var s' := Apply(s, step);
    if Mover(step) == None {
      NobodyMoves(s, step);
    } else {
      StepOthersStay(s, step);
    }
    forall u | u in s'.threads ensures WindowOk(s', s'.threads[u]) {
      if Mover(step) == Some(u) {
        MoverWindowOk(s, step, u);
      } else if Window(s'.threads[u]) == None {
        NoWindowOk(s', s'.threads[u]);
      } else {
        StepSameQuery(s, step, u, Window(s'.threads[u]).value);
        WindowStaysOk(s, s', u, Window(s'.threads[u]).value);
      }
    }
  }

  lemma NoWindowOk(s: System, thread: Thread)
    requires Window(thread) == None
    ensures WindowOk(s, thread)
  {
  }

  lemma {:induction false} WindowsStayOk(steps: seq<Step>)
    requires ApartThroughout(steps)
    ensures WindowsOk(Exec(steps))
  {
    if steps != [] {
      hide Apply, Refs, Apart, WindowsOk;
      var init := steps[..|steps| - 1];
      WindowsStayOk(init);
      ApartNow(init);
      EveryRunRefs(init);
      StepKeepsWindows(Exec(init), steps[|steps| - 1]);
    }
  }

  lemma {:induction false} ApartNow(steps: seq<Step>)
    requires ApartThroughout(steps)
    ensures Apart(Exec(steps))
  {
  }

  /** Without overlapping windows no subscriber is ever orphaned, and none is closed while the root context lives. */
  lemma {:induction false} ApartRunsServe(steps: seq<Step>)
    requires ApartThroughout(steps)
    ensures NeverOrphans(steps) && ServedThroughout(steps)
    ensures !Exec(steps).rootDone ==> NeverEvicts(steps) && NoneClosedThroughout(steps)
  {
    hide Apply, Refs, WindowsOk, Orphans, Evicts, Apart, AllServed, NoneClosed;
    if steps != [] {
      var init, last := steps[..|steps| - 1], steps[|steps| - 1];
      ApartRunsServe(init);
      WindowsStayOk(init);
      EveryRunRefs(init);
      NoStepOrphans(Exec(init), last);
      RootStaysDone(Exec(init), last);
    }
    ServedExactly(steps);
    OpenExactly(steps);
  }
}
