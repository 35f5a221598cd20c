/**
 When the root context has ended, nobody is stuck for good: from every state that a
 run can reach, all calls can return and all pollers can be gone, by their own steps
 alone. Publishes give up, a poller that holds the map's lock then gets the list it
 waits for, and then nothing is in anyone's way.
 */
module PubSubShutdown {
  import opened Types
  import opened PubSub
  import opened PubSubSteps
  import opened PubSubRefs
  import opened PubSubDelivery
  import opened PubSubFreeze
  import W = PubSubWindows

  /** The call has returned, or the poller is gone. */
  predicate Ended(thread: Thread) {
    thread.Subscribed? || thread.Left? || thread.Gone?
  }

  ghost predicate AtRest(s: System) {
    forall t :: t in s.threads ==> Ended(s.threads[t])
  }

  /** The steps a thread has still to take at most, with those of the poller it may start. */
  function Rank(thread: Thread): nat {
    match thread
    case Subscribing(_) => 8
    case Creating(_) => 7
    case Inserting(_, _) => 2
    case Attaching(_, _) => 1
    case Subscribed(_) => 0
    case Leaving(_, _) => 5
    case Detaching(_, _, _) => 4
    case Checking(_, _) => 3
    case Closing(_, _) => 2
    case Deleting(_) => 1
    case Left => 0
    case Notifying(_, _) => 7
    case Starting(_, _, _) => 6
    case Publishing(_, _) => 5
    case Querying(_) => 5
    case Waiting(_) => 4
    case Exiting(_) => 3
    case ExitLocked(_) => 2
    case ExitClosed(_) => 1
    case Gone => 0
  }

  /** The next step on the way to its end: a poller gives up its query and its publish. */
  function NextStep(s: System, t: nat, poller: nat): Step
    requires t in s.threads
  {
    match s.threads[t]
    case Subscribing(_) => LookUp(t)
    case Creating(_) => Spawn(t, poller)
    case Inserting(_, _) => Insert(t)
    case Attaching(_, _) => Attach(t)
    case Leaving(_, _) => LookUp(t)
    case Detaching(_, _, _) => Detach(t)
    case Checking(_, _) => CheckActive(t)
    case Closing(_, _) => CloseIdle(t)
    case Deleting(_) => Delete(t)
    case Notifying(_, _) => LookUp(t)
    case Starting(_, _, _) => BeginPublish(t)
    case Publishing(_, p) => if HasMore(s, t, p) then Step.Abort(t) else EndPublish(t)
    case Querying(_) => Answer(t, None)
    case Waiting(_) => StopOnRoot(t)
    case Exiting(_) => LockAccess(t)
    case ExitLocked(_) => CloseOnExit(t)
    case ExitClosed(_) => DeleteOnExit(t)
    case Subscribed(_) => LookUp(t)
    case Left => LookUp(t)
    case Gone => LookUp(t)
  }

  predicate HasMore(s: System, t: nat, p: nat) {
    p < |s.lists| && t in s.lists[p].readers && s.lists[p].readers[t].cursor < |s.lists[p].subs|
  }

  ghost predicate Sound(s: System) {
    Refs(s) && WriterOk(s) && ReadersOk(s)
  }

  lemma {:induction false} EveryRunIsSound(steps: seq<Step>)
    ensures Sound(Exec(steps))
  {
    hide Exec, Refs, WriterOk, ReadersOk, Safe, Sending;
    EveryRunRefs(steps);
    EveryRunHasOneWriter(steps);
    EveryRunSends(steps);
  }

  // ----- who can take a step -----

  ghost predicate NoPublish(s: System) {
    forall t :: t in s.threads ==> !s.threads[t].Publishing?
  }

  /** A publish always can; then whoever holds the map's lock; then everyone. */
  ghost predicate Unhindered(s: System, t: nat)
    requires t in s.threads
  {
    s.threads[t].Publishing? || (NoPublish(s) && (HoldsMap(s.threads[t]) || MapFree(s)))
  }

  lemma ListsAreFree(s: System, p: nat)
    requires ReadersOk(s) && NoPublish(s) && p < |s.lists|
    ensures Writable(s, p)
  {
    assert forall u: nat :: u in s.lists[p].readers ==> u in s.threads && s.threads[u].Publishing?;
    assert s.lists[p].readers.Keys == {};
  }

  /** The thread is a step nearer to its end. */
  predicate Nearer(s: System, s': System, t: nat) {
    t in s.threads && t in s'.threads && Rank(s'.threads[t]) < Rank(s.threads[t])
  }

  lemma ClientNearer(s: System, t: nat, poller: nat)
    requires Sound(s) && t in s.threads && Unhindered(s, t) && OfClient(NextStep(s, t, poller))
    ensures Nearer(s, ApplyClient(s, NextStep(s, t, poller), t), t)
  {
    hide Refs, Joined, Parted, Closed, WriterOk, ReadersOk, Writable, NoPublish;
    MapAndThread(s, t);
    match s.threads[t] {
      case Attaching(_, p) => ListsAreFree(s, p); JoinedHolds(s, p);
      case Detaching(_, c, p) => ListsAreFree(s, p); PartedHolds(s, p, c);
      case Closing(_, p) => ListsAreFree(s, p); ClosedHolds(s, p);
      case _ =>
    }
  }

  lemma PollerNearer(s: System, t: nat, poller: nat)
    requires Sound(s) && s.rootDone && t in s.threads && !Ended(s.threads[t]) && Unhindered(s, t)
    requires Ordinary(NextStep(s, t, poller)) && !OfClient(NextStep(s, t, poller))
    ensures Nearer(s, ApplyPoller(s, NextStep(s, t, poller), t), t)
  {
    hide Refs, Closed, Sent, WriterOk, ReadersOk, Writable, NoPublish;
    MapAndThread(s, t);
    if s.threads[t].ExitLocked? && s.threads[t].query in s.queries {
      var p := s.queries[s.threads[t].query];
      ListsAreFree(s, p);
      ClosedHolds(s, p);
    }
  }

  lemma LookUpNearer(s: System, t: nat)
    requires t in s.threads && MapFree(s)
    requires (s.threads[t].Subscribing? || s.threads[t].Leaving? || s.threads[t].Notifying?)
    ensures Nearer(s, Apply(s, LookUp(t)), t) && OnlyMoves(s, Apply(s, LookUp(t)), t)
  {
  }

  // ----- all of them -----

  ghost function Total(threads: map<nat, Thread>): nat
    decreases threads.Keys
  {
    if threads == map[] then 0
    else
      assert threads.Keys != {} by {
        assert threads.Keys == {} ==> threads == map[];
      }
      var t :| t in threads;
      assert t in threads.Keys && t !in (threads - {t}).Keys;
      Rank(threads[t]) + Total(threads - {t})
  }

  lemma {:induction false} TotalWithout(threads: map<nat, Thread>, t: nat)
    requires t in threads
    ensures Total(threads) == Rank(threads[t]) + Total(threads - {t})
    decreases threads.Keys
  {
    hide Rank;
    var u :| u in threads && Total(threads) == Rank(threads[u]) + Total(threads - {u});
    if u != t {
      assert u !in (threads - {u}).Keys && t !in (threads - {t}).Keys && u in threads.Keys && t in threads.Keys;
      TotalWithout(threads - {u}, t);
      TotalWithout(threads - {t}, u);
      assert (threads - {u}) - {t} == (threads - {t}) - {u};
    }
  }

  lemma TotalFalls(s: System, s': System, t: nat)
    requires Nearer(s, s', t) && OnlyMoves(s, s', t)
    ensures Total(s'.threads) < Total(s.threads) && s.threads.Keys <= s'.threads.Keys
  {
    hide Rank, Total;
    TotalWithout(s.threads, t);
    TotalWithout(s'.threads, t);
    assert s'.threads - {t} == s.threads - {t};
  }

  /** A Subscribe that starts a poller has counted its steps. */
  lemma SpawnFalls(s: System, t: nat, poller: nat)
    requires t in s.threads && s.threads[t].Creating? && poller !in s.threads
    ensures var s' := Apply(s, Spawn(t, poller));
      Total(s'.threads) < Total(s.threads) && s.threads.Keys <= s'.threads.Keys
  {
    hide Total;
    var s' := Apply(s, Spawn(t, poller));
    TotalWithout(s.threads, t);
    TotalWithout(s'.threads, t);
    TotalWithout(s'.threads - {t}, poller);
    assert (s'.threads - {t}) - {poller} == s.threads - {t};
  }

  lemma {:induction false} Unused(threads: map<nat, Thread>) returns (poller: nat)
    ensures forall t :: t in threads ==> t < poller
    decreases threads.Keys
  {
    if threads == map[] {
      poller := 0;
    } else {
      assert threads.Keys != {} by {
        assert threads.Keys == {} ==> threads == map[];
      }
      var t :| t in threads;
      assert t in threads.Keys && t !in (threads - {t}).Keys;
      var next := Unused(threads - {t});
      poller := if next <= t then t + 1 else next;
      forall u | u in threads ensures u < poller {
        assert u != t ==> u in threads - {t};
      }
    }
  }

  /** One step of an unhindered thread brings all of them nearer to rest. */
  lemma StepFalls(s: System, t: nat, poller: nat)
    requires Sound(s) && s.rootDone && t in s.threads && !Ended(s.threads[t])
    requires Unhindered(s, t) && poller !in s.threads
    ensures var s' := Apply(s, NextStep(s, t, poller));
      Total(s'.threads) < Total(s.threads) && s.threads.Keys <= s'.threads.Keys
  {
    hide Apply, ApplyClient, ApplyPoller, Sound, Total, Nearer, OnlyMoves, NoPublish;
    var step := NextStep(s, t, poller);
    var s' := Apply(s, step);
    if step.Spawn? {
      SpawnFalls(s, t, poller);
    } else {
      if step.LookUp? {
        LookUpNearer(s, t);
      } else if OfClient(step) {
        OrdinaryMoves(s, step);
        ClientIsClient(s, step);
        ClientNearer(s, t, poller);
      } else {
        OrdinaryMoves(s, step);
        PollerIsPoller(s, step);
        PollerNearer(s, t, poller);
      }
      TotalFalls(s, s', t);
    }
  }

  /** As long as not everybody has ended, somebody is unhindered. */
  lemma SomebodyCan(s: System) returns (t: nat)
    requires Sound(s) && !AtRest(s)
    ensures t in s.threads && !Ended(s.threads[t]) && Unhindered(s, t)
  {
    if u: nat :| u in s.threads && s.threads[u].Publishing? {
      t := u;
    } else if s.writer.Some? {
      t := s.writer.value;
    } else {
      t :| t in s.threads && !Ended(s.threads[t]);
    }
  }

  /** A thread's own step: no receive from a channel, no new call, and no end of the context. */
  predicate OwnStep(step: Step) {
    !step.Receive? && !step.CallSubscribe? && !step.CallUnsubscribe? && !step.CancelRoot?
  }

  lemma NextIsOwn(s: System, t: nat, poller: nat)
    requires t in s.threads
    ensures OwnStep(NextStep(s, t, poller))
  {
  }

  /**
   After the end of the root context everything can come to rest, whatever locks are held and whatever buffers
   are full: every call returns and every poller is gone, by the threads' own steps, in at most Total of them.
   */
  lemma {:induction false} EverybodyCanEnd(steps: seq<Step>) returns (more: seq<Step>)
    requires Exec(steps).rootDone
    ensures AtRest(Exec(steps + more)) && Exec(steps).threads.Keys <= Exec(steps + more).threads.Keys
    ensures |more| <= Total(Exec(steps).threads) && forall k :: 0 <= k < |more| ==> OwnStep(more[k])
    decreases Total(Exec(steps).threads)
  {
    hide Exec, Apply, Sound, AtRest, Unhindered, Total, NextStep, OwnStep;
    var s := Exec(steps);
    if AtRest(s) {
      more := [];
      assert steps + more == steps;
    } else {
      EveryRunIsSound(steps);
      var t := SomebodyCan(s);
      var poller := Unused(s.threads);
      var step := NextStep(s, t, poller);
      StepFalls(s, t, poller);
      NextIsOwn(s, t, poller);
      W.RootStaysDone(s, step);
      ExecNext(steps, step);
      var rest := EverybodyCanEnd(steps + [step]);
      more := [step] + rest;
      assert steps + more == steps + [step] + rest;
    }
  }

  /** At rest no lock is held and the pollers are gone: the map is free and every list can be changed. */
  lemma RestIsFree(s: System)
    requires Sound(s) && AtRest(s)
    ensures MapFree(s) && forall p: nat :: p < |s.lists| ==> Writable(s, p)
  {
    assert NoPublish(s);
    forall p: nat | p < |s.lists| ensures Writable(s, p) {
      ListsAreFree(s, p);
    }
  }
}
