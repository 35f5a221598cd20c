/**
 A poller that exits holds the map's lock while it waits for the list of its query.
 If a publish is stuck on that list, nobody gets at the map any more: no Subscribe,
 no Unsubscribe and no tick, of any query.
 */
module PubSubFreeze {
  import opened Types
  import opened PubSub
  import opened PubSubSteps
  import opened PubSubRefs
  import opened PubSubBlocking
  import opened PubSubDeadlock

  // ----- who holds the map's lock -----

  predicate HoldsMap(thread: Thread) {
    thread.ExitLocked? || thread.ExitClosed?
  }

  /** The writer recorded is the one thread between locking the map and giving it back. */
  ghost predicate WriterOk(s: System) {
    && (s.writer.Some? ==> s.writer.value in s.threads && HoldsMap(s.threads[s.writer.value]))
    && forall t :: t in s.threads && HoldsMap(s.threads[t]) ==> s.writer == Some(t)
  }

  /** Thread t moves without taking or giving back the lock. */
  lemma OthersHold(s: System, s': System, t: nat)
    requires WriterOk(s) && s'.writer == s.writer && OnlyMoves(s, s', t)
    requires t in s'.threads ==> (HoldsMap(s'.threads[t]) <==> t in s.threads && HoldsMap(s.threads[t]))
    ensures WriterOk(s')
  {
  }

  lemma ClientHolds(s: System, step: Step, t: nat)
    requires t in s.threads
    ensures var s' := ApplyClient(s, step, t);
      s'.writer == s.writer && t in s'.threads && (HoldsMap(s'.threads[t]) <==> HoldsMap(s.threads[t]))
  {
    hide Joined, Parted, Closed;
    match s.threads[t]
    case Attaching(_, p) => if Writable(s, p) { JoinedHolds(s, p); }
    case Detaching(_, c, p) => if Writable(s, p) { PartedHolds(s, p, c); }
    case Closing(_, p) => if Writable(s, p) { ClosedHolds(s, p); }
    case _ =>
  }

  lemma JoinedHolds(s: System, p: nat)
    requires p < |s.lists|
    ensures Joined(s, p).writer == s.writer && Joined(s, p).threads == s.threads
  {
  }

  lemma PartedHolds(s: System, p: nat, c: nat)
    requires p < |s.lists|
    ensures Parted(s, p, c).writer == s.writer && Parted(s, p, c).threads == s.threads
  {
  }

  lemma ClosedHolds(s: System, p: nat)
    requires p < |s.lists|
    ensures Closed(s, p).writer == s.writer && Closed(s, p).threads == s.threads && Closed(s, p).queries == s.queries
  {
  }

  lemma SentHolds(s: System, t: nat, p: nat)
    requires p < |s.lists| && t in s.lists[p].readers
    ensures Sent(s, t, p).writer == s.writer && Sent(s, t, p).threads == s.threads
  {
  }

  /** The steps by which a poller takes the lock, and gives it back. */
  predicate MovesLock(s: System, step: Step) {
    match step
    case LockAccess(t) => t in s.threads && s.threads[t].Exiting? && MapFree(s)
    case DeleteOnExit(t) => t in s.threads && s.threads[t].ExitClosed?
    case _ => false
  }

  lemma PublishingHolds(s: System, step: Step, t: nat)
    requires t in s.threads && s.threads[t].Publishing?
    ensures var s' := ApplyPoller(s, step, t);
      s'.writer == s.writer && t in s'.threads && (HoldsMap(s'.threads[t]) <==> HoldsMap(s.threads[t]))
  {
    hide Sent;
    var p := s.threads[t].list;
    if p < |s.lists| && t in s.lists[p].readers {
      SentHolds(s, t, p);
    }
  }

  lemma ExitHolds(s: System, step: Step, t: nat)
    requires t in s.threads && s.threads[t].ExitLocked?
    ensures var s' := ApplyPoller(s, step, t);
      s'.writer == s.writer && t in s'.threads && (HoldsMap(s'.threads[t]) <==> HoldsMap(s.threads[t]))
  {
    hide Closed;
    var q := s.threads[t].query;
    if q in s.queries && Writable(s, s.queries[q]) {
      ClosedHolds(s, s.queries[q]);
    }
  }

  lemma PollerHolds(s: System, step: Step, t: nat)
    requires t in s.threads && Ordinary(step) && step.t == t && !MovesLock(s, step)
    ensures var s' := ApplyPoller(s, step, t);
      s'.writer == s.writer && t in s'.threads && (HoldsMap(s'.threads[t]) <==> HoldsMap(s.threads[t]))
  {
    if s.threads[t].Publishing? {
      hide ApplyPoller;
      PublishingHolds(s, step, t);
    } else if s.threads[t].ExitLocked? {
      hide ApplyPoller;
      ExitHolds(s, step, t);
    }
  }

  lemma QuietHolds(s: System, step: Step)
    requires WriterOk(s) && !Ordinary(step)
    ensures WriterOk(Apply(s, step))
  {
    hide Taken;
    if step.Receive? && step.c < |s.chans| {
      TakenOnlyChannels(s, step.c);
    }
  }

  lemma LockHolds(s: System, step: Step)
    requires WriterOk(s) && MovesLock(s, step)
    ensures WriterOk(Apply(s, step))
  {
    hide ApplyClient, Sent, Closed;
  }

  lemma StepKeepsWriter(s: System, step: Step)
    requires WriterOk(s)
    ensures WriterOk(Apply(s, step))
  {
    hide Apply, ApplyClient, ApplyPoller, WriterOk, MovesLock, OnlyMoves;
    if !Ordinary(step) {
      QuietHolds(s, step);
    } else if step.t !in s.threads {
      NobodyThere(s, step);
    } else if MovesLock(s, step) {
      LockHolds(s, step);
    } else {
      OrdinaryMoves(s, step);
      if OfClient(step) {
        ClientIsClient(s, step);
        ClientHolds(s, step, step.t);
      } else {
        PollerIsPoller(s, step);
        PollerHolds(s, step, step.t);
      }
      OthersHold(s, Apply(s, step), step.t);
    }
  }

  /** In every run, the map's lock is held by at most one poller, and by one between its two steps. */
  lemma {:induction false} EveryRunHasOneWriter(steps: seq<Step>)
    ensures WriterOk(Exec(steps))
  {
    if steps != [] {
      hide Apply, WriterOk;
      EveryRunHasOneWriter(steps[..|steps| - 1]);
      StepKeepsWriter(Exec(steps[..|steps| - 1]), steps[|steps| - 1]);
    }
  }

  // ----- the freeze -----

  /** A publish is stuck on the list of query q, and x holds the map's lock and waits for that list. */
  ghost predicate Frozen(s: System, t: nat, p: nat, c: nat, x: nat, q: string) {
    StuckAt(s, t, p, c) && Waits(s, p, x, q)
  }

  predicate Waits(s: System, p: nat, x: nat, q: string) {
    && x in s.threads && s.threads[x] == ExitLocked(q) && s.writer == Some(x)
    && q in s.queries && s.queries[q] == p
  }

  /** The next step of the thread needs the map's lock. */
  predicate NeedsMap(thread: Thread) {
    || thread.Subscribing? || thread.Inserting? || thread.Leaving? || thread.Deleting?
    || thread.Waiting? || thread.Notifying? || thread.Exiting?
  }

  /** The map is as before, and whoever needs it stands where it stood. */
  ghost predicate MapStandsStill(s: System, s': System) {
    && s'.queries == s.queries && s'.writer == s.writer
    && forall v :: v in s.threads && NeedsMap(s.threads[v]) ==> v in s'.threads && s'.threads[v] == s.threads[v]
  }

  /** A client's step while the map is locked. */
  lemma ClientIsLockedOut(s: System, step: Step, v: nat)
    requires v in s.threads && !MapFree(s)
    ensures ApplyClient(s, step, v).queries == s.queries && ApplyClient(s, step, v).writer == s.writer
    ensures NeedsMap(s.threads[v]) ==> ApplyClient(s, step, v) == s
  {
    hide Joined, Parted, Closed;
    match s.threads[v]
    case Attaching(_, p) => if Writable(s, p) { JoinedKept(s, p, v); JoinedHolds(s, p); }
    case Detaching(_, c, p) => if Writable(s, p) { PartedKept(s, p, c, v); PartedHolds(s, p, c); }
    case Closing(_, p) => if Writable(s, p) { ClosedHolds(s, p); }
    case _ =>
  }

  lemma PublisherIsLockedOut(s: System, step: Step, v: nat)
    requires v in s.threads && s.threads[v].Publishing?
    ensures ApplyPoller(s, step, v).queries == s.queries && ApplyPoller(s, step, v).writer == s.writer
  {
    hide Sent;
    var p := s.threads[v].list;
    if p < |s.lists| && v in s.lists[p].readers {
      SentHolds(s, v, p);
      SentOnlyData(s, v, p);
    }
  }

  /** A poller's step while x holds the map's lock and waits for a list that is locked. */
  lemma PollerIsLockedOut(s: System, step: Step, v: nat, p: nat, x: nat, q: string)
    requires v in s.threads && Waits(s, p, x, q) && !Writable(s, p) && !s.rootDone && WriterOk(s)
    ensures ApplyPoller(s, step, v).queries == s.queries && ApplyPoller(s, step, v).writer == s.writer
    ensures NeedsMap(s.threads[v]) || v == x ==> ApplyPoller(s, step, v) == s
  {
    hide Closed, Sent;
    if s.threads[v].Publishing? {
      hide ApplyPoller;
      PublisherIsLockedOut(s, step, v);
    } else {
      assert HoldsMap(s.threads[v]) ==> v == x;
    }
  }

  lemma QuietIsLockedOut(s: System, step: Step, p: nat, x: nat, q: string)
    requires !Ordinary(step) && Waits(s, p, x, q)
    ensures MapStandsStill(s, Apply(s, step)) && x in Apply(s, step).threads && Apply(s, step).threads[x] == s.threads[x]
  {
    hide Taken;
    if step.Receive? && step.c < |s.chans| {
      TakenOnlyChannels(s, step.c);
    }
  }

  /** The map stands still if the one thread that moves neither needs it nor holds it. */
  lemma MoverIsLockedOut(s: System, s': System, v: nat, x: nat)
    requires v in s.threads && x in s.threads && OnlyMoves(s, s', v) && s'.queries == s.queries && s'.writer == s.writer
    requires NeedsMap(s.threads[v]) || v == x ==> s' == s
    ensures MapStandsStill(s, s') && x in s'.threads && s'.threads[x] == s.threads[x]
  {
  }

  lemma StepIsLockedOut(s: System, step: Step, p: nat, x: nat, q: string)
    requires Waits(s, p, x, q) && !Writable(s, p) && !s.rootDone && WriterOk(s)
    ensures MapStandsStill(s, Apply(s, step)) && Waits(Apply(s, step), p, x, q)
  {
    hide Apply, ApplyClient, ApplyPoller, WriterOk, Writable, OnlyMoves;
    if !Ordinary(step) {
      QuietIsLockedOut(s, step, p, x, q);
    } else if step.t !in s.threads {
      NobodyThere(s, step);
    } else {
      OrdinaryMoves(s, step);
      if OfClient(step) {
        ClientIsClient(s, step);
        ClientIsLockedOut(s, step, step.t);
        ClientMayNot(s, step, x, q);
      } else {
        PollerIsPoller(s, step);
        PollerIsLockedOut(s, step, step.t, p, x, q);
      }
      MoverIsLockedOut(s, Apply(s, step), step.t, x);
    }
  }

  lemma ClientMayNot(s: System, step: Step, x: nat, q: string)
    requires x in s.threads && s.threads[x] == ExitLocked(q)
    ensures ApplyClient(s, step, x) == s
  {
  }

  lemma FrozenHolds(s: System, t: nat, p: nat, c: nat, x: nat, q: string)
    requires Frozen(s, t, p, c, x, q)
    ensures StuckAt(s, t, p, c) && Waits(s, p, x, q) && Deadlocked(s, t, t, p, c) && !Writable(s, p) && !s.rootDone
  {
  }

  /** One step ends the freeze if and only if it receives from the full buffer or ends the root context. */
  lemma FreezeEndsExactly(s: System, step: Step, t: nat, p: nat, c: nat, x: nat, q: string)
    requires Frozen(s, t, p, c, x, q) && WriterOk(s)
    ensures Frozen(Apply(s, step), t, p, c, x, q) <==> step != Receive(c) && step != CancelRoot
    ensures MapStandsStill(s, Apply(s, step))
  {
    hide Apply, StuckAt, WriterOk, Deadlocked, Waits, MapStandsStill, Writable;
    FrozenHolds(s, t, p, c, x, q);
    DeadlockEndsExactly(s, step, t, t, p, c);
    StepIsLockedOut(s, step, p, x, q);
    StuckExactly(Apply(s, step), t, p, c);
  }

  lemma StuckExactly(s: System, t: nat, p: nat, c: nat)
    ensures StuckAt(s, t, p, c) <==> Deadlocked(s, t, t, p, c)
  {
  }

  lemma StillThrough(s: System, m: System, s': System)
    requires MapStandsStill(s, m) && MapStandsStill(m, s')
    ensures MapStandsStill(s, s')
  {
  }

  lemma StillAtOnce(s: System)
    ensures MapStandsStill(s, s)
  {
  }

  /** The steps that read or change the map. */
  predicate MapStep(step: Step) {
    step.LookUp? || step.Insert? || step.Delete? || step.Tick? || step.LockAccess?
  }

  lemma LockedOut(s: System, step: Step)
    requires !MapFree(s) && MapStep(step)
    ensures Apply(s, step) == s
  {
  }

  /**
   In every continuation without relief the freeze lasts: the map stays as it is, every thread that needs it
   stays where it is, of whatever query, and no step on the map has any effect.
   */
  lemma {:induction false} FreezeIsForever(steps: seq<Step>, more: seq<Step>, t: nat, p: nat, c: nat, x: nat, q: string)
    requires Frozen(Exec(steps), t, p, c, x, q) && NoRelief(more, c)
    ensures Frozen(Exec(steps + more), t, p, c, x, q) && MapStandsStill(Exec(steps), Exec(steps + more))
    ensures forall step :: MapStep(step) ==> Apply(Exec(steps + more), step) == Exec(steps + more)
  {
    hide Exec, Apply, Frozen, MapStandsStill, WriterOk;
    if more == [] {
      assert steps + more == steps;
      StillAtOnce(Exec(steps));
    } else {
      var init, last := more[..|more| - 1], more[|more| - 1];
      FreezeIsForever(steps, init, t, p, c, x, q);
      EveryRunHasOneWriter(steps + init);
      FreezeEndsExactly(Exec(steps + init), last, t, p, c, x, q);
      assert steps + more == (steps + init) + [last];
      ExecNext(steps + init, last);
      StillThrough(Exec(steps), Exec(steps + init), Exec(steps + more));
    }
    FrozenHolds(Exec(steps + more), t, p, c, x, q);
    forall step | MapStep(step) ensures Apply(Exec(steps + more), step) == Exec(steps + more) {
      LockedOut(Exec(steps + more), step);
    }
  }

  // ----- a run into the freeze -----

  /** Threads 0 and 5 both miss the query and start pollers 1 and 4. */
  const CALLS := [CallSubscribe(0, "q")] + [CallSubscribe(5, "q")] + [LookUp(0)] + [LookUp(5)]
  const SPAWNS := CALLS + [Spawn(0, 1)] + [Spawn(5, 4)]

  /** Poller 1 finds no entry and is about to exit when thread 0 inserts its list and joins it. */
  const OVERTAKEN := SPAWNS + [Tick(1)] + [Insert(0)] + [Attach(0)]

  /** Poller 4 fills the subscriber's buffer, and poller 1 takes the map's lock. */
  const INTO_FREEZE := Overfull(OVERTAKEN, 4) + [LockAccess(1)]

  const BESIDE := Scene(4, map[0 := Subscribed(0), 5 := Inserting("q", 1), 1 := Exiting("q")], [SubList("q", [], {}, map[], [])])

  const TWO_LISTS := [SubList("q", [], {}, map[], []), SubList("q", [], {}, map[], [])]

  function Racing(threads: map<nat, Thread>): System {
    EMPTY.(threads := threads)
  }

  lemma CallsRun()
    ensures Exec(CALLS) == Racing(map[0 := Creating("q"), 5 := Creating("q")])
  {
    hide ApplyClient, ApplyPoller;
    var a := [CallSubscribe(0, "q")];
    assert [] + a == a;
    StartRun();
    ExecNext([], CallSubscribe(0, "q"));
    ExecNext(a, CallSubscribe(5, "q"));
    ExecNext(a + [CallSubscribe(5, "q")], LookUp(0));
    ExecNext(a + [CallSubscribe(5, "q")] + [LookUp(0)], LookUp(5));
  }

  function Spawned(zero: Thread, one: Thread): System {
    EMPTY.(lists := TWO_LISTS, threads := map[0 := zero, 5 := Inserting("q", 1), 1 := one, 4 := Waiting("q")])
  }

  lemma SpawnsRun()
    ensures Exec(SPAWNS) == Spawned(Inserting("q", 0), Waiting("q"))
  {
    hide CALLS, ApplyClient, ApplyPoller;
    CallsRun();
    ExecNext(CALLS, Spawn(0, 1));
    ExecNext(CALLS + [Spawn(0, 1)], Spawn(5, 4));
  }

  lemma OvertakenSteps()
    ensures Apply(Spawned(Inserting("q", 0), Waiting("q")), Tick(1)) == Spawned(Inserting("q", 0), Exiting("q"))
    ensures Apply(Spawned(Inserting("q", 0), Exiting("q")), Insert(0))
         == Spawned(Attaching("q", 0), Exiting("q")).(queries := map["q" := 0])
  {
    hide Joined, Parted, Closed, Sent;
  }

  lemma OvertakerJoins()
    ensures Apply(Spawned(Attaching("q", 0), Exiting("q")).(queries := map["q" := 0]), Attach(0))
         == UnreadState(BESIDE, 0, map[], 0, Waiting("q"))
  {
    hide ApplyPoller, Parted, Closed;
    var s := Spawned(Attaching("q", 0), Exiting("q")).(queries := map["q" := 0]);
    var none: seq<nat> := [];
    var l := SubList("q", none, {}, map[], []);
    assert none + [0] == [0] && l.keys + {0} == {0} && s.lists == [l, l];
    assert [l, l][0 := l.(subs := [0], keys := {0})] == [SubList("q", [0], {0}, map[], [])] + [l];
    assert Joined(s, 0).chans == [Chan([], [], false, 0, 0, None)];
    assert Joined(s, 0).lists == [SubList("q", [0], {0}, map[], [])] + BESIDE.extra;
    assert BESIDE.others[4 := Waiting("q")] == s.threads[0 := Subscribed(0)];
  }

  lemma OvertakenRun()
    ensures Exec(OVERTAKEN) == UnreadState(BESIDE, 0, map[], 0, Waiting("q"))
  {
    SpawnsRun();
    OvertakenSteps();
    OvertakerJoins();
    hide Exec, Apply, UnreadState, Spawned, BESIDE, CALLS;
    hide SPAWNS;
    ExecNext(SPAWNS, Tick(1));
    ExecNext(SPAWNS + [Tick(1)], Insert(0));
    ExecNext(SPAWNS + [Tick(1)] + [Insert(0)], Attach(0));
  }

  lemma LockStep()
    ensures Apply(OverfullState(BESIDE), LockAccess(1))
         == OverfullState(BESIDE.(others := BESIDE.others[1 := ExitLocked("q")])).(writer := Some(1))
  {
    hide ApplyClient, Closed, Sent;
    assert BESIDE.others[4 := Publishing("q", 0)][1 := ExitLocked("q")]
        == BESIDE.others[1 := ExitLocked("q")][4 := Publishing("q", 0)];
  }

  /** Such a freeze is reached: two first Subscribes overlap, and the poller of one exits on the list of the other. */
  lemma FreezeIsReached()
    ensures Frozen(Exec(INTO_FREEZE), 4, 0, 0, 1, "q")
  {
    OvertakenRun();
    OverfullIsStuck(BESIDE, OVERTAKEN);
    LockStep();
    EveryRunIsSafe(INTO_FREEZE);
    hide Exec, Apply, Safe, OVERTAKEN, Overfull;
    ExecNext(Overfull(OVERTAKEN, 4), LockAccess(1));
  }
}
