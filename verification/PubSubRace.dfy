/**
 Subscribe is check-then-act: two calls that both find no list for a query leave
 one of them subscribed to a list that no poller ever serves.
 */
module PubSubRace {
  import opened Types
  import opened PubSub
  import opened PubSubDeadlock
  import opened PubSubServed
  import opened PubSubSteps

  /** Both of two Subscribe calls look the query up before either inserts its list. */
  const BOTH_MISS := [CallSubscribe(0, "q"), CallSubscribe(1, "q"), LookUp(0), LookUp(1), Spawn(0, 2), Spawn(1, 3)]

  const BOTH_INSERT := BOTH_MISS + [Insert(0)] + [Insert(1)]

  const BOTH_SUBSCRIBE := BOTH_INSERT + [Attach(0)] + [Attach(1)]

  lemma BothMiss()
    ensures var s := Exec(BOTH_MISS);
      && s.lists == [SubList("q", [], {}, map[], []), SubList("q", [], {}, map[], [])]
      && s.chans == [] && s.queries == map[] && s.writer == None
      && s.threads.Keys == {0, 1, 2, 3} && s.threads[0] == Inserting("q", 0) && s.threads[1] == Inserting("q", 1)
      && s.threads[2] == s.threads[3] == Waiting("q")
  {
    hide ApplyClient, ApplyPoller;
    var r := BOTH_MISS;
    forall k | 0 <= k < 6 ensures r[..k + 1] == r[..k] + [r[k]] {
    }
    ExecNext(r[..0], r[0]);
    ExecNext(r[..1], r[1]);
    ExecNext(r[..2], r[2]);
    ExecNext(r[..3], r[3]);
    ExecNext(r[..4], r[4]);
    ExecNext(r[..5], r[5]);
    assert r[..0] == [] && r[..6] == r;
  }

  lemma BothInsert()
    ensures var s := Exec(BOTH_INSERT);
      && s.lists == [SubList("q", [], {}, map[], []), SubList("q", [], {}, map[], [])]
      && s.chans == [] && s.queries == map["q" := 1]
      && s.threads.Keys == {0, 1, 2, 3} && s.threads[0] == Attaching("q", 0) && s.threads[1] == Attaching("q", 1)
      && s.threads[2] == s.threads[3] == Waiting("q")
  {
    hide BOTH_MISS, ApplyPoller, Joined, Parted, Closed;
    BothMiss();
    ExecNext(BOTH_MISS, Insert(0));
    ExecNext(BOTH_MISS + [Insert(0)], Insert(1));
  }

  lemma AttachNext(s: System, t: nat, q: string, p: nat)
    requires t in s.threads && s.threads[t] == Attaching(q, p) && Writable(s, p)
    ensures Apply(s, Attach(t)) == To(Joined(s, p), t, Subscribed(|s.chans|))
  {
  }

  lemma FirstJoins(s: System, p: nat)
    requires Writable(s, p) && s.lists[p].subs == [] && s.lists[p].log == []
    ensures Joined(s, p) == s.(
      chans := s.chans + [Chan([], [], false, p, 0, None)],
      lists := s.lists[p := s.lists[p].(subs := [|s.chans|], keys := s.lists[p].keys + {|s.chans|})])
  {
    assert [] + [|s.chans|] == [|s.chans|];
  }

  lemma FirstAttaches()
    ensures var s := Exec(BOTH_INSERT + [Attach(0)]);
      && s.lists == [SubList("q", [0], {0}, map[], []), SubList("q", [], {}, map[], [])]
      && s.chans == [Chan([], [], false, 0, 0, None)] && s.queries == map["q" := 1]
      && s.threads.Keys == {0, 1, 2, 3} && s.threads[0] == Subscribed(0) && s.threads[1] == Attaching("q", 1)
      && s.threads[2] == s.threads[3] == Waiting("q")
  {
    hide BOTH_INSERT, Apply, Joined;
    BothInsert();
    ExecNext(BOTH_INSERT, Attach(0));
    AttachNext(Exec(BOTH_INSERT), 0, "q", 0);
    FirstJoins(Exec(BOTH_INSERT), 0);
    var none: set<nat> := {};
    assert none + {0} == {0};
  }

  /** The loser of the race is subscribed to a list that is in no map. */
  lemma SubscribeRaceOrphansASubscriber()
    ensures var s := Exec(BOTH_SUBSCRIBE);
      && s.threads.Keys == {0, 1, 2, 3} && s.threads[0] == Subscribed(0) && s.threads[1] == Subscribed(1)
      && s.threads[2] == s.threads[3] == Waiting("q")
      && |s.lists| == 2 && s.lists[0].subs == [0] && s.lists[1].subs == [1]
      && s.queries == map["q" := 1] && |s.chans| == 2 && s.chans[0] == Chan([], [], false, 0, 0, None)
  {
    hide BOTH_INSERT, Apply, Joined;
    FirstAttaches();
    ExecNext(BOTH_INSERT + [Attach(0)], Attach(1));
    AttachNext(Exec(BOTH_INSERT + [Attach(0)]), 1, "q", 1);
    FirstJoins(Exec(BOTH_INSERT + [Attach(0)]), 1);
  }

  /** A thread that may still put list p into the map, or publish on it. */
  predicate MayRevive(thread: Thread, p: nat) {
    match thread
    case Inserting(_, l) => l == p
    case Starting(_, _, l) => l == p
    case Publishing(_, l) => l == p
    case _ => false
  }

  /** A list that is in no map, and that no thread is about to insert or publish on. */
  ghost predicate Orphaned(s: System, p: nat) {
    && p < |s.lists|
    && (forall q :: q in s.queries ==> s.queries[q] != p)
    && (forall t :: t in s.threads ==> !MayRevive(s.threads[t], p))
  }

  /** What one step owes a channel of an orphaned list. */
  ghost predicate StaysSilent(s: System, s': System, p: nat, c: nat) {
    && Orphaned(s', p) && c < |s.chans| <= |s'.chans|
    && s'.chans[c].home == s.chans[c].home && Stream(s'.chans[c]) == Stream(s.chans[c])
  }

  lemma ClientKeepsOrphan(s: System, step: Step, t: nat, p: nat, c: nat)
    requires Safe(s) && Orphaned(s, p) && c < |s.chans| && t in s.threads
    ensures StaysSilent(s, ApplyClient(s, step, t), p, c)
  {
    hide Safe, Without;
    assert !MayRevive(s.threads[t], p);
  }

  /** A publish on another list does not reach this one's channels. */
  lemma SentKeepsOrphan(s: System, t: nat, p: nat, c: nat, r: nat)
    requires Safe(s) && Orphaned(s, p) && c < |s.chans| && s.chans[c].home == p
    requires r < |s.lists| && r != p && t in s.lists[r].readers
    ensures StaysSilent(s, Sent(s, t, r), p, c)
  {
    var l := s.lists[r];
    assert ListOk(s.chans, l, r);
    assert l.readers[t].cursor < |l.subs| ==> l.subs[l.readers[t].cursor] in l.subs;
  }

  lemma ClosedKeepsOrphan(s: System, p: nat, c: nat, r: nat)
    requires Orphaned(s, p) && c < |s.chans| && r < |s.lists|
    ensures StaysSilent(s, Closed(s, r), p, c)
    ensures Closed(s, r).queries == s.queries && Closed(s, r).threads == s.threads
  {
  }

  lemma PollerKeepsOrphan(s: System, step: Step, t: nat, p: nat, c: nat)
    requires Safe(s) && Orphaned(s, p) && c < |s.chans| && s.chans[c].home == p && t in s.threads
    ensures StaysSilent(s, ApplyPoller(s, step, t), p, c)
  {
    hide Safe, Without, Sent, Closed, Stream;
    assert !MayRevive(s.threads[t], p);
    if s.threads[t].ExitLocked? && s.threads[t].query in s.queries && s.queries[s.threads[t].query] < |s.lists| {
      ClosedKeepsOrphan(s, p, c, s.queries[s.threads[t].query]);
    }
    if step.Send? && s.threads[t].Publishing? && s.threads[t].list < |s.lists| && t in s.lists[s.threads[t].list].readers {
      SentKeepsOrphan(s, t, p, c, s.threads[t].list);
    }
  }

  lemma StepKeepsOrphan(s: System, step: Step, p: nat, c: nat)
    requires Safe(s) && Orphaned(s, p) && c < |s.chans| && s.chans[c].home == p
    ensures StaysSilent(s, Apply(s, step), p, c)
  {
    hide ApplyClient, ApplyPoller, Safe;
    match step
    case Receive(d) =>
      if d < |s.chans| && s.chans[d].buffer != [] {
        assert [s.chans[d].buffer[0]] + s.chans[d].buffer[1..] == s.chans[d].buffer;
      }
    case Spawn(t, poller) =>
    case LookUp(t) => assert t in s.threads ==> !MayRevive(s.threads[t], p);
    case CallSubscribe(t, q) =>
    case CallUnsubscribe(t, q, d) =>
    case CancelRoot =>
    case _ =>
      if step.t in s.threads {
        ClientKeepsOrphan(s, step, step.t, p, c);
        PollerKeepsOrphan(s, step, step.t, p, c);
      }
  }

  lemma SilentIsOrphaned(s: System, t: System, p: nat, c: nat)
    requires StaysSilent(s, t, p, c)
    ensures Orphaned(t, p) && c < |t.chans| && t.chans[c].home == s.chans[c].home
  {
  }

  lemma SilentThrough(s: System, t: System, u: System, p: nat, c: nat)
    requires StaysSilent(s, t, p, c) && StaysSilent(t, u, p, c)
    ensures StaysSilent(s, u, p, c)
  {
  }

  lemma SilentAtOnce(s: System, p: nat, c: nat)
    requires Orphaned(s, p) && c < |s.chans| && s.chans[c].home == p
    ensures StaysSilent(s, s, p, c)
  {
  }

  /** In every continuation, a channel of an orphaned list is sent nothing more. */
  lemma {:induction false} OrphanIsNeverServed(steps: seq<Step>, more: seq<Step>, p: nat, c: nat)
    requires Orphaned(Exec(steps), p) && c < |Exec(steps).chans| && Exec(steps).chans[c].home == p
    ensures StaysSilent(Exec(steps), Exec(steps + more), p, c)
  {
    hide Exec, Apply, Safe, Orphaned, StaysSilent;
    if more == [] {
      assert steps + more == steps;
      SilentAtOnce(Exec(steps), p, c);
    } else {
      var init, last := more[..|more| - 1], more[|more| - 1];
      OrphanIsNeverServed(steps, init, p, c);
      SilentIsOrphaned(Exec(steps), Exec(steps + init), p, c);
      EveryRunIsSafe(steps + init);
      StepKeepsOrphan(Exec(steps + init), last, p, c);
      assert steps + more == (steps + init) + [last];
      ExecNext(steps + init, last);
      SilentThrough(Exec(steps), Exec(steps + init), Exec(steps + more), p, c);
    }
  }

  /** The loser of the Subscribe race is such a channel: its Subscribe returned, and it will never get a value. */
  lemma {:induction false} LoserIsNeverServed(more: seq<Step>)
    ensures |Exec(BOTH_SUBSCRIBE + more).chans| > 0 && Stream(Exec(BOTH_SUBSCRIBE + more).chans[0]) == []
  {
    LoserIsOrphaned();
    OrphanIsNeverServed(BOTH_SUBSCRIBE, more, 0, 0);
  }

  lemma LoserIsOrphaned()
    ensures var s := Exec(BOTH_SUBSCRIBE);
      Orphaned(s, 0) && |s.chans| > 0 && s.chans[0].home == 0 && Stream(s.chans[0]) == []
  {
    hide BOTH_SUBSCRIBE;
    SubscribeRaceOrphansASubscriber();
  }

  // ----- Unsubscribe is check-then-act, too -----

  /** The only subscriber leaves, and the list is found idle. */
  const FOUND_IDLE := JOINING + [CallUnsubscribe(2, "q", 0)] + [LookUp(2)] + [Detach(2)] + [CheckActive(2)]

  /** Before it is closed, another one subscribes. */
  const LATE := FOUND_IDLE + [CallSubscribe(3, "q")] + [LookUp(3)] + [Attach(3)]

  /** The states on the way: the channels, the list's subscribers, the leaving and the late thread. */
  function OnTheWay(chans: seq<Chan>, subs: seq<nat>, keys: set<nat>, threads: map<nat, Thread>): System {
    System(chans, [SubList("q", subs, keys, map[], [])], map["q" := 0], threads, None, false, false)
  }

  const FIRST := Chan([], [], false, 0, 0, None)
  const GONE := FIRST.(until := Some(0))
  const BASE: map<nat, Thread> := map[0 := Subscribed(0), 1 := Waiting("q")]

  lemma JoinedOnTheWay()
    ensures Exec(JOINING) == OnTheWay([FIRST], [0], {0}, BASE)
  {
    JoiningRun();
  }

  lemma LeavingSteps()
    ensures Apply(OnTheWay([FIRST], [0], {0}, BASE), CallUnsubscribe(2, "q", 0))
         == OnTheWay([FIRST], [0], {0}, BASE[2 := Leaving("q", 0)])
    ensures Apply(OnTheWay([FIRST], [0], {0}, BASE[2 := Leaving("q", 0)]), LookUp(2))
         == OnTheWay([FIRST], [0], {0}, BASE[2 := Detaching("q", 0, 0)])
  {
    hide ApplyClient, ApplyPoller;
    assert BASE[2 := Leaving("q", 0)][2 := Detaching("q", 0, 0)] == BASE[2 := Detaching("q", 0, 0)];
  }

  lemma OnlyOneLeaves(threads: map<nat, Thread>)
    ensures Parted(OnTheWay([FIRST], [0], {0}, threads), 0, 0) == OnTheWay([GONE], [], {}, threads)
  {
    var subs: seq<nat>, keys: set<nat> := [0], {0};
    assert subs[1..] == [] && Without(subs, 0) == [];
    var l := SubList("q", subs, keys, map[], []);
    assert keys - {0} == {};
    assert [l][0 := l.(subs := [], keys := {})] == [SubList("q", [], {}, map[], [])];
    assert [FIRST][0 := GONE] == [GONE];
  }

  lemma IdleSteps()
    ensures Apply(OnTheWay([FIRST], [0], {0}, BASE[2 := Detaching("q", 0, 0)]), Detach(2))
         == OnTheWay([GONE], [], {}, BASE[2 := Checking("q", 0)])
    ensures Apply(OnTheWay([GONE], [], {}, BASE[2 := Checking("q", 0)]), CheckActive(2))
         == OnTheWay([GONE], [], {}, BASE[2 := Closing("q", 0)])
  {
    hide ApplyPoller, Joined, Parted, Closed;
    OnlyOneLeaves(BASE[2 := Detaching("q", 0, 0)]);
    assert BASE[2 := Detaching("q", 0, 0)][2 := Checking("q", 0)] == BASE[2 := Checking("q", 0)];
    assert BASE[2 := Checking("q", 0)][2 := Closing("q", 0)] == BASE[2 := Closing("q", 0)];
  }

  const IDLE := BASE[2 := Closing("q", 0)]

  lemma LateSteps()
    ensures Apply(OnTheWay([GONE], [], {}, IDLE), CallSubscribe(3, "q")) == OnTheWay([GONE], [], {}, IDLE[3 := Subscribing("q")])
    ensures Apply(OnTheWay([GONE], [], {}, IDLE[3 := Subscribing("q")]), LookUp(3))
         == OnTheWay([GONE], [], {}, IDLE[3 := Attaching("q", 0)])
  {
    hide ApplyClient, ApplyPoller;
    assert IDLE[3 := Subscribing("q")][3 := Attaching("q", 0)] == IDLE[3 := Attaching("q", 0)];
  }

  lemma LateAttaches()
    ensures Apply(OnTheWay([GONE], [], {}, IDLE[3 := Attaching("q", 0)]), Attach(3))
         == OnTheWay([GONE, FIRST], [1], {1}, IDLE[3 := Subscribed(1)])
  {
    hide Apply, Joined;
    var s := OnTheWay([GONE], [], {}, IDLE[3 := Attaching("q", 0)]);
    AttachNext(s, 3, "q", 0);
    FirstJoins(s, 0);
    var none: set<nat> := {};
    assert none + {1} == {1};
    var l := SubList("q", [], none, map[], []);
    assert [l][0 := l.(subs := [1], keys := {1})] == [SubList("q", [1], {1}, map[], [])];
    assert IDLE[3 := Attaching("q", 0)][3 := Subscribed(1)] == IDLE[3 := Subscribed(1)];
  }

  /** The late subscriber never left, and is closed all the same, together with the list it has just joined. */
  lemma LateSubscriberIsClosed()
    ensures var s := Exec(LATE);
      && 3 in s.threads && s.threads[3] == Subscribed(1)
      && |s.chans| == 2 && !s.chans[1].closed && s.chans[1].until == None
    ensures var t := Exec(LATE + [CloseIdle(2)]); |t.chans| == 2 && t.chans[1].closed
  {
    hide Exec, Apply, OnTheWay, JOINING, BASE, IDLE, FIRST, GONE;
    JoinedOnTheWay();
    LeavingSteps();
    IdleSteps();
    LateSteps();
    LateAttaches();
    ExecNext(JOINING, CallUnsubscribe(2, "q", 0));
    ExecNext(JOINING + [CallUnsubscribe(2, "q", 0)], LookUp(2));
    ExecNext(JOINING + [CallUnsubscribe(2, "q", 0)] + [LookUp(2)], Detach(2));
    ExecNext(JOINING + [CallUnsubscribe(2, "q", 0)] + [LookUp(2)] + [Detach(2)], CheckActive(2));
    SameIdle();
    ExecNext(FOUND_IDLE, CallSubscribe(3, "q"));
    ExecNext(FOUND_IDLE + [CallSubscribe(3, "q")], LookUp(3));
    ExecNext(FOUND_IDLE + [CallSubscribe(3, "q")] + [LookUp(3)], Attach(3));
    ExecNext(LATE, CloseIdle(2));
    LateIsClosed();
  }

  lemma SameIdle()
    ensures OnTheWay([GONE], [], {}, IDLE) == OnTheWay([GONE], [], {}, BASE[2 := Closing("q", 0)])
  {
  }

  lemma LateIsClosed()
    ensures var s := OnTheWay([GONE, FIRST], [1], {1}, IDLE[3 := Subscribed(1)]);
      && 3 in s.threads && s.threads[3] == Subscribed(1)
      && |s.chans| == 2 && !s.chans[1].closed && s.chans[1].until == None
      && Evicts(s, CloseIdle(2)) && |Apply(s, CloseIdle(2)).chans| == 2 && Apply(s, CloseIdle(2)).chans[1].closed
  {
    hide ApplyPoller, Joined, Parted;
  }
}
