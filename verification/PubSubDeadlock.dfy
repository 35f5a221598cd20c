/**
 Runs in which a publish gets stuck: ten values are published that the subscriber
 does not read, and an eleventh is begun. The subscriber's Unsubscribe, and every
 later Subscribe to the query, then wait for that publish.
 */
module PubSubDeadlock {
  import opened Types
  import opened PubSub
  import opened PubSubBlocking
  import opened PubSubSteps

  // ----- filling a buffer -----

  const VALUE: Sample := Fin(0.0)

  function Values(n: nat): (r: seq<Sample>)
    ensures |r| == n
  {
    seq(n, i => VALUE)
  }

  /** One subscriber, channel 0 of list 0, one poller that fills its buffer, other lists, and threads that stand by. */
  datatype Scene = Scene(poller: nat, others: map<nat, Thread>, extra: seq<SubList>)

  /** The state after n unread values, with the poller wherever it is. */
  function UnreadState(g: Scene, n: nat, readers: map<nat, Reader>, log: nat, thread: Thread): System {
    System([Chan(Values(n), [], false, 0, 0, None)], [SubList("q", [0], {0}, readers, Values(log))] + g.extra,
           map["q" := 0], g.others[g.poller := thread], None, false, false)
  }

  function Reading(t: nat, cursor: nat): map<nat, Reader> {
    map[t := Reader(cursor, VALUE)]
  }

  /** Poller t asks for a value and begins to publish it. */
  function Begins(start: seq<Step>, t: nat): seq<Step> {
    start + [Tick(t)] + [Answer(t, Some(VALUE))] + [LookUp(t)] + [BeginPublish(t)]
  }

  /** After the start, n values are published and none is received. */
  function Unread(start: seq<Step>, t: nat, n: nat): seq<Step> {
    if n == 0 then start else Begins(Unread(start, t, n - 1), t) + [Send(t)] + [EndPublish(t)]
  }

  lemma PollerBecomes(g: Scene, n: nat, readers: map<nat, Reader>, log: nat, before: Thread, after: Thread)
    ensures To(UnreadState(g, n, readers, log, before), g.poller, after) == UnreadState(g, n, readers, log, after)
  {
    assert g.others[g.poller := before][g.poller := after] == g.others[g.poller := after];
  }

  lemma TickStep(g: Scene, n: nat)
    ensures Apply(UnreadState(g, n, map[], n, Waiting("q")), Tick(g.poller)) == UnreadState(g, n, map[], n, Querying("q"))
  {
    hide ApplyClient, Sent, Closed, Released, To;
    PollerBecomes(g, n, map[], n, Waiting("q"), Querying("q"));
  }

  lemma AnswerStep(g: Scene, n: nat)
    ensures Apply(UnreadState(g, n, map[], n, Querying("q")), Answer(g.poller, Some(VALUE)))
         == UnreadState(g, n, map[], n, Notifying("q", VALUE))
  {
    hide ApplyClient, Sent, Closed, Released, To;
    PollerBecomes(g, n, map[], n, Querying("q"), Notifying("q", VALUE));
  }

  lemma LookUpStep(g: Scene, n: nat)
    ensures Apply(UnreadState(g, n, map[], n, Notifying("q", VALUE)), LookUp(g.poller))
         == UnreadState(g, n, map[], n, Starting("q", VALUE, 0))
  {
    hide ApplyClient, ApplyPoller, To;
    PollerBecomes(g, n, map[], n, Notifying("q", VALUE), Starting("q", VALUE, 0));
  }

  lemma FirstList(extra: seq<SubList>, l: SubList, l': SubList)
    ensures ([l] + extra)[0] == l && ([l] + extra)[0 := l'] == [l'] + extra
  {
  }

  lemma BeginStep(g: Scene, n: nat)
    ensures Apply(UnreadState(g, n, map[], n, Starting("q", VALUE, 0)), BeginPublish(g.poller))
         == UnreadState(g, n, Reading(g.poller, 0), n + 1, Publishing("q", 0))
  {
    hide ApplyClient, Sent, Closed, Released;
    assert Values(n) + [VALUE] == Values(n + 1);
    FirstList(g.extra, SubList("q", [0], {0}, map[], Values(n)), SubList("q", [0], {0}, Reading(g.poller, 0), Values(n + 1)));
    PollerBecomes(g, n, Reading(g.poller, 0), n + 1, Starting("q", VALUE, 0), Publishing("q", 0));
  }

  lemma {:induction false} BeginsRun(g: Scene, steps: seq<Step>, n: nat)
    requires Exec(steps) == UnreadState(g, n, map[], n, Waiting("q"))
    ensures Exec(Begins(steps, g.poller)) == UnreadState(g, n, Reading(g.poller, 0), n + 1, Publishing("q", 0))
  {
    hide Exec, Apply, UnreadState;
    var t := g.poller;
    TickStep(g, n);
    AnswerStep(g, n);
    LookUpStep(g, n);
    BeginStep(g, n);
    ExecNext(steps, Tick(t));
    ExecNext(steps + [Tick(t)], Answer(t, Some(VALUE)));
    ExecNext(steps + [Tick(t)] + [Answer(t, Some(VALUE))], LookUp(t));
    ExecNext(steps + [Tick(t)] + [Answer(t, Some(VALUE))] + [LookUp(t)], BeginPublish(t));
  }

  lemma SendStep(g: Scene, n: nat)
    requires n < BUFFER_SIZE
    ensures Apply(UnreadState(g, n, Reading(g.poller, 0), n + 1, Publishing("q", 0)), Send(g.poller))
         == UnreadState(g, n + 1, Reading(g.poller, 1), n + 1, Publishing("q", 0))
  {
    hide ApplyClient, Closed, Released;
    assert Values(n) + [VALUE] == Values(n + 1);
    var chans := [Chan(Values(n), [], false, 0, 0, None)];
    assert chans[0 := chans[0].(buffer := Values(n) + [VALUE])] == [Chan(Values(n + 1), [], false, 0, 0, None)];
    assert Reading(g.poller, 0)[g.poller := Reader(1, VALUE)] == Reading(g.poller, 1);
    FirstList(g.extra, SubList("q", [0], {0}, Reading(g.poller, 0), Values(n + 1)),
              SubList("q", [0], {0}, Reading(g.poller, 1), Values(n + 1)));
  }

  lemma EndStep(g: Scene, n: nat)
    ensures Apply(UnreadState(g, n, Reading(g.poller, 1), n, Publishing("q", 0)), EndPublish(g.poller))
         == UnreadState(g, n, map[], n, Waiting("q"))
  {
    hide ApplyClient, Closed, Sent;
    var none: map<nat, Reader> := map[];
    assert Reading(g.poller, 1) - {g.poller} == none;
    FirstList(g.extra, SubList("q", [0], {0}, Reading(g.poller, 1), Values(n)), SubList("q", [0], {0}, none, Values(n)));
    PollerBecomes(g, n, map[], n, Publishing("q", 0), Waiting("q"));
  }

  lemma {:induction false} UnreadRun(g: Scene, start: seq<Step>, n: nat)
    requires Exec(start) == UnreadState(g, 0, map[], 0, Waiting("q")) && n <= BUFFER_SIZE
    ensures Exec(Unread(start, g.poller, n)) == UnreadState(g, n, map[], n, Waiting("q"))
  {
    hide Begins, Exec, Apply, UnreadState;
    if n > 0 {
      var before := Unread(start, g.poller, n - 1);
      UnreadRun(g, start, n - 1);
      BeginsRun(g, before, n - 1);
      SendStep(g, n - 1);
      EndStep(g, n);
      ExecNext(Begins(before, g.poller), Send(g.poller));
      ExecNext(Begins(before, g.poller) + [Send(g.poller)], EndPublish(g.poller));
    }
  }

  /** Ten values nobody has read, and an eleventh under way. */
  function Overfull(start: seq<Step>, t: nat): seq<Step> {
    Begins(Unread(start, t, BUFFER_SIZE), t)
  }

  function OverfullState(g: Scene): System {
    UnreadState(g, BUFFER_SIZE, Reading(g.poller, 0), BUFFER_SIZE + 1, Publishing("q", 0))
  }

  lemma {:induction false} OverfullIsStuck(g: Scene, start: seq<Step>)
    requires Exec(start) == UnreadState(g, 0, map[], 0, Waiting("q"))
    ensures Exec(Overfull(start, g.poller)) == OverfullState(g)
    ensures StuckAt(OverfullState(g), g.poller, 0, 0)
  {
    hide Exec, Safe;
    UnreadRun(g, start, BUFFER_SIZE);
    BeginsRun(g, Unread(start, g.poller, BUFFER_SIZE), BUFFER_SIZE);
    EveryRunIsSafe(Overfull(start, g.poller));
  }

  // ----- one subscriber -----

  /** Thread 0 subscribes; thread 1 is its query's poller. */
  const JOINING := [CallSubscribe(0, "q")] + [LookUp(0)] + [Spawn(0, 1)] + [Insert(0)] + [Attach(0)]

  const ALONE := Scene(1, map[0 := Subscribed(0)], [])

  const CALLED := EMPTY.(threads := map[0 := Subscribing("q")])
  const MISSED := EMPTY.(threads := map[0 := Creating("q")])
  const SPAWNED := EMPTY.(lists := [SubList("q", [], {}, map[], [])], threads := map[0 := Inserting("q", 0), 1 := Waiting("q")])
  const INSERTED := SPAWNED.(queries := map["q" := 0], threads := map[0 := Attaching("q", 0), 1 := Waiting("q")])

  lemma FirstSteps()
    ensures Apply(EMPTY, CallSubscribe(0, "q")) == CALLED
    ensures Apply(CALLED, LookUp(0)) == MISSED
    ensures Apply(MISSED, Spawn(0, 1)) == SPAWNED
  {
    hide ApplyPoller, ApplyClient;
  }

  lemma LastSteps()
    ensures Apply(SPAWNED, Insert(0)) == INSERTED
    ensures Apply(INSERTED, Attach(0)) == UnreadState(ALONE, 0, map[], 0, Waiting("q"))
  {
    hide ApplyPoller, Parted, Closed;
    var none: seq<nat> := [];
    var l := SubList("q", none, {}, map[], []);
    assert none + [0] == [0] && l.keys + {0} == {0} && INSERTED.lists == [l];
    assert [l][0 := l.(subs := [0], keys := {0})] == [SubList("q", [0], {0}, map[], [])];
    assert Joined(INSERTED, 0).chans == [Chan([], [], false, 0, 0, None)];
    assert Joined(INSERTED, 0).lists == [SubList("q", [0], {0}, map[], [])];
    assert [SubList("q", [0], {0}, map[], [])] + ALONE.extra == [SubList("q", [0], {0}, map[], [])];
  }

  lemma JoiningRun()
    ensures Exec(JOINING) == UnreadState(ALONE, 0, map[], 0, Waiting("q"))
  {
    FirstSteps();
    LastSteps();
    StartRun();
    hide Exec, Apply, UnreadState, ALONE, CALLED, MISSED, SPAWNED, INSERTED, EMPTY;
    var a := [CallSubscribe(0, "q")];
    assert [] + a == a;
    ExecNext([], CallSubscribe(0, "q"));
    ExecNext(a, LookUp(0));
    ExecNext(a + [LookUp(0)], Spawn(0, 1));
    ExecNext(a + [LookUp(0)] + [Spawn(0, 1)], Insert(0));
    ExecNext(a + [LookUp(0)] + [Spawn(0, 1)] + [Insert(0)], Attach(0));
  }

  lemma StartRun()
    ensures Exec([]) == EMPTY
  {
  }

  // ----- it wants to leave, and another wants to join -----

  const OVERFULL := Overfull(JOINING, 1)

  /** The subscriber leaves without having read its buffer. */
  const INTO_DEADLOCK := OVERFULL + [CallUnsubscribe(2, "q", 0)] + [LookUp(2)]

  /** Another Subscribe to the query comes after that. */
  const ALSO_JOINING := INTO_DEADLOCK + [CallSubscribe(3, "q")] + [LookUp(3)]

  lemma CallStep(g: Scene, t: nat)
    requires t !in g.others && t != g.poller
    ensures Apply(Apply(OverfullState(g), CallUnsubscribe(t, "q", 0)), LookUp(t))
         == OverfullState(g.(others := g.others[t := Detaching("q", 0, 0)]))
    ensures Apply(Apply(OverfullState(g), CallSubscribe(t, "q")), LookUp(t))
         == OverfullState(g.(others := g.others[t := Attaching("q", 0)]))
  {
    hide ApplyClient, ApplyPoller;
    var p := Publishing("q", 0);
    assert g.others[g.poller := p][t := Leaving("q", 0)][t := Detaching("q", 0, 0)]
        == g.others[t := Detaching("q", 0, 0)][g.poller := p];
    assert g.others[g.poller := p][t := Subscribing("q")][t := Attaching("q", 0)]
        == g.others[t := Attaching("q", 0)][g.poller := p];
  }

  const LEAVING := ALONE.(others := ALONE.others[2 := Detaching("q", 0, 0)])
  const BOTH := LEAVING.(others := LEAVING.others[3 := Attaching("q", 0)])

  lemma DeadlockRun()
    ensures Exec(INTO_DEADLOCK) == OverfullState(LEAVING)
  {
    JoiningRun();
    OverfullIsStuck(ALONE, JOINING);
    CallStep(ALONE, 2);
    hide Exec, Apply, OverfullState, Overfull;
    ExecNext(OVERFULL, CallUnsubscribe(2, "q", 0));
    ExecNext(OVERFULL + [CallUnsubscribe(2, "q", 0)], LookUp(2));
  }

  lemma BothRun()
    ensures Exec(ALSO_JOINING) == OverfullState(BOTH)
  {
    DeadlockRun();
    CallStep(LEAVING, 3);
    hide Exec, Apply, OverfullState, INTO_DEADLOCK;
    ExecNext(INTO_DEADLOCK, CallSubscribe(3, "q"));
    ExecNext(INTO_DEADLOCK + [CallSubscribe(3, "q")], LookUp(3));
  }

  /** Such deadlocks are reached with ten unread values, by a subscriber that leaves, and by one that joins. */
  lemma DeadlockIsReached()
    ensures Deadlocked(Exec(INTO_DEADLOCK), 1, 2, 0, 0)
    ensures Deadlocked(Exec(ALSO_JOINING), 1, 3, 0, 0)
    ensures |Exec(ALSO_JOINING).chans[0].buffer| == 10
  {
    hide Exec, Safe, INTO_DEADLOCK, ALSO_JOINING;
    DeadlockRun();
    BothRun();
    EveryRunIsSafe(INTO_DEADLOCK);
    EveryRunIsSafe(ALSO_JOINING);
  }

  /**
   So the Unsubscribe and the Subscribe never return and that poller never publishes again, unless the
   subscriber that is leaving receives, or the root context ends.
   */
  lemma {:induction false} DeadlockIsForever(more: seq<Step>)
    requires NoRelief(more, 0)
    ensures var s := Exec(ALSO_JOINING + more);
      && 1 in s.threads && s.threads[1] == Publishing("q", 0) && !PublisherMoves(s, 1)
      && 2 in s.threads && s.threads[2] == Detaching("q", 0, 0) && WaitsForLock(s, 2)
      && 3 in s.threads && s.threads[3] == Attaching("q", 0) && WaitsForLock(s, 3)
  {
    hide ALSO_JOINING, Exec, Apply, Safe, PublisherMoves;
    BothRun();
    DeadlockIsReached();
    BothStuck();
    DeadlockStays(ALSO_JOINING, more, 1, 2, 0, 0);
    DeadlockStays(ALSO_JOINING, more, 1, 3, 0, 0);
    PublisherIsStuckExactly(ALSO_JOINING + more, 1);
    assert NextIs(Exec(ALSO_JOINING + more), 1, 0, 0) && Full(Exec(ALSO_JOINING + more), 0);
    assert 1 in Exec(ALSO_JOINING + more).lists[0].readers;
  }

  lemma BothStuck()
    ensures Deadlocked(Exec(ALSO_JOINING), 1, 2, 0, 0)
  {
    hide Exec, Safe, ALSO_JOINING;
    BothRun();
    EveryRunIsSafe(ALSO_JOINING);
  }
}
