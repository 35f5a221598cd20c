/**
 What a monitoring call can report with the query publisher in between: exactly what
 its own machine allows. For every verdict there is a joint run in which the query is
 subscribed to, Prometheus answers it once, the answer is published to the poller,
 and the poller unsubscribes before it reports.
 */
module JointVerdicts {
  import opened Types
  import B = PubSubBlocking
  import J = Joint
  import M = Monitor
  import P = PubSubSteps
  import PubSub
  import X = Stranding

  // ----- the publisher: one subscription, one answer, and back to nothing -----

  function Idle(q: string, log: seq<Float>): P.SubList {
    P.SubList(q, [], {}, map[], log)
  }

  function List(q: string, readers: map<nat, P.Reader>, log: seq<Float>): P.SubList {
    P.SubList(q, [0], {0}, readers, log)
  }

  /** Thread 0 subscribes and thread 1 is its poller. */
  function Scene(chans: seq<P.Chan>, l: P.SubList, queries: map<string, nat>, zero: P.Thread, one: P.Thread): P.System {
    P.System(chans, [l], queries, map[0 := zero, 1 := one], None, false, false)
  }

  const FIRST := P.Chan([], [], false, 0, 0, None)

  function Caller(zero: P.Thread): P.System {
    P.EMPTY.(threads := map[0 := zero])
  }

  function Joined(q: string, one: P.Thread): P.System {
    Scene([FIRST], List(q, map[], []), map[q := 0], P.Subscribed(0), one)
  }

  function Answered(q: string, v: Float, buffer: seq<Float>, readers: map<nat, P.Reader>, one: P.Thread): P.System {
    Scene([FIRST.(buffer := buffer)], List(q, readers, [v]), map[q := 0], P.Subscribed(0), one)
  }

  /** The rest of the Subscribe, and one answer published. */
  function Serving(v: Float): seq<P.Step> {
    [] + [P.LookUp(0)] + [P.Spawn(0, 1)] + [P.Insert(0)] + [P.Attach(0)]
    + [P.Tick(1)] + [P.Answer(1, Some(v))] + [P.LookUp(1)] + [P.BeginPublish(1)] + [P.Send(1)] + [P.EndPublish(1)]
  }

  lemma CallSteps(q: string)
    ensures P.Apply(P.EMPTY, P.CallSubscribe(0, q)) == Caller(P.Subscribing(q))
    ensures P.Apply(Caller(P.Subscribing(q)), P.LookUp(0)) == Caller(P.Creating(q))
    ensures P.Apply(Caller(P.Creating(q)), P.Spawn(0, 1))
         == Scene([], Idle(q, []), map[], P.Inserting(q, 0), P.Waiting(q))
  {
    hide P.ApplyClient, P.ApplyPoller;
  }

  lemma JoinSteps(q: string)
    ensures P.Apply(Scene([], Idle(q, []), map[], P.Inserting(q, 0), P.Waiting(q)), P.Insert(0))
         == Scene([], Idle(q, []), map[q := 0], P.Attaching(q, 0), P.Waiting(q))
    ensures P.Apply(Scene([], Idle(q, []), map[q := 0], P.Attaching(q, 0), P.Waiting(q)), P.Attach(0))
         == Joined(q, P.Waiting(q))
  {
    hide P.ApplyPoller, P.Parted, P.Closed;
    var l := Idle(q, []);
    assert l.subs + [0] == [0] && l.keys + {0} == {0};
    assert [l][0 := List(q, map[], [])] == [List(q, map[], [])];
    var none: seq<P.Chan> := [];
    assert none + [FIRST] == [FIRST];
  }

  lemma TickStep(q: string)
    ensures P.Apply(Joined(q, P.Waiting(q)), P.Tick(1)) == Joined(q, P.Querying(q))
  {
    hide P.ApplyClient, P.Sent, P.Closed, P.Released;
  }

  lemma AnswerStep(q: string, v: Float)
    ensures P.Apply(Joined(q, P.Querying(q)), P.Answer(1, Some(v))) == Joined(q, P.Notifying(q, v))
  {
    hide P.ApplyClient, P.Sent, P.Closed, P.Released;
  }

  lemma LookUpStep(q: string, v: Float)
    ensures P.Apply(Joined(q, P.Notifying(q, v)), P.LookUp(1)) == Joined(q, P.Starting(q, v, 0))
  {
    hide P.ApplyClient, P.ApplyPoller;
  }

  lemma BeginStep(q: string, v: Float)
    ensures P.Apply(Joined(q, P.Starting(q, v, 0)), P.BeginPublish(1))
         == Answered(q, v, [], map[1 := P.Reader(0, v)], P.Publishing(q, 0))
  {
    hide P.ApplyClient, P.Closed, P.Released, P.Sent;
    var l := List(q, map[], []);
    var none: seq<Float> := [];
    assert none + [v] == [v];
    assert l.readers[1 := P.Reader(0, v)] == map[1 := P.Reader(0, v)];
    assert [l][0 := List(q, map[1 := P.Reader(0, v)], [v])] == [List(q, map[1 := P.Reader(0, v)], [v])];
  }

  lemma SendStep(q: string, v: Float)
    ensures P.Apply(Answered(q, v, [], map[1 := P.Reader(0, v)], P.Publishing(q, 0)), P.Send(1))
         == Answered(q, v, [v], map[1 := P.Reader(1, v)], P.Publishing(q, 0))
  {
    hide P.ApplyClient, P.Closed, P.Released;
    var none: seq<Float> := [];
    assert none + [v] == [v];
    var r: map<nat, P.Reader> := map[1 := P.Reader(0, v)];
    assert r[1 := P.Reader(1, v)] == map[1 := P.Reader(1, v)];
    assert [List(q, r, [v])][0 := List(q, map[1 := P.Reader(1, v)], [v])] == [List(q, map[1 := P.Reader(1, v)], [v])];
    assert [FIRST][0 := FIRST.(buffer := [v])] == [FIRST.(buffer := [v])];
  }

  lemma EndStep(q: string, v: Float)
    ensures P.Apply(Answered(q, v, [v], map[1 := P.Reader(1, v)], P.Publishing(q, 0)), P.EndPublish(1))
         == Answered(q, v, [v], map[], P.Waiting(q))
  {
    hide P.ApplyClient, P.Closed, P.Sent;
    var r: map<nat, P.Reader> := map[1 := P.Reader(1, v)];
    assert r - {1} == map[];
    assert [List(q, r, [v])][0 := List(q, map[], [v])] == [List(q, map[], [v])];
  }

  lemma ServingRun(q: string, v: Float)
    ensures P.Exec([P.CallSubscribe(0, q)] + Serving(v)) == Answered(q, v, [v], map[], P.Waiting(q))
  {
    CallSteps(q);
    JoinSteps(q);
    TickStep(q);
    AnswerStep(q, v);
    LookUpStep(q, v);
    BeginStep(q, v);
    SendStep(q, v);
    EndStep(q, v);
    StartOfRun();
    hide P.Apply, P.Exec, Caller, Joined, Answered, Scene, List;
    var a := [] + [P.CallSubscribe(0, q)];
    var b := a + [P.LookUp(0)] + [P.Spawn(0, 1)] + [P.Insert(0)] + [P.Attach(0)];
    P.ExecNext([], P.CallSubscribe(0, q));
    P.ExecNext(a, P.LookUp(0));
    P.ExecNext(a + [P.LookUp(0)], P.Spawn(0, 1));
    P.ExecNext(a + [P.LookUp(0)] + [P.Spawn(0, 1)], P.Insert(0));
    P.ExecNext(a + [P.LookUp(0)] + [P.Spawn(0, 1)] + [P.Insert(0)], P.Attach(0));
    P.ExecNext(b, P.Tick(1));
    P.ExecNext(b + [P.Tick(1)], P.Answer(1, Some(v)));
    P.ExecNext(b + [P.Tick(1)] + [P.Answer(1, Some(v))], P.LookUp(1));
    var c := b + [P.Tick(1)] + [P.Answer(1, Some(v))] + [P.LookUp(1)];
    P.ExecNext(c, P.BeginPublish(1));
    P.ExecNext(c + [P.BeginPublish(1)], P.Send(1));
    P.ExecNext(c + [P.BeginPublish(1)] + [P.Send(1)], P.EndPublish(1));
    assert [P.CallSubscribe(0, q)] + Serving(v) == c + [P.BeginPublish(1)] + [P.Send(1)] + [P.EndPublish(1)];
  }

  lemma NoReceives(v: Float)
    ensures X.NoReceives(Serving(v)) && X.NoReceives(LEAVING)
  {
  }

  lemma StartOfRun()
    ensures P.Exec([]) == P.EMPTY
  {
  }

  /** The channel has been read, and thread 2 leaves. */
  function Leaves(q: string, v: Float, l: P.SubList, until: Option<nat>, queries: map<string, nat>, two: P.Thread)
    : P.System
  {
    P.System([FIRST.(received := [v], until := until)], [l], queries,
             map[0 := P.Subscribed(0), 1 := P.Waiting(q), 2 := two], None, false, false)
  }

  /** The rest of the Unsubscribe of the last subscriber. */
  const LEAVING: seq<P.Step> :=
    [] + [P.LookUp(2)] + [P.Detach(2)] + [P.CheckActive(2)] + [P.CloseIdle(2)] + [P.Delete(2)]

  lemma ReceiveAndCall(q: string, v: Float)
    ensures var y := P.Apply(Answered(q, v, [v], map[], P.Waiting(q)), P.Receive(0));
      && P.Apply(y, P.CallUnsubscribe(2, q, 0)) == Leaves(q, v, List(q, map[], [v]), None, map[q := 0], P.Leaving(q, 0))
      && 2 !in y.threads
  {
    hide P.ApplyClient, P.ApplyPoller;
    var ch := FIRST.(buffer := [v]);
    assert [v][1..] == [] && ch.received + [v] == [v];
    assert [ch][0 := FIRST.(received := [v])] == [FIRST.(received := [v])];
  }

  lemma DetachSteps(q: string, v: Float)
    ensures P.Apply(Leaves(q, v, List(q, map[], [v]), None, map[q := 0], P.Leaving(q, 0)), P.LookUp(2))
         == Leaves(q, v, List(q, map[], [v]), None, map[q := 0], P.Detaching(q, 0, 0))
    ensures P.Apply(Leaves(q, v, List(q, map[], [v]), None, map[q := 0], P.Detaching(q, 0, 0)), P.Detach(2))
         == Leaves(q, v, Idle(q, [v]), Some(1), map[q := 0], P.Checking(q, 0))
  {
    hide P.ApplyPoller, P.Joined, P.Closed;
    var l := List(q, map[], [v]);
    assert PubSub.Without([0], 0) == [] && l.keys - {0} == {};
    assert [l][0 := Idle(q, [v])] == [Idle(q, [v])];
    var ch := FIRST.(received := [v]);
    assert [ch][0 := ch.(until := Some(1))] == [ch.(until := Some(1))];
  }

  lemma CheckStep(q: string, v: Float)
    ensures P.Apply(Leaves(q, v, Idle(q, [v]), Some(1), map[q := 0], P.Checking(q, 0)), P.CheckActive(2))
         == Leaves(q, v, Idle(q, [v]), Some(1), map[q := 0], P.Closing(q, 0))
  {
    hide P.ApplyPoller, P.Joined, P.Parted, P.Closed;
  }

  lemma CloseStep(q: string, v: Float)
    ensures P.Apply(Leaves(q, v, Idle(q, [v]), Some(1), map[q := 0], P.Closing(q, 0)), P.CloseIdle(2))
         == Leaves(q, v, Idle(q, [v]), Some(1), map[q := 0], P.Deleting(q))
  {
    hide P.ApplyPoller, P.Joined, P.Parted;
    var l := Idle(q, [v]);
    assert [l][0 := l.(subs := [], keys := {})] == [l];
    var chans := [FIRST.(received := [v], until := Some(1))];
    assert P.CloseAll(chans, [], 1) == chans;
  }

  lemma DeleteStep(q: string, v: Float)
    ensures P.Apply(Leaves(q, v, Idle(q, [v]), Some(1), map[q := 0], P.Deleting(q)), P.Delete(2))
         == Leaves(q, v, Idle(q, [v]), Some(1), map[], P.Left)
  {
    hide P.ApplyPoller, P.Joined, P.Parted, P.Closed;
    var queries: map<string, nat> := map[q := 0];
    assert queries - {q} == map[];
  }

  lemma {:induction false} LeavingRun(q: string, v: Float, steps: seq<P.Step>)
    requires P.Exec(steps) == Leaves(q, v, List(q, map[], [v]), None, map[q := 0], P.Leaving(q, 0))
    ensures P.Exec(steps + LEAVING) == Leaves(q, v, Idle(q, [v]), Some(1), map[], P.Left)
  {
    DetachSteps(q, v);
    CheckStep(q, v);
    CloseStep(q, v);
    DeleteStep(q, v);
    hide P.Apply, P.Exec, Leaves;
    P.ExecNext(steps, P.LookUp(2));
    P.ExecNext(steps + [P.LookUp(2)], P.Detach(2));
    P.ExecNext(steps + [P.LookUp(2)] + [P.Detach(2)], P.CheckActive(2));
    P.ExecNext(steps + [P.LookUp(2)] + [P.Detach(2)] + [P.CheckActive(2)], P.CloseIdle(2));
    P.ExecNext(steps + [P.LookUp(2)] + [P.Detach(2)] + [P.CheckActive(2)] + [P.CloseIdle(2)], P.Delete(2));
    assert steps + LEAVING
        == steps + [P.LookUp(2)] + [P.Detach(2)] + [P.CheckActive(2)] + [P.CloseIdle(2)] + [P.Delete(2)];
  }

  // ----- the monitor meanwhile -----

  /** Steps of the monitoring call, and of its pollers by themselves. */
  function Owns(steps: seq<M.Step>): seq<J.Step> {
    if steps == [] then [] else Owns(steps[..|steps| - 1]) + [J.Own(steps[|steps| - 1])]
  }

  lemma {:induction false} OwnRun(rate: J.RateText, e: Exp, steps: seq<J.Step>, own: seq<M.Step>)
    requires forall i :: 0 <= i < |own| ==> J.IsOwn(own[i])
    ensures var j := J.Exec(rate, e, steps);
      J.Exec(rate, e, steps + Owns(own)) == j.(m := M.Run(j.m, own))
    ensures J.PublisherSteps(rate, e, steps + Owns(own)) == J.PublisherSteps(rate, e, steps)
  {
    hide J.Exec, J.Apply, J.PublisherSteps, M.Apply, J.IsOwn;
    if own == [] {
      assert steps + Owns(own) == steps;
    } else {
      var init, last := own[..|own| - 1], own[|own| - 1];
      OwnRun(rate, e, steps, init);
      assert steps + Owns(own) == (steps + Owns(init)) + [J.Own(last)];
      J.ExecNext(rate, e, steps + Owns(init), J.Own(last));
      X.PublisherStepsNext(rate, e, steps + Owns(init), J.Own(last));
      J.StepIs(rate, J.Exec(rate, e, steps + Owns(init)), J.Own(last));
    }
  }

  /** How a poller goes on while only the publisher moves. */
  predicate GoesOn(p: M.Poller, p': M.Poller) {
    && p'.condition == p.condition && p'.received == p.received
    && match p.stage
       case Fresh => p'.stage == M.Fresh || p'.stage == M.Polling
       case Unsubscribing(Some(r)) => p'.stage == p.stage || p'.stage == M.Sending(r)
       case _ => p'.stage == p.stage || p.stage.Unsubscribing?
  }

  lemma {:induction false} EventsGoOn(p: M.Poller, events: seq<M.Step>, k: nat)
    requires forall i :: 0 <= i < |events| ==> J.IsEvent(events[i], k)
    ensures GoesOn(p, J.MovedBy(p, events))
  {
    if events != [] {
      EventsGoOn(p, events[..|events| - 1], k);
    }
  }

  /** The publisher has moved, and of the monitor only its pollers. */
  predicate Meanwhile(j: J.State, j': J.State, k: nat) {
    && k < |j.m.pollers| && |j'.m.pollers| == |j.m.pollers| && j'.m == j.m.(pollers := j'.m.pollers)
    && GoesOn(j.m.pollers[k], j'.m.pollers[k])
  }

  lemma PublisherMoves(rate: J.RateText, j: J.State, step: J.Step, k: nat)
    requires k < |j.m.pollers| && (step.Publisher? || step.StartSubscribe? || step.StartUnsubscribe?)
    ensures Meanwhile(j, J.Apply(rate, j, step), k)
  {
    hide J.Apply, P.Apply, J.Followed, J.MovedBy, J.PublisherPart, J.SubsAfter, J.UnsubsAfter, J.EventsOf, J.IsEvent;
    J.StepIs(rate, j, step);
    var part, subs, unsubs := J.PublisherPart(rate, j, step), J.SubsAfter(j, step), J.UnsubsAfter(j, step);
    if part.Some? {
      J.FollowedPollers(j, part.value, subs, unsubs);
      var y' := P.Apply(j.y, part.value);
      J.EventsAreEvents(j.m.pollers[k], y', subs, unsubs, k);
      EventsGoOn(j.m.pollers[k], J.EventsOf(j.m.pollers[k], y', subs, unsubs, k), k);
    }
  }

  lemma MeanwhileOn(j: J.State, mid: J.State, j': J.State, k: nat)
    requires Meanwhile(j, mid, k) && Meanwhile(mid, j', k)
    ensures Meanwhile(j, j', k)
  {
  }

  lemma {:induction false} WrapMoves(rate: J.RateText, e: Exp, steps: seq<J.Step>, part: seq<P.Step>, k: nat)
    requires k < |J.Exec(rate, e, steps).m.pollers|
    ensures Meanwhile(J.Exec(rate, e, steps), J.Exec(rate, e, steps + X.Wrap(part)), k)
  {
    hide J.Exec, J.Apply;
    if part == [] {
      assert steps + X.Wrap(part) == steps;
    } else {
      hide Meanwhile, GoesOn;
      var init, last := part[..|part| - 1], J.Publisher(part[|part| - 1]);
      WrapMoves(rate, e, steps, init, k);
      var j, mid := J.Exec(rate, e, steps), J.Exec(rate, e, steps + X.Wrap(init));
      assert steps + X.Wrap(part) == (steps + X.Wrap(init)) + [last];
      J.ExecNext(rate, e, steps + X.Wrap(init), last);
      StillThere(j, mid, k);
      PublisherMoves(rate, mid, last, k);
      MeanwhileOn(j, mid, J.Exec(rate, e, steps + X.Wrap(part)), k);
    }
  }

  lemma StillThere(j: J.State, j': J.State, k: nat)
    requires Meanwhile(j, j', k)
    ensures k < |j'.m.pollers| && j'.m.exp == j.m.exp && j'.m.pollers[k].condition == j.m.pollers[k].condition
  {
  }

  /** Every run of the publisher is the publisher's half of a joint run: the monitor takes away nothing from it. */
  lemma {:induction false} EveryPublisherRun(rate: J.RateText, e: Exp, part: seq<P.Step>)
    ensures J.PublisherSteps(rate, e, X.Wrap(part)) == part
    ensures J.Exec(rate, e, X.Wrap(part)).y == P.Exec(part)
    ensures J.Exec(rate, e, X.Wrap(part)).subs == map[]
  {
    hide J.Exec, J.PublisherSteps, J.Apply, P.Exec, M.Run, J.MonitorSteps;
    J.HalvesAreRuns(rate, e, X.Wrap(part));
    if part == [] {
      NothingYet(rate, e);
    } else {
      var init, last := part[..|part| - 1], J.Publisher(part[|part| - 1]);
      EveryPublisherRun(rate, e, init);
      J.ExecNext(rate, e, X.Wrap(init), last);
      X.PublisherStepsNext(rate, e, X.Wrap(init), last);
      X.CallsAre(rate, J.Exec(rate, e, X.Wrap(init)), last);
      assert init + [part[|part| - 1]] == part;
    }
  }

  lemma {:induction false} NothingYet(rate: J.RateText, e: Exp)
    ensures J.Exec(rate, e, []) == J.Start(e) && J.PublisherSteps(rate, e, []) == []
  {
  }

  // ----- a failure, from the setup to the verdict -----

  /** Poller k has not subscribed yet, and there is nothing in the publisher. */
  ghost predicate Ready(rate: J.RateText, e: Exp, steps: seq<J.Step>, k: nat, c: nat) {
    var j := J.Exec(rate, e, steps);
    && j.m.exp == e && j.m.phase == M.Selecting && j.m.slot == None && !j.m.done && j.m.verdicts == []
    && k < |j.m.pollers| && j.m.pollers[k] == M.Born(c)
    && j.subs == map[] && j.unsubs == map[] && J.PublisherSteps(rate, e, steps) == []
  }

  lemma SetUp(rate: J.RateText, e: Exp, c: nat) returns (steps: seq<J.Step>, k: nat)
    requires M.Monitorable(e) && M.TriggerOf(e, c).Some?
    ensures Ready(rate, e, steps, k, c)
  {
    hide M.Run, M.PollersOf, M.Monitorable, M.Deadline, J.PublisherSteps;
    var own := M.SelectingRun(e);
    k := M.PollerOfCondition(e, |Conditions(e)|, c);
    OwnRun(rate, e, [], own);
    steps := [] + Owns(own);
    NothingYet(rate, e);
  }

  /** Poller k has subscribed as thread 0, and the one value published to it is in its queue. */
  ghost predicate Queued(rate: J.RateText, e: Exp, steps: seq<J.Step>, k: nat, c: nat, v: Float) {
    var j := J.Exec(rate, e, steps);
    && j.m.exp == e && j.m.phase == M.Selecting && j.m.slot == None && !j.m.done && j.m.verdicts == []
    && k < |j.m.pollers| && j.m.pollers[k].condition == c && j.m.pollers[k].stage == M.Polling
    && j.m.pollers[k].queue == [v] && j.m.pollers[k].received == []
    && j.subs == map[k := 0] && j.unsubs == map[]
    && j.y == Answered(J.QueryOf(rate, e, M.Born(c)), v, [v], map[], P.Waiting(J.QueryOf(rate, e, M.Born(c))))
  }

  lemma PollerQueues(rate: J.RateText, j: J.State, q: string, k: nat, v: Float)
    requires J.Coupled(rate, j) && k < |j.m.pollers| && j.y == Answered(q, v, [v], map[], P.Waiting(q))
    requires j.subs == map[k := 0] && (j.m.pollers[k].stage == M.Fresh || j.m.pollers[k].stage == M.Polling)
    ensures j.m.pollers[k].stage == M.Polling && j.m.pollers[k].queue == [v] && j.m.pollers[k].received == []
  {
    hide J.PublisherOk, J.QueryOf;
    assert J.TiedAt(rate, j, k);
  }

  /** Poller k has called Subscribe, as thread 0. */
  ghost predicate Called(rate: J.RateText, e: Exp, steps: seq<J.Step>, k: nat, c: nat) {
    var j := J.Exec(rate, e, steps);
    && j.m.exp == e && j.m.phase == M.Selecting && j.m.slot == None && !j.m.done && j.m.verdicts == []
    && k < |j.m.pollers| && GoesOn(M.Born(c), j.m.pollers[k]) && j.subs == map[k := 0] && j.unsubs == map[]
    && J.PublisherSteps(rate, e, steps) == [P.CallSubscribe(0, J.QueryOf(rate, e, M.Born(c)))]
  }

  lemma Calls(rate: J.RateText, e: Exp, steps: seq<J.Step>, k: nat, c: nat)
    requires Ready(rate, e, steps, k, c)
    ensures Called(rate, e, steps + [J.StartSubscribe(k, 0)], k, c)
  {
    hide J.Exec, J.Apply, J.PublisherSteps, J.QueryOf, P.Exec;
    var j, call := J.Exec(rate, e, steps), J.StartSubscribe(k, 0);
    NoPublisherYet(rate, e, steps);
    assert J.CanSubscribe(j, k, 0);
    J.ExecNext(rate, e, steps, call);
    X.PublisherStepsNext(rate, e, steps, call);
    X.CallsAre(rate, j, call);
    PublisherMoves(rate, j, call, k);
  }

  lemma {:induction false} Serves(rate: J.RateText, e: Exp, steps: seq<J.Step>, k: nat, c: nat, v: Float)
    requires Called(rate, e, steps, k, c)
    ensures Queued(rate, e, steps + X.Wrap(Serving(v)), k, c, v)
  {
    hide J.Exec, J.PublisherSteps, J.QueryOf, J.Coupled, P.Exec, Serving, X.Wrap, Answered, M.Run, J.MonitorSteps;
    var q, more := J.QueryOf(rate, e, M.Born(c)), steps + X.Wrap(Serving(v));
    NoReceives(v);
    X.WrapRun(rate, e, steps, Serving(v), k);
    WrapMoves(rate, e, steps, Serving(v), k);
    J.HalvesAreRuns(rate, e, more);
    ServingRun(q, v);
    J.EveryRunIsCoupled(rate, e, more);
    PollerQueues(rate, J.Exec(rate, e, more), q, k, v);
  }

  lemma {:induction false} NoPublisherYet(rate: J.RateText, e: Exp, steps: seq<J.Step>)
    requires J.PublisherSteps(rate, e, steps) == []
    ensures J.Exec(rate, e, steps).y == P.EMPTY
  {
    hide J.Exec, J.PublisherSteps, M.Run, J.MonitorSteps;
    J.HalvesAreRuns(rate, e, steps);
  }

  /** Poller k has found a crossing value and is in its Unsubscribe, as thread 2. */
  ghost predicate LeavingWith(rate: J.RateText, e: Exp, steps: seq<J.Step>, k: nat, q: string, v: Float, r: M.Report) {
    var j := J.Exec(rate, e, steps);
    && j.m.exp == e && j.m.phase == M.Selecting && j.m.slot == None && !j.m.done && j.m.verdicts == []
    && k < |j.m.pollers| && GoesOn(Found(j.m.pollers[k], r), j.m.pollers[k])
    && j.subs == map[k := 0] && j.unsubs == map[k := 2]
    && j.y == Leaves(q, v, List(q, map[], [v]), None, map[q := 0], P.Leaving(q, 0))
  }

  function Found(p: M.Poller, r: M.Report): M.Poller {
    p.(stage := M.Unsubscribing(Some(r)))
  }

  /** It takes the value. */
  lemma {:induction false} Takes(rate: J.RateText, e: Exp, steps: seq<J.Step>, k: nat, c: nat, v: Float, r: M.Report)
    requires Queued(rate, e, steps, k, c, v) && M.Crossing(e, c, v) == Some(r)
    ensures
      var j, j' := J.Exec(rate, e, steps), J.Exec(rate, e, steps + [J.Take(k)]);
      && j'.subs == j.subs && j'.unsubs == j.unsubs
      && |j'.m.pollers| == |j.m.pollers| && j'.m == j.m.(pollers := j'.m.pollers)
      && j'.m.pollers[k].condition == c && j'.m.pollers[k].stage == M.Unsubscribing(Some(r))
      && j'.y == P.Apply(j.y, P.Receive(0))
  {
    hide J.Exec, J.Apply, P.Apply, M.Crossing, J.QueryOf;
    J.ExecNext(rate, e, steps, J.Take(k));
    var j := J.Exec(rate, e, steps);
    assert J.Takes(j, k);
    J.StepIs(rate, j, J.Take(k));
  }

  lemma StartsLeaving(rate: J.RateText, e: Exp, steps: seq<J.Step>, k: nat, c: nat, v: Float, r: M.Report)
    returns (more: seq<J.Step>)
    requires Queued(rate, e, steps, k, c, v) && M.Crossing(e, c, v) == Some(r)
    ensures LeavingWith(rate, e, more, k, J.QueryOf(rate, e, M.Born(c)), v, r)
  {
    hide J.Exec, J.Apply, P.Apply, M.Crossing, J.QueryOf, Leaves;
    var q := J.QueryOf(rate, e, M.Born(c));
    Takes(rate, e, steps, k, c, v, r);
    var taken, call := steps + [J.Take(k)], J.StartUnsubscribe(k, 2);
    ReceiveAndCall(q, v);
    SubscriptionStays(q, v);
    var j := J.Exec(rate, e, taken);
    SameQuery(rate, e, j.m.pollers[k], c);
    assert J.CanUnsubscribe(j, k, 2) && j.y.threads[0].channel == 0;
    more := taken + [call];
    J.ExecNext(rate, e, taken, call);
    X.PublisherIs(rate, j, call);
    X.CallsAre(rate, j, call);
    PublisherMoves(rate, j, call, k);
  }

  lemma SubscriptionStays(q: string, v: Float)
    ensures var y := P.Apply(Answered(q, v, [v], map[], P.Waiting(q)), P.Receive(0));
      J.HasChannel(y, 0) && y.threads[0] == P.Subscribed(0)
  {
  }

  lemma SameQuery(rate: J.RateText, e: Exp, p: M.Poller, c: nat)
    requires p.condition == c
    ensures J.QueryOf(rate, e, p) == J.QueryOf(rate, e, M.Born(c))
  {
  }

  /** Once its Unsubscribe has returned, it holds its report out. */
  lemma HoldsOut(rate: J.RateText, j: J.State, p: M.Poller, k: nat, r: M.Report)
    requires J.Coupled(rate, j) && k < |j.m.pollers| && GoesOn(Found(p, r), j.m.pollers[k])
    requires k in j.unsubs && J.HasLeft(j.y, j.unsubs[k])
    ensures j.m.pollers[k].stage == M.Sending(r)
  {
    hide J.PublisherOk, J.QueryOf, J.OwnsChannel;
    assert J.TiedAt(rate, j, k);
  }

  lemma {:induction false} Reports(rate: J.RateText, e: Exp, steps: seq<J.Step>, k: nat,
                                   q: string, v: Float, r: M.Report)
    returns (more: seq<J.Step>)
    requires LeavingWith(rate, e, steps, k, q, v, r)
    ensures J.Exec(rate, e, more).m.verdicts == [Some(r)]
  {
    hide J.Exec, J.Apply, J.PublisherSteps, J.Coupled, P.Exec, X.Wrap, Leaves, LEAVING;
    var j := J.Exec(rate, e, steps);
    NoReceives(v);
    X.WrapRun(rate, e, steps, LEAVING, k);
    WrapMoves(rate, e, steps, LEAVING, k);
    var left := steps + X.Wrap(LEAVING);
    var j' := J.Exec(rate, e, left);
    J.HalvesAreRuns(rate, e, steps);
    J.HalvesAreRuns(rate, e, left);
    LeavingRun(q, v, J.PublisherSteps(rate, e, steps));
    ItHasLeft(q, v);
    J.EveryRunIsCoupled(rate, e, left);
    GoesOnTwice(Found(j.m.pollers[k], r), j.m.pollers[k], j'.m.pollers[k]);
    HoldsOut(rate, j', j.m.pollers[k], k, r);
    var own := [] + [M.Send(k)] + [M.SelectFailure] + [M.Write(true)];
    OwnRun(rate, e, left, own);
    SentAndWritten(j'.m, k, r);
    more := left + Owns(own);
  }

  lemma ItHasLeft(q: string, v: Float)
    ensures J.HasLeft(Leaves(q, v, Idle(q, [v]), Some(1), map[], P.Left), 2)
  {
  }

  lemma GoesOnTwice(p: M.Poller, mid: M.Poller, p': M.Poller)
    requires GoesOn(p, mid) && GoesOn(mid, p')
    ensures GoesOn(p, p')
  {
  }

  lemma {:induction false} SentAndWritten(m: M.State, k: nat, r: M.Report)
    requires m.phase == M.Selecting && m.slot == None && m.verdicts == []
    requires k < |m.pollers| && m.pollers[k].stage == M.Sending(r)
    ensures M.Run(m, [] + [M.Send(k)] + [M.SelectFailure] + [M.Write(true)]).verdicts == [Some(r)]
  {
    hide M.Run;
    M.NoSteps(m);
    M.RunNext(m, [], M.Send(k));
    M.RunNext(m, [] + [M.Send(k)], M.SelectFailure);
    M.RunNext(m, [] + [M.Send(k)] + [M.SelectFailure], M.Write(true));
  }

  // ----- which verdicts there are -----

  lemma {:induction false} FailsIf(rate: J.RateText, e: Exp, c: nat, v: Float, threshold: Float, operator: string)
    returns (steps: seq<J.Step>)
    requires M.Monitorable(e) && M.CrossesCondition(e, c, v, threshold, operator)
    ensures J.Exec(rate, e, steps).m.verdicts == [Some(M.Crossed(v, threshold, operator))]
  {
    hide J.Exec, M.Crossing, M.Compares, Ready, Called, Queued, LeavingWith, M.Monitorable, X.Wrap, Serving;
    var r := M.Crossed(v, threshold, operator);
    M.CrossingExactly(e, c, v, r);
    var k;
    steps, k := SetUp(rate, e, c);
    Calls(rate, e, steps, k, c);
    Serves(rate, e, steps + [J.StartSubscribe(k, 0)], k, c, v);
    steps := steps + [J.StartSubscribe(k, 0)] + X.Wrap(Serving(v));
    steps := StartsLeaving(rate, e, steps, k, c, v, r);
    steps := Reports(rate, e, steps, k, J.QueryOf(rate, e, M.Born(c)), v, r);
  }

  /**
   With the publisher in between: some joint run reports this value, threshold and operator, if and only if the
   experiment gets past the setup and one of its Prometheus conditions is crossed by the value.
   */
  lemma {:induction false} FailureReportedExactly(rate: J.RateText, e: Exp, v: Float, threshold: Float, operator: string)
    ensures (exists steps :: J.Exec(rate, e, steps).m.verdicts == [Some(M.Crossed(v, threshold, operator))])
       <==> M.Monitorable(e) && exists c: nat :: M.CrossesCondition(e, c, v, threshold, operator)
  {
    hide J.Exec, M.Run, M.Monitorable, M.CrossesCondition, J.MonitorSteps;
    if steps :| J.Exec(rate, e, steps).m.verdicts == [Some(M.Crossed(v, threshold, operator))] {
      J.HalvesAreRuns(rate, e, steps);
      M.FailsOnlyIf(e, J.MonitorSteps(rate, e, steps), v, threshold, operator);
    }
    if c: nat :| M.Monitorable(e) && M.CrossesCondition(e, c, v, threshold, operator) {
      var steps := FailsIf(rate, e, c, v, threshold, operator);
    }
  }

  lemma {:induction false} SucceedsIf(rate: J.RateText, e: Exp, t: Time) returns (steps: seq<J.Step>)
    requires M.Monitorable(e) && M.Deadline(e).Some? && M.Deadline(e).value <= t
    ensures J.Exec(rate, e, steps).m.verdicts == [None] && J.Exec(rate, e, steps).m.fired == Some(t)
  {
    hide J.Exec, M.Run, M.Monitorable, M.Deadline;
    var own := M.SucceedsIf(e, t);
    OwnRun(rate, e, [], own);
    NothingYet(rate, e);
    steps := [] + Owns(own);
  }

  /**
   And success is reported after a timer that fired at the instant t, in some joint run, if and only if the
   experiment gets past the setup and by then its duration, or else ten minutes, have passed since its start.
   */
  lemma {:induction false} SuccessReportedExactly(rate: J.RateText, e: Exp, t: Time)
    ensures (exists steps :: J.Exec(rate, e, steps).m.verdicts == [None] && J.Exec(rate, e, steps).m.fired == Some(t))
       <==> && M.Monitorable(e)
            && t >= e.result.timeStarted.value
                    + match e.spec.value.duration case Some(d) => d case None => 10 * 60 * 1_000_000_000
  {
    hide J.Exec, M.Run, M.Monitorable, J.MonitorSteps;
    M.SuccessReportedExactly(e, t);
    if steps :| J.Exec(rate, e, steps).m.verdicts == [None] && J.Exec(rate, e, steps).m.fired == Some(t) {
      J.HalvesAreRuns(rate, e, steps);
      M.SucceedsOnlyIf(e, J.MonitorSteps(rate, e, steps), t);
    }
    if own :| M.Run(M.Start(e), own).verdicts == [None] && M.Run(M.Start(e), own).fired == Some(t) {
      M.SucceedsOnlyIf(e, own, t);
      var steps := SucceedsIf(rate, e, t);
    }
  }
}
