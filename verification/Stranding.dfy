/**
 Pollers that never come to an end: how the publisher's locks hold up a monitor.
 All of it is about runs of the joint machine.
 */
module Stranding {
  import opened Types
  import B = PubSubBlocking
  import C = PubSubCalls
  import D = PubSubDeadlock
  import J = Joint
  import M = Monitor
  import P = PubSubSteps
  import PubSub
  import W = PubSubWindows

  /** The thread of the Subscribe or the Unsubscribe that poller k is in. */
  function CallOf(j: J.State, k: nat): Option<nat> {
    if k >= |j.m.pollers| then None
    else
      match j.m.pollers[k].stage
      case Fresh => J.At(j.subs, k)
      case Unsubscribing(_) => J.At(j.unsubs, k)
      case _ => None
  }

  /** The publisher lets thread t go on. */
  predicate Goes(y: P.System, t: nat, poller: nat) {
    t in y.threads && (B.InSubscribe(y.threads[t]) || B.InUnsubscribe(y.threads[t]))
    && P.Apply(y, B.NextStep(y.threads[t], t, poller)) != y
  }

  lemma CallIsTied(rate: J.RateText, j: J.State, k: nat, t: nat)
    requires J.Coupled(rate, j) && CallOf(j, k) == Some(t)
    ensures t in j.y.threads && (B.InSubscribe(j.y.threads[t]) || B.InUnsubscribe(j.y.threads[t]))
    ensures M.WaitsForLock(j.m, k) <==> B.WaitsForLock(j.y, t)
  {
    hide B.WaitsForLock, J.PublisherOk, J.OwnsChannel, J.QueryOf;
    assert J.TiedAt(rate, j, k);
  }

  lemma NoCallNoLock(rate: J.RateText, j: J.State, k: nat)
    requires J.Coupled(rate, j) && k < |j.m.pollers| && CallOf(j, k) == None
    ensures !M.WaitsForLock(j.m, k)
  {
    hide B.WaitsForLock, J.PublisherOk, J.OwnsChannel, J.QueryOf;
    assert J.TiedAt(rate, j, k);
  }

  /**
   In every joint run, a live poller of a cancelled call can move if and only if it is in no call of the
   publisher, or the publisher lets that call take its next step.
   */
  lemma {:induction false} PollerMovesWithItsCall(rate: J.RateText, e: Exp, steps: seq<J.Step>, k: nat, poller: nat)
    requires var j := J.Exec(rate, e, steps);
      j.m.done && k < |j.m.pollers| && j.m.pollers[k].stage != M.Finished && poller !in j.y.threads
    ensures var j := J.Exec(rate, e, steps);
      M.CanMove(j.m, k) <==> (CallOf(j, k).Some? ==> Goes(j.y, CallOf(j, k).value, poller))
  {
    hide J.Exec, P.Apply, M.CanMove, M.WaitsForLock, B.WaitsForLock, CallOf, P.Exec, J.Coupled;
    var j := J.Exec(rate, e, steps);
    J.EveryRunIsCoupled(rate, e, steps);
    J.HalvesAreRuns(rate, e, steps);
    M.CanMoveExactly(j.m, k);
    match CallOf(j, k)
    case None => NoCallNoLock(rate, j, k);
    case Some(t) =>
      CallIsTied(rate, j, k, t);
      if B.InSubscribe(j.y.threads[t]) {
        B.SubscribeMovesExactly(J.PublisherSteps(rate, e, steps), t, poller);
      } else {
        B.UnsubscribeMovesExactly(J.PublisherSteps(rate, e, steps), t, poller);
      }
  }

  // ----- stranded pollers -----

  /** A publish is stuck on list p at channel c, and poller k is in a call that needs that list next. */
  ghost predicate Stranded(j: J.State, k: nat, u: nat, t: nat, p: nat, c: nat) {
    CallOf(j, k) == Some(u) && B.StuckAt(j.y, t, p, c) && B.WantsList(j.y, u, p)
  }

  lemma StrandedIsDeadlocked(j: J.State, k: nat, u: nat, t: nat, p: nat, c: nat)
    requires Stranded(j, k, u, t, p, c)
    ensures B.Deadlocked(j.y, t, u, p, c) && u in j.y.threads && B.WaitsForLock(j.y, u)
    ensures B.InSubscribe(j.y.threads[u]) || B.InUnsubscribe(j.y.threads[u])
  {
  }

  /** A stranded poller cannot move. */
  lemma StrandedCannotMove(rate: J.RateText, j: J.State, k: nat, u: nat, t: nat, p: nat, c: nat)
    requires J.Coupled(rate, j) && Stranded(j, k, u, t, p, c)
    ensures !M.CanMove(j.m, k)
  {
    hide J.Coupled, Stranded, CallOf, B.WaitsForLock, M.WaitsForLock, M.CanMove, B.Deadlocked;
    StrandedIsDeadlocked(j, k, u, t, p, c);
    StillInIt(j, k, u, t, p, c);
    CallIsTied(rate, j, k, u);
    M.WaitingCannotMove(j.m, k);
  }

  lemma StillInIt(j: J.State, k: nat, u: nat, t: nat, p: nat, c: nat)
    requires Stranded(j, k, u, t, p, c)
    ensures CallOf(j, k) == Some(u)
  {
  }

  lemma PollersStay(rate: J.RateText, j: J.State, step: J.Step, k: nat)
    requires k < |j.m.pollers|
    ensures var j' := J.Apply(rate, j, step);
      && k < |j'.m.pollers| && j'.m.pollers[k].condition == j.m.pollers[k].condition
      && (k in j.subs ==> J.At(j'.subs, k) == J.At(j.subs, k))
      && (k in j.unsubs ==> J.At(j'.unsubs, k) == J.At(j.unsubs, k))
      && (!step.Own? && !step.Take? ==> j'.m.done == j.m.done)
  {
    hide J.Apply, M.Apply, P.Apply, J.QueryOf, J.Followed, J.Owned, J.MovedBy, J.EventsOf;
    J.StepIs(rate, j, step);
    match step
    case Own(s) => if J.IsOwn(s) { J.OwnSize(j.m, s); OwnCondition(j.m, s, k); }
    case Take(i) => if J.Takes(j, i) { J.OnlyPollerTakes(j.m, i); }
    case Publisher(_) => PartStays(rate, j, step, k);
    case StartSubscribe(_, _) => PartStays(rate, j, step, k);
    case StartUnsubscribe(_, _) => PartStays(rate, j, step, k);
  }

  lemma OwnCondition(m: M.State, step: M.Step, k: nat)
    requires J.IsOwn(step) && k < |m.pollers|
    ensures k < |M.Apply(m, step).pollers| && M.Apply(m, step).pollers[k].condition == m.pollers[k].condition
  {
    hide Conditions, M.InvalidQuery;
  }

  lemma PartStays(rate: J.RateText, j: J.State, step: J.Step, k: nat)
    requires k < |j.m.pollers| && (step.Publisher? || step.StartSubscribe? || step.StartUnsubscribe?)
    ensures var part, subs, unsubs := J.PublisherPart(rate, j, step), J.SubsAfter(j, step), J.UnsubsAfter(j, step);
      part.Some? ==>
        var m' := J.Followed(j, part.value, subs, unsubs).m;
        && |m'.pollers| == |j.m.pollers| && m'.done == j.m.done && m'.pollers[k].condition == j.m.pollers[k].condition
        && J.Followed(j, part.value, subs, unsubs).subs == subs && J.Followed(j, part.value, subs, unsubs).unsubs == unsubs
  {
    hide P.Apply, J.Followed, J.MovedBy, J.EventsOf, J.PublisherPart, J.SubsAfter, J.UnsubsAfter;
    var part, subs, unsubs := J.PublisherPart(rate, j, step), J.SubsAfter(j, step), J.UnsubsAfter(j, step);
    if part.Some? {
      J.FollowedPollers(j, part.value, subs, unsubs);
      J.FollowedIs(j, part.value, subs, unsubs);
      J.ConditionStays(j.m.pollers[k], J.EventsOf(j.m.pollers[k], P.Apply(j.y, part.value), subs, unsubs, k));
    }
  }

  /** A poller whose call has not returned is still in it. */
  lemma CallGoesOn(rate: J.RateText, j: J.State, j': J.State, k: nat, u: nat)
    requires J.Coupled(rate, j) && J.Coupled(rate, j') && CallOf(j, k) == Some(u) && k < |j'.m.pollers|
    requires k in j.subs ==> J.At(j'.subs, k) == J.At(j.subs, k)
    requires k in j.unsubs ==> J.At(j'.unsubs, k) == J.At(j.unsubs, k)
    requires u in j.y.threads && u in j'.y.threads && j'.y.threads[u] == j.y.threads[u]
    ensures CallOf(j', k) == Some(u)
    ensures j'.m.pollers[k].stage.Unsubscribing? <==> j.m.pollers[k].stage.Unsubscribing?
  {
    hide B.WaitsForLock, J.PublisherOk, J.QueryOf;
    assert J.TiedAt(rate, j, k) && J.TiedAt(rate, j', k);
  }

  /** What the publisher does in a step neither receives from channel c nor ends the root context. */
  predicate NoReliefIn(rate: J.RateText, j: J.State, step: J.Step, c: nat) {
    J.PublisherPart(rate, j, step) != Some(P.Receive(c)) && J.PublisherPart(rate, j, step) != Some(P.CancelRoot)
  }

  lemma PublisherIs(rate: J.RateText, j: J.State, step: J.Step)
    ensures J.Apply(rate, j, step).y == J.After(j.y, J.PublisherPart(rate, j, step))
  {
  }

  lemma PublisherLeavesStranded(y: P.System, part: Option<P.Step>, u: nat, t: nat, p: nat, c: nat)
    requires B.StuckAt(y, t, p, c) && B.WantsList(y, u, p)
    ensures (B.StuckAt(J.After(y, part), t, p, c) && B.WantsList(J.After(y, part), u, p))
       <==> part != Some(P.Receive(c)) && part != Some(P.CancelRoot)
    ensures part != Some(P.Receive(c)) && part != Some(P.CancelRoot) ==>
      u in y.threads && u in J.After(y, part).threads && J.After(y, part).threads[u] == y.threads[u]
  {
    hide P.Apply, P.Safe;
    if part.Some? {
      B.DeadlockEndsExactly(y, part.value, t, u, p, c);
      if part != Some(P.Receive(c)) && part != Some(P.CancelRoot) {
        B.StepLeavesDeadlock(y, part.value, t, u, p, c);
      }
    }
  }

  /**
   A step frees a stranded poller if and only if in it somebody receives from the full channel, or the root
   context ends.
   */
  lemma StrandedExactly(rate: J.RateText, j: J.State, step: J.Step, k: nat, u: nat, t: nat, p: nat, c: nat)
    requires J.Coupled(rate, j) && Stranded(j, k, u, t, p, c)
    ensures Stranded(J.Apply(rate, j, step), k, u, t, p, c) <==> NoReliefIn(rate, j, step, c)
    ensures NoReliefIn(rate, j, step, c) ==>
      && k < |J.Apply(rate, j, step).m.pollers|
      && (J.Apply(rate, j, step).m.pollers[k].stage.Unsubscribing? <==> j.m.pollers[k].stage.Unsubscribing?)
  {
    hide J.Apply, J.Coupled, J.PublisherPart, J.After, B.StuckAt, B.WantsList;
    var j' := J.Apply(rate, j, step);
    PublisherIs(rate, j, step);
    PublisherLeavesStranded(j.y, J.PublisherPart(rate, j, step), u, t, p, c);
    if NoReliefIn(rate, j, step, c) {
      J.StepKeeps(rate, j, step);
      PollersStay(rate, j, step, k);
      CallGoesOn(rate, j, j', k, u);
    }
  }

  /** After `steps`, nobody receives from c, and the root context lives on. */
  ghost predicate NeverRelieved(rate: J.RateText, e: Exp, steps: seq<J.Step>, more: seq<J.Step>, c: nat) {
    more == [] ||
    (NeverRelieved(rate, e, steps, more[..|more| - 1], c)
     && NoReliefIn(rate, J.Exec(rate, e, steps + more[..|more| - 1]), more[|more| - 1], c))
  }

  /** In every continuation without relief, a stranded poller never moves again. */
  lemma {:induction false} StrandedForever(rate: J.RateText, e: Exp, steps: seq<J.Step>, more: seq<J.Step>,
                                           k: nat, u: nat, t: nat, p: nat, c: nat)
    requires Stranded(J.Exec(rate, e, steps), k, u, t, p, c) && NeverRelieved(rate, e, steps, more, c)
    ensures Stranded(J.Exec(rate, e, steps + more), k, u, t, p, c) && !M.CanMove(J.Exec(rate, e, steps + more).m, k)
  {
    hide J.Exec, J.Apply, J.Coupled, Stranded, NoReliefIn, M.CanMove;
    if more == [] {
      assert steps + more == steps;
    } else {
      var init, last := more[..|more| - 1], more[|more| - 1];
      StrandedForever(rate, e, steps, init, k, u, t, p, c);
      J.EveryRunIsCoupled(rate, e, steps + init);
      StrandedExactly(rate, J.Exec(rate, e, steps + init), last, k, u, t, p, c);
      assert steps + more == (steps + init) + [last];
      J.ExecNext(rate, e, steps + init, last);
    }
    J.EveryRunIsCoupled(rate, e, steps + more);
    StrandedCannotMove(rate, J.Exec(rate, e, steps + more), k, u, t, p, c);
  }

  // ----- a poller that is stranded by its own channel -----

  /** The poller is leaving, and the publish is stuck at its own channel. */
  ghost predicate SelfStranded(j: J.State, k: nat, u: nat, t: nat, p: nat, c: nat) {
    && Stranded(j, k, u, t, p, c) && j.m.pollers[k].stage.Unsubscribing?
    && k in j.subs && J.HasChannel(j.y, j.subs[k]) && j.y.threads[j.subs[k]].channel == c
  }

  /** Nobody but the poller receives from its channel, and the poller no longer does. */
  lemma NobodyReceives(rate: J.RateText, j: J.State, step: J.Step, k: nat, u: nat, t: nat, p: nat, c: nat)
    requires J.Coupled(rate, j) && SelfStranded(j, k, u, t, p, c)
    ensures J.PublisherPart(rate, j, step) != Some(P.Receive(c))
  {
    hide P.Safe, J.TiedAt, B.StuckAt, J.QueryOf;
    assert J.Owned(j, c);
  }

  lemma RootEnds(rate: J.RateText, j: J.State, step: J.Step)
    ensures j.y.rootDone ==> J.Apply(rate, j, step).y.rootDone
    ensures J.PublisherPart(rate, j, step) == Some(P.CancelRoot) ==> J.Apply(rate, j, step).y.rootDone
  {
    hide J.Apply, P.Apply, J.PublisherPart;
    PublisherIs(rate, j, step);
    var part := J.PublisherPart(rate, j, step);
    if part.Some? {
      W.RootStaysDone(j.y, part.value);
      CancelEnds(j.y);
    }
  }

  lemma CancelEnds(y: P.System)
    ensures P.Apply(y, P.CancelRoot).rootDone
  {
  }

  lemma SelfIsStranded(j: J.State, k: nat, u: nat, t: nat, p: nat, c: nat)
    requires SelfStranded(j, k, u, t, p, c)
    ensures Stranded(j, k, u, t, p, c) && k < |j.m.pollers|
  {
  }

  lemma SelfStrandedStep(rate: J.RateText, j: J.State, step: J.Step, k: nat, u: nat, t: nat, p: nat, c: nat)
    requires J.Coupled(rate, j) && SelfStranded(j, k, u, t, p, c) && !J.Apply(rate, j, step).y.rootDone
    ensures SelfStranded(J.Apply(rate, j, step), k, u, t, p, c)
  {
    hide J.Apply, J.Coupled, Stranded, J.PublisherPart, P.Apply;
    SelfIsStranded(j, k, u, t, p, c);
    NobodyReceives(rate, j, step, k, u, t, p, c);
    RootEnds(rate, j, step);
    StrandedExactly(rate, j, step, k, u, t, p, c);
    PollersStay(rate, j, step, k);
    PublisherIs(rate, j, step);
    var part := J.PublisherPart(rate, j, step);
    if part.Some? {
      C.SubscribedStays(j.y, part.value, j.subs[k]);
    }
  }

  lemma RootLives(j: J.State, k: nat, u: nat, t: nat, p: nat, c: nat)
    requires SelfStranded(j, k, u, t, p, c)
    ensures !j.y.rootDone
  {
  }

  /** It stays stranded, whatever anybody does, as long as the root context lives and no longer. */
  lemma {:induction false} SelfStrandedExactly(rate: J.RateText, e: Exp, steps: seq<J.Step>, more: seq<J.Step>,
                                               k: nat, u: nat, t: nat, p: nat, c: nat)
    requires SelfStranded(J.Exec(rate, e, steps), k, u, t, p, c)
    ensures SelfStranded(J.Exec(rate, e, steps + more), k, u, t, p, c) <==> !J.Exec(rate, e, steps + more).y.rootDone
  {
    hide J.Exec, J.Apply, J.Coupled, SelfStranded;
    if more == [] {
      assert steps + more == steps;
    } else {
      var init, last := more[..|more| - 1], more[|more| - 1];
      SelfStrandedExactly(rate, e, steps, init, k, u, t, p, c);
      assert steps + more == (steps + init) + [last];
      J.ExecNext(rate, e, steps + init, last);
      RootEnds(rate, J.Exec(rate, e, steps + init), last);
      J.EveryRunIsCoupled(rate, e, steps + init);
      if !J.Exec(rate, e, steps + more).y.rootDone {
        SelfStrandedStep(rate, J.Exec(rate, e, steps + init), last, k, u, t, p, c);
      }
    }
    if SelfStranded(J.Exec(rate, e, steps + more), k, u, t, p, c) {
      RootLives(J.Exec(rate, e, steps + more), k, u, t, p, c);
    }
  }

  // ----- a run that strands a poller -----

  /** Steps of the publisher's threads, none of them a receive. */
  function Wrap(steps: seq<P.Step>): seq<J.Step> {
    if steps == [] then [] else Wrap(steps[..|steps| - 1]) + [J.Publisher(steps[|steps| - 1])]
  }

  ghost predicate NoReceives(steps: seq<P.Step>) {
    forall i :: 0 <= i < |steps| ==> !steps[i].Receive?
  }

  /** They are the publisher's part, and leave the monitor's pollers and their calls as they are. */
  lemma {:induction false} WrapRun(rate: J.RateText, e: Exp, steps: seq<J.Step>, part: seq<P.Step>, k: nat)
    requires NoReceives(part) && k < |J.Exec(rate, e, steps).m.pollers|
    ensures J.PublisherSteps(rate, e, steps + Wrap(part)) == J.PublisherSteps(rate, e, steps) + part
    ensures var j, j' := J.Exec(rate, e, steps), J.Exec(rate, e, steps + Wrap(part));
      && j'.subs == j.subs && j'.unsubs == j.unsubs && k < |j'.m.pollers|
      && j'.m.pollers[k].condition == j.m.pollers[k].condition
  {
    hide J.Exec, J.Apply, J.PublisherSteps;
    if part == [] {
      assert steps + Wrap(part) == steps;
    } else {
      var init, last := part[..|part| - 1], J.Publisher(part[|part| - 1]);
      WrapRun(rate, e, steps, init, k);
      var j := J.Exec(rate, e, steps + Wrap(init));
      assert steps + Wrap(part) == (steps + Wrap(init)) + [last];
      J.ExecNext(rate, e, steps + Wrap(init), last);
      PublisherStepsNext(rate, e, steps + Wrap(init), last);
      PollersStay(rate, j, last, k);
      CallsAre(rate, j, last);
      assert init + [part[|part| - 1]] == part;
    }
  }

  lemma {:induction false} PublisherStepsNext(rate: J.RateText, e: Exp, steps: seq<J.Step>, step: J.Step)
    ensures var part := J.PublisherPart(rate, J.Exec(rate, e, steps), step);
      J.PublisherSteps(rate, e, steps + [step])
        == J.PublisherSteps(rate, e, steps) + if part.Some? then [part.value] else []
  {
    hide J.Exec, J.PublisherPart;
    assert (steps + [step])[..|steps|] == steps;
  }

  lemma CallsAre(rate: J.RateText, j: J.State, step: J.Step)
    ensures J.Apply(rate, j, step).subs == J.SubsAfter(j, step) && J.Apply(rate, j, step).unsubs == J.UnsubsAfter(j, step)
  {
  }

  lemma {:induction false} UnreadStarts(start: seq<P.Step>, t: nat, n: nat)
    requires NoReceives(start)
    ensures var steps := D.Unread(start, t, n); |start| <= |steps| && steps[..|start|] == start && NoReceives(steps)
  {
    if n > 0 {
      UnreadStarts(start, t, n - 1);
    }
  }

  lemma OverfullStarts()
    ensures |D.OVERFULL| > 0 && D.OVERFULL[0] == P.CallSubscribe(0, "q") && NoReceives(D.OVERFULL)
  {
    hide D.Unread;
    UnreadStarts(D.JOINING, 1, PubSub.BUFFER_SIZE);
    assert D.JOINING[0] == P.CallSubscribe(0, "q");
  }

  /** The poller of the only condition subscribes. */
  const SUBSCRIBED := [J.Own(M.SetUpNext(0))] + [J.StartSubscribe(0, 0)]

  /** Its subscription is published to, and it does not read. */
  const UNREAD := SUBSCRIBED + Wrap(D.OVERFULL[1..])

  /** The call is cancelled, and the poller leaves. */
  const CANCELLED := UNREAD + [J.Own(M.CancelParent)] + [J.Own(M.SeeDone(0))]
  const STRANDED := CANCELLED + [J.StartUnsubscribe(0, 2)] + [J.Publisher(P.LookUp(2))]

  lemma SetUpRun(rate: J.RateText)
    ensures var j := J.Exec(rate, M.GUARDED, [J.Own(M.SetUpNext(0))]);
      j.m.pollers == [M.Born(0)] && j.m.exp == M.GUARDED && j.y == P.EMPTY && j.subs == map[] && j.unsubs == map[]
    ensures J.PublisherSteps(rate, M.GUARDED, [J.Own(M.SetUpNext(0))]) == []
    ensures J.QueryOf(rate, M.GUARDED, M.Born(0)) == "q"
  {
    hide M.Run, M.Apply;
    var none: seq<J.Step> := [];
    assert none + [J.Own(M.SetUpNext(0))] == [J.Own(M.SetUpNext(0))];
    J.ExecNext(rate, M.GUARDED, [], J.Own(M.SetUpNext(0)));
    PublisherStepsNext(rate, M.GUARDED, [], J.Own(M.SetUpNext(0)));
    J.StepIs(rate, J.Start(M.GUARDED), J.Own(M.SetUpNext(0)));
    OneConditionSetUp();
  }

  lemma OneConditionSetUp()
    ensures M.Apply(M.Start(M.GUARDED), M.SetUpNext(0)) == M.Start(M.GUARDED).(phase := M.Setup(1), pollers := [M.Born(0)])
  {
    assert [] + [M.Born(0)] == [M.Born(0)];
  }

  lemma SubscribedRun(rate: J.RateText)
    ensures var j := J.Exec(rate, M.GUARDED, SUBSCRIBED);
      && |j.m.pollers| > 0 && j.m.pollers[0].condition == 0 && j.subs == map[0 := 0] && j.unsubs == map[]
    ensures J.PublisherSteps(rate, M.GUARDED, SUBSCRIBED) == [P.CallSubscribe(0, "q")]
  {
    hide J.Exec, J.Apply, J.PublisherSteps, J.QueryOf, M.GUARDED;
    SetUpRun(rate);
    var before, step := [J.Own(M.SetUpNext(0))], J.StartSubscribe(0, 0);
    var j := J.Exec(rate, M.GUARDED, before);
    J.ExecNext(rate, M.GUARDED, before, step);
    PublisherStepsNext(rate, M.GUARDED, before, step);
    PollersStay(rate, j, step, 0);
    CallsAre(rate, j, step);
  }

  lemma UnreadRun(rate: J.RateText)
    ensures var j := J.Exec(rate, M.GUARDED, UNREAD);
      && |j.m.pollers| > 0 && j.m.pollers[0].condition == 0 && j.subs == map[0 := 0] && j.unsubs == map[]
      && j.y == D.OverfullState(D.ALONE) && (j.m.pollers[0].stage == M.Polling || j.m.pollers[0].stage.Unsubscribing?)
    ensures J.PublisherSteps(rate, M.GUARDED, UNREAD) == D.OVERFULL
  {
    hide J.Exec, J.Apply, J.PublisherSteps, J.QueryOf, J.Coupled, M.GUARDED, SUBSCRIBED;
    hide P.Exec, D.OVERFULL, D.Overfull, D.JOINING;
    SubscribedRun(rate);
    OverfullStarts();
    WrapRun(rate, M.GUARDED, SUBSCRIBED, D.OVERFULL[1..], 0);
    assert [D.OVERFULL[0]] + D.OVERFULL[1..] == D.OVERFULL;
    J.HalvesAreRuns(rate, M.GUARDED, UNREAD);
    D.JoiningRun();
    OverfullRun();
    J.EveryRunIsCoupled(rate, M.GUARDED, UNREAD);
    StageOf(rate, J.Exec(rate, M.GUARDED, UNREAD));
  }

  lemma OverfullRun()
    ensures P.Exec(D.OVERFULL) == D.OverfullState(D.ALONE)
  {
    hide P.Exec, D.Overfull;
    D.JoiningRun();
    D.OverfullIsStuck(D.ALONE, D.JOINING);
  }

  /** A poller whose Subscribe has returned and that has not called Unsubscribe. */
  lemma StageOf(rate: J.RateText, j: J.State)
    requires J.Coupled(rate, j) && |j.m.pollers| > 0 && j.subs == map[0 := 0] && j.unsubs == map[] && J.HasChannel(j.y, 0)
    ensures j.m.pollers[0].stage == M.Polling || j.m.pollers[0].stage.Unsubscribing?
  {
    hide J.PublisherOk, J.QueryOf, J.OwnsChannel;
    assert J.TiedAt(rate, j, 0);
  }

  lemma CancelSteps(m: M.State)
    requires |m.pollers| > 0 && (m.pollers[0].stage == M.Polling || m.pollers[0].stage.Unsubscribing?)
    ensures var m' := M.Apply(M.Apply(m, M.CancelParent), M.SeeDone(0));
      && m'.done && |m'.pollers| > 0 && m'.pollers[0].stage.Unsubscribing? && m'.exp == m.exp
      && m'.pollers[0].condition == m.pollers[0].condition
  {
  }

  lemma CancelledRun(rate: J.RateText)
    ensures var j := J.Exec(rate, M.GUARDED, CANCELLED);
      && j.m.done && |j.m.pollers| > 0 && j.m.pollers[0].condition == 0 && j.m.pollers[0].stage.Unsubscribing?
      && j.subs == map[0 := 0] && j.unsubs == map[] && j.y == D.OverfullState(D.ALONE)
    ensures J.PublisherSteps(rate, M.GUARDED, CANCELLED) == D.OVERFULL
  {
    hide J.Exec, J.Apply, M.Apply, J.PublisherSteps, M.GUARDED, UNREAD, D.OVERFULL;
    UnreadRun(rate);
    var j := J.Exec(rate, M.GUARDED, UNREAD);
    CancelSteps(j.m);
    J.ExecNext(rate, M.GUARDED, UNREAD, J.Own(M.CancelParent));
    J.ExecNext(rate, M.GUARDED, UNREAD + [J.Own(M.CancelParent)], J.Own(M.SeeDone(0)));
    PublisherStepsNext(rate, M.GUARDED, UNREAD, J.Own(M.CancelParent));
    PublisherStepsNext(rate, M.GUARDED, UNREAD + [J.Own(M.CancelParent)], J.Own(M.SeeDone(0)));
    J.StepIs(rate, j, J.Own(M.CancelParent));
    J.StepIs(rate, J.Apply(rate, j, J.Own(M.CancelParent)), J.Own(M.SeeDone(0)));
  }

  lemma StrandedRun(rate: J.RateText)
    ensures var j := J.Exec(rate, M.GUARDED, STRANDED);
      && j.m.done && |j.m.pollers| > 0 && j.subs == map[0 := 0] && j.unsubs == map[0 := 2]
    ensures J.PublisherSteps(rate, M.GUARDED, STRANDED) == D.INTO_DEADLOCK
  {
    hide J.Exec, J.Apply, J.PublisherSteps, CANCELLED, D.OVERFULL, P.Exec;
    CancelledRun(rate);
    var j := J.Exec(rate, M.GUARDED, CANCELLED);
    var call := J.StartUnsubscribe(0, 2);
    ExpOfRun(rate, M.GUARDED, CANCELLED);
    assert J.CanUnsubscribe(j, 0, 2);
    assert J.PublisherPart(rate, j, call) == Some(P.CallUnsubscribe(2, "q", 0));
    J.ExecNext(rate, M.GUARDED, CANCELLED, call);
    PublisherStepsNext(rate, M.GUARDED, CANCELLED, call);
    PollersStay(rate, j, call, 0);
    CallsAre(rate, j, call);
    var next := J.Publisher(P.LookUp(2));
    J.ExecNext(rate, M.GUARDED, CANCELLED + [call], next);
    PublisherStepsNext(rate, M.GUARDED, CANCELLED + [call], next);
    PollersStay(rate, J.Exec(rate, M.GUARDED, CANCELLED + [call]), next, 0);
    CallsAre(rate, J.Exec(rate, M.GUARDED, CANCELLED + [call]), next);
  }

  lemma {:induction false} ExpOfRun(rate: J.RateText, e: Exp, steps: seq<J.Step>)
    ensures J.Exec(rate, e, steps).m.exp == e
  {
    hide J.Exec, M.Run, M.Inv, J.MonitorSteps;
    J.HalvesAreRuns(rate, e, steps);
    M.RunKeeps(e, J.MonitorSteps(rate, e, steps));
  }

  /** A poller in its Unsubscribe. */
  lemma StillLeaving(rate: J.RateText, j: J.State, u: nat)
    requires J.Coupled(rate, j) && |j.m.pollers| > 0 && J.At(j.unsubs, 0) == Some(u) && !J.HasLeft(j.y, u)
    ensures j.m.pollers[0].stage.Unsubscribing?
  {
    hide J.PublisherOk, J.QueryOf, J.OwnsChannel;
    assert J.TiedAt(rate, j, 0);
  }

  lemma PollerIsStranded(rate: J.RateText)
    ensures SelfStranded(J.Exec(rate, M.GUARDED, STRANDED), 0, 2, 1, 0, 0)
  {
    hide J.Exec, STRANDED, D.INTO_DEADLOCK, P.Exec, J.Coupled;
    StrandedRun(rate);
    var j := J.Exec(rate, M.GUARDED, STRANDED);
    J.HalvesAreRuns(rate, M.GUARDED, STRANDED);
    D.DeadlockIsReached();
    D.DeadlockRun();
    J.EveryRunIsCoupled(rate, M.GUARDED, STRANDED);
    StillLeaving(rate, j, 2);
  }

  lemma {:induction false} CancelledStays(rate: J.RateText, e: Exp, steps: seq<J.Step>, more: seq<J.Step>)
    requires J.Exec(rate, e, steps).m.done
    ensures J.Exec(rate, e, steps + more).m.done
  {
    hide J.Exec, M.Run, J.MonitorPart, J.PublisherPart;
    if more == [] {
      assert steps + more == steps;
    } else {
      var init, last := more[..|more| - 1], more[|more| - 1];
      CancelledStays(rate, e, steps, init);
      assert steps + more == (steps + init) + [last];
      J.ExecNext(rate, e, steps + init, last);
      var j := J.Exec(rate, e, steps + init);
      M.DoneStays(j.m, J.MonitorPart(rate, j, last));
    }
  }

  /**
   A monitor's poller that has fallen ten values behind when its call is cancelled can stay behind for good:
   in no continuation of this run does it ever get out of its Unsubscribe while the root context lives.
   */
  lemma {:induction false} DeadlockStrandsPoller(rate: J.RateText, more: seq<J.Step>)
    requires !J.Exec(rate, M.GUARDED, STRANDED + more).y.rootDone
    ensures var j := J.Exec(rate, M.GUARDED, STRANDED + more);
      j.m.done && |j.m.pollers| > 0 && j.m.pollers[0].stage.Unsubscribing? && !M.CanMove(j.m, 0)
  {
    hide J.Exec, STRANDED, J.Coupled, M.CanMove, Stranded;
    StrandedRun(rate);
    PollerIsStranded(rate);
    CancelledStays(rate, M.GUARDED, STRANDED, more);
    SelfStrandedExactly(rate, M.GUARDED, STRANDED, more, 0, 2, 1, 0, 0);
    var j := J.Exec(rate, M.GUARDED, STRANDED + more);
    SelfIsStranded(j, 0, 2, 1, 0, 0);
    J.EveryRunIsCoupled(rate, M.GUARDED, STRANDED + more);
    StrandedCannotMove(rate, j, 0, 2, 1, 0, 0);
  }
}
