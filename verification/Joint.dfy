/**
 A monitoring call and the query publisher as one machine. Each poller of the
 monitor subscribes and unsubscribes as a thread of the publisher and receives from
 the channel its Subscribe returned; the publisher's other threads go on as they
 like. What the monitor's machine leaves open, when values arrive and when a lock
 is held, is here what the publisher does.
 */
module Joint {
  import opened Types
  import B = PubSubBlocking
  import C = PubSubCalls
  import M = Monitor
  import P = PubSubSteps
  import PubSub
  import R = PubSubRefs

  // ----- queries -----

  /** The text of the success-rate query for a service and an interval. */
  type RateText = (Ref, Duration) -> string

  const DEFAULT_INTERVAL: Duration := 60_000_000_000

  /** What a condition subscribes to. A query without its service has been refused by then. */
  function QueryText(rate: RateText, query: Query): string {
    match query
    case NoQuery => ""
    case CustomQuery(text) => text
    case SuccessRate(None, _) => ""
    case SuccessRate(Some(service), interval) => rate(service, if interval.Some? then interval.value else DEFAULT_INTERVAL)
  }

  function QueryOf(rate: RateText, e: Exp, p: M.Poller): string {
    match M.TriggerOf(e, p.condition) case None => "" case Some(t) => QueryText(rate, t.query)
  }

  /** A custom query is taken as it is; a success rate is that of the service, over its interval or else a minute. */
  lemma QueryOfExactly(rate: RateText, e: Exp, p: M.Poller)
    requires e.spec.Some? && p.condition < |e.spec.value.conditions|
    requires e.spec.value.conditions[p.condition].trigger.Some?
    requires e.spec.value.conditions[p.condition].trigger.value.Prometheus?
    ensures match e.spec.value.conditions[p.condition].trigger.value.prom.query
      case CustomQuery(text) => QueryOf(rate, e, p) == text
      case SuccessRate(Some(service), Some(interval)) => QueryOf(rate, e, p) == rate(service, interval)
      case SuccessRate(Some(service), None) => QueryOf(rate, e, p) == rate(service, 60 * 1_000_000_000)
      case SuccessRate(None, _) => true
      case NoQuery => QueryOf(rate, e, p) == ""
  {
  }

  // ----- the machine -----

  /** The two machines, and the threads of the pollers' Subscribe and Unsubscribe calls. */
  datatype State = State(m: M.State, y: P.System, subs: map<nat, nat>, unsubs: map<nat, nat>)

  datatype Step =
    | Own(own: M.Step)                         // the monitoring call, or a poller by itself
    | Publisher(others: P.Step)                // any thread of the publisher, those of the pollers' calls included
    | StartSubscribe(k: nat, t: nat)
    | StartUnsubscribe(k: nat, u: nat)
    | Take(k: nat)                             // poller k receives a value

  function Start(e: Exp): State {
    State(M.Start(e), P.EMPTY, map[], map[])
  }

  /** The steps that do not involve the publisher. */
  predicate IsOwn(step: M.Step) {
    match step
    case SetUpNext(_) => true
    case CancelParent => true
    case Fire(_) => true
    case SelectDone => true
    case SelectFailure => true
    case SelectTimer => true
    case Write(_) => true
    case SeeClosed(_) => true
    case SeeDone(_) => true
    case Send(_) => true
    case GiveUp(_) => true
    case _ => false
  }

  /** The Subscribe that thread t runs has returned. */
  predicate HasChannel(y: P.System, t: nat) {
    t in y.threads && y.threads[t].Subscribed?
  }

  /** The Unsubscribe that thread u runs has returned. */
  predicate HasLeft(y: P.System, u: nat) {
    u in y.threads && y.threads[u].Left?
  }

  /** Channel c is the subscription of one of the pollers. */
  predicate Owned(j: State, c: nat) {
    exists k :: k in j.subs && HasChannel(j.y, j.subs[k]) && j.y.threads[j.subs[k]].channel == c
  }

  predicate CanSubscribe(j: State, k: nat, t: nat) {
    k < |j.m.pollers| && j.m.pollers[k].stage == M.Fresh && k !in j.subs && t !in j.y.threads
  }

  predicate CanUnsubscribe(j: State, k: nat, u: nat) {
    && k < |j.m.pollers| && j.m.pollers[k].stage.Unsubscribing? && k !in j.unsubs && u !in j.y.threads
    && k in j.subs && HasChannel(j.y, j.subs[k])
  }

  predicate Takes(j: State, k: nat) {
    k < |j.m.pollers| && j.m.pollers[k].stage == M.Polling && k in j.subs && HasChannel(j.y, j.subs[k])
  }

  /** The publisher's part of a step. Only poller k receives from its own channel. */
  function PublisherPart(rate: RateText, j: State, step: Step): Option<P.Step> {
    match step
    case Own(_) => None
    case Publisher(s) => if s.Receive? && Owned(j, s.c) then None else Some(s)
    case StartSubscribe(k, t) =>
      if CanSubscribe(j, k, t) then Some(P.CallSubscribe(t, QueryOf(rate, j.m.exp, j.m.pollers[k]))) else None
    case StartUnsubscribe(k, u) =>
      if CanUnsubscribe(j, k, u)
      then Some(P.CallUnsubscribe(u, QueryOf(rate, j.m.exp, j.m.pollers[k]), j.y.threads[j.subs[k]].channel)) else None
    case Take(k) => if Takes(j, k) then Some(P.Receive(j.y.threads[j.subs[k]].channel)) else None
  }

  /** What the pollers learn of a step of the publisher that leads to y. */
  function LockFlag(y: P.System, k: nat, t: nat): M.Step {
    if B.WaitsForLock(y, t) then M.Block(k) else M.Unblock(k)
  }

  function SubscribeEvents(y: P.System, k: nat, t: nat): seq<M.Step> {
    if HasChannel(y, t) then [M.Subscribe(k)] else [LockFlag(y, k, t)]
  }

  function ChannelEvents(p: M.Poller, ch: P.Chan, k: nat): seq<M.Step> {
    (if |ch.buffer| > |p.queue| then [M.Arrive(k, ch.buffer[|p.queue|])] else [])
    + (if ch.closed then [M.CloseSubscription(k)] else [])
  }

  function UnsubscribeEvents(y: P.System, k: nat, u: nat): seq<M.Step> {
    if HasLeft(y, u) then [M.Unsubscribe(k)] else [LockFlag(y, k, u)]
  }

  function EventsOf(p: M.Poller, y: P.System, subs: map<nat, nat>, unsubs: map<nat, nat>, k: nat): seq<M.Step> {
    match p.stage
    case Fresh => if k in subs then SubscribeEvents(y, k, subs[k]) else []
    case Polling =>
      if k in subs && HasChannel(y, subs[k]) && y.threads[subs[k]].channel < |y.chans|
      then ChannelEvents(p, y.chans[y.threads[subs[k]].channel], k) else []
    case Unsubscribing(_) => if k in unsubs then UnsubscribeEvents(y, k, unsubs[k]) else []
    case _ => []
  }

  /** The events of the first n pollers. */
  function AllEvents(m: M.State, y: P.System, subs: map<nat, nat>, unsubs: map<nat, nat>, n: nat): seq<M.Step>
    requires n <= |m.pollers|
  {
    if n == 0 then []
    else AllEvents(m, y, subs, unsubs, n - 1) + EventsOf(m.pollers[n - 1], y, subs, unsubs, n - 1)
  }

  function SubsAfter(j: State, step: Step): map<nat, nat> {
    if step.StartSubscribe? && CanSubscribe(j, step.k, step.t) then j.subs[step.k := step.t] else j.subs
  }

  function UnsubsAfter(j: State, step: Step): map<nat, nat> {
    if step.StartUnsubscribe? && CanUnsubscribe(j, step.k, step.u) then j.unsubs[step.k := step.u] else j.unsubs
  }

  function After(y: P.System, step: Option<P.Step>): P.System {
    match step case None => y case Some(s) => P.Apply(y, s)
  }

  /** The monitor's part of a step. */
  function MonitorPart(rate: RateText, j: State, step: Step): seq<M.Step> {
    match step
    case Own(s) => if IsOwn(s) then [s] else []
    case Take(k) => if Takes(j, k) then [M.Take(k)] else []
    case _ =>
      var part := PublisherPart(rate, j, step);
      if part.Some? then AllEvents(j.m, After(j.y, part), SubsAfter(j, step), UnsubsAfter(j, step), |j.m.pollers|) else []
  }

  function Apply(rate: RateText, j: State, step: Step): State {
    State(M.Run(j.m, MonitorPart(rate, j, step)), After(j.y, PublisherPart(rate, j, step)),
          SubsAfter(j, step), UnsubsAfter(j, step))
  }

  function Exec(rate: RateText, e: Exp, steps: seq<Step>): State {
    if steps == [] then Start(e) else Apply(rate, Exec(rate, e, steps[..|steps| - 1]), steps[|steps| - 1])
  }

  lemma {:induction false} ExecNext(rate: RateText, e: Exp, steps: seq<Step>, step: Step)
    ensures Exec(rate, e, steps + [step]) == Apply(rate, Exec(rate, e, steps), step)
  {
    assert (steps + [step])[..|steps|] == steps;
  }

  // ----- each half is a run of its own machine -----

  function PublisherSteps(rate: RateText, e: Exp, steps: seq<Step>): seq<P.Step> {
    if steps == [] then []
    else
      var init := steps[..|steps| - 1];
      var part := PublisherPart(rate, Exec(rate, e, init), steps[|steps| - 1]);
      PublisherSteps(rate, e, init) + if part.Some? then [part.value] else []
  }

  function MonitorSteps(rate: RateText, e: Exp, steps: seq<Step>): seq<M.Step> {
    if steps == [] then []
    else
      var init := steps[..|steps| - 1];
      MonitorSteps(rate, e, init) + MonitorPart(rate, Exec(rate, e, init), steps[|steps| - 1])
  }

  /** A joint run is a run of the publisher and a run of the monitor. */
  lemma {:induction false} HalvesAreRuns(rate: RateText, e: Exp, steps: seq<Step>)
    ensures Exec(rate, e, steps).y == P.Exec(PublisherSteps(rate, e, steps))
    ensures Exec(rate, e, steps).m == M.Run(M.Start(e), MonitorSteps(rate, e, steps))
  {
    if steps != [] {
      var init, last := steps[..|steps| - 1], steps[|steps| - 1];
      HalvesAreRuns(rate, e, init);
      var j := Exec(rate, e, init);
      hide P.Apply, M.Run, PublisherPart, MonitorPart;
      var part := PublisherPart(rate, j, last);
      if part.Some? {
        P.ExecNext(PublisherSteps(rate, e, init), part.value);
      } else {
        assert PublisherSteps(rate, e, init) + [] == PublisherSteps(rate, e, init);
      }
      M.RunConcat(M.Start(e), MonitorSteps(rate, e, init), MonitorPart(rate, j, last));
    }
  }

  // ----- one poller and its calls -----

  predicate OwnsChannel(p: M.Poller, y: P.System, t: nat, q: string) {
    && HasChannel(y, t) && R.ChannelFor(y, y.threads[t].channel, q)
    && y.chans[y.threads[t].channel].received == p.received
  }

  predicate SubscribeTied(p: M.Poller, y: P.System, t: nat, q: string) {
    && t in y.threads && B.InSubscribe(y.threads[t]) && y.threads[t].query == q
    && (p.blocked <==> B.WaitsForLock(y, t))
  }

  predicate UnsubscribeTied(p: M.Poller, y: P.System, u: nat) {
    u in y.threads && B.InUnsubscribe(y.threads[u]) && (p.blocked <==> B.WaitsForLock(y, u))
  }

  /**
   What a poller and the publisher have in common, stage by stage: a Subscribe under way that waits for a
   lock exactly if the poller is blocked; then a channel of a list for the poller's query, with the values
   the poller has queued and has received; then an Unsubscribe that waits exactly if it is blocked, and that
   has returned once the poller goes on.
   */
  predicate Tied(p: M.Poller, y: P.System, sub: Option<nat>, unsub: Option<nat>, q: string) {
    match p.stage
    case Fresh =>
      && p.queue == p.received == [] && !p.closed && unsub == None
      && if sub.Some? then SubscribeTied(p, y, sub.value, q) else !p.blocked
    case Polling =>
      && sub.Some? && OwnsChannel(p, y, sub.value, q) && !p.blocked && unsub == None
      && var ch := y.chans[y.threads[sub.value].channel]; p.queue == ch.buffer && p.closed == ch.closed
    case Unsubscribing(_) =>
      && sub.Some? && OwnsChannel(p, y, sub.value, q)
      && if unsub.Some? then UnsubscribeTied(p, y, unsub.value) else !p.blocked
    case _ => sub.Some? && OwnsChannel(p, y, sub.value, q) && unsub.Some? && HasLeft(y, unsub.value)
  }

  function At(calls: map<nat, nat>, k: nat): Option<nat> {
    if k in calls then Some(calls[k]) else None
  }

  ghost predicate TiedAt(rate: RateText, j: State, k: nat) {
    k < |j.m.pollers| ==>
      Tied(j.m.pollers[k], j.y, At(j.subs, k), At(j.unsubs, k), QueryOf(rate, j.m.exp, j.m.pollers[k]))
  }

  ghost predicate PublisherOk(y: P.System) {
    P.Safe(y) && R.Refs(y) && C.HandedOutOnce(y)
  }

  /** Every poller is tied to its calls, and no two pollers share a thread. */
  ghost predicate Coupled(rate: RateText, j: State) {
    && PublisherOk(j.y)
    && (forall k: nat :: TiedAt(rate, j, k))
    && CallsOk(j)
  }

  ghost predicate CallsOk(j: State) {
    && (forall k :: k in j.subs ==> k < |j.m.pollers| && j.subs[k] in j.y.threads)
    && (forall k :: k in j.unsubs ==> k < |j.m.pollers|)
    && (forall k, i :: k in j.subs && i in j.subs && j.subs[k] == j.subs[i] ==> k == i)
  }

  // ----- what events do to the pollers -----

  predicate IsEvent(step: M.Step, k: nat) {
    (step.Subscribe? || step.Unsubscribe? || step.Arrive? || step.CloseSubscription? || step.Block? || step.Unblock?)
    && step.k == k
  }

  lemma EventsAreEvents(p: M.Poller, y: P.System, subs: map<nat, nat>, unsubs: map<nat, nat>, k: nat)
    ensures |EventsOf(p, y, subs, unsubs, k)| <= 2
    ensures forall i :: 0 <= i < |EventsOf(p, y, subs, unsubs, k)| ==> IsEvent(EventsOf(p, y, subs, unsubs, k)[i], k)
  {
  }

  /** The poller after an event. */
  function Moved(p: M.Poller, step: M.Step): M.Poller {
    match (step, p.stage)
    case (Subscribe(_), Fresh) => if p.blocked then p else p.(stage := M.Polling)
    case (Arrive(_, v), Polling) =>
      if |p.queue| < PubSub.BUFFER_SIZE && !p.closed then p.(queue := p.queue + [v]) else p
    case (CloseSubscription(_), Polling) => p.(closed := true)
    case (Unsubscribe(_), Unsubscribing(found)) =>
      if p.blocked then p else p.(stage := if found.Some? then M.Sending(found.value) else M.Finished)
    case (Block(_), _) => if p.stage == M.Finished then p else p.(blocked := true)
    case (Unblock(_), _) => if p.stage == M.Finished then p else p.(blocked := false)
    case _ => p
  }

  lemma EventMoves(m: M.State, step: M.Step, k: nat)
    requires k < |m.pollers| && IsEvent(step, k)
    ensures M.Apply(m, step) == m.(pollers := m.pollers[k := Moved(m.pollers[k], step)])
  {
  }

  function MovedBy(p: M.Poller, events: seq<M.Step>): M.Poller {
    if events == [] then p else Moved(MovedBy(p, events[..|events| - 1]), events[|events| - 1])
  }

  lemma {:induction false} EventsMove(m: M.State, events: seq<M.Step>, k: nat)
    requires k < |m.pollers| && forall i :: 0 <= i < |events| ==> IsEvent(events[i], k)
    ensures M.Run(m, events) == m.(pollers := m.pollers[k := MovedBy(m.pollers[k], events)])
  {
    hide M.Apply, Moved, IsEvent;
    if events == [] {
      assert m.pollers[k := m.pollers[k]] == m.pollers;
    } else {
      var init, last := events[..|events| - 1], events[|events| - 1];
      EventsMove(m, init, k);
      EventMoves(M.Run(m, init), last, k);
      assert m.pollers[k := MovedBy(m.pollers[k], init)][k := MovedBy(m.pollers[k], events)]
          == m.pollers[k := MovedBy(m.pollers[k], events)];
    }
  }

  /** The first n pollers have moved by their events, the others not yet, and nothing else has changed. */
  lemma {:induction false} AllMove(m: M.State, y: P.System, subs: map<nat, nat>, unsubs: map<nat, nat>, n: nat)
    requires n <= |m.pollers|
    ensures var m' := M.Run(m, AllEvents(m, y, subs, unsubs, n));
      && m' == m.(pollers := m'.pollers) && |m'.pollers| == |m.pollers|
      && (forall k: nat :: k < n ==> m'.pollers[k] == MovedBy(m.pollers[k], EventsOf(m.pollers[k], y, subs, unsubs, k)))
      && (forall k: nat :: n <= k < |m.pollers| ==> m'.pollers[k] == m.pollers[k])
  {
    hide EventsOf, MovedBy, M.Apply;
    if n > 0 {
      hide M.Run;
      AllMove(m, y, subs, unsubs, n - 1);
      var before := AllEvents(m, y, subs, unsubs, n - 1);
      var events := EventsOf(m.pollers[n - 1], y, subs, unsubs, n - 1);
      M.RunConcat(m, before, events);
      EventsAreEvents(m.pollers[n - 1], y, subs, unsubs, n - 1);
      EventsMove(M.Run(m, before), events, n - 1);
    }
  }

  lemma {:induction false} ConditionStays(p: M.Poller, events: seq<M.Step>)
    ensures MovedBy(p, events).condition == p.condition
  {
    if events != [] {
      ConditionStays(p, events[..|events| - 1]);
    }
  }

  lemma {:induction false} OneEvent(p: M.Poller, step: M.Step)
    ensures MovedBy(p, [step]) == Moved(p, step)
  {
    assert [step][..0] == [] && MovedBy(p, []) == p;
  }

  lemma {:induction false} TwoEvents(p: M.Poller, first: M.Step, second: M.Step)
    ensures MovedBy(p, [first] + [second]) == Moved(Moved(p, first), second)
  {
    hide Moved;
    OneEvent(p, first);
    assert ([first] + [second])[..1] == [first];
  }

  // ----- a step of the publisher, seen by one poller -----

  /** The step does not receive from the channel of thread t. */
  predicate NotItsReceive(y: P.System, step: P.Step, t: nat) {
    step.Receive? && HasChannel(y, t) ==> y.threads[t].channel != step.c
  }

  lemma OwnsStays(p: M.Poller, y: P.System, step: P.Step, t: nat, q: string)
    requires OwnsChannel(p, y, t, q) && NotItsReceive(y, step, t)
    ensures OwnsChannel(p, P.Apply(y, step), t, q) && P.Apply(y, step).threads[t] == y.threads[t]
    ensures C.ChannelsGoOn(y, P.Apply(y, step), y.threads[t].channel)
  {
    hide P.Apply;
    C.SubscribedStays(y, step, t);
    C.StepGoesOn(y, step, y.threads[t].channel);
    R.StepKeepsHomes(y, step);
  }

  lemma {:induction false} FlagFollows(p: M.Poller, y: P.System, k: nat, t: nat)
    requires p.stage != M.Finished
    ensures MovedBy(p, [LockFlag(y, k, t)]) == p.(blocked := B.WaitsForLock(y, t))
  {
    hide B.WaitsForLock;
    OneEvent(p, LockFlag(y, k, t));
  }

  lemma {:induction false} FreshFollows(p: M.Poller, y: P.System, step: P.Step, k: nat, t: nat, q: string)
    requires PublisherOk(y) && p.stage == M.Fresh && Tied(p, y, Some(t), None, q)
    ensures Tied(MovedBy(p, SubscribeEvents(P.Apply(y, step), k, t)), P.Apply(y, step), Some(t), None, q)
  {
    hide P.Apply, P.Safe, R.Refs, B.WaitsForLock;
    var y' := P.Apply(y, step);
    C.StepSubscribes(y, step, t);
    if HasChannel(y', t) {
      OneEvent(p, M.Subscribe(k));
      assert !p.blocked;
    } else {
      FlagFollows(p, y', k, t);
    }
  }

  lemma {:induction false} ChannelFollows(p: M.Poller, ch: P.Chan, ch': P.Chan, k: nat)
    requires p.stage == M.Polling && p.queue == ch.buffer && p.closed == ch.closed && C.ChannelGoesOn(ch, ch')
    ensures MovedBy(p, ChannelEvents(p, ch', k)) == p.(queue := ch'.buffer, closed := ch'.closed)
  {
    var arrives := |ch'.buffer| > |p.queue|;
    if arrives {
      var arrive := M.Arrive(k, ch'.buffer[|p.queue|]);
      OneEvent(p, arrive);
      TwoEvents(p, arrive, M.CloseSubscription(k));
      assert ChannelEvents(p, ch', k) == if ch'.closed then [arrive] + [M.CloseSubscription(k)] else [arrive];
    } else {
      OneEvent(p, M.CloseSubscription(k));
      assert ChannelEvents(p, ch', k) == if ch'.closed then [M.CloseSubscription(k)] else [];
    }
  }

  lemma {:induction false} PollingFollows(p: M.Poller, y: P.System, step: P.Step, k: nat, t: nat, q: string)
    requires p.stage == M.Polling && Tied(p, y, Some(t), None, q) && NotItsReceive(y, step, t)
    ensures var y' := P.Apply(y, step);
      && HasChannel(y', t) && y'.threads[t].channel < |y'.chans|
      && Tied(MovedBy(p, ChannelEvents(p, y'.chans[y'.threads[t].channel], k)), y', Some(t), None, q)
  {
    hide P.Apply, C.ChannelGoesOn, ChannelEvents, MovedBy;
    var y', c := P.Apply(y, step), y.threads[t].channel;
    OwnsStays(p, y, step, t, q);
    ChannelFollows(p, y.chans[c], y'.chans[c], k);
  }

  lemma {:induction false} UnsubscribingFollows(p: M.Poller, y: P.System, step: P.Step, k: nat, t: nat, u: nat, q: string)
    requires p.stage.Unsubscribing? && Tied(p, y, Some(t), Some(u), q) && NotItsReceive(y, step, t)
    ensures Tied(MovedBy(p, UnsubscribeEvents(P.Apply(y, step), k, u)), P.Apply(y, step), Some(t), Some(u), q)
  {
    hide P.Apply, B.WaitsForLock;
    var y' := P.Apply(y, step);
    OwnsStays(p, y, step, t, q);
    C.StepUnsubscribes(y, step, u);
    if y'.threads[u].Left? {
      OneEvent(p, M.Unsubscribe(k));
      assert !p.blocked;
    } else {
      FlagFollows(p, y', k, u);
    }
  }

  /** A poller follows any step of the publisher but a receive from its own channel. */
  lemma {:induction false} PollerFollows(p: M.Poller, y: P.System, step: P.Step, subs: map<nat, nat>, unsubs: map<nat, nat>,
                                         k: nat, q: string)
    requires PublisherOk(y) && Tied(p, y, At(subs, k), At(unsubs, k), q)
    requires k in subs ==> NotItsReceive(y, step, subs[k])
    ensures var y' := P.Apply(y, step);
      Tied(MovedBy(p, EventsOf(p, y', subs, unsubs, k)), y', At(subs, k), At(unsubs, k), q)
  {
    hide P.Apply, PublisherOk, MovedBy, SubscribeEvents, ChannelEvents, UnsubscribeEvents, NotItsReceive;
    match p.stage
    case Fresh =>
      NoEvents(p);
      if k in subs {
        FreshFollows(p, y, step, k, subs[k], q);
      }
    case Polling => PollingFollows(p, y, step, k, subs[k], q);
    case Unsubscribing(_) =>
      NoEvents(p);
      if k in unsubs {
        UnsubscribingFollows(p, y, step, k, subs[k], unsubs[k], q);
      } else {
        OwnsStays(p, y, step, subs[k], q);
      }
    case _ =>
      NoEvents(p);
      OwnsStays(p, y, step, subs[k], q);
      C.LeftStays(y, step, unsubs[k]);
  }

  lemma {:induction false} NoEvents(p: M.Poller)
    ensures MovedBy(p, []) == p
  {
  }

  // ----- a step of the publisher, seen by all of them -----

  lemma PublisherStaysOk(y: P.System, step: P.Step)
    requires PublisherOk(y)
    ensures PublisherOk(P.Apply(y, step))
  {
    hide P.Apply, P.Safe, R.Refs, C.HandedOutOnce;
    P.StepKeepsSafe(y, step);
    R.StepKeepsRefs(y, step);
    C.StepHandsOut(y, step);
  }

  /** The joint state after a publisher step that every poller follows. */
  function Followed(j: State, step: P.Step, subs: map<nat, nat>, unsubs: map<nat, nat>): State {
    var y' := P.Apply(j.y, step);
    State(M.Run(j.m, AllEvents(j.m, y', subs, unsubs, |j.m.pollers|)), y', subs, unsubs)
  }

  lemma FollowedPollers(j: State, step: P.Step, subs: map<nat, nat>, unsubs: map<nat, nat>)
    ensures var m' := Followed(j, step, subs, unsubs).m;
      && m' == j.m.(pollers := m'.pollers) && |m'.pollers| == |j.m.pollers|
      && forall k: nat :: k < |j.m.pollers| ==>
           m'.pollers[k] == MovedBy(j.m.pollers[k], EventsOf(j.m.pollers[k], P.Apply(j.y, step), subs, unsubs, k))
  {
    hide P.Apply, M.Run, AllEvents, EventsOf, MovedBy;
    AllMove(j.m, P.Apply(j.y, step), subs, unsubs, |j.m.pollers|);
  }

  /** Poller k is tied after the step if it follows it. */
  lemma TiedAfter(rate: RateText, j: State, step: P.Step, subs: map<nat, nat>, unsubs: map<nat, nat>, k: nat)
    requires k < |j.m.pollers|
    requires
      var p, q := j.m.pollers[k], QueryOf(rate, j.m.exp, j.m.pollers[k]);
      Tied(MovedBy(p, EventsOf(p, P.Apply(j.y, step), subs, unsubs, k)), P.Apply(j.y, step), At(subs, k), At(unsubs, k), q)
    ensures TiedAt(rate, Followed(j, step, subs, unsubs), k)
  {
    hide P.Apply, M.Run, AllEvents, EventsOf, MovedBy, Tied;
    var p := j.m.pollers[k];
    FollowedPollers(j, step, subs, unsubs);
    ConditionStays(p, EventsOf(p, P.Apply(j.y, step), subs, unsubs, k));
  }

  lemma OthersFollow(rate: RateText, j: State, step: P.Step, subs: map<nat, nat>, unsubs: map<nat, nat>, k: nat)
    requires PublisherOk(j.y) && TiedAt(rate, j, k) && At(subs, k) == At(j.subs, k) && At(unsubs, k) == At(j.unsubs, k)
    requires k in subs ==> NotItsReceive(j.y, step, subs[k])
    ensures TiedAt(rate, Followed(j, step, subs, unsubs), k)
  {
    hide P.Apply, M.Run, AllEvents, EventsOf, MovedBy, Tied, PublisherOk, NotItsReceive;
    FollowedPollers(j, step, subs, unsubs);
    if k < |j.m.pollers| {
      PollerFollows(j.m.pollers[k], j.y, step, subs, unsubs, k, QueryOf(rate, j.m.exp, j.m.pollers[k]));
      TiedAfter(rate, j, step, subs, unsubs, k);
    }
  }

  lemma CallsStayOk(j: State, step: P.Step, subs: map<nat, nat>, unsubs: map<nat, nat>)
    requires CallsOk(j.(subs := subs, unsubs := unsubs, y := P.Apply(j.y, step)))
    ensures CallsOk(Followed(j, step, subs, unsubs))
  {
    hide P.Apply, M.Run, AllEvents, EventsOf, MovedBy;
    FollowedPollers(j, step, subs, unsubs);
  }

  lemma ThreadsStay(y: P.System, step: P.Step)
    ensures forall t :: t in y.threads ==> t in P.Apply(y, step).threads
  {
    hide P.Apply;
    forall t | t in y.threads ensures t in P.Apply(y, step).threads {
      C.StepKeepsThreads(y, step, t);
    }
  }

  lemma NotOwnedNotItsReceive(j: State, step: P.Step, k: nat)
    requires k in j.subs && !(step.Receive? && Owned(j, step.c))
    ensures NotItsReceive(j.y, step, j.subs[k])
  {
  }

  lemma PublisherKeeps(rate: RateText, j: State, step: P.Step)
    requires Coupled(rate, j) && !(step.Receive? && Owned(j, step.c))
    ensures Coupled(rate, Followed(j, step, j.subs, j.unsubs))
  {
    hide P.Apply, M.Run, AllEvents, TiedAt, PublisherOk, NotItsReceive, Owned, Followed;
    var j' := Followed(j, step, j.subs, j.unsubs);
    FollowedIs(j, step, j.subs, j.unsubs);
    PublisherStaysOk(j.y, step);
    forall k: nat ensures TiedAt(rate, j', k) {
      if k in j.subs {
        NotOwnedNotItsReceive(j, step, k);
      }
      OthersFollow(rate, j, step, j.subs, j.unsubs, k);
    }
    ThreadsStay(j.y, step);
    CallsStayOk(j, step, j.subs, j.unsubs);
  }

  lemma FollowedIs(j: State, step: P.Step, subs: map<nat, nat>, unsubs: map<nat, nat>)
    ensures Followed(j, step, subs, unsubs).y == P.Apply(j.y, step)
    ensures Followed(j, step, subs, unsubs).subs == subs && Followed(j, step, subs, unsubs).unsubs == unsubs
  {
  }

  // ----- the start of a call -----

  lemma CallStarts(rate: RateText, j: State, k: nat, t: nat)
    requires TiedAt(rate, j, k) && CanSubscribe(j, k, t)
    ensures var step := P.CallSubscribe(t, QueryOf(rate, j.m.exp, j.m.pollers[k]));
      TiedAt(rate, Followed(j, step, j.subs[k := t], j.unsubs), k)
  {
    hide M.Run, AllEvents, MovedBy, B.WaitsForLock;
    var p, q := j.m.pollers[k], QueryOf(rate, j.m.exp, j.m.pollers[k]);
    var step := P.CallSubscribe(t, q);
    FlagFollows(p, P.Apply(j.y, step), k, t);
    TiedAfter(rate, j, step, j.subs[k := t], j.unsubs, k);
  }

  lemma SubscribeKeeps(rate: RateText, j: State, k: nat, t: nat)
    requires Coupled(rate, j) && CanSubscribe(j, k, t)
    ensures var step := P.CallSubscribe(t, QueryOf(rate, j.m.exp, j.m.pollers[k]));
      Coupled(rate, Followed(j, step, j.subs[k := t], j.unsubs))
  {
    hide M.Run, AllEvents, TiedAt, PublisherOk, NotItsReceive, Followed, QueryOf;
    var step := P.CallSubscribe(t, QueryOf(rate, j.m.exp, j.m.pollers[k]));
    var subs := j.subs[k := t];
    var j' := Followed(j, step, subs, j.unsubs);
    FollowedIs(j, step, subs, j.unsubs);
    PublisherStaysOk(j.y, step);
    forall i: nat ensures TiedAt(rate, j', i) {
      if i == k {
        CallStarts(rate, j, k, t);
      } else {
        NoReceive(j.y, step, if i in subs then subs[i] else 0);
        OthersFollow(rate, j, step, subs, j.unsubs, i);
      }
    }
    ThreadsStay(j.y, step);
    assert t in P.Apply(j.y, step).threads;
    CallsStayOk(j, step, subs, j.unsubs);
  }

  lemma NoReceive(y: P.System, step: P.Step, t: nat)
    requires !step.Receive?
    ensures NotItsReceive(y, step, t)
  {
  }

  lemma UnsubscribeStarts(rate: RateText, j: State, k: nat, u: nat)
    requires PublisherOk(j.y) && TiedAt(rate, j, k) && CanUnsubscribe(j, k, u)
    ensures var step := P.CallUnsubscribe(u, QueryOf(rate, j.m.exp, j.m.pollers[k]), j.y.threads[j.subs[k]].channel);
      TiedAt(rate, Followed(j, step, j.subs, j.unsubs[k := u]), k)
  {
    hide M.Run, AllEvents, MovedBy, B.WaitsForLock, PublisherOk;
    var p, q := j.m.pollers[k], QueryOf(rate, j.m.exp, j.m.pollers[k]);
    var step := P.CallUnsubscribe(u, q, j.y.threads[j.subs[k]].channel);
    FlagFollows(p, P.Apply(j.y, step), k, u);
    TiedAfter(rate, j, step, j.subs, j.unsubs[k := u], k);
  }

  lemma UnsubscribeKeeps(rate: RateText, j: State, k: nat, u: nat)
    requires Coupled(rate, j) && CanUnsubscribe(j, k, u)
    ensures var step := P.CallUnsubscribe(u, QueryOf(rate, j.m.exp, j.m.pollers[k]), j.y.threads[j.subs[k]].channel);
      Coupled(rate, Followed(j, step, j.subs, j.unsubs[k := u]))
  {
    hide M.Run, AllEvents, TiedAt, PublisherOk, NotItsReceive, Followed, QueryOf, P.Apply;
    var step := P.CallUnsubscribe(u, QueryOf(rate, j.m.exp, j.m.pollers[k]), j.y.threads[j.subs[k]].channel);
    var unsubs := j.unsubs[k := u];
    var j' := Followed(j, step, j.subs, unsubs);
    FollowedIs(j, step, j.subs, unsubs);
    PublisherStaysOk(j.y, step);
    forall i: nat ensures TiedAt(rate, j', i) {
      if i == k {
        UnsubscribeStarts(rate, j, k, u);
      } else {
        NoReceive(j.y, step, if i in j.subs then j.subs[i] else 0);
        OthersFollow(rate, j, step, j.subs, unsubs, i);
      }
    }
    ThreadsStay(j.y, step);
    CallsStayOk(j, step, j.subs, unsubs);
  }

  // ----- a poller receives -----

  lemma ReceiveApart(p: M.Poller, y: P.System, c: nat, sub: Option<nat>, unsub: Option<nat>, q: string)
    requires Tied(p, y, sub, unsub, q) && (sub.Some? ==> NotItsReceive(y, P.Receive(c), sub.value))
    ensures Tied(p, P.Apply(y, P.Receive(c)), sub, unsub, q)
  {
  }

  /** The value goes from the channel to the poller. */
  lemma ReceiverTakes(m: M.State, k: nat, y: P.System, t: nat, q: string)
    requires k < |m.pollers| && m.pollers[k].stage == M.Polling && Tied(m.pollers[k], y, Some(t), None, q)
    ensures k < |M.Apply(m, M.Take(k)).pollers|
      && Tied(M.Apply(m, M.Take(k)).pollers[k], P.Apply(y, P.Receive(y.threads[t].channel)), Some(t), None, q)
  {
    hide M.Crossing;
    var p, ch := m.pollers[k], y.chans[y.threads[t].channel];
    assert p.queue == ch.buffer && p.received == ch.received;
  }

  lemma OnlyPollerTakes(m: M.State, k: nat)
    requires k < |m.pollers|
    ensures var m' := M.Apply(m, M.Take(k));
      && |m'.pollers| == |m.pollers| && m'.exp == m.exp && m'.pollers[k].condition == m.pollers[k].condition
      && forall i: nat :: i < |m.pollers| && i != k ==> m'.pollers[i] == m.pollers[i]
  {
    hide M.Crossing;
  }

  function Taken(j: State, k: nat): State
    requires Takes(j, k)
  {
    j.(m := M.Apply(j.m, M.Take(k)), y := P.Apply(j.y, P.Receive(j.y.threads[j.subs[k]].channel)))
  }

  lemma TakeTies(rate: RateText, j: State, k: nat, i: nat)
    requires Coupled(rate, j) && Takes(j, k)
    ensures TiedAt(rate, Taken(j, k), i)
  {
    hide M.Apply, P.Apply, Tied, P.Safe, R.Refs;
    assert TiedAt(rate, j, k) && TiedAt(rate, j, i);
    OnlyPollerTakes(j.m, k);
    if i == k {
      PollingIsNotUnsubscribing(rate, j, k);
      ReceiverTakes(j.m, k, j.y, j.subs[k], QueryOf(rate, j.m.exp, j.m.pollers[k]));
    } else if i < |j.m.pollers| {
      var c := j.y.threads[j.subs[k]].channel;
      assert i in j.subs ==> NotItsReceive(j.y, P.Receive(c), j.subs[i]);
      ReceiveApart(j.m.pollers[i], j.y, c, At(j.subs, i), At(j.unsubs, i), QueryOf(rate, j.m.exp, j.m.pollers[i]));
    }
  }

  lemma PollingIsNotUnsubscribing(rate: RateText, j: State, k: nat)
    requires TiedAt(rate, j, k) && Takes(j, k)
    ensures At(j.unsubs, k) == None
  {
  }

  lemma TakeKeeps(rate: RateText, j: State, k: nat)
    requires Coupled(rate, j) && Takes(j, k)
    ensures Coupled(rate, Taken(j, k))
  {
    hide M.Apply, P.Apply, TiedAt, PublisherOk;
    var step := P.Receive(j.y.threads[j.subs[k]].channel);
    PublisherStaysOk(j.y, step);
    OnlyPollerTakes(j.m, k);
    ThreadsStay(j.y, step);
    forall i: nat ensures TiedAt(rate, Taken(j, k), i) {
      TakeTies(rate, j, k, i);
    }
  }

  // ----- a step without the publisher -----

  /** Poller i after a step of the monitoring call, or of a poller by itself: as before, a new one, or in a later stage. */
  lemma OwnTies(m: M.State, step: M.Step, i: nat, y: P.System, sub: Option<nat>, unsub: Option<nat>, q: string)
    requires IsOwn(step) && i < |m.pollers| && Tied(m.pollers[i], y, sub, unsub, q)
    ensures var m' := M.Apply(m, step);
      && i < |m'.pollers| && m'.pollers[i].condition == m.pollers[i].condition
      && Tied(m'.pollers[i], y, sub, unsub, q)
  {
    hide Conditions, M.InvalidQuery, UnsubscribeTied, SubscribeTied;
  }

  lemma OwnBirth(m: M.State, step: M.Step, i: nat)
    requires IsOwn(step) && |m.pollers| <= i < |M.Apply(m, step).pollers|
    ensures exists condition :: M.Apply(m, step).pollers[i] == M.Born(condition)
  {
  }

  lemma OwnSize(m: M.State, step: M.Step)
    requires IsOwn(step)
    ensures |m.pollers| <= |M.Apply(m, step).pollers| && M.Apply(m, step).exp == m.exp
  {
  }

  lemma OwnTiesAt(rate: RateText, j: State, step: M.Step, i: nat)
    requires Coupled(rate, j) && IsOwn(step)
    ensures TiedAt(rate, j.(m := M.Apply(j.m, step)), i)
  {
    hide M.Apply, IsOwn, PublisherOk;
    assert TiedAt(rate, j, i);
    var m' := M.Apply(j.m, step);
    OwnSize(j.m, step);
    if i < |j.m.pollers| {
      hide Tied;
      OwnTies(j.m, step, i, j.y, At(j.subs, i), At(j.unsubs, i), QueryOf(rate, j.m.exp, j.m.pollers[i]));
    } else if i < |m'.pollers| {
      OwnBirth(j.m, step, i);
      assert At(j.subs, i) == None && At(j.unsubs, i) == None;
    }
  }

  lemma OwnKeeps(rate: RateText, j: State, step: M.Step)
    requires Coupled(rate, j) && IsOwn(step)
    ensures Coupled(rate, j.(m := M.Apply(j.m, step)))
  {
    hide M.Apply, IsOwn, PublisherOk, TiedAt;
    OwnSize(j.m, step);
    forall i: nat ensures TiedAt(rate, j.(m := M.Apply(j.m, step)), i) {
      OwnTiesAt(rate, j, step, i);
    }
  }

  // ----- whole runs -----

  lemma {:induction false} OneRun(m: M.State, step: M.Step)
    ensures M.Run(m, [step]) == M.Apply(m, step) && M.Run(m, []) == m
  {
    hide M.Apply;
    assert [step][..0] == [];
  }

  lemma StepIs(rate: RateText, j: State, step: Step)
    ensures var j' := Apply(rate, j, step);
      match step
      case Own(s) => j' == if IsOwn(s) then j.(m := M.Apply(j.m, s)) else j
      case Take(k) => j' == if Takes(j, k) then Taken(j, k) else j
      case _ =>
        var part := PublisherPart(rate, j, step);
        j' == if part.Some? then Followed(j, part.value, SubsAfter(j, step), UnsubsAfter(j, step)) else j
  {
    hide M.Run, M.Apply, P.Apply, AllEvents, QueryOf;
    NothingRuns(j.m);
    match step
    case Own(s) => OneRun(j.m, s);
    case Take(k) => OneRun(j.m, M.Take(k));
    case _ =>
  }

  lemma {:induction false} NothingRuns(m: M.State)
    ensures M.Run(m, []) == m
  {
  }

  lemma StepKeeps(rate: RateText, j: State, step: Step)
    requires Coupled(rate, j)
    ensures Coupled(rate, Apply(rate, j, step))
  {
    hide Apply, Coupled, M.Apply, P.Apply, QueryOf, Followed, Owned;
    StepIs(rate, j, step);
    match step
    case Own(s) => if IsOwn(s) { OwnKeeps(rate, j, s); }
    case Take(k) => if Takes(j, k) { TakeKeeps(rate, j, k); }
    case Publisher(s) => if !(s.Receive? && Owned(j, s.c)) { PublisherKeeps(rate, j, s); }
    case StartSubscribe(k, t) => if CanSubscribe(j, k, t) { SubscribeKeeps(rate, j, k, t); }
    case StartUnsubscribe(k, u) => if CanUnsubscribe(j, k, u) { UnsubscribeKeeps(rate, j, k, u); }
  }

  lemma StartIsCoupled(rate: RateText, e: Exp)
    ensures Coupled(rate, Start(e))
  {
  }

  /**
   In every joint run, every poller of the monitor and the publisher agree: on the values of its channel, on
   the query its list was made for, and on whether a lock holds up its Subscribe or its Unsubscribe.
   */
  lemma {:induction false} EveryRunIsCoupled(rate: RateText, e: Exp, steps: seq<Step>)
    ensures Coupled(rate, Exec(rate, e, steps))
  {
    hide Apply, Coupled, Start;
    if steps == [] {
      StartIsCoupled(rate, e);
    } else {
      EveryRunIsCoupled(rate, e, steps[..|steps| - 1]);
      StepKeeps(rate, Exec(rate, e, steps[..|steps| - 1]), steps[|steps| - 1]);
    }
  }
}
