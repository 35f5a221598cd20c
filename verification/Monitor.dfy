/**
 One MonitorExperiment call as a step machine: a goroutine per Prometheus
 condition polls its subscription, and races a timer and a cancellation over a
 one-slot channel. Time passes by steps; the timer is an event that may come.
 */
module Monitor {
  import opened Types
  import PubSub

  const DEFAULT_DURATION: Duration := 600_000_000_000

  // ----- thresholds, operators, deadlines -----

  predicate Less(a: Float, b: Float) {
    match (a, b)
    case (NaN, _) => false
    case (_, NaN) => false
    case (NegInf, y) => y != NegInf
    case (x, PosInf) => x != PosInf
    case (Fin(x), Fin(y)) => x < y
    case _ => false
  }

  predicate LessOrEqual(a: Float, b: Float) {
    a != NaN && b != NaN && !Less(b, a)
  }

  /** An operator the switch does not know, "==" included, compares with "<". */
  function Exceeded(val: Float, threshold: Float, operator: string): (r: bool)
    ensures r ==> val != NaN && threshold != NaN
  {
    if operator == ">" then Less(threshold, val)
    else if operator == ">=" then LessOrEqual(threshold, val)
    else if operator == "<=" then LessOrEqual(val, threshold)
    else Less(val, threshold)
  }

  /** The comparison is a total order once NaN is out: exactly one of the strict operators and equality holds. */
  lemma OperatorsPartition(val: Float, threshold: Float)
    requires val != NaN && threshold != NaN
    ensures Exceeded(val, threshold, ">=") <==> !Exceeded(val, threshold, "<")
    ensures Exceeded(val, threshold, "<=") <==> !Exceeded(val, threshold, ">")
    ensures val == threshold <==> !Exceeded(val, threshold, "<") && !Exceeded(val, threshold, ">")
    ensures Exceeded(val, threshold, "==") <==> Exceeded(val, threshold, "<")
    ensures val.Fin? && threshold.Fin? ==>
      && (Exceeded(val, threshold, ">") <==> val.r > threshold.r) && (Exceeded(val, threshold, ">=") <==> val.r >= threshold.r)
      && (Exceeded(val, threshold, "<") <==> val.r < threshold.r) && (Exceeded(val, threshold, "<=") <==> val.r <= threshold.r)
  {
  }

  /** The order of the values, from the greater to the smaller one. */
  predicate Above(a: Float, b: Float) {
    match (a, b)
    case (PosInf, PosInf) => false
    case (PosInf, b) => b != NaN
    case (Fin(x), Fin(y)) => x > y
    case (Fin(_), b) => b == NegInf
    case _ => false
  }

  /** What the four operators mean. */
  predicate Compares(val: Float, operator: string, threshold: Float) {
    && val != NaN && threshold != NaN
    && if operator == ">" then Above(val, threshold)
       else if operator == ">=" then val == threshold || Above(val, threshold)
       else if operator == "<=" then val == threshold || Above(threshold, val)
       else Above(threshold, val)
  }

  lemma ExceededExactly(val: Float, threshold: Float, operator: string)
    ensures Exceeded(val, threshold, operator) <==> Compares(val, operator, threshold)
  {
  }

  /** "==" as the API comment promises it. */
  predicate Equal(val: Float, threshold: Float) {
    val != NaN && val == threshold
  }

  /** The operator "==" gives the promised answer if and only if a NaN is involved or the value is above the threshold. */
  lemma EqualityExactly(val: Float, threshold: Float)
    ensures (Exceeded(val, threshold, "==") <==> Equal(val, threshold))
       <==> val == NaN || threshold == NaN || Exceeded(val, threshold, ">")
  {
  }

  function Operator(p: PromTrigger): string {
    if p.operator == "" then "<" else p.operator
  }

  /** A success-rate query needs a service. */
  predicate InvalidQuery(p: PromTrigger) {
    p.query.SuccessRate? && p.query.service == None
  }

  function RunsFor(e: Exp): Duration {
    if DurationOf(e).Some? then DurationOf(e).value else DEFAULT_DURATION
  }

  /** What is left of the duration, counted from the recorded start. */
  function Remaining(e: Exp, now: Time): Option<Duration> {
    match e.result.timeStarted
    case None => None
    case Some(started) => Some(RunsFor(e) - (now - started))
  }

  /** When the experiment's time is over. */
  function Deadline(e: Exp): Option<Time> {
    match e.result.timeStarted case None => None case Some(started) => Some(started + RunsFor(e))
  }

  // ----- the machine -----

  datatype Report = InvalidConfig | Crossed(value: Float, threshold: Float, operator: string)

  /** Why the call returned. `Crashed` is the nil dereference of a missing trigger; the deferred cancel runs then, too. */
  datatype Ending = Reported | ReportFailed | Cancelled | SetupFailed | Crashed

  datatype Phase = Setup(next: nat) | Selecting | Reporting(report: Option<Report>) | Returned(ending: Ending)

  datatype Stage =
    | Fresh                                    // started, not subscribed yet
    | Polling
    | Unsubscribing(found: Option<Report>)     // the deferred Unsubscribe
    | Sending(report: Report)                  // at the select between the slot and Done
    | Finished

  /**
   A polling goroutine, its subscription's buffer, and every value it has received. It is blocked while a
   lock that its Subscribe or its Unsubscribe needs is held, for instance by a publish that waits on a full
   buffer.
   */
  datatype Poller =
    Poller(condition: nat, stage: Stage, queue: seq<Float>, closed: bool, received: seq<Float>, blocked: bool)

  datatype State = State(exp: Exp, phase: Phase, pollers: seq<Poller>, slot: Option<Report>,
                         done: bool, timer: Option<Time>, fired: Option<Time>, verdicts: seq<Option<Report>>)

  datatype Step =
    | SetUpNext(now: Time)               // the loop over the conditions, then the timer
    | CancelParent
    | Fire(now: Time)                    // the timer
    | SelectDone | SelectFailure | SelectTimer
    | Write(ok: bool)                    // read and write back the experiment
    | Arrive(k: nat, value: Float)       // a publish reaches poller k's subscription
    | CloseSubscription(k: nat)
    | Block(k: nat) | Unblock(k: nat)
    | Subscribe(k: nat) | Take(k: nat) | SeeClosed(k: nat) | SeeDone(k: nat)
    | Unsubscribe(k: nat) | Send(k: nat) | GiveUp(k: nat)

  function Start(e: Exp): State {
    State(e, Setup(0), [], None, false, None, None, [])
  }

  /** Returning runs the deferred cancel. */
  function Return(s: State, ending: Ending): State {
    s.(phase := Returned(ending), done := true)
  }

  function Born(condition: nat): Poller {
    Poller(condition, Fresh, [], false, [], false)
  }

  function SetUp(s: State, i: nat, now: Time): State {
    if s.exp.spec == None then s.(phase := Reporting(Some(InvalidConfig)))
    else if i < |Conditions(s.exp)| then
      match Conditions(s.exp)[i].trigger
      case None => Return(s, Crashed)
      case Some(Prometheus(p)) =>
        if InvalidQuery(p) then Return(s, SetupFailed)
        else s.(phase := Setup(i + 1), pollers := s.pollers + [Born(i)])
      case Some(_) => s.(phase := Setup(i + 1))
    else
      match Remaining(s.exp, now)
      case None => Return(s, SetupFailed)
      case Some(rest) => s.(phase := Selecting, timer := Some(now + rest))
  }

  /** The Prometheus trigger a poller was started for. */
  function TriggerOf(e: Exp, condition: nat): Option<PromTrigger> {
    if condition < |Conditions(e)| then
      match Conditions(e)[condition].trigger case Some(Prometheus(p)) => Some(p) case _ => None
    else None
  }

  function Crossing(e: Exp, condition: nat, v: Float): Option<Report> {
    match TriggerOf(e, condition)
    case None => None
    case Some(p) => if Exceeded(v, p.threshold, Operator(p)) then Some(Crossed(v, p.threshold, Operator(p))) else None
  }

  /** One poller's own step, and what it puts into the slot. */
  function Polled(s: State, step: Step, p: Poller): (Poller, Option<Report>) {
    match (step, p.stage)
    case (Arrive(_, v), Polling) =>
      if |p.queue| < PubSub.BUFFER_SIZE && !p.closed then (p.(queue := p.queue + [v]), s.slot) else (p, s.slot)
    case (CloseSubscription(_), Polling) => (p.(closed := true), s.slot)
    case (Subscribe(_), Fresh) => if p.blocked then (p, s.slot) else (p.(stage := Polling), s.slot)
    case (Take(_), Polling) =>
      if p.queue == [] then (p, s.slot)
      else
        var v := p.queue[0];
        var found := Crossing(s.exp, p.condition, v);
        (p.(queue := p.queue[1..], received := p.received + [v],
            stage := if found.Some? then Unsubscribing(found) else Polling), s.slot)
    case (SeeClosed(_), Polling) =>
      if p.closed && p.queue == [] then (p.(stage := Unsubscribing(None)), s.slot) else (p, s.slot)
    case (SeeDone(_), Polling) => if s.done then (p.(stage := Unsubscribing(None)), s.slot) else (p, s.slot)
    case (Block(_), _) => (if p.stage == Finished then p else p.(blocked := true), s.slot)
    case (Unblock(_), _) => (if p.stage == Finished then p else p.(blocked := false), s.slot)
    case (Unsubscribe(_), Unsubscribing(found)) =>
      if p.blocked then (p, s.slot)
      else (p.(stage := if found.Some? then Sending(found.value) else Finished), s.slot)
    case (Send(_), Sending(r)) => if s.slot == None then (p.(stage := Finished), Some(r)) else (p, s.slot)
    case (GiveUp(_), Sending(_)) => if s.done then (p.(stage := Finished), s.slot) else (p, s.slot)
    case _ => (p, s.slot)
  }

  /** One step; a step that is not enabled does nothing. */
  function Apply(s: State, step: Step): State {
    match step
    case SetUpNext(now) => if s.phase.Setup? then SetUp(s, s.phase.next, now) else s
    case CancelParent => s.(done := true)
    case Fire(now) =>
      if s.phase == Selecting && s.timer.Some? && s.timer.value <= now then s.(fired := Some(now)) else s
    case SelectDone => if s.phase == Selecting && s.done then Return(s, Cancelled) else s
    case SelectFailure =>
      if s.phase == Selecting && s.slot.Some? then s.(phase := Reporting(s.slot), slot := None) else s
    case SelectTimer => if s.phase == Selecting && s.fired.Some? then s.(phase := Reporting(None)) else s
    case Write(ok) =>
      if !s.phase.Reporting? then s
      else if ok then Return(s.(verdicts := s.verdicts + [s.phase.report]), Reported)
      else Return(s, ReportFailed)
    case _ =>
      if step.k < |s.pollers| then
        var (p, slot) := Polled(s, step, s.pollers[step.k]);
        s.(pollers := s.pollers[step.k := p], slot := slot)
      else s
  }

  function Run(s: State, steps: seq<Step>): State {
    if steps == [] then s else Apply(Run(s, steps[..|steps| - 1]), steps[|steps| - 1])
  }

  // ----- soundness of the verdict -----

  /** None of the values crosses the condition's threshold. */
  ghost predicate NoneCrosses(e: Exp, condition: nat, values: seq<Float>) {
    forall i :: 0 <= i < |values| ==> Crossing(e, condition, values[i]) == None
  }

  /** The report is that of the first crossing value among those received, which is the last one received. */
  ghost predicate Justifies(e: Exp, p: Poller, r: Report) {
    && p.received != []
    && Crossing(e, p.condition, p.received[|p.received| - 1]) == Some(r)
    && NoneCrosses(e, p.condition, p.received[..|p.received| - 1])
  }

  ghost predicate PollerOk(e: Exp, p: Poller) {
    && TriggerOf(e, p.condition).Some?
    && match p.stage
       case Fresh => p.received == []
       case Polling => NoneCrosses(e, p.condition, p.received)
       case Unsubscribing(found) => found.Some? ==> Justifies(e, p, found.value)
       case Sending(r) => Justifies(e, p, r)
       case Finished => true
  }

  /** Some finished poller stands behind the report. */
  ghost predicate Backed(s: State, r: Report) {
    exists k :: 0 <= k < |s.pollers| && s.pollers[k].stage == Finished && Justifies(s.exp, s.pollers[k], r)
  }

  /** A report may be given: no failure report without a poller behind it, no success without the timer. */
  ghost predicate MayReport(s: State, r: Option<Report>) {
    match r
    case None => s.fired.Some? && s.exp.spec.Some?
    case Some(InvalidConfig) => s.exp.spec == None
    case Some(_) => s.exp.spec.Some? && Backed(s, r.value)
  }

  ghost predicate PollersOk(s: State) {
    forall k :: 0 <= k < |s.pollers| ==> PollerOk(s.exp, s.pollers[k])
  }

  ghost predicate PhaseOk(s: State) {
    match s.phase
    case Setup(_) => s.verdicts == []
    case Selecting => s.verdicts == [] && s.exp.spec.Some?
    case Reporting(r) => s.verdicts == [] && MayReport(s, r)
    case Returned(Reported) => |s.verdicts| == 1 && MayReport(s, s.verdicts[0]) && s.done
    case Returned(_) => s.verdicts == [] && s.done
  }

  /** The timer runs to the experiment's deadline, and fires no earlier. */
  ghost predicate TimerOk(s: State) {
    && (s.timer.Some? ==> s.timer == Deadline(s.exp))
    && (s.fired.Some? ==> s.timer.Some? && s.timer.value <= s.fired.value)
  }

  ghost predicate Inv(s: State) {
    && PollersOk(s) && PhaseOk(s) && TimerOk(s)
    && (s.slot.Some? ==> s.slot.value.Crossed? && Backed(s, s.slot.value))
  }

  lemma PolledKeeps(s: State, step: Step, p: Poller)
    requires PollerOk(s.exp, p)
    ensures PollerOk(s.exp, Polled(s, step, p).0) && Polled(s, step, p).0.condition == p.condition
    ensures p.stage == Finished ==> Polled(s, step, p).0 == p
    ensures Polled(s, step, p).1 != s.slot ==>
      p.stage.Sending? && Polled(s, step, p).1 == Some(p.stage.report) && Polled(s, step, p).0 == p.(stage := Finished)
  {
    if step.Take? && p.stage == Polling && p.queue != [] {
      assert (p.received + [p.queue[0]])[..|p.received|] == p.received;
    }
  }

  /** Finished pollers stay as they are, so what they back stays backed. */
  lemma BackedPersists(s: State, s': State, r: Report)
    requires Backed(s, r) && s'.exp == s.exp && |s.pollers| <= |s'.pollers|
    requires forall k :: 0 <= k < |s.pollers| && s.pollers[k].stage == Finished ==> s'.pollers[k] == s.pollers[k]
    ensures Backed(s', r)
  {
    var k :| 0 <= k < |s.pollers| && s.pollers[k].stage == Finished && Justifies(s.exp, s.pollers[k], r);
    assert s'.pollers[k] == s.pollers[k];
  }

  lemma PollerStepKeeps(s: State, step: Step, k: nat)
    requires Inv(s) && k < |s.pollers|
    ensures var (p, slot) := Polled(s, step, s.pollers[k]); Inv(s.(pollers := s.pollers[k := p], slot := slot))
  {
    hide Polled, Justifies;
    var p := s.pollers[k];
    PolledKeeps(s, step, p);
    var (p', slot) := Polled(s, step, p);
    var s' := s.(pollers := s.pollers[k := p'], slot := slot);
    forall r | Backed(s, r) ensures Backed(s', r) {
      BackedPersists(s, s', r);
    }
    if slot != s.slot {
      assert s'.pollers[k].stage == Finished && Justifies(s.exp, s'.pollers[k], p.stage.report) by {
        JustifiesIgnoresStage(s.exp, p, p.stage.report);
      }
      JustifiedIsCrossed(s.exp, p, p.stage.report);
    }
  }

  lemma JustifiesIgnoresStage(e: Exp, p: Poller, r: Report)
    ensures Justifies(e, p.(stage := Finished), r) <==> Justifies(e, p, r)
  {
  }

  lemma JustifiedIsCrossed(e: Exp, p: Poller, r: Report)
    requires Justifies(e, p, r)
    ensures r.Crossed?
  {
  }

  lemma SetUpPollersOk(s: State, i: nat, now: Time)
    requires PollersOk(s)
    ensures PollersOk(SetUp(s, i, now))
    ensures |s.pollers| <= |SetUp(s, i, now).pollers| && SetUp(s, i, now).slot == s.slot
    ensures forall k :: 0 <= k < |s.pollers| ==> SetUp(s, i, now).pollers[k] == s.pollers[k]
    ensures SetUp(s, i, now).exp == s.exp
  {
    hide PollerOk;
    forall k | |s.pollers| <= k < |SetUp(s, i, now).pollers| ensures PollerOk(s.exp, SetUp(s, i, now).pollers[k]) {
      BornOk(s.exp, i);
    }
  }

  lemma BornOk(e: Exp, i: nat)
    requires TriggerOf(e, i).Some?
    ensures PollerOk(e, Born(i))
  {
  }

  lemma SetUpPhaseOk(s: State, i: nat, now: Time)
    requires PhaseOk(s) && TimerOk(s) && s.phase == Setup(i)
    ensures PhaseOk(SetUp(s, i, now)) && TimerOk(SetUp(s, i, now))
  {
    hide Backed;
  }

  lemma SetUpKeeps(s: State, i: nat, now: Time)
    requires Inv(s) && s.phase == Setup(i)
    ensures Inv(SetUp(s, i, now))
  {
    hide SetUp, PollersOk, PhaseOk, TimerOk, Backed;
    var s' := SetUp(s, i, now);
    SetUpPollersOk(s, i, now);
    SetUpPhaseOk(s, i, now);
    if s.slot.Some? {
      BackedPersists(s, s', s.slot.value);
    }
  }

  lemma StepKeeps(s: State, step: Step)
    requires Inv(s)
    ensures Inv(Apply(s, step))
  {
    hide Polled, SetUp, Justifies, PollerOk;
    var s' := Apply(s, step);
    match step
    case SetUpNext(now) => if s.phase.Setup? { SetUpKeeps(s, s.phase.next, now); }
    case CancelParent => SamePollersSameBacking(s, s');
    case Fire(_) => SamePollersSameBacking(s, s');
    case SelectDone => SamePollersSameBacking(s, s');
    case SelectFailure => SamePollersSameBacking(s, s');
    case SelectTimer => SamePollersSameBacking(s, s');
    case Write(_) => SamePollersSameBacking(s, s');
    case _ => if step.k < |s.pollers| { PollerStepKeeps(s, step, step.k); }
  }

  lemma SamePollersSameBacking(s: State, s': State)
    requires s'.pollers == s.pollers && s'.exp == s.exp
    ensures forall r :: Backed(s, r) <==> Backed(s', r)
  {
  }

  lemma {:induction false} RunKeeps(e: Exp, steps: seq<Step>)
    ensures Inv(Run(Start(e), steps)) && Run(Start(e), steps).exp == e
  {
    if steps != [] {
      hide Inv, Start;
      RunKeeps(e, steps[..|steps| - 1]);
      StepKeeps(Run(Start(e), steps[..|steps| - 1]), steps[|steps| - 1]);
      ExpIsFixed(Run(Start(e), steps[..|steps| - 1]), steps[|steps| - 1]);
    }
  }

  lemma ExpIsFixed(s: State, step: Step)
    ensures Apply(s, step).exp == s.exp
  {
  }

  /**
   What a verdict means, in every interleaving of pollers, timer and cancellation: there is at most one;
   success needs the timer, which does not fire before the experiment's time is over, whenever the call
   was made; a threshold report names the operator and threshold of a configured
   Prometheus condition and the first crossing value received on that condition's subscription; the
   invalid-config report means there was no spec; and a call that ends otherwise reports nothing.
   */
  lemma {:induction false} VerdictIsSound(e: Exp, steps: seq<Step>)
    ensures |Run(Start(e), steps).verdicts| <= 1
    ensures Run(Start(e), steps).verdicts == [None] ==>
      Run(Start(e), steps).fired.Some? && Deadline(e).Some? && Deadline(e).value <= Run(Start(e), steps).fired.value
    ensures Run(Start(e), steps).verdicts == [Some(InvalidConfig)] ==> e.spec == None
    ensures forall r: Report :: Run(Start(e), steps).verdicts == [Some(r)] && r.Crossed? ==>
      exists k :: && 0 <= k < |Run(Start(e), steps).pollers|
                  && IsFirstCrossing(e, Run(Start(e), steps).pollers[k], r)
    ensures Run(Start(e), steps).verdicts != [] ==> Run(Start(e), steps).phase == Returned(Reported)
  {
    RunKeeps(e, steps);
    var s := Run(Start(e), steps);
    forall r: Report | s.verdicts == [Some(r)] && r.Crossed?
      ensures exists k :: 0 <= k < |s.pollers| && IsFirstCrossing(e, s.pollers[k], r)
    {
      assert Backed(s, r);
      var k :| 0 <= k < |s.pollers| && s.pollers[k].stage == Finished && Justifies(s.exp, s.pollers[k], r);
      JustifiedIsFirst(e, s.pollers[k], r);
    }
  }

  /**
   The report carries the threshold and the operator of the poller's condition, and the first value its
   subscription received that crosses it.
   */
  ghost predicate IsFirstCrossing(e: Exp, p: Poller, r: Report)
    requires r.Crossed?
  {
    && p.condition < |Conditions(e)| && Conditions(e)[p.condition].trigger.Some?
    && match Conditions(e)[p.condition].trigger.value
       case Prometheus(t) =>
         var n := |p.received|;
         && r.threshold == t.threshold
         && r.operator == (if t.operator == "" then "<" else t.operator)
         && n > 0 && r.value == p.received[n - 1] && Exceeded(r.value, r.threshold, r.operator)
         && forall i :: 0 <= i < n - 1 ==> !Exceeded(p.received[i], r.threshold, r.operator)
       case _ => false
  }

  lemma JustifiedIsFirst(e: Exp, p: Poller, r: Report)
    requires Justifies(e, p, r) && r.Crossed?
    ensures IsFirstCrossing(e, p, r)
  {
    hide Exceeded;
    var n := |p.received|;
    forall i | 0 <= i < n - 1 ensures !Exceeded(p.received[i], r.threshold, r.operator) {
      assert Crossing(e, p.condition, p.received[..n - 1][i]) == None;
    }
  }

  // ----- what success does not mean -----

  /** The operator and the threshold leave room for a value that crosses. */
  predicate Crossable(threshold: Float, operator: string) {
    && threshold != NaN
    && (operator == ">" ==> threshold != PosInf)
    && (operator != ">" && operator != ">=" && operator != "<=" ==> threshold != NegInf)
  }

  lemma CrossableExactly(threshold: Float, operator: string)
    ensures Crossable(threshold, operator) <==> exists v :: Exceeded(v, threshold, operator)
  {
    if Crossable(threshold, operator) {
      if operator == ">" {
        assert Exceeded(PosInf, threshold, operator);
      } else if operator == ">=" || operator == "<=" {
        assert Exceeded(threshold, threshold, operator);
      } else {
        assert Exceeded(NegInf, threshold, operator);
      }
    }
  }

  /** The first n conditions have a trigger, and a valid query if it is a Prometheus one. */
  predicate SetUpTo(e: Exp, n: nat) {
    n <= |Conditions(e)| && forall i :: 0 <= i < n ==> CanBeSetUp(Conditions(e)[i])
  }

  predicate CanBeSetUp(c: Condition) {
    match c.trigger
    case None => false
    case Some(Prometheus(p)) => p.query.SuccessRate? ==> p.query.service.Some?
    case Some(_) => true
  }

  /** The call gets past its setup. */
  predicate Monitorable(e: Exp) {
    e.spec.Some? && e.result.timeStarted.Some? && SetUpTo(e, |Conditions(e)|)
  }

  /** Some Prometheus condition can be crossed at all. */
  ghost predicate CanCross(e: Exp) {
    exists k: nat :: CanCrossAt(e, k)
  }

  predicate CanCrossAt(e: Exp, k: nat) {
    TriggerOf(e, k).Some? && Crossable(TriggerOf(e, k).value.threshold, Operator(TriggerOf(e, k).value))
  }

  /**
   Success was reported although a poller had received a value that crosses its condition's threshold, and
   although a failure was waiting in the slot.
   */
  ghost predicate SucceededDespite(s: State) {
    s.verdicts == [None] && s.slot.Some? && exists k: nat, i: nat :: CrossedAt(s, k, i)
  }

  ghost predicate CrossedAt(s: State, k: nat, i: nat) {
    && k < |s.pollers| && i < |s.pollers[k].received|
    && Crossing(s.exp, s.pollers[k].condition, s.pollers[k].received[i]).Some?
  }

  /** What the setup has established so far. */
  ghost predicate SetUpSoFar(s: State) {
    match s.phase
    case Setup(i) => SetUpTo(s.exp, i)
    case Selecting => Monitorable(s.exp)
    case Reporting(r) => r != Some(InvalidConfig) ==> Monitorable(s.exp)
    case Returned(Cancelled) => Monitorable(s.exp)
    case Returned(ReportFailed) => s.exp.spec == None || Monitorable(s.exp)
    case Returned(_) => s.verdicts != [] && s.verdicts[0] != Some(InvalidConfig) ==> Monitorable(s.exp)
  }

  lemma StepKeepsSetUp(s: State, step: Step)
    requires Inv(s) && SetUpSoFar(s)
    ensures SetUpSoFar(Apply(s, step))
  {
    hide Polled, PollersOk, Backed, Monitorable, SetUpTo;
    if step.SetUpNext? && s.phase.Setup? {
      SetUpNextExtends(s, s.phase.next, step.now);
    }
  }

  lemma SetUpNextExtends(s: State, i: nat, now: Time)
    requires SetUpTo(s.exp, i) && s.phase == Setup(i)
    ensures SetUp(s, i, now).phase.Setup? ==> SetUpTo(s.exp, SetUp(s, i, now).phase.next)
    ensures SetUp(s, i, now).phase == Selecting ==> Monitorable(s.exp)
    ensures SetUp(s, i, now).phase.Reporting? ==> SetUp(s, i, now).phase.report == Some(InvalidConfig)
    ensures SetUp(s, i, now).verdicts == s.verdicts && SetUp(s, i, now).exp == s.exp
  {
  }

  lemma {:induction false} RunKeepsSetUp(e: Exp, steps: seq<Step>)
    ensures SetUpSoFar(Run(Start(e), steps))
  {
    if steps != [] {
      hide Inv, Start, Apply, SetUpSoFar;
      RunKeepsSetUp(e, steps[..|steps| - 1]);
      RunKeeps(e, steps[..|steps| - 1]);
      StepKeepsSetUp(Run(Start(e), steps[..|steps| - 1]), steps[|steps| - 1]);
    }
  }

  lemma {:induction false} OnlyIfMonitorable(e: Exp, steps: seq<Step>)
    requires SucceededDespite(Run(Start(e), steps))
    ensures Monitorable(e) && CanCross(e)
  {
    hide Exceeded, Crossable, Operator, Run;
    RunKeeps(e, steps);
    RunKeepsSetUp(e, steps);
    var s := Run(Start(e), steps);
    var k: nat, i: nat :| CrossedAt(s, k, i);
    var p := TriggerOf(e, s.pollers[k].condition).value;
    CrossableExactly(p.threshold, Operator(p));
    assert CanCrossAt(e, s.pollers[k].condition);
  }

  // ----- a run that succeeds although a value crosses -----

  lemma {:induction false} RunNext(s: State, steps: seq<Step>, step: Step)
    ensures Run(s, steps + [step]) == Apply(Run(s, steps), step)
  {
    assert (steps + [step])[..|steps|] == steps;
  }

  /** The pollers of the first n conditions. */
  function PollersOf(e: Exp, n: nat): seq<Poller> {
    if n == 0 then []
    else PollersOf(e, n - 1) + if TriggerOf(e, n - 1).Some? then [Born(n - 1)] else []
  }

  lemma {:induction false} PollerOfCondition(e: Exp, n: nat, k: nat) returns (j: nat)
    requires k < n && TriggerOf(e, k).Some?
    ensures j < |PollersOf(e, n)| && PollersOf(e, n)[j] == Born(k)
  {
    if k == n - 1 {
      j := |PollersOf(e, n - 1)|;
    } else {
      j := PollerOfCondition(e, n - 1, k);
    }
  }

  lemma {:induction false} SetUpRun(e: Exp, n: nat) returns (steps: seq<Step>)
    requires e.spec.Some? && SetUpTo(e, n)
    ensures Run(Start(e), steps) == Start(e).(phase := Setup(n), pollers := PollersOf(e, n))
    ensures forall i :: 0 <= i < |steps| ==> steps[i].SetUpNext?
  {
    if n == 0 {
      steps := [];
    } else {
      hide Run;
      steps := SetUpRun(e, n - 1);
      RunNext(Start(e), steps, SetUpNext(0));
      steps := steps + [SetUpNext(0)];
      assert CanBeSetUp(Conditions(e)[n - 1]);
    }
  }

  lemma SelectingRun(e: Exp) returns (steps: seq<Step>)
    requires Monitorable(e)
    ensures Deadline(e).Some?
    ensures Run(Start(e), steps) == Start(e).(phase := Selecting, pollers := PollersOf(e, |Conditions(e)|), timer := Deadline(e))
    ensures forall i :: 0 <= i < |steps| ==> steps[i].SetUpNext?
  {
    hide Run, PollersOf;
    var n := |Conditions(e)|;
    steps := SetUpRun(e, n);
    RunNext(Start(e), steps, SetUpNext(0));
    steps := steps + [SetUpNext(0)];
  }

  /** From the select on: poller j subscribes and takes a crossing value. */
  lemma FindsIt(s: State, j: nat, v: Float, r: Report) returns (t: State, more: seq<Step>)
    requires !s.done && j < |s.pollers| && s.pollers[j] == Born(s.pollers[j].condition)
    requires Crossing(s.exp, s.pollers[j].condition, v) == Some(r)
    ensures t == Run(s, more) && t == s.(pollers := t.pollers) && |t.pollers| == |s.pollers|
    ensures t.pollers[j] == Poller(s.pollers[j].condition, Unsubscribing(Some(r)), [], false, [v], false)
  {
    hide Crossing, Run;
    var s1 := Apply(s, Subscribe(j));
    var s2 := Apply(s1, Arrive(j, v));
    t := Apply(s2, Take(j));
    more := [] + [Subscribe(j)] + [Arrive(j, v)] + [Take(j)];
    NoSteps(s);
    RunNext(s, [], Subscribe(j));
    RunNext(s, [] + [Subscribe(j)], Arrive(j, v));
    RunNext(s, [] + [Subscribe(j)] + [Arrive(j, v)], Take(j));
  }

  /** It leaves, and its report gets into the slot. */
  lemma SlotFills(s: State, j: nat, v: Float, r: Report) returns (t: State, more: seq<Step>)
    requires s.phase == Selecting && s.slot == None && !s.done
    requires j < |s.pollers| && s.pollers[j] == Born(s.pollers[j].condition)
    requires Crossing(s.exp, s.pollers[j].condition, v) == Some(r)
    ensures t == Run(s, more) && t == s.(pollers := t.pollers, slot := Some(r)) && |t.pollers| == |s.pollers|
    ensures t.pollers[j].condition == s.pollers[j].condition && t.pollers[j].received == [v]
  {
    hide Crossing, Run;
    var found, a := FindsIt(s, j, v, r);
    var left := Apply(found, Unsubscribe(j));
    assert left.pollers[j].stage == Sending(r);
    t := Apply(left, Send(j));
    more := a + [Unsubscribe(j)] + [Send(j)];
    RunNext(s, a, Unsubscribe(j));
    RunNext(s, a + [Unsubscribe(j)], Send(j));
  }

  /** Then the timer fires, and the select takes the timer all the same. */
  lemma TimerWins(s: State, j: nat, v: Float, r: Report) returns (t: State, more: seq<Step>)
    requires s.phase == Selecting && s.slot == None && !s.done
    requires j < |s.pollers| && s.pollers[j] == Born(s.pollers[j].condition)
    requires s.timer.Some? && s.verdicts == [] && Crossing(s.exp, s.pollers[j].condition, v) == Some(r)
    ensures t == Run(s, more) && t.exp == s.exp && t.verdicts == [None] && t.slot == Some(r) && |t.pollers| == |s.pollers|
    ensures t.pollers[j].condition == s.pollers[j].condition && t.pollers[j].received == [v]
  {
    hide Crossing, Run;
    var before, a := SlotFills(s, j, v, r);
    t := Apply(Apply(Apply(before, Fire(s.timer.value)), SelectTimer), Write(true));
    more := a + [Fire(s.timer.value)] + [SelectTimer] + [Write(true)];
    RunNext(s, a, Fire(s.timer.value));
    RunNext(s, a + [Fire(s.timer.value)], SelectTimer);
    RunNext(s, a + [Fire(s.timer.value)] + [SelectTimer], Write(true));
  }

  lemma {:induction false} NoSteps(s: State)
    ensures Run(s, []) == s
  {
  }

  lemma {:induction false} RunConcat(s: State, steps: seq<Step>, more: seq<Step>)
    ensures Run(s, steps + more) == Run(Run(s, steps), more)
  {
    if more == [] {
      assert steps + more == steps;
    } else {
      assert (steps + more)[..|steps + more| - 1] == steps + more[..|more| - 1];
      RunConcat(s, steps, more[..|more| - 1]);
    }
  }

  lemma IfMonitorable(e: Exp) returns (steps: seq<Step>)
    requires Monitorable(e) && CanCross(e)
    ensures SucceededDespite(Run(Start(e), steps))
  {
    hide Run, Exceeded, Crossable, Operator, PollersOf, Monitorable;
    var k: nat :| CanCrossAt(e, k);
    var p := TriggerOf(e, k).value;
    CrossableExactly(p.threshold, Operator(p));
    var v :| Exceeded(v, p.threshold, Operator(p));
    steps := SelectingRun(e);
    var s := Run(Start(e), steps);
    var j := PollerOfCondition(e, |Conditions(e)|, k);
    var t, more := TimerWins(s, j, v, Crossing(e, k, v).value);
    RunConcat(Start(e), steps, more);
    steps := steps + more;
    assert t.pollers[j].received[0] == v && CrossedAt(t, j, 0);
  }

  /**
   Success does not mean that no threshold was crossed. For exactly which experiments it can be reported
   although a poller received a crossing value: those that get past the setup and have a Prometheus
   condition that can be crossed at all.
   */
  lemma SuccessDespiteCrossingExactly(e: Exp)
    ensures (exists steps :: SucceededDespite(Run(Start(e), steps))) <==> Monitorable(e) && CanCross(e)
  {
    hide SucceededDespite, Run, Monitorable, CanCross;
    if steps :| SucceededDespite(Run(Start(e), steps)) {
      OnlyIfMonitorable(e, steps);
    }
    if Monitorable(e) && CanCross(e) {
      var steps := IfMonitorable(e);
    }
  }

  // ----- what a crossing value brings about -----

  /** The condition's trigger, if it is a Prometheus one, compares the value with the threshold. */
  predicate CrossesCondition(e: Exp, condition: nat, v: Float, threshold: Float, operator: string) {
    && e.spec.Some? && condition < |e.spec.value.conditions|
    && match e.spec.value.conditions[condition].trigger
       case Some(Prometheus(p)) =>
         && threshold == p.threshold && operator == (if p.operator == "" then "<" else p.operator)
         && Compares(v, operator, threshold)
       case _ => false
  }

  /** A value is reported if and only if it crosses, with the threshold and the operator it crosses. */
  lemma CrossingExactly(e: Exp, condition: nat, v: Float, r: Report)
    ensures Crossing(e, condition, v) == Some(r) <==>
      r.Crossed? && r.value == v && CrossesCondition(e, condition, v, r.threshold, r.operator)
  {
    hide Exceeded, Compares;
    if r.Crossed? {
      ExceededExactly(v, r.threshold, r.operator);
    }
    if TriggerOf(e, condition).Some? {
      var p := TriggerOf(e, condition).value;
      ExceededExactly(v, p.threshold, Operator(p));
    }
  }

  /** The report of the first value that crosses. */
  function FirstFound(e: Exp, condition: nat, values: seq<Float>): Option<Report> {
    if values == [] then None
    else
      var before := FirstFound(e, condition, values[..|values| - 1]);
      if before.Some? then before else Crossing(e, condition, values[|values| - 1])
  }

  /** The report has got through: it is in the slot or is being written, or the call is done. */
  predicate GotThrough(s: State, r: Report) {
    s.done || s.slot == Some(r) || s.phase == Reporting(Some(r))
  }

  /**
   A poller that has received a crossing value is on its way with exactly that report, and finishes only
   once it has got through. One that has not leaves only because the call is done, or because its subscription
   is closed and it has received everything that was published to it.
   */
  predicate Tells(s: State, p: Poller) {
    match FirstFound(s.exp, p.condition, p.received)
    case Some(r) =>
      p.stage == Unsubscribing(Some(r)) || p.stage == Sending(r) || (p.stage == Finished && GotThrough(s, r))
    case None =>
      || p.stage == Fresh || p.stage == Polling
      || ((p.stage == Unsubscribing(None) || p.stage == Finished) && (s.done || (p.closed && p.queue == [])))
  }

  ghost predicate AllTell(s: State) {
    forall k :: 0 <= k < |s.pollers| ==> Tells(s, s.pollers[k])
  }

  lemma {:induction false} FoundNext(e: Exp, condition: nat, values: seq<Float>, v: Float)
    ensures FirstFound(e, condition, values + [v])
         == if FirstFound(e, condition, values).Some? then FirstFound(e, condition, values) else Crossing(e, condition, v)
  {
    assert (values + [v])[..|values|] == values;
  }

  lemma PolledTells(s: State, step: Step, p: Poller)
    requires Tells(s, p)
    ensures Tells(s.(slot := Polled(s, step, p).1), Polled(s, step, p).0)
  {
    hide Crossing, FirstFound;
    if step.Take? && p.stage == Polling && p.queue != [] {
      FoundNext(s.exp, p.condition, p.received, p.queue[0]);
    }
  }

  /** What got through stays so, and done stays done. */
  lemma {:induction false} OthersTell(s: State, s': State, p: Poller)
    requires Tells(s, p) && s'.exp == s.exp && (s.done ==> s'.done)
    requires forall r :: GotThrough(s, r) ==> GotThrough(s', r)
    ensures Tells(s', p)
  {
  }

  lemma SlotGetsThrough(s: State, step: Step, k: nat)
    requires k < |s.pollers|
    ensures forall r :: GotThrough(s, r) ==> GotThrough(s.(slot := Polled(s, step, s.pollers[k]).1), r)
  {
  }

  lemma PollerStepTells(s: State, step: Step, k: nat)
    requires AllTell(s) && k < |s.pollers|
    ensures var (p, slot) := Polled(s, step, s.pollers[k]); AllTell(s.(pollers := s.pollers[k := p], slot := slot))
  {
    hide Polled, Tells, GotThrough;
    var (p, slot) := Polled(s, step, s.pollers[k]);
    var s' := s.(pollers := s.pollers[k := p], slot := slot);
    PolledTells(s, step, s.pollers[k]);
    SlotGetsThrough(s, step, k);
    PollersAside(s.(slot := slot), s');
    forall i | 0 <= i < |s'.pollers| ensures Tells(s', s'.pollers[i]) {
      if i == k {
        OthersTell(s.(slot := slot), s', p);
      } else {
        OthersTell(s, s', s.pollers[i]);
      }
    }
  }

  lemma PollersAside(s: State, s': State)
    requires s'.slot == s.slot && s'.phase == s.phase && s'.done == s.done
    ensures forall r :: GotThrough(s, r) <==> GotThrough(s', r)
  {
  }

  /** The steps of the call itself. */
  predicate OfCall(step: Step) {
    || step.SetUpNext? || step.CancelParent? || step.Fire? || step.SelectDone? || step.SelectFailure?
    || step.SelectTimer? || step.Write?
  }

  lemma CallGetsThrough(s: State, step: Step)
    requires OfCall(step)
    ensures forall r :: GotThrough(s, r) ==> GotThrough(Apply(s, step), r)
    ensures s.done ==> Apply(s, step).done
    ensures Apply(s, step).exp == s.exp
  {
  }

  lemma CallKeepsPollers(s: State, step: Step)
    requires OfCall(step)
    ensures var s' := Apply(s, step);
      && |s.pollers| <= |s'.pollers|
      && (forall k :: 0 <= k < |s.pollers| ==> s'.pollers[k] == s.pollers[k])
      && (forall k :: |s.pollers| <= k < |s'.pollers| ==> s'.pollers[k].stage == Fresh && s'.pollers[k].received == [])
  {
  }

  lemma StepTells(s: State, step: Step)
    requires AllTell(s)
    ensures AllTell(Apply(s, step))
  {
    hide Polled, Tells, GotThrough;
    if OfCall(step) {
      hide Apply;
      CallGetsThrough(s, step);
      CallKeepsPollers(s, step);
      forall k | 0 <= k < |Apply(s, step).pollers| ensures Tells(Apply(s, step), Apply(s, step).pollers[k]) {
        if k < |s.pollers| {
          OthersTell(s, Apply(s, step), s.pollers[k]);
        } else {
          FreshTells(Apply(s, step), Apply(s, step).pollers[k]);
        }
      }
    } else if step.k < |s.pollers| {
      PollerStepTells(s, step, step.k);
    }
  }

  lemma {:induction false} FreshTells(s: State, p: Poller)
    requires p.stage == Fresh && p.received == []
    ensures Tells(s, p)
  {
  }

  /**
   In every run, a poller that has received a crossing value has stopped polling with exactly its report, the
   first one's, and finishes only when that is in the one-slot channel or beyond, or the call is done.
   */
  lemma {:induction false} CrossingIsTold(e: Exp, steps: seq<Step>, k: nat)
    requires k < |Run(Start(e), steps).pollers|
    ensures Tells(Run(Start(e), steps), Run(Start(e), steps).pollers[k])
  {
    hide Run, Tells;
    EverybodyTells(e, steps);
  }

  lemma {:induction false} EverybodyTells(e: Exp, steps: seq<Step>)
    ensures AllTell(Run(Start(e), steps))
  {
    if steps != [] {
      hide Apply, AllTell, Start;
      EverybodyTells(e, steps[..|steps| - 1]);
      StepTells(Run(Start(e), steps[..|steps| - 1]), steps[|steps| - 1]);
    }
  }

  // ----- which verdicts an experiment can get -----

  /** From there on, its report is written. */
  lemma CrossingWins(s: State, j: nat, v: Float, r: Report) returns (more: seq<Step>)
    requires s.phase == Selecting && s.slot == None && !s.done
    requires j < |s.pollers| && s.pollers[j] == Born(s.pollers[j].condition)
    requires s.verdicts == [] && Crossing(s.exp, s.pollers[j].condition, v) == Some(r)
    ensures Run(s, more).verdicts == [Some(r)]
  {
    hide Crossing, Run;
    var before, a := SlotFills(s, j, v, r);
    more := a + [SelectFailure] + [Write(true)];
    RunNext(s, a, SelectFailure);
    RunNext(s, a + [SelectFailure], Write(true));
  }

  lemma {:induction false} FailsOnlyIf(e: Exp, steps: seq<Step>, v: Float, threshold: Float, operator: string)
    requires Run(Start(e), steps).verdicts == [Some(Crossed(v, threshold, operator))]
    ensures Monitorable(e) && exists k: nat :: CrossesCondition(e, k, v, threshold, operator)
  {
    hide Run, Monitorable, Crossing, CrossesCondition, NoneCrosses;
    RunKeeps(e, steps);
    RunKeepsSetUp(e, steps);
    var s, r := Run(Start(e), steps), Crossed(v, threshold, operator);
    assert Backed(s, r);
    var k :| 0 <= k < |s.pollers| && s.pollers[k].stage == Finished && Justifies(s.exp, s.pollers[k], r);
    var p := s.pollers[k];
    CrossingExactly(e, p.condition, p.received[|p.received| - 1], r);
  }

  lemma FailsIf(e: Exp, k: nat, v: Float, threshold: Float, operator: string) returns (steps: seq<Step>)
    requires Monitorable(e) && CrossesCondition(e, k, v, threshold, operator)
    ensures Run(Start(e), steps).verdicts == [Some(Crossed(v, threshold, operator))]
  {
    hide Run, Crossing, Compares, PollersOf, Monitorable;
    var r := Crossed(v, threshold, operator);
    CrossingExactly(e, k, v, r);
    steps := SelectingRun(e);
    var s := Run(Start(e), steps);
    var j := PollerOfCondition(e, |Conditions(e)|, k);
    var more := CrossingWins(s, j, v, r);
    RunConcat(Start(e), steps, more);
    steps := steps + more;
  }

  /**
   Which failures can be reported: some run reports this value, threshold and operator, if and only if the
   experiment gets past the setup and one of its Prometheus conditions is crossed by the value.
   */
  lemma FailureReportedExactly(e: Exp, v: Float, threshold: Float, operator: string)
    ensures (exists steps :: Run(Start(e), steps).verdicts == [Some(Crossed(v, threshold, operator))])
       <==> Monitorable(e) && exists k: nat :: CrossesCondition(e, k, v, threshold, operator)
  {
    hide Run, Monitorable, CrossesCondition;
    if steps :| Run(Start(e), steps).verdicts == [Some(Crossed(v, threshold, operator))] {
      FailsOnlyIf(e, steps, v, threshold, operator);
    }
    if k: nat :| Monitorable(e) && CrossesCondition(e, k, v, threshold, operator) {
      var steps := FailsIf(e, k, v, threshold, operator);
    }
  }

  lemma {:induction false} SucceedsOnlyIf(e: Exp, steps: seq<Step>, t: Time)
    requires Run(Start(e), steps).verdicts == [None] && Run(Start(e), steps).fired == Some(t)
    ensures Monitorable(e) && Deadline(e).Some? && Deadline(e).value <= t
  {
    hide Run, Monitorable, Deadline;
    RunKeeps(e, steps);
    RunKeepsSetUp(e, steps);
  }

  lemma SucceedsIf(e: Exp, t: Time) returns (steps: seq<Step>)
    requires Monitorable(e) && Deadline(e).Some? && Deadline(e).value <= t
    ensures Run(Start(e), steps).verdicts == [None] && Run(Start(e), steps).fired == Some(t)
    ensures forall i :: 0 <= i < |steps| ==> OfCall(steps[i])
  {
    hide Run, PollersOf, Monitorable, Deadline;
    steps := SelectingRun(e);
    RunNext(Start(e), steps, Fire(t));
    RunNext(Start(e), steps + [Fire(t)], SelectTimer);
    RunNext(Start(e), steps + [Fire(t)] + [SelectTimer], Write(true));
    steps := steps + [Fire(t)] + [SelectTimer] + [Write(true)];
  }

  /**
   When success can be reported: some run does so after a timer that fired at the instant t, if and only if
   the experiment gets past the setup and by then its duration, or else ten minutes, have passed since the
   recorded start.
   */
  lemma SuccessReportedExactly(e: Exp, t: Time)
    ensures (exists steps :: Run(Start(e), steps).verdicts == [None] && Run(Start(e), steps).fired == Some(t))
       <==> && Monitorable(e)
            && t >= e.result.timeStarted.value
                    + match e.spec.value.duration case Some(d) => d case None => 10 * 60 * 1_000_000_000
  {
    hide Run;
    if steps :| Run(Start(e), steps).verdicts == [None] && Run(Start(e), steps).fired == Some(t) {
      SucceedsOnlyIf(e, steps, t);
    }
    if Monitorable(e) && Deadline(e).value <= t {
      var steps := SucceedsIf(e, t);
    }
  }

  // ----- which experiments crash the call -----

  /** A condition has no trigger, and the setup gets as far as that condition. */
  predicate CrashesAt(e: Exp, i: nat) {
    i < |Conditions(e)| && Conditions(e)[i].trigger == None && SetUpTo(e, i)
  }

  ghost predicate CrashSoFar(s: State) {
    s.phase == Returned(Crashed) ==> exists i: nat :: CrashesAt(s.exp, i)
  }

  lemma StepKeepsCrash(s: State, step: Step)
    requires SetUpSoFar(s) && CrashSoFar(s)
    ensures CrashSoFar(Apply(s, step))
  {
    hide Polled, SetUpTo, Monitorable;
    if step.SetUpNext? && s.phase.Setup? && Apply(s, step).phase == Returned(Crashed) {
      assert CrashesAt(s.exp, s.phase.next);
    }
  }

  lemma {:induction false} RunKeepsCrash(e: Exp, steps: seq<Step>)
    ensures CrashSoFar(Run(Start(e), steps))
  {
    if steps != [] {
      hide Apply, SetUpSoFar, CrashSoFar;
      RunKeepsCrash(e, steps[..|steps| - 1]);
      RunKeepsSetUp(e, steps[..|steps| - 1]);
      StepKeepsCrash(Run(Start(e), steps[..|steps| - 1]), steps[|steps| - 1]);
    }
  }

  /** The nil dereference of a missing trigger is reached by exactly the experiments whose setup gets to one. */
  lemma CrashedExactly(e: Exp)
    ensures (exists steps :: Run(Start(e), steps).phase == Returned(Crashed)) <==> exists i: nat :: CrashesAt(e, i)
  {
    hide Run;
    if steps :| Run(Start(e), steps).phase == Returned(Crashed) {
      RunKeepsCrash(e, steps);
      RunKeeps(e, steps);
    }
    if i: nat :| CrashesAt(e, i) {
      var steps := SetUpRun(e, i);
      RunNext(Start(e), steps, SetUpNext(0));
      assert Run(Start(e), steps + [SetUpNext(0)]).phase == Returned(Crashed);
    }
  }

  // ----- how a call can end -----

  /** A call can be cancelled exactly if it gets past the setup, and its write can fail exactly if it has one. */
  lemma EndingsExactly(e: Exp)
    ensures (exists steps :: Run(Start(e), steps).phase == Returned(Cancelled)) <==> Monitorable(e)
    ensures (exists steps :: Run(Start(e), steps).phase == Returned(ReportFailed)) <==> e.spec == None || Monitorable(e)
  {
    hide Run, Monitorable, PollersOf;
    if steps :| Run(Start(e), steps).phase == Returned(Cancelled) {
      RunKeeps(e, steps);
      RunKeepsSetUp(e, steps);
    }
    if steps :| Run(Start(e), steps).phase == Returned(ReportFailed) {
      RunKeeps(e, steps);
      RunKeepsSetUp(e, steps);
    }
    if Monitorable(e) {
      var steps := SelectingRun(e);
      RunNext(Start(e), steps, CancelParent);
      RunNext(Start(e), steps + [CancelParent], SelectDone);
      assert Run(Start(e), steps + [CancelParent] + [SelectDone]).phase == Returned(Cancelled);
      var t := Deadline(e).value;
      RunNext(Start(e), steps, Fire(t));
      RunNext(Start(e), steps + [Fire(t)], SelectTimer);
      RunNext(Start(e), steps + [Fire(t)] + [SelectTimer], Write(false));
      assert Run(Start(e), steps + [Fire(t)] + [SelectTimer] + [Write(false)]).phase == Returned(ReportFailed);
    }
    if e.spec == None {
      NoSteps(Start(e));
      RunNext(Start(e), [], SetUpNext(0));
      RunNext(Start(e), [] + [SetUpNext(0)], Write(false));
      assert Run(Start(e), [] + [SetUpNext(0)] + [Write(false)]).phase == Returned(ReportFailed);
    }
  }

  /** And it is cancelled only by its parent context. */
  lemma {:induction false} CancelledByParent(e: Exp, steps: seq<Step>)
    ensures var s := Run(Start(e), steps);
      s.phase == Returned(Cancelled) || (s.done && !s.phase.Returned?) ==> CancelParent in steps
  {
    if steps != [] {
      hide Run;
      CancelledByParent(e, steps[..|steps| - 1]);
      assert forall step :: step in steps <==> step in steps[..|steps| - 1] || step == steps[|steps| - 1];
      CancelledAfter(Run(Start(e), steps[..|steps| - 1]), steps[|steps| - 1]);
      RunNext(Start(e), steps[..|steps| - 1], steps[|steps| - 1]);
      assert steps[..|steps| - 1] + [steps[|steps| - 1]] == steps;
    }
  }

  lemma CancelledAfter(s: State, step: Step)
    ensures var s' := Apply(s, step);
      s'.phase == Returned(Cancelled) || (s'.done && !s'.phase.Returned?) ==>
        step == CancelParent || s.phase == Returned(Cancelled) || (s.done && !s.phase.Returned?)
  {
    hide Polled;
  }

  // ----- which experiments are refused -----

  /** The setup gets as far as a success-rate query without a service, or to the end without a recorded start. */
  predicate RefusedAt(e: Exp, i: nat) {
    && e.spec.Some? && SetUpTo(e, i)
    && if i < |e.spec.value.conditions| then
         match e.spec.value.conditions[i].trigger
         case Some(Prometheus(p)) => p.query.SuccessRate? && p.query.service == None
         case _ => false
       else i == |e.spec.value.conditions| && e.result.timeStarted == None
  }

  ghost predicate RefusedSoFar(s: State) {
    s.phase == Returned(SetupFailed) ==> exists i: nat :: RefusedAt(s.exp, i)
  }

  lemma StepKeepsRefused(s: State, step: Step)
    requires SetUpSoFar(s) && RefusedSoFar(s)
    ensures RefusedSoFar(Apply(s, step))
  {
    hide Polled, SetUpTo, Monitorable;
    if step.SetUpNext? && s.phase.Setup? && Apply(s, step).phase == Returned(SetupFailed) {
      SetUpInRange(s.exp, s.phase.next);
      assert RefusedAt(s.exp, s.phase.next);
    }
  }

  lemma SetUpInRange(e: Exp, n: nat)
    requires SetUpTo(e, n)
    ensures n <= |Conditions(e)|
  {
  }

  lemma {:induction false} RunKeepsRefused(e: Exp, steps: seq<Step>)
    ensures RefusedSoFar(Run(Start(e), steps))
  {
    if steps != [] {
      hide Apply, SetUpSoFar, RefusedSoFar;
      RunKeepsRefused(e, steps[..|steps| - 1]);
      RunKeepsSetUp(e, steps[..|steps| - 1]);
      StepKeepsRefused(Run(Start(e), steps[..|steps| - 1]), steps[|steps| - 1]);
    }
  }

  /** The call fails in its setup for exactly the experiments whose setup gets to such a query, or has no start. */
  lemma RefusedExactly(e: Exp)
    ensures (exists steps :: Run(Start(e), steps).phase == Returned(SetupFailed)) <==> exists i: nat :: RefusedAt(e, i)
  {
    hide Run;
    if steps :| Run(Start(e), steps).phase == Returned(SetupFailed) {
      RunKeepsRefused(e, steps);
      RunKeeps(e, steps);
    }
    if i: nat :| RefusedAt(e, i) {
      var steps := SetUpRun(e, i);
      RunNext(Start(e), steps, SetUpNext(0));
      assert Run(Start(e), steps + [SetUpNext(0)]).phase == Returned(SetupFailed);
    }
  }

  /** And the invalid configuration is reported for exactly those without a spec. */
  lemma InvalidReportedExactly(e: Exp)
    ensures (exists steps :: Run(Start(e), steps).verdicts == [Some(InvalidConfig)]) <==> e.spec == None
  {
    hide Run;
    if steps :| Run(Start(e), steps).verdicts == [Some(InvalidConfig)] {
      VerdictIsSound(e, steps);
    }
    if e.spec == None {
      NoSteps(Start(e));
      RunNext(Start(e), [], SetUpNext(0));
      RunNext(Start(e), [] + [SetUpNext(0)], Write(true));
      assert Run(Start(e), [] + [SetUpNext(0)] + [Write(true)]).verdicts == [Some(InvalidConfig)];
    }
  }

  /** An experiment whose value must not drop below 50. */
  const FLOOR := PromTrigger(CustomQuery("q"), Fin(50.0), "")
  const GUARDED := Exp(Ref("ns", "e"), 1, "", Some(Spec([], [Condition("c", Some(Prometheus(FLOOR)))], None, None)),
                       Outcome(Started, map[], Some(0), None))

  // ----- quiescence -----

  function Weight(p: Poller): nat {
    match p.stage
    case Fresh => 4 + |p.queue|
    case Polling => 3 + |p.queue|
    case Unsubscribing(_) => 2
    case Sending(_) => 1
    case Finished => 0
  }

  function Measure(pollers: seq<Poller>): nat {
    if pollers == [] then 0 else Measure(pollers[..|pollers| - 1]) + Weight(pollers[|pollers| - 1])
  }

  /** A poller's own steps, as opposed to what happens to it. */
  predicate OwnStep(step: Step) {
    step.Subscribe? || step.Take? || step.SeeClosed? || step.SeeDone? || step.Unsubscribe? || step.Send? || step.GiveUp?
  }

  lemma {:induction false} MeasureUpdate(pollers: seq<Poller>, k: nat, p: Poller)
    requires k < |pollers|
    ensures Measure(pollers[k := p]) == Measure(pollers) - Weight(pollers[k]) + Weight(p)
  {
    var n := |pollers| - 1;
    if k < n {
      assert pollers[k := p][..n] == pollers[..n][k := p];
      MeasureUpdate(pollers[..n], k, p);
    } else {
      assert pollers[k := p][..n] == pollers[..n];
    }
  }

  lemma WeightFalls(s: State, step: Step, p: Poller)
    requires !step.Arrive?
    ensures Weight(Polled(s, step, p).0) <= Weight(p)
    ensures OwnStep(step) && Polled(s, step, p) != (p, s.slot) ==> Weight(Polled(s, step, p).0) < Weight(p)
  {
    var p' := Polled(s, step, p).0;
    match p.stage
    case Polling => assert p'.stage == Polling || p'.stage.Unsubscribing?;
    case Unsubscribing(_) => assert p'.stage == p.stage || p'.stage.Sending? || p'.stage == Finished;
    case _ =>
  }

  /** After the call has returned, without new publishes the measure never grows, and every own step lowers it. */
  lemma MeasureFalls(s: State, step: Step)
    requires s.phase.Returned? && !step.Arrive?
    ensures Apply(s, step).phase == s.phase
    ensures Measure(Apply(s, step).pollers) <= Measure(s.pollers)
    ensures OwnStep(step) && Apply(s, step) != s ==> Measure(Apply(s, step).pollers) < Measure(s.pollers)
  {
    hide Polled, Weight, Measure;
    match step
    case SetUpNext(_) =>
    case CancelParent =>
    case Fire(_) =>
    case SelectDone =>
    case SelectFailure =>
    case SelectTimer =>
    case Write(_) =>
    case Arrive(_, _) =>
    case _ =>
      if step.k < |s.pollers| {
        WeightFalls(s, step, s.pollers[step.k]);
        MeasureUpdate(s.pollers, step.k, Polled(s, step, s.pollers[step.k]).0);
        if Polled(s, step, s.pollers[step.k]) == (s.pollers[step.k], s.slot) {
          assert s.pollers[step.k := s.pollers[step.k]] == s.pollers;
        }
      }
  }

  /** Some step of the poller's own changes something. */
  ghost predicate CanMove(s: State, k: nat) {
    exists step :: OwnStep(step) && step.k == k && Apply(s, step) != s
  }

  /** The poller is in its Subscribe, or in its deferred Unsubscribe, and a lock it needs is held. */
  predicate WaitsForLock(s: State, k: nat) {
    k < |s.pollers| && (s.pollers[k].stage == Fresh || s.pollers[k].stage.Unsubscribing?) && s.pollers[k].blocked
  }

  /** The poller has something to do: what its stage waits for is there. */
  predicate Ready(s: State, p: Poller) {
    match p.stage
    case Fresh => !p.blocked
    case Polling => p.queue != [] || p.closed || s.done
    case Unsubscribing(_) => !p.blocked
    case Sending(_) => s.slot == None || s.done
    case Finished => false
  }

  lemma UnreadyStands(s: State, step: Step, k: nat)
    requires k < |s.pollers| && !Ready(s, s.pollers[k]) && OwnStep(step) && step.k == k
    ensures Apply(s, step) == s
  {
    assert s.pollers[k := s.pollers[k]] == s.pollers;
  }

  /** A poller can move if and only if it has something to do. */
  lemma MovesExactly(s: State, k: nat)
    requires k < |s.pollers|
    ensures CanMove(s, k) <==> Ready(s, s.pollers[k])
  {
    if Ready(s, s.pollers[k]) {
      var step := ReadyMoves(s, k);
    } else {
      forall step | OwnStep(step) && step.k == k ensures Apply(s, step) == s {
        UnreadyStands(s, step, k);
      }
    }
  }

  lemma ReadyMoves(s: State, k: nat) returns (step: Step)
    requires k < |s.pollers| && Ready(s, s.pollers[k])
    ensures OwnStep(step) && step.k == k && Apply(s, step) != s
  {
    var p := s.pollers[k];
    match p.stage {
      case Fresh => step := Subscribe(k);
      case Polling => step := if s.done then SeeDone(k) else if p.queue != [] then Take(k) else SeeClosed(k);
      case Unsubscribing(_) => step := Unsubscribe(k);
      case Sending(_) => step := if s.done then GiveUp(k) else Send(k);
    }
    if step.Take? {
      assert |Polled(s, step, p).0.queue| < |p.queue|;
    } else {
      assert Apply(s, step).pollers[k].stage != p.stage;
    }
  }

  lemma WaitingCannotMove(s: State, k: nat)
    requires WaitsForLock(s, k)
    ensures !CanMove(s, k)
  {
    MovesExactly(s, k);
  }

  /** A live poller of a cancelled call can move if and only if it does not wait for a lock in one of the two. */
  lemma CanMoveExactly(s: State, k: nat)
    requires s.done && k < |s.pollers| && s.pollers[k].stage != Finished
    ensures CanMove(s, k) <==> !WaitsForLock(s, k)
  {
    hide CanMove;
    MovesExactly(s, k);
  }

  /** How many steps of a run are own steps that changed something. */
  function Moves(s: State, steps: seq<Step>): nat {
    if steps == [] then 0
    else
      var before, last := Run(s, steps[..|steps| - 1]), steps[|steps| - 1];
      Moves(s, steps[..|steps| - 1]) + if OwnStep(last) && Apply(before, last) != before then 1 else 0
  }

  ghost predicate NoPublish(steps: seq<Step>) {
    forall i :: 0 <= i < |steps| ==> !steps[i].Arrive?
  }

  /** Quiescence: after the return, any continuation without publishes has at most `Measure` poller moves. */
  lemma {:induction false} MovesAreBounded(s: State, steps: seq<Step>)
    requires s.phase.Returned? && NoPublish(steps)
    ensures Run(s, steps).phase == s.phase
    ensures Moves(s, steps) + Measure(Run(s, steps).pollers) <= Measure(s.pollers)
  {
    if steps != [] {
      hide Apply, Measure;
      MovesAreBounded(s, steps[..|steps| - 1]);
      MeasureFalls(Run(s, steps[..|steps| - 1]), steps[|steps| - 1]);
    }
  }

  lemma StepKeepsDone(s: State, step: Step)
    ensures s.done ==> Apply(s, step).done
  {
  }

  lemma {:induction false} DoneStays(s: State, steps: seq<Step>)
    requires s.done
    ensures Run(s, steps).done
  {
    if steps != [] {
      hide Apply;
      DoneStays(s, steps[..|steps| - 1]);
      StepKeepsDone(Run(s, steps[..|steps| - 1]), steps[|steps| - 1]);
    }
  }

  /**
   Every call that has returned comes to rest: without new publishes the pollers make a
   bounded number of moves, and in each state reached, a poller is finished, or it can move, or it waits
   for a lock in Subscribe or Unsubscribe, and never two of these.
   */
  lemma {:induction false} ReturnedCallComesToRest(e: Exp, steps: seq<Step>, more: seq<Step>, k: nat)
    requires Run(Start(e), steps).phase.Returned? && NoPublish(more)
    requires k < |Run(Run(Start(e), steps), more).pollers|
    ensures Moves(Run(Start(e), steps), more) <= Measure(Run(Start(e), steps).pollers)
    ensures Run(Run(Start(e), steps), more).pollers[k].stage != Finished ==>
      (CanMove(Run(Run(Start(e), steps), more), k) <==> !WaitsForLock(Run(Run(Start(e), steps), more), k))
  {
    hide Run, CanMove, WaitsForLock, Moves, Measure;
    RunKeeps(e, steps);
    var s := Run(Start(e), steps);
    MovesAreBounded(s, more);
    DoneStays(s, more);
    if Run(s, more).pollers[k].stage != Finished {
      CanMoveExactly(Run(s, more), k);
    }
  }
}
