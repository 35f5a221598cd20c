/**
 Where published values come from: every entry of a list's log is an answer that a
 poller of the list's query was given, each answer is published at most once, and
 what a poller was given it has published, dropped or still holds.
 */
module PubSubAnswers {
  import opened Types
  import opened PubSub
  import opened PubSubSteps
  import opened PubSubRefs

  // ----- answers, and publishes that begin -----

  /** The step answers poller t, which has asked for query q. */
  predicate Answers(s: System, step: Step, t: nat, q: string) {
    step.Answer? && step.t == t && t in s.threads && s.threads[t] == Querying(q)
  }

  predicate IsAnswered(s: System, step: Step, t: nat) {
    step.Answer? && step.t == t && t in s.threads && s.threads[t].Querying?
  }

  /** Some step j of the run answered a poller of query q with the value. */
  ghost predicate AnsweredAt(steps: seq<Step>, j: nat, q: string, v: Sample) {
    j < |steps| && steps[j].Answer? && steps[j].value == Some(v) && Answers(Exec(steps[..j]), steps[j], steps[j].t, q)
  }

  /** The step begins a publish on list p. */
  predicate Begins(s: System, step: Step, p: nat) {
    step.BeginPublish? && step.t in s.threads && s.threads[step.t].Starting? && s.threads[step.t].list == p < |s.lists|
  }

  /** Poller t has an answer that it has not published yet. */
  predicate Holds(s: System, t: nat, q: string, v: Sample) {
    && t in s.threads
    && (s.threads[t] == Notifying(q, v)
        || (s.threads[t].Starting? && s.threads[t].query == q && s.threads[t].value == v))
  }

  // ----- what a step does to logs -----

  ghost predicate SameLogs(s: System, s': System) {
    && |s.lists| <= |s'.lists|
    && (forall p :: 0 <= p < |s.lists| ==> s'.lists[p].log == s.lists[p].log)
    && (forall p :: |s.lists| <= p < |s'.lists| ==> s'.lists[p].log == [])
  }

  lemma ClientLogs(s: System, step: Step, t: nat)
    requires t in s.threads
    ensures SameLogs(s, ApplyClient(s, step, t))
  {
    hide Without, CloseAll, MarkLeft;
  }

  lemma SentLogs(s: System, t: nat, p: nat)
    requires p < |s.lists| && t in s.lists[p].readers
    ensures SameLogs(s, Sent(s, t, p))
  {
  }

  lemma PollerLogs(s: System, step: Step, t: nat)
    requires t in s.threads && Ordinary(step) && step.t == t && forall p :: !Begins(s, step, p)
    ensures SameLogs(s, ApplyPoller(s, step, t))
  {
    hide Sent, CloseAll;
    if s.threads[t].Publishing? && s.threads[t].list < |s.lists| && t in s.lists[s.threads[t].list].readers {
      SentLogs(s, t, s.threads[t].list);
    }
    if s.threads[t].Starting? {
      assert !Begins(s, step, s.threads[t].list);
    }
  }

  lemma QuietLogs(s: System, step: Step)
    requires !Ordinary(step)
    ensures SameLogs(s, Apply(s, step))
  {
    hide Taken;
    if step.Receive? && step.c < |s.chans| {
      TakenOnlyChannels(s, step.c);
    }
  }

  /** Only a publish that begins adds to a log. */
  lemma OthersKeepLogs(s: System, step: Step)
    requires forall p :: !Begins(s, step, p)
    ensures SameLogs(s, Apply(s, step))
  {
    hide Apply, ApplyClient, ApplyPoller, SameLogs, Begins;
    if !Ordinary(step) {
      QuietLogs(s, step);
    } else if step.t !in s.threads {
      NobodyThere(s, step);
      LogsAtOnce(s);
    } else if OfClient(step) {
      ClientIsClient(s, step);
      ClientLogs(s, step, step.t);
    } else {
      PollerIsPoller(s, step);
      PollerLogs(s, step, step.t);
    }
  }

  lemma LogsAtOnce(s: System)
    ensures SameLogs(s, s)
  {
  }

  /** It adds the value its poller holds. */
  lemma BeginLogs(s: System, step: Step, p: nat)
    requires Begins(s, step, p)
    ensures var s' := Apply(s, step);
      && |s'.lists| == |s.lists| && s'.lists[p].log == s.lists[p].log + [s.threads[step.t].value]
      && (forall r :: 0 <= r < |s.lists| && r != p ==> s'.lists[r].log == s.lists[r].log)
      && step.t in s'.threads && s'.threads[step.t].Publishing?
  {
    hide ApplyClient;
  }

  // ----- who holds an answer -----

  lemma ClientHoldings(s: System, step: Step, t: nat, q: string, v: Sample)
    requires t in s.threads
    ensures Holds(ApplyClient(s, step, t), t, q, v) <==> Holds(s, t, q, v)
  {
    hide Joined, Parted, Closed;
    match s.threads[t]
    case Attaching(_, p) => if Writable(s, p) { JoinedKept(s, p, t); }
    case Detaching(_, c, p) => if Writable(s, p) { PartedKept(s, p, c, t); }
    case Closing(_, p) => if Writable(s, p) { ClosedKept(s, p, t); }
    case _ =>
  }

  lemma PollerHoldings(s: System, step: Step, t: nat, q: string, v: Sample)
    requires t in s.threads && Ordinary(step) && step.t == t
    ensures Holds(ApplyPoller(s, step, t), t, q, v) ==>
      Holds(s, t, q, v) || (Answers(s, step, t, q) && step.value == Some(v))
  {
    hide Closed, Sent;
    if s.threads[t].Publishing? && s.threads[t].list < |s.lists| && t in s.lists[s.threads[t].list].readers {
      SentOnlyData(s, t, s.threads[t].list);
    }
    if s.threads[t].ExitLocked? && s.threads[t].query in s.queries && Writable(s, s.queries[s.threads[t].query]) {
      ClosedKept(s, s.queries[s.threads[t].query], t);
    }
  }

  lemma QuietHoldings(s: System, step: Step, t: nat, q: string, v: Sample)
    requires !Ordinary(step)
    ensures Holds(Apply(s, step), t, q, v) ==> Holds(s, t, q, v)
  {
    hide Taken;
    if step.Receive? && step.c < |s.chans| {
      TakenOnlyChannels(s, step.c);
    }
  }

  /** A poller comes to hold a value only by being answered with it. */
  lemma HoldingsComeFrom(s: System, step: Step, t: nat, q: string, v: Sample)
    requires Holds(Apply(s, step), t, q, v)
    ensures Holds(s, t, q, v) || (Answers(s, step, t, q) && step.value == Some(v))
  {
    hide Apply, ApplyClient, ApplyPoller;
    if !Ordinary(step) {
      QuietHoldings(s, step, t, q, v);
    } else if step.t !in s.threads {
      NobodyThere(s, step);
    } else if step.t != t {
      OrdinaryMoves(s, step);
    } else if OfClient(step) {
      ClientIsClient(s, step);
      ClientHoldings(s, step, t, q, v);
    } else {
      PollerIsPoller(s, step);
      PollerHoldings(s, step, t, q, v);
    }
  }

  // ----- the answer behind each entry -----

  /** The last step that answered poller t. */
  ghost function LastAnswer(steps: seq<Step>, t: nat): nat {
    if steps == [] then 0
    else
      var init, last := steps[..|steps| - 1], steps[|steps| - 1];
      if IsAnswered(Exec(init), last, t) then |init| else LastAnswer(init, t)
  }

  /** For each entry of list p's log, the step that answered the poller which published it. */
  ghost function Sources(steps: seq<Step>, p: nat): seq<nat> {
    if steps == [] then []
    else
      var init, last := steps[..|steps| - 1], steps[|steps| - 1];
      Sources(init, p) + if Begins(Exec(init), last, p) then [LastAnswer(init, last.t)] else []
  }

  /** Each entry of the log was answered, for the list's query. */
  ghost predicate LogAnswered(steps: seq<Step>, p: nat) {
    var s := Exec(steps);
    && |Sources(steps, p)| == (if p < |s.lists| then |s.lists[p].log| else 0)
    && forall i :: 0 <= i < |Sources(steps, p)| ==>
         AnsweredAt(steps, Sources(steps, p)[i], s.lists[p].query, s.lists[p].log[i])
  }

  /** A value that is held was answered last, and nothing published so far by its poller was answered as late. */
  ghost predicate HeldAnswered(steps: seq<Step>, t: nat, q: string, v: Sample) {
    Holds(Exec(steps), t, q, v) ==>
      && AnsweredAt(steps, LastAnswer(steps, t), q, v) && steps[LastAnswer(steps, t)].t == t
      && forall p: nat :: Earlier(steps, p, t)
  }

  ghost predicate Earlier(steps: seq<Step>, p: nat, t: nat) {
    forall i :: 0 <= i < |Sources(steps, p)| && Sources(steps, p)[i] < |steps| ==>
      AnsweredTo(steps[Sources(steps, p)[i]], t) ==> Sources(steps, p)[i] < LastAnswer(steps, t)
  }

  predicate AnsweredTo(step: Step, t: nat) {
    step.Answer? && step.t == t
  }

  ghost predicate AllAnswered(steps: seq<Step>) {
    && (forall p: nat :: LogAnswered(steps, p))
    && (forall t: nat, q: string, v: Sample :: HeldAnswered(steps, t, q, v))
  }

  lemma {:induction false} AnsweredLater(steps: seq<Step>, step: Step, j: nat, q: string, v: Sample)
    requires AnsweredAt(steps, j, q, v)
    ensures AnsweredAt(steps + [step], j, q, v)
  {
    assert (steps + [step])[..j] == steps[..j] && (steps + [step])[j] == steps[j];
  }

  lemma {:induction false} SourcesNext(steps: seq<Step>, step: Step, p: nat)
    ensures Sources(steps + [step], p)
         == Sources(steps, p) + if Begins(Exec(steps), step, p) then [LastAnswer(steps, step.t)] else []
  {
    assert (steps + [step])[..|steps|] == steps;
  }

  lemma {:induction false} LastAnswerNext(steps: seq<Step>, step: Step, t: nat)
    ensures LastAnswer(steps + [step], t)
         == if IsAnswered(Exec(steps), step, t) then |steps| else LastAnswer(steps, t)
  {
    assert (steps + [step])[..|steps|] == steps;
  }

  lemma {:induction false} SourcesInRange(steps: seq<Step>, p: nat, i: nat)
    requires LogAnswered(steps, p) && i < |Sources(steps, p)|
    ensures Sources(steps, p)[i] < |steps| && p < |Exec(steps).lists| && i < |Exec(steps).lists[p].log|
    ensures AnsweredAt(steps, Sources(steps, p)[i], Exec(steps).lists[p].query, Exec(steps).lists[p].log[i])
  {
  }

  /** One more step, for one log. */
  lemma {:induction false} LogNext(steps: seq<Step>, step: Step, p: nat)
    requires AllAnswered(steps)
    ensures LogAnswered(steps + [step], p)
  {
    hide Exec, Apply, LastAnswer, Sources, AnsweredAt, HeldAnswered;
    var s, all := Exec(steps), steps + [step];
    var s' := Apply(s, step);
    ExecNext(steps, step);
    SourcesNext(steps, step, p);
    StepKeepsHomes(s, step);
    EveryRunRefs(steps);
    assert LogAnswered(steps, p);
    if Begins(s, step, p) {
      BeginLogs(s, step, p);
      HeldByStarter(s, step.t);
      HeldIsAnswered(steps, step.t, s.threads[step.t].query, s.threads[step.t].value);
      AnsweredLater(steps, step, LastAnswer(steps, step.t), s.threads[step.t].query, s.threads[step.t].value);
    } else {
      OtherLogs(s, step, p);
    }
    forall i | 0 <= i < |Sources(all, p)|
      ensures AnsweredAt(all, Sources(all, p)[i], s'.lists[p].query, s'.lists[p].log[i])
    {
      if i < |Sources(steps, p)| {
        SourcesInRange(steps, p, i);
        AnsweredLater(steps, step, Sources(steps, p)[i], s.lists[p].query, s.lists[p].log[i]);
      }
    }
  }

  lemma HeldByStarter(s: System, t: nat)
    requires Refs(s) && t in s.threads && s.threads[t].Starting?
    ensures Holds(s, t, s.threads[t].query, s.threads[t].value)
    ensures s.threads[t].list < |s.lists| && s.lists[s.threads[t].list].query == s.threads[t].query
  {
    assert ThreadOk(s.lists, t, s.threads[t]);
  }

  lemma {:induction false} HeldIsAnswered(steps: seq<Step>, t: nat, q: string, v: Sample)
    requires AllAnswered(steps) && Holds(Exec(steps), t, q, v)
    ensures AnsweredAt(steps, LastAnswer(steps, t), q, v) && steps[LastAnswer(steps, t)].t == t
    ensures forall p: nat :: Earlier(steps, p, t)
  {
    assert HeldAnswered(steps, t, q, v);
  }

  /** A step that begins no publish on this list. */
  lemma OtherLogs(s: System, step: Step, p: nat)
    requires !Begins(s, step, p)
    ensures var s' := Apply(s, step);
      && |s.lists| <= |s'.lists|
      && (p < |s.lists| ==> s'.lists[p].log == s.lists[p].log) && (|s.lists| <= p < |s'.lists| ==> s'.lists[p].log == [])
  {
    hide Apply;
    if r :| Begins(s, step, r) {
      BeginLogs(s, step, r);
    } else {
      OthersKeepLogs(s, step);
    }
  }

  /** One more step, for one poller. */
  lemma {:induction false} HeldNext(steps: seq<Step>, step: Step, t: nat, q: string, v: Sample)
    requires AllAnswered(steps)
    ensures HeldAnswered(steps + [step], t, q, v)
  {
    hide Exec, Apply, LastAnswer, Sources, Earlier, LogAnswered, Holds;
    var s, all := Exec(steps), steps + [step];
    ExecNext(steps, step);
    LastAnswerNext(steps, step, t);
    if Holds(Apply(s, step), t, q, v) {
      HoldingsComeFrom(s, step, t, q, v);
      if Answers(s, step, t, q) && step.value == Some(v) {
        assert all[..|steps|] == steps && all[|steps|] == step;
        forall p: nat ensures Earlier(all, p, t) {
          EarlierThanNow(steps, step, p, t);
        }
      } else {
        HeldIsAnswered(steps, t, q, v);
        HolderIsNotAsking(s, step, t, q, v);
        AnsweredLater(steps, step, LastAnswer(steps, t), q, v);
        forall p: nat ensures Earlier(all, p, t) {
          StillEarlier(steps, step, p, t, q, v);
        }
      }
    }
  }

  lemma HolderIsNotAsking(s: System, step: Step, t: nat, q: string, v: Sample)
    requires Holds(s, t, q, v)
    ensures !IsAnswered(s, step, t)
  {
  }

  /** Everything published so far was answered before this step. */
  lemma {:induction false} EarlierThanNow(steps: seq<Step>, step: Step, p: nat, t: nat)
    requires AllAnswered(steps) && IsAnswered(Exec(steps), step, t)
    ensures Earlier(steps + [step], p, t)
  {
    hide Exec, LastAnswer, Sources, AnsweredAt, HeldAnswered;
    SourcesNext(steps, step, p);
    LastAnswerNext(steps, step, t);
    assert LogAnswered(steps, p);
    forall i | 0 <= i < |Sources(steps, p)| ensures Sources(steps, p)[i] < |steps| {
      SourcesInRange(steps, p, i);
    }
  }

  /** A poller that still holds its value after the step has not published it, and others publish their own. */
  lemma {:induction false} StillEarlier(steps: seq<Step>, step: Step, p: nat, t: nat, q: string, v: Sample)
    requires AllAnswered(steps) && Holds(Exec(steps), t, q, v) && Holds(Apply(Exec(steps), step), t, q, v)
    ensures Earlier(steps + [step], p, t)
  {
    hide Exec, Apply, LastAnswer, Sources, AnsweredAt, HeldAnswered;
    var s, all := Exec(steps), steps + [step];
    SourcesNext(steps, step, p);
    LastAnswerNext(steps, step, t);
    HolderIsNotAsking(s, step, t, q, v);
    HeldIsAnswered(steps, t, q, v);
    assert LogAnswered(steps, p) && Earlier(steps, p, t);
    forall i | 0 <= i < |Sources(steps, p)|
      ensures Sources(steps, p)[i] < |steps| && all[Sources(steps, p)[i]] == steps[Sources(steps, p)[i]]
    {
      SourcesInRange(steps, p, i);
    }
    if Begins(s, step, p) {
      BeginLogs(s, step, p);
      assert step.t != t;
      EveryRunRefs(steps);
      HeldByStarter(s, step.t);
      HeldIsAnswered(steps, step.t, s.threads[step.t].query, s.threads[step.t].value);
      InRange(steps, LastAnswer(steps, step.t), s.threads[step.t].query, s.threads[step.t].value);
    }
  }

  lemma {:induction false} InRange(steps: seq<Step>, j: nat, q: string, v: Sample)
    requires AnsweredAt(steps, j, q, v)
    ensures j < |steps| && steps[j].Answer?
  {
  }

  lemma {:induction false} NothingAnswered()
    ensures AllAnswered([])
  {
    forall t: nat, q: string, v: Sample ensures HeldAnswered([], t, q, v) {
      assert !Holds(EMPTY, t, q, v);
    }
  }

  lemma {:induction false} EverythingAnswered(steps: seq<Step>)
    ensures AllAnswered(steps)
  {
    if steps == [] {
      NothingAnswered();
    } else {
      hide LogAnswered, HeldAnswered;
      var init, last := steps[..|steps| - 1], steps[|steps| - 1];
      EverythingAnswered(init);
      assert init + [last] == steps;
      forall p: nat ensures LogAnswered(steps, p) {
        LogNext(init, last, p);
      }
      forall t: nat, q: string, v: Sample ensures HeldAnswered(steps, t, q, v) {
        HeldNext(init, last, t, q, v);
      }
    }
  }

  /**
   In every run, each entry of a list's log is the value of an earlier answer to a poller that had asked for
   the list's query. A failed query is no such answer, so it adds nothing.
   */
  lemma {:induction false} LogsAreAnswers(steps: seq<Step>, p: nat, i: nat)
    requires p < |Exec(steps).lists| && i < |Exec(steps).lists[p].log|
    ensures |Sources(steps, p)| == |Exec(steps).lists[p].log|
    ensures AnsweredAt(steps, Sources(steps, p)[i], Exec(steps).lists[p].query, Exec(steps).lists[p].log[i])
  {
    hide Exec, Sources, AnsweredAt;
    EverythingAnswered(steps);
    assert LogAnswered(steps, p);
  }

  // ----- each at most once, and in order -----

  /** No two entries, of one list or of two, have the same answer behind them. */
  ghost predicate NoneTwice(steps: seq<Step>, p: nat, r: nat) {
    forall i, k :: 0 <= i < |Sources(steps, p)| && 0 <= k < |Sources(steps, r)|
                   && Sources(steps, p)[i] == Sources(steps, r)[k] ==>
      p == r && i == k
  }

  /** Answers to one poller are published in the order in which they were given. */
  ghost predicate InOrder(steps: seq<Step>, p: nat, t: nat) {
    forall i, k :: 0 <= i < k < |Sources(steps, p)| && Sources(steps, p)[i] < |steps| && Sources(steps, p)[k] < |steps| ==>
      AnsweredTo(steps[Sources(steps, p)[i]], t) && AnsweredTo(steps[Sources(steps, p)[k]], t) ==>
        Sources(steps, p)[i] < Sources(steps, p)[k]
  }

  /** A publish that begins uses an answer that none before has used, and that comes after all its poller's others. */
  lemma {:induction false} NewSource(steps: seq<Step>, step: Step, r: nat)
    requires Begins(Exec(steps), step, r)
    ensures LastAnswer(steps, step.t) < |steps| && AnsweredTo(steps[LastAnswer(steps, step.t)], step.t)
    ensures forall p: nat, i :: 0 <= i < |Sources(steps, p)| ==>
      Sources(steps, p)[i] < |steps| && Sources(steps, p)[i] != LastAnswer(steps, step.t)
    ensures forall p: nat :: Earlier(steps, p, step.t)
  {
    hide Exec, LastAnswer, Sources, Holds;
    var s, t := Exec(steps), step.t;
    EverythingAnswered(steps);
    EveryRunRefs(steps);
    HeldByStarter(s, t);
    HeldIsAnswered(steps, t, s.threads[t].query, s.threads[t].value);
    InRange(steps, LastAnswer(steps, t), s.threads[t].query, s.threads[t].value);
    forall p: nat, i | 0 <= i < |Sources(steps, p)|
      ensures Sources(steps, p)[i] < |steps| && Sources(steps, p)[i] != LastAnswer(steps, t)
    {
      assert LogAnswered(steps, p) && Earlier(steps, p, t);
      SourcesInRange(steps, p, i);
    }
  }

  lemma {:induction false} SourcesAreEarlier(steps: seq<Step>, p: nat)
    ensures forall i :: 0 <= i < |Sources(steps, p)| ==> Sources(steps, p)[i] < |steps|
  {
    hide Exec, Sources;
    EverythingAnswered(steps);
    assert LogAnswered(steps, p);
    forall i | 0 <= i < |Sources(steps, p)| ensures Sources(steps, p)[i] < |steps| {
      SourcesInRange(steps, p, i);
    }
  }

  lemma {:induction false} NoneTwiceNext(steps: seq<Step>, step: Step, p: nat, r: nat)
    requires NoneTwice(steps, p, r) && NoneTwice(steps, r, p)
    ensures NoneTwice(steps + [step], p, r)
  {
    hide Exec, LastAnswer, Sources, Earlier, Begins;
    SourcesNext(steps, step, p);
    SourcesNext(steps, step, r);
    if Begins(Exec(steps), step, p) {
      NewSource(steps, step, p);
    }
    if Begins(Exec(steps), step, r) {
      NewSource(steps, step, r);
      OneBegins(Exec(steps), step, p, r);
    }
  }

  lemma OneBegins(s: System, step: Step, p: nat, r: nat)
    ensures Begins(s, step, p) && Begins(s, step, r) ==> p == r
  {
  }

  lemma {:induction false} InOrderNext(steps: seq<Step>, step: Step, p: nat, t: nat)
    requires InOrder(steps, p, t)
    ensures InOrder(steps + [step], p, t)
  {
    hide Exec, LastAnswer, Sources;
    SourcesNext(steps, step, p);
    SourcesAreEarlier(steps, p);
    if Begins(Exec(steps), step, p) {
      NewSource(steps, step, p);
      assert Earlier(steps, p, step.t);
    }
  }

  /** In every run each answer is published at most once, and those of one poller on one list in order. */
  lemma {:induction false} AnswersArePublishedOnce(steps: seq<Step>, p: nat, r: nat, t: nat)
    ensures NoneTwice(steps, p, r) && NoneTwice(steps, r, p) && InOrder(steps, p, t)
  {
    if steps != [] {
      hide NoneTwice, InOrder;
      var init, last := steps[..|steps| - 1], steps[|steps| - 1];
      AnswersArePublishedOnce(init, p, r, t);
      assert init + [last] == steps;
      NoneTwiceNext(init, last, p, r);
      NoneTwiceNext(init, last, r, p);
      InOrderNext(init, last, p, t);
    }
  }

  // ----- and none is lost on the way -----

  /** The poller drops its answer, because its query has left the map. */
  predicate Drops(s: System, step: Step, t: nat) {
    step == LookUp(t) && t in s.threads && s.threads[t].Notifying? && MapFree(s) && s.threads[t].query !in s.queries
  }

  predicate AnswersWith(s: System, step: Step, t: nat) {
    step.Answer? && step.t == t && t in s.threads && s.threads[t].Querying? && step.value.Some?
  }

  predicate PublishesAnswer(s: System, step: Step, t: nat) {
    step == BeginPublish(t) && t in s.threads && Begins(s, step, if s.threads[t].Starting? then s.threads[t].list else 0)
  }

  function Answered(steps: seq<Step>, t: nat): nat {
    if steps == [] then 0
    else
      var init := steps[..|steps| - 1];
      Answered(init, t) + if AnswersWith(Exec(init), steps[|steps| - 1], t) then 1 else 0
  }

  function Published(steps: seq<Step>, t: nat): nat {
    if steps == [] then 0
    else
      var init := steps[..|steps| - 1];
      Published(init, t) + if PublishesAnswer(Exec(init), steps[|steps| - 1], t) then 1 else 0
  }

  function Dropped(steps: seq<Step>, t: nat): nat {
    if steps == [] then 0
    else
      var init := steps[..|steps| - 1];
      Dropped(init, t) + if Drops(Exec(init), steps[|steps| - 1], t) then 1 else 0
  }

  predicate Holding(s: System, t: nat) {
    t in s.threads && (s.threads[t].Notifying? || s.threads[t].Starting?)
  }

  function One(b: bool): int {
    if b then 1 else 0
  }

  lemma ClientHolding(s: System, step: Step, t: nat)
    requires t in s.threads && OfClient(step) && step.t == t
    ensures Holding(ApplyClient(s, step, t), t) == Holding(s, t)
  {
    hide Joined, Parted, Closed;
    match s.threads[t]
    case Attaching(_, p) => if Writable(s, p) { JoinedKept(s, p, t); }
    case Detaching(_, c, p) => if Writable(s, p) { PartedKept(s, p, c, t); }
    case Closing(_, p) => if Writable(s, p) { ClosedKept(s, p, t); }
    case _ =>
  }

  lemma PollerHolding(s: System, step: Step, t: nat)
    requires Refs(s) && t in s.threads && Ordinary(step) && !OfClient(step) && step.t == t
    ensures One(Holding(ApplyPoller(s, step, t), t))
         == One(Holding(s, t)) + One(AnswersWith(s, step, t)) - One(PublishesAnswer(s, step, t))
  {
    hide Closed, Sent, Refs;
    MapAndThread(s, t);
    if s.threads[t].Publishing? && s.threads[t].list < |s.lists| && t in s.lists[s.threads[t].list].readers {
      SentOnlyData(s, t, s.threads[t].list);
    }
    if s.threads[t].ExitLocked? && s.threads[t].query in s.queries && Writable(s, s.queries[s.threads[t].query]) {
      ClosedKept(s, s.queries[s.threads[t].query], t);
    }
  }

  lemma QuietHolding(s: System, step: Step, t: nat)
    requires !Ordinary(step)
    ensures One(Holding(Apply(s, step), t)) == One(Holding(s, t)) - One(Drops(s, step, t))
  {
    hide Taken;
    if step.Receive? && step.c < |s.chans| {
      TakenOnlyChannels(s, step.c);
    }
  }

  lemma StepHolding(s: System, step: Step, t: nat)
    requires Refs(s)
    ensures One(Holding(Apply(s, step), t))
         == One(Holding(s, t)) + One(AnswersWith(s, step, t)) - One(PublishesAnswer(s, step, t)) - One(Drops(s, step, t))
  {
    hide Apply, ApplyClient, ApplyPoller, Refs;
    if !Ordinary(step) {
      QuietHolding(s, step, t);
    } else if step.t !in s.threads {
      NobodyThere(s, step);
    } else if step.t != t {
      OrdinaryMoves(s, step);
    } else if OfClient(step) {
      ClientIsClient(s, step);
      ClientHolding(s, step, t);
    } else {
      PollerIsPoller(s, step);
      PollerHolding(s, step, t);
    }
  }

  /** Every answer a poller was given it has published, has dropped because its query was gone, or still holds. */
  lemma {:induction false} AnswersAreConserved(steps: seq<Step>, t: nat)
    ensures Answered(steps, t) == Published(steps, t) + Dropped(steps, t) + if Holding(Exec(steps), t) then 1 else 0
  {
    if steps != [] {
      hide Apply, Holding, AnswersWith, PublishesAnswer, Drops, Refs;
      var init := steps[..|steps| - 1];
      AnswersAreConserved(init, t);
      EveryRunRefs(init);
      StepHolding(Exec(init), steps[|steps| - 1], t);
    }
  }
}
