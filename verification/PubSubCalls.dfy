/**
 One caller's view of the query publisher: what any step of anybody does to the
 thread of its Subscribe, to the thread of its Unsubscribe, and to its channel.
 */
module PubSubCalls {
  import opened Types
  import opened PubSub
  import opened PubSubSteps
  import opened PubSubRefs
  import opened PubSubBlocking

  // ----- the thread of a Subscribe -----

  /** The Subscribe returns a new channel, empty and open, of a list for its query. */
  predicate Returns(s: System, s': System, t: nat, q: string) {
    && t in s'.threads && s'.threads[t] == Subscribed(|s.chans|) && ChannelFor(s', |s.chans|, q)
    && var ch := s'.chans[|s.chans|]; ch.buffer == [] && ch.received == [] && !ch.closed
  }

  /** The Subscribe stays where it is, or gets on, which it can do only if it does not wait for a lock. */
  predicate SubscribeGoesOn(s: System, s': System, t: nat)
    requires t in s.threads && InSubscribe(s.threads[t])
  {
    && t in s'.threads && (s'.threads[t] == s.threads[t] || !WaitsForLock(s, t))
    && ((InSubscribe(s'.threads[t]) && s'.threads[t].query == s.threads[t].query) || Returns(s, s', t, s.threads[t].query))
  }

  lemma ClientSubscribes(s: System, step: Step, t: nat)
    requires Refs(s) && t in s.threads && InSubscribe(s.threads[t])
    ensures SubscribeGoesOn(s, ApplyClient(s, step, t), t)
  {
    hide Refs, Parted, Closed;
    MapAndThread(s, t);
  }

  lemma PollerIsNoSubscribe(s: System, step: Step, t: nat)
    requires t in s.threads && (InSubscribe(s.threads[t]) || InUnsubscribe(s.threads[t]) || s.threads[t].Subscribed?)
    ensures ApplyPoller(s, step, t) == s
  {
  }

  lemma QuietSubscribes(s: System, step: Step, t: nat)
    requires !Ordinary(step) && t in s.threads && InSubscribe(s.threads[t])
    ensures SubscribeGoesOn(s, Apply(s, step), t)
  {
    hide Taken;
    if step.Receive? && step.c < |s.chans| {
      TakenOnlyChannels(s, step.c);
    }
  }

  /** What any step does to a Subscribe under way. */
  lemma StepSubscribes(s: System, step: Step, t: nat)
    requires Refs(s) && t in s.threads && InSubscribe(s.threads[t])
    ensures SubscribeGoesOn(s, Apply(s, step), t)
  {
    hide Apply, ApplyClient, ApplyPoller, Refs, WaitsForLock, Returns;
    if !Ordinary(step) {
      QuietSubscribes(s, step, t);
    } else if step.t !in s.threads {
      NobodyThere(s, step);
    } else if step.t != t {
      OrdinaryMoves(s, step);
    } else if OfClient(step) {
      ClientIsClient(s, step);
      ClientSubscribes(s, step, t);
    } else {
      PollerIsPoller(s, step);
      PollerIsNoSubscribe(s, step, t);
    }
  }

  // ----- the thread of an Unsubscribe -----

  predicate UnsubscribeGoesOn(s: System, s': System, u: nat)
    requires u in s.threads
  {
    && u in s'.threads && (s'.threads[u] == s.threads[u] || !WaitsForLock(s, u))
    && (InUnsubscribe(s'.threads[u]) || s'.threads[u].Left?)
  }

  lemma ClientUnsubscribes(s: System, step: Step, u: nat)
    requires u in s.threads && InUnsubscribe(s.threads[u])
    ensures UnsubscribeGoesOn(s, ApplyClient(s, step, u), u)
  {
    hide Joined, Parted, Closed;
    match s.threads[u]
    case Detaching(_, c, p) => if Writable(s, p) { PartedKept(s, p, c, u); }
    case Closing(_, p) => if Writable(s, p) { ClosedKept(s, p, u); }
    case _ =>
  }

  lemma QuietUnsubscribes(s: System, step: Step, u: nat)
    requires !Ordinary(step) && u in s.threads && InUnsubscribe(s.threads[u])
    ensures UnsubscribeGoesOn(s, Apply(s, step), u)
  {
    hide Taken;
    if step.Receive? && step.c < |s.chans| {
      TakenOnlyChannels(s, step.c);
    }
  }

  /** What any step does to an Unsubscribe under way. */
  lemma StepUnsubscribes(s: System, step: Step, u: nat)
    requires u in s.threads && InUnsubscribe(s.threads[u])
    ensures UnsubscribeGoesOn(s, Apply(s, step), u)
  {
    hide Apply, ApplyClient, ApplyPoller, WaitsForLock;
    if !Ordinary(step) {
      QuietUnsubscribes(s, step, u);
    } else if step.t !in s.threads {
      NobodyThere(s, step);
    } else if step.t != u {
      OrdinaryMoves(s, step);
    } else if OfClient(step) {
      ClientIsClient(s, step);
      ClientUnsubscribes(s, step, u);
    } else {
      PollerIsPoller(s, step);
      PollerIsNoSubscribe(s, step, u);
    }
  }

  // ----- who has which channel -----

  lemma QuietKeepsSubscribed(s: System, step: Step, t: nat)
    requires !Ordinary(step) && t in s.threads && s.threads[t].Subscribed?
    ensures t in Apply(s, step).threads && Apply(s, step).threads[t] == s.threads[t]
  {
    hide Taken;
    if step.Receive? && step.c < |s.chans| {
      TakenOnlyChannels(s, step.c);
    }
  }

  lemma ClientKeepsSubscribed(s: System, step: Step, t: nat)
    requires t in s.threads && s.threads[t].Subscribed?
    ensures ApplyClient(s, step, t) == s
  {
  }

  /** A Subscribe that has returned stays so. */
  lemma SubscribedStays(s: System, step: Step, t: nat)
    requires t in s.threads && s.threads[t].Subscribed?
    ensures t in Apply(s, step).threads && Apply(s, step).threads[t] == s.threads[t]
  {
    hide Apply, ApplyClient, ApplyPoller;
    if !Ordinary(step) {
      QuietKeepsSubscribed(s, step, t);
    } else if step.t !in s.threads {
      NobodyThere(s, step);
    } else if step.t != t {
      OrdinaryMoves(s, step);
    } else if OfClient(step) {
      ClientIsClient(s, step);
      ClientKeepsSubscribed(s, step, t);
    } else {
      PollerIsPoller(s, step);
      PollerIsNoSubscribe(s, step, t);
    }
  }

  lemma QuietKeepsLeft(s: System, step: Step, u: nat)
    requires !Ordinary(step) && u in s.threads && s.threads[u].Left?
    ensures u in Apply(s, step).threads && Apply(s, step).threads[u].Left?
  {
    hide Taken;
    if step.Receive? && step.c < |s.chans| {
      TakenOnlyChannels(s, step.c);
    }
  }

  lemma NobodyMovesLeft(s: System, step: Step, u: nat)
    requires u in s.threads && s.threads[u].Left?
    ensures ApplyClient(s, step, u) == s && ApplyPoller(s, step, u) == s
  {
  }

  /** So does an Unsubscribe. */
  lemma LeftStays(s: System, step: Step, u: nat)
    requires u in s.threads && s.threads[u].Left?
    ensures u in Apply(s, step).threads && Apply(s, step).threads[u].Left?
  {
    hide Apply, ApplyClient, ApplyPoller;
    if !Ordinary(step) {
      QuietKeepsLeft(s, step, u);
    } else if step.t !in s.threads {
      NobodyThere(s, step);
    } else if step.t != u {
      OrdinaryMoves(s, step);
    } else {
      NobodyMovesLeft(s, step, u);
      if OfClient(step) {
        ClientIsClient(s, step);
      } else {
        PollerIsPoller(s, step);
      }
    }
  }

  /** Every channel handed out exists, and went to one caller. */
  ghost predicate HandedOutOnce(s: System) {
    && (forall t :: t in s.threads && s.threads[t].Subscribed? ==> s.threads[t].channel < |s.chans|)
    && forall t, u ::
         (t in s.threads && u in s.threads && s.threads[t].Subscribed? && s.threads[u] == s.threads[t]) ==> t == u
  }

  /** A thread that is subscribed after the step was so before, or its Subscribe has just returned. */
  predicate NewlyHandedOut(s: System, s': System, t: nat) {
    t in s'.threads && s'.threads[t].Subscribed? ==>
      (t in s.threads && s.threads[t] == s'.threads[t]) || (s'.threads[t].channel == |s.chans| < |s'.chans|)
  }

  lemma ClientHandsOut(s: System, step: Step, t: nat)
    requires t in s.threads
    ensures NewlyHandedOut(s, ApplyClient(s, step, t), t)
  {
    hide Parted, Closed;
    match s.threads[t]
    case Detaching(_, c, p) => if Writable(s, p) { PartedKept(s, p, c, t); }
    case Closing(_, p) => if Writable(s, p) { ClosedKept(s, p, t); }
    case _ =>
  }

  lemma PollerHandsOut(s: System, step: Step, t: nat)
    requires t in s.threads
    ensures NewlyHandedOut(s, ApplyPoller(s, step, t), t)
  {
    hide Closed, Sent;
    match s.threads[t]
    case Publishing(_, p) => if p < |s.lists| && t in s.lists[p].readers { SentOnlyData(s, t, p); }
    case ExitLocked(q) => if q in s.queries && Writable(s, s.queries[q]) { ClosedKept(s, s.queries[q], t); }
    case _ =>
  }

  lemma QuietHandsOut(s: System, step: Step)
    requires !Ordinary(step) && HandedOutOnce(s)
    ensures HandedOutOnce(Apply(s, step))
  {
    hide Taken;
    if step.Receive? && step.c < |s.chans| {
      TakenOnlyChannels(s, step.c);
      TakenHomes(s, step.c);
    }
  }

  lemma OneHandsOut(s: System, s': System, t: nat)
    requires HandedOutOnce(s) && OnlyMoves(s, s', t) && HomesKept(s, s') && NewlyHandedOut(s, s', t)
    ensures HandedOutOnce(s')
  {
  }

  lemma StepHandsOut(s: System, step: Step)
    requires HandedOutOnce(s)
    ensures HandedOutOnce(Apply(s, step))
  {
    hide Apply, ApplyClient, ApplyPoller, HandedOutOnce, OnlyMoves, HomesKept, NewlyHandedOut;
    if !Ordinary(step) {
      QuietHandsOut(s, step);
    } else if step.t !in s.threads {
      NobodyThere(s, step);
    } else {
      OrdinaryMoves(s, step);
      StepKeepsHomes(s, step);
      if OfClient(step) {
        ClientIsClient(s, step);
        ClientHandsOut(s, step, step.t);
      } else {
        PollerIsPoller(s, step);
        PollerHandsOut(s, step, step.t);
      }
      OneHandsOut(s, Apply(s, step), step.t);
    }
  }

  // ----- the channel -----

  /** A channel nobody receives from: at most one value more, sent while there was room, and it may be closed. */
  predicate ChannelGoesOn(before: Chan, after: Chan) {
    && after.received == before.received && after.home == before.home && (before.closed ==> after.closed)
    && (after.buffer == before.buffer
        || (|before.buffer| < BUFFER_SIZE && !before.closed && |after.buffer| == |before.buffer| + 1
            && after.buffer == before.buffer + [after.buffer[|before.buffer|]]))
  }

  ghost predicate ChannelsGoOn(s: System, s': System, c: nat) {
    c < |s.chans| && c < |s'.chans| && ChannelGoesOn(s.chans[c], s'.chans[c])
  }

  lemma JoinedGoesOn(s: System, p: nat, c: nat)
    requires p < |s.lists| && c < |s.chans|
    ensures ChannelsGoOn(s, Joined(s, p), c)
  {
  }

  lemma PartedGoesOn(s: System, p: nat, d: nat, c: nat)
    requires p < |s.lists| && c < |s.chans|
    ensures ChannelsGoOn(s, Parted(s, p, d), c)
  {
  }

  lemma ClosedGoesOn(s: System, p: nat, c: nat)
    requires p < |s.lists| && c < |s.chans|
    ensures ChannelsGoOn(s, Closed(s, p), c)
  {
  }

  lemma SentGoesOn(s: System, t: nat, p: nat, c: nat)
    requires p < |s.lists| && t in s.lists[p].readers && c < |s.chans|
    ensures ChannelsGoOn(s, Sent(s, t, p), c)
  {
  }

  lemma ClientGoesOn(s: System, step: Step, t: nat, c: nat)
    requires t in s.threads && c < |s.chans|
    ensures ChannelsGoOn(s, ApplyClient(s, step, t), c)
  {
    hide Joined, Parted, Closed, ChannelGoesOn;
    SameGoesOn(s.chans[c]);
    match s.threads[t]
    case Attaching(_, p) => if Writable(s, p) { JoinedGoesOn(s, p, c); }
    case Detaching(_, d, p) => if Writable(s, p) { PartedGoesOn(s, p, d, c); }
    case Closing(_, p) => if Writable(s, p) { ClosedGoesOn(s, p, c); }
    case _ =>
  }

  lemma SameGoesOn(ch: Chan)
    ensures ChannelGoesOn(ch, ch)
  {
  }

  lemma PollerGoesOn(s: System, step: Step, t: nat, c: nat)
    requires t in s.threads && c < |s.chans|
    ensures ChannelsGoOn(s, ApplyPoller(s, step, t), c)
  {
    hide Closed, Sent, ChannelGoesOn;
    SameGoesOn(s.chans[c]);
    match s.threads[t]
    case Publishing(_, p) => if p < |s.lists| && t in s.lists[p].readers { SentGoesOn(s, t, p, c); }
    case ExitLocked(q) => if q in s.queries && Writable(s, s.queries[q]) { ClosedGoesOn(s, s.queries[q], c); }
    case _ =>
  }

  lemma QuietGoesOn(s: System, step: Step, c: nat)
    requires !Ordinary(step) && step != Receive(c) && c < |s.chans|
    ensures ChannelsGoOn(s, Apply(s, step), c)
  {
  }

  /** What any step but a receive does to a channel. */
  lemma StepGoesOn(s: System, step: Step, c: nat)
    requires step != Receive(c) && c < |s.chans|
    ensures ChannelsGoOn(s, Apply(s, step), c)
  {
    hide Apply, ApplyClient, ApplyPoller, ChannelGoesOn;
    if !Ordinary(step) {
      QuietGoesOn(s, step, c);
    } else if step.t !in s.threads {
      NobodyThere(s, step);
      SameGoesOn(s.chans[c]);
    } else if OfClient(step) {
      ClientIsClient(s, step);
      ClientGoesOn(s, step, step.t, c);
    } else {
      PollerIsPoller(s, step);
      PollerGoesOn(s, step, step.t, c);
    }
  }

  // ----- threads stay -----

  lemma QuietKeepsThreads(s: System, step: Step, t: nat)
    requires !Ordinary(step) && t in s.threads
    ensures t in Apply(s, step).threads
  {
    hide Taken;
    if step.Receive? && step.c < |s.chans| {
      TakenOnlyChannels(s, step.c);
    }
  }

  lemma StepKeepsThreads(s: System, step: Step, t: nat)
    requires t in s.threads
    ensures t in Apply(s, step).threads
  {
    hide Apply;
    if Ordinary(step) {
      OrdinaryMoves(s, step);
    } else {
      QuietKeepsThreads(s, step, t);
    }
  }
}
