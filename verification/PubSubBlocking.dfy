/**
 Who can wait for whom. A publish that meets a full buffer keeps the read lock of
 its list; whoever has to change that list, an Unsubscribe for instance, waits.
 */
module PubSubBlocking {
  import opened Types
  import opened PubSub
  import opened PubSubSteps
  import opened PubSubRefs

  // ----- a publisher that cannot go on -----

  /** Thread t is in a publish on list p. */
  predicate PublishesOn(s: System, t: nat, p: nat) {
    && t in s.threads && s.threads[t].Publishing? && s.threads[t].list == p
    && p < |s.lists| && t in s.lists[p].readers
  }

  /** The next subscriber the publish has to serve, if there is one. */
  predicate NextIs(s: System, t: nat, p: nat, c: nat) {
    && PublishesOn(s, t, p) && s.lists[p].readers[t].cursor < |s.lists[p].subs|
    && s.lists[p].subs[s.lists[p].readers[t].cursor] == c
  }

  predicate Full(s: System, c: nat) {
    c < |s.chans| && |s.chans[c].buffer| >= BUFFER_SIZE
  }

  /** The publisher can send to the next subscriber, give up, or come to the end. */
  predicate PublisherMoves(s: System, t: nat) {
    Apply(s, Send(t)) != s || Apply(s, Step.Abort(t)) != s || Apply(s, EndPublish(t)) != s
  }

  lemma NextIsOpen(s: System, t: nat, p: nat, c: nat)
    requires Safe(s) && NextIs(s, t, p, c)
    ensures c < |s.chans| && !s.chans[c].closed
  {
    assert ListOk(s.chans, s.lists[p], p) && c in s.lists[p].subs;
  }

  lemma SentMoves(s: System, t: nat, p: nat, c: nat)
    requires NextIs(s, t, p, c) && c < |s.chans| && !s.chans[c].closed
    ensures Sent(s, t, p) != s <==> !Full(s, c)
  {
    if !Full(s, c) {
      assert Sent(s, t, p).lists[p].readers[t].cursor == s.lists[p].readers[t].cursor + 1;
    }
  }

  lemma SendMoves(s: System, t: nat, p: nat, c: nat)
    requires Safe(s) && NextIs(s, t, p, c)
    ensures c < |s.chans| && (Apply(s, Send(t)) != s <==> !Full(s, c))
    ensures Apply(s, EndPublish(t)) == s && (Apply(s, Step.Abort(t)) != s <==> s.rootDone)
  {
    hide Safe, Sent, Closed;
    NextIsOpen(s, t, p, c);
    SentMoves(s, t, p, c);
    assert Released(s, t, p, s.threads[t].query).threads[t] != s.threads[t];
  }

  lemma EndMoves(s: System, t: nat, p: nat)
    requires PublishesOn(s, t, p) && s.lists[p].readers[t].cursor >= |s.lists[p].subs|
    ensures Apply(s, EndPublish(t)) != s
  {
    assert Apply(s, EndPublish(t)).threads[t] != s.threads[t];
  }

  /** Publishing stands still if and only if the next subscriber's buffer is full while the root context lives. */
  lemma {:induction false} PublisherIsStuckExactly(steps: seq<Step>, t: nat)
    requires t in Exec(steps).threads && Exec(steps).threads[t].Publishing?
    ensures var s := Exec(steps);
      !PublisherMoves(s, t) <==> !s.rootDone && exists c :: NextIs(s, t, s.threads[t].list, c) && Full(s, c)
  {
    hide Exec, Safe, Refs, Apply;
    EveryRunIsSafe(steps);
    EveryRunRefs(steps);
    var s := Exec(steps);
    var p := s.threads[t].list;
    MapAndThread(s, t);
    var l := s.lists[p];
    if l.readers[t].cursor < |l.subs| {
      SendMoves(s, t, p, l.subs[l.readers[t].cursor]);
      assert NextIs(s, t, p, l.subs[l.readers[t].cursor]);
    } else {
      EndMoves(s, t, p);
    }
  }

  // ----- a Subscribe or an Unsubscribe that cannot go on -----

  predicate InSubscribe(thread: Thread) {
    thread.Subscribing? || thread.Creating? || thread.Inserting? || thread.Attaching?
  }

  predicate InUnsubscribe(thread: Thread) {
    thread.Leaving? || thread.Detaching? || thread.Checking? || thread.Closing? || thread.Deleting?
  }

  /** The one step a call takes next; a Subscribe may have to start a poller, as a fresh thread. */
  function NextStep(thread: Thread, u: nat, poller: nat): Step
    requires InSubscribe(thread) || InUnsubscribe(thread)
  {
    match thread
    case Subscribing(_) => LookUp(u)
    case Creating(_) => Spawn(u, poller)
    case Inserting(_, _) => Insert(u)
    case Attaching(_, _) => Attach(u)
    case Leaving(_, _) => LookUp(u)
    case Detaching(_, _, _) => Detach(u)
    case Checking(_, _) => CheckActive(u)
    case Closing(_, _) => CloseIdle(u)
    case Deleting(_) => Delete(u)
  }

  /** The lock the step needs is held: the map's by an exiting poller, or the list's by a publish. */
  predicate WaitsForLock(s: System, u: nat) {
    u in s.threads &&
    match s.threads[u]
    case Subscribing(_) => s.writer != None
    case Inserting(_, _) => s.writer != None
    case Leaving(_, _) => s.writer != None
    case Deleting(_) => s.writer != None
    case Attaching(_, p) => p < |s.lists| && s.lists[p].readers != map[]
    case Detaching(_, _, p) => p < |s.lists| && s.lists[p].readers != map[]
    case Closing(_, p) => p < |s.lists| && s.lists[p].readers != map[]
    case _ => false
  }

  lemma SubscribeMoves(s: System, u: nat, poller: nat)
    requires Refs(s) && u in s.threads && InSubscribe(s.threads[u]) && poller !in s.threads
    ensures Apply(s, NextStep(s.threads[u], u, poller)) != s <==> !WaitsForLock(s, u)
  {
    hide Joined, Parted, Closed, Refs;
    MapAndThread(s, u);
    var s' := Apply(s, NextStep(s.threads[u], u, poller));
    assert !WaitsForLock(s, u) ==> s'.threads[u] != s.threads[u];
  }

  lemma UnsubscribeMoves(s: System, u: nat)
    requires Refs(s) && u in s.threads && InUnsubscribe(s.threads[u])
    ensures forall poller :: Apply(s, NextStep(s.threads[u], u, poller)) != s <==> !WaitsForLock(s, u)
  {
    hide Joined, Parted, Closed, Refs;
    MapAndThread(s, u);
    var s' := Apply(s, NextStep(s.threads[u], u, 0));
    assert !WaitsForLock(s, u) ==> s'.threads[u] != s.threads[u];
  }

  /**
   A Subscribe goes on if and only if it does not wait for a lock: the map's to look up and to insert, the
   list's to attach.
   */
  lemma {:induction false} SubscribeMovesExactly(steps: seq<Step>, u: nat, poller: nat)
    requires u in Exec(steps).threads && InSubscribe(Exec(steps).threads[u]) && poller !in Exec(steps).threads
    ensures var s := Exec(steps); Apply(s, NextStep(s.threads[u], u, poller)) != s <==> !WaitsForLock(s, u)
  {
    hide Exec, Apply, Refs;
    EveryRunRefs(steps);
    SubscribeMoves(Exec(steps), u, poller);
  }

  /** So does an Unsubscribe. */
  lemma {:induction false} UnsubscribeMovesExactly(steps: seq<Step>, u: nat, poller: nat)
    requires u in Exec(steps).threads && InUnsubscribe(Exec(steps).threads[u])
    ensures var s := Exec(steps); Apply(s, NextStep(s.threads[u], u, poller)) != s <==> !WaitsForLock(s, u)
  {
    hide Exec, Apply, Refs;
    EveryRunRefs(steps);
    UnsubscribeMoves(Exec(steps), u);
  }

  // ----- the two together -----

  /** A publish is stuck at the full buffer of channel c. */
  ghost predicate StuckAt(s: System, t: nat, p: nat, c: nat) {
    Safe(s) && NextIs(s, t, p, c) && Full(s, c) && !s.rootDone
  }

  /** Thread u has to change list p next. */
  predicate WantsList(s: System, u: nat, p: nat) {
    u in s.threads &&
    match s.threads[u]
    case Attaching(_, r) => r == p
    case Detaching(_, _, r) => r == p
    case Closing(_, r) => r == p
    case _ => false
  }

  /** A publish is stuck, and thread u is its own or waits for its list, be it to join, to leave or to close it. */
  ghost predicate Deadlocked(s: System, t: nat, u: nat, p: nat, c: nat) {
    StuckAt(s, t, p, c) && (u == t || WantsList(s, u, p))
  }

  ghost predicate SamePair(s: System, s': System, t: nat, u: nat) {
    && t in s.threads && u in s.threads && t in s'.threads && u in s'.threads
    && s'.threads[t] == s.threads[t] && s'.threads[u] == s.threads[u]
  }

  /** The list and the channel are as before, and so are the two threads. */
  ghost predicate StandsStill(s: System, s': System, t: nat, u: nat, p: nat, c: nat) {
    && SamePair(s, s', t, u) && p < |s.lists| && p < |s'.lists| && c < |s.chans| && c < |s'.chans|
    && s'.lists[p].subs == s.lists[p].subs && s'.chans[c].buffer == s.chans[c].buffer
    && t in s.lists[p].readers && t in s'.lists[p].readers && s'.lists[p].readers[t] == s.lists[p].readers[t]
    && s'.rootDone == s.rootDone
  }

  lemma StillDeadlocked(s: System, s': System, t: nat, u: nat, p: nat, c: nat)
    requires Deadlocked(s, t, u, p, c) && Safe(s') && StandsStill(s, s', t, u, p, c)
    ensures Deadlocked(s', t, u, p, c)
  {
  }

  lemma ClientLeavesDeadlock(s: System, step: Step, v: nat, t: nat, u: nat, p: nat, c: nat)
    requires Deadlocked(s, t, u, p, c) && v in s.threads
    ensures StandsStill(s, ApplyClient(s, step, v), t, u, p, c)
  {
    hide Safe, Without;
    assert !Writable(s, p);
  }

  /** Another publish does not get past the full buffer either. */
  lemma SentLeavesDeadlock(s: System, v: nat, r: nat, t: nat, u: nat, p: nat, c: nat)
    requires Deadlocked(s, t, u, p, c) && r < |s.lists| && v in s.lists[r].readers
    ensures v != t ==> StandsStill(s, Sent(s, v, r), t, u, p, c)
    ensures v == t && r == p ==> Sent(s, v, r) == s
  {
    assert ListOk(s.chans, s.lists[r], r) && ListOk(s.chans, s.lists[p], p);
    assert s.lists[r].readers[v].cursor < |s.lists[r].subs| ==> s.lists[r].subs[s.lists[r].readers[v].cursor] in s.lists[r].subs;
  }

  lemma PollerLeavesDeadlock(s: System, step: Step, v: nat, t: nat, u: nat, p: nat, c: nat)
    requires Deadlocked(s, t, u, p, c) && v in s.threads
    ensures StandsStill(s, ApplyPoller(s, step, v), t, u, p, c)
  {
    hide Safe, Sent;
    assert !Writable(s, p);
    if s.threads[v].Publishing? && s.threads[v].list < |s.lists| && v in s.lists[s.threads[v].list].readers {
      SentLeavesDeadlock(s, v, s.threads[v].list, t, u, p, c);
    }
  }

  lemma StillStands(s: System, t: nat, u: nat, p: nat, c: nat)
    requires Deadlocked(s, t, u, p, c)
    ensures StandsStill(s, s, t, u, p, c) && t in s.threads && u in s.threads
    ensures s.threads[t].Publishing?
    ensures u == t || s.threads[u].Attaching? || s.threads[u].Detaching? || s.threads[u].Closing?
  {
  }

  lemma TakenLeavesDeadlock(s: System, d: nat, t: nat, u: nat, p: nat, c: nat)
    requires Deadlocked(s, t, u, p, c) && d < |s.chans| && d != c
    ensures StandsStill(s, Taken(s, d), t, u, p, c)
  {
    hide Safe;
  }

  lemma ToLeavesDeadlock(s: System, v: nat, thread: Thread, t: nat, u: nat, p: nat, c: nat)
    requires Deadlocked(s, t, u, p, c) && v != t && v != u
    ensures StandsStill(s, To(s, v, thread), t, u, p, c)
  {
    hide Safe;
  }

  lemma LookUpLeavesDeadlock(s: System, v: nat, t: nat, u: nat, p: nat, c: nat)
    requires Deadlocked(s, t, u, p, c) && v in s.threads
    ensures StandsStill(s, LookedUp(s, v), t, u, p, c)
  {
    hide Safe, StandsStill, To, Full;
    StillStands(s, t, u, p, c);
    match s.threads[v]
    case Subscribing(q) => ToLeavesDeadlock(s, v, if q in s.queries then Attaching(q, s.queries[q]) else Creating(q), t, u, p, c);
    case Leaving(q, d) => ToLeavesDeadlock(s, v, if q in s.queries then Detaching(q, d, s.queries[q]) else Left, t, u, p, c);
    case Notifying(q, x) =>
      ToLeavesDeadlock(s, v, if q in s.queries then Starting(q, x, s.queries[q]) else Waiting(q), t, u, p, c);
    case _ =>
  }

  lemma SpawnLeavesDeadlock(s: System, v: nat, poller: nat, t: nat, u: nat, p: nat, c: nat)
    requires Deadlocked(s, t, u, p, c)
    ensures StandsStill(s, Apply(s, Spawn(v, poller)), t, u, p, c)
  {
    hide Safe;
  }

  lemma StepLeavesDeadlock(s: System, step: Step, t: nat, u: nat, p: nat, c: nat)
    requires Deadlocked(s, t, u, p, c) && step != Receive(c) && step != CancelRoot
    ensures StandsStill(s, Apply(s, step), t, u, p, c)
  {
    hide ApplyClient, ApplyPoller, LookedUp, Taken, Safe, Deadlocked, StandsStill;
    StillStands(s, t, u, p, c);
    match step
    case Receive(d) => if d < |s.chans| { TakenLeavesDeadlock(s, d, t, u, p, c); }
    case Spawn(v, poller) => SpawnLeavesDeadlock(s, v, poller, t, u, p, c);
    case LookUp(v) => if v in s.threads { LookUpLeavesDeadlock(s, v, t, u, p, c); }
    case CallSubscribe(v, q) => if v !in s.threads { ToLeavesDeadlock(s, v, Subscribing(q), t, u, p, c); }
    case CallUnsubscribe(v, q, d) => if v !in s.threads { ToLeavesDeadlock(s, v, Leaving(q, d), t, u, p, c); }
    case CancelRoot =>
    case _ =>
      if step.t in s.threads {
        ClientLeavesDeadlock(s, step, step.t, t, u, p, c);
        PollerLeavesDeadlock(s, step, step.t, t, u, p, c);
      }
  }

  /** One step ends the deadlock if and only if it receives from the full buffer or ends the root context. */
  lemma DeadlockEndsExactly(s: System, step: Step, t: nat, u: nat, p: nat, c: nat)
    requires Deadlocked(s, t, u, p, c)
    ensures Deadlocked(Apply(s, step), t, u, p, c) <==> step != Receive(c) && step != CancelRoot
  {
    hide ApplyClient, ApplyPoller, Safe;
    if step != Receive(c) && step != CancelRoot {
      hide Apply, Deadlocked;
      StepLeavesDeadlock(s, step, t, u, p, c);
      SafeNext(s, step, t, u, p, c);
      StillDeadlocked(s, Apply(s, step), t, u, p, c);
    } else if step == Receive(c) {
      assert |s.chans[c].buffer| <= BUFFER_SIZE by { BufferBound(s, t, u, p, c); }
    }
  }

  lemma BufferBound(s: System, t: nat, u: nat, p: nat, c: nat)
    requires Deadlocked(s, t, u, p, c)
    ensures |s.chans[c].buffer| <= BUFFER_SIZE
  {
  }

  lemma SafeNext(s: System, step: Step, t: nat, u: nat, p: nat, c: nat)
    requires Deadlocked(s, t, u, p, c)
    ensures Safe(Apply(s, step))
  {
    hide Apply, Safe;
    StepKeepsSafe(s, step);
  }

  /** Nobody receives from c, and the root context lives on. */
  predicate NoRelief(more: seq<Step>, c: nat) {
    more == [] || (NoRelief(more[..|more| - 1], c) && more[|more| - 1] != Receive(c) && more[|more| - 1] != CancelRoot)
  }

  /** In every continuation without a receive from c and with a live root, neither thread gets any further. */
  lemma {:induction false} DeadlockStays(steps: seq<Step>, more: seq<Step>, t: nat, u: nat, p: nat, c: nat)
    requires Deadlocked(Exec(steps), t, u, p, c) && NoRelief(more, c)
    ensures Deadlocked(Exec(steps + more), t, u, p, c)
    ensures SamePair(Exec(steps), Exec(steps + more), t, u)
  {
    hide Exec, Apply, Deadlocked, SamePair, StandsStill;
    if more == [] {
      assert steps + more == steps;
      PairIsSame(Exec(steps), t, u, p, c);
    } else {
      var init, last := more[..|more| - 1], more[|more| - 1];
      DeadlockStays(steps, init, t, u, p, c);
      DeadlockEndsExactly(Exec(steps + init), last, t, u, p, c);
      StepLeavesDeadlock(Exec(steps + init), last, t, u, p, c);
      assert steps + more == (steps + init) + [last];
      ExecNext(steps + init, last);
      PairThrough(Exec(steps), Exec(steps + init), Exec(steps + more), t, u, p, c);
    }
  }

  lemma PairIsSame(s: System, t: nat, u: nat, p: nat, c: nat)
    requires Deadlocked(s, t, u, p, c)
    ensures SamePair(s, s, t, u)
  {
  }

  lemma PairThrough(s: System, m: System, s': System, t: nat, u: nat, p: nat, c: nat)
    requires SamePair(s, m, t, u) && StandsStill(m, s', t, u, p, c)
    ensures SamePair(s, s', t, u)
  {
  }

  // ----- nobody joins the list either -----

  /** No channel was created in the list. */
  ghost predicate NewElsewhere(s: System, s': System, p: nat) {
    |s.chans| <= |s'.chans| && forall d :: |s.chans| <= d < |s'.chans| ==> s'.chans[d].home != p
  }

  /** And it has the subscribers it had. */
  ghost predicate NoneJoined(s: System, s': System, p: nat) {
    && p < |s.lists| && p < |s'.lists| && s'.lists[p].subs == s.lists[p].subs && NewElsewhere(s, s', p)
  }

  lemma SameChannelCount(s: System, s': System, p: nat)
    requires |s'.chans| == |s.chans|
    ensures NewElsewhere(s, s', p)
  {
  }

  lemma ClientJoins(s: System, step: Step, v: nat, p: nat)
    requires v in s.threads && p < |s.lists| && !Writable(s, p)
    ensures NewElsewhere(s, ApplyClient(s, step, v), p)
  {
    hide Closed;
    if s.threads[v].Closing? && Writable(s, s.threads[v].list) { ClosedSameChannels(s, s.threads[v].list); }
  }

  lemma ClosedSameChannels(s: System, p: nat)
    requires p < |s.lists|
    ensures |Closed(s, p).chans| == |s.chans|
  {
  }

  lemma PollerJoins(s: System, step: Step, v: nat)
    requires v in s.threads
    ensures |ApplyPoller(s, step, v).chans| == |s.chans|
  {
    hide Closed, Sent;
    if s.threads[v].ExitLocked? && s.threads[v].query in s.queries && Writable(s, s.queries[s.threads[v].query]) {
      ClosedSameChannels(s, s.queries[s.threads[v].query]);
    }
    if s.threads[v].Publishing? && s.threads[v].list < |s.lists| && v in s.lists[s.threads[v].list].readers {
      SentSameChannels(s, v, s.threads[v].list);
    }
  }

  lemma SentSameChannels(s: System, v: nat, p: nat)
    requires p < |s.lists| && v in s.lists[p].readers
    ensures |Sent(s, v, p).chans| == |s.chans|
  {
  }

  lemma QuietSameChannels(s: System, step: Step)
    requires !Ordinary(step)
    ensures |Apply(s, step).chans| == |s.chans|
  {
    hide LookedUp, Taken;
    match step
    case CallSubscribe(_, _) =>
    case CallUnsubscribe(_, _, _) =>
    case LookUp(v) => LookUpSameChannels(s, v);
    case Spawn(_, _) =>
    case Receive(c) => TakenSameChannels(s, c);
    case CancelRoot =>
  }

  lemma StepJoins(s: System, step: Step, p: nat)
    requires p < |s.lists| && !Writable(s, p)
    ensures NewElsewhere(s, Apply(s, step), p)
  {
    hide ApplyClient, ApplyPoller, Apply, NewElsewhere;
    if !Ordinary(step) {
      QuietSameChannels(s, step);
    } else if step.t in s.threads {
      if OfClient(step) {
        ClientIsClient(s, step);
        ClientJoins(s, step, step.t, p);
      } else {
        PollerIsPoller(s, step);
        PollerJoins(s, step, step.t);
      }
    } else {
      NobodyThere(s, step);
    }
    if |Apply(s, step).chans| == |s.chans| {
      SameChannelCount(s, Apply(s, step), p);
    }
  }

  lemma LookUpSameChannels(s: System, v: nat)
    ensures v in s.threads ==> LookedUp(s, v).chans == s.chans
  {
  }

  lemma TakenSameChannels(s: System, c: nat)
    ensures c < |s.chans| ==> |Taken(s, c).chans| == |s.chans|
  {
  }

  lemma StuckIsHeld(s: System, t: nat, p: nat, c: nat)
    requires StuckAt(s, t, p, c)
    ensures Deadlocked(s, t, t, p, c) && p < |s.lists| && !Writable(s, p)
  {
  }

  lemma JoinsThrough(s: System, m: System, s': System, p: nat)
    requires NewElsewhere(s, m, p) && NewElsewhere(m, s', p) && HomesKept(m, s')
    ensures NewElsewhere(s, s', p)
  {
  }

  lemma StandsAreKept(s: System, s': System, t: nat, p: nat, c: nat)
    requires StandsStill(s, s', t, t, p, c)
    ensures p < |s.lists| && p < |s'.lists| && s'.lists[p].subs == s.lists[p].subs
  {
  }

  /**
   While a publish is stuck, in every continuation without relief, it stays stuck, and no Subscribe on its
   list returns.
   */
  lemma {:induction false} NoSubscribeReturns(steps: seq<Step>, more: seq<Step>, t: nat, p: nat, c: nat)
    requires StuckAt(Exec(steps), t, p, c) && NoRelief(more, c)
    ensures StuckAt(Exec(steps + more), t, p, c) && NoneJoined(Exec(steps), Exec(steps + more), p)
  {
    hide Exec, Apply, Deadlocked, StuckAt, StandsStill, Writable, NewElsewhere, HomesKept;
    StuckIsHeld(Exec(steps), t, p, c);
    if more == [] {
      assert steps + more == steps && Exec(steps + more) == Exec(steps);
      SameChannelCount(Exec(steps), Exec(steps), p);
    } else {
      var init, last := more[..|more| - 1], more[|more| - 1];
      NoSubscribeReturns(steps, init, t, p, c);
      StuckIsHeld(Exec(steps + init), t, p, c);
      DeadlockEndsExactly(Exec(steps + init), last, t, t, p, c);
      StepLeavesDeadlock(Exec(steps + init), last, t, t, p, c);
      StepJoins(Exec(steps + init), last, p);
      StepKeepsHomes(Exec(steps + init), last);
      assert steps + more == (steps + init) + [last];
      ExecNext(steps + init, last);
      StandsAreKept(Exec(steps + init), Exec(steps + more), t, p, c);
      DeadlockIsStuck(Exec(steps + more), t, p, c);
      JoinsThrough(Exec(steps), Exec(steps + init), Exec(steps + more), p);
    }
  }

  lemma DeadlockIsStuck(s: System, t: nat, p: nat, c: nat)
    requires Deadlocked(s, t, t, p, c)
    ensures StuckAt(s, t, p, c)
  {
  }
}
