/**
 Calls that nobody disturbs: their lock-granular steps, taken in a row, have the
 effect of the atomic operations of the query publisher, and a poll that nobody
 disturbs gives the answer to every subscriber.
 */
module PubSubUndisturbed {
  import opened Types
  import opened PubSub
  import opened PubSubSteps
  import opened PubSubRefs
  import Q = QueryPubSub

  /** The queries and their subscribers, as the atomic operations see them. */
  function View(s: System): map<string, seq<nat>> {
    map q | q in s.queries && s.queries[q] < |s.lists| :: s.lists[s.queries[q]].subs
  }

  /** Nobody holds a lock. */
  ghost predicate Calm(s: System) {
    Safe(s) && Refs(s) && MapFree(s) && forall p: nat :: p < |s.lists| ==> Writable(s, p)
  }

  function ApplyAll(s: System, steps: seq<Step>): System {
    if steps == [] then s else Apply(ApplyAll(s, steps[..|steps| - 1]), steps[|steps| - 1])
  }

  lemma {:induction false} ApplyNext(s: System, steps: seq<Step>, step: Step)
    ensures ApplyAll(s, steps + [step]) == Apply(ApplyAll(s, steps), step)
  {
    assert (steps + [step])[..|steps|] == steps;
  }

  lemma {:induction false} ApplyNothing(s: System)
    ensures ApplyAll(s, []) == s
  {
  }

  lemma {:induction false} AllKeep(s: System, steps: seq<Step>)
    requires Safe(s) && Refs(s)
    ensures Safe(ApplyAll(s, steps)) && Refs(ApplyAll(s, steps))
  {
    if steps != [] {
      hide Apply, Safe, Refs;
      AllKeep(s, steps[..|steps| - 1]);
      StepKeepsSafe(ApplyAll(s, steps[..|steps| - 1]), steps[|steps| - 1]);
      StepKeepsRefs(ApplyAll(s, steps[..|steps| - 1]), steps[|steps| - 1]);
    }
  }

  // ----- views -----

  lemma Mapping(s: System, q: string)
    requires Refs(s) && q in s.queries
    ensures s.queries[q] < |s.lists| && s.lists[s.queries[q]].query == q && View(s)[q] == s.lists[s.queries[q]].subs
  {
    assert RefOk(s.lists, q, s.queries[q]);
  }

  /** One list of the map gets other subscribers. */
  lemma ViewUpdates(s: System, s': System, q: string)
    requires Refs(s) && q in s.queries && s'.queries == s.queries && |s'.lists| == |s.lists|
    requires forall p :: 0 <= p < |s.lists| && p != s.queries[q] ==> s'.lists[p].subs == s.lists[p].subs
    ensures s.queries[q] < |s.lists| && View(s') == View(s)[q := s'.lists[s.queries[q]].subs]
  {
    Mapping(s, q);
    forall r | r in s.queries ensures s.queries[r] < |s.lists| && s.lists[s.queries[r]].query == r {
      Mapping(s, r);
    }
  }

  lemma SameView(s: System, s': System)
    requires s'.queries == s.queries && |s'.lists| == |s.lists|
    requires forall p :: 0 <= p < |s.lists| ==> s'.lists[p].subs == s.lists[p].subs
    ensures View(s') == View(s)
  {
  }

  // ----- Subscribe -----

  /** The steps of a Subscribe: a new query starts a poller and inserts a list first. */
  function SubscribeSteps(s: System, t: nat, poller: nat, q: string): seq<Step> {
    if q in s.queries then [CallSubscribe(t, q)] + [LookUp(t)] + [Attach(t)]
    else [CallSubscribe(t, q)] + [LookUp(t)] + [Spawn(t, poller)] + [Insert(t)] + [Attach(t)]
  }

  /** The thread has joined the list of its query, and nothing else has changed. */
  predicate HasJoined(s: System, s': System, t: nat, q: string) {
    && View(s') == Q.SubscribeView(View(s), q, |s.chans|)
    && t in s'.threads && s'.threads[t] == Subscribed(|s.chans|)
    && |s'.chans| == |s.chans| + 1 && s'.chans[..|s.chans|] == s.chans
    && s'.chans[|s.chans|].buffer == [] && !s'.chans[|s.chans|].closed
  }

  lemma AttachJoins(s: System, t: nat, q: string)
    requires Calm(s) && q in s.queries && t in s.threads && s.threads[t] == Attaching(q, s.queries[q])
    ensures var s' := Apply(s, Attach(t)); HasJoined(s, s', t, q) && s'.threads == s.threads[t := Subscribed(|s.chans|)]
  {
    hide Safe, Refs;
    Mapping(s, q);
    var p := s.queries[q];
    assert Writable(s, p);
    ViewUpdates(s, Apply(s, Attach(t)), q);
  }

  lemma SubscribeFinds(s: System, t: nat, q: string)
    requires Calm(s) && q in s.queries && t !in s.threads
    ensures Apply(Apply(s, CallSubscribe(t, q)), LookUp(t)) == To(s, t, Attaching(q, s.queries[q]))
  {
    hide ApplyClient, ApplyPoller;
    assert s.threads[t := Subscribing(q)][t := Attaching(q, s.queries[q])] == s.threads[t := Attaching(q, s.queries[q])];
  }

  /** The state once a new, empty list of the query is in the map, and its poller waits. */
  function Inserted(s: System, t: nat, poller: nat, q: string): System {
    s.(lists := s.lists + [SubList(q, [], {}, map[], [])], queries := s.queries[q := |s.lists|],
       threads := s.threads[poller := Waiting(q)][t := Attaching(q, |s.lists|)])
  }

  lemma InsertStep(s: System, t: nat, q: string, p: nat)
    requires MapFree(s) && t in s.threads && s.threads[t] == Inserting(q, p)
    ensures Apply(s, Insert(t)) == To(s.(queries := s.queries[q := p]), t, Attaching(q, p))
  {
    hide ApplyPoller, Joined, Parted, Closed;
  }

  lemma SubscribeCreates(s: System, t: nat, poller: nat, q: string)
    requires Calm(s) && q !in s.queries && t !in s.threads && poller !in s.threads && poller != t
    ensures Apply(Apply(Apply(Apply(s, CallSubscribe(t, q)), LookUp(t)), Spawn(t, poller)), Insert(t))
         == Inserted(s, t, poller, q)
  {
    hide ApplyPoller, Joined, Parted, Closed, Safe, Refs, Writable;
    hide ApplyClient;
    var s2 := Apply(Apply(s, CallSubscribe(t, q)), LookUp(t));
    assert s2 == To(s, t, Creating(q)) by {
      assert s.threads[t := Subscribing(q)][t := Creating(q)] == s.threads[t := Creating(q)];
    }
    var s3 := Apply(s2, Spawn(t, poller));
    assert s3.threads == s.threads[poller := Waiting(q)][t := Inserting(q, |s.lists|)];
    assert s3 == s.(lists := s.lists + [SubList(q, [], {}, map[], [])], threads := s3.threads);
    InsertStep(s3, t, q, |s.lists|);
    assert s3.threads[t := Attaching(q, |s.lists|)] == s.threads[poller := Waiting(q)][t := Attaching(q, |s.lists|)];
  }

  lemma InsertedIsCalm(s: System, t: nat, poller: nat, q: string)
    requires Calm(s) && Safe(Inserted(s, t, poller, q)) && Refs(Inserted(s, t, poller, q))
    ensures Calm(Inserted(s, t, poller, q))
  {
    hide Safe, Refs;
    forall p: nat | p < |Inserted(s, t, poller, q).lists| ensures Writable(Inserted(s, t, poller, q), p) {
      assert p < |s.lists| ==> Writable(s, p);
    }
  }

  lemma InsertedView(s: System, t: nat, poller: nat, q: string)
    requires Calm(s) && q !in s.queries
    ensures View(Inserted(s, t, poller, q)) == View(s)[q := []]
  {
    hide Safe;
    forall r | r in s.queries ensures s.queries[r] < |s.lists| {
      Mapping(s, r);
    }
  }

  /** An undisturbed Subscribe is the atomic one, and a query that was not there has one poller more. */
  lemma {:induction false} UndisturbedSubscribe(s: System, t: nat, poller: nat, q: string)
    requires Calm(s) && t !in s.threads && poller !in s.threads && poller != t
    ensures var s' := ApplyAll(s, SubscribeSteps(s, t, poller, q));
      && HasJoined(s, s', t, q)
      && s'.threads == (if q in s.queries then s.threads else s.threads[poller := Waiting(q)])[t := Subscribed(|s.chans|)]
  {
    hide Apply, Safe, Refs, Calm, View, Inserted;
    var a := [CallSubscribe(t, q)];
    assert [] + a == a;
    ApplyNothing(s);
    ApplyNext(s, [], CallSubscribe(t, q));
    ApplyNext(s, a, LookUp(t));
    assert Safe(s) && Refs(s) by { CalmIsSound(s); }
    if q in s.queries {
      SubscribeFinds(s, t, q);
      AllKeep(s, a + [LookUp(t)]);
      ToIsCalm(s, t, Attaching(q, s.queries[q]));
      AttachJoins(To(s, t, Attaching(q, s.queries[q])), t, q);
      ApplyNext(s, a + [LookUp(t)], Attach(t));
      ToJoins(s, ApplyAll(s, SubscribeSteps(s, t, poller, q)), t, q);
    } else {
      SubscribeCreates(s, t, poller, q);
      ApplyNext(s, a + [LookUp(t)], Spawn(t, poller));
      ApplyNext(s, a + [LookUp(t)] + [Spawn(t, poller)], Insert(t));
      AllKeep(s, a + [LookUp(t)] + [Spawn(t, poller)] + [Insert(t)]);
      InsertedIsCalm(s, t, poller, q);
      InsertedView(s, t, poller, q);
      InsertedJoins(s, t, poller, q);
      ApplyNext(s, a + [LookUp(t)] + [Spawn(t, poller)] + [Insert(t)], Attach(t));
    }
  }

  lemma CalmIsSound(s: System)
    requires Calm(s)
    ensures Safe(s) && Refs(s)
  {
  }

  lemma ToIsCalm(s: System, t: nat, thread: Thread)
    requires Calm(s) && Safe(To(s, t, thread)) && Refs(To(s, t, thread))
    ensures Calm(To(s, t, thread))
  {
    hide Safe, Refs;
    forall p: nat | p < |To(s, t, thread).lists| ensures Writable(To(s, t, thread), p) {
      assert p < |s.lists| ==> Writable(s, p);
    }
  }

  lemma ToJoins(s: System, s': System, t: nat, q: string)
    requires q in s.queries && HasJoined(To(s, t, Attaching(q, s.queries[q])), s', t, q)
    requires s'.threads == To(s, t, Attaching(q, s.queries[q])).threads[t := Subscribed(|s.chans|)]
    ensures HasJoined(s, s', t, q) && s'.threads == s.threads[t := Subscribed(|s.chans|)]
  {
    SameView(s, To(s, t, Attaching(q, s.queries[q])));
  }

  lemma InsertedJoins(s: System, t: nat, poller: nat, q: string)
    requires Calm(Inserted(s, t, poller, q)) && q !in s.queries && poller != t
    requires View(Inserted(s, t, poller, q)) == View(s)[q := []]
    ensures var s' := Apply(Inserted(s, t, poller, q), Attach(t));
      HasJoined(s, s', t, q) && s'.threads == s.threads[poller := Waiting(q)][t := Subscribed(|s.chans|)]
  {
    hide Apply, Calm, Safe, Refs;
    var m := Inserted(s, t, poller, q);
    AttachJoins(m, t, q);
    assert m.threads[t := Subscribed(|s.chans|)] == s.threads[poller := Waiting(q)][t := Subscribed(|s.chans|)];
    assert q !in View(s);
    assert View(s)[q := []][q := [] + [|s.chans|]] == View(s)[q := [] + [|s.chans|]];
  }

  // ----- Unsubscribe -----

  /** Its steps; those after it has returned have no effect. */
  function UnsubscribeSteps(u: nat, q: string, c: nat): seq<Step> {
    [CallUnsubscribe(u, q, c)] + [LookUp(u)] + [Detach(u)] + [CheckActive(u)] + [CloseIdle(u)] + [Delete(u)]
  }

  lemma ReturnedStays(s: System, u: nat)
    requires u in s.threads && s.threads[u] == Left
    ensures Apply(s, Detach(u)) == s && Apply(s, CheckActive(u)) == s
    ensures Apply(s, CloseIdle(u)) == s && Apply(s, Delete(u)) == s
  {
    hide ApplyPoller;
  }

  lemma UnsubscribeLooksUp(s: System, u: nat, q: string, c: nat)
    requires Calm(s) && u !in s.threads
    ensures Apply(Apply(s, CallUnsubscribe(u, q, c)), LookUp(u))
         == To(s, u, if q in s.queries then Detaching(q, c, s.queries[q]) else Left)
  {
    hide ApplyClient, ApplyPoller, Safe, Refs;
    var next := if q in s.queries then Detaching(q, c, s.queries[q]) else Left;
    assert s.threads[u := Leaving(q, c)][u := next] == s.threads[u := next];
  }

  /** The channel has left the list, if it was there. */
  lemma {:induction false} DetachLeaves(s: System, u: nat, q: string, c: nat)
    requires Calm(s) && q in s.queries && u in s.threads && s.threads[u] == Detaching(q, c, s.queries[q])
    ensures var s' := Apply(s, Detach(u));
      && View(s') == View(s)[q := Without(View(s)[q], c)] && s'.queries == s.queries
      && s'.threads == s.threads[u := Checking(q, s.queries[q])]
      && |s'.lists| == |s.lists| && s'.writer == s.writer
      && forall p :: 0 <= p < |s.lists| ==> s'.lists[p].readers == s.lists[p].readers
  {
    hide Refs;
    Mapping(s, q);
    var p := s.queries[q];
    assert Writable(s, p) && ListOk(s.chans, s.lists[p], p);
    if c !in s.lists[p].subs {
      WithoutAbsent(s.lists[p].subs, c);
    }
    ViewUpdates(s, Apply(s, Detach(u)), q);
  }

  lemma CheckLeaves(s: System, u: nat, q: string)
    requires Calm(s) && q in s.queries && u in s.threads && s.threads[u] == Checking(q, s.queries[q])
    ensures q in View(s)
    ensures Apply(s, CheckActive(u)) == To(s, u, if View(s)[q] != [] then Left else Closing(q, s.queries[q]))
  {
    hide ApplyPoller, Safe, Refs;
    Mapping(s, q);
  }

  lemma IdleCloses(s: System, u: nat, q: string, p: nat)
    requires u in s.threads && s.threads[u] == Closing(q, p) && Writable(s, p) && s.lists[p].subs == []
    ensures var m := Apply(s, CloseIdle(u));
      && m.threads == s.threads[u := Deleting(q)] && m.queries == s.queries && m.writer == s.writer && m.chans == s.chans
      && View(m) == View(s)
  {
    hide ApplyPoller;
    var m := Apply(s, CloseIdle(u));
    assert m.chans == s.chans;
    SameView(s, m);
  }

  lemma DeleteStep(s: System, u: nat, q: string)
    requires MapFree(s) && u in s.threads && s.threads[u] == Deleting(q)
    ensures Apply(s, Delete(u)) == To(s.(queries := s.queries - {q}), u, Left)
  {
    hide ApplyPoller, Joined, Parted, Closed;
  }

  /** An idle list is closed, with nobody in it, and the query leaves the map. */
  lemma IdleIsRemoved(s: System, u: nat, q: string)
    requires Calm(s) && q in s.queries && q in View(s) && View(s)[q] == []
    requires u in s.threads && s.threads[u] == Closing(q, s.queries[q])
    ensures var s' := Apply(Apply(s, CloseIdle(u)), Delete(u));
      View(s') == View(s) - {q} && s'.threads == s.threads[u := Left] && s'.chans == s.chans
  {
    hide Apply, Safe, Refs;
    Mapping(s, q);
    assert Writable(s, s.queries[q]);
    IdleCloses(s, u, q, s.queries[q]);
    var m := Apply(s, CloseIdle(u));
    DeleteStep(m, u, q);
    assert s.threads[u := Deleting(q)][u := Left] == s.threads[u := Left];
    RemovedView(m, Apply(m, Delete(u)), q);
  }

  lemma RemovedView(s: System, s': System, q: string)
    requires s'.lists == s.lists && s'.queries == s.queries - {q}
    ensures View(s') == View(s) - {q}
  {
  }

  /** An undisturbed Unsubscribe is the atomic one. */
  lemma {:induction false} UndisturbedUnsubscribe(s: System, u: nat, q: string, c: nat)
    requires Calm(s) && u !in s.threads
    ensures var s' := ApplyAll(s, UnsubscribeSteps(u, q, c));
      View(s') == Q.UnsubscribeView(View(s), q, c) && s'.threads == s.threads[u := Left]
  {
    hide Apply, Safe, Refs, Calm, View, To;
    var a := [CallUnsubscribe(u, q, c)];
    assert [] + a == a;
    ApplyNothing(s);
    ApplyNext(s, [], CallUnsubscribe(u, q, c));
    ApplyNext(s, a, LookUp(u));
    ApplyNext(s, a + [LookUp(u)], Detach(u));
    ApplyNext(s, a + [LookUp(u)] + [Detach(u)], CheckActive(u));
    ApplyNext(s, a + [LookUp(u)] + [Detach(u)] + [CheckActive(u)], CloseIdle(u));
    ApplyNext(s, a + [LookUp(u)] + [Detach(u)] + [CheckActive(u)] + [CloseIdle(u)], Delete(u));
    UnsubscribeLooksUp(s, u, q, c);
    CalmIsSound(s);
    AllKeep(s, a + [LookUp(u)]);
    AllKeep(s, a + [LookUp(u)] + [Detach(u)]);
    AllKeep(s, a + [LookUp(u)] + [Detach(u)] + [CheckActive(u)]);
    if q in s.queries {
      ToIsCalm(s, u, Detaching(q, c, s.queries[q]));
      LeavesList(s, u, q, c);
    } else {
      NothingToLeave(s, u, q);
      ReturnedStays(To(s, u, Left), u);
    }
  }

  lemma NothingToLeave(s: System, u: nat, q: string)
    requires q !in s.queries
    ensures View(To(s, u, Left)) == View(s) && q !in View(s) && To(s, u, Left).threads == s.threads[u := Left]
    ensures u in To(s, u, Left).threads && To(s, u, Left).threads[u] == Left
  {
  }

  lemma StillCalm(s: System, s': System)
    requires Calm(s) && Safe(s') && Refs(s') && s'.writer == s.writer && |s'.lists| == |s.lists|
    requires forall p :: 0 <= p < |s.lists| ==> s'.lists[p].readers == s.lists[p].readers
    ensures Calm(s')
  {
    hide Safe, Refs;
    forall p: nat | p < |s'.lists| ensures Writable(s', p) {
      assert p < |s.lists| ==> Writable(s, p);
    }
  }

  /** From the look-up on, with the query in the map. */
  lemma LeavesList(s: System, u: nat, q: string, c: nat)
    requires Calm(s) && q in s.queries && Calm(To(s, u, Detaching(q, c, s.queries[q])))
    ensures var s1 := To(s, u, Detaching(q, c, s.queries[q]));
      var s5 := Apply(Apply(Apply(Apply(s1, Detach(u)), CheckActive(u)), CloseIdle(u)), Delete(u));
      View(s5) == Q.UnsubscribeView(View(s), q, c) && s5.threads == s.threads[u := Left]
  {
    hide Apply, Safe, Refs, Calm, View;
    var s1 := To(s, u, Detaching(q, c, s.queries[q]));
    CalmIsSound(s1);
    DetachLeaves(s1, u, q, c);
    SameView(s, s1);
    var s2 := Apply(s1, Detach(u));
    StepKeepsSafe(s1, Detach(u));
    StepKeepsRefs(s1, Detach(u));
    StillCalm(s1, s2);
    CheckLeaves(s2, u, q);
    StepKeepsSafe(s2, CheckActive(u));
    StepKeepsRefs(s2, CheckActive(u));
    InView(s, q);
    var next := if View(s2)[q] != [] then Left else Closing(q, s.queries[q]);
    var s3 := To(s2, u, next);
    SameView(s2, s3);
    assert s3.threads == s.threads[u := next];
    if next == Left {
      ReturnedStays(s3, u);
    } else {
      StillCalm(s2, s3);
      IdleIsRemoved(s3, u, q);
      assert s3.threads[u := Left] == s.threads[u := Left];
      assert View(s)[q := []] - {q} == View(s) - {q};
    }
  }

  lemma InView(s: System, q: string)
    requires Calm(s) && q in s.queries
    ensures q in View(s)
  {
    Mapping(s, q);
  }

  // ----- a poller -----

  /** A tick, and the steps of an exit; those that do not apply have no effect. */
  function TickSteps(t: nat): seq<Step> {
    [Tick(t)] + [LockAccess(t)] + [CloseOnExit(t)] + [DeleteOnExit(t)]
  }

  lemma AskerIgnoresExit(s: System, t: nat)
    requires t in s.threads && s.threads[t].Querying?
    ensures Apply(s, LockAccess(t)) == s && Apply(s, CloseOnExit(t)) == s && Apply(s, DeleteOnExit(t)) == s
  {
    hide ApplyClient;
  }

  /** An exit whose query is not in the map. */
  lemma ExitsQuietly(s: System, t: nat, q: string)
    requires MapFree(s) && t in s.threads && s.threads[t] == Exiting(q) && q !in s.queries
    ensures Apply(Apply(Apply(s, LockAccess(t)), CloseOnExit(t)), DeleteOnExit(t)) == To(s, t, Gone)
  {
    hide Apply;
    var locked := To(s.(writer := Some(t)), t, ExitLocked(q));
    ExitsLocked(s, t, q);
    assert locked.threads[t := ExitClosed(q)] == s.threads[t := ExitClosed(q)];
    ExitsClosed(To(s.(writer := Some(t)), t, ExitClosed(q)), t, q);
    assert s.threads[t := ExitClosed(q)][t := Gone] == s.threads[t := Gone];
  }

  lemma ExitsLocked(s: System, t: nat, q: string)
    requires MapFree(s) && t in s.threads && s.threads[t] == Exiting(q) && q !in s.queries
    ensures var locked := To(s.(writer := Some(t)), t, ExitLocked(q));
      Apply(s, LockAccess(t)) == locked && Apply(locked, CloseOnExit(t)) == To(locked, t, ExitClosed(q))
  {
    hide ApplyClient, Closed, Sent;
  }

  lemma ExitsClosed(s: System, t: nat, q: string)
    requires t in s.threads && s.threads[t] == ExitClosed(q) && q !in s.queries
    ensures Apply(s, DeleteOnExit(t)) == To(s.(writer := None), t, Gone)
  {
    hide ApplyClient, Closed, Sent;
    assert s.queries - {q} == s.queries;
  }

  lemma TickMoves(s: System, t: nat, q: string)
    requires MapFree(s) && t in s.threads && s.threads[t] == Waiting(q)
    ensures Apply(s, Tick(t)) == To(s, t, if q in s.queries then Querying(q) else Exiting(q))
  {
    hide ApplyClient, Closed, Sent;
  }

  /** An undisturbed tick is the atomic one: the poller asks, or is gone if its query is, and nothing else changes. */
  lemma {:induction false} UndisturbedTick(s: System, t: nat, q: string)
    requires MapFree(s) && t in s.threads && s.threads[t] == Waiting(q)
    ensures ApplyAll(s, TickSteps(t)) == To(s, t, if q in s.queries then Querying(q) else Gone)
  {
    hide Apply;
    ApplyNothing(s);
    var a := [Tick(t)];
    assert [] + a == a;
    ApplyNext(s, [], Tick(t));
    ApplyNext(s, a, LockAccess(t));
    ApplyNext(s, a + [LockAccess(t)], CloseOnExit(t));
    ApplyNext(s, a + [LockAccess(t)] + [CloseOnExit(t)], DeleteOnExit(t));
    TickMoves(s, t, q);
    if q in s.queries {
      AskerIgnoresExit(To(s, t, Querying(q)), t);
    } else {
      ExitsQuietly(To(s, t, Exiting(q)), t, q);
      assert s.threads[t := Exiting(q)][t := Gone] == s.threads[t := Gone];
    }
  }

  // ----- a poll -----

  function Sends(t: nat, n: nat): seq<Step> {
    if n == 0 then [] else Sends(t, n - 1) + [Send(t)]
  }

  /** A tick, the answer, the look-up of the list, and the publish to its n subscribers. */
  function PollSteps(t: nat, v: Sample, n: nat): seq<Step> {
    [Tick(t)] + [Answer(t, Some(v))] + [LookUp(t)] + [BeginPublish(t)] + Sends(t, n) + [EndPublish(t)]
  }

  /** Every open channel of the list has room. */
  ghost predicate HasRoom(s: System, p: nat) {
    p < |s.lists| && forall c :: c in s.lists[p].subs && c < |s.chans| ==> |s.chans[c].buffer| < 10
  }

  /** The publish has served the first k subscribers, and nothing else has changed since s. */
  ghost predicate ServedUpTo(s: System, m: System, t: nat, q: string, p: nat, v: Sample, k: nat) {
    && p < |s.lists| && k <= |s.lists[p].subs|
    && m.threads == s.threads[t := Publishing(q, p)]
    && m == s.(threads := m.threads, chans := m.chans,
               lists := s.lists[p := s.lists[p].(readers := map[t := Reader(k, v)], log := s.lists[p].log + [v])])
    && |m.chans| == |s.chans|
    && forall c :: 0 <= c < |s.chans| ==>
         m.chans[c] == if c in s.lists[p].subs[..k] then s.chans[c].(buffer := s.chans[c].buffer + [v]) else s.chans[c]
  }

  lemma AsksAndLooksUp(s: System, t: nat, q: string, v: Sample)
    requires MapFree(s) && t in s.threads && s.threads[t] == Waiting(q) && q in s.queries
    ensures Apply(Apply(Apply(s, Tick(t)), Answer(t, Some(v))), LookUp(t)) == To(s, t, Starting(q, v, s.queries[q]))
  {
    hide ApplyClient, Closed, Sent, Released;
    TickMoves(s, t, q);
    var s1 := To(s, t, Querying(q));
    assert Apply(s1, Answer(t, Some(v))) == To(s1, t, Notifying(q, v));
    assert s.threads[t := Querying(q)][t := Notifying(q, v)] == s.threads[t := Notifying(q, v)];
    assert s.threads[t := Notifying(q, v)][t := Starting(q, v, s.queries[q])]
        == s.threads[t := Starting(q, v, s.queries[q])];
  }

  lemma PublishBegins(s: System, t: nat, q: string, v: Sample, p: nat)
    requires p < |s.lists| && s.lists[p].readers == map[] && t in s.threads
    ensures ServedUpTo(s, Apply(To(s, t, Starting(q, v, p)), BeginPublish(t)), t, q, p, v, 0)
  {
    hide ApplyClient, Closed, Sent, Released;
    var none: map<nat, Reader> := map[];
    assert none[t := Reader(0, v)] == map[t := Reader(0, v)];
    assert s.threads[t := Starting(q, v, p)][t := Publishing(q, p)] == s.threads[t := Publishing(q, p)];
  }

  lemma SendServes(s: System, m: System, t: nat, q: string, p: nat, v: Sample, k: nat)
    requires Safe(s) && HasRoom(s, p) && ServedUpTo(s, m, t, q, p, v, k) && k < |s.lists[p].subs|
    ensures ServedUpTo(s, Apply(m, Send(t)), t, q, p, v, k + 1)
  {
    hide ApplyClient, Closed, Released;
    var subs := s.lists[p].subs;
    assert ListOk(s.chans, s.lists[p], p) && subs[k] in subs;
    assert subs[..k + 1] == subs[..k] + [subs[k]];
    assert subs[k] !in subs[..k];
    assert map[t := Reader(k, v)][t := Reader(k + 1, v)] == map[t := Reader(k + 1, v)];
  }

  lemma {:induction false} SendsServe(s: System, m: System, t: nat, q: string, p: nat, v: Sample, n: nat)
    requires Safe(s) && HasRoom(s, p) && ServedUpTo(s, m, t, q, p, v, 0) && n <= |s.lists[p].subs|
    ensures ServedUpTo(s, ApplyAll(m, Sends(t, n)), t, q, p, v, n)
  {
    hide Apply, Safe, HasRoom, ServedUpTo;
    if n == 0 {
      ApplyNothing(m);
    } else {
      SendsServe(s, m, t, q, p, v, n - 1);
      SendServes(s, ApplyAll(m, Sends(t, n - 1)), t, q, p, v, n - 1);
      ApplyNext(m, Sends(t, n - 1), Send(t));
    }
  }

  /** What the poll leaves behind: the value in the log and in every subscriber's buffer, and nothing else. */
  ghost predicate ReachedAll(s: System, s': System, p: nat, v: Sample) {
    && p < |s.lists| && s'.threads == s.threads
    && s' == s.(chans := s'.chans, lists := s.lists[p := s.lists[p].(log := s.lists[p].log + [v])])
    && |s'.chans| == |s.chans|
    && forall c :: 0 <= c < |s.chans| ==>
         s'.chans[c] == if c in s.lists[p].subs then s.chans[c].(buffer := s.chans[c].buffer + [v]) else s.chans[c]
  }

  lemma PublishEnds(s: System, m: System, t: nat, q: string, p: nat, v: Sample)
    requires p < |s.lists| && ServedUpTo(s, m, t, q, p, v, |s.lists[p].subs|)
    requires t in s.threads && s.threads[t] == Waiting(q) && s.lists[p].readers == map[]
    ensures ReachedAll(s, Apply(m, EndPublish(t)), p, v)
  {
    hide ApplyClient, Closed, Sent;
    var none: map<nat, Reader> := map[];
    assert map[t := Reader(|s.lists[p].subs|, v)] - {t} == none;
    assert s.lists[p].subs[..|s.lists[p].subs|] == s.lists[p].subs;
    assert s.threads[t := Publishing(q, p)][t := Waiting(q)] == s.threads;
  }

  lemma {:induction false} ApplyMore(s: System, steps: seq<Step>, more: seq<Step>)
    ensures ApplyAll(s, steps + more) == ApplyAll(ApplyAll(s, steps), more)
  {
    hide Apply;
    if more == [] {
      assert steps + more == steps;
    } else {
      assert (steps + more)[..|steps + more| - 1] == steps + more[..|more| - 1];
      ApplyMore(s, steps, more[..|more| - 1]);
    }
  }

  /**
   A poll that nobody disturbs gives the answer to every subscriber of the query: as long as there is room in
   the buffers, each gets exactly that value, and nobody else gets anything.
   */
  lemma {:induction false} UndisturbedPoll(s: System, t: nat, q: string, v: Sample)
    requires Calm(s) && t in s.threads && s.threads[t] == Waiting(q) && q in s.queries && HasRoom(s, s.queries[q])
    ensures s.queries[q] < |s.lists|
    ensures ReachedAll(s, ApplyAll(s, PollSteps(t, v, |s.lists[s.queries[q]].subs|)), s.queries[q], v)
  {
    hide Apply, Safe, Refs, HasRoom, ServedUpTo, ReachedAll;
    CalmIsSound(s);
    Mapping(s, q);
    var p := s.queries[q];
    assert Writable(s, p);
    var n := |s.lists[p].subs|;
    var a := [Tick(t)];
    assert [] + a == a;
    ApplyNothing(s);
    ApplyNext(s, [], Tick(t));
    ApplyNext(s, a, Answer(t, Some(v)));
    ApplyNext(s, a + [Answer(t, Some(v))], LookUp(t));
    ApplyNext(s, a + [Answer(t, Some(v))] + [LookUp(t)], BeginPublish(t));
    AsksAndLooksUp(s, t, q, v);
    PublishBegins(s, t, q, v, p);
    var b := a + [Answer(t, Some(v))] + [LookUp(t)] + [BeginPublish(t)];
    SendsServe(s, ApplyAll(s, b), t, q, p, v, n);
    ApplyMore(s, b, Sends(t, n));
    PublishEnds(s, ApplyAll(s, b + Sends(t, n)), t, q, p, v);
    ApplyNext(s, b + Sends(t, n), EndPublish(t));
  }
}
