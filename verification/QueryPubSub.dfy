/**
 The map of queries, with Subscribe, Unsubscribe and a poller's "check, then exit"
 taken as single atomic operations, and what they conserve together with the
 checker's polling calls.
 */
module QueryPubSub {
  import opened Types
  import opened PubSub

  // ----- the operations on values: queries to lists of channels -----

  function SubscribersOf<C>(v: map<string, seq<C>>, q: string): seq<C> {
    if q in v then v[q] else []
  }

  function SubscribeView<C>(v: map<string, seq<C>>, q: string, c: C): map<string, seq<C>> {
    v[q := SubscribersOf(v, q) + [c]]
  }

  /** The last subscriber to leave takes the query with it. */
  function UnsubscribeView<C(==)>(v: map<string, seq<C>>, q: string, c: C): map<string, seq<C>> {
    if q !in v then v
    else if Without(v[q], c) == [] then v - {q}
    else v[q := Without(v[q], c)]
  }

  // ----- conservation across the checker's calls and the subscriptions -----

  /** A `pollUntilFailure` call between its Subscribe and its Unsubscribe. */
  datatype Call = Call(query: string, channel: nat)

  /** Channels are numbered in order of creation; one `pollers` entry per live polling goroutine. */
  datatype Hub = Hub(queries: map<string, seq<nat>>, pollers: multiset<string>, calls: map<nat, Call>, nextChannel: nat)

  /** `Begin` and `End` are the two ends of a call; `Tick` is one poller's check, and its exit if it fails. */
  datatype Step = Begin(call: nat, query: string) | End(call: nat) | Tick(query: string)

  const EMPTY_HUB := Hub(map[], multiset{}, map[], 0)

  /** One atomic step; a step that is not enabled does nothing. */
  function Apply(s: Hub, step: Step): Hub {
    match step
    case Begin(k, q) =>
      if k in s.calls then s
      else Hub(SubscribeView(s.queries, q, s.nextChannel),
               if q in s.queries then s.pollers else s.pollers + multiset{q},
               s.calls[k := Call(q, s.nextChannel)], s.nextChannel + 1)
    case End(k) =>
      if k !in s.calls then s
      else s.(queries := UnsubscribeView(s.queries, s.calls[k].query, s.calls[k].channel), calls := s.calls - {k})
    case Tick(q) =>
      if q in s.pollers && q !in s.queries then s.(pollers := s.pollers - multiset{q}) else s
  }

  function Exec(steps: seq<Step>): Hub {
    if steps == [] then EMPTY_HUB else Apply(Exec(steps[..|steps| - 1]), steps[|steps| - 1])
  }

  ghost predicate CallsKnown(s: Hub) {
    forall k :: k in s.calls ==>
      && s.calls[k].channel < s.nextChannel
      && s.calls[k].query in s.queries && s.calls[k].channel in s.queries[s.calls[k].query]
  }

  ghost predicate CallsApart(s: Hub) {
    forall j, k :: j in s.calls && k in s.calls && s.calls[j].channel == s.calls[k].channel ==> j == k
  }

  ghost predicate HasCall(s: Hub, q: string, c: nat) {
    exists k :: k in s.calls && s.calls[k] == Call(q, c)
  }

  ghost predicate ListsBacked(s: Hub) {
    forall q :: q in s.queries ==>
      && s.queries[q] != [] && Distinct(s.queries[q])
      && forall i :: 0 <= i < |s.queries[q]| ==> HasCall(s, q, s.queries[q][i])
  }

  ghost predicate Polled(s: Hub) {
    forall q :: q in s.queries ==> q in s.pollers
  }

  ghost predicate Inv(s: Hub) {
    CallsKnown(s) && CallsApart(s) && ListsBacked(s) && Polled(s)
  }

  lemma BeginKeepsLists(s: Hub, k: nat, q: string)
    requires CallsKnown(s) && ListsBacked(s) && k !in s.calls
    ensures ListsBacked(Apply(s, Begin(k, q)))
  {
    var t := Apply(s, Begin(k, q));
    assert t.calls[k] == Call(q, s.nextChannel) && HasCall(t, q, s.nextChannel);
    forall p | p in t.queries
      ensures t.queries[p] != [] && Distinct(t.queries[p])
      ensures forall i :: 0 <= i < |t.queries[p]| ==> HasCall(t, p, t.queries[p][i])
    {
      var was := SubscribersOf(s.queries, p);
      forall i | 0 <= i < |was| ensures was[i] < s.nextChannel && HasCall(t, p, was[i]) {
        assert HasCall(s, p, was[i]);
        var j :| j in s.calls && s.calls[j] == Call(p, was[i]);
        assert t.calls[j] == s.calls[j];
      }
      assert t.queries[p] == if p == q then was + [s.nextChannel] else was;
    }
  }

  lemma BeginKeeps(s: Hub, k: nat, q: string)
    requires Inv(s) && k !in s.calls
    ensures Inv(Apply(s, Begin(k, q)))
  {
    BeginKeepsLists(s, k, q);
    hide ListsBacked;
  }

  lemma EndKeeps(s: Hub, k: nat)
    requires Inv(s) && k in s.calls
    ensures Inv(Apply(s, End(k)))
  {
    var t, q, c := Apply(s, End(k)), s.calls[k].query, s.calls[k].channel;
    WithoutDistinct(s.queries[q], c);
    forall d ensures d in Without(s.queries[q], c) <==> d in s.queries[q] && d != c {
      WithoutMember(s.queries[q], c, d);
    }
    forall j | j in t.calls
      ensures t.calls[j].query in t.queries && t.calls[j].channel in t.queries[t.calls[j].query]
    {
      assert s.calls[j].channel != c;
      assert s.calls[j].channel in s.queries[s.calls[j].query];
    }
    forall p, i | p in t.queries && 0 <= i < |t.queries[p]|
      ensures HasCall(t, p, t.queries[p][i])
    {
      var d := t.queries[p][i];
      assert d in s.queries[p];
      var m :| 0 <= m < |s.queries[p]| && s.queries[p][m] == d;
      assert HasCall(s, p, d);
      var j :| j in s.calls && s.calls[j] == Call(p, d);
      assert j != k && t.calls[j] == s.calls[j];
    }
  }

  lemma StepKeeps(s: Hub, step: Step)
    requires Inv(s)
    ensures Inv(Apply(s, step))
  {
    match step
    case Begin(k, q) => if k !in s.calls { BeginKeeps(s, k, q); }
    case End(k) => if k in s.calls { EndKeeps(s, k); }
    case Tick(_) =>
      assert forall q, c :: HasCall(s, q, c) ==> HasCall(Apply(s, step), q, c);
  }

  lemma {:induction false} ExecInv(steps: seq<Step>)
    ensures Inv(Exec(steps))
  {
    if steps != [] {
      ExecInv(steps[..|steps| - 1]);
      StepKeeps(Exec(steps[..|steps| - 1]), steps[|steps| - 1]);
    }
  }

  ghost function CallsOn(s: Hub, q: string): set<nat> {
    set k | k in s.calls && s.calls[k].query == q
  }

  ghost predicate CalledFrom(keys: set<nat>, calls: map<nat, Call>, c: nat)
    requires keys <= calls.Keys
  {
    exists k :: k in keys && calls[k].channel == c
  }

  /** A list of distinct channels is as long as the set of calls that holds exactly those channels. */
  lemma {:induction false} ListSizeIsCallCount(list: seq<nat>, keys: set<nat>, calls: map<nat, Call>)
    requires Distinct(list) && keys <= calls.Keys
    requires forall k :: k in keys ==> calls[k].channel in list
    requires forall j, k :: j in keys && k in keys && calls[j].channel == calls[k].channel ==> j == k
    requires forall i :: 0 <= i < |list| ==> CalledFrom(keys, calls, list[i])
    ensures |list| == |keys|
  {
    if list == [] {
      assert forall k :: k in keys ==> calls[k].channel in list;
      assert keys == {};
    } else {
      var rest := list[1..];
      assert CalledFrom(keys, calls, list[0]);
      var k :| k in keys && calls[k].channel == list[0];
      forall i | 0 <= i < |rest| ensures CalledFrom(keys - {k}, calls, rest[i]) {
        assert rest[i] == list[i + 1] && CalledFrom(keys, calls, list[i + 1]);
        var j :| j in keys && calls[j].channel == list[i + 1];
        assert j in keys - {k};
      }
      ListSizeIsCallCount(rest, keys - {k}, calls);
    }
  }

  /**
   Conservation, after any run of atomic steps: every query has as many subscribers as there are calls
   polling it, it is in the map exactly when there is one, and then a poller is alive for it.
   */
  lemma {:induction false} SubscriptionsMatchCalls(steps: seq<Step>, q: string)
    ensures |SubscribersOf(Exec(steps).queries, q)| == |CallsOn(Exec(steps), q)|
    ensures q in Exec(steps).queries <==> CallsOn(Exec(steps), q) != {}
    ensures q in Exec(steps).queries ==> Exec(steps).pollers[q] >= 1
  {
    ExecInv(steps);
    var s := Exec(steps);
    var list := SubscribersOf(s.queries, q);
    forall i | 0 <= i < |list| ensures CalledFrom(CallsOn(s, q), s.calls, list[i]) {
      assert HasCall(s, q, list[i]);
      var k :| k in s.calls && s.calls[k] == Call(q, list[i]);
      assert k in CallsOn(s, q);
    }
    ListSizeIsCallCount(list, CallsOn(s, q), s.calls);
  }

  // ----- when a query has one poller -----

  /** The query is gone from the map, and no poller of it has ticked since it left. */
  ghost predicate Lingers(steps: seq<Step>, q: string) {
    && steps != [] && q !in Exec(steps).queries && steps[|steps| - 1] != Tick(q)
    && (q in Exec(steps[..|steps| - 1]).queries || Lingers(steps[..|steps| - 1], q))
  }

  /** The last step brings the query back while it lingers. */
  ghost predicate ReturnsEarly(steps: seq<Step>, q: string)
    requires steps != []
  {
    var before, last := steps[..|steps| - 1], steps[|steps| - 1];
    Lingers(before, q) && last.Begin? && last.query == q && last.call !in Exec(before).calls
  }

  ghost predicate NeverReturnsEarly(steps: seq<Step>, q: string) {
    steps == [] || (NeverReturnsEarly(steps[..|steps| - 1], q) && !ReturnsEarly(steps, q))
  }

  /** At most one poller of the query is alive, now and after every earlier step. */
  ghost predicate OnePollerThroughout(steps: seq<Step>, q: string) {
    steps == [] || (OnePollerThroughout(steps[..|steps| - 1], q) && Exec(steps).pollers[q] <= 1)
  }

  lemma BeginPollers(s: Hub, k: nat, p: string, q: string)
    ensures Apply(s, Begin(k, p)).pollers[q]
         == s.pollers[q] + if k !in s.calls && p !in s.queries && p == q then 1 else 0
    ensures q in Apply(s, Begin(k, p)).queries <==> q in s.queries || (k !in s.calls && p == q)
  {
  }

  /** Outside the map, the one poller there may be is the one that has not noticed yet. */
  lemma {:induction false} LingeringPoller(steps: seq<Step>, q: string)
    requires OnePollerThroughout(steps, q)
    ensures q !in Exec(steps).queries ==> (Exec(steps).pollers[q] == 1 <==> Lingers(steps, q))
  {
    if steps != [] {
      var before, last := steps[..|steps| - 1], steps[|steps| - 1];
      LingeringPoller(before, q);
      ExecInv(before);
      match last
      case Begin(k, p) => BeginPollers(Exec(before), k, p, q);
      case End(_) =>
      case Tick(_) =>
    }
  }

  /** One more step keeps a single poller if and only if it does not bring the query back too early. */
  lemma {:induction false} StepKeepsOnePoller(steps: seq<Step>, q: string)
    requires steps != [] && OnePollerThroughout(steps[..|steps| - 1], q)
    ensures Exec(steps).pollers[q] <= 1 <==> !ReturnsEarly(steps, q)
  {
    hide Inv, Lingers;
    var before, last := steps[..|steps| - 1], steps[|steps| - 1];
    LingeringPoller(before, q);
    NoneLingersInMap(before, q);
    match last
    case Begin(k, p) => BeginPollers(Exec(before), k, p, q);
    case End(_) =>
    case Tick(_) =>
  }

  lemma {:induction false} NoneLingersInMap(steps: seq<Step>, q: string)
    ensures Lingers(steps, q) ==> q !in Exec(steps).queries
    ensures OnePollerThroughout(steps, q) ==> Exec(steps).pollers[q] <= 1
  {
  }

  /**
   One poller per query: through a whole run the query never has two, if and only if no call ever brings
   it back after it left the map and before its poller's next tick.
   */
  lemma {:induction false} OnePollerExactly(steps: seq<Step>, q: string)
    ensures OnePollerThroughout(steps, q) <==> NeverReturnsEarly(steps, q)
  {
    if steps != [] {
      hide Lingers, ReturnsEarly, Exec;
      OnePollerExactly(steps[..|steps| - 1], q);
      if OnePollerThroughout(steps[..|steps| - 1], q) {
        StepKeepsOnePoller(steps, q);
      }
    }
  }

  /** Such a return happens, and leaves two. */
  lemma TwoPollersForOneQuery()
    ensures Exec([Begin(0, "q"), End(0), Begin(1, "q")]).pollers["q"] == 2
  {
    var s1 := Apply(EMPTY_HUB, Begin(0, "q"));
    var s2 := Apply(s1, End(0));
    ExecNext([], Begin(0, "q"));
    ExecNext([Begin(0, "q")], End(0));
    ExecNext([Begin(0, "q"), End(0)], Begin(1, "q"));
    var none: map<string, seq<nat>> := map[];
    assert SubscribersOf(none, "q") + [0] == [0];
    assert s1.queries["q"] == [0] && s1.queries.Keys == {"q"} && s1.pollers == multiset{"q"};
    assert Without([0], 0) == [];
    assert "q" !in s2.queries && s2.pollers == multiset{"q"};
  }

  lemma {:induction false} ExecNext(steps: seq<Step>, step: Step)
    ensures Exec(steps + [step]) == Apply(Exec(steps), step)
  {
    assert (steps + [step])[..|steps|] == steps;
  }

  // ----- the operations on objects -----

  class QueryPubSub {
    var queryPubSubs: map<string, Subscribers>
    /** One entry per live polling goroutine. */
    var pollers: multiset<string>
    ghost var Repr: set<object>

    /** Representation invariant: the subscriber lists are valid and share nothing. */
    ghost predicate Valid()
      reads this, Repr
      ensures Valid() ==> this in Repr
    {
      && this in Repr
      && (forall q :: q in queryPubSubs ==>
            && queryPubSubs[q] in Repr && queryPubSubs[q].Repr <= Repr && this !in queryPubSubs[q].Repr
            && queryPubSubs[q].Valid())
      && (forall p, q :: p in queryPubSubs && q in queryPubSubs && p != q ==>
            queryPubSubs[p].Repr !! queryPubSubs[q].Repr)
    }

    ghost function View(): map<string, seq<Channel>>
      requires Valid()
      reads this, Repr
    {
      map q | q in queryPubSubs :: queryPubSubs[q].subs
    }

    constructor ()
      ensures Valid() && fresh(Repr) && View() == map[] && pollers == multiset{}
    {
      queryPubSubs, pollers, Repr := map[], multiset{}, {this};
    }

    /** `beginPolling`: one more goroutine. */
    method StartPoller(q: string)
      requires Valid()
      modifies this`pollers
      ensures Valid() && View() == old(View()) && pollers == old(pollers) + multiset{q}
    {
      hide Subscribers.Valid, Without;
      pollers := pollers + multiset{q};
    }

    method Install(q: string)
      requires Valid() && q !in queryPubSubs
      modifies this`queryPubSubs, this`Repr
      ensures Valid() && fresh(Repr - old(Repr)) && View() == old(View())[q := []]
    {
      hide Subscribers.Valid, Without;
      var s := new Subscribers();
      assert s.Repr !! Repr && forall p :: p in queryPubSubs ==> s.Repr !! queryPubSubs[p].Repr;
      queryPubSubs, Repr := queryPubSubs[q := s], Repr + s.Repr;
    }

    /** `beginPolling`, and a new empty list for the query. */
    method Create(q: string)
      requires Valid() && q !in queryPubSubs
      modifies this
      ensures Valid() && fresh(Repr - old(Repr))
      ensures View() == old(View())[q := []]
      ensures pollers == old(pollers) + multiset{q}
    {
      hide Subscribers.Valid, Without, Valid;
      StartPoller(q);
      Install(q);
    }

    method Join(q: string) returns (c: Channel)
      requires Valid() && q in queryPubSubs
      modifies Repr
      ensures Valid() && fresh(Repr - old(Repr)) && fresh(c) && c.buffer == []
      ensures q in old(View()) && View() == old(View())[q := old(View())[q] + [c]]
      ensures pollers == old(pollers)
    {
      hide Subscribers.Valid, Without;
      c := queryPubSubs[q].Subscribe();
      Repr := Repr + queryPubSubs[q].Repr;
    }

    method Leave(q: string, c: Channel)
      requires Valid() && q in queryPubSubs
      modifies Repr
      ensures Valid() && Repr == old(Repr) && queryPubSubs == old(queryPubSubs) && pollers == old(pollers)
      ensures q in old(View()) && View() == old(View())[q := Without(old(View())[q], c)]
    {
      hide Subscribers.Valid, Without;
      queryPubSubs[q].Unsubscribe(c);
    }

    method IsActive(q: string) returns (b: bool)
      requires Valid() && q in queryPubSubs
      ensures q in View() && (b <==> View()[q] != [])
    {
      hide Subscribers.Valid;
      b := queryPubSubs[q].Active();
    }

    /** `close` on the query's list. */
    method CloseList(q: string)
      requires Valid() && q in queryPubSubs
      modifies Repr
      ensures Valid() && fresh(Repr - old(Repr)) && queryPubSubs == old(queryPubSubs) && pollers == old(pollers)
      ensures q in old(View()) && View() == old(View())[q := []]
      ensures forall i :: 0 <= i < |old(View())[q]| ==> old(View())[q][i].closed
    {
      hide Subscribers.Valid, Without;
      queryPubSubs[q].Close();
      Repr := Repr + queryPubSubs[q].Repr;
    }

    /** `delete` from the map. */
    method Forget(q: string)
      requires Valid()
      modifies this`queryPubSubs
      ensures Valid() && View() == old(View()) - {q}
    {
      hide Subscribers.Valid, Without;
      queryPubSubs := map p | p in queryPubSubs && p != q :: queryPubSubs[p];
    }

    /** A new query starts a poller and a subscriber list; the new subscriber joins the list. */
    method Subscribe(q: string) returns (c: Channel)
      requires Valid()
      modifies Repr
      ensures Valid() && fresh(Repr - old(Repr)) && fresh(c) && c.buffer == []
      ensures View() == SubscribeView(old(View()), q, c)
      ensures pollers == if q in old(View()) then old(pollers) else old(pollers) + multiset{q}
    {
      hide Subscribers.Valid, Without;
      if q !in queryPubSubs {
        Create(q);
      }
      c := Join(q);
    }

    /** Leaves the list; an empty list is closed and the query removed. */
    method Unsubscribe(q: string, c: Channel)
      requires Valid()
      modifies Repr
      ensures Valid() && fresh(Repr - old(Repr))
      ensures View() == UnsubscribeView(old(View()), q, c)
      ensures pollers == old(pollers)
    {
      hide Subscribers.Valid, Without, Valid;
      if q !in queryPubSubs {
        return;
      }
      Leave(q, c);
      var active := IsActive(q);
      if !active {
        CloseList(q);
        Forget(q);
      }
    }

    /** A poller's tick: it exits when its query is gone, and its deferred cleanup finds nothing to close. */
    method Tick(q: string) returns (exited: bool)
      requires Valid() && q in pollers
      modifies this`pollers
      ensures Valid() && View() == old(View())
      ensures exited <==> q !in View()
      ensures pollers == if exited then old(pollers) - multiset{q} else old(pollers)
    {
      hide Subscribers.Valid, Without;
      exited := q !in queryPubSubs;
      if exited {
        RemovePoller(q);
      }
    }

    method RemovePoller(q: string)
      requires Valid()
      modifies this`pollers
      ensures Valid() && View() == old(View()) && pollers == old(pollers) - multiset{q}
    {
      hide Subscribers.Valid, Without;
      pollers := pollers - multiset{q};
    }

    /** A poller stopped by the root context closes the subscribers of its query and removes it. */
    method ExitOnRoot(q: string)
      requires Valid() && q in pollers
      modifies Repr
      ensures Valid() && fresh(Repr - old(Repr))
      ensures View() == old(View()) - {q}
      ensures q in old(View()) ==> forall i :: 0 <= i < |old(View())[q]| ==> old(View())[q][i].closed
      ensures pollers == old(pollers) - multiset{q}
    {
      hide Subscribers.Valid, Without, Valid;
      if q in queryPubSubs {
        CloseList(q);
      }
      Forget(q);
      RemovePoller(q);
    }
  }
}
