/**
 The two snapshot emitters as feeders of the emission loop: the namespaced one,
 which keeps the latest list of every watched namespace and merges them, and the
 simple one, which sorts one untyped list by resource type.
 */
module Emitters {
  import opened Types
  import opened Emission

  // ----- which namespaces may be watched together -----

  const ALL_NAMESPACES := ""

  /** No namespace means all of them; otherwise all namespaces cannot be combined with any other. */
  method ValidateNamespaces(watch: seq<string>) returns (r: Option<seq<string>>)
    ensures r == None <==> ALL_NAMESPACES in watch && |watch| > 1
    ensures r.Some? ==> r.value == if watch == [] then [ALL_NAMESPACES] else watch
    ensures r.Some? ==> Watchable(r.value)
  {
    var namespaces := watch;
    if |namespaces| == 0 {
      namespaces := [ALL_NAMESPACES];
    }
    for i := 0 to |namespaces|
      invariant forall k :: 0 <= k < i ==> namespaces[k] != ALL_NAMESPACES || |namespaces| == 1
    {
      if namespaces[i] == ALL_NAMESPACES && |namespaces| > 1 {
        return None;
      }
    }
    return Some(namespaces);
  }

  ghost predicate Watchable(watch: seq<string>) {
    watch != [] && (ALL_NAMESPACES in watch ==> watch == [ALL_NAMESPACES])
  }

  // ----- the stable sort by key -----

  ghost predicate StrictTotal(less: (Ref, Ref) -> bool) {
    && (forall a :: !less(a, a))
    && (forall a, b, c :: less(a, b) && less(b, c) ==> less(a, c))
    && (forall a, b :: a == b || less(a, b) || less(b, a))
  }

  function Insert(x: Resource, xs: seq<Resource>, less: (Ref, Ref) -> bool): seq<Resource> {
    if xs == [] || !less(Key(x), Key(xs[|xs| - 1])) then xs + [x]
    else Insert(x, xs[..|xs| - 1], less) + [xs[|xs| - 1]]
  }

  function Sort(xs: seq<Resource>, less: (Ref, Ref) -> bool): seq<Resource> {
    if xs == [] then [] else Insert(xs[|xs| - 1], Sort(xs[..|xs| - 1], less), less)
  }

  ghost predicate Ascending(xs: seq<Resource>, less: (Ref, Ref) -> bool) {
    forall i, j :: 0 <= i < j < |xs| ==> less(Key(xs[i]), Key(xs[j]))
  }

  ghost predicate KeysDistinct(xs: seq<Resource>) {
    forall i, j :: 0 <= i < j < |xs| ==> Key(xs[i]) != Key(xs[j])
  }

  ghost predicate SameMembers(xs: seq<Resource>, ys: seq<Resource>) {
    forall x :: x in xs <==> x in ys
  }

  lemma {:induction false} InsertMembers(x: Resource, xs: seq<Resource>, less: (Ref, Ref) -> bool)
    ensures SameMembers(Insert(x, xs, less), xs + [x])
  {
    if xs != [] && less(Key(x), Key(xs[|xs| - 1])) {
      var init, last := xs[..|xs| - 1], xs[|xs| - 1];
      InsertMembers(x, init, less);
      assert xs == init + [last];
    }
  }

  lemma {:induction false} InsertAscending(x: Resource, xs: seq<Resource>, less: (Ref, Ref) -> bool)
    requires StrictTotal(less) && Ascending(xs, less)
    requires forall y :: y in xs ==> Key(y) != Key(x)
    ensures Ascending(Insert(x, xs, less), less)
  {
    if xs != [] {
      var init, last := xs[..|xs| - 1], xs[|xs| - 1];
      if less(Key(x), Key(last)) {
        InsertAscending(x, init, less);
        InsertMembers(x, init, less);
        var r := Insert(x, init, less);
        forall i | 0 <= i < |r| ensures less(Key(r[i]), Key(last)) {
          assert r[i] in init + [x];
        }
      } else {
        assert less(Key(last), Key(x));
      }
    }
  }

  lemma {:induction false} SortMembers(xs: seq<Resource>, less: (Ref, Ref) -> bool)
    ensures SameMembers(Sort(xs, less), xs)
  {
    if xs != [] {
      var init, last := xs[..|xs| - 1], xs[|xs| - 1];
      SortMembers(init, less);
      InsertMembers(last, Sort(init, less), less);
      assert xs == init + [last];
    }
  }

  lemma {:induction false} SortAscending(xs: seq<Resource>, less: (Ref, Ref) -> bool)
    requires StrictTotal(less) && KeysDistinct(xs)
    ensures Ascending(Sort(xs, less), less)
  {
    if xs != [] {
      var init, last := xs[..|xs| - 1], xs[|xs| - 1];
      SortAscending(init, less);
      SortMembers(init, less);
      forall y | y in Sort(init, less) ensures Key(y) != Key(last) {
        var k :| 0 <= k < |init| && init[k] == y;
      }
      InsertAscending(last, Sort(init, less), less);
    }
  }

  lemma LastIsTop(xs: seq<Resource>, less: (Ref, Ref) -> bool, x: Resource)
    requires xs != [] && Ascending(xs, less) && x in xs
    ensures x == xs[|xs| - 1] || less(Key(x), Key(xs[|xs| - 1]))
  {
    var k :| 0 <= k < |xs| && xs[k] == x;
  }

  lemma SameLast(xs: seq<Resource>, ys: seq<Resource>, less: (Ref, Ref) -> bool)
    requires StrictTotal(less) && Ascending(xs, less) && Ascending(ys, less) && SameMembers(xs, ys)
    requires xs != [] && ys != []
    ensures xs[|xs| - 1] == ys[|ys| - 1]
  {
    LastIsTop(ys, less, xs[|xs| - 1]);
    LastIsTop(xs, less, ys[|ys| - 1]);
  }

  lemma SameEmpty(xs: seq<Resource>, ys: seq<Resource>)
    requires SameMembers(xs, ys)
    ensures xs == [] <==> ys == []
  {
    if xs != [] {
      assert xs[0] in ys;
    }
    if ys != [] {
      assert ys[0] in xs;
    }
  }

  lemma LastOnce(xs: seq<Resource>, less: (Ref, Ref) -> bool, x: Resource)
    requires StrictTotal(less) && xs != [] && Ascending(xs, less)
    ensures x in xs[..|xs| - 1] <==> x in xs && x != xs[|xs| - 1]
  {
    var init, last := xs[..|xs| - 1], xs[|xs| - 1];
    assert xs == init + [last];
  }

  /** A list in ascending order is determined by its members. */
  lemma {:induction false} AscendingIsCanonical(xs: seq<Resource>, ys: seq<Resource>, less: (Ref, Ref) -> bool)
    requires StrictTotal(less) && Ascending(xs, less) && Ascending(ys, less) && SameMembers(xs, ys)
    ensures xs == ys
  {
    hide StrictTotal;
    SameEmpty(xs, ys);
    if xs != [] {
      SameLast(xs, ys, less);
      var initX, initY, last := xs[..|xs| - 1], ys[..|ys| - 1], xs[|xs| - 1];
      forall x ensures x in initX <==> x in initY {
        LastOnce(xs, less, x);
        LastOnce(ys, less, x);
      }
      AscendingIsCanonical(initX, initY, less);
      assert xs == initX + [last] && ys == initY + [last];
    }
  }

  // ----- merging the latest lists -----

  /** The lists of a map, appended in the order the map is iterated. */
  function Concat<T>(m: map<string, seq<T>>, order: seq<string>): seq<T> {
    if order == [] then []
    else
      var ns := order[|order| - 1];
      Concat(m, order[..|order| - 1]) + if ns in m then m[ns] else []
  }

  /** One iteration of the map: every key once, in any order. */
  ghost predicate Iteration<T>(m: map<string, seq<T>>, order: seq<string>) {
    (forall ns :: ns in order <==> ns in m) && Distinct(order)
  }

  ghost predicate Somewhere(m: map<string, seq<Resource>>, order: seq<string>, x: Resource) {
    exists ns :: ns in order && ns in m && x in m[ns]
  }

  lemma {:induction false} ConcatMembers(m: map<string, seq<Resource>>, order: seq<string>, x: Resource)
    ensures x in Concat(m, order) <==> Somewhere(m, order, x)
  {
    if order != [] {
      var init, last := order[..|order| - 1], order[|order| - 1];
      assert order == init + [last];
      ConcatMembers(m, init, x);
    }
  }

  /** What one watch delivers: resources of its own namespace, each key once. */
  ghost predicate Owned(ns: string, list: seq<Resource>) {
    KeysDistinct(list) && (ns == ALL_NAMESPACES || forall x :: x in list ==> Key(x).ns == ns)
  }

  ghost predicate MapOwned(m: map<string, seq<Resource>>) {
    && (forall ns :: ns in m ==> Owned(ns, m[ns]))
    && (ALL_NAMESPACES in m ==> m.Keys == {ALL_NAMESPACES})
  }

  lemma OwnersDiffer(m: map<string, seq<Resource>>, a: string, b: string, x: Resource, y: Resource)
    requires MapOwned(m) && a in m && b in m && a != b && x in m[a] && y in m[b]
    ensures Key(x) != Key(y)
  {
    assert a in m.Keys && b in m.Keys;
    assert Owned(a, m[a]) && Owned(b, m[b]);
  }

  lemma AppendKeys(xs: seq<Resource>, ys: seq<Resource>)
    requires KeysDistinct(xs) && KeysDistinct(ys)
    requires forall x, y :: x in xs && y in ys ==> Key(x) != Key(y)
    ensures KeysDistinct(xs + ys)
  {
  }

  lemma {:induction false} ConcatKeys(m: map<string, seq<Resource>>, order: seq<string>)
    requires MapOwned(m) && Distinct(order)
    ensures KeysDistinct(Concat(m, order))
  {
    if order != [] && order[|order| - 1] in m {
      var init, last := order[..|order| - 1], order[|order| - 1];
      assert order == init + [last];
      ConcatKeys(m, init);
      assert Owned(last, m[last]);
      forall x, y | x in Concat(m, init) && y in m[last] ensures Key(x) != Key(y) {
        ConcatMembers(m, init, x);
        var ns :| ns in init && ns in m && x in m[ns];
        OwnersDiffer(m, ns, last, x, y);
      }
      AppendKeys(Concat(m, init), m[last]);
    } else if order != [] {
      ConcatKeys(m, order[..|order| - 1]);
    }
  }

  function Merged(m: map<string, seq<Resource>>, order: seq<string>, less: (Ref, Ref) -> bool): seq<Resource> {
    Sort(Concat(m, order), less)
  }

  ghost predicate InMap(m: map<string, seq<Resource>>, x: Resource) {
    exists ns :: ns in m && x in m[ns]
  }

  /** The merged list is in ascending order and holds each resource of the map once. */
  lemma MergedExactly(m: map<string, seq<Resource>>, order: seq<string>, less: (Ref, Ref) -> bool)
    requires StrictTotal(less) && MapOwned(m) && Iteration(m, order)
    ensures Ascending(Merged(m, order, less), less)
    ensures forall x :: x in Merged(m, order, less) <==> InMap(m, x)
  {
    hide StrictTotal, MapOwned, Ascending, KeysDistinct, Concat, Sort;
    ConcatKeys(m, order);
    SortAscending(Concat(m, order), less);
    SortMembers(Concat(m, order), less);
    forall x ensures x in Merged(m, order, less) <==> InMap(m, x) {
      ConcatMembers(m, order, x);
    }
  }

  /** The order in which the map is iterated leaves no trace. */
  lemma MergedIsCanonical(m: map<string, seq<Resource>>, one: seq<string>, two: seq<string>, less: (Ref, Ref) -> bool)
    requires StrictTotal(less) && MapOwned(m) && Iteration(m, one) && Iteration(m, two)
    ensures Merged(m, one, less) == Merged(m, two, less)
  {
    hide StrictTotal, MapOwned, Ascending, Merged, InMap;
    MergedExactly(m, one, less);
    MergedExactly(m, two, less);
    AscendingIsCanonical(Merged(m, one, less), Merged(m, two, less), less);
  }

  // ----- the namespaced emitter -----

  /** What the select of an emitter's loop takes up. */
  datatype Feed<+D> = Timer | Emit | Deliver(d: D)

  datatype Kind = Experiments | Reports

  /** One watch's list; `order` is how the map is iterated after storing it. */
  datatype FromWatch = FromWatch(kind: Kind, ns: string, list: seq<Resource>, order: seq<string>)

  datatype Caches = Caches(experiments: map<string, seq<Resource>>, reports: map<string, seq<Resource>>) {
    function Of(kind: Kind): map<string, seq<Resource>> {
      match kind case Experiments => experiments case Reports => reports
    }

    function Store(kind: Kind, ns: string, list: seq<Resource>): Caches {
      match kind
      case Experiments => this.(experiments := experiments[ns := list])
      case Reports => this.(reports := reports[ns := list])
    }
  }

  function ListOf(s: Snapshot, kind: Kind): seq<Resource> {
    match kind case Experiments => s.experiments case Reports => s.reports
  }

  function WithList(s: Snapshot, kind: Kind, list: seq<Resource>): Snapshot {
    match kind case Experiments => s.(experiments := list) case Reports => s.(reports := list)
  }

  /** The two maps, `experimentsByNamespace` and `reportsByNamespace`. */
  function CachesAfter(es: seq<Feed<FromWatch>>): Caches {
    if es == [] then Caches(map[], map[])
    else
      var before, e := CachesAfter(es[..|es| - 1]), es[|es| - 1];
      if e.Deliver? then before.Store(e.d.kind, e.d.ns, e.d.list) else before
  }

  function LoopEvent(current: Snapshot, caches: Caches, e: Feed<FromWatch>, less: (Ref, Ref) -> bool): Event {
    match e
    case Timer => Tick
    case Emit => Force
    case Deliver(d) => Update(WithList(current, d.kind, Merged(caches.Of(d.kind), d.order, less)))
  }

  function NamespacedRun(es: seq<Feed<FromWatch>>, less: (Ref, Ref) -> bool): Loop {
    if es == [] then START
    else
      var before := NamespacedRun(es[..|es| - 1], less);
      Step(before, LoopEvent(before.current, CachesAfter(es), es[|es| - 1], less))
  }

  // ----- what its snapshots hold -----

  /** The latest list of one watch. */
  function LatestList(es: seq<Feed<FromWatch>>, kind: Kind, ns: string): Option<seq<Resource>> {
    if es == [] then None
    else
      var e := es[|es| - 1];
      if e.Deliver? && e.d.kind == kind && e.d.ns == ns then Some(e.d.list)
      else LatestList(es[..|es| - 1], kind, ns)
  }

  ghost predicate InLatest(es: seq<Feed<FromWatch>>, kind: Kind, x: Resource) {
    exists ns :: x in ListOr(LatestList(es, kind, ns))
  }

  function ListOr(list: Option<seq<Resource>>): seq<Resource> {
    if list.Some? then list.value else []
  }

  /** Each watch delivers its own namespace, and the map may be iterated in any order. */
  ghost predicate Legal(watch: seq<string>, es: seq<Feed<FromWatch>>) {
    es == [] ||
    (Legal(watch, es[..|es| - 1]) &&
     (es[|es| - 1].Deliver? ==> LegalDelivery(watch, CachesAfter(es), es[|es| - 1].d)))
  }

  ghost predicate LegalDelivery(watch: seq<string>, caches: Caches, d: FromWatch) {
    d.ns in watch && Owned(d.ns, d.list) && Iteration(caches.Of(d.kind), d.order)
  }

  lemma {:induction false} CachesHoldTheLatest(es: seq<Feed<FromWatch>>, kind: Kind, ns: string)
    ensures ns in CachesAfter(es).Of(kind) <==> LatestList(es, kind, ns).Some?
    ensures ns in CachesAfter(es).Of(kind) ==> CachesAfter(es).Of(kind)[ns] == LatestList(es, kind, ns).value
  {
    if es != [] {
      CachesHoldTheLatest(es[..|es| - 1], kind, ns);
    }
  }

  ghost predicate CacheOwned(watch: seq<string>, m: map<string, seq<Resource>>) {
    forall ns :: ns in m ==> ns in watch && Owned(ns, m[ns])
  }

  lemma {:induction false} CachesOwned(watch: seq<string>, es: seq<Feed<FromWatch>>, kind: Kind)
    requires Legal(watch, es)
    ensures CacheOwned(watch, CachesAfter(es).Of(kind))
  {
    hide Owned, Iteration;
    if es != [] {
      CachesOwned(watch, es[..|es| - 1], kind);
    }
  }

  lemma OwnedByWatch(watch: seq<string>, m: map<string, seq<Resource>>)
    requires Watchable(watch) && CacheOwned(watch, m)
    ensures MapOwned(m)
  {
    if ALL_NAMESPACES in m {
      assert forall ns :: ns in m.Keys ==> ns in watch;
      assert m.Keys == {ALL_NAMESPACES};
    }
  }

  /** The list of a kind is the merge of that kind's map, in the order of the last delivery, or empty. */
  ghost predicate HoldsMerge(list: seq<Resource>, m: map<string, seq<Resource>>, less: (Ref, Ref) -> bool) {
    Ascending(list, less) && forall x :: x in list <==> InMap(m, x)
  }

  lemma StepHolds(s: Loop, caches: Caches, e: Feed<FromWatch>, less: (Ref, Ref) -> bool, kind: Kind)
    requires StrictTotal(less)
    requires e.Deliver? && e.d.kind == kind ==>
      MapOwned(caches.Of(kind)) && Iteration(caches.Of(kind), e.d.order)
    requires (e.Deliver? && e.d.kind == kind) || HoldsMerge(ListOf(s.current, kind), caches.Of(kind), less)
    ensures HoldsMerge(ListOf(Step(s, LoopEvent(s.current, caches, e, less)).current, kind), caches.Of(kind), less)
  {
    hide StrictTotal, MapOwned, Ascending, Iteration, Merged, Hash, InMap;
    if e.Deliver? && e.d.kind == kind {
      MergedExactly(caches.Of(kind), e.d.order, less);
    }
  }

  lemma {:induction false} RunHolds(watch: seq<string>, es: seq<Feed<FromWatch>>, less: (Ref, Ref) -> bool, kind: Kind)
    requires Watchable(watch) && StrictTotal(less) && Legal(watch, es)
    ensures HoldsMerge(ListOf(NamespacedRun(es, less).current, kind), CachesAfter(es).Of(kind), less)
  {
    hide StrictTotal, Watchable, HoldsMerge, Step, MapOwned, LoopEvent, Iteration, Owned;
    if es == [] {
      NothingHeld(less, kind);
    } else {
      var init := es[..|es| - 1];
      RunHolds(watch, init, less, kind);
      CachesOwned(watch, es, kind);
      OwnedByWatch(watch, CachesAfter(es).Of(kind));
      StepHolds(NamespacedRun(init, less), CachesAfter(es), es[|es| - 1], less, kind);
    }
  }

  lemma NothingHeld(less: (Ref, Ref) -> bool, kind: Kind)
    ensures HoldsMerge(ListOf(START.current, kind), Caches(map[], map[]).Of(kind), less)
  {
  }

  /** In every reachable state the current list is in ascending order and holds each resource of the latest lists once. */
  lemma {:induction false} CanonicalMerge(watch: seq<string>, es: seq<Feed<FromWatch>>, less: (Ref, Ref) -> bool, kind: Kind)
    requires Watchable(watch) && StrictTotal(less) && Legal(watch, es)
    ensures Ascending(ListOf(NamespacedRun(es, less).current, kind), less)
    ensures forall x :: x in ListOf(NamespacedRun(es, less).current, kind) <==> InLatest(es, kind, x)
  {
    hide StrictTotal, Watchable, NamespacedRun, Legal, Ascending;
    RunHolds(watch, es, less, kind);
    var m := CachesAfter(es).Of(kind);
    forall x ensures InMap(m, x) <==> InLatest(es, kind, x) {
      MapIsLatest(es, kind, x);
    }
  }

  lemma {:induction false} MapIsLatest(es: seq<Feed<FromWatch>>, kind: Kind, x: Resource)
    ensures InMap(CachesAfter(es).Of(kind), x) <==> InLatest(es, kind, x)
  {
    hide CachesAfter, LatestList;
    var m := CachesAfter(es).Of(kind);
    if InMap(m, x) {
      var ns :| ns in m && x in m[ns];
      CachesHoldTheLatest(es, kind, ns);
      assert x in ListOr(LatestList(es, kind, ns));
    }
    if InLatest(es, kind, x) {
      var ns :| x in ListOr(LatestList(es, kind, ns));
      CachesHoldTheLatest(es, kind, ns);
    }
  }

  // ----- map order leaves no trace in a run -----

  function Unordered(e: Feed<FromWatch>): Feed<FromWatch> {
    if e.Deliver? then Deliver(e.d.(order := [])) else e
  }

  /** The same deliveries, with the maps iterated in another order. */
  ghost predicate SameButOrder(one: seq<Feed<FromWatch>>, two: seq<Feed<FromWatch>>) {
    |one| == |two| &&
    (one == [] ||
     (SameButOrder(one[..|one| - 1], two[..|two| - 1]) && Unordered(one[|one| - 1]) == Unordered(two[|two| - 1])))
  }

  lemma {:induction false} CachesIgnoreOrder(one: seq<Feed<FromWatch>>, two: seq<Feed<FromWatch>>)
    requires SameButOrder(one, two)
    ensures CachesAfter(one) == CachesAfter(two)
  {
    if one != [] {
      CachesIgnoreOrder(one[..|one| - 1], two[..|two| - 1]);
    }
  }

  lemma EventIgnoresOrder(current: Snapshot, caches: Caches, one: Feed<FromWatch>, two: Feed<FromWatch>,
                          less: (Ref, Ref) -> bool)
    requires StrictTotal(less) && Unordered(one) == Unordered(two)
    requires one.Deliver? && two.Deliver? ==>
      && MapOwned(caches.Of(one.d.kind))
      && Iteration(caches.Of(one.d.kind), one.d.order) && Iteration(caches.Of(one.d.kind), two.d.order)
    ensures LoopEvent(current, caches, one, less) == LoopEvent(current, caches, two, less)
  {
    hide StrictTotal, MapOwned, Iteration, Merged;
    if one.Deliver? && two.Deliver? {
      MergedIsCanonical(caches.Of(one.d.kind), one.d.order, two.d.order, less);
    }
  }

  /** Two runs that differ only in how the maps were iterated end in the same state, having sent the same snapshots. */
  lemma {:induction false} MapOrderLeavesNoTrace(watch: seq<string>, one: seq<Feed<FromWatch>>, two: seq<Feed<FromWatch>>,
                                                less: (Ref, Ref) -> bool)
    requires Watchable(watch) && StrictTotal(less)
    requires Legal(watch, one) && Legal(watch, two) && SameButOrder(one, two)
    ensures NamespacedRun(one, less) == NamespacedRun(two, less)
  {
    hide StrictTotal, Watchable, MapOwned, Iteration, Owned, LoopEvent, Step;
    if one != [] {
      MapOrderLeavesNoTrace(watch, one[..|one| - 1], two[..|two| - 1], less);
      CachesIgnoreOrder(one, two);
      var e := one[|one| - 1];
      if e.Deliver? {
        CachesOwned(watch, one, e.d.kind);
        OwnedByWatch(watch, CachesAfter(one).Of(e.d.kind));
      }
      EventIgnoresOrder(NamespacedRun(one[..|one| - 1], less).current, CachesAfter(one), e, two[|two| - 1], less);
    }
  }

  // ----- it is a run of the emission loop -----

  function LoopEvents(es: seq<Feed<FromWatch>>, less: (Ref, Ref) -> bool): seq<Event> {
    if es == [] then []
    else
      var init := es[..|es| - 1];
      LoopEvents(init, less) + [LoopEvent(NamespacedRun(init, less).current, CachesAfter(es), es[|es| - 1], less)]
  }

  lemma {:induction false} NamespacedIsALoop(es: seq<Feed<FromWatch>>, less: (Ref, Ref) -> bool)
    ensures NamespacedRun(es, less) == Run(LoopEvents(es, less))
  {
    hide Step, LoopEvent;
    if es != [] {
      var init, all := es[..|es| - 1], LoopEvents(es, less);
      NamespacedIsALoop(init, less);
      assert all[..|all| - 1] == LoopEvents(init, less);
    }
  }

  /**
   After a tick of the namespaced emitter, what the timer last sent has, position by position, the keys, specs,
   results and contents of the merge of the latest lists.
   */
  lemma {:induction false} NamespacedAgrees(watch: seq<string>, es: seq<Feed<FromWatch>>, less: (Ref, Ref) -> bool)
    requires Watchable(watch) && StrictTotal(less) && Legal(watch, es) && es != [] && es[|es| - 1] == Timer
    ensures SameSnapshot(LastOf(Ticked(NamespacedRun(es, less).log)), NamespacedRun(es, less).current)
    ensures NoRepeats(Ticked(NamespacedRun(es, less).log))
    ensures Ascending(NamespacedRun(es, less).current.experiments, less)
    ensures forall x :: x in NamespacedRun(es, less).current.experiments <==> InLatest(es, Experiments, x)
  {
    hide SameSnapshot, StrictTotal, Watchable, Legal, Ascending, InLatest, NoRepeats, Ticked, Run;
    CanonicalMerge(watch, es, less, Experiments);
    NamespacedIsALoop(es, less);
    EmissionAgrees(LoopEvents(es, less));
  }

  // ----- the simple emitter -----

  /** The resources of one kind, in order. */
  function OfKind(list: seq<Resource>, kind: Option<Kind>): seq<Resource> {
    if list == [] then []
    else
      var last := list[|list| - 1];
      OfKind(list[..|list| - 1], kind) + if KindOf(last) == kind then [last] else []
  }

  function KindOf(x: Resource): Option<Kind> {
    match x case AnExperiment(_) => Some(Experiments) case AReport(_) => Some(Reports) case AnOther(_, _) => None
  }

  function Typed(list: seq<Resource>): Snapshot {
    Snapshot(OfKind(list, Some(Experiments)), OfKind(list, Some(Reports)))
  }

  lemma CountAppend(list: seq<Resource>, last: Resource, x: Resource)
    ensures multiset(list + [last])[x] == multiset(list)[x] + if last == x then 1 else 0
  {
  }

  /** Each of the three places gets the resources of its type, each as often as the list has it, and no other. */
  lemma {:induction false} OfKindExactly(list: seq<Resource>, kind: Option<Kind>, x: Resource)
    ensures multiset(OfKind(list, kind))[x] == if KindOf(x) == kind then multiset(list)[x] else 0
  {
    if list != [] {
      var init, last := list[..|list| - 1], list[|list| - 1];
      OfKindExactly(init, kind, x);
      assert list == init + [last];
      CountAppend(init, last, x);
      CountAppend(OfKind(init, kind), last, x);
    }
  }

  /** Two lists after each other are sorted one after the other, so nothing changes places. */
  lemma {:induction false} OfKindKeepsOrder(xs: seq<Resource>, ys: seq<Resource>, kind: Option<Kind>)
    ensures OfKind(xs + ys, kind) == OfKind(xs, kind) + OfKind(ys, kind)
  {
    if ys == [] {
      assert xs + ys == xs;
    } else {
      assert (xs + ys)[..|xs + ys| - 1] == xs + ys[..|ys| - 1];
      OfKindKeepsOrder(xs, ys[..|ys| - 1], kind);
    }
  }

  /** The two lists of a snapshot have the experiments and the reports of the list, each as often, in its order. */
  lemma {:induction false} TypedExactly(xs: seq<Resource>, ys: seq<Resource>, x: Resource)
    ensures multiset(Typed(xs).experiments)[x] == if x.AnExperiment? then multiset(xs)[x] else 0
    ensures multiset(Typed(xs).reports)[x] == if x.AReport? then multiset(xs)[x] else 0
    ensures Typed(xs + ys).experiments == Typed(xs).experiments + Typed(ys).experiments
    ensures Typed(xs + ys).reports == Typed(xs).reports + Typed(ys).reports
  {
    OfKindExactly(xs, Some(Experiments), x);
    OfKindExactly(xs, Some(Reports), x);
    OfKindKeepsOrder(xs, ys, Some(Experiments));
    OfKindKeepsOrder(xs, ys, Some(Reports));
  }

  function SimpleEvents(es: seq<Feed<seq<Resource>>>): seq<Event> {
    if es == [] then []
    else
      SimpleEvents(es[..|es| - 1]) + [
        match es[|es| - 1] case Timer => Tick case Emit => Force case Deliver(list) => Update(Typed(list))]
  }

  function LastUntyped(es: seq<Feed<seq<Resource>>>): seq<Resource> {
    if es == [] then []
    else if es[|es| - 1].Deliver? then es[|es| - 1].d
    else LastUntyped(es[..|es| - 1])
  }

  lemma {:induction false} SimpleCurrent(es: seq<Feed<seq<Resource>>>)
    ensures Latest(SimpleEvents(es)) == Typed(LastUntyped(es))
  {
    if es != [] {
      SimpleCurrent(es[..|es| - 1]);
      var all := SimpleEvents(es);
      assert all[..|all| - 1] == SimpleEvents(es[..|es| - 1]);
    }
  }

  /**
   After a tick of the simple emitter, what the timer last sent has, position by position, the keys, specs,
   results and contents of the last list, sorted by type.
   */
  lemma {:induction false} SimpleAgrees(es: seq<Feed<seq<Resource>>>)
    requires es != [] && es[|es| - 1] == Timer
    ensures SameSnapshot(LastOf(Ticked(Run(SimpleEvents(es)).log)), Typed(LastUntyped(es)))
    ensures NoRepeats(Ticked(Run(SimpleEvents(es)).log))
  {
    hide SameSnapshot, NoRepeats, Ticked, Run, Typed;
    SimpleCurrent(es);
    EmissionAgrees(SimpleEvents(es));
  }
}
