/**
 The namespaced emitter on the heap: snapshots point to experiment objects, the
 watches hand over objects, and consumers edit the objects they are sent. What the
 emitter keeps follows the emission loop on values, whatever the consumers do.
 */
module EmitterObjects {
  import opened Types
  import opened Emission
  import opened Emitters

  /** A snapshot as it is: pointers to experiments. Reports are kept as values. */
  datatype Pointers = Pointers(experiments: seq<Experiment>, reports: seq<Resource>)

  function Resources(list: seq<Experiment>): (r: seq<Resource>)
    reads list
    ensures |r| == |list|
    ensures forall i :: 0 <= i < |list| ==> r[i] == AnExperiment(list[i].View())
  {
    seq(|list|, i requires 0 <= i < |list| reads list => AnExperiment(list[i].View()))
  }

  function Deref(p: Pointers): Snapshot
    reads p.experiments
  {
    Snapshot(Resources(p.experiments), p.reports)
  }

  lemma ResourcesAppend(xs: seq<Experiment>, ys: seq<Experiment>)
    ensures Resources(xs + ys) == Resources(xs) + Resources(ys)
  {
  }

  ghost function Members(list: seq<Experiment>): set<Experiment> {
    set e | e in list
  }

  /** `ExperimentList.Clone`: every experiment is copied. */
  method CloneList(list: seq<Experiment>) returns (copy: seq<Experiment>)
    ensures Resources(copy) == Resources(list) && Distinct(copy)
    ensures forall e :: e in copy ==> fresh(e)
  {
    copy := [];
    for k := 0 to |list|
      invariant |copy| == k && Distinct(copy) && forall e :: e in copy ==> fresh(e)
      invariant forall i :: 0 <= i < k ==> copy[i].View() == list[i].View()
    {
      var e := new Experiment(list[k].View());
      copy := copy + [e];
    }
  }

  /** `ApiSnapshot.Clone`: the copy shares no experiment with anything that was there before. */
  method Clone(p: Pointers, ghost others: set<Experiment>) returns (q: Pointers)
    ensures Deref(q) == Deref(p)
    ensures fresh(Members(q.experiments)) && others !! Members(q.experiments) && Distinct(q.experiments)
  {
    var copy := CloneList(p.experiments);
    q := Pointers(copy, p.reports);
  }

  method CloneTwice(p: Pointers, ghost others: set<Experiment>) returns (one: Pointers, two: Pointers)
    ensures Deref(one) == Deref(p) && Deref(two) == Deref(p)
    ensures fresh(Members(one.experiments)) && fresh(Members(two.experiments))
    ensures others !! Members(one.experiments) !! Members(two.experiments) && Distinct(two.experiments)
  {
    one := Clone(p, others);
    two := Clone(p, others + Members(one.experiments));
  }

  lemma {:induction false} InsertFrom(x: Resource, xs: seq<Resource>, less: (Ref, Ref) -> bool, p: nat)
    requires p <= |xs| && (p == 0 || !less(Key(x), Key(xs[p - 1])))
    requires forall i :: p <= i < |xs| ==> less(Key(x), Key(xs[i]))
    ensures Insert(x, xs, less) == xs[..p] + [x] + xs[p..]
  {
    if p < |xs| {
      var init, last := xs[..|xs| - 1], xs[|xs| - 1];
      InsertFrom(x, init, less, p);
      assert xs[..p] == init[..p] && xs[p..] == init[p..] + [last];
    } else {
      assert xs[..p] == xs;
    }
  }

  method InsertByKey(x: Experiment, xs: seq<Experiment>, less: (Ref, Ref) -> bool) returns (r: seq<Experiment>)
    ensures Resources(r) == Insert(AnExperiment(x.View()), Resources(xs), less)
    ensures forall e :: e in r ==> e == x || e in xs
  {
    var p := |xs|;
    while p > 0 && less(x.ref, xs[p - 1].ref)
      invariant 0 <= p <= |xs|
      invariant forall i :: p <= i < |xs| ==> less(x.ref, xs[i].ref)
    {
      p := p - 1;
    }
    InsertFrom(AnExperiment(x.View()), Resources(xs), less, p);
    r := xs[..p] + [x] + xs[p..];
  }

  /** `ExperimentList.Sort`: a stable sort of the pointers by key. */
  method SortByKey(list: seq<Experiment>, less: (Ref, Ref) -> bool) returns (sorted: seq<Experiment>)
    ensures Resources(sorted) == Sort(Resources(list), less)
    ensures Members(sorted) <= Members(list)
  {
    hide Insert;
    sorted := [];
    for k := 0 to |list|
      invariant Resources(sorted) == Sort(Resources(list[..k]), less)
      invariant forall e :: e in sorted ==> e in list
    {
      assert Resources(list[..k + 1])[..k] == Resources(list[..k]);
      sorted := InsertByKey(list[k], sorted, less);
    }
    assert list[..|list|] == list;
  }

  /** `ReportList.Sort`. */
  method SortReports(list: seq<Resource>, less: (Ref, Ref) -> bool) returns (sorted: seq<Resource>)
    ensures sorted == Sort(list, less)
  {
    sorted := [];
    for k := 0 to |list|
      invariant sorted == Sort(list[..k], less)
    {
      assert list[..k + 1][..k] == list[..k];
      sorted := Insert(list[k], sorted, less);
    }
    assert list[..|list|] == list;
  }

  /** The merging loop: a range over the map, in whatever order. */
  method Append<T>(m: map<string, seq<T>>) returns (list: seq<T>, ghost order: seq<string>)
    ensures Iteration(m, order) && list == Concat(m, order)
  {
    list, order := [], [];
    var rest := m.Keys;
    while rest != {}
      invariant rest <= m.Keys && Distinct(order) && list == Concat(m, order)
      invariant forall ns :: ns in order <==> ns in m && ns !in rest
      decreases |rest|
    {
      var ns :| ns in rest;
      rest := rest - {ns};
      list := list + m[ns];
      order := order + [ns];
      assert order[..|order| - 1] + [ns] == order;
    }
  }

  lemma StepLoop(s: Loop)
    ensures Step(s, Force) == s.(log := s.log + [Sent(s.current, false)])
    ensures Hash(s.original) == Hash(s.current) ==> Step(s, Tick) == s
    ensures Hash(s.original) != Hash(s.current) ==>
      Step(s, Tick) == Loop(s.current, s.current, s.log + [Sent(s.current, true)])
    ensures forall snap :: Step(s, Update(snap)) == s.(current := snap)
  {
  }

  ghost function Objects(m: map<string, seq<Experiment>>): (r: set<Experiment>)
    ensures forall ns, e :: ns in m && e in m[ns] ==> e in r
  {
    set ns, e | ns in m && e in m[ns] :: e
  }

  method MergeReports(m: map<string, seq<Resource>>, less: (Ref, Ref) -> bool)
    returns (list: seq<Resource>, ghost order: seq<string>)
    ensures Iteration(m, order) && list == Merged(m, order, less)
  {
    list, order := Append(m);
    list := SortReports(list, less);
  }

  /** The pointers of a map are to the resources of a map of values. */
  ghost predicate CacheViews(m: map<string, seq<Experiment>>, caches: map<string, seq<Resource>>)
    reads Objects(m)
  {
    m.Keys == caches.Keys && forall ns :: ns in m ==> Resources(m[ns]) == caches[ns]
  }

  lemma {:induction false} ConcatViews(m: map<string, seq<Experiment>>, caches: map<string, seq<Resource>>, order: seq<string>)
    requires CacheViews(m, caches)
    ensures Resources(Concat(m, order)) == Concat(caches, order)
  {
    if order != [] {
      var init, ns := order[..|order| - 1], order[|order| - 1];
      ConcatViews(m, caches, init);
      assert ns in m.Keys <==> ns in caches.Keys;
      if ns in m {
        ResourcesAppend(Concat(m, init), m[ns]);
      }
    }
  }

  lemma {:induction false} ConcatObjects(m: map<string, seq<Experiment>>, order: seq<string>)
    ensures Members(Concat(m, order)) <= Objects(m)
  {
    if order != [] {
      ConcatObjects(m, order[..|order| - 1]);
    }
  }

  lemma StoreViews(m: map<string, seq<Experiment>>, caches: map<string, seq<Resource>>, ns: string, list: seq<Experiment>)
    requires CacheViews(m, caches)
    ensures CacheViews(m[ns := list], caches[ns := Resources(list)])
  {
  }

  lemma SameIterations(m: map<string, seq<Experiment>>, caches: map<string, seq<Resource>>, order: seq<string>)
    requires CacheViews(m, caches) && Iteration(m, order)
    ensures Iteration(caches, order)
  {
    assert forall ns :: ns in m.Keys <==> ns in caches.Keys;
  }

  lemma {:induction false} NamespacedAppend(es: seq<Feed<FromWatch>>, e: Feed<FromWatch>, less: (Ref, Ref) -> bool)
    ensures CachesAfter(es + [e])
         == if e.Deliver? then CachesAfter(es).Store(e.d.kind, e.d.ns, e.d.list) else CachesAfter(es)
    ensures NamespacedRun(es + [e], less)
         == Step(NamespacedRun(es, less), LoopEvent(NamespacedRun(es, less).current, CachesAfter(es + [e]), e, less))
  {
    assert (es + [e])[..|es|] == es;
  }

  /** The objects of the snapshots sent so far. */
  ghost function Given(sent: seq<Pointers>): set<Experiment> {
    if sent == [] then {} else Given(sent[..|sent| - 1]) + Members(sent[|sent| - 1].experiments)
  }

  lemma {:induction false} GivenAppend(sent: seq<Pointers>, p: Pointers)
    ensures Given(sent + [p]) == Given(sent) + Members(p.experiments)
  {
    assert (sent + [p])[..|sent|] == sent;
  }

  /** Every snapshot sent is made of objects of its own, each pointed to once. */
  ghost predicate SentAreClones(sent: seq<Pointers>) {
    sent == [] ||
    (var init, last := sent[..|sent| - 1], sent[|sent| - 1].experiments;
     SentAreClones(init) && Distinct(last) && Members(last) !! Given(init))
  }

  lemma {:induction false} ClonesAppend(sent: seq<Pointers>, p: Pointers)
    requires SentAreClones(sent) && Distinct(p.experiments) && Members(p.experiments) !! Given(sent)
    ensures SentAreClones(sent + [p])
  {
    assert (sent + [p])[..|sent|] == sent;
  }

  lemma {:induction false} ClonesAt(sent: seq<Pointers>, j: nat, k: nat, e: Experiment)
    requires SentAreClones(sent) && k < |sent|
    ensures Distinct(sent[k].experiments)
    ensures j < k && e in sent[j].experiments ==> e !in sent[k].experiments
  {
    var init := sent[..|sent| - 1];
    if k < |sent| - 1 {
      ClonesAt(init, j, k, e);
    } else if j < k && e in sent[j].experiments {
      var i :| 0 <= i < |init[j].experiments| && init[j].experiments[i] == e;
      GivenHas(init, j, i);
    }
  }

  /** The lists of experiments that were sent. */
  function SentLists(sent: seq<Pointers>): (r: seq<seq<Experiment>>)
    ensures |r| == |sent| && forall k :: 0 <= k < |sent| ==> r[k] == sent[k].experiments
  {
    seq(|sent|, k requires 0 <= k < |sent| => sent[k].experiments)
  }

  /** What an emitter sends is what the event loop relies on: clones throughout. */
  lemma {:induction false} SentIsAllClones(sent: seq<Pointers>)
    requires SentAreClones(sent)
    ensures AllClones(SentLists(sent))
  {
    hide SentAreClones;
    forall k | 0 <= k < |sent| ensures Distinct(sent[k].experiments) {
      forall e: Experiment | e in sent[k].experiments {
        ClonesAt(sent, k, k, e);
      }
      if sent[k].experiments != [] {
        ClonesAt(sent, k, k, sent[k].experiments[0]);
      }
    }
    forall j, k, e | 0 <= j < k < |sent| && e in sent[j].experiments ensures e !in sent[k].experiments {
      ClonesAt(sent, j, k, e);
    }
  }

  lemma {:induction false} GivenHas(sent: seq<Pointers>, k: nat, i: nat)
    requires k < |sent| && i < |sent[k].experiments|
    ensures sent[k].experiments[i] in Given(sent)
  {
    if k < |sent| - 1 {
      GivenHas(sent[..|sent| - 1], k, i);
    }
  }

  lemma ObjectsStore(m: map<string, seq<Experiment>>, ns: string, list: seq<Experiment>)
    ensures Objects(m[ns := list]) <= Objects(m) + Members(list)
  {
  }

  /** The fields of an emitter, and its history: what the loop took up, and the snapshots as they were when sent. */
  datatype Fields = Fields(original: Pointers, current: Pointers, experiments: map<string, seq<Experiment>>,
                           reports: map<string, seq<Resource>>, sent: seq<Pointers>,
                           feed: seq<Feed<FromWatch>>, log: seq<Sent>)

  ghost function Held(f: Fields): set<Experiment> {
    Members(f.original.experiments) + Members(f.current.experiments) + Objects(f.experiments)
  }

  /** The loop's state, by value. */
  ghost function Views(f: Fields): Loop
    reads Held(f)
  {
    Loop(Deref(f.original), Deref(f.current), f.log)
  }

  /** No consumer holds an object of the emitter, and the emitter's own follow the loop on values. */
  ghost predicate Follows(f: Fields, less: (Ref, Ref) -> bool)
    reads Held(f)
  {
    && Held(f) !! Given(f.sent) && SentAreClones(f.sent)
    && CacheViews(f.experiments, CachesAfter(f.feed).experiments)
    && f.reports == CachesAfter(f.feed).reports
    && Views(f) == NamespacedRun(f.feed, less)
  }

  lemma QuietTickFollows(f: Fields, less: (Ref, Ref) -> bool)
    requires Follows(f, less) && Hash(Deref(f.original)) == Hash(Deref(f.current))
    ensures Follows(f.(feed := f.feed + [Timer]), less)
  {
    hide Hash, NamespacedRun, CachesAfter, CacheViews, Given, Step;
    StepLoop(Views(f));
    NamespacedAppend(f.feed, Timer, less);
  }

  lemma TickFollows(f: Fields, less: (Ref, Ref) -> bool, kept: Pointers, copy: Pointers)
    requires Follows(f, less) && Hash(Deref(f.original)) != Hash(Deref(f.current))
    requires Deref(kept) == Deref(f.current)
    requires Members(kept.experiments) !! Given(f.sent)
    requires Members(copy.experiments) !! Held(f) + Members(kept.experiments)
    requires Distinct(copy.experiments) && Members(copy.experiments) !! Given(f.sent)
    ensures Follows(f.(original := kept, sent := f.sent + [copy], feed := f.feed + [Timer],
                       log := f.log + [Sent(Deref(f.current), true)]), less)
  {
    hide Hash, NamespacedRun, CachesAfter, CacheViews, Given, SentAreClones, Step, Deref, Members, Objects;
    StepLoop(Views(f));
    NamespacedAppend(f.feed, Timer, less);
    GivenAppend(f.sent, copy);
    ClonesAppend(f.sent, copy);
  }

  lemma ForceFollows(f: Fields, less: (Ref, Ref) -> bool, copy: Pointers)
    requires Follows(f, less) && Members(copy.experiments) !! Held(f)
    requires Distinct(copy.experiments) && Members(copy.experiments) !! Given(f.sent)
    ensures Follows(f.(sent := f.sent + [copy], feed := f.feed + [Emit],
                       log := f.log + [Sent(Deref(f.current), false)]), less)
  {
    hide Hash, NamespacedRun, CachesAfter, CacheViews, Given, SentAreClones, Step, Deref, Members, Objects;
    StepLoop(Views(f));
    NamespacedAppend(f.feed, Emit, less);
    GivenAppend(f.sent, copy);
    ClonesAppend(f.sent, copy);
  }

  lemma {:induction false} ExperimentsFollow(f: Fields, less: (Ref, Ref) -> bool, ns: string, list: seq<Experiment>,
                          merged: seq<Experiment>, order: seq<string>)
    requires Follows(f, less) && Members(list) !! Given(f.sent)
    requires Iteration(f.experiments[ns := list], order)
    requires Resources(merged) == Sort(Resources(Concat(f.experiments[ns := list], order)), less)
    requires Members(merged) <= Objects(f.experiments[ns := list])
    ensures Iteration(CachesAfter(f.feed + [Deliver(FromWatch(Experiments, ns, Resources(list), order))]).experiments, order)
    ensures Follows(f.(current := f.current.(experiments := merged), experiments := f.experiments[ns := list],
                       feed := f.feed + [Deliver(FromWatch(Experiments, ns, Resources(list), order))]), less)
  {
    hide Hash, NamespacedRun, CachesAfter, CacheViews, Given, Step, Members, Objects, Iteration, Sort, Concat, Resources;
    var caches, m := CachesAfter(f.feed).experiments, f.experiments[ns := list];
    StepLoop(Views(f));
    NamespacedAppend(f.feed, Deliver(FromWatch(Experiments, ns, Resources(list), order)), less);
    ObjectsStore(f.experiments, ns, list);
    StoreViews(f.experiments, caches, ns, list);
    SameIterations(m, caches[ns := Resources(list)], order);
    ConcatViews(m, caches[ns := Resources(list)], order);
  }

  lemma ReportsFollow(f: Fields, less: (Ref, Ref) -> bool, ns: string, list: seq<Resource>, order: seq<string>)
    requires Follows(f, less) && Iteration(f.reports[ns := list], order)
    ensures Iteration(CachesAfter(f.feed + [Deliver(FromWatch(Reports, ns, list, order))]).reports, order)
    ensures Follows(f.(current := f.current.(reports := Merged(f.reports[ns := list], order, less)),
                       reports := f.reports[ns := list],
                       feed := f.feed + [Deliver(FromWatch(Reports, ns, list, order))]), less)
  {
    hide Hash, NamespacedRun, CachesAfter, CacheViews, Given, Step, Members, Objects, Merged, Resources;
    StepLoop(Views(f));
    NamespacedAppend(f.feed, Deliver(FromWatch(Reports, ns, list, order)), less);
  }

  class ApiEmitter {
    const less: (Ref, Ref) -> bool
    var original: Pointers
    var current: Pointers
    var experimentsByNamespace: map<string, seq<Experiment>>
    var reportsByNamespace: map<string, seq<Resource>>
    /** What went down the snapshots channel; consumers keep the pointers. */
    var sent: seq<Pointers>
    ghost var feed: seq<Feed<FromWatch>>
    ghost var log: seq<Sent>

    ghost function State(): Fields
      reads this
    {
      Fields(original, current, experimentsByNamespace, reportsByNamespace, sent, feed, log)
    }

    ghost predicate Valid()
      reads this, Held(State())
    {
      Follows(State(), less)
    }

    constructor (less: (Ref, Ref) -> bool)
      ensures Valid() && sent == [] && feed == [] && this.less == less
    {
      this.less := less;
      original, current := Pointers([], []), Pointers([], []);
      experimentsByNamespace, reportsByNamespace := map[], map[];
      sent, feed, log := [], [], [];
    }

    /** The sync closure, run by the timer. */
    method Sync()
      requires Valid()
      modifies this
      ensures Valid() && feed == old(feed) + [Timer] && current == old(current)
      ensures Hash(old(Deref(original))) == Hash(old(Deref(current))) ==> sent == old(sent) && log == old(log)
      ensures Hash(old(Deref(original))) != Hash(old(Deref(current))) ==>
        && log == old(log) + [Sent(old(Deref(current)), true)]
        && |sent| > 0 && sent[..|sent| - 1] == old(sent) && Deref(sent[|sent| - 1]) == old(Deref(current))
      ensures fresh(Given(sent) - old(Given(sent)))
    {
      hide Hash, NamespacedRun, CachesAfter, Given, SentAreClones, Distinct, Objects, Deref, Members;
      if Hash(Deref(original)) == Hash(Deref(current)) {
        QuietTickFollows(State(), less);
        feed := feed + [Timer];
        return;
      }
      var kept, copy := CloneTwice(current, Given(sent) + Held(State()));
      TickFollows(State(), less, kept, copy);
      GivenAppend(sent, copy);
      feed, log, original, sent := feed + [Timer], log + [Sent(Deref(current), true)], kept, sent + [copy];
    }

    method ForceEmit()
      requires Valid()
      modifies this
      ensures Valid() && feed == old(feed) + [Emit] && original == old(original) && current == old(current)
      ensures log == old(log) + [Sent(old(Deref(current)), false)]
      ensures |sent| > 0 && sent[..|sent| - 1] == old(sent) && Deref(sent[|sent| - 1]) == old(Deref(current))
      ensures fresh(Given(sent) - old(Given(sent)))
    {
      hide Hash, NamespacedRun, CachesAfter, Given, SentAreClones, Distinct, Objects, Deref, Members;
      var copy := Clone(current, Given(sent) + Held(State()));
      ForceFollows(State(), less, copy);
      GivenAppend(sent, copy);
      feed, log, sent := feed + [Emit], log + [Sent(Deref(current), false)], sent + [copy];
    }

    method ReceiveExperiments(ns: string, list: seq<Experiment>) returns (ghost order: seq<string>)
      requires Valid() && Members(list) !! Given(sent)
      modifies this
      ensures Valid() && feed == old(feed) + [Deliver(FromWatch(Experiments, ns, Resources(list), order))]
      ensures Iteration(CachesAfter(feed).experiments, order)
      ensures sent == old(sent) && log == old(log) && original == old(original)
    {
      hide Hash, NamespacedRun, CachesAfter, Given, SentAreClones, Distinct, Objects, Deref, Members, Iteration, Concat, Sort;
      var m := experimentsByNamespace[ns := list];
      var all;
      all, order := Append(m);
      var merged := SortByKey(all, less);
      ConcatObjects(m, order);
      ExperimentsFollow(State(), less, ns, list, merged, order);
      feed, experimentsByNamespace := feed + [Deliver(FromWatch(Experiments, ns, Resources(list), order))], m;
      current := current.(experiments := merged);
    }

    method ReceiveReports(ns: string, list: seq<Resource>) returns (ghost order: seq<string>)
      requires Valid()
      modifies this
      ensures Valid() && feed == old(feed) + [Deliver(FromWatch(Reports, ns, list, order))]
      ensures Iteration(CachesAfter(feed).reports, order)
      ensures sent == old(sent) && log == old(log) && original == old(original)
    {
      hide Hash, NamespacedRun, CacheViews, Given, SentAreClones, Iteration, Merged, CachesAfter;
      var m := reportsByNamespace[ns := list];
      var merged;
      merged, order := MergeReports(m, less);
      ReportsFollow(State(), less, ns, list, order);
      feed, reportsByNamespace := feed + [Deliver(FromWatch(Reports, ns, list, order))], m;
      current := current.(reports := merged);
    }

    /** Any edit, by a consumer, of an experiment in a snapshot it was sent. */
    method ConsumerEdit(k: nat, i: nat, e: Exp)
      requires Valid() && k < |sent| && i < |sent[k].experiments| && e.ref == sent[k].experiments[i].ref
      modifies sent[k].experiments[i]
      ensures Valid() && Deref(original) == old(Deref(original)) && Deref(current) == old(Deref(current))
    {
      hide Hash, NamespacedRun, CachesAfter, Given, SentAreClones;
      GivenHas(sent, k, i);
      sent[k].experiments[i].Assign(e);
    }
  }

  // ----- an emitter among its consumers -----

  /** The loop takes something up, or a consumer edits experiment i of the k-th snapshot sent. */
  datatype Turn = Take(e: Feed<FromWatch>) | Edit(k: nat, i: nat, exp: Exp)

  /** What the loop takes up; the edits are not part of it. */
  function Taken(turns: seq<Turn>): seq<Feed<FromWatch>> {
    if turns == [] then []
    else Taken(turns[..|turns| - 1]) + if turns[|turns| - 1].Take? then [turns[|turns| - 1].e] else []
  }

  ghost predicate WatchTyped(watch: seq<string>, t: Turn) {
    t.Take? && t.e.Deliver? ==>
      && t.e.d.ns in watch && Owned(t.e.d.ns, t.e.d.list)
      && (t.e.d.kind == Experiments ==> forall x :: x in t.e.d.list ==> x.AnExperiment?)
  }

  /** The watch hands over objects of its own. */
  method Materialize(list: seq<Resource>, ghost others: set<Experiment>) returns (objects: seq<Experiment>)
    requires forall x :: x in list ==> x.AnExperiment?
    ensures Resources(objects) == list
    ensures fresh(Members(objects)) && others !! Members(objects)
  {
    objects := [];
    for k := 0 to |list|
      invariant |objects| == k && forall e :: e in objects ==> fresh(e) && e !in others
      invariant forall i :: 0 <= i < k ==> AnExperiment(objects[i].View()) == list[i]
    {
      var e := new Experiment(list[k].exp);
      objects := objects + [e];
    }
  }

  /** One turn: the loop's, or a consumer's. */
  method TakeTurn(em: ApiEmitter, t: Turn, ghost watch: seq<string>)
    requires em.Valid() && WatchTyped(watch, t)
    modifies em, Given(em.sent)
    ensures em.Valid() && fresh(Given(em.sent) - old(Given(em.sent)))
    ensures t.Edit? ==> em.feed == old(em.feed)
    ensures t.Take? ==>
      && |em.feed| == |old(em.feed)| + 1 && em.feed[..|em.feed| - 1] == old(em.feed)
      && Unordered(em.feed[|em.feed| - 1]) == Unordered(t.e)
      && (t.e.Deliver? ==> LegalDelivery(watch, CachesAfter(em.feed), em.feed[|em.feed| - 1].d))
  {
    hide Hash, NamespacedRun, CachesAfter, Given, SentAreClones, Distinct, Objects, Deref, Members, Owned, Iteration;
    match t
    case Take(Timer) => em.Sync();
    case Take(Emit) => em.ForceEmit();
    case Take(Deliver(FromWatch(Experiments, ns, list, _))) =>
      var objects := Materialize(list, Given(em.sent));
      var _ := em.ReceiveExperiments(ns, objects);
    case Take(Deliver(FromWatch(Reports, ns, list, _))) =>
      var _ := em.ReceiveReports(ns, list);
    case Edit(k, i, e) =>
      if k < |em.sent| && i < |em.sent[k].experiments| && e.ref == em.sent[k].experiments[i].ref {
        GivenHas(em.sent, k, i);
        em.ConsumerEdit(k, i, e);
      }
  }

  lemma {:induction false} SameTwice(one: seq<Feed<FromWatch>>, two: seq<Feed<FromWatch>>, three: seq<Feed<FromWatch>>)
    requires SameButOrder(one, two) && SameButOrder(two, three)
    ensures SameButOrder(one, three)
  {
    if one != [] {
      SameTwice(one[..|one| - 1], two[..|two| - 1], three[..|three| - 1]);
    }
  }

  lemma {:induction false} FeedStep(watch: seq<string>, one: seq<Feed<FromWatch>>, two: seq<Feed<FromWatch>>,
                 e: Feed<FromWatch>, f: Feed<FromWatch>)
    requires SameButOrder(one, two) && Unordered(e) == Unordered(f)
    requires Legal(watch, one) && (e.Deliver? ==> LegalDelivery(watch, CachesAfter(one + [e]), e.d))
    ensures SameButOrder(one + [e], two + [f]) && Legal(watch, one + [e])
  {
    hide LegalDelivery, CachesAfter;
    assert (one + [e])[..|one|] == one && (two + [f])[..|two|] == two;
  }

  lemma {:induction false} StartLegal(watch: seq<string>)
    ensures Legal(watch, []) && SameButOrder([], Taken([]))
  {
  }

  lemma NothingGiven()
    ensures Given([]) == {}
  {
  }

  lemma TakenStep(turns: seq<Turn>, k: nat)
    requires k < |turns|
    ensures turns[k].Take? ==> Taken(turns[..k + 1]) == Taken(turns[..k]) + [turns[k].e]
    ensures turns[k].Edit? ==> Taken(turns[..k + 1]) == Taken(turns[..k])
  {
    assert turns[..k + 1][..k] == turns[..k];
  }

  /**
   Isolation: an emitter whose consumers edit what they were sent, at any time, ends
   with the two snapshots, and has sent the snapshots, of the run on values without
   any edit, however the maps are iterated in either.
   */
  method Serve(em: ApiEmitter, turns: seq<Turn>, ghost watch: seq<string>, ghost es: seq<Feed<FromWatch>>)
    requires em.Valid() && em.feed == [] && em.sent == []
    requires Watchable(watch) && StrictTotal(em.less) && forall t :: t in turns ==> WatchTyped(watch, t)
    requires Legal(watch, es) && SameButOrder(Taken(turns), es)
    modifies em
    ensures em.Valid()
    ensures Deref(em.original) == NamespacedRun(es, em.less).original
    ensures Deref(em.current) == NamespacedRun(es, em.less).current
    ensures em.log == NamespacedRun(es, em.less).log
  {
    hide Given, Objects, CachesAfter, Deref, Members, Owned, Iteration, StrictTotal, Watchable, NamespacedRun, WatchTyped;
    hide LegalDelivery, Legal, SameButOrder, Taken, Hash;
    NothingGiven();
    StartLegal(watch);
    for k := 0 to |turns|
      invariant em.Valid() && fresh(Given(em.sent))
      invariant Legal(watch, em.feed) && SameButOrder(em.feed, Taken(turns[..k]))
    {
      TakenStep(turns, k);
      ghost var before, given := em.feed, Given(em.sent);
      label Before:
      TakeTurn(em, turns[k], watch);
      assert fresh@Before(Given(em.sent) - given);
      forall o | o in Given(em.sent) ensures fresh(o) {
        if o !in given {
          assert !old@Before(allocated(o));
        }
      }
      if turns[k].Take? {
        ghost var e := em.feed[|em.feed| - 1];
        assert em.feed == before + [e];
        FeedStep(watch, before, Taken(turns[..k]), e, turns[k].e);
      }
    }
    assert turns[..|turns|] == turns;
    SameTwice(em.feed, Taken(turns), es);
    MapOrderLeavesNoTrace(watch, em.feed, es, em.less);
  }
}
