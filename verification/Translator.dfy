/**
 Translation of experiments to routing rules. The mesh client is a fixed store;
 the reconciler that consumes the desired rules is outside this model.
 */
module Translator {
  import opened Types
  import opened RuleNames
  import S = Starter

  const ROUTING_RULE_LABEL_KEY := "glooshot-experiment"

  /** The mesh resources the client can read, or none if the client fails. */
  datatype MeshStore = Up(meshes: seq<Ref>) | Down

  datatype Cause =
    StoreDown | MeshNotFound(mesh: Ref) | NoMesh(ns: string) | ManyMeshes(count: nat, ns: string)
    | NilRef | EmptyInjection

  /** A cause, wrapped with the experiment and the fault index it arose for. */
  datatype Failure = For(experiment: Ref, index: nat, cause: Cause)

  datatype Rule = Rule(ref: Ref, labels: map<string, string>, mesh: Ref,
                       source: Option<seq<Ref>>, destination: Option<seq<Ref>>, fault: Fault)

  /** The store the sweep runs against and the namespace where default meshes are looked up. */
  datatype Config = Config(store: MeshStore, meshNs: string)

  /** Listing with the empty namespace lists all of them. */
  function ListIn(meshes: seq<Ref>, ns: string): seq<Ref> {
    if meshes == [] then []
    else (if ns == "" || meshes[0].ns == ns then [meshes[0]] else []) + ListIn(meshes[1..], ns)
  }

  function TargetMesh(c: Config, entry: Option<Ref>): Result<Ref, Cause> {
    if c.store.Down? then Err(StoreDown)
    else if entry.Some? then
      if entry.value in c.store.meshes then Ok(entry.value) else Err(MeshNotFound(entry.value))
    else
      var found := ListIn(c.store.meshes, c.meshNs);
      if |found| == 0 then Err(NoMesh(c.meshNs))
      else if |found| > 1 then Err(ManyMeshes(|found|, c.meshNs))
      else Ok(found[0])
  }

  function Upstreams(refs: seq<Option<Ref>>): (r: seq<Ref>)
    requires None !in refs
    ensures |r| == |refs| && forall k :: 0 <= k < |refs| ==> Some(r[k]) == refs[k]
  {
    if refs == [] then [] else Upstreams(refs[..|refs| - 1]) + [refs[|refs| - 1].value]
  }

  /** No selector for an empty list; an error as soon as one reference is nil. */
  function Selector(refs: seq<Option<Ref>>): Result<Option<seq<Ref>>, Cause> {
    if refs == [] then Ok(None)
    else if None in refs then Err(NilRef)
    else Ok(Some(Upstreams(refs)))
  }

  method SelectorFromRefs(refs: seq<Option<Ref>>) returns (r: Result<Option<seq<Ref>>, Cause>)
    ensures r == Selector(refs)
  {
    if |refs| == 0 {
      return Ok(None);
    }
    var upstreams := [];
    for k := 0 to |refs|
      invariant None !in refs[..k] && upstreams == Upstreams(refs[..k])
    {
      if refs[k] == None {
        return Err(NilRef);
      }
      assert refs[..k + 1][..k] == refs[..k];
      upstreams := upstreams + [refs[k].value];
    }
    assert refs[..|refs|] == refs;
    return Ok(Some(upstreams));
  }

  function FaultSpec(fault: Option<Fault>): Result<Fault, Cause> {
    if fault == None || fault == Some(EmptyFault) then Err(EmptyInjection) else Ok(fault.value)
  }

  function Labels(experiment: string): map<string, string> {
    map[ROUTING_RULE_LABEL_KEY := experiment, "created_by" := "glooshot"]
  }

  predicate HasFault(e: Exp, index: nat) {
    e.spec.Some? && index < |e.spec.value.faults|
  }

  /** The rule of one fault, or the first cause that stops it: mesh, origins, destinations, fault. */
  function TranslateFault(c: Config, e: Exp, index: nat): Result<Rule, Failure>
    requires HasFault(e, index)
  {
    var f := e.spec.value.faults[index];
    match TargetMesh(c, e.spec.value.targetMesh)
    case Err(cause) => Err(For(e.ref, index, cause))
    case Ok(mesh) =>
      match Selector(f.origins)
      case Err(cause) => Err(For(e.ref, index, cause))
      case Ok(source) =>
        match Selector(f.destinations)
        case Err(cause) => Err(For(e.ref, index, cause))
        case Ok(destination) =>
          match FaultSpec(f.fault)
          case Err(cause) => Err(For(e.ref, index, cause))
          case Ok(fault) =>
            Ok(Rule(Ref(e.ref.ns, RuleName(e.ref.name, index)), Labels(e.ref.name), mesh, source, destination, fault))
  }

  method TranslateToRoutingRule(c: Config, e: Exp, index: nat) returns (r: Result<Option<Rule>, Failure>)
    requires HasFault(e, index)
    ensures r == if Concluded(e) then Ok(None)
                 else match TranslateFault(c, e, index) case Ok(rule) => Ok(Some(rule)) case Err(f) => Err(f)
  {
    if e.result.state == Failed || e.result.state == Succeeded {
      return Ok(None);
    }
    var name := RuleName(e.ref.name, index);
    var f := e.spec.value.faults[index];
    var mesh := TargetMesh(c, e.spec.value.targetMesh);
    if mesh.Err? {
      return Err(For(e.ref, index, mesh.error));
    }
    var source := SelectorFromRefs(f.origins);
    if source.Err? {
      return Err(For(e.ref, index, source.error));
    }
    var destination := SelectorFromRefs(f.destinations);
    if destination.Err? {
      return Err(For(e.ref, index, destination.error));
    }
    var fault := FaultSpec(f.fault);
    if fault.Err? {
      return Err(For(e.ref, index, fault.error));
    }
    return Ok(Some(Rule(Ref(e.ref.ns, name), Labels(e.ref.name), mesh.value,
                        source.value, destination.value, fault.value)));
  }

  // ----- the sweep over all experiments -----

  function FaultCount(e: Exp): nat {
    if e.spec == None then 0 else |e.spec.value.faults|
  }

  /** What translating the first m faults of one experiment yields, fault by fault. */
  function Row(c: Config, e: Exp, m: nat): (r: seq<Result<Rule, Failure>>)
    requires m <= FaultCount(e)
  {
    if Concluded(e) then [] else seq(m, i requires 0 <= i < m => TranslateFault(c, e, i))
  }

  /** The outcome of every fault of the first n experiments that are not concluded, in iteration order. */
  function Outcomes(c: Config, exps: seq<Exp>, n: nat): seq<Result<Rule, Failure>>
    requires n <= |exps|
  {
    if n == 0 then [] else Outcomes(c, exps, n - 1) + Row(c, exps[n - 1], FaultCount(exps[n - 1]))
  }

  /** All rules, or the first failure. */
  function Collect(outcomes: seq<Result<Rule, Failure>>): Result<seq<Rule>, Failure> {
    if outcomes == [] then Ok([])
    else
      match Collect(outcomes[..|outcomes| - 1])
      case Err(f) => Err(f)
      case Ok(rules) =>
        match outcomes[|outcomes| - 1] case Err(f) => Err(f) case Ok(rule) => Ok(rules + [rule])
  }

  function Translate(c: Config, exps: seq<Exp>): Result<seq<Rule>, Failure> {
    Collect(Outcomes(c, exps, |exps|))
  }

  lemma CollectNothing()
    ensures Collect([]) == Ok([])
  {
  }

  lemma {:induction false} CollectNext(outcomes: seq<Result<Rule, Failure>>, o: Result<Rule, Failure>)
    requires Collect(outcomes).Ok?
    ensures Collect(outcomes + [o])
         == match o case Err(f) => Err(f) case Ok(rule) => Ok(Collect(outcomes).value + [rule])
  {
    assert (outcomes + [o])[..|outcomes|] == outcomes;
  }

  lemma {:induction false} FailureIsFinal(outcomes: seq<Result<Rule, Failure>>, more: seq<Result<Rule, Failure>>)
    requires Collect(outcomes).Err?
    ensures Collect(outcomes + more) == Collect(outcomes)
  {
    if more == [] {
      assert outcomes + more == outcomes;
    } else {
      assert (outcomes + more)[..|outcomes + more| - 1] == outcomes + more[..|more| - 1];
      FailureIsFinal(outcomes, more[..|more| - 1]);
    }
  }

  lemma RowPrefix(c: Config, e: Exp, m: nat)
    requires m <= FaultCount(e)
    ensures var all, part := Row(c, e, FaultCount(e)), Row(c, e, m);
            |part| <= |all| && all == part + all[|part|..]
  {
    hide TranslateFault;
  }

  lemma {:induction false} RowFailureIsFinal(c: Config, e: Exp, m: nat, before: seq<Result<Rule, Failure>>)
    requires m <= FaultCount(e) && Collect(before + Row(c, e, m)).Err?
    ensures Collect(before + Row(c, e, FaultCount(e))) == Collect(before + Row(c, e, m))
  {
    hide Collect, TranslateFault;
    var all, part := Row(c, e, FaultCount(e)), Row(c, e, m);
    RowPrefix(c, e, m);
    assert before + all == before + part + all[|part|..];
    FailureIsFinal(before + part, all[|part|..]);
  }

  lemma {:induction false} ExperimentFailureIsFinal(c: Config, exps: seq<Exp>, m: nat, n: nat)
    requires m <= n <= |exps| && Collect(Outcomes(c, exps, m)).Err?
    ensures Collect(Outcomes(c, exps, n)) == Collect(Outcomes(c, exps, m))
  {
    if m < n {
      ExperimentFailureIsFinal(c, exps, m, n - 1);
      var before, row := Outcomes(c, exps, n - 1), Row(c, exps[n - 1], FaultCount(exps[n - 1]));
      assert Outcomes(c, exps, n) == before + row;
      FailureIsFinal(before, row);
    }
  }

  /** The inner loop: one experiment's faults, appended to the rules so far. */
  method TranslateExperiment(c: Config, e: Exp, rules: seq<Rule>, ghost before: seq<Result<Rule, Failure>>)
    returns (r: Result<seq<Rule>, Failure>)
    requires e.spec.Some? && Collect(before) == Ok(rules)
    ensures r == Collect(before + Row(c, e, FaultCount(e)))
  {
    var rrs := rules;
    assert before + Row(c, e, 0) == before;
    for i := 0 to |e.spec.value.faults|
      invariant Collect(before + Row(c, e, i)) == Ok(rrs)
    {
      var rr := TranslateToRoutingRule(c, e, i);
      ghost var seen := before + Row(c, e, i);
      if Concluded(e) {
        assert Row(c, e, i + 1) == Row(c, e, i);
      } else {
        assert before + Row(c, e, i + 1) == seen + [TranslateFault(c, e, i)];
        CollectNext(seen, TranslateFault(c, e, i));
      }
      if rr.Err? {
        RowFailureIsFinal(c, e, i + 1, before);
        return Err(rr.error);
      }
      if rr.value.Some? {
        rrs := rrs + [rr.value.value];
      }
    }
    return Ok(rrs);
  }

  /** `translateExperimentsToRoutingRules`. */
  method TranslateExperiments(c: Config, list: seq<Experiment>) returns (r: Result<seq<Rule>, Failure>)
    ensures r == Translate(c, Views(list))
  {
    hide Collect, TranslateFault;
    CollectNothing();
    var rrs := [];
    ghost var exps := Views(list);
    for k := 0 to |list|
      invariant Collect(Outcomes(c, exps, k)) == Ok(rrs)
    {
      var e := list[k].View();
      if e.spec == None || |e.spec.value.faults| == 0 {
        assert Outcomes(c, exps, k + 1) == Outcomes(c, exps, k);
        continue;
      }
      var next := TranslateExperiment(c, e, rrs, Outcomes(c, exps, k));
      if next.Err? {
        ExperimentFailureIsFinal(c, exps, k + 1, |exps|);
        return next;
      }
      rrs := next.value;
    }
    return Ok(rrs);
  }

  // ----- exactness -----

  predicate Eligible(c: Config, m: Ref) {
    c.meshNs == "" || m.ns == c.meshNs
  }

  /** The given target exists, or there is no given target and exactly one mesh to choose. */
  ghost predicate MeshIs(c: Config, target: Option<Ref>, mesh: Ref) {
    && c.store.Up?
    && match target
       case Some(t) => mesh == t && t in c.store.meshes
       case None => exists k :: IsOnlyEligible(c, c.store.meshes, k) && c.store.meshes[k] == mesh
  }

  ghost predicate IsOnlyEligible(c: Config, meshes: seq<Ref>, k: int) {
    && 0 <= k < |meshes| && Eligible(c, meshes[k])
    && forall j :: 0 <= j < |meshes| && Eligible(c, meshes[j]) ==> j == k
  }

  lemma {:induction false} NoneListed(c: Config, meshes: seq<Ref>)
    ensures ListIn(meshes, c.meshNs) == [] <==> forall j :: 0 <= j < |meshes| ==> !Eligible(c, meshes[j])
  {
    if meshes != [] {
      NoneListed(c, meshes[1..]);
      assert forall j :: 0 < j < |meshes| ==> meshes[j] == meshes[1..][j - 1];
    }
  }

  lemma {:induction false} OneListed(c: Config, meshes: seq<Ref>, mesh: Ref)
    ensures ListIn(meshes, c.meshNs) == [mesh] <==> exists k :: IsOnlyEligible(c, meshes, k) && meshes[k] == mesh
  {
    if meshes != [] {
      var rest := meshes[1..];
      assert forall j :: 0 < j < |meshes| ==> meshes[j] == rest[j - 1];
      if Eligible(c, meshes[0]) {
        NoneListed(c, rest);
        var found := ListIn(meshes, c.meshNs);
        assert found == [meshes[0]] + ListIn(rest, c.meshNs);
        if found == [mesh] {
          assert |ListIn(rest, c.meshNs)| == 0 && found[0] == meshes[0];
          assert IsOnlyEligible(c, meshes, 0);
        }
        if k :| IsOnlyEligible(c, meshes, k) && meshes[k] == mesh {
          assert k == 0;
          forall j | 0 <= j < |rest| ensures !Eligible(c, rest[j]) {
            assert rest[j] == meshes[j + 1];
          }
        }
      } else {
        OneListed(c, rest, mesh);
        if k :| IsOnlyEligible(c, meshes, k) && meshes[k] == mesh {
          assert IsOnlyEligible(c, rest, k - 1);
        }
        if k :| IsOnlyEligible(c, rest, k) && rest[k] == mesh {
          assert IsOnlyEligible(c, meshes, k + 1);
        }
      }
    }
  }

  lemma TargetMeshExactly(c: Config, target: Option<Ref>, mesh: Ref)
    ensures TargetMesh(c, target) == Ok(mesh) <==> MeshIs(c, target, mesh)
  {
    if c.store.Up? && target == None {
      OneListed(c, c.store.meshes, mesh);
      var found := ListIn(c.store.meshes, c.meshNs);
      assert |found| == 1 ==> found == [found[0]];
    }
  }

  /** Listing keeps the eligible meshes, in order. */
  lemma {:induction false} ListInExactly(c: Config, xs: seq<Ref>, ys: seq<Ref>, m: Ref)
    ensures ListIn([m], c.meshNs) == if Eligible(c, m) then [m] else []
    ensures ListIn(xs + ys, c.meshNs) == ListIn(xs, c.meshNs) + ListIn(ys, c.meshNs)
  {
    if xs == [] {
      assert xs + ys == ys;
    } else {
      assert (xs + ys)[1..] == xs[1..] + ys;
      ListInExactly(c, xs[1..], ys, m);
    }
  }

  /** Why no mesh is chosen: the client fails; the given one does not exist; there is none, or more than one, to choose. */
  lemma TargetMeshFailsExactly(c: Config, target: Option<Ref>, cause: Cause)
    ensures TargetMesh(c, target) == Err(cause) <==>
      match cause
      case StoreDown => c.store.Down?
      case MeshNotFound(mesh) => c.store.Up? && target == Some(mesh) && mesh !in c.store.meshes
      case NoMesh(ns) =>
        c.store.Up? && target == None && ns == c.meshNs && forall m :: m in c.store.meshes ==> !Eligible(c, m)
      case ManyMeshes(count, ns) =>
        c.store.Up? && target == None && ns == c.meshNs && count == |ListIn(c.store.meshes, c.meshNs)| > 1
      case NilRef => false
      case EmptyInjection => false
  {
    if c.store.Up? {
      NoneListed(c, c.store.meshes);
    }
  }

  /** Everything one fault needs: a mesh, no nil reference, and a fault that injects something. */
  ghost predicate Translatable(c: Config, e: Exp, index: nat)
    requires HasFault(e, index)
  {
    var f := e.spec.value.faults[index];
    && (exists mesh :: MeshIs(c, e.spec.value.targetMesh, mesh))
    && None !in f.origins && None !in f.destinations
    && f.fault.Some? && f.fault != Some(EmptyFault)
  }

  ghost predicate Selects(selector: Option<seq<Ref>>, refs: seq<Option<Ref>>) {
    if refs == [] then selector == None
    else selector.Some? && |selector.value| == |refs| && forall k :: 0 <= k < |refs| ==> refs[k] == Some(selector.value[k])
  }

  ghost predicate RuleFor(c: Config, e: Exp, index: nat, rule: Rule)
    requires HasFault(e, index)
  {
    var f := e.spec.value.faults[index];
    && rule.ref == Ref(e.ref.ns, RuleName(e.ref.name, index))
    && rule.labels.Keys == {"glooshot-experiment", "created_by"}
    && rule.labels["glooshot-experiment"] == e.ref.name && rule.labels["created_by"] == "glooshot"
    && MeshIs(c, e.spec.value.targetMesh, rule.mesh)
    && Selects(rule.source, f.origins) && Selects(rule.destination, f.destinations)
    && f.fault == Some(rule.fault)
  }

  lemma TranslateFaultExactly(c: Config, e: Exp, index: nat)
    requires HasFault(e, index)
    ensures TranslateFault(c, e, index).Ok? <==> Translatable(c, e, index)
    ensures TranslateFault(c, e, index).Ok? ==> RuleFor(c, e, index, TranslateFault(c, e, index).value)
    ensures TranslateFault(c, e, index).Err? ==>
      TranslateFault(c, e, index).error.experiment == e.ref && TranslateFault(c, e, index).error.index == index
  {
    var target := e.spec.value.targetMesh;
    forall mesh ensures TargetMesh(c, target) == Ok(mesh) <==> MeshIs(c, target, mesh) {
      TargetMeshExactly(c, target, mesh);
    }
    assert TargetMesh(c, target).Ok? ==> TargetMesh(c, target) == Ok(TargetMesh(c, target).value);
  }

  /** What stops the translation of a fault: the mesh comes first, then a nil reference, then a missing injection. */
  lemma TranslateFaultFailsExactly(c: Config, e: Exp, index: nat, cause: Cause)
    requires HasFault(e, index)
    ensures var f := e.spec.value.faults[index]; var mesh := TargetMesh(c, e.spec.value.targetMesh);
      TranslateFault(c, e, index) == Err(For(e.ref, index, cause)) <==>
        if mesh.Err? then cause == mesh.error
        else if None in f.origins || None in f.destinations then cause == NilRef
        else cause == EmptyInjection && (f.fault == None || f.fault == Some(EmptyFault))
  {
    hide TargetMesh;
  }

  // ----- the whole sweep -----

  /** Where a rule comes from: which experiment, and which of its faults. */
  datatype Position = At(experiment: nat, fault: nat)

  predicate Live(exps: seq<Exp>, p: Position) {
    p.experiment < |exps| && HasFault(exps[p.experiment], p.fault) && !Concluded(exps[p.experiment])
  }

  ghost predicate TranslatableAt(c: Config, exps: seq<Exp>, p: Position) {
    Live(exps, p) && Translatable(c, exps[p.experiment], p.fault)
  }

  /** Translating the fault at a live position yields this outcome. */
  ghost predicate Yields(c: Config, exps: seq<Exp>, p: Position, o: Result<Rule, Failure>) {
    Live(exps, p) && TranslateFault(c, exps[p.experiment], p.fault) == o
  }

  /** The rule is the one of the fault at a live position. */
  ghost predicate RuleAt(c: Config, exps: seq<Exp>, p: Position, rule: Rule) {
    Live(exps, p) && RuleFor(c, exps[p.experiment], p.fault, rule)
  }

  lemma YieldsExactly(c: Config, exps: seq<Exp>, p: Position, o: Result<Rule, Failure>)
    requires Yields(c, exps, p, o)
    ensures o.Ok? <==> TranslatableAt(c, exps, p)
    ensures o.Ok? ==> RuleAt(c, exps, p, o.value)
    ensures o.Err? ==> o.error.experiment == exps[p.experiment].ref && o.error.index == p.fault
  {
    TranslateFaultExactly(c, exps[p.experiment], p.fault);
  }

  predicate Precedes(p: Position, q: Position) {
    p.experiment < q.experiment || (p.experiment == q.experiment && p.fault < q.fault)
  }

  /** The live positions, each once, in lexicographic order. */
  ghost predicate IsSweep(exps: seq<Exp>, ps: seq<Position>) {
    && (forall k :: 0 <= k < |ps| ==> Live(exps, ps[k]))
    && (forall p :: Live(exps, p) ==> p in ps)
    && (forall a, b :: 0 <= a < b < |ps| ==> Precedes(ps[a], ps[b]))
  }

  ghost function RowPositions(e: Exp, k: nat): (r: seq<Position>)
    ensures forall i :: 0 <= i < |r| ==> r[i] == At(k, i)
  {
    if Concluded(e) then [] else seq(FaultCount(e), i requires 0 <= i => At(k, i))
  }

  ghost function Positions(exps: seq<Exp>, n: nat): seq<Position>
    requires n <= |exps|
  {
    if n == 0 then [] else Positions(exps, n - 1) + RowPositions(exps[n - 1], n - 1)
  }

  lemma {:induction false} PositionsOrdered(exps: seq<Exp>, n: nat)
    requires n <= |exps|
    ensures forall k :: 0 <= k < |Positions(exps, n)| ==> Positions(exps, n)[k].experiment < n
    ensures forall a, b :: 0 <= a < b < |Positions(exps, n)| ==> Precedes(Positions(exps, n)[a], Positions(exps, n)[b])
  {
    if n > 0 {
      PositionsOrdered(exps, n - 1);
    }
  }

  lemma {:induction false} PositionsComplete(exps: seq<Exp>, n: nat, p: Position)
    requires n <= |exps| && Live(exps, p) && p.experiment < n
    ensures p in Positions(exps, n)
  {
    if p.experiment == n - 1 {
      assert RowPositions(exps[n - 1], n - 1)[p.fault] == p;
    } else {
      PositionsComplete(exps, n - 1, p);
    }
  }

  /** The k-th outcome belongs to the k-th position. */
  ghost predicate Aligned(c: Config, exps: seq<Exp>, ps: seq<Position>, outcomes: seq<Result<Rule, Failure>>) {
    |outcomes| == |ps| && forall k :: 0 <= k < |ps| ==> Yields(c, exps, ps[k], outcomes[k])
  }

  lemma RowAligned(c: Config, exps: seq<Exp>, k: nat)
    requires k < |exps|
    ensures Aligned(c, exps, RowPositions(exps[k], k), Row(c, exps[k], FaultCount(exps[k])))
  {
  }

  lemma AlignedConcat(c: Config, exps: seq<Exp>, p1: seq<Position>, o1: seq<Result<Rule, Failure>>,
                      p2: seq<Position>, o2: seq<Result<Rule, Failure>>)
    requires Aligned(c, exps, p1, o1) && Aligned(c, exps, p2, o2)
    ensures Aligned(c, exps, p1 + p2, o1 + o2)
  {
  }

  lemma {:induction false} OutcomesByPosition(c: Config, exps: seq<Exp>, n: nat)
    requires n <= |exps|
    ensures Aligned(c, exps, Positions(exps, n), Outcomes(c, exps, n))
  {
    if n == 0 {
      assert Positions(exps, 0) == [] && Outcomes(c, exps, 0) == [];
    } else {
      OutcomesByPosition(c, exps, n - 1);
      RowAligned(c, exps, n - 1);
      var p1, o1 := Positions(exps, n - 1), Outcomes(c, exps, n - 1);
      var p2, o2 := RowPositions(exps[n - 1], n - 1), Row(c, exps[n - 1], FaultCount(exps[n - 1]));
      AlignedConcat(c, exps, p1, o1, p2, o2);
    }
  }

  lemma {:induction false} PositionsLive(exps: seq<Exp>, n: nat)
    requires n <= |exps|
    ensures forall p :: p in Positions(exps, n) ==> Live(exps, p)
  {
    if n > 0 {
      PositionsLive(exps, n - 1);
      forall p | p in RowPositions(exps[n - 1], n - 1) ensures Live(exps, p) {
        var i :| 0 <= i < |RowPositions(exps[n - 1], n - 1)| && RowPositions(exps[n - 1], n - 1)[i] == p;
      }
    }
  }

  /** The sweep visits exactly the live positions, each once, in lexicographic order. */
  lemma {:induction false} SweepVisitsLivePositions(exps: seq<Exp>)
    ensures IsSweep(exps, Positions(exps, |exps|))
  {
    PositionsOrdered(exps, |exps|);
    PositionsLive(exps, |exps|);
    forall p | Live(exps, p) ensures p in Positions(exps, |exps|) {
      PositionsComplete(exps, |exps|, p);
    }
  }

  lemma {:induction false} CollectExactly(outcomes: seq<Result<Rule, Failure>>)
    ensures Collect(outcomes).Ok? ==>
              && |Collect(outcomes).value| == |outcomes|
              && forall k :: 0 <= k < |outcomes| ==> outcomes[k] == Ok(Collect(outcomes).value[k])
    ensures Collect(outcomes).Err? ==>
              exists k :: && 0 <= k < |outcomes| && outcomes[k] == Err(Collect(outcomes).error)
                          && forall j :: 0 <= j < k ==> outcomes[j].Ok?
  {
    if outcomes != [] {
      CollectExactly(outcomes[..|outcomes| - 1]);
    }
  }

  /** The sweep succeeds if and only if every fault of every live experiment translates. */
  lemma SweepSucceedsExactly(c: Config, exps: seq<Exp>)
    ensures Translate(c, exps).Ok? <==> forall p :: Live(exps, p) ==> TranslatableAt(c, exps, p)
  {
    hide Collect, TranslateFault, Positions, Outcomes, TranslatableAt, RuleAt;
    var ps, outcomes := Positions(exps, |exps|), Outcomes(c, exps, |exps|);
    OutcomesByPosition(c, exps, |exps|);
    CollectExactly(outcomes);
    forall k | 0 <= k < |ps| ensures outcomes[k].Ok? <==> TranslatableAt(c, exps, ps[k]) {
      YieldsExactly(c, exps, ps[k], outcomes[k]);
    }
    if Translate(c, exps).Ok? {
      forall p | Live(exps, p) ensures TranslatableAt(c, exps, p) {
        PositionsComplete(exps, |exps|, p);
        var k :| 0 <= k < |ps| && ps[k] == p;
      }
    } else {
      var k :| 0 <= k < |outcomes| && outcomes[k] == Err(Collect(outcomes).error);
      assert Live(exps, ps[k]);
    }
  }

  /** On success: one rule per live position, in sweep order, each built from its own fault. */
  lemma {:induction false} SweepRules(c: Config, exps: seq<Exp>)
    requires Translate(c, exps).Ok?
    ensures |Translate(c, exps).value| == |Positions(exps, |exps|)|
    ensures forall k :: 0 <= k < |Positions(exps, |exps|)| ==>
              RuleAt(c, exps, Positions(exps, |exps|)[k], Translate(c, exps).value[k])
  {
    hide Collect, TranslateFault, Positions, Outcomes, TranslatableAt, RuleAt;
    var ps, outcomes := Positions(exps, |exps|), Outcomes(c, exps, |exps|);
    OutcomesByPosition(c, exps, |exps|);
    CollectExactly(outcomes);
    forall k | 0 <= k < |ps| ensures RuleAt(c, exps, ps[k], Translate(c, exps).value[k]) {
      YieldsExactly(c, exps, ps[k], outcomes[k]);
    }
  }

  /** Position k is the first that does not translate, and its outcome is this failure. */
  ghost predicate FirstFailing(c: Config, exps: seq<Exp>, ps: seq<Position>, k: nat, f: Failure) {
    && k < |ps| && !TranslatableAt(c, exps, ps[k]) && Yields(c, exps, ps[k], Err(f))
    && forall j :: 0 <= j < k ==> TranslatableAt(c, exps, ps[j])
  }

  /** On failure: the error of the first position that does not translate. */
  lemma {:induction false} SweepFailure(c: Config, exps: seq<Exp>)
    requires Translate(c, exps).Err?
    ensures exists k: nat :: FirstFailing(c, exps, Positions(exps, |exps|), k, Translate(c, exps).error)
  {
    hide Collect, TranslateFault, Positions, Outcomes, TranslatableAt, RuleAt, Yields, Live;
    var ps, outcomes := Positions(exps, |exps|), Outcomes(c, exps, |exps|);
    OutcomesByPosition(c, exps, |exps|);
    CollectExactly(outcomes);
    var k :| 0 <= k < |outcomes| && outcomes[k] == Err(Collect(outcomes).error) && forall j :: 0 <= j < k ==> outcomes[j].Ok?;
    forall j | 0 <= j <= k ensures TranslatableAt(c, exps, ps[j]) <==> outcomes[j].Ok? {
      YieldsExactly(c, exps, ps[j], outcomes[j]);
    }
    assert FirstFailing(c, exps, ps, k, Translate(c, exps).error);
  }

  /** Desired rules never collide: with distinct experiment keys, no two share a namespace and name. */
  lemma RuleRefsDistinct(c: Config, exps: seq<Exp>)
    requires forall i, j :: 0 <= i < j < |exps| ==> exps[i].ref != exps[j].ref
    requires Translate(c, exps).Ok?
    ensures forall a, b :: 0 <= a < b < |Translate(c, exps).value| ==>
              Translate(c, exps).value[a].ref != Translate(c, exps).value[b].ref
  {
    var ps, rules := Positions(exps, |exps|), Translate(c, exps).value;
    SweepRules(c, exps);
    PositionsOrdered(exps, |exps|);
    forall a, b | 0 <= a < b < |rules|
      ensures rules[a].ref != rules[b].ref
    {
      var p, q := ps[a], ps[b];
      assert Precedes(p, q) && RuleAt(c, exps, p, rules[a]) && RuleAt(c, exps, q, rules[b]);
      if rules[a].ref == rules[b].ref {
        RuleNameInjective(exps[p.experiment].ref.name, p.fault, exps[q.experiment].ref.name, q.fault);
      }
    }
  }

  // ----- starting an experiment does not change its rules -----

  lemma StartedTranslatesAlike(c: Config, e: Exp, env: S.Env, index: nat)
    requires HasFault(e, index)
    ensures HasFault(S.Started(e, env), index)
    ensures TranslateFault(c, S.Started(e, env), index) == TranslateFault(c, e, index)
  {
  }

  lemma StartedRowAlike(c: Config, e: Exp, env: S.Env)
    requires e.result.state == Pending
    ensures FaultCount(S.Started(e, env)) == FaultCount(e)
    ensures Row(c, S.Started(e, env), FaultCount(e)) == Row(c, e, FaultCount(e))
  {
    forall i | 0 <= i < FaultCount(e)
      ensures TranslateFault(c, S.Started(e, env), i) == TranslateFault(c, e, i)
    {
      StartedTranslatesAlike(c, e, env, i);
    }
  }

  lemma {:induction false} PromotionKeepsOutcomes(c: Config, exps: seq<Exp>, env: S.Env, n: nat)
    requires n <= |exps|
    ensures Outcomes(c, S.Promote(exps, env), n) == Outcomes(c, exps, n)
  {
    if n > 0 {
      PromotionKeepsOutcomes(c, exps, env, n - 1);
      if exps[n - 1].result.state == Pending {
        StartedRowAlike(c, exps[n - 1], env);
      }
    }
  }

  /** Promoting and renaming in place first, or translating first: the same rules or the same failure. */
  lemma StartingCommutesWithTranslation(c: Config, exps: seq<Exp>, env: S.Env)
    ensures Translate(c, S.Promote(exps, env)) == Translate(c, exps)
  {
    PromotionKeepsOutcomes(c, exps, env, |exps|);
  }
}
