/**
 What both snapshot emitters do with the two snapshots they keep, whatever feeds
 them: compare hashes on every tick of the timer and send clones. The hash of a
 resource leaves out its resource version and its status, and is taken to be
 injective on the rest.
 */
module Emission {
  import opened Types

  datatype Report = Report(ref: Ref, version: nat, content: string)

  datatype Resource = AnExperiment(exp: Exp) | AReport(report: Report) | AnOther(ref: Ref, kind: string)

  datatype Snapshot = Snapshot(experiments: seq<Resource>, reports: seq<Resource>)

  const EMPTY := Snapshot([], [])

  function Key(res: Resource): Ref {
    match res case AnExperiment(e) => e.ref case AReport(r) => r.ref case AnOther(ref, _) => ref
  }

  datatype Hashed = HashedExperiment(ref: Ref, spec: Option<Spec>, result: Outcome)
                  | HashedReport(ref: Ref, content: string)
                  | HashedOther(ref: Ref, kind: string)

  function HashOf(res: Resource): Hashed {
    match res
    case AnExperiment(e) => HashedExperiment(e.ref, e.spec, e.result)
    case AReport(r) => HashedReport(r.ref, r.content)
    case AnOther(ref, kind) => HashedOther(ref, kind)
  }

  function HashAll(list: seq<Resource>): seq<Hashed> {
    seq(|list|, i requires 0 <= i < |list| => HashOf(list[i]))
  }

  function Hash(s: Snapshot): (seq<Hashed>, seq<Hashed>) {
    (HashAll(s.experiments), HashAll(s.reports))
  }

  // ----- what hashes alike -----

  /** The same resource, in everything the consumers act on. */
  predicate SameData(x: Resource, y: Resource) {
    match (x, y)
    case (AnExperiment(a), AnExperiment(b)) => a.ref == b.ref && a.spec == b.spec && a.result == b.result
    case (AReport(a), AReport(b)) => a.ref == b.ref && a.content == b.content
    case (AnOther(_, _), AnOther(_, _)) => x == y
    case _ => false
  }

  predicate SameList(xs: seq<Resource>, ys: seq<Resource>) {
    |xs| == |ys| && forall i :: 0 <= i < |xs| ==> SameData(xs[i], ys[i])
  }

  /** Position by position the same keys, specs, results and contents. */
  predicate SameSnapshot(a: Snapshot, b: Snapshot) {
    SameList(a.experiments, b.experiments) && SameList(a.reports, b.reports)
  }

  lemma HashExactly(x: Resource, y: Resource)
    ensures HashOf(x) == HashOf(y) <==> SameData(x, y)
  {
  }

  lemma HashAllExactly(xs: seq<Resource>, ys: seq<Resource>)
    ensures HashAll(xs) == HashAll(ys) <==> SameList(xs, ys)
  {
    hide HashOf, SameData;
    forall i | 0 <= i < |xs| && i < |ys| ensures HashAll(xs)[i] == HashAll(ys)[i] <==> SameData(xs[i], ys[i]) {
      HashExactly(xs[i], ys[i]);
    }
    assert |HashAll(xs)| == |xs| && |HashAll(ys)| == |ys|;
  }

  /** Two snapshots hash alike if and only if their resources agree in what the consumers act on. */
  lemma SnapshotHashExactly(a: Snapshot, b: Snapshot)
    ensures Hash(a) == Hash(b) <==> SameSnapshot(a, b)
  {
    hide HashAll, SameList;
    HashAllExactly(a.experiments, b.experiments);
    HashAllExactly(a.reports, b.reports);
  }

  // ----- the loop -----

  /** `Update` is a delivery from the watches, with the current snapshot it leads to. */
  datatype Event = Tick | Force | Update(snap: Snapshot)

  datatype Sent = Sent(snap: Snapshot, ticked: bool)

  datatype Loop = Loop(original: Snapshot, current: Snapshot, log: seq<Sent>)

  const START := Loop(EMPTY, EMPTY, [])

  function Step(s: Loop, e: Event): Loop {
    match e
    case Tick =>
      if Hash(s.original) == Hash(s.current) then s
      else Loop(s.current, s.current, s.log + [Sent(s.current, true)])
    case Force => s.(log := s.log + [Sent(s.current, false)])
    case Update(snap) => s.(current := snap)
  }

  function Run(es: seq<Event>): Loop {
    if es == [] then START else Step(Run(es[..|es| - 1]), es[|es| - 1])
  }

  // ----- what the consumers see -----

  /** The snapshots sent by the timer, in order. */
  function Ticked(log: seq<Sent>): seq<Snapshot> {
    if log == [] then []
    else Ticked(log[..|log| - 1]) + if log[|log| - 1].ticked then [log[|log| - 1].snap] else []
  }

  /** The snapshot the last update led to. */
  function Latest(es: seq<Event>): Snapshot {
    if es == [] then EMPTY
    else if es[|es| - 1].Update? then es[|es| - 1].snap
    else Latest(es[..|es| - 1])
  }

  /** The snapshots that were current at the ticks, in order. */
  function AtTicks(es: seq<Event>): seq<Snapshot> {
    if es == [] then []
    else AtTicks(es[..|es| - 1]) + if es[|es| - 1].Tick? then [Latest(es)] else []
  }

  function LastOf(snaps: seq<Snapshot>): Snapshot {
    if snaps == [] then EMPTY else snaps[|snaps| - 1]
  }

  /** A list of snapshots without those that are like the one kept before; the empty snapshot goes before all. */
  function Changes(snaps: seq<Snapshot>): seq<Snapshot> {
    if snaps == [] then []
    else
      var kept := Changes(snaps[..|snaps| - 1]);
      kept + if SameSnapshot(LastOf(kept), snaps[|snaps| - 1]) then [] else [snaps[|snaps| - 1]]
  }

  function Unforced(es: seq<Event>): seq<Event> {
    if es == [] then []
    else Unforced(es[..|es| - 1]) + if es[|es| - 1].Force? then [] else [es[|es| - 1]]
  }

  ghost predicate NoRepeats(snaps: seq<Snapshot>) {
    forall k :: 0 <= k < |snaps| ==> !SameSnapshot(LastOf(snaps[..k]), snaps[k])
  }

  lemma {:induction false} TickedAppend(log: seq<Sent>, s: Sent)
    ensures Ticked(log + [s]) == Ticked(log) + if s.ticked then [s.snap] else []
  {
    assert (log + [s])[..|log|] == log;
  }

  /** The loop's two snapshots, and the timer's part of what it sent, as functions of the events alone. */
  ghost predicate Tracks(s: Loop, es: seq<Event>) {
    && s.current == Latest(es)
    && Ticked(s.log) == Changes(AtTicks(es))
    && s.original == LastOf(Ticked(s.log))
  }

  lemma {:induction false} EventAppend(es: seq<Event>, e: Event)
    ensures Latest(es + [e]) == if e.Update? then e.snap else Latest(es)
    ensures AtTicks(es + [e]) == AtTicks(es) + if e.Tick? then [Latest(es)] else []
  {
    assert (es + [e])[..|es|] == es && (es + [e])[|es|] == e;
  }

  lemma {:induction false} ChangeAppend(snaps: seq<Snapshot>, snap: Snapshot)
    ensures Changes(snaps + [snap]) == Changes(snaps) + if SameSnapshot(LastOf(Changes(snaps)), snap) then [] else [snap]
  {
    hide SameSnapshot;
    assert (snaps + [snap])[..|snaps|] == snaps && (snaps + [snap])[|snaps|] == snap;
  }

  lemma StepTracks(s: Loop, es: seq<Event>, e: Event)
    requires Tracks(s, es)
    ensures Tracks(Step(s, e), es + [e])
  {
    hide Hash, SameSnapshot, Ticked, AtTicks, Changes, Latest;
    EventAppend(es, e);
    assert AtTicks(es) + [] == AtTicks(es) && Ticked(s.log) + [] == Ticked(s.log);
    match e
    case Tick =>
      SnapshotHashExactly(s.original, s.current);
      ChangeAppend(AtTicks(es), Latest(es));
      TickedAppend(s.log, Sent(s.current, true));
    case Force => TickedAppend(s.log, Sent(s.current, false));
    case Update(snap) =>
  }

  lemma {:induction false} RunTracks(es: seq<Event>)
    ensures Tracks(Run(es), es)
  {
    hide Step, Tracks;
    if es == [] {
      StartTracks();
    } else {
      RunTracks(es[..|es| - 1]);
      StepTracks(Run(es[..|es| - 1]), es[..|es| - 1], es[|es| - 1]);
      assert es[..|es| - 1] + [es[|es| - 1]] == es;
    }
  }

  lemma StartTracks()
    ensures Tracks(START, [])
  {
  }

  lemma {:induction false} ChangesDoNotRepeat(snaps: seq<Snapshot>)
    ensures NoRepeats(Changes(snaps))
  {
    hide SameSnapshot;
    if snaps != [] {
      var kept := Changes(snaps[..|snaps| - 1]);
      ChangesDoNotRepeat(snaps[..|snaps| - 1]);
      var all := Changes(snaps);
      assert all[..|kept|] == kept;
      forall k | 0 <= k < |all| ensures !SameSnapshot(LastOf(all[..k]), all[k]) {
        assert all[..k] == kept[..k];
      }
    }
  }

  lemma {:induction false} ChangesReachTheLast(snaps: seq<Snapshot>)
    ensures SameSnapshot(LastOf(Changes(snaps)), LastOf(snaps))
  {
    if snaps != [] {
      hide SameList;
      var kept := Changes(snaps[..|snaps| - 1]);
      SameAsItself(LastOf(snaps));
    }
  }

  lemma SameAsItself(a: Snapshot)
    ensures SameSnapshot(a, a)
  {
  }

  /**
   Agreement, over every run: the timer sends exactly the changes among the
   snapshots current at its ticks; no two in a row have the same keys, specs, results
   and contents; and after a tick the last one sent has those of the current one.
   */
  lemma {:induction false} EmissionAgrees(es: seq<Event>)
    ensures Run(es).current == Latest(es)
    ensures Ticked(Run(es).log) == Changes(AtTicks(es))
    ensures NoRepeats(Ticked(Run(es).log))
    ensures es != [] && es[|es| - 1] == Tick ==> SameSnapshot(LastOf(Ticked(Run(es).log)), Latest(es))
    ensures es != [] && es[|es| - 1] == Tick ==> SameSnapshot(Run(es).original, Run(es).current)
  {
    hide SameSnapshot, Step, Changes;
    RunTracks(es);
    ChangesDoNotRepeat(AtTicks(es));
    if es != [] && es[|es| - 1] == Tick {
      assert LastOf(AtTicks(es)) == Latest(es);
      ChangesReachTheLast(AtTicks(es));
    }
  }

  lemma {:induction false} UnforcedSame(es: seq<Event>)
    ensures Latest(Unforced(es)) == Latest(es) && AtTicks(Unforced(es)) == AtTicks(es)
  {
    if es != [] {
      var init, e := es[..|es| - 1], es[|es| - 1];
      UnforcedSame(init);
      var u := Unforced(es);
      if e.Force? {
        assert u == Unforced(init);
      } else {
        assert u[..|u| - 1] == Unforced(init) && u[|u| - 1] == e;
      }
    }
  }

  /** Forced sends change neither of the two snapshots, now or later, nor what the timer sends. */
  lemma {:induction false} ForcedSendsDoNotDisturb(es: seq<Event>)
    ensures Run(es).original == Run(Unforced(es)).original && Run(es).current == Run(Unforced(es)).current
    ensures Ticked(Run(es).log) == Ticked(Run(Unforced(es)).log)
  {
    RunTracks(es);
    RunTracks(Unforced(es));
    UnforcedSame(es);
  }

  lemma {:induction false} RunAppend(es: seq<Event>, e: Event)
    ensures Run(es + [e]) == Step(Run(es), e)
  {
    assert (es + [e])[..|es|] == es;
  }

  /** Agreement is up to the hash: a resource version that moved alone is never sent by the timer. */
  lemma VersionsMayLag(e: Exp)
    ensures exists es :: es != [] && es[|es| - 1] == Tick && Run(es).original != Run(es).current
  {
    hide Run;
    var old_ := Snapshot([AnExperiment(e)], []);
    var new_ := Snapshot([AnExperiment(e.(version := e.version + 1))], []);
    assert Run([]) == START by { StartRun(); }
    RunAppend([], Update(old_));
    RunAppend([] + [Update(old_)], Tick);
    RunAppend([] + [Update(old_)] + [Tick], Update(new_));
    var es := [] + [Update(old_)] + [Tick] + [Update(new_)];
    RunAppend(es, Tick);
    assert |HashAll(old_.experiments)| != |HashAll(EMPTY.experiments)|;
    assert HashAll(old_.experiments) == HashAll(new_.experiments);
    assert (es + [Tick])[|es + [Tick]| - 1] == Tick;
    assert Run(es + [Tick]).original == old_ && Run(es + [Tick]).current == new_;
  }

  lemma StartRun()
    ensures Run([]) == START
  {
  }
}
