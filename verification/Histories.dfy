/**
 The measurement histories every monitor of a checker appends to, under one lock,
 and the report drawn from them. The specification is one plain log of all stores.
 */
module Histories {
  import opened Types

  datatype Measurement = Measurement(value: Float, time: Time)

  /** One stored measurement and the failure condition name it was stored under. */
  datatype Entry = Entry(name: string, m: Measurement)

  /** The measurements a log has under one name, in order. */
  function Project(log: seq<Entry>, name: string): seq<Measurement> {
    if log == [] then []
    else
      var last := log[|log| - 1];
      Project(log[..|log| - 1], name) + if last.name == name then [last.m] else []
  }

  predicate Mentions(log: seq<Entry>, name: string) {
    exists i :: 0 <= i < |log| && log[i].name == name
  }

  lemma {:induction false} ProjectAppend(log: seq<Entry>, e: Entry, name: string)
    ensures Project(log + [e], name) == Project(log, name) + if e.name == name then [e.m] else []
    ensures Mentions(log + [e], name) <==> Mentions(log, name) || e.name == name
  {
    assert (log + [e])[..|log|] == log && (log + [e])[|log|] == e;
    assert forall i :: 0 <= i < |log| ==> (log + [e])[i] == log[i];
  }

  /** A history object of the checker's map. */
  class History {
    const name: string
    var snapshots: seq<Measurement>

    constructor (name: string)
      ensures this.name == name && snapshots == []
    {
      this.name, snapshots := name, [];
    }
  }

  /** One history of a report. */
  datatype ReportedHistory = ReportedHistory(name: string, snapshots: seq<Measurement>)

  class Checker {
    var histories: map<string, History>
    ghost var log: seq<Entry>

    /** The map holds one object per name of the log, with exactly that name's measurements. */
    ghost predicate Valid()
      reads this, histories.Values
    {
      && (forall n :: n in histories <==> Mentions(log, n))
      && (forall n :: n in histories ==> histories[n].name == n && histories[n].snapshots == Project(log, n))
    }

    constructor ()
      ensures Valid() && log == []
    {
      histories, log := map[], [];
    }

    /** `storeQueryValue`: appends to the history of the name, creating it the first time. */
    method Store(name: string, value: Float, now: Time)
      requires Valid()
      modifies this, histories.Values
      ensures Valid() && log == old(log) + [Entry(name, Measurement(value, now))]
    {
      hide Project, Mentions;
      var e := Entry(name, Measurement(value, now));
      forall n ensures Project(log + [e], n) == Project(log, n) + if n == name then [e.m] else []
               ensures Mentions(log + [e], n) <==> Mentions(log, n) || n == name
      {
        ProjectAppend(log, e, n);
      }
      var history;
      if name in histories {
        history := histories[name];
      } else {
        NotMentioned(log, name);
        history := new History(name);
      }
      history.snapshots := history.snapshots + [e.m];
      histories := histories[name := history];
      log := log + [e];
    }

    /** `produceReport`: the k-th entry is the k-th condition's history, or nothing if none was stored. */
    method ProduceReport(spec: Option<Spec>) returns (report: seq<Option<ReportedHistory>>)
      requires Valid()
      ensures |report| == if spec == None then 0 else |spec.value.conditions|
      ensures forall k :: 0 <= k < |report| ==>
        var name := spec.value.conditions[k].name;
        report[k] == if Mentions(log, name) then Some(ReportedHistory(name, Project(log, name))) else None
    {
      report := [];
      if spec.Some? {
        for k := 0 to |spec.value.conditions|
          invariant |report| == k
          invariant forall j :: 0 <= j < k ==>
            var name := spec.value.conditions[j].name;
            report[j] == if Mentions(log, name) then Some(ReportedHistory(name, Project(log, name))) else None
        {
          var name := spec.value.conditions[k].name;
          report := report + [
            if name in histories then Some(ReportedHistory(histories[name].name, histories[name].snapshots)) else None];
        }
      }
    }
  }

  lemma {:induction false} NotMentioned(log: seq<Entry>, name: string)
    requires !Mentions(log, name)
    ensures Project(log, name) == []
  {
    if log != [] {
      var init := log[..|log| - 1];
      assert log == init + [log[|log| - 1]];
      ProjectAppend(init, log[|log| - 1], name);
      NotMentioned(init, name);
    }
  }

  // ----- nothing is lost between the log and the histories -----

  function TotalLength(log: seq<Entry>, names: seq<string>): nat {
    if names == [] then 0 else TotalLength(log, names[1..]) + |Project(log, names[0])|
  }

  lemma {:induction false} AppendCountsOnce(log: seq<Entry>, e: Entry, names: seq<string>)
    requires Distinct(names)
    ensures TotalLength(log + [e], names) == TotalLength(log, names) + if e.name in names then 1 else 0
  {
    if names != [] {
      assert names[0] !in names[1..];
      AppendCountsOnce(log, e, names[1..]);
      ProjectAppend(log, e, names[0]);
    }
  }

  lemma {:induction false} EmptyTotal(names: seq<string>)
    ensures TotalLength([], names) == 0
  {
    if names != [] {
      EmptyTotal(names[1..]);
    }
  }

  /** The histories together hold every store exactly once. */
  lemma {:induction false} HistoriesHoldTheLog(log: seq<Entry>, names: seq<string>)
    requires Distinct(names) && forall i :: 0 <= i < |log| ==> log[i].name in names
    ensures TotalLength(log, names) == |log|
  {
    if log == [] {
      EmptyTotal(names);
    } else {
      var init, last := log[..|log| - 1], log[|log| - 1];
      HistoriesHoldTheLog(init, names);
      AppendCountsOnce(init, last, names);
      assert log == init + [last];
    }
  }

  /** How many measurements the histories of some names hold. */
  function Stored(histories: map<string, History>, names: seq<string>): nat
    requires forall n :: n in names ==> n in histories
    reads histories.Values
  {
    if names == [] then 0
    else
      assert names[0] in histories && forall n :: n in names[1..] ==> n in names;
      |histories[names[0]].snapshots| + Stored(histories, names[1..])
  }

  lemma {:induction false} StoredIsProjected(c: Checker, names: seq<string>)
    requires c.Valid() && forall n :: n in names ==> n in c.histories
    ensures Stored(c.histories, names) == TotalLength(c.log, names)
  {
    if names != [] {
      assert names[0] in c.histories && forall n :: n in names[1..] ==> n in names;
      StoredIsProjected(c, names[1..]);
    }
  }

  /** The histories of a checker together hold every measurement it ever stored, exactly once. */
  lemma {:induction false} CheckerHoldsTheLog(c: Checker, names: seq<string>)
    requires c.Valid() && Distinct(names) && forall n :: n in names <==> n in c.histories
    ensures Stored(c.histories, names) == |c.log|
  {
    StoredIsProjected(c, names);
    forall i | 0 <= i < |c.log| ensures c.log[i].name in names {
      assert Mentions(c.log, c.log[i].name);
    }
    HistoriesHoldTheLog(c.log, names);
  }
}
