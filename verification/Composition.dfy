/**
 How the components compose: what a monitor reports was published by the query
 publisher, and the event loop runs on what the emitter sends.
 */
module Composition {
  import opened Types
  import A = PubSubAnswers
  import D = PubSubDelivery
  import E = EventLoop
  import J = Joint
  import M = Monitor
  import O = EmitterObjects
  import P = PubSubSteps
  import S = Starter
  import T = Translator
  import opened SimpleEmitterObjects

  // ----- monitor and publisher -----

  /** The report is that of the first of the values that crosses the condition's threshold. */
  ghost predicate FirstCrossingOf(e: Exp, condition: nat, values: seq<Float>, r: M.Report)
    requires r.Crossed?
  {
    exists n: nat :: CrossesFirstAt(e, condition, values, n, r)
  }

  predicate CrossesFirstAt(e: Exp, condition: nat, values: seq<Float>, n: nat, r: M.Report)
    requires r.Crossed?
  {
    && n < |values| && r.value == values[n] && M.CrossesCondition(e, condition, values[n], r.threshold, r.operator)
    && forall i: nat :: i < n ==> !M.CrossesCondition(e, condition, values[i], r.threshold, r.operator)
  }

  /** What a channel's receiver has taken is a piece of its list's log, from where it joined. */
  lemma {:induction false} ReceivedIsLogged(steps: seq<P.Step>, c: nat)
    requires P.SerialRun(steps) && c < |P.Exec(steps).chans|
    ensures var s := P.Exec(steps); var ch := s.chans[c];
      && ch.home < |s.lists| && ch.from + |ch.received| <= |s.lists[ch.home].log|
      && ch.received == s.lists[ch.home].log[ch.from..ch.from + |ch.received|]
  {
    hide P.Exec, P.SerialRun, P.Reached;
    P.DeliveryIsExact(steps, c);
    var s := P.Exec(steps);
    var ch := s.chans[c];
    var log := s.lists[ch.home].log;
    assert P.Stream(ch)[..|ch.received|] == ch.received;
    if ch.until.Some? {
      assert P.Stream(ch) == log[ch.from..ch.until.value];
    } else {
      var k :| 0 <= k < |s.lists[ch.home].subs| && s.lists[ch.home].subs[k] == c && P.UpToDate(s.lists[ch.home], k, ch);
      assert P.Stream(ch) == log[ch.from..P.Reached(s.lists[ch.home], k)];
    }
  }

  lemma JustifiedFromLog(e: Exp, p: M.Poller, log: seq<Float>, from: nat, r: M.Report)
    requires M.Justifies(e, p, r) && r.Crossed?
    requires from + |p.received| <= |log| && p.received == log[from..from + |p.received|]
    ensures FirstCrossingOf(e, p.condition, log[from..], r)
  {
    hide M.Crossing, M.CrossesCondition;
    var n := |p.received| - 1;
    assert forall i :: 0 <= i <= n ==> log[from..][i] == p.received[i];
    forall i: nat | i < n ensures !M.CrossesCondition(e, p.condition, log[from..][i], r.threshold, r.operator) {
      assert p.received[..n][i] == p.received[i];
      M.CrossingExactly(e, p.condition, p.received[i], M.Crossed(p.received[i], r.threshold, r.operator));
    }
    M.CrossingExactly(e, p.condition, p.received[n], r);
    assert CrossesFirstAt(e, p.condition, log[from..], n, r);
  }

  /** The report is the first crossing of what was published, for poller k's query, on its list since it subscribed. */
  ghost predicate PublishedFirst(rate: J.RateText, j: J.State, k: nat, r: M.Report)
    requires r.Crossed?
  {
    && k < |j.m.pollers| && k in j.subs && J.HasChannel(j.y, j.subs[k]) && j.y.threads[j.subs[k]].channel < |j.y.chans|
    && var p, ch := j.m.pollers[k], j.y.chans[j.y.threads[j.subs[k]].channel];
       && ch.home < |j.y.lists| && ch.from <= |j.y.lists[ch.home].log|
       && j.y.lists[ch.home].query == J.QueryOf(rate, j.m.exp, p)
       && FirstCrossingOf(j.m.exp, p.condition, j.y.lists[ch.home].log[ch.from..], r)
  }

  lemma FinishedOwns(rate: J.RateText, j: J.State, k: nat)
    requires J.Coupled(rate, j) && k < |j.m.pollers| && j.m.pollers[k].stage == M.Finished
    ensures k in j.subs && J.OwnsChannel(j.m.pollers[k], j.y, j.subs[k], J.QueryOf(rate, j.m.exp, j.m.pollers[k]))
  {
    hide J.PublisherOk, J.QueryOf, J.OwnsChannel;
    assert J.TiedAt(rate, j, k);
  }

  /**
   In every joint run, a threshold verdict names the first crossing value that was published, for the query
   of one of the monitor's conditions, on the list of that condition's subscription since it was made.
   */
  lemma {:induction false} ReportIsFirstPublished(rate: J.RateText, e: Exp, steps: seq<J.Step>, r: M.Report)
    requires J.Exec(rate, e, steps).m.verdicts == [Some(r)] && r.Crossed?
    requires P.SerialRun(J.PublisherSteps(rate, e, steps))
    ensures exists k: nat :: PublishedFirst(rate, J.Exec(rate, e, steps), k, r)
  {
    hide J.Exec, J.PublisherSteps, J.MonitorSteps, J.Coupled, J.QueryOf, M.Run, M.Justifies;
    hide P.Exec, P.SerialRun, FirstCrossingOf;
    J.HalvesAreRuns(rate, e, steps);
    J.EveryRunIsCoupled(rate, e, steps);
    M.RunKeeps(e, J.MonitorSteps(rate, e, steps));
    var j := J.Exec(rate, e, steps);
    assert M.Backed(j.m, r);
    var k :| 0 <= k < |j.m.pollers| && j.m.pollers[k].stage == M.Finished && M.Justifies(e, j.m.pollers[k], r);
    FinishedOwns(rate, j, k);
    var c := j.y.threads[j.subs[k]].channel;
    ReceivedIsLogged(J.PublisherSteps(rate, e, steps), c);
    JustifiedFromLog(e, j.m.pollers[k], j.y.lists[j.y.chans[c].home].log, j.y.chans[c].from, r);
    assert PublishedFirst(rate, j, k, r);
  }

  /** Prometheus answered a poller of the query with the value, in the course of the run. */
  ghost predicate WasAnswered(pubs: seq<P.Step>, q: string, v: Float) {
    exists i: nat :: A.AnsweredAt(pubs, i, q, v)
  }

  /** The reported value crosses the condition's threshold and was published, for poller k's query, since it subscribed. */
  ghost predicate WasPublished(rate: J.RateText, j: J.State, pubs: seq<P.Step>, k: nat, r: M.Report)
    requires r.Crossed?
  {
    && k < |j.m.pollers| && k in j.subs && J.HasChannel(j.y, j.subs[k]) && j.y.threads[j.subs[k]].channel < |j.y.chans|
    && var p, ch := j.m.pollers[k], j.y.chans[j.y.threads[j.subs[k]].channel];
       && ch.home < |j.y.lists| && ch.from <= |j.y.lists[ch.home].log|
       && j.y.lists[ch.home].query == J.QueryOf(rate, j.m.exp, p)
       && r.value in j.y.lists[ch.home].log[ch.from..] && WasAnswered(pubs, J.QueryOf(rate, j.m.exp, p), r.value)
       && M.CrossesCondition(j.m.exp, p.condition, r.value, r.threshold, r.operator)
  }

  lemma JustifiedCrosses(e: Exp, p: M.Poller, r: M.Report)
    requires M.Justifies(e, p, r) && r.Crossed?
    ensures r.value in p.received && M.CrossesCondition(e, p.condition, r.value, r.threshold, r.operator)
  {
    M.CrossingExactly(e, p.condition, r.value, r);
  }

  lemma {:induction false} LoggedWasAnswered(pubs: seq<P.Step>, p: nat, from: nat, v: Float)
    requires p < |P.Exec(pubs).lists| && from <= |P.Exec(pubs).lists[p].log| && v in P.Exec(pubs).lists[p].log[from..]
    ensures WasAnswered(pubs, P.Exec(pubs).lists[p].query, v)
  {
    hide P.Exec;
    var log := P.Exec(pubs).lists[p].log;
    var i :| 0 <= i < |log| - from && log[from..][i] == v;
    A.LogsAreAnswers(pubs, p, from + i);
    assert A.AnsweredAt(pubs, A.Sources(pubs, p)[from + i], P.Exec(pubs).lists[p].query, v);
  }

  /**
   In every joint run, even if two pollers of the query publish at once, a threshold verdict names a value that
   Prometheus gave as the answer to the condition's query and that was published since the condition's poller
   subscribed.
   */
  lemma {:induction false} ReportWasPublished(rate: J.RateText, e: Exp, steps: seq<J.Step>, r: M.Report)
    requires J.Exec(rate, e, steps).m.verdicts == [Some(r)] && r.Crossed?
    ensures exists k: nat :: WasPublished(rate, J.Exec(rate, e, steps), J.PublisherSteps(rate, e, steps), k, r)
  {
    hide J.Exec, J.PublisherSteps, J.MonitorSteps, J.Coupled, J.QueryOf;
    hide M.Run, P.Exec, M.Justifies, M.CrossesCondition, WasAnswered;
    J.HalvesAreRuns(rate, e, steps);
    J.EveryRunIsCoupled(rate, e, steps);
    M.RunKeeps(e, J.MonitorSteps(rate, e, steps));
    var j := J.Exec(rate, e, steps);
    assert M.Backed(j.m, r);
    var k :| 0 <= k < |j.m.pollers| && j.m.pollers[k].stage == M.Finished && M.Justifies(e, j.m.pollers[k], r);
    FinishedOwns(rate, j, k);
    JustifiedCrosses(e, j.m.pollers[k], r);
    var pubs, c := J.PublisherSteps(rate, e, steps), j.y.threads[j.subs[k]].channel;
    D.ReceivedWasPublished(pubs, c, r.value);
    LoggedWasAnswered(pubs, j.y.chans[c].home, j.y.chans[c].from, r.value);
    assert WasPublished(rate, j, pubs, k, r);
  }

  // ----- emitter and event loop -----

  lemma {:induction false} GivenIsSent(sent: seq<O.Pointers>)
    ensures E.ObjectsOf(O.SentLists(sent)) == O.Given(sent)
  {
    if sent != [] {
      var init, last := sent[..|sent| - 1], sent[|sent| - 1];
      GivenIsSent(init);
      var all, before := O.SentLists(sent), O.SentLists(init);
      forall e ensures e in E.ObjectsOf(all) <==> e in E.ObjectsOf(before) || e in last.experiments {
        if k :| 0 <= k < |all| && e in all[k] {
          assert k < |before| ==> e in before[k];
        }
        if k :| 0 <= k < |before| && e in before[k] {
          assert e in all[k];
        }
        assert all[|sent| - 1] == last.experiments;
      }
    }
  }

  /**
   The event loop on what the emitter sent: the emitter's snapshots are such that the loop runs as it
   does on values, and its edits of them leave the emitter as it was.
   */
  method RunController(em: ApiSimpleEmitter, config: T.Config, envs: seq<S.Env>) returns (el: E.SimpleEventLoop)
    requires em.Valid() && |envs| == |em.sent|
    modifies O.Given(em.sent)
    ensures em.Valid() && em.sent == old(em.sent)
    ensures O.Deref(em.original) == old(O.Deref(em.original)) && O.Deref(em.current) == old(O.Deref(em.current))
    ensures el.crashed == E.RunFrom(config, old(E.Deliveries(O.SentLists(em.sent), envs))).crashed
    ensures !el.crashed ==> el.View() == E.RunFrom(config, old(E.Deliveries(O.SentLists(em.sent), envs)))
  {
    hide E.RunFrom, E.Deliveries, O.Given, O.SentAreClones, E.ObjectsOf;
    GivenIsSent(em.sent);
    O.SentIsAllClones(em.sent);
    el := E.Run(config, O.SentLists(em.sent), envs);
  }
}
