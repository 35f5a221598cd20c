/**
 What a subscriber is sent, in every run: two pollers of one query may publish on its
 list at the same time and interleave, but each publish reaches each subscriber at
 most once, and exactly once as long as the root context lives.
 */
module PubSubDelivery {
  import opened Types
  import opened PubSub
  import opened PubSubSteps
  import opened PubSubRefs

  // ----- publishes in progress -----

  /** The reader's value, if it has still to serve position i. */
  function Due(r: Reader, i: nat): multiset<Sample> {
    if r.cursor <= i then multiset{r.value} else multiset{}
  }

  /** The values that publishes in progress have still to send to position i. */
  ghost function AllDue(readers: map<nat, Reader>, i: nat): multiset<Sample>
    decreases readers.Keys
  {
    if readers == map[] then multiset{}
    else
      assert readers.Keys != {} by {
        assert readers.Keys == {} ==> readers == map[];
      }
      var t :| t in readers;
      assert t in readers.Keys && t !in (readers - {t}).Keys;
      Due(readers[t], i) + AllDue(readers - {t}, i)
  }

  /** Which of them is taken out first does not matter. */
  lemma {:induction false} DueWithout(readers: map<nat, Reader>, t: nat, i: nat)
    requires t in readers
    ensures AllDue(readers, i) == Due(readers[t], i) + AllDue(readers - {t}, i)
    decreases readers.Keys
  {
    hide Due;
    var u :| u in readers && AllDue(readers, i) == Due(readers[u], i) + AllDue(readers - {u}, i);
    if u != t {
      assert u !in (readers - {u}).Keys && t !in (readers - {t}).Keys && u in readers.Keys && t in readers.Keys;
      DueWithout(readers - {u}, t, i);
      DueWithout(readers - {t}, u, i);
      assert (readers - {u}) - {t} == (readers - {t}) - {u};
    }
  }

  lemma DueAfterBegin(readers: map<nat, Reader>, t: nat, v: Sample, i: nat)
    requires t !in readers
    ensures AllDue(readers[t := Reader(0, v)], i) == multiset{v} + AllDue(readers, i)
  {
    hide AllDue;
    DueWithout(readers[t := Reader(0, v)], t, i);
    assert readers[t := Reader(0, v)] - {t} == readers;
  }

  lemma DueAfterSend(readers: map<nat, Reader>, t: nat, i: nat)
    requires t in readers
    ensures var r := readers[t];
      AllDue(readers, i) == AllDue(readers[t := r.(cursor := r.cursor + 1)], i) + if i == r.cursor then multiset{r.value} else multiset{}
  {
    hide AllDue;
    var r := readers[t];
    var r' := r.(cursor := r.cursor + 1);
    DueWithout(readers, t, i);
    DueWithout(readers[t := r'], t, i);
    assert readers[t := r'] - {t} == readers - {t};
    assert Due(r, i) == Due(r', i) + if i == r.cursor then multiset{r.value} else multiset{};
  }

  lemma {:induction false} NothingDue(i: nat)
    ensures AllDue(map[], i) == multiset{}
  {
  }

  // ----- what a channel has been sent -----

  /** No more than the values given; if everything counts, exactly those. */
  ghost predicate Covers(got: multiset<Sample>, values: seq<Sample>, whole: bool) {
    got <= multiset(values) && (whole ==> got == multiset(values))
  }

  /** Position i of the list: what it was sent and what is due is what was published since it joined. */
  ghost predicate SentSoFar(l: SubList, i: nat, ch: Chan, whole: bool) {
    ch.from <= |l.log| && Covers(multiset(Stream(ch)) + AllDue(l.readers, i), l.log[ch.from..], whole)
  }

  ghost predicate ListSent(chans: seq<Chan>, l: SubList, whole: bool) {
    forall i: nat :: i < |l.subs| && l.subs[i] < |chans| ==> SentSoFar(l, i, chans[l.subs[i]], whole)
  }

  /** A channel that has left was sent what was published between its joining and its leaving. */
  ghost predicate SentInAll(l: SubList, ch: Chan, whole: bool) {
    ch.until.Some? ==>
      && ch.from <= ch.until.value <= |l.log|
      && Covers(multiset(Stream(ch)), l.log[ch.from..ch.until.value], whole)
  }

  ghost predicate LeftSent(s: System, c: nat)
    requires c < |s.chans|
  {
    s.chans[c].until.Some? ==> s.chans[c].home < |s.lists| && SentInAll(s.lists[s.chans[c].home], s.chans[c], !s.rootDone)
  }

  ghost predicate Sending(s: System) {
    && (forall p: nat :: p < |s.lists| ==> ListSent(s.chans, s.lists[p], !s.rootDone))
    && (forall c: nat :: c < |s.chans| ==> LeftSent(s, c))
  }

  /** The readers of a list's lock are the pollers that publish on it. */
  ghost predicate ReadersOk(s: System) {
    forall p: nat, t: nat :: p < |s.lists| && t in s.lists[p].readers ==>
      t in s.threads && s.threads[t].Publishing? && s.threads[t].list == p
  }

  // ----- who holds which list's lock -----

  /** Thread t moves; other readers are as before, and t is a reader only where it publishes. */
  lemma ReadersMove(s: System, s': System, t: nat)
    requires ReadersOk(s) && OnlyMoves(s, s', t) && |s.lists| == |s'.lists|
    requires forall p: nat, u: nat :: p < |s.lists| && u in s'.lists[p].readers && u != t ==> u in s.lists[p].readers
    requires forall p: nat :: p < |s.lists| && t in s'.lists[p].readers ==>
      t in s'.threads && s'.threads[t].Publishing? && s'.threads[t].list == p
    ensures ReadersOk(s')
  {
  }

  lemma JoinedReaders(s: System, p: nat)
    requires p < |s.lists|
    ensures |Joined(s, p).lists| == |s.lists| && forall r :: 0 <= r < |s.lists| ==> Joined(s, p).lists[r].readers == s.lists[r].readers
  {
  }

  lemma PartedReaders(s: System, p: nat, c: nat)
    requires p < |s.lists|
    ensures |Parted(s, p, c).lists| == |s.lists|
    ensures forall r :: 0 <= r < |s.lists| ==> Parted(s, p, c).lists[r].readers == s.lists[r].readers
  {
  }

  lemma ClosedReaders(s: System, p: nat)
    requires p < |s.lists|
    ensures |Closed(s, p).lists| == |s.lists| && forall r :: 0 <= r < |s.lists| ==> Closed(s, p).lists[r].readers == s.lists[r].readers
  {
  }

  lemma ClientReaders(s: System, step: Step, t: nat)
    requires ReadersOk(s) && t in s.threads && !s.threads[t].Publishing?
    ensures ReadersOk(ApplyClient(s, step, t))
  {
    hide Joined, Parted, Closed, OnlyMoves;
    ClientMoves(s, step, t);
    match s.threads[t] {
      case Attaching(_, p) => if Writable(s, p) { JoinedReaders(s, p); }
      case Detaching(_, c, p) => if Writable(s, p) { PartedReaders(s, p, c); }
      case Closing(_, p) => if Writable(s, p) { ClosedReaders(s, p); }
      case _ =>
    }
    ReadersMove(s, ApplyClient(s, step, t), t);
  }

  lemma PublisherIsNoClient(s: System, step: Step, t: nat)
    requires t in s.threads && s.threads[t].Publishing?
    ensures ApplyClient(s, step, t) == s
  {
  }

  lemma PublishingReaders(s: System, step: Step, t: nat)
    requires ReadersOk(s) && t in s.threads && s.threads[t].Publishing?
    ensures ReadersOk(ApplyPoller(s, step, t))
  {
    hide Sent, OnlyMoves;
    var s', p := ApplyPoller(s, step, t), s.threads[t].list;
    PollerMoves(s, step, t);
    if p < |s.lists| && t in s.lists[p].readers {
      SentReaders(s, t, p);
      SentOnlyData(s, t, p);
      assert forall r :: 0 <= r < |s.lists| ==> Sent(s, t, p).lists[r].readers.Keys == s.lists[r].readers.Keys;
      forall r: nat, u: nat | r < |s.lists| && u in Sent(s, t, p).lists[r].readers ensures u in s.lists[r].readers {
        assert u in Sent(s, t, p).lists[r].readers.Keys;
      }
      ReadersMove(s, s', t);
    }
  }

  lemma ExitReaders(s: System, step: Step, t: nat)
    requires ReadersOk(s) && t in s.threads && s.threads[t].ExitLocked?
    ensures ReadersOk(ApplyPoller(s, step, t))
  {
    hide Closed, OnlyMoves;
    var q := s.threads[t].query;
    PollerMoves(s, step, t);
    if q in s.queries && Writable(s, s.queries[q]) {
      ClosedReaders(s, s.queries[q]);
    }
    ReadersMove(s, ApplyPoller(s, step, t), t);
  }

  lemma PollerReaders(s: System, step: Step, t: nat)
    requires ReadersOk(s) && t in s.threads
    ensures ReadersOk(ApplyPoller(s, step, t))
  {
    hide OnlyMoves, ReadersOk;
    if s.threads[t].Publishing? {
      hide ApplyPoller;
      PublishingReaders(s, step, t);
    } else if s.threads[t].ExitLocked? {
      hide ApplyPoller;
      ExitReaders(s, step, t);
    } else {
      QuietPollerReaders(s, step, t);
    }
  }

  lemma QuietPollerReaders(s: System, step: Step, t: nat)
    requires ReadersOk(s) && t in s.threads && !s.threads[t].Publishing? && !s.threads[t].ExitLocked?
    ensures ReadersOk(ApplyPoller(s, step, t))
  {
    hide OnlyMoves;
    PollerMoves(s, step, t);
    ReadersMove(s, ApplyPoller(s, step, t), t);
  }

  lemma QuietReaders(s: System, step: Step)
    requires ReadersOk(s) && !Ordinary(step)
    ensures ReadersOk(Apply(s, step))
  {
    hide Taken;
    if step.Receive? && step.c < |s.chans| {
      TakenOnlyChannels(s, step.c);
    }
  }

  lemma StepKeepsReaders(s: System, step: Step)
    requires ReadersOk(s)
    ensures ReadersOk(Apply(s, step))
  {
    hide Apply, ApplyClient, ApplyPoller, ReadersOk;
    if !Ordinary(step) {
      QuietReaders(s, step);
    } else if step.t !in s.threads {
      NobodyThere(s, step);
    } else if OfClient(step) {
      ClientIsClient(s, step);
      if s.threads[step.t].Publishing? {
        PublisherIsNoClient(s, step, step.t);
      } else {
        ClientReaders(s, step, step.t);
      }
    } else {
      PollerIsPoller(s, step);
      PollerReaders(s, step, step.t);
    }
  }

  // ----- what the operations do -----

  /** The same list and the same streams: nothing changes, and the root context does not come back. */
  lemma SameSending(s: System, s': System)
    requires Sending(s) && |s'.chans| == |s.chans| && |s.lists| <= |s'.lists| && (s.rootDone ==> s'.rootDone)
    requires forall p :: 0 <= p < |s.lists| ==>
      s'.lists[p].subs == s.lists[p].subs && s'.lists[p].readers == s.lists[p].readers && s'.lists[p].log == s.lists[p].log
    requires forall p :: |s.lists| <= p < |s'.lists| ==> s'.lists[p].subs == []
    requires forall c :: 0 <= c < |s.chans| ==> SameSent(s.chans[c], s'.chans[c])
    ensures Sending(s')
  {
    forall p: nat | p < |s'.lists| ensures ListSent(s'.chans, s'.lists[p], !s'.rootDone) {
      if p < |s.lists| {
        assert ListSent(s.chans, s.lists[p], !s.rootDone);
      }
    }
    forall c: nat | c < |s'.chans| ensures LeftSent(s', c) {
      assert LeftSent(s, c) && SameSent(s.chans[c], s'.chans[c]);
    }
  }

  predicate SameSent(ch: Chan, ch': Chan) {
    Stream(ch') == Stream(ch) && ch'.home == ch.home && ch'.from == ch.from && ch'.until == ch.until
  }

  lemma JoinedSending(s: System, p: nat)
    requires Sending(s) && Safe(s) && Writable(s, p)
    ensures Sending(Joined(s, p))
  {
    var s', l := Joined(s, p), s.lists[p];
    NothingDue(|l.subs|);
    forall r: nat | r < |s'.lists| ensures ListSent(s'.chans, s'.lists[r], !s'.rootDone) {
      assert ListSent(s.chans, s.lists[r], !s.rootDone) && ListOk(s.chans, s.lists[r], r);
      forall i: nat | i < |s'.lists[r].subs| && s'.lists[r].subs[i] < |s'.chans|
        ensures SentSoFar(s'.lists[r], i, s'.chans[s'.lists[r].subs[i]], !s'.rootDone)
      {
        if i < |s.lists[r].subs| {
          assert s.lists[r].subs[i] in s.lists[r].subs;
          assert SentSoFar(s.lists[r], i, s.chans[s.lists[r].subs[i]], !s.rootDone);
        } else {
          assert l.log[|l.log|..] == [];
        }
      }
    }
    forall c: nat | c < |s'.chans| ensures LeftSent(s', c) {
      assert c < |s.chans| ==> LeftSent(s, c);
    }
  }

  /** On an idle list every subscriber has been sent what was published. */
  lemma IdleSent(s: System, p: nat, c: nat)
    requires Sending(s) && Safe(s) && Writable(s, p) && c in s.lists[p].subs
    ensures c < |s.chans| && s.chans[c].from <= |s.lists[p].log| && s.chans[c].home == p
    ensures Covers(multiset(Stream(s.chans[c])), s.lists[p].log[s.chans[c].from..], !s.rootDone)
  {
    hide Covers;
    var l := s.lists[p];
    assert ListOk(s.chans, l, p) && ListSent(s.chans, l, !s.rootDone);
    var i :| 0 <= i < |l.subs| && l.subs[i] == c;
    assert SentSoFar(l, i, s.chans[c], !s.rootDone);
    NothingDue(i);
    assert multiset(Stream(s.chans[c])) + multiset{} == multiset(Stream(s.chans[c]));
  }

  lemma LeavesSent(s: System, p: nat, c: nat, ch: Chan)
    requires Sending(s) && Safe(s) && Writable(s, p) && c in s.lists[p].subs && c < |s.chans|
    requires SameSent(s.chans[c].(until := Some(|s.lists[p].log|)), ch)
    ensures SentInAll(s.lists[p], ch, !s.rootDone)
  {
    IdleSent(s, p, c);
    var l := s.lists[p];
    assert l.log[ch.from..|l.log|] == l.log[ch.from..];
  }

  lemma PartedListSent(s: System, p: nat, c: nat)
    requires Sending(s) && Safe(s) && Writable(s, p) && c in s.lists[p].keys && c in s.lists[p].subs
    ensures ListSent(Parted(s, p, c).chans, Parted(s, p, c).lists[p], !s.rootDone)
  {
    hide Covers;
    var s', l := Parted(s, p, c), s.lists[p];
    assert ListOk(s.chans, l, p);
    forall i: nat | i < |s'.lists[p].subs| && s'.lists[p].subs[i] < |s'.chans|
      ensures SentSoFar(s'.lists[p], i, s'.chans[s'.lists[p].subs[i]], !s.rootDone)
    {
      var d := s'.lists[p].subs[i];
      WithoutMember(l.subs, c, d);
      IdleSent(s, p, d);
      NothingDue(i);
    }
  }

  lemma PartedSending(s: System, p: nat, c: nat)
    requires Sending(s) && Safe(s) && Writable(s, p)
    ensures Sending(Parted(s, p, c))
  {
    var s', l := Parted(s, p, c), s.lists[p];
    assert ListOk(s.chans, l, p);
    if c in l.subs {
      hide SentSoFar, Covers;
      forall r: nat | r < |s'.lists| ensures ListSent(s'.chans, s'.lists[r], !s'.rootDone) {
        assert ListSent(s.chans, s.lists[r], !s.rootDone) && ListOk(s.chans, s.lists[r], r);
        if r == p {
          PartedListSent(s, p, c);
        } else {
          assert c !in s.lists[r].subs;
        }
      }
      forall d: nat | d < |s'.chans| ensures LeftSent(s', d) {
        assert LeftSent(s, d);
        if d == c {
          LeavesSent(s, p, c, s'.chans[c]);
        }
      }
    }
  }

  lemma ClosedSending(s: System, p: nat)
    requires Sending(s) && Safe(s) && Writable(s, p)
    ensures Sending(Closed(s, p))
  {
    hide SentSoFar, Covers;
    var s', l := Closed(s, p), s.lists[p];
    assert ListOk(s.chans, l, p);
    forall r: nat | r < |s'.lists| ensures ListSent(s'.chans, s'.lists[r], !s'.rootDone) {
      assert ListSent(s.chans, s.lists[r], !s.rootDone) && ListOk(s.chans, s.lists[r], r);
      if r != p {
        assert forall c :: c in s.lists[r].subs ==> c !in l.subs;
      }
    }
    forall d: nat | d < |s'.chans| ensures LeftSent(s', d) {
      assert LeftSent(s, d);
      if d in l.subs {
        LeavesSent(s, p, d, s'.chans[d]);
      }
    }
  }

  /** A publish begins: its value joins the log, and is due at every position. */
  lemma BegunListSent(chans: seq<Chan>, l: SubList, t: nat, v: Sample, whole: bool)
    requires ListSent(chans, l, whole) && t !in l.readers
    ensures ListSent(chans, Begun(l, t, v), whole)
  {
    var l' := Begun(l, t, v);
    forall i: nat | i < |l'.subs| && l'.subs[i] < |chans| ensures SentSoFar(l', i, chans[l'.subs[i]], whole) {
      var ch := chans[l.subs[i]];
      assert SentSoFar(l, i, ch, whole);
      DueAfterBegin(l.readers, t, v, i);
      assert l'.log[ch.from..] == l.log[ch.from..] + [v];
    }
  }

  lemma LogGrows(l: SubList, l': SubList, ch: Chan, v: Sample, whole: bool)
    requires SentInAll(l, ch, whole) && l'.log == l.log + [v]
    ensures SentInAll(l', ch, whole)
  {
    assert ch.until.Some? ==> l'.log[ch.from..ch.until.value] == l.log[ch.from..ch.until.value];
  }

  lemma BegunSending(s: System, s': System, t: nat, v: Sample, p: nat)
    requires Sending(s) && p < |s.lists| && t !in s.lists[p].readers
    requires s'.lists == s.lists[p := Begun(s.lists[p], t, v)] && s'.chans == s.chans && s'.rootDone == s.rootDone
    ensures Sending(s')
  {
    hide ListSent, SentInAll;
    forall r: nat | r < |s'.lists| ensures ListSent(s'.chans, s'.lists[r], !s'.rootDone) {
      assert ListSent(s.chans, s.lists[r], !s.rootDone);
      if r == p {
        BegunListSent(s.chans, s.lists[p], t, v, !s.rootDone);
      }
    }
    forall c: nat | c < |s'.chans| ensures LeftSent(s', c) {
      assert LeftSent(s, c);
      if s.chans[c].until.Some? && s.chans[c].home == p {
        LogGrows(s.lists[p], s'.lists[p], s.chans[c], v, !s.rootDone);
      }
    }
  }

  /** A send: the value is no longer due at that position, and the channel has it. */
  lemma SendSent(l: SubList, t: nat, i: nat, ch: Chan, whole: bool)
    requires t in l.readers && SentSoFar(l, i, ch, whole)
    ensures var r := l.readers[t]; var l' := l.(readers := l.readers[t := r.(cursor := r.cursor + 1)]);
      SentSoFar(l', i, if i == r.cursor then ch.(buffer := ch.buffer + [r.value]) else ch, whole)
  {
    var r := l.readers[t];
    var ch' := ch.(buffer := ch.buffer + [r.value]);
    DueAfterSend(l.readers, t, i);
    assert Stream(ch') == Stream(ch) + [r.value];
  }

  lemma SentListSent(s: System, t: nat, p: nat)
    requires Sending(s) && Safe(s) && p < |s.lists| && t in s.lists[p].readers
    ensures ListSent(Sent(s, t, p).chans, Sent(s, t, p).lists[p], !s.rootDone)
  {
    hide SentSoFar, Stream;
    var s', l := Sent(s, t, p), s.lists[p];
    assert ListOk(s.chans, l, p) && ListSent(s.chans, l, !s.rootDone);
    forall i: nat | i < |s'.lists[p].subs| && s'.lists[p].subs[i] < |s'.chans|
      ensures SentSoFar(s'.lists[p], i, s'.chans[s'.lists[p].subs[i]], !s.rootDone)
    {
      assert SentSoFar(l, i, s.chans[l.subs[i]], !s.rootDone);
      SendSent(l, t, i, s.chans[l.subs[i]], !s.rootDone);
    }
  }

  lemma SentOthersSent(s: System, t: nat, p: nat, r: nat)
    requires Sending(s) && Safe(s) && p < |s.lists| && t in s.lists[p].readers && r < |s.lists| && r != p
    ensures ListSent(Sent(s, t, p).chans, Sent(s, t, p).lists[r], !s.rootDone)
  {
    hide SentSoFar, Stream;
    var l := s.lists[p];
    assert ListOk(s.chans, l, p) && ListOk(s.chans, s.lists[r], r) && ListSent(s.chans, s.lists[r], !s.rootDone);
    assert l.readers[t].cursor < |l.subs| ==> l.subs[l.readers[t].cursor] in l.subs;
    assert forall c :: c in s.lists[r].subs ==> c !in l.subs;
  }

  lemma SentLeftSent(s: System, t: nat, p: nat, c: nat)
    requires Sending(s) && Safe(s) && p < |s.lists| && t in s.lists[p].readers && c < |s.chans|
    ensures c < |Sent(s, t, p).chans| && LeftSent(Sent(s, t, p), c)
  {
    hide Covers, Stream;
    var l := s.lists[p];
    assert ListOk(s.chans, l, p) && LeftSent(s, c);
    assert l.readers[t].cursor < |l.subs| ==> l.subs[l.readers[t].cursor] in l.subs;
  }

  lemma SentSending(s: System, t: nat, p: nat)
    requires Sending(s) && Safe(s) && p < |s.lists| && t in s.lists[p].readers
    ensures Sending(Sent(s, t, p))
  {
    hide Sent, Safe, ListSent, LeftSent;
    var s' := Sent(s, t, p);
    SentSizes(s, t, p);
    forall r: nat | r < |s'.lists| ensures ListSent(s'.chans, s'.lists[r], !s'.rootDone) {
      if r == p {
        SentListSent(s, t, p);
      } else {
        SentOthersSent(s, t, p, r);
      }
    }
    forall c: nat | c < |s'.chans| ensures LeftSent(s', c) {
      SentLeftSent(s, t, p, c);
    }
  }

  lemma SentSizes(s: System, t: nat, p: nat)
    requires p < |s.lists| && t in s.lists[p].readers
    ensures var s' := Sent(s, t, p);
      |s'.lists| == |s.lists| && |s'.chans| == |s.chans| && s'.rootDone == s.rootDone
  {
  }

  /** A publish ends, or is given up: what it had still to send is no longer due, which is nothing if it is at its end. */
  lemma ReleasedListSent(chans: seq<Chan>, l: SubList, t: nat, whole: bool)
    requires ListSent(chans, l, whole) && t in l.readers && (whole ==> l.readers[t].cursor >= |l.subs|)
    ensures ListSent(chans, l.(readers := l.readers - {t}), whole)
  {
    var l' := l.(readers := l.readers - {t});
    forall i: nat | i < |l'.subs| && l'.subs[i] < |chans| ensures SentSoFar(l', i, chans[l'.subs[i]], whole) {
      assert SentSoFar(l, i, chans[l.subs[i]], whole);
      DueWithout(l.readers, t, i);
    }
  }

  lemma ReleasedSending(s: System, t: nat, p: nat, q: string)
    requires Sending(s) && p < |s.lists| && t in s.lists[p].readers
    requires !s.rootDone ==> s.lists[p].readers[t].cursor >= |s.lists[p].subs|
    ensures Sending(Released(s, t, p, q))
  {
    hide ListSent, SentInAll;
    var s' := Released(s, t, p, q);
    forall r: nat | r < |s'.lists| ensures ListSent(s'.chans, s'.lists[r], !s'.rootDone) {
      assert ListSent(s.chans, s.lists[r], !s.rootDone);
      if r == p {
        ReleasedListSent(s.chans, s.lists[p], t, !s.rootDone);
      }
    }
    forall c: nat | c < |s'.chans| ensures LeftSent(s', c) {
      assert LeftSent(s, c);
      SameLog(s.lists[p], s'.lists[p], s.chans[c], !s.rootDone);
    }
  }

  lemma SameLog(l: SubList, l': SubList, ch: Chan, whole: bool)
    requires l'.log == l.log
    ensures SentInAll(l', ch, whole) <==> SentInAll(l, ch, whole)
  {
  }

  lemma TakenSending(s: System, c: nat)
    requires Sending(s) && c < |s.chans|
    ensures Sending(Taken(s, c))
  {
    if s.chans[c].buffer != [] {
      assert [s.chans[c].buffer[0]] + s.chans[c].buffer[1..] == s.chans[c].buffer;
    }
    hide Sending;
    SameSending(s, Taken(s, c));
  }

  // ----- every step -----

  lemma ToSending(s: System, t: nat, thread: Thread)
    requires Sending(s)
    ensures Sending(To(s, t, thread))
  {
    hide Sending;
    SameSending(s, To(s, t, thread));
  }

  lemma ClientSending(s: System, step: Step, t: nat)
    requires Sending(s) && Safe(s) && t in s.threads
    ensures Sending(ApplyClient(s, step, t))
  {
    hide Joined, Parted, Closed, Sending, Safe;
    var s' := ApplyClient(s, step, t);
    if step.Attach? && s.threads[t].Attaching? && Writable(s, s.threads[t].list) {
      JoinedSending(s, s.threads[t].list);
      ToSending(Joined(s, s.threads[t].list), t, s'.threads[t]);
    } else if step.Detach? && s.threads[t].Detaching? && Writable(s, s.threads[t].list) {
      PartedSending(s, s.threads[t].list, s.threads[t].channel);
      ToSending(Parted(s, s.threads[t].list, s.threads[t].channel), t, s'.threads[t]);
    } else if step.CloseIdle? && s.threads[t].Closing? && Writable(s, s.threads[t].list) {
      ClosedSending(s, s.threads[t].list);
      ToSending(Closed(s, s.threads[t].list), t, s'.threads[t]);
    } else {
      SameSending(s, s');
    }
  }

  lemma PublishingSending(s: System, step: Step, t: nat)
    requires Sending(s) && Safe(s) && t in s.threads && s.threads[t].Publishing?
    ensures Sending(ApplyPoller(s, step, t))
  {
    hide Sending, Safe, Sent, Released;
    var p := s.threads[t].list;
    if p < |s.lists| && t in s.lists[p].readers {
      if step.Send? {
        SentSending(s, t, p);
      } else if ApplyPoller(s, step, t) != s {
        ReleasedSending(s, t, p, s.threads[t].query);
      }
    }
  }

  lemma ExitSending(s: System, step: Step, t: nat)
    requires Sending(s) && Safe(s) && t in s.threads && s.threads[t].ExitLocked?
    ensures Sending(ApplyPoller(s, step, t))
  {
    hide Sending, Safe, Closed;
    var q, s' := s.threads[t].query, ApplyPoller(s, step, t);
    if step.CloseOnExit? && q in s.queries && Writable(s, s.queries[q]) {
      ClosedSending(s, s.queries[q]);
      ToSending(Closed(s, s.queries[q]), t, ExitClosed(q));
    } else {
      SameSending(s, s');
    }
  }

  lemma StartingSending(s: System, step: Step, t: nat)
    requires Sending(s) && ReadersOk(s) && t in s.threads && s.threads[t].Starting?
    ensures Sending(ApplyPoller(s, step, t))
  {
    hide Sending;
    var s', p := ApplyPoller(s, step, t), s.threads[t].list;
    if step.BeginPublish? && p < |s.lists| {
      BegunSending(s, s', t, s.threads[t].value, p);
    } else {
      SameSending(s, s');
    }
  }

  lemma PollerSending(s: System, step: Step, t: nat)
    requires Sending(s) && Safe(s) && ReadersOk(s) && t in s.threads
    ensures Sending(ApplyPoller(s, step, t))
  {
    hide Sending, Safe, ReadersOk;
    if s.threads[t].Publishing? {
      hide ApplyPoller;
      PublishingSending(s, step, t);
    } else if s.threads[t].ExitLocked? {
      hide ApplyPoller;
      ExitSending(s, step, t);
    } else if s.threads[t].Starting? {
      hide ApplyPoller;
      StartingSending(s, step, t);
    } else {
      SameSending(s, ApplyPoller(s, step, t));
    }
  }

  lemma QuietSending(s: System, step: Step)
    requires Sending(s) && !Ordinary(step)
    ensures Sending(Apply(s, step))
  {
    hide Sending, Taken;
    if step.Receive? {
      if step.c < |s.chans| {
        TakenSending(s, step.c);
      }
    } else {
      SameSending(s, Apply(s, step));
    }
  }

  lemma StepKeepsSending(s: System, step: Step)
    requires Sending(s) && Safe(s) && ReadersOk(s)
    ensures Sending(Apply(s, step))
  {
    hide Apply, ApplyClient, ApplyPoller, Sending, Safe, ReadersOk;
    if !Ordinary(step) {
      QuietSending(s, step);
    } else if step.t !in s.threads {
      NobodyThere(s, step);
    } else if OfClient(step) {
      ClientIsClient(s, step);
      ClientSending(s, step, step.t);
    } else {
      PollerIsPoller(s, step);
      PollerSending(s, step, step.t);
    }
  }

  lemma {:induction false} EveryRunSends(steps: seq<Step>)
    ensures Sending(Exec(steps)) && ReadersOk(Exec(steps))
  {
    if steps != [] {
      hide Apply, Sending, Safe, ReadersOk;
      var init := steps[..|steps| - 1];
      EveryRunSends(init);
      EveryRunIsSafe(init);
      StepKeepsSending(Exec(init), steps[|steps| - 1]);
      StepKeepsReaders(Exec(init), steps[|steps| - 1]);
    }
  }

  /**
   Delivery in every run, however publishes overlap. A channel that has left its list was sent what was
   published between joining and leaving; one that is still in it, at some position, what was published
   since joining, short of the publishes in progress that have not reached that position. Nothing is sent
   twice or made up, and while the root context lives nothing is lost.
   */
  lemma {:induction false} DeliveredOnce(steps: seq<Step>, c: nat)
    requires c < |Exec(steps).chans|
    ensures var s := Exec(steps); var ch := s.chans[c];
      && ch.home < |s.lists|
      && if ch.until.Some? then SentInAll(s.lists[ch.home], ch, !s.rootDone)
         else exists i: nat :: i < |s.lists[ch.home].subs| && s.lists[ch.home].subs[i] == c
                               && SentSoFar(s.lists[ch.home], i, ch, !s.rootDone)
  {
    hide Exec, SentSoFar, SentInAll;
    EveryRunSends(steps);
    EveryRunPlaces(steps);
    var s := Exec(steps);
    var ch := s.chans[c];
    assert LeftSent(s, c);
    if ch.until == None {
      assert Lives(s, c);
      var i :| 0 <= i < |s.lists[ch.home].subs| && s.lists[ch.home].subs[i] == c;
      assert ListSent(s.chans, s.lists[ch.home], !s.rootDone);
      assert SentSoFar(s.lists[ch.home], i, ch, !s.rootDone);
    }
  }

  lemma LessIsIn(got: multiset<Sample>, due: multiset<Sample>, values: seq<Sample>, whole: bool, v: Sample)
    requires Covers(got + due, values, whole) && v in got
    ensures v in values
  {
    assert v in multiset(values);
  }

  /** Whatever a receiver has taken was published on its list since it joined. */
  lemma {:induction false} ReceivedWasPublished(steps: seq<Step>, c: nat, v: Sample)
    requires c < |Exec(steps).chans| && v in Exec(steps).chans[c].received
    ensures var s := Exec(steps); var ch := s.chans[c];
      ch.home < |s.lists| && ch.from <= |s.lists[ch.home].log| && v in s.lists[ch.home].log[ch.from..]
  {
    hide Exec, Covers, AllDue;
    DeliveredOnce(steps, c);
    var s := Exec(steps);
    var ch := s.chans[c];
    var l := s.lists[ch.home];
    assert v in Stream(ch) && v in multiset(Stream(ch));
    if ch.until.Some? {
      assert multiset(Stream(ch)) + multiset{} == multiset(Stream(ch));
      LessIsIn(multiset(Stream(ch)), multiset{}, l.log[ch.from..ch.until.value], !s.rootDone, v);
      assert l.log[ch.from..ch.until.value] <= l.log[ch.from..];
    } else {
      var i: nat :| i < |l.subs| && l.subs[i] == c && SentSoFar(l, i, ch, !s.rootDone);
      LessIsIn(multiset(Stream(ch)), AllDue(l.readers, i), l.log[ch.from..], !s.rootDone, v);
    }
  }
}
