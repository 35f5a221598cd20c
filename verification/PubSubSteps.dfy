/**
 The query publisher as a step machine at lock granularity: any number of
 subscribing, unsubscribing and polling goroutines, each step one critical
 section, one send or one receive. Subscribe stays the check-then-act it is, so
 orphaned subscriber lists occur.
 */
module PubSubSteps {
  import opened Types
  import opened PubSub

  /**
   A channel: what is buffered, what its receiver has taken, and the list it was created in.
   `from` and `until` are the numbers of publishes on that list when it joined and when it left.
   */
  datatype Chan = Chan(buffer: seq<Sample>, received: seq<Sample>, closed: bool, home: nat, from: nat, until: Option<nat>)

  /** A publish in progress holds the read lock of its list and has served the first `cursor` subscribers. */
  datatype Reader = Reader(cursor: nat, value: Sample)

  /**
   A pubSub object: the query it was created for, its slice, close map, the readers of its lock, and the
   values of the publishes begun on it.
   */
  datatype SubList = SubList(query: string, subs: seq<nat>, keys: set<nat>, readers: map<nat, Reader>, log: seq<Sample>)

  datatype Thread =
    | Subscribing(query: string)                     // Subscribe called
    | Creating(query: string)                        // found no list for the query
    | Inserting(query: string, list: nat)            // has a new list, not in the map yet
    | Attaching(query: string, list: nat)            // about to join the list
    | Subscribed(channel: nat)
    | Leaving(query: string, channel: nat)           // Unsubscribe called
    | Detaching(query: string, channel: nat, list: nat)
    | Checking(query: string, list: nat)             // removed, about to ask whether the list is active
    | Closing(query: string, list: nat)
    | Deleting(query: string)
    | Left
    | Waiting(query: string)                         // a poller between ticks
    | Querying(query: string)
    | Notifying(query: string, value: Sample)
    | Starting(query: string, value: Sample, list: nat)
    | Publishing(query: string, list: nat)
    | Exiting(query: string)                         // a poller about to take the map's lock
    | ExitLocked(query: string)
    | ExitClosed(query: string)
    | Gone

  datatype System = System(chans: seq<Chan>, lists: seq<SubList>, queries: map<string, nat>,
                         threads: map<nat, Thread>, writer: Option<nat>, rootDone: bool, panicked: bool)

  datatype Step =
    | CallSubscribe(t: nat, q: string)
    | CallUnsubscribe(t: nat, q: string, c: nat)
    | LookUp(t: nat)
    | Spawn(t: nat, poller: nat)
    | Insert(t: nat)
    | Attach(t: nat)
    | Detach(t: nat)
    | CheckActive(t: nat)
    | CloseIdle(t: nat)
    | Delete(t: nat)
    | Tick(t: nat)
    | StopOnRoot(t: nat)
    | Answer(t: nat, value: Option<Sample>)
    | BeginPublish(t: nat)
    | Send(t: nat)
    | Abort(t: nat)
    | EndPublish(t: nat)
    | LockAccess(t: nat)
    | CloseOnExit(t: nat)
    | DeleteOnExit(t: nat)
    | Receive(c: nat)
    | CancelRoot

  const EMPTY := System([], [], map[], map[], None, false, false)

  // ----- effects -----

  function To(s: System, t: nat, thread: Thread): System {
    s.(threads := s.threads[t := thread])
  }

  /** No reader holds the list's lock, so a writer may take it. */
  predicate Writable(s: System, p: nat) {
    p < |s.lists| && s.lists[p].readers == map[]
  }

  predicate MapFree(s: System) {
    s.writer == None
  }

  /** `subscribe`: a new channel joins list p. */
  function Joined(s: System, p: nat): System
    requires p < |s.lists|
  {
    var l, c := s.lists[p], |s.chans|;
    s.(chans := s.chans + [Chan([], [], false, p, |l.log|, None)],
       lists := s.lists[p := l.(subs := l.subs + [c], keys := l.keys + {c})])
  }

  function MarkLeft(chans: seq<Chan>, c: nat, until: nat): seq<Chan> {
    if c < |chans| && chans[c].until == None then chans[c := chans[c].(until := Some(until))] else chans
  }

  /** `unsubscribe`: a channel the list does not know is ignored. */
  function Parted(s: System, p: nat, c: nat): System
    requires p < |s.lists|
  {
    var l := s.lists[p];
    if c !in l.keys || c !in l.subs then s
    else s.(chans := MarkLeft(s.chans, c, |l.log|),
            lists := s.lists[p := l.(subs := Without(l.subs, c), keys := l.keys - {c})])
  }

  /** The channels with those of one list closed and marked as left. */
  function CloseAll(chans: seq<Chan>, subs: seq<nat>, until: nat): (r: seq<Chan>)
    ensures |r| == |chans|
    ensures forall c :: 0 <= c < |chans| ==>
      r[c] == if c in subs then chans[c].(closed := true, until := Some(until)) else chans[c]
  {
    seq(|chans|, c requires 0 <= c < |chans| =>
      if c in subs then chans[c].(closed := true, until := Some(until)) else chans[c])
  }

  /** `close`: closing a channel that is closed already is a panic. */
  function Closed(s: System, p: nat): System
    requires p < |s.lists|
  {
    var l := s.lists[p];
    s.(chans := CloseAll(s.chans, l.subs, |l.log|),
       lists := s.lists[p := l.(subs := [], keys := {})],
       panicked := s.panicked || exists c :: c in l.subs && c < |s.chans| && s.chans[c].closed)
  }

  /** One send of a publish; sending on a closed channel is a panic. */
  function Sent(s: System, t: nat, p: nat): System
    requires p < |s.lists| && t in s.lists[p].readers
  {
    var l := s.lists[p];
    var r := l.readers[t];
    if r.cursor >= |l.subs| || l.subs[r.cursor] >= |s.chans| then s
    else
      var c := l.subs[r.cursor];
      if s.chans[c].closed then s.(panicked := true)
      else if |s.chans[c].buffer| >= BUFFER_SIZE then s
      else s.(chans := s.chans[c := s.chans[c].(buffer := s.chans[c].buffer + [r.value])],
              lists := s.lists[p := l.(readers := l.readers[t := r.(cursor := r.cursor + 1)])])
  }

  function Released(s: System, t: nat, p: nat, q: string): System
    requires p < |s.lists|
  {
    To(s.(lists := s.lists[p := s.lists[p].(readers := s.lists[p].readers - {t})]), t, Waiting(q))
  }

  function Taken(s: System, c: nat): System
    requires c < |s.chans|
  {
    var ch := s.chans[c];
    if ch.buffer == [] then s
    else s.(chans := s.chans[c := ch.(buffer := ch.buffer[1..], received := ch.received + [ch.buffer[0]])])
  }

  // ----- steps -----

  function LookedUp(s: System, t: nat): System
    requires t in s.threads
  {
    match s.threads[t]
    case Subscribing(q) => To(s, t, if q in s.queries then Attaching(q, s.queries[q]) else Creating(q))
    case Leaving(q, c) => To(s, t, if q in s.queries then Detaching(q, c, s.queries[q]) else Left)
    case Notifying(q, v) => To(s, t, if q in s.queries then Starting(q, v, s.queries[q]) else Waiting(q))
    case _ => s
  }

  /** The steps of one thread's Subscribe or Unsubscribe. */
  function ApplyClient(s: System, step: Step, t: nat): System
    requires t in s.threads
  {
    match (step, s.threads[t])
    case (Insert(_), Inserting(q, p)) => if MapFree(s) then To(s.(queries := s.queries[q := p]), t, Attaching(q, p)) else s
    case (Attach(_), Attaching(_, p)) => if Writable(s, p) then To(Joined(s, p), t, Subscribed(|s.chans|)) else s
    case (Detach(_), Detaching(q, c, p)) => if Writable(s, p) then To(Parted(s, p, c), t, Checking(q, p)) else s
    case (CheckActive(_), Checking(q, p)) =>
      if p < |s.lists| then To(s, t, if s.lists[p].subs != [] then Left else Closing(q, p)) else s
    case (CloseIdle(_), Closing(q, p)) => if Writable(s, p) then To(Closed(s, p), t, Deleting(q)) else s
    case (Delete(_), Deleting(q)) => if MapFree(s) then To(s.(queries := s.queries - {q}), t, Left) else s
    case _ => s
  }

  /** The steps of one poller. */
  function ApplyPoller(s: System, step: Step, t: nat): System
    requires t in s.threads
  {
    match (step, s.threads[t])
    case (Tick(_), Waiting(q)) => if MapFree(s) then To(s, t, if q in s.queries then Querying(q) else Exiting(q)) else s
    case (StopOnRoot(_), Waiting(q)) => if s.rootDone then To(s, t, Exiting(q)) else s
    case (Answer(_, value), Querying(q)) => To(s, t, if value.Some? then Notifying(q, value.value) else Waiting(q))
    case (BeginPublish(_), Starting(q, v, p)) =>
      if p < |s.lists| then
        var l := s.lists[p];
        To(s.(lists := s.lists[p := l.(readers := l.readers[t := Reader(0, v)], log := l.log + [v])]), t, Publishing(q, p))
      else s
    case (Send(_), Publishing(_, p)) => if p < |s.lists| && t in s.lists[p].readers then Sent(s, t, p) else s
    case (Abort(_), Publishing(q, p)) =>
      if s.rootDone && p < |s.lists| && t in s.lists[p].readers && s.lists[p].readers[t].cursor < |s.lists[p].subs|
      then Released(s, t, p, q) else s
    case (EndPublish(_), Publishing(q, p)) =>
      if p < |s.lists| && t in s.lists[p].readers && s.lists[p].readers[t].cursor >= |s.lists[p].subs|
      then Released(s, t, p, q) else s
    case (LockAccess(_), Exiting(q)) => if MapFree(s) then To(s.(writer := Some(t)), t, ExitLocked(q)) else s
    case (CloseOnExit(_), ExitLocked(q)) =>
      if q !in s.queries then To(s, t, ExitClosed(q))
      else if Writable(s, s.queries[q]) then To(Closed(s, s.queries[q]), t, ExitClosed(q))
      else s
    case (DeleteOnExit(_), ExitClosed(q)) => To(s.(queries := s.queries - {q}, writer := None), t, Gone)
    case _ => s
  }

  /** One step; a step that is not enabled, or blocked, does nothing. */
  function Apply(s: System, step: Step): System {
    match step
    case CallSubscribe(t, q) => if t in s.threads then s else To(s, t, Subscribing(q))
    case CallUnsubscribe(t, q, c) => if t in s.threads then s else To(s, t, Leaving(q, c))
    case LookUp(t) => if t in s.threads && MapFree(s) then LookedUp(s, t) else s
    case Spawn(t, poller) =>
      if t in s.threads && s.threads[t].Creating? && poller !in s.threads then
        var q := s.threads[t].query;
        To(To(s.(lists := s.lists + [SubList(q, [], {}, map[], [])]), poller, Waiting(q)), t, Inserting(q, |s.lists|))
      else s
    case Receive(c) => if c < |s.chans| then Taken(s, c) else s
    case CancelRoot => s.(rootDone := true)
    case Insert(t) => if t in s.threads then ApplyClient(s, step, t) else s
    case Attach(t) => if t in s.threads then ApplyClient(s, step, t) else s
    case Detach(t) => if t in s.threads then ApplyClient(s, step, t) else s
    case CheckActive(t) => if t in s.threads then ApplyClient(s, step, t) else s
    case CloseIdle(t) => if t in s.threads then ApplyClient(s, step, t) else s
    case Delete(t) => if t in s.threads then ApplyClient(s, step, t) else s
    case _ => if step.t in s.threads then ApplyPoller(s, step, step.t) else s
  }

  /** The steps that are those of a client or those of a poller. */
  predicate Ordinary(step: Step) {
    !step.CallSubscribe? && !step.CallUnsubscribe? && !step.LookUp? && !step.Spawn? && !step.Receive? && !step.CancelRoot?
  }

  predicate OfClient(step: Step) {
    step.Insert? || step.Attach? || step.Detach? || step.CheckActive? || step.CloseIdle? || step.Delete?
  }

  lemma ClientIsClient(s: System, step: Step)
    requires OfClient(step) && step.t in s.threads
    ensures Apply(s, step) == ApplyClient(s, step, step.t)
  {
    hide ApplyClient, ApplyPoller;
  }

  lemma PollerIsPoller(s: System, step: Step)
    requires Ordinary(step) && !OfClient(step) && step.t in s.threads
    ensures Apply(s, step) == ApplyPoller(s, step, step.t)
  {
    hide ApplyClient, ApplyPoller;
  }

  lemma NobodyThere(s: System, step: Step)
    requires Ordinary(step) && step.t !in s.threads
    ensures Apply(s, step) == s
  {
  }

  function Exec(steps: seq<Step>): System {
    if steps == [] then EMPTY else Apply(Exec(steps[..|steps| - 1]), steps[|steps| - 1])
  }

  lemma {:induction false} ExecNext(steps: seq<Step>, step: Step)
    ensures Exec(steps + [step]) == Apply(Exec(steps), step)
  {
    assert (steps + [step])[..|steps|] == steps;
  }

  // ----- channel safety -----

  /** One list: distinct channels, all created in this list, open and not marked as left; keys to match. */
  ghost predicate ListOk(chans: seq<Chan>, l: SubList, p: nat) {
    && Distinct(l.subs)
    && l.keys == (set c | c in l.subs)
    && (forall c :: c in l.subs ==> c < |chans| && !chans[c].closed && chans[c].home == p && chans[c].until == None)
    && (forall t :: t in l.readers ==> l.readers[t].cursor <= |l.subs|)
  }

  ghost predicate ListsOk(s: System) {
    forall p :: 0 <= p < |s.lists| ==> ListOk(s.chans, s.lists[p], p)
  }

  /** A channel buffers ten values. */
  ghost predicate BuffersOk(s: System) {
    forall c :: 0 <= c < |s.chans| ==> |s.chans[c].buffer| <= 10
  }

  ghost predicate Safe(s: System) {
    !s.panicked && ListsOk(s) && BuffersOk(s)
  }

  lemma JoinedKeeps(s: System, p: nat)
    requires Safe(s) && Writable(s, p)
    ensures Safe(Joined(s, p))
  {
    var s' := Joined(s, p);
    forall r | 0 <= r < |s'.lists| ensures ListOk(s'.chans, s'.lists[r], r) {
      assert ListOk(s.chans, s.lists[r], r);
    }
  }

  lemma PartedKeeps(s: System, p: nat, c: nat)
    requires Safe(s) && Writable(s, p)
    ensures Safe(Parted(s, p, c))
  {
    var s', l := Parted(s, p, c), s.lists[p];
    WithoutDistinct(l.subs, c) by { assert ListOk(s.chans, l, p); }
    forall d ensures d in Without(l.subs, c) <==> d in l.subs && d != c {
      WithoutMember(l.subs, c, d);
    }
    forall r | 0 <= r < |s'.lists| ensures ListOk(s'.chans, s'.lists[r], r) {
      assert ListOk(s.chans, s.lists[r], r) && ListOk(s.chans, l, p);
    }
  }

  lemma ClosedKeeps(s: System, p: nat)
    requires Safe(s) && Writable(s, p)
    ensures Safe(Closed(s, p))
  {
    var s', l := Closed(s, p), s.lists[p];
    assert ListOk(s.chans, l, p);
    forall r | 0 <= r < |s'.lists| ensures ListOk(s'.chans, s'.lists[r], r) {
      assert ListOk(s.chans, s.lists[r], r);
    }
  }

  lemma SentKeeps(s: System, t: nat, p: nat)
    requires Safe(s) && p < |s.lists| && t in s.lists[p].readers
    ensures Safe(Sent(s, t, p))
  {
    var s', l := Sent(s, t, p), s.lists[p];
    assert ListOk(s.chans, l, p);
    forall r | 0 <= r < |s'.lists| ensures ListOk(s'.chans, s'.lists[r], r) {
      assert ListOk(s.chans, s.lists[r], r);
    }
  }

  lemma TakenKeeps(s: System, c: nat)
    requires Safe(s) && c < |s.chans|
    ensures Safe(Taken(s, c))
  {
    var s' := Taken(s, c);
    forall r | 0 <= r < |s'.lists| ensures ListOk(s'.chans, s'.lists[r], r) {
      assert ListOk(s.chans, s.lists[r], r);
    }
  }

  lemma ClientKeeps(s: System, step: Step, t: nat)
    requires Safe(s) && t in s.threads
    ensures Safe(ApplyClient(s, step, t))
  {
    hide Joined, Parted, Closed;
    match (step, s.threads[t])
    case (Attach(_), Attaching(_, p)) => if Writable(s, p) { JoinedKeeps(s, p); }
    case (Detach(_), Detaching(q, c, p)) => if Writable(s, p) { PartedKeeps(s, p, c); }
    case (CloseIdle(_), Closing(q, p)) => if Writable(s, p) { ClosedKeeps(s, p); }
    case _ =>
  }

  lemma PollerKeeps(s: System, step: Step, t: nat)
    requires Safe(s) && t in s.threads
    ensures Safe(ApplyPoller(s, step, t))
  {
    hide Closed, Sent;
    match (step, s.threads[t])
    case (Send(_), Publishing(_, p)) => if p < |s.lists| && t in s.lists[p].readers { SentKeeps(s, t, p); }
    case (CloseOnExit(_), ExitLocked(q)) => if q in s.queries && Writable(s, s.queries[q]) { ClosedKeeps(s, s.queries[q]); }
    case _ =>
  }

  lemma StepKeepsSafe(s: System, step: Step)
    requires Safe(s)
    ensures Safe(Apply(s, step))
  {
    hide ApplyClient, ApplyPoller, Taken;
    match step
    case Receive(c) => if c < |s.chans| { TakenKeeps(s, c); }
    case Spawn(t, poller) =>
    case LookUp(t) =>
    case CallSubscribe(t, q) =>
    case CallUnsubscribe(t, q, c) =>
    case CancelRoot =>
    case _ =>
      if step.t in s.threads {
        ClientKeeps(s, step, step.t);
        PollerKeeps(s, step, step.t);
      }
  }

  /** The publish's next subscriber has a closed channel. */
  predicate SendsOnClosed(s: System, t: nat, p: nat) {
    && p < |s.lists| && t in s.lists[p].readers && s.lists[p].readers[t].cursor < |s.lists[p].subs|
    && var c := s.lists[p].subs[s.lists[p].readers[t].cursor]; c < |s.chans| && s.chans[c].closed
  }

  /** One of the list's channels is closed already. */
  predicate ClosesTwice(s: System, p: nat) {
    Writable(s, p) && exists c :: c in s.lists[p].subs && c < |s.chans| && s.chans[c].closed
  }

  /** A step of one thread that sends on a closed channel, or closes one a second time. */
  predicate Panics(s: System, step: Step) {
    match step
    case Send(t) => t in s.threads && s.threads[t].Publishing? && SendsOnClosed(s, t, s.threads[t].list)
    case CloseIdle(t) => t in s.threads && s.threads[t].Closing? && ClosesTwice(s, s.threads[t].list)
    case CloseOnExit(t) =>
      && t in s.threads && s.threads[t].ExitLocked? && s.threads[t].query in s.queries
      && ClosesTwice(s, s.queries[s.threads[t].query])
    case _ => false
  }

  lemma ClientPanics(s: System, step: Step, t: nat)
    requires t in s.threads && OfClient(step) && step.t == t
    ensures ApplyClient(s, step, t).panicked <==> s.panicked || Panics(s, step)
  {
  }

  lemma PollerPanics(s: System, step: Step, t: nat)
    requires t in s.threads && Ordinary(step) && !OfClient(step) && step.t == t
    ensures ApplyPoller(s, step, t).panicked <==> s.panicked || Panics(s, step)
  {
  }

  /** What would be a panic: a send on a closed channel, and a second close of one. */
  lemma PanicsExactly(s: System, step: Step)
    ensures Apply(s, step).panicked <==> s.panicked || Panics(s, step)
  {
    hide ApplyClient, ApplyPoller, Panics;
    if !Ordinary(step) {
      OthersDoNotPanic(s, step);
    } else if step.t !in s.threads {
      NobodyThere(s, step);
      NobodyPanics(s, step);
    } else if OfClient(step) {
      ClientIsClient(s, step);
      ClientPanics(s, step, step.t);
    } else {
      PollerIsPoller(s, step);
      PollerPanics(s, step, step.t);
    }
  }

  lemma OthersDoNotPanic(s: System, step: Step)
    requires !Ordinary(step)
    ensures Apply(s, step).panicked == s.panicked && !Panics(s, step)
  {
  }

  lemma NobodyPanics(s: System, step: Step)
    requires Ordinary(step) && step.t !in s.threads
    ensures !Panics(s, step)
  {
  }

  /**
   Channel safety in every interleaving, orphaned lists included: nothing panics, so no channel is closed
   twice and nothing is sent on a closed one; subscribed channels are open; no buffer exceeds its size.
   */
  lemma {:induction false} EveryRunIsSafe(steps: seq<Step>)
    ensures Safe(Exec(steps))
  {
    if steps != [] {
      hide Apply, Safe;
      EveryRunIsSafe(steps[..|steps| - 1]);
      StepKeepsSafe(Exec(steps[..|steps| - 1]), steps[|steps| - 1]);
    } else {
    }
  }

  /** No channel is in two subscriber lists, nor twice in one. */
  lemma {:induction false} ChannelsInOneListOnce(steps: seq<Step>, p: nat, i: nat, r: nat, j: nat)
    requires p < |Exec(steps).lists| && i < |Exec(steps).lists[p].subs|
    requires r < |Exec(steps).lists| && j < |Exec(steps).lists[r].subs|
    requires Exec(steps).lists[p].subs[i] == Exec(steps).lists[r].subs[j]
    ensures p == r && i == j
  {
    EveryRunIsSafe(steps);
    var s := Exec(steps);
    assert ListOk(s.chans, s.lists[p], p) && ListOk(s.chans, s.lists[r], r);
    assert s.lists[p].subs[i] in s.lists[p].subs && s.lists[r].subs[j] in s.lists[r].subs;
  }

  // ----- delivery -----

  /** Everything a receiver has been sent: what it took, then what is buffered. */
  function Stream(ch: Chan): seq<Sample> {
    ch.received + ch.buffer
  }

  /** A publish in progress on the list has not reached position k yet. */
  ghost predicate Pending(l: SubList, k: nat) {
    exists t :: t in l.readers && l.readers[t].cursor <= k
  }

  /** How many of the list's publishes have reached position k. */
  ghost function Reached(l: SubList, k: nat): int {
    |l.log| - if Pending(l, k) then 1 else 0
  }

  /** The publishes of a list are serial: at most one in progress, and it is the last one begun. */
  ghost predicate Serial(l: SubList) {
    && (forall t, u :: t in l.readers && u in l.readers ==> t == u)
    && (forall t :: t in l.readers ==> |l.log| > 0 && l.readers[t].value == l.log[|l.log| - 1])
  }

  /** The channel at position k got exactly the values published since it joined and up to its position. */
  ghost predicate UpToDate(l: SubList, k: nat, ch: Chan) {
    ch.from <= Reached(l, k) <= |l.log| && Stream(ch) == l.log[ch.from..Reached(l, k)]
  }

  /** A channel that has left got exactly the values published between its joining and its leaving. */
  ghost predicate Final(l: SubList, ch: Chan) {
    ch.until.Some? && ch.from <= ch.until.value <= |l.log| && Stream(ch) == l.log[ch.from..ch.until.value]
  }

  ghost predicate ListDelivers(chans: seq<Chan>, l: SubList) {
    Serial(l) && forall k :: 0 <= k < |l.subs| && l.subs[k] < |chans| ==> UpToDate(l, k, chans[l.subs[k]])
  }

  ghost predicate AllDeliver(s: System) {
    forall p :: 0 <= p < |s.lists| ==> ListDelivers(s.chans, s.lists[p])
  }

  /** Every channel is either in the list it was created in, or has left it for good. */
  ghost predicate Placed(s: System, c: nat)
    requires c < |s.chans|
  {
    var ch := s.chans[c];
    && ch.home < |s.lists|
    && if ch.until == None then c in s.lists[ch.home].subs else Final(s.lists[ch.home], ch)
  }

  ghost predicate AllPlaced(s: System) {
    forall c :: 0 <= c < |s.chans| ==> Placed(s, c)
  }

  ghost predicate Delivering(s: System) {
    Safe(s) && !s.rootDone && AllDeliver(s) && AllPlaced(s)
  }

  /** The restriction under which delivery is exact: the root context lives, and no publish overlaps another on its list. */
  predicate SerialStep(s: System, step: Step) {
    match step
    case CancelRoot => false
    case BeginPublish(t) =>
      t in s.threads && s.threads[t].Starting? && s.threads[t].list < |s.lists| ==> s.lists[s.threads[t].list].readers == map[]
    case _ => true
  }

  predicate SerialRun(steps: seq<Step>) {
    steps == [] || (SerialRun(steps[..|steps| - 1]) && SerialStep(Exec(steps[..|steps| - 1]), steps[|steps| - 1]))
  }

  lemma IdleReached(l: SubList, k: nat)
    requires l.readers == map[]
    ensures Reached(l, k) == |l.log|
  {
  }

  lemma JoinedDelivers(s: System, p: nat)
    requires Delivering(s) && Writable(s, p)
    ensures Delivering(Joined(s, p))
  {
    JoinedKeeps(s, p);
    var s', l := Joined(s, p), s.lists[p];
    forall r | 0 <= r < |s'.lists| ensures ListDelivers(s'.chans, s'.lists[r]) {
      assert ListDelivers(s.chans, s.lists[r]) && ListOk(s.chans, s.lists[r], r);
      forall k | 0 <= k < |s'.lists[r].subs| && s'.lists[r].subs[k] < |s'.chans|
        ensures UpToDate(s'.lists[r], k, s'.chans[s'.lists[r].subs[k]])
      {
        if k < |s.lists[r].subs| {
          assert s.lists[r].subs[k] in s.lists[r].subs;
          assert UpToDate(s.lists[r], k, s.chans[s.lists[r].subs[k]]);
          assert Pending(s'.lists[r], k) == Pending(s.lists[r], k);
        } else {
          IdleReached(s'.lists[r], k);
        }
      }
    }
    forall c | 0 <= c < |s'.chans| ensures Placed(s', c) {
      if c < |s.chans| {
        assert Placed(s, c);
      }
    }
  }

  /** On an idle list every subscriber has everything. */
  lemma IdleUpToDate(s: System, p: nat, c: nat)
    requires Delivering(s) && Writable(s, p) && c in s.lists[p].subs
    ensures c < |s.chans| && s.chans[c].from <= |s.lists[p].log|
    ensures Stream(s.chans[c]) == s.lists[p].log[s.chans[c].from..|s.lists[p].log|]
  {
    var l := s.lists[p];
    assert ListOk(s.chans, l, p) && ListDelivers(s.chans, l);
    var k :| 0 <= k < |l.subs| && l.subs[k] == c;
    assert UpToDate(l, k, s.chans[c]);
    IdleReached(l, k);
  }

  lemma PartedListDelivers(s: System, p: nat, c: nat)
    requires Delivering(s) && Writable(s, p) && c in s.lists[p].keys && c in s.lists[p].subs
    ensures ListDelivers(Parted(s, p, c).chans, Parted(s, p, c).lists[p])
  {
    var s', l := Parted(s, p, c), s.lists[p];
    assert ListOk(s.chans, l, p) && ListDelivers(s.chans, l);
    forall k | 0 <= k < |s'.lists[p].subs| && s'.lists[p].subs[k] < |s'.chans|
      ensures UpToDate(s'.lists[p], k, s'.chans[s'.lists[p].subs[k]])
    {
      var d := s'.lists[p].subs[k];
      WithoutMember(l.subs, c, d);
      IdleUpToDate(s, p, d);
      IdleReached(s'.lists[p], k);
    }
  }

  lemma PartedDelivers(s: System, p: nat, c: nat)
    requires Delivering(s) && Writable(s, p)
    ensures Delivering(Parted(s, p, c))
  {
    PartedKeeps(s, p, c);
    var s', l := Parted(s, p, c), s.lists[p];
    assert ListOk(s.chans, l, p);
    if c in l.subs {
      hide UpToDate;
      WithoutMember(l.subs, c, c);
      forall r | 0 <= r < |s'.lists| ensures ListDelivers(s'.chans, s'.lists[r]) {
        assert ListDelivers(s.chans, s.lists[r]) && ListOk(s.chans, s.lists[r], r);
        if r == p {
          PartedListDelivers(s, p, c);
        } else {
          assert c !in s.lists[r].subs;
        }
      }
      forall d: nat | d < |s'.chans| ensures Placed(s', d) {
        assert Placed(s, d);
        WithoutMember(l.subs, c, d);
        if d == c {
          IdleUpToDate(s, p, c);
        }
      }
    }
  }

  lemma ClosedDelivers(s: System, p: nat)
    requires Delivering(s) && Writable(s, p)
    ensures Delivering(Closed(s, p))
  {
    ClosedKeeps(s, p);
    var s', l := Closed(s, p), s.lists[p];
    assert ListOk(s.chans, l, p);
    forall r | 0 <= r < |s'.lists| ensures ListDelivers(s'.chans, s'.lists[r]) {
      assert ListDelivers(s.chans, s.lists[r]) && ListOk(s.chans, s.lists[r], r);
      if r != p {
        assert forall c :: c in s.lists[r].subs ==> c !in l.subs;
      }
    }
    forall d | 0 <= d < |s'.chans| ensures Placed(s', d) {
      assert Placed(s, d);
      if d in l.subs {
        IdleUpToDate(s, p, d);
      }
    }
  }

  /** `publish` takes the read lock: the value joins the log, and nobody has it yet. */
  function Begun(l: SubList, t: nat, v: Sample): SubList {
    l.(readers := l.readers[t := Reader(0, v)], log := l.log + [v])
  }

  lemma BegunListDelivers(chans: seq<Chan>, l: SubList, t: nat, v: Sample)
    requires ListDelivers(chans, l) && l.readers == map[]
    ensures ListDelivers(chans, Begun(l, t, v))
  {
    var l' := Begun(l, t, v);
    forall k | 0 <= k < |l'.subs| && l'.subs[k] < |chans| ensures UpToDate(l', k, chans[l'.subs[k]]) {
      assert UpToDate(l, k, chans[l.subs[k]]);
      IdleReached(l, k);
      assert t in l'.readers && l'.readers[t].cursor <= k;
      assert Pending(l', k);
    }
  }

  lemma BegunDelivers(s: System, t: nat, v: Sample, p: nat)
    requires Delivering(s) && Writable(s, p)
    ensures var s' := s.(lists := s.lists[p := Begun(s.lists[p], t, v)]); Delivering(s')
  {
    var s' := s.(lists := s.lists[p := Begun(s.lists[p], t, v)]);
    forall r | 0 <= r < |s'.lists| ensures ListDelivers(s'.chans, s'.lists[r]) && ListOk(s'.chans, s'.lists[r], r) {
      assert ListDelivers(s.chans, s.lists[r]) && ListOk(s.chans, s.lists[r], r);
      if r == p {
        BegunListDelivers(s.chans, s.lists[p], t, v);
      }
    }
    forall c | 0 <= c < |s'.chans| ensures Placed(s', c) {
      assert Placed(s, c);
    }
  }

  function Served(l: SubList, t: nat): SubList
    requires t in l.readers
  {
    l.(readers := l.readers[t := l.readers[t].(cursor := l.readers[t].cursor + 1)])
  }

  /** Serving a position gives its channel the value of the last publish, and that publish has now reached it. */
  lemma ServedPosition(l: SubList, t: nat, ch: Chan)
    requires Serial(l) && t in l.readers && UpToDate(l, l.readers[t].cursor, ch)
    ensures UpToDate(Served(l, t), l.readers[t].cursor, ch.(buffer := ch.buffer + [l.readers[t].value]))
  {
    var l', k, r := Served(l, t), l.readers[t].cursor, l.readers[t];
    assert forall u :: u in l'.readers ==> u == t;
    assert Pending(l, k) && !Pending(l', k);
    var ch' := ch.(buffer := ch.buffer + [r.value]);
    assert Stream(ch') == Stream(ch) + [r.value];
    assert l.log[ch.from..|l.log|] == l.log[ch.from..|l.log| - 1] + [l.log[|l.log| - 1]];
  }

  lemma OtherPosition(l: SubList, t: nat, k: nat, ch: Chan)
    requires Serial(l) && t in l.readers && l.readers[t].cursor != k && UpToDate(l, k, ch)
    ensures UpToDate(Served(l, t), k, ch)
  {
    var l' := Served(l, t);
    assert forall u :: u in l'.readers ==> u == t;
    assert Pending(l, k) <==> l.readers[t].cursor <= k;
    assert t in l'.readers && (Pending(l', k) <==> l'.readers[t].cursor <= k);
  }

  lemma SentListDelivers(s: System, t: nat, p: nat)
    requires Delivering(s) && p < |s.lists| && t in s.lists[p].readers
    ensures ListDelivers(Sent(s, t, p).chans, Sent(s, t, p).lists[p])
  {
    var s', l, i := Sent(s, t, p), s.lists[p], s.lists[p].readers[t].cursor;
    assert ListDelivers(s.chans, l) && ListOk(s.chans, l, p);
    forall k | 0 <= k < |l.subs| ensures l.subs[k] < |s.chans| && !s.chans[l.subs[k]].closed {
      assert l.subs[k] in l.subs;
    }
    if i < |l.subs| && |s.chans[l.subs[i]].buffer| < BUFFER_SIZE {
      assert s'.lists[p] == Served(l, t);
      hide UpToDate;
      forall k | 0 <= k < |l.subs| ensures UpToDate(Served(l, t), k, s'.chans[l.subs[k]]) {
        assert UpToDate(l, k, s.chans[l.subs[k]]);
        if k == i {
          ServedPosition(l, t, s.chans[l.subs[k]]);
        } else {
          OtherPosition(l, t, k, s.chans[l.subs[k]]);
        }
      }
    }
  }

  lemma SentDelivers(s: System, t: nat, p: nat)
    requires Delivering(s) && p < |s.lists| && t in s.lists[p].readers
    ensures Delivering(Sent(s, t, p))
  {
    SentKeeps(s, t, p);
    var s', l, r := Sent(s, t, p), s.lists[p], s.lists[p].readers[t];
    assert ListOk(s.chans, l, p);
    forall q | 0 <= q < |s'.lists| ensures ListDelivers(s'.chans, s'.lists[q]) {
      assert ListDelivers(s.chans, s.lists[q]) && ListOk(s.chans, s.lists[q], q);
      if q == p {
        SentListDelivers(s, t, p);
      } else if r.cursor < |l.subs| {
        assert l.subs[r.cursor] in l.subs;
        assert l.subs[r.cursor] !in s.lists[q].subs;
      }
    }
    forall c | 0 <= c < |s'.chans| ensures Placed(s', c) {
      assert Placed(s, c);
      if r.cursor < |l.subs| {
        assert l.subs[r.cursor] in l.subs;
      }
    }
  }

  /** A publish ends when it has reached every position, so nothing is pending before or after. */
  lemma EndedDelivers(s: System, t: nat, p: nat)
    requires Delivering(s) && p < |s.lists| && t in s.lists[p].readers && s.lists[p].readers[t].cursor >= |s.lists[p].subs|
    ensures var s' := s.(lists := s.lists[p := s.lists[p].(readers := s.lists[p].readers - {t})]); Delivering(s')
  {
    var s' := s.(lists := s.lists[p := s.lists[p].(readers := s.lists[p].readers - {t})]);
    forall r | 0 <= r < |s'.lists| ensures ListDelivers(s'.chans, s'.lists[r]) && ListOk(s'.chans, s'.lists[r], r) {
      var l, l' := s.lists[r], s'.lists[r];
      assert ListDelivers(s.chans, l) && ListOk(s.chans, l, r);
      forall k | 0 <= k < |l'.subs| && l'.subs[k] < |s'.chans| ensures UpToDate(l', k, s'.chans[l'.subs[k]]) {
        assert UpToDate(l, k, s.chans[l.subs[k]]);
        assert Pending(l', k) == Pending(l, k);
      }
    }
    forall c | 0 <= c < |s'.chans| ensures Placed(s', c) {
      assert Placed(s, c);
    }
  }

  lemma TakenDelivers(s: System, c: nat)
    requires Delivering(s) && c < |s.chans|
    ensures Delivering(Taken(s, c))
  {
    TakenKeeps(s, c);
    var s' := Taken(s, c);
    assert s.chans[c].buffer != [] ==> [s.chans[c].buffer[0]] + s.chans[c].buffer[1..] == s.chans[c].buffer;
    assert Stream(s'.chans[c]) == Stream(s.chans[c]);
    forall r | 0 <= r < |s'.lists| ensures ListDelivers(s'.chans, s'.lists[r]) {
      assert ListDelivers(s.chans, s.lists[r]);
      forall k | 0 <= k < |s.lists[r].subs| && s.lists[r].subs[k] < |s.chans|
        ensures UpToDate(s.lists[r], k, s'.chans[s.lists[r].subs[k]])
      {
        assert UpToDate(s.lists[r], k, s.chans[s.lists[r].subs[k]]);
      }
    }
    forall d | 0 <= d < |s'.chans| ensures Placed(s', d) {
      assert Placed(s, d);
    }
  }

  /** Delivery does not look at threads, the map or its lock. */
  lemma SameChannels(m: System, s': System)
    requires Delivering(m)
    requires s'.chans == m.chans && s'.lists == m.lists && s'.rootDone == m.rootDone && s'.panicked == m.panicked
    ensures Delivering(s')
  {
    forall c | 0 <= c < |s'.chans| ensures Placed(s', c) {
      assert Placed(m, c);
    }
  }

  /** The client steps that touch no channel and no list. */
  lemma ClientSameChannels(s: System, step: Step, t: nat)
    requires t in s.threads && !step.Attach? && !step.Detach? && !step.CloseIdle?
    ensures var s' := ApplyClient(s, step, t);
      s'.chans == s.chans && s'.lists == s.lists && s'.rootDone == s.rootDone && s'.panicked == s.panicked
  {
  }

  lemma ClientDelivers(s: System, step: Step, t: nat)
    requires Delivering(s) && t in s.threads
    ensures Delivering(ApplyClient(s, step, t))
  {
    hide Joined, Parted, Closed, Delivering;
    var s' := ApplyClient(s, step, t);
    if step.Attach? && s.threads[t].Attaching? && Writable(s, s.threads[t].list) {
      JoinedDelivers(s, s.threads[t].list);
      SameChannels(Joined(s, s.threads[t].list), s');
    } else if step.Detach? && s.threads[t].Detaching? && Writable(s, s.threads[t].list) {
      PartedDelivers(s, s.threads[t].list, s.threads[t].channel);
      SameChannels(Parted(s, s.threads[t].list, s.threads[t].channel), s');
    } else if step.CloseIdle? && s.threads[t].Closing? && Writable(s, s.threads[t].list) {
      ClosedDelivers(s, s.threads[t].list);
      SameChannels(Closed(s, s.threads[t].list), s');
    } else if !step.Attach? && !step.Detach? && !step.CloseIdle? {
      ClientSameChannels(s, step, t);
      SameChannels(s, s');
    }
  }

  /** The poller steps that touch no channel and no list while the root context lives. */
  lemma PollerSameChannels(s: System, step: Step, t: nat)
    requires t in s.threads && !s.rootDone
    requires !step.BeginPublish? && !step.Send? && !step.EndPublish? && !step.CloseOnExit?
    ensures var s' := ApplyPoller(s, step, t);
      s'.chans == s.chans && s'.lists == s.lists && s'.rootDone == s.rootDone && s'.panicked == s.panicked
  {
  }

  lemma NotAborting(s: System)
    requires Delivering(s)
    ensures !s.rootDone
  {
  }

  lemma PollerDelivers(s: System, step: Step, t: nat)
    requires Delivering(s) && t in s.threads && SerialStep(s, step)
    requires !step.CancelRoot? && !step.Receive? && step.t == t
    ensures Delivering(ApplyPoller(s, step, t))
  {
    hide Closed, Sent, Delivering, Released, ApplyPoller;
    NotAborting(s);
    match step
    case BeginPublish(_) => BeginPublishDelivers(s, t);
    case Send(_) => SendDelivers(s, t);
    case EndPublish(_) => EndPublishDelivers(s, t);
    case CloseOnExit(_) => CloseOnExitDelivers(s, t);
    case CancelRoot =>
    case Receive(_) =>
    case _ =>
      PollerSameChannels(s, step, t);
      SameChannels(s, ApplyPoller(s, step, t));
  }

  lemma BeginPublishDelivers(s: System, t: nat)
    requires Delivering(s) && t in s.threads && SerialStep(s, BeginPublish(t))
    ensures Delivering(ApplyPoller(s, BeginPublish(t), t))
  {
    hide Delivering;
    if s.threads[t].Starting? && s.threads[t].list < |s.lists| {
      var v, p := s.threads[t].value, s.threads[t].list;
      BegunDelivers(s, t, v, p);
      SameChannels(s.(lists := s.lists[p := Begun(s.lists[p], t, v)]), ApplyPoller(s, BeginPublish(t), t));
    }
  }

  lemma SendDelivers(s: System, t: nat)
    requires Delivering(s) && t in s.threads
    ensures Delivering(ApplyPoller(s, Send(t), t))
  {
    hide Delivering, Sent;
    if s.threads[t].Publishing? && s.threads[t].list < |s.lists| && t in s.lists[s.threads[t].list].readers {
      SentDelivers(s, t, s.threads[t].list);
    }
  }

  lemma EndPublishDelivers(s: System, t: nat)
    requires Delivering(s) && t in s.threads
    ensures Delivering(ApplyPoller(s, EndPublish(t), t))
  {
    hide Delivering;
    var s' := ApplyPoller(s, EndPublish(t), t);
    if s.threads[t].Publishing? {
      var p := s.threads[t].list;
      if p < |s.lists| && t in s.lists[p].readers && s.lists[p].readers[t].cursor >= |s.lists[p].subs| {
        EndedDelivers(s, t, p);
        SameChannels(s.(lists := s.lists[p := s.lists[p].(readers := s.lists[p].readers - {t})]), s');
      }
    }
  }

  lemma CloseOnExitDelivers(s: System, t: nat)
    requires Delivering(s) && t in s.threads
    ensures Delivering(ApplyPoller(s, CloseOnExit(t), t))
  {
    hide Delivering, Closed;
    var s' := ApplyPoller(s, CloseOnExit(t), t);
    if s.threads[t].ExitLocked? {
      var q := s.threads[t].query;
      if q in s.queries && Writable(s, s.queries[q]) {
        ClosedDelivers(s, s.queries[q]);
        SameChannels(Closed(s, s.queries[q]), s');
      } else {
        SameChannels(s, s');
      }
    }
  }

  lemma SpawnDelivers(s: System, t: nat, poller: nat)
    requires Delivering(s)
    ensures Delivering(Apply(s, Spawn(t, poller)))
  {
    var s' := Apply(s, Spawn(t, poller));
    forall c | 0 <= c < |s'.chans| ensures Placed(s', c) {
      assert Placed(s, c);
    }
    StepKeepsSafe(s, Spawn(t, poller));
  }

  lemma StepDelivers(s: System, step: Step)
    requires Delivering(s) && SerialStep(s, step)
    ensures Delivering(Apply(s, step))
  {
    hide ApplyClient, ApplyPoller, Taken, Delivering;
    match step
    case Receive(c) => if c < |s.chans| { TakenDelivers(s, c); }
    case Spawn(t, poller) => SpawnDelivers(s, t, poller);
    case LookUp(t) => SameChannels(s, Apply(s, step));
    case CallSubscribe(t, q) => SameChannels(s, Apply(s, step));
    case CallUnsubscribe(t, q, c) => SameChannels(s, Apply(s, step));
    case CancelRoot =>
    case _ =>
      if step.t in s.threads {
        ClientDelivers(s, step, step.t);
        PollerDelivers(s, step, step.t);
      }
  }

  lemma {:induction false} SerialRunDelivers(steps: seq<Step>)
    requires SerialRun(steps)
    ensures Delivering(Exec(steps))
  {
    if steps != [] {
      hide Apply, Delivering;
      SerialRunDelivers(steps[..|steps| - 1]);
      StepDelivers(Exec(steps[..|steps| - 1]), steps[|steps| - 1]);
    }
  }

  /**
   Exact delivery. In every run with serial publishes and a live root context, a channel that has left
   its list was sent exactly the values published between joining and leaving, in order; one that is
   still in its list, at position k, exactly those since joining, short of the publish in progress if
   that has served fewer than k + 1 subscribers.
   */
  lemma {:induction false} DeliveryIsExact(steps: seq<Step>, c: nat)
    requires SerialRun(steps) && c < |Exec(steps).chans|
    ensures var s := Exec(steps); var ch := s.chans[c];
      && ch.home < |s.lists|
      && if ch.until.Some? then Final(s.lists[ch.home], ch)
         else exists k :: 0 <= k < |s.lists[ch.home].subs| && s.lists[ch.home].subs[k] == c
                          && UpToDate(s.lists[ch.home], k, ch)
  {
    SerialRunDelivers(steps);
    var s := Exec(steps);
    var ch := s.chans[c];
    assert Placed(s, c);
    if ch.until == None {
      assert ListDelivers(s.chans, s.lists[ch.home]);
      var k :| 0 <= k < |s.lists[ch.home].subs| && s.lists[ch.home].subs[k] == c;
      assert UpToDate(s.lists[ch.home], k, ch);
    }
  }

}
