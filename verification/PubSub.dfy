/**
 The query publisher as objects: channels with a buffer and a closed flag, one
 subscriber list per query, and the map of queries. Each method here is one
 critical section of the original, so a send on a closed channel and a second
 close are preconditions that callers must rule out.
 */
module PubSub {
  import opened Types

  type Sample = Float

  const BUFFER_SIZE := 10

  class Channel {
    var buffer: seq<Sample>
    var closed: bool

    constructor ()
      ensures buffer == [] && !closed
    {
      buffer, closed := [], false;
    }

    /** Closing a closed channel panics. */
    method Close()
      requires !closed
      modifies this`closed
      ensures closed
    {
      closed := true;
    }

    /** Sending on a closed channel panics; a full buffer blocks. */
    method Send(v: Sample)
      requires !closed && |buffer| < BUFFER_SIZE
      modifies this`buffer
      ensures buffer == old(buffer) + [v]
    {
      buffer := buffer + [v];
    }
  }

  /** The list without one channel, the others in their order. */
  function Without<T(==)>(list: seq<T>, c: T): seq<T> {
    if list == [] then []
    else if list[0] == c then Without(list[1..], c)
    else [list[0]] + Without(list[1..], c)
  }

  lemma {:induction false} WithoutMember<T>(list: seq<T>, c: T, x: T)
    ensures x in Without(list, c) <==> x in list && x != c
  {
    if list != [] {
      WithoutMember(list[1..], c, x);
    }
  }

  lemma {:induction false} WithoutAbsent<T>(list: seq<T>, c: T)
    requires c !in list
    ensures Without(list, c) == list
  {
    if list != [] {
      WithoutAbsent(list[1..], c);
    }
  }

  lemma {:induction false} WithoutCons<T>(x: T, rest: seq<T>, c: T)
    ensures Without([x] + rest, c) == if x == c then Without(rest, c) else [x] + Without(rest, c)
  {
    assert ([x] + rest)[1..] == rest;
  }

  /** Deleting position i of a list of distinct channels is filtering that channel out. */
  lemma {:induction false} DeleteIsFilter<T>(list: seq<T>, i: nat)
    requires Distinct(list) && i < |list|
    ensures Without(list, list[i]) == list[..i] + list[i + 1..]
  {
    hide Without;
    var x, rest := list[0], list[1..];
    assert list == [x] + rest;
    WithoutCons(x, rest, list[i]);
    if i == 0 {
      assert x !in rest;
      WithoutAbsent(rest, x);
      assert list[..0] + rest == rest;
    } else {
      assert rest[i - 1] == list[i] && x != list[i];
      DeleteIsFilter(rest, i - 1);
      assert list[..i] == [x] + rest[..i - 1] && list[i + 1..] == rest[i..];
      assert [x] + (rest[..i - 1] + rest[i..]) == list[..i] + list[i + 1..];
    }
  }

  lemma {:induction false} WithoutDistinct<T>(list: seq<T>, c: T)
    requires Distinct(list)
    ensures Distinct(Without(list, c))
  {
    if list != [] {
      WithoutDistinct(list[1..], c);
      if list[0] != c {
        assert list[0] !in list[1..];
        WithoutMember(list[1..], c, list[0]);
      }
    }
  }

  /**
   The subscribers of one query. `cache[..len]` is the slice of channels, grown and
   shifted in place; `subs` is its abstract contents.
   */
  class Subscribers {
    var cache: array<Channel?>
    var len: nat
    var closeChannels: map<Channel, Channel>
    ghost var subs: seq<Channel>
    ghost var Repr: set<object>

    /**
     Representation invariant: the slice holds the subscribers, each once and open, and the
     close map has exactly their entries.
     */
    ghost predicate Valid()
      reads this, Repr
      ensures Valid() ==> this in Repr
    {
      && this in Repr && cache in Repr && (forall i :: 0 <= i < |subs| ==> subs[i] in Repr)
      && len == |subs| <= cache.Length
      && (forall i :: 0 <= i < len ==> cache[i] == subs[i])
      && Distinct(subs)
      && closeChannels.Keys == (set c | c in subs)
      && (forall c :: c in closeChannels ==> closeChannels[c] == c)
      && (forall i :: 0 <= i < |subs| ==> !subs[i].closed)
    }

    constructor ()
      ensures Valid() && subs == [] && fresh(Repr)
    {
      cache := new Channel?[0];
      len, closeChannels, subs := 0, map[], [];
      Repr := {this, cache};
    }

    method Active() returns (b: bool)
      requires Valid()
      ensures b <==> subs != []
    {
      b := len > 0;
    }

    /** `append`: in place while there is room, into a larger array otherwise. */
    method Append(c: Channel)
      requires len == |subs| <= cache.Length && forall i :: 0 <= i < len ==> cache[i] == subs[i]
      modifies this`cache, this`len, this`subs, cache
      ensures len == |subs| <= cache.Length && forall i :: 0 <= i < len ==> cache[i] == subs[i]
      ensures subs == old(subs) + [c]
      ensures cache == old(cache) || fresh(cache)
    {
      if len == cache.Length {
        var grown := new Channel?[2 * len + 1];
        for i := 0 to len
          invariant len == old(len) && subs == old(subs) && cache == old(cache)
          invariant forall j :: 0 <= j < len ==> cache[j] == subs[j]
          invariant forall j :: 0 <= j < i ==> grown[j] == cache[j]
        {
          grown[i] := cache[i];
        }
        cache := grown;
      }
      cache[len] := c;
      len := len + 1;
      subs := subs + [c];
    }

    method Subscribe() returns (c: Channel)
      requires Valid()
      modifies Repr
      ensures Valid() && fresh(Repr - old(Repr))
      ensures fresh(c) && c.buffer == [] && subs == old(subs) + [c]
    {
      c := new Channel();
      Append(c);
      closeChannels := closeChannels[c := c];
      Repr := Repr + {cache, c};
    }

    /** `append(cache[:i], cache[i+1:]...)`: shifts the tail down by one, in place. */
    method DeleteAt(i: nat)
      requires i < len == |subs| <= cache.Length && forall j :: 0 <= j < len ==> cache[j] == subs[j]
      modifies this`len, this`subs, cache
      ensures len == |subs| <= cache.Length && forall j :: 0 <= j < len ==> cache[j] == subs[j]
      ensures subs == old(subs)[..i] + old(subs)[i + 1..]
    {
      ghost var target := subs[..i] + subs[i + 1..];
      for j := i to len - 1
        invariant len == old(len) && subs == old(subs) && cache == old(cache)
        invariant forall k :: 0 <= k < j ==> cache[k] == target[k]
        invariant forall k :: j <= k < len ==> cache[k] == subs[k]
      {
        assert cache[j + 1] == subs[j + 1] == target[j];
        cache[j] := cache[j + 1];
      }
      subs := target;
      len := len - 1;
    }

    method Unsubscribe(c: Channel)
      requires Valid()
      modifies Repr
      ensures Valid() && Repr == old(Repr) && subs == Without(old(subs), c)
    {
      hide Without;
      if c !in closeChannels {
        WithoutAbsent(subs, c);
        return;
      }
      var closeChan := closeChannels[c];
      for i := 0 to len
        invariant forall j :: 0 <= j < i ==> cache[j] != closeChan
      {
        if cache[i] == closeChan {
          DeleteIsFilter(subs, i);
          WithoutDistinct(subs, c);
          closeChannels := map d | d in closeChannels && d != c :: closeChannels[d];
          DeleteAt(i);
          return;
        }
      }
      assert false;
    }

    /** `close`: each subscriber is open when it is closed, and none stays subscribed. */
    method Close()
      requires Valid()
      modifies Repr
      ensures Valid() && fresh(Repr - old(Repr)) && subs == []
      ensures forall c :: c in old(subs) ==> c.closed && c.buffer == old(c.buffer)
    {
      for i := 0 to len
        invariant unchanged(this)
        invariant forall j :: 0 <= j < len ==> cache[j] == subs[j]
        invariant forall j :: 0 <= j < len ==> subs[j].closed == (j < i)
        invariant forall j :: 0 <= j < len ==> subs[j].buffer == old(subs[j].buffer)
      {
        cache[i].Close();
      }
      cache := new Channel?[0];
      len, closeChannels, subs := 0, map[], [];
      Repr := Repr + {cache};
    }

    /**
     `publish` while no receiver runs: the value reaches the subscribers in list order, up to the
     first one whose buffer is full, or up to the one before which the context is done.
     */
    method Publish(v: Sample, doneBefore: nat) returns (reached: nat)
      requires Valid()
      modifies subs
      ensures Valid() && reached <= |subs|
      ensures forall i :: 0 <= i < reached ==> subs[i].buffer == old(subs[i].buffer) + [v]
      ensures forall i :: reached <= i < |subs| ==> subs[i].buffer == old(subs[i].buffer)
      ensures reached < |subs| ==> reached == doneBefore || |old(subs[reached].buffer)| >= BUFFER_SIZE
      ensures reached <= doneBefore && forall i :: 0 <= i < reached ==> |old(subs[i].buffer)| < BUFFER_SIZE
    {
      reached := 0;
      while reached < len
        invariant reached <= len == |subs| && subs == old(subs)
        invariant forall i :: 0 <= i < len ==> cache[i] == subs[i] && !subs[i].closed
        invariant forall i :: 0 <= i < reached ==> subs[i].buffer == old(subs[i].buffer) + [v]
        invariant forall i :: reached <= i < len ==> subs[i].buffer == old(subs[i].buffer)
        invariant forall i :: 0 <= i < reached ==> |old(subs[i].buffer)| < BUFFER_SIZE
        invariant reached <= doneBefore
      {
        assert cache[reached] == subs[reached] && subs[reached].buffer == old(subs[reached].buffer);
        if reached == doneBefore || |cache[reached].buffer| >= BUFFER_SIZE {
          return;
        }
        cache[reached].Send(v);
        reached := reached + 1;
      }
    }
  }
}
