/**
 The event buffer of events/oio_events_queue_buffer.c: messages wait in an LRU tree
 whose access times are never refreshed, and leave it by tag or by age. What leaves
 is stated over the history of puts and emissions, without the tree.
 */
module EventBuffer {
  import opened Basics
  import opened LruNodes
  import opened RbShape
  import opened LruSpec
  import opened LruTree

  datatype Event = Put(tag: Key, data: Value, now: int) | Sent(tag: Key, data: Value)

  // ---- The history of one tag -----------------------------------------------------

  /** The puts of a tag since it was last sent. */
  ghost function Pending(tr: seq<Event>, tag: Key): seq<Event> {
    if tr == [] then []
    else
      var e, rest := tr[|tr| - 1], tr[..|tr| - 1];
      if e.tag != tag then Pending(rest, tag)
      else if e.Sent? then []
      else Pending(rest, tag) + [e]
  }

  /** When, as a position in the history, the first of those puts took place. */
  ghost function Since(tr: seq<Event>, tag: Key): (p: nat)
    ensures p <= |tr|
    ensures Pending(tr, tag) != [] ==> p < |tr| && tr[p] == Pending(tr, tag)[0]
  {
    if tr == [] then 0
    else
      var e, rest := tr[|tr| - 1], tr[..|tr| - 1];
      if e.tag == tag && (e.Sent? || Pending(rest, tag) == []) then |tr| - 1 else Since(rest, tag)
  }

  /** The buffer holds, for every tag with pending puts and no other, the last payload
      and the time of the first put; the tags stand in the order of their first put. */
  ghost predicate Tracks(q: seq<Entry>, tr: seq<Event>) {
    && Unique(q)
    && (forall k :: Pending(tr, k) != [] <==> Has(q, k))
    && (forall i :: 0 <= i < |q| ==> Pending(tr, q[i].key) != [] && q[i] == EntryOf(Pending(tr, q[i].key), q[i].key))
    && (forall i, j :: 0 <= i < j < |q| ==> Since(tr, q[j].key) < Since(tr, q[i].key))
  }

  /** What waits for a tag with those pending puts. */
  ghost function EntryOf(ps: seq<Event>, tag: Key): Entry
    requires ps != []
  {
    Entry(tag, ps[|ps| - 1].data, if ps[0].Put? then ps[0].now else 0)
  }

  lemma {:induction false} PendingArePuts(tr: seq<Event>, tag: Key)
    ensures forall e :: e in Pending(tr, tag) ==> e.Put? && e.tag == tag
  {
    if tr != [] { PendingArePuts(tr[..|tr| - 1], tag); }
  }

  lemma Appended(tr: seq<Event>, e: Event, tag: Key)
    ensures Pending(tr + [e], tag) ==
      if e.tag != tag then Pending(tr, tag) else if e.Sent? then [] else Pending(tr, tag) + [e]
    ensures e.tag != tag || (e.Put? && Pending(tr, tag) != []) ==> Since(tr + [e], tag) == Since(tr, tag)
    ensures e.tag == tag && e.Put? && Pending(tr, tag) == [] ==> Since(tr + [e], tag) == |tr|
  {
    assert (tr + [e])[..|tr|] == tr;
  }

  lemma HasIs(q: seq<Entry>, k: Key)
    ensures Has(q, k) <==> exists i :: 0 <= i < |q| && q[i].key == k
  {
    if Has(q, k) { assert q[Index(q, k)].key == k; }
  }

  lemma HasFront(e: Entry, q: seq<Entry>, k: Key)
    ensures Has([e] + q, k) <==> e.key == k || Has(q, k)
  {
    hide Has;
    var q' := [e] + q;
    HasIs(q, k);
    HasIs(q', k);
    assert q'[0] == e;
    assert forall i :: 0 <= i < |q| ==> q'[i + 1] == q[i];
    if Has(q, k) {
      var i :| 0 <= i < |q| && q[i].key == k;
      assert q'[i + 1].key == k;
    }
  }

  lemma FirstEntry(tag: Key, data: Value, now: int)
    ensures EntryOf([Put(tag, data, now)], tag) == Entry(tag, data, now)
  {
  }

  /** A first put: the tag enters in front of all others. */
  lemma TracksNew(q: seq<Entry>, tr: seq<Event>, tag: Key, data: Value, now: int)
    requires Tracks(q, tr) && !Has(q, tag)
    ensures Tracks([Entry(tag, data, now)] + q, tr + [Put(tag, data, now)])
  {
    hide Pending, Since, Has, EntryOf;
    var e := Put(tag, data, now);
    var q', tr' := [Entry(tag, data, now)] + q, tr + [e];
    HasIs(q, tag);
    Appended(tr, e, tag);
    forall k
      ensures Pending(tr', k) != [] <==> Has(q', k)
    {
      Appended(tr, e, k);
      HasFront(Entry(tag, data, now), q, k);
    }
    assert Pending(tr', tag) == [e];
    assert EntryOf([e], tag) == Entry(tag, data, now) by { FirstEntry(tag, data, now); }
    forall i | 0 <= i < |q|
      ensures q'[i + 1] == q[i] && q[i].key != tag && Pending(tr', q[i].key) == Pending(tr, q[i].key)
      ensures Since(tr', q[i].key) == Since(tr, q[i].key) < |tr|
    {
      Appended(tr, e, q[i].key);
    }
    forall i | 0 <= i < |q'|
      ensures Pending(tr', q'[i].key) != [] && q'[i] == EntryOf(Pending(tr', q'[i].key), q'[i].key)
    {
      if i > 0 { assert q'[i] == q[i - 1]; }
    }
  }

  /** An overwrite: only the payload changes, neither the age nor the rank of the tag. */
  lemma TracksOverwrite(q: seq<Entry>, tr: seq<Event>, i: nat, data: Value, now: int)
    requires Tracks(q, tr) && i < |q|
    ensures Tracks(q[i := q[i].(value := data)], tr + [Put(q[i].key, data, now)])
  {
    hide Pending, Since, Has;
    var tag := q[i].key;
    var e := Put(tag, data, now);
    var q', tr' := q[i := q[i].(value := data)], tr + [e];
    forall j | 0 <= j < |q|
      ensures q'[j].key == q[j].key
      ensures Pending(tr', q[j].key) == if j == i then Pending(tr, tag) + [e] else Pending(tr, q[j].key)
      ensures Since(tr', q[j].key) == Since(tr, q[j].key)
    {
      Appended(tr, e, q[j].key);
    }
    forall k
      ensures Pending(tr', k) != [] <==> Has(q', k)
    {
      Appended(tr, e, k);
      HasIs(q, k);
      HasIs(q', k);
    }
  }

  lemma TracksPut(q: seq<Entry>, tr: seq<Event>, tag: Key, data: Value, now: int)
    requires Tracks(q, tr)
    ensures Tracks(LruSpec.Put(q, tag, data, now, true), tr + [Put(tag, data, now)])
  {
    hide Tracks;
    var i := Index(q, tag);
    if i == |q| {
      TracksNew(q, tr, tag, data, now);
    } else {
      TracksOverwrite(q, tr, i, data, now);
    }
  }

  /** A tag leaves with the last payload put under it. */
  lemma TracksSent(q: seq<Entry>, tr: seq<Event>, i: nat)
    requires Tracks(q, tr) && i < |q|
    ensures Tracks(Without(q, i), tr + [Sent(q[i].key, q[i].value)])
  {
    hide Pending, Since, Has;
    var e := Sent(q[i].key, q[i].value);
    var q', tr' := Without(q, i), tr + [e];
    WithoutKeys(q, i);
    forall j | 0 <= j < |q| && j != i
      ensures q[j].key != e.tag && Pending(tr', q[j].key) == Pending(tr, q[j].key)
      ensures Since(tr', q[j].key) == Since(tr, q[j].key)
    {
      Appended(tr, e, q[j].key);
    }
    forall k
      ensures Pending(tr', k) != [] <==> Has(q', k)
    {
      Appended(tr, e, k);
      TableKeys(q);
      TableKeys(q');
    }
    forall j | 0 <= j < |q'| ensures q'[j] == q[if j < i then j else j + 1] { }
  }

  lemma TracksDrop(q: seq<Entry>, tr: seq<Event>, k: Key)
    requires Tracks(q, tr)
    ensures Has(q, k) <==> Pending(tr, k) != []
    ensures Has(q, k) ==>
      var v := q[Index(q, k)].value;
      v == Pending(tr, k)[|Pending(tr, k)| - 1].data && Tracks(Drop(q, k), tr + [Sent(k, v)])
    ensures !Has(q, k) ==> Drop(q, k) == q
  {
    hide Pending, Since;
    var i := Index(q, k);
    if i < |q| { TracksSent(q, tr, i); }
  }

  /** The emissions that empty `q` from its tail down to `m` entries. */
  ghost function Emissions(q: seq<Entry>, m: nat): (es: seq<Event>)
    requires m <= |q|
    ensures |es| == |q| - m
    ensures forall i :: 0 <= i < |es| ==> es[i] == Sent(q[|q| - 1 - i].key, q[|q| - 1 - i].value)
  {
    if m == |q| then []
    else
      var n := |q| - 1;
      [Sent(q[n].key, q[n].value)] + Emissions(q[..n], m)
  }

  lemma {:induction false} TracksFlush(q: seq<Entry>, tr: seq<Event>, m: nat)
    requires Tracks(q, tr) && m <= |q|
    ensures Tracks(q[..m], tr + Emissions(q, m))
    decreases |q|
  {
    hide Tracks;
    if m == |q| {
      assert q[..m] == q && tr + [] == tr;
    } else {
      var n := |q| - 1;
      var e := Sent(q[n].key, q[n].value);
      TracksSent(q, tr, n);
      assert Without(q, n) == q[..n] && q[..n][..m] == q[..m];
      TracksFlush(q[..n], tr + [e], m);
      assert tr + [e] + Emissions(q[..n], m) == tr + ([e] + Emissions(q[..n], m));
    }
  }

  /** What one flush hands over, in terms of the history `tr` before it. */
  ghost predicate FlushedFrom(tr: seq<Event>, out: seq<(Key, Value)>, limit: int, max: nat) {
    && |out| <= max
    // each message is the last payload of a tag whose first pending put is too old
    && (forall i :: 0 <= i < |out| ==>
          var ps := Pending(tr, out[i].0);
          ps != [] && ps[0].Put? && ps[0].now < limit && ps[|ps| - 1].data == out[i].1)
    // in the order of the first puts, each tag once
    && (forall i, j :: 0 <= i < j < |out| ==> Since(tr, out[i].0) < Since(tr, out[j].0))
  }

  lemma FlushIs(q: seq<Entry>, tr: seq<Event>, limit: int, max: nat, clock: int, out: seq<(Key, Value)>)
    requires Tracks(q, tr) && WellFormed(q, clock)
    requires |out| == |q| - |FreshAtMost(q, limit, max)|
    requires forall i :: 0 <= i < |out| ==> out[i] == (q[|q| - 1 - i].key, q[|q| - 1 - i].value)
    ensures FlushedFrom(tr, out, limit, max)
  {
    hide Pending, Since, Has;
    FreshAtMostIs(q, limit, max, clock);
    forall i | 0 <= i < |out|
      ensures
        var ps := Pending(tr, out[i].0);
        ps != [] && ps[0].Put? && ps[0].now < limit && ps[|ps| - 1].data == out[i].1
    {
      PendingArePuts(tr, out[i].0);
      assert Pending(tr, out[i].0)[0] in Pending(tr, out[i].0);
    }
  }

  /** A history goes on with the messages sent, in order. */
  ghost predicate Gained(tr: seq<Event>, tr': seq<Event>, out: seq<(Key, Value)>) {
    && |tr'| == |tr| + |out| && tr <= tr'
    && forall i :: 0 <= i < |out| ==> tr'[|tr| + i] == Sent(out[i].0, out[i].1)
  }

  lemma GainsEmissions(tr: seq<Event>, q: seq<Entry>, m: nat, out: seq<(Key, Value)>)
    requires m <= |q| && |out| == |q| - m
    requires forall i :: 0 <= i < |out| ==> out[i] == (q[|q| - 1 - i].key, q[|q| - 1 - i].value)
    ensures Gained(tr, tr + Emissions(q, m), out)
  {
  }

  /** No tag has a first pending put before a time. */
  ghost predicate NoneOlder(tr: seq<Event>, limit: int) {
    forall k :: Pending(tr, k) != [] ==> Pending(tr, k)[0].Put? && Pending(tr, k)[0].now >= limit
  }

  /** Nothing that is too old stays behind when the quota is not reached. */
  lemma NothingLeft(q: seq<Entry>, tr: seq<Event>, limit: int)
    requires Tracks(q, tr) && forall i :: 0 <= i < |q| ==> q[i].atime >= limit
    ensures NoneOlder(tr, limit)
  {
    hide Pending, Since;
    forall k | Pending(tr, k) != [] ensures Pending(tr, k)[0].Put? && Pending(tr, k)[0].now >= limit {
      PendingArePuts(tr, k);
      assert Pending(tr, k)[0] in Pending(tr, k);
      assert q[Index(q, k)].key == k;
    }
  }

  // ---- The buffer -----------------------------------------------------------------

  class Buffer {
    const msgByKey: Lru
    var delay: int
    /** The puts and the emissions so far. */
    ghost var trace: seq<Event>

    ghost predicate Valid()
      reads this, msgByKey, msgByKey.base, msgByKey.queue, msgByKey.base.links.at.Keys, msgByKey.base.Order()
    {
      && msgByKey.flags == Flags(true, true)
      && msgByKey.Valid() && Tracks(msgByKey.View(), trace)
    }

    /** oio_events_queue_buffer_init */
    constructor (cmp: (Key, Key) -> int, delay: int)
      requires TotalOrder(cmp)
      ensures Valid() && trace == [] && this.delay == delay && fresh(msgByKey) && fresh(msgByKey.base)
      ensures msgByKey.queue == [] && Elems(msgByKey.queue) == {} && msgByKey.clock == 0
    {
      this.delay := delay;
      msgByKey := new Lru(cmp, Flags(true, true));
      trace := [];
    }

    /** oio_events_queue_buffer_put */
    method Put(tag: Key, data: Value, now: int)
      requires Valid() && msgByKey.clock <= now
      modifies this, msgByKey, msgByKey.base, Elems(msgByKey.queue)
      ensures Valid() && trace == old(trace) + [Event.Put(tag, data, now)] && delay == old(delay)
      ensures msgByKey.clock == now && fresh(Elems(msgByKey.queue) - old(Elems(msgByKey.queue)))
    {
      hide RbTree.RbHead.Valid, Lru.Deque, Tracks, WellFormed, Entries;
      TracksPut(msgByKey.View(), trace, tag, data, now);
      msgByKey.Insert(tag, data, now);
      trace := trace + [Event.Put(tag, data, now)];
    }

    /** oio_events_queue_buffer_flush_key */
    method FlushKey(key: Key) returns (msg: Option<Value>)
      requires Valid()
      modifies this, msgByKey, msgByKey.base, Elems(msgByKey.queue)
      ensures Valid() && delay == old(delay)
      ensures
        var ps := Pending(old(trace), key);
        if ps == [] then msg == None && trace == old(trace)
        else msg == Some(ps[|ps| - 1].data) && trace == old(trace) + [Sent(key, msg.value)]
      ensures msgByKey.clock == old(msgByKey.clock) && Elems(msgByKey.queue) <= old(Elems(msgByKey.queue))
    {
      hide RbTree.RbHead.Valid, Lru.Deque, WellFormed, Entries, Pending, Tracks, Drop;
      TracksDrop(msgByKey.View(), trace, key);
      msg := msgByKey.Steal(key);
      if msg != None {
        trace := trace + [Sent(key, msg.value)];
      }
    }

    /** oio_events_queue_buffer_maybe_flush: the messages sent, in order. */
    method MaybeFlush(now: int, max: nat) returns (out: seq<(Key, Value)>)
      requires Valid()
      modifies this, msgByKey, msgByKey.base, Elems(msgByKey.queue)
      ensures Valid() && delay == old(delay) && FlushedFrom(old(trace), out, now - delay, max)
      ensures Gained(old(trace), trace, out) && (|out| < max ==> NoneOlder(trace, now - delay))
      ensures msgByKey.clock == old(msgByKey.clock) && Elems(msgByKey.queue) <= old(Elems(msgByKey.queue))
    {
      hide RbTree.RbHead.Valid, Lru.Deque, Tracks, WellFormed, Entries, FlushedFrom, NoneOlder, Gained;
      ghost var q, limit := msgByKey.View(), now - delay;
      ghost var m := |FreshAtMost(q, limit, max)|;
      FreshAtMostIs(q, limit, max, msgByKey.clock);
      TracksFlush(q, trace, m);
      out := msgByKey.ForeachOlderSteal(now - delay, max);
      FlushIs(q, trace, limit, max, old(msgByKey.clock), out);
      trace := trace + Emissions(q, m);
      GainsEmissions(old(trace), q, m, out);
      if |out| < max { NothingLeft(q[..m], trace, limit); }
    }

    /** oio_events_queue_buffer_is_empty */
    method IsEmpty() returns (empty: bool)
      requires Valid()
      ensures empty <==> forall k :: Pending(trace, k) == []
    {
      hide RbTree.RbHead.Valid, Lru.Deque, WellFormed, Entries, Pending, Since;
      var nb := msgByKey.Count();
      empty := nb <= 0;
      ghost var q := msgByKey.View();
      if |q| > 0 {
        assert Pending(trace, q[0].key) != [];
      } else {
        forall k ensures Pending(trace, k) == [] { assert !Has(q, k); }
      }
    }
  }
}
