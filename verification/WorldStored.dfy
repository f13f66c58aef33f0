/**
 What the world of the load balancer (core/lb.c) knows of an item after any feeds, among
 which slots are created: the weight of the last feed, and the location of the last one
 that had it stored.
 */
module WorldStored {
  import opened Location
  import opened Slots
  import opened Feeding
  import opened WorldSpec
  import opened WorldIndex

  /** A feed and the slot that it is for. */
  datatype Delivery = Delivery(name: Name, feed: Feed)

  function FeedsOf(op: Op): seq<Delivery> {
    match op
    case FeedOne(name, f) => [Delivery(name, f)]
    case FeedList(name, feeds) => Deliveries(name, feeds)
    case _ => []
  }

  function Deliveries(name: Name, feeds: seq<Feed>): seq<Delivery> {
    seq(|feeds|, k requires 0 <= k < |feeds| => Delivery(name, feeds[k]))
  }

  /** Whether a slot exists after some operations of a reload. */
  predicate Open(w: State, ops: seq<Op>, name: Name) { Lookup(w.slots, name) >= 0 || CreateSlot(name) in ops }

  /** The feeds of a run to slots that exist, in order. */
  function History(w: State, ops: seq<Op>): seq<Delivery> {
    if ops == [] then []
    else
      var op, before := ops[|ops| - 1], ops[..|ops| - 1];
      History(w, before) + (if IsFeed(op) && Open(w, before, op.name) then FeedsOf(op) else [])
  }

  /** The feeds of one item. */
  function FeedsFor(h: seq<Delivery>, id: Id): seq<Delivery> {
    if h == [] then []
    else
      var last := h[|h| - 1];
      FeedsFor(h[..|h| - 1], id) + (if last.feed.id == id then [last] else [])
  }

  predicate FedTo(fs: seq<Delivery>, name: Name) { exists k :: 0 <= k < |fs| && fs[k].name == name }

  /** A slot of the world has the item. */
  ghost predicate Has(w: State, name: Name, id: Id) {
    Lookup(w.slots, name) >= 0 && Refs(w.slots[Lookup(w.slots, name)], id) > 0
  }

  /** Where the feeds of an item leave it: each feed tells, unless the item was known and was new to the
      slot being fed. */
  ghost function Place(w: State, fs: seq<Delivery>, id: Id): Loc {
    if fs == [] then LocOf(w.items, id)
    else
      var n := |fs| - 1;
      var known := id in w.items || n > 0;
      if known && !Has(w, fs[n].name, id) && !FedTo(fs[..n], fs[n].name) then Place(w, fs[..n], id)
      else fs[n].feed.location
  }

  /** What a world knows of an item after its feeds. */
  ghost predicate Recorded(w: State, v: State, fs: seq<Delivery>, id: Id) {
    && (id in v.items <==> id in w.items || fs != [])
    && LocOf(v.items, id) == Place(w, fs, id)
    && WeightOf(v.items, id) == (if fs == [] then WeightOf(w.items, id) else fs[|fs| - 1].feed.putWeight)
    && forall i :: 0 <= i < |v.slots| ==>
      (Refs(v.slots[i], id) > 0 <==> Has(w, v.slots[i].name, id) || FedTo(fs, v.slots[i].name))
  }

  ghost predicate AllRecorded(w: State, v: State, h: seq<Delivery>) { forall id :: Recorded(w, v, FeedsFor(h, id), id) }

  lemma LookupFinds(slots: seq<Slot>, i: nat)
    requires i < |slots| && Distinct(slots)
    ensures Lookup(slots, slots[i].name) == i
  {
  }

  lemma FeedsForAppend(h: seq<Delivery>, p: Delivery, id: Id)
    ensures FeedsFor(h + [p], id) == FeedsFor(h, id) + (if p.feed.id == id then [p] else [])
  {
    assert (h + [p])[..|h|] == h;
  }

  lemma PlaceAppend(w: State, fs: seq<Delivery>, p: Delivery, id: Id)
    ensures
      var aside := (id in w.items || fs != []) && !Has(w, p.name, id) && !FedTo(fs, p.name);
      Place(w, fs + [p], id) == if aside then Place(w, fs, id) else p.feed.location
  {
    hide Has, FedTo;
    assert (fs + [p])[..|fs|] == fs;
  }

  lemma FedToAppend(fs: seq<Delivery>, p: Delivery, name: Name)
    ensures FedTo(fs + [p], name) <==> FedTo(fs, name) || p.name == name
  {
    var gs := fs + [p];
    assert gs[|fs|] == p;
    assert forall k :: 0 <= k < |fs| ==> gs[k] == fs[k];
  }

  // ---- Names of slots ------------------------------------------------------------------------------

  function Names(slots: seq<Slot>): seq<Name> { seq(|slots|, i requires 0 <= i < |slots| => slots[i].name) }

  lemma FeedNames(w: State, i: nat, f: Feed)
    requires i < |w.slots|
    ensures Names(FeedAt(w, i, f).slots) == Names(w.slots) && FeedAt(w, i, f).generation == w.generation
  {
    hide FeedEntry, Rehashed, MaxDist;
    var s := w.slots[i].(generation := w.generation);
    var e := FeedEntry(w.items, w.generation, s, f);
    RehashLabels(e.0, e.1);
  }

  lemma {:induction false} FeedAllNames(w: State, i: nat, feeds: seq<Feed>)
    requires i < |w.slots|
    ensures Names(FeedAll(w, i, feeds).slots) == Names(w.slots) && FeedAll(w, i, feeds).generation == w.generation
  {
    hide FeedAt, Names;
    if feeds != [] {
      FeedAllNames(w, i, feeds[..|feeds| - 1]);
      FeedNames(FeedAll(w, i, feeds[..|feeds| - 1]), i, feeds[|feeds| - 1]);
    }
  }

  lemma RehashNames(w: State, i: nat)
    requires i < |w.slots|
    ensures Names(RehashAt(w, i).slots) == Names(w.slots)
  {
    hide Rehashed;
    RehashLabels(w.items, w.slots[i]);
  }

  /** An operation of a reload adds the slot that it creates, if it is a new one, and no other. */
  lemma StepNames(v: State, op: Op)
    requires Reloads(op)
    ensures
      var added := op.CreateSlot? && Lookup(v.slots, op.name) < 0;
      && Step(v, op).generation == v.generation
      && Names(Step(v, op).slots) == Names(v.slots) + (if added then [op.name] else [])
  {
    hide FeedAt, FeedAll, RehashAt;
    var i := Lookup(v.slots, op.name);
    assert Names(v.slots) + [] == Names(v.slots);
    if i >= 0 && op.FeedOne? {
      FeedNames(v, i, op.feed);
    } else if i >= 0 && op.FeedList? {
      FeedAllNames(v, i, op.feeds);
      RehashNames(FeedAll(v, i, op.feeds), i);
      RehashGeneration(FeedAll(v, i, op.feeds), i);
    }
  }

  lemma RehashGeneration(w: State, i: nat)
    requires i < |w.slots|
    ensures RehashAt(w, i).generation == w.generation
  {
  }

  lemma LookupIs(slots: seq<Slot>, name: Name)
    ensures Lookup(slots, name) >= 0 <==> name in Names(slots)
  {
    var i := Lookup(slots, name);
    if i >= 0 { assert Names(slots)[i] == name; }
  }

  /** The slots that exist after some operations of a reload. */
  lemma {:induction false} OpenIs(w: State, ops: seq<Op>, k: nat, name: Name)
    requires (forall m :: 0 <= m < |ops| ==> Reloads(ops[m])) && k <= |ops|
    ensures Lookup(Run(w, ops[..k]).slots, name) >= 0 <==> Open(w, ops[..k], name)
    ensures Run(w, ops[..k]).generation == w.generation
  {
    hide Step, Run, Names, Lookup;
    if k == 0 {
      RunNone(w);
    } else {
      OpenIs(w, ops, k - 1, name);
      RunStep(w, ops, k - 1);
      assert ops[..k] == ops[..k - 1] + [ops[k - 1]];
      var v := Run(w, ops[..k - 1]);
      StepNames(v, ops[k - 1]);
      LookupIs(v.slots, name);
      LookupIs(Run(w, ops[..k]).slots, name);
      if ops[k - 1].CreateSlot? { LookupIs(v.slots, ops[k - 1].name); }
    }
  }

  // ---- One operation, then any of them ---------------------------------------------------------------

  /** One more feed of the item. */
  lemma RecordOne(w: State, v: State, i: nat, f: Feed, fs: seq<Delivery>)
    requires i < |v.slots| && Indexes(v) && Recorded(w, v, fs, f.id)
    ensures Recorded(w, FeedAt(v, i, f), fs + [Delivery(v.slots[i].name, f)], f.id)
  {
    hide Placed, Indexed, FeedSlot, Has, FedTo, Place, Others, Refs;
    var p := Delivery(v.slots[i].name, f);
    assert Sound(v.items, v.slots[i]);
    FeedKeeps(v.items, v.generation, v.slots[i], f);
    PlaceAppend(w, fs, p, f.id);
    forall name ensures FedTo(fs + [p], name) <==> FedTo(fs, name) || p.name == name { FedToAppend(fs, p, name); }
  }

  /** A feed of another item. */
  lemma RecordOther(w: State, v: State, i: nat, f: Feed, fs: seq<Delivery>, id: Id)
    requires i < |v.slots| && Indexes(v) && Recorded(w, v, fs, id) && id != f.id
    ensures Recorded(w, FeedAt(v, i, f), fs, id)
  {
    hide Placed, Indexed, FeedSlot, Has, FedTo, Place, Refs;
    assert Sound(v.items, v.slots[i]);
    FeedKeeps(v.items, v.generation, v.slots[i], f);
  }

  lemma RecordFeed(w: State, v: State, i: nat, f: Feed, h: seq<Delivery>)
    requires i < |v.slots| && Indexes(v) && AllRecorded(w, v, h)
    ensures AllRecorded(w, FeedAt(v, i, f), h + [Delivery(v.slots[i].name, f)])
  {
    hide Indexes, FeedAt, Recorded, FeedsFor;
    var p := Delivery(v.slots[i].name, f);
    forall id ensures Recorded(w, FeedAt(v, i, f), FeedsFor(h + [p], id), id) {
      FeedsForAppend(h, p, id);
      if id == f.id {
        RecordOne(w, v, i, f, FeedsFor(h, id));
      } else {
        RecordOther(w, v, i, f, FeedsFor(h, id), id);
        assert FeedsFor(h, id) + [] == FeedsFor(h, id);
      }
    }
  }

  lemma {:induction false} RecordFeeds(w: State, v: State, i: nat, feeds: seq<Feed>, h: seq<Delivery>, k: nat)
    requires i < |v.slots| && Indexes(v) && AllRecorded(w, v, h)
    requires SparesAll(v, i, feeds) && k <= |feeds|
    ensures AllRecorded(w, FeedAll(v, i, feeds[..k]), h + Deliveries(v.slots[i].name, feeds[..k]))
  {
    hide Indexes, FeedAt, FeedAll, AllRecorded, Spares;
    var name := v.slots[i].name;
    if k == 0 {
      FeedNone(v, i);
      assert h + Deliveries(name, feeds[..0]) == h;
    } else {
      RecordFeeds(w, v, i, feeds, h, k - 1);
      FeedAllSpares(v, i, feeds, k - 1);
      FeedAllStep(v, i, feeds, k - 1);
      RecordFeed(w, FeedAll(v, i, feeds[..k - 1]), i, feeds[k - 1], h + Deliveries(name, feeds[..k - 1]));
      assert h + Deliveries(name, feeds[..k - 1]) + [Delivery(name, feeds[k - 1])] == h + Deliveries(name, feeds[..k]);
    }
  }

  lemma RecordRehash(w: State, v: State, i: nat, h: seq<Delivery>)
    requires i < |v.slots| && AllRecorded(w, v, h)
    ensures AllRecorded(w, RehashAt(v, i), h)
  {
    hide Has, FedTo, Place, Refs, Rehashed, FeedsFor;
    RehashLabels(v.items, v.slots[i]);
    forall id ensures Refs(Rehashed(v.items, v.slots[i]), id) == Refs(v.slots[i], id) {
      RehashRefs(v.items, v.slots[i], id);
    }
    forall id ensures Recorded(w, RehashAt(v, i), FeedsFor(h, id), id) {
      assert Recorded(w, v, FeedsFor(h, id), id);
    }
  }

  /** The slots that were fed exist. */
  ghost predicate AllExist(v: State, h: seq<Delivery>) { forall p :: p in h ==> Lookup(v.slots, p.name) >= 0 }

  lemma {:induction false} FeedsForIn(h: seq<Delivery>, id: Id)
    ensures forall p :: p in FeedsFor(h, id) ==> p in h
  {
    if h != [] { FeedsForIn(h[..|h| - 1], id); }
  }

  /** A new slot has nothing, and was fed nothing. */
  lemma RecordSlot(w: State, v: State, name: Name, h: seq<Delivery>)
    requires AllRecorded(w, v, h) && AllExist(v, h) && Lookup(v.slots, name) < 0 && Lookup(w.slots, name) < 0
    ensures AllRecorded(w, Step(v, CreateSlot(name)), h)
  {
    hide Place, Refs, FeedsFor, Lookup;
    var u := Step(v, CreateSlot(name));
    assert u.slots == v.slots + [NewSlot(name)];
    forall id ensures Recorded(w, u, FeedsFor(h, id), id) {
      assert Recorded(w, v, FeedsFor(h, id), id);
      NewRefs(name, id);
      FeedsForIn(h, id);
      assert !FedTo(FeedsFor(h, id), name);
    }
  }

  lemma RecordStep(w: State, v: State, op: Op, h: seq<Delivery>)
    requires Indexes(v) && AllRecorded(w, v, h) && AllExist(v, h) && Reloads(op) && Cautious(v, op)
    requires op.CreateSlot? && Lookup(v.slots, op.name) < 0 ==> Lookup(w.slots, op.name) < 0
    ensures AllRecorded(w, Step(v, op), h + (if IsFeed(op) && Lookup(v.slots, op.name) >= 0 then FeedsOf(op) else []))
  {
    hide Indexes, FeedAt, FeedAll, RehashAt, AllRecorded, Spares, AllExist;
    var i := Lookup(v.slots, op.name);
    assert h + [] == h;
    if op.CreateSlot? {
      if i < 0 { RecordSlot(w, v, op.name, h); }
    } else if i >= 0 && op.FeedOne? {
      RecordFeed(w, v, i, op.feed, h);
    } else if i >= 0 {
      assert op.feeds[..|op.feeds|] == op.feeds;
      RecordFeeds(w, v, i, op.feeds, h, |op.feeds|);
      RecordRehash(w, FeedAll(v, i, op.feeds), i, h + Deliveries(op.name, op.feeds));
    }
  }

  /** Only slots that exist are fed, and those that exist remain. */
  lemma {:induction false} HistoryExists(w: State, ops: seq<Op>, k: nat)
    requires (forall m :: 0 <= m < |ops| ==> Reloads(ops[m])) && k <= |ops|
    ensures AllExist(Run(w, ops[..k]), History(w, ops[..k]))
  {
    hide Step, Run, Lookup, FeedsOf;
    forall p | p in History(w, ops[..k]) ensures Lookup(Run(w, ops[..k]).slots, p.name) >= 0 {
      HistoryOpen(w, ops[..k], p);
      OpenIs(w, ops, k, p.name);
    }
  }

  lemma {:induction false} HistoryOpen(w: State, ops: seq<Op>, p: Delivery)
    requires p in History(w, ops)
    ensures Open(w, ops, p.name)
  {
    var op, before := ops[|ops| - 1], ops[..|ops| - 1];
    if p in History(w, before) {
      HistoryOpen(w, before, p);
    } else {
      FeedsAreOf(op, p);
    }
  }

  lemma FeedsAreOf(op: Op, p: Delivery)
    requires p in FeedsOf(op)
    ensures IsFeed(op) && p.name == op.name
  {
  }

  lemma {:induction false} RecordRun(w: State, ops: seq<Op>, k: nat)
    requires Indexes(w) && CautiousRun(w, ops) && (forall m :: 0 <= m < |ops| ==> Reloads(ops[m])) && k <= |ops|
    ensures AllRecorded(w, Run(w, ops[..k]), History(w, ops[..k]))
  {
    hide Indexes, Step, Run, AllRecorded, FeedsOf, Cautious, AllExist, Lookup;
    if k == 0 {
      RunNone(w);
      NothingRecorded(w);
    } else {
      RecordRun(w, ops, k - 1);
      RunPrefix(w, ops, k - 1);
      RunStep(w, ops, k - 1);
      PrefixOf(ops, k - 1);
      HistoryExists(w, ops, k - 1);
      OpenIs(w, ops, k - 1, ops[k - 1].name);
      RecordStep(w, Run(w, ops[..k - 1]), ops[k - 1], History(w, ops[..k - 1]));
    }
  }

  lemma NothingRecorded(w: State)
    requires Indexes(w)
    ensures AllRecorded(w, w, [])
  {
    hide Sound, Refs;
    forall i | 0 <= i < |w.slots| ensures Lookup(w.slots, w.slots[i].name) == i { LookupFinds(w.slots, i); }
  }

  /** After any feeds, every item has the weight of its last feed, and the location of the last one that
      had it stored. */
  lemma RunStores(w: State, ops: seq<Op>, id: Id)
    requires Indexes(w) && CautiousRun(w, ops) && forall m :: 0 <= m < |ops| ==> Reloads(ops[m])
    ensures Recorded(w, Run(w, ops), FeedsFor(History(w, ops), id), id)
  {
    hide Indexes, CautiousRun, Recorded, Run, History, FeedsFor;
    assert ops[..|ops|] == ops;
    RecordRun(w, ops, |ops|);
  }
}
