/**
 The world of the load balancer (core/lb.c) as a state machine: services are fed into
 named slots, generation after generation, and old ones are purged. What every run keeps.
 */
module WorldSpec {
  import opened Location
  import opened Slots
  import opened Feeding
  import opened Purging

  /** The slots are listed in some order of their names. */
  datatype State = State(items: Items, slots: seq<Slot>, generation: Generation, absMaxDist: nat)

  const EMPTY := State(map[], [], 0, 0)

  datatype Op =
    | CreateSlot(name: Name)
    | FeedOne(name: Name, feed: Feed)
    | FeedList(name: Name, feeds: seq<Feed>)
    | NextGeneration
    | PurgeOld
    | RehashAll
    | Flush

  predicate IsFeed(op: Op) { op.FeedOne? || op.FeedList? }

  /** What a reload is made of. */
  predicate Reloads(op: Op) { IsFeed(op) || op.CreateSlot? }

  function Lookup(slots: seq<Slot>, name: Name): (i: int)
    ensures -1 <= i < |slots|
    ensures i >= 0 ==> slots[i].name == name
    ensures i == -1 ==> forall j :: 0 <= j < |slots| ==> slots[j].name != name
  {
    if slots == [] then -1
    else if slots[|slots| - 1].name == name then |slots| - 1
    else Lookup(slots[..|slots| - 1], name)
  }

  function Max(a: nat, b: nat): nat { if a < b then b else a }

  function FeedAt(w: State, i: nat, f: Feed): (w': State)
    requires i < |w.slots|
    ensures |w'.slots| == |w.slots|
  {
    var r := FeedSlot(w.items, w.generation, w.slots[i], f);
    w.(items := r.0, slots := w.slots[i := r.1], absMaxDist := Max(w.absMaxDist, MaxDist(f.location)))
  }

  function FeedAll(w: State, i: nat, feeds: seq<Feed>): (w': State)
    requires i < |w.slots|
    ensures |w'.slots| == |w.slots|
  {
    if feeds == [] then w else FeedAt(FeedAll(w, i, feeds[..|feeds| - 1]), i, feeds[|feeds| - 1])
  }

  function RehashAt(w: State, i: nat): State
    requires i < |w.slots|
  {
    w.(slots := w.slots[i := Rehashed(w.items, w.slots[i])])
  }

  function RehashIfNeeded(items: Items, s: Slot): Slot { if NeedsRehash(s) then Rehashed(items, s) else s }

  /** _world_purge_slot_items, from a slot on */
  function PurgeItems(items: Items, slots: seq<Slot>, k: nat, generation: Generation, age: nat): (Items, seq<Slot>)
    decreases |slots| - k
  {
    if k >= |slots| then (items, slots)
    else
      var r := PurgeSlot(items, slots[k], generation, age);
      PurgeItems(r.0, slots[k := r.1], k + 1, generation, age)
  }

  /** _world_purge_slots: slots not fed for long are flushed and dropped. */
  function DropSlots(items: Items, slots: seq<Slot>, generation: Generation, age: nat): (Items, seq<Slot>) {
    if slots == [] then (items, [])
    else
      var last := slots[|slots| - 1];
      var r := DropSlots(items, slots[..|slots| - 1], generation, age);
      if Delta(last.generation, generation) > age then (FlushSlot(r.0, last).0, r.1) else (r.0, r.1 + [last])
  }

  function Purge(w: State): State {
    var r := PurgeItems(w.items, w.slots, 0, w.generation, 0);
    var d := DropSlots(r.0, r.1, w.generation, 0);
    w.(items := d.0, slots := d.1)
  }

  function Emptied(s: Slot): Slot { s.(items := [], zero := []) }

  function Step(w: State, op: Op): State {
    match op
    case CreateSlot(name) => if Lookup(w.slots, name) >= 0 then w else w.(slots := w.slots + [NewSlot(name)])
    case FeedOne(name, f) =>
      var i := Lookup(w.slots, name);
      if i < 0 then w else FeedAt(w, i, f)
    case FeedList(name, feeds) =>
      var i := Lookup(w.slots, name);
      if i < 0 then w else RehashAt(FeedAll(w, i, feeds), i)
    case NextGeneration => w.(generation := (w.generation + 1) % WORD)
    case PurgeOld => Purge(w)
    case RehashAll =>
      w.(slots := seq(|w.slots|, i requires 0 <= i < |w.slots| => RehashIfNeeded(w.items, w.slots[i])))
    case Flush =>
      w.(slots := seq(|w.slots|, i requires 0 <= i < |w.slots| => Emptied(w.slots[i])), items := map[])
  }

  function Run(w: State, ops: seq<Op>): State {
    if ops == [] then w else Step(Run(w, ops[..|ops| - 1]), ops[|ops| - 1])
  }

  lemma RunOne(w: State, ops: seq<Op>, op: Op)
    ensures Run(w, ops + [op]) == Step(Run(w, ops), op)
  {
    hide Step;
    assert (ops + [op])[..|ops|] == ops;
  }

  // ---- References -------------------------------------------------------------------------------

  /** How many entries, over all slots, point at an item. */
  ghost function Pointing(slots: seq<Slot>, id: Id): nat {
    if slots == [] then 0 else Pointing(slots[..|slots| - 1], id) + Refs(slots[|slots| - 1], id)
  }

  /** An item counts, in 16 bits, the `n` entries that point at it, if there is such an item at all. */
  ghost predicate Agrees(items: Items, n: nat, id: Id) {
    && (id in items ==> items[id].refcount == n % REFS)
    && (n > 0 ==> id in items)
  }

  /** Each item counts the entries that point at it, and no entry points elsewhere. */
  ghost predicate Counted(w: State) { forall id :: Agrees(w.items, Pointing(w.slots, id), id) }

  lemma {:induction false} PointingUpdate(slots: seq<Slot>, i: nat, s: Slot, id: Id)
    requires i < |slots|
    ensures Pointing(slots[i := s], id) == Pointing(slots, id) - Refs(slots[i], id) + Refs(s, id)
    ensures Refs(slots[i], id) <= Pointing(slots, id)
  {
    hide Refs;
    var n := |slots| - 1;
    if i == n {
      assert slots[i := s][..n] == slots[..n];
    } else {
      assert slots[i := s][..n] == slots[..n][i := s];
      PointingUpdate(slots[..n], i, s, id);
    }
  }

  lemma PointingAppend(slots: seq<Slot>, s: Slot, id: Id)
    ensures Pointing(slots + [s], id) == Pointing(slots, id) + Refs(s, id)
  {
    assert (slots + [s])[..|slots|] == slots;
  }

  lemma {:induction false} PointingAlike(slots: seq<Slot>, slots': seq<Slot>, id: Id)
    requires |slots| == |slots'| && forall i :: 0 <= i < |slots| ==> Refs(slots[i], id) == Refs(slots'[i], id)
    ensures Pointing(slots, id) == Pointing(slots', id)
  {
    hide Refs;
    if slots != [] { PointingAlike(slots[..|slots| - 1], slots'[..|slots| - 1], id); }
  }

  /** A change of one slot that moves references and entries alike. */
  lemma SlotChange(items: Items, slots: seq<Slot>, i: nat, items': Items, s: Slot, id: Id)
    requires i < |slots| && Agrees(items, Pointing(slots, id), id)
    requires id in items' ==> Balance(items', Refs(s, id), id) == Balance(items, Refs(slots[i], id), id)
    requires id in items || Refs(s, id) > Refs(slots[i], id) ==> id in items'
    ensures Agrees(items', Pointing(slots[i := s], id), id)
  {
    hide Refs, Pointing;
    PointingUpdate(slots, i, s, id);
    if id in items' {
      Moves(RefOf(items, id), RefOf(items', id), Refs(slots[i], id), Refs(s, id), Pointing(slots, id));
    }
  }

  lemma Moves(a: RefCount, a': RefCount, n: nat, n': nat, all: nat)
    requires (a' - n') % REFS == (a - n) % REFS && a == all % REFS && n <= all
    ensures a' == (all - n + n') % REFS
  {
  }

  /** Feeding adds a reference exactly when it adds an entry. */
  lemma FeedEntryBalance(items: Items, generation: Generation, s: Slot, f: Feed, id: Id)
    ensures
      var r := FeedEntry(items, generation, s, f);
      && (id in r.0 ==> Balance(r.0, Refs(r.1, id), id) == Balance(items, Refs(s, id), id))
      && (id in items || id == f.id ==> id in r.0) && (id != f.id ==> Refs(r.1, id) == Refs(s, id))
  {
    hide FindSlotItem, FromItems, FromZero, AddNew, Refs, Balance;
    if f.id in items {
      FlaggedRefs(items, s, f);
      FoundBalance(Reweighed(items, f), generation, Flagged(items, s, f), f, id);
      SameBalance(items, Reweighed(items, f), Refs(s, id), id);
    } else {
      var known := items[f.id := Item(f.location, f.putWeight, 0)];
      AddRefs(known, generation, s, f.id);
      AddBalance(known, Refs(s, id), f.id, id);
      SameBalance(items, known, Refs(s, id), id);
    }
  }

  lemma SameBalance(items: Items, items': Items, n: nat, id: Id)
    requires RefOf(items, id) == RefOf(items', id)
    ensures Balance(items, n, id) == Balance(items', n, id)
  {
  }

  lemma AddBalance(items: Items, n: nat, fed: Id, id: Id)
    requires fed in items
    ensures Balance(Ref(items, fed), n + (if id == fed then 1 else 0), id) == Balance(items, n, id)
  {
    Shift(RefOf(items, id), n);
  }

  lemma FoundBalance(items: Items, generation: Generation, s: Slot, f: Feed, id: Id)
    requires f.id in items
    ensures
      var r := FeedFound(items, generation, s, f);
      && Balance(r.0, Refs(r.1, id), id) == Balance(items, Refs(s, id), id)
      && r.0.Keys == items.Keys && (id != f.id ==> Refs(r.1, id) == Refs(s, id))
  {
    hide FindSlotItem, FromItems, FromZero, AddNew, Refs, Balance;
    var i := FindSlotItem(items, s.items, s.dirtyOrder, f.id);
    var j := FindSlotItem(items, s.zero, s.zeroDirty, f.id);
    if i >= 0 {
      FromItemsRefs(generation, s, i, f.putWeight, Moved(items, f));
      SameBalance(items, Relocated(items, f), Refs(s, id), id);
    } else if j >= 0 {
      FromZeroRefs(generation, s, j, f.putWeight, Moved(items, f));
      SameBalance(items, Relocated(items, f), Refs(s, id), id);
    } else {
      AddRefs(items, generation, s, f.id);
      AddBalance(items, Refs(s, id), f.id, id);
    }
  }

  lemma FeedCounts(w: State, i: nat, f: Feed)
    requires i < |w.slots| && Counted(w)
    ensures Counted(FeedAt(w, i, f))
  {
    hide FeedEntry, Refs, Balance, Rehashed, Pointing, Agrees;
    var s := w.slots[i].(generation := w.generation);
    var e := FeedEntry(w.items, w.generation, s, f);
    var r := FeedSlot(w.items, w.generation, w.slots[i], f);
    var w' := FeedAt(w, i, f);
    forall id ensures Agrees(w'.items, Pointing(w'.slots, id), id) {
      FeedEntryBalance(w.items, w.generation, s, f, id);
      GenerationKeepsRefs(w.slots[i], w.generation, id);
      RehashRefs(e.0, e.1, id);
      SlotChange(w.items, w.slots, i, r.0, r.1, id);
    }
  }

  lemma RehashCounts(w: State, i: nat)
    requires i < |w.slots| && Counted(w)
    ensures Counted(RehashAt(w, i))
  {
    hide Refs, Rehashed, Pointing, Agrees;
    var w' := RehashAt(w, i);
    forall id ensures Agrees(w'.items, Pointing(w'.slots, id), id) {
      RehashRefs(w.items, w.slots[i], id);
      PointingUpdate(w.slots, i, Rehashed(w.items, w.slots[i]), id);
    }
  }

  lemma {:induction false} FeedAllCounts(w: State, i: nat, feeds: seq<Feed>)
    requires i < |w.slots| && Counted(w)
    ensures Counted(FeedAll(w, i, feeds))
  {
    hide FeedAt, Counted;
    if feeds != [] {
      FeedAllCounts(w, i, feeds[..|feeds| - 1]);
      FeedCounts(FeedAll(w, i, feeds[..|feeds| - 1]), i, feeds[|feeds| - 1]);
    }
  }

  lemma {:induction false} PurgeItemsCounts(items: Items, slots: seq<Slot>, k: nat, generation: Generation, age: nat, id: Id)
    requires Agrees(items, Pointing(slots, id), id)
    ensures
      var r := PurgeItems(items, slots, k, generation, age);
      Agrees(r.0, Pointing(r.1, id), id)
    decreases |slots| - k
  {
    hide Refs, Balance, PurgeSlot, Pointing;
    if k < |slots| {
      PurgeSlotIs(items, slots[k], generation, age, id);
      var r := PurgeSlot(items, slots[k], generation, age);
      PointingUpdate(slots, k, r.1, id);
      SlotChange(items, slots, k, r.0, r.1, id);
      PurgeItemsCounts(r.0, slots[k := r.1], k + 1, generation, age, id);
    }
  }

  lemma {:induction false} DropCounts(items: Items, slots: seq<Slot>, generation: Generation, age: nat, rest: nat, id: Id)
    requires Agrees(items, Pointing(slots, id) + rest, id)
    ensures
      var r := DropSlots(items, slots, generation, age);
      Agrees(r.0, Pointing(r.1, id) + rest, id)
  {
    hide Refs, Balance, FlushSlot, Delta;
    if slots != [] {
      var n := |slots| - 1;
      var last := slots[n];
      DropCounts(items, slots[..n], generation, age, rest + Refs(last, id), id);
      var r := DropSlots(items, slots[..n], generation, age);
      if Delta(last.generation, generation) > age {
        FlushSlotKeeps(r.0, last, id);
        if id in r.0 {
          FlushMoves(r.0, FlushSlot(r.0, last).0, Refs(last, id), Pointing(r.1, id) + rest, id);
        }
      } else {
        PointingAppend(r.1, last, id);
      }
    }
  }

  lemma FlushMoves(items: Items, items': Items, n: nat, rest: nat, id: Id)
    requires id in items && id in items' && Balance(items', 0, id) == Balance(items, n, id)
    requires items[id].refcount == (rest + n) % REFS
    ensures items'[id].refcount == rest % REFS
  {
  }

  lemma {:induction false} NothingPoints(slots: seq<Slot>, id: Id)
    requires forall i :: 0 <= i < |slots| ==> Refs(slots[i], id) == 0
    ensures Pointing(slots, id) == 0
  {
    hide Refs;
    if slots != [] { NothingPoints(slots[..|slots| - 1], id); }
  }

  lemma StepCounts(w: State, op: Op)
    requires Counted(w)
    ensures Counted(Step(w, op))
  {
    hide Refs, Pointing, Agrees, FeedAt, FeedAll, RehashAt, PurgeItems, DropSlots, Rehashed;
    var w' := Step(w, op);
    match op {
      case FeedOne(name, f) =>
        if Lookup(w.slots, name) >= 0 { FeedCounts(w, Lookup(w.slots, name), f); }
      case FeedList(name, feeds) =>
        var i := Lookup(w.slots, name);
        if i >= 0 {
          FeedAllCounts(w, i, feeds);
          RehashCounts(FeedAll(w, i, feeds), i);
        }
      case PurgeOld =>
        var r := PurgeItems(w.items, w.slots, 0, w.generation, 0);
        forall id ensures Agrees(w'.items, Pointing(w'.slots, id), id) {
          PurgeItemsCounts(w.items, w.slots, 0, w.generation, 0, id);
          DropCounts(r.0, r.1, w.generation, 0, 0, id);
        }
      case CreateSlot(name) =>
        forall id ensures Pointing(w'.slots, id) == Pointing(w.slots, id) {
          PointingAppend(w.slots, NewSlot(name), id);
          NewRefs(name, id);
        }
      case RehashAll =>
        forall id ensures Pointing(w'.slots, id) == Pointing(w.slots, id) {
          forall i | 0 <= i < |w.slots| ensures Refs(w'.slots[i], id) == Refs(w.slots[i], id) {
            RehashRefs(w.items, w.slots[i], id);
          }
          PointingAlike(w'.slots, w.slots, id);
        }
      case Flush =>
        forall id ensures Agrees(w'.items, Pointing(w'.slots, id), id) { FlushCounts(w, id); }
      case NextGeneration =>
    }
  }

  lemma NewRefs(name: Name, id: Id)
    ensures Refs(NewSlot(name), id) == 0
  {
  }

  lemma FlushCounts(w: State, id: Id)
    ensures Agrees(map[], Pointing(Step(w, Flush).slots, id), id)
  {
    NothingPoints(Step(w, Flush).slots, id);
  }

  /** In every reachable world, even with items in several slots, the reference count of an item is
      the number of entries that point at it and every entry points at an item of the world. */
  lemma {:induction false} RunCounts(ops: seq<Op>)
    ensures Counted(Run(EMPTY, ops))
  {
    hide Step, Counted;
    if ops == [] {
      EmptyCounts();
    } else {
      RunCounts(ops[..|ops| - 1]);
      StepCounts(Run(EMPTY, ops[..|ops| - 1]), ops[|ops| - 1]);
    }
  }

  lemma EmptyCounts()
    ensures Counted(EMPTY)
  {
  }
}
