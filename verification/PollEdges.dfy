/**
 Polls of reachable worlds that a configured constraint does not bind (core/lb.c), whatever
 the random numbers: under a key that is never counted, after a pick at location 0, near a
 known location that was overwritten, and next to the placeholder of the distances.
 */
module PollEdges {
  import opened Location
  import opened Counters
  import opened Slots
  import opened Feeding
  import opened WorldSpec
  import opened WorldIndex
  import opened WorldShared
  import opened Matching
  import opened Poll
  import opened Patching
  import Placement
  import WorldReload
  import Walk

  // ---- Small worlds ------------------------------------------------------------------------------------------

  /** A world whose slots have been fed one item or two, in the order of their locations. */
  ghost predicate Stocked(w: State, shelves: seq<seq<Feed>>) {
    && |w.slots| == |shelves| && Distinct(w.slots)
    && forall i :: 0 <= i < |shelves| ==> Shelf(w, i, shelves[i])
  }

  ghost predicate Shelf(w: State, i: nat, fs: seq<Feed>)
    requires i < |w.slots|
  {
    && 0 < |fs| <= 2 && Filled(w.items, w.slots[i], fs)
    && forall k :: 0 <= k < |fs| ==> Knows(w.items, fs[k]) && fs[k].putWeight > 0
  }

  /** A target that is one slot. */
  ghost predicate Aims(w: State, pool: Pool, t: nat, i: nat) {
    t < |pool.targets| && i < |w.slots| && pool.targets[t] == [w.slots[i].name] && pool.joker != w.slots[i].name
  }

  lemma FoundAt(w: State, shelves: seq<seq<Feed>>, i: nat)
    requires Stocked(w, shelves) && i < |w.slots|
    ensures Lookup(w.slots, w.slots[i].name) == i && Shelf(w, i, shelves[i])
  {
  }

  lemma StockedSize(w: State, shelves: seq<seq<Feed>>)
    requires Stocked(w, shelves)
    ensures |w.slots| == |shelves|
  {
  }

  lemma ShelfItems(w: State, i: nat, fs: seq<Feed>)
    requires i < |w.slots| && Shelf(w, i, fs)
    ensures
      var s := w.slots[i];
      && |s.items| == |fs| && s.zero == [] && Sorted(w.items, s.items) && s.jump == Walk.JumpFor(|s.items|)
      && forall k :: 0 <= k < |fs| ==> s.items[k].id == fs[k].id && LocOf(w.items, fs[k].id) == fs[k].location
  {
    hide Sorted, Exact, Walk.JumpFor;
  }

  // ---- What a choice can be ----------------------------------------------------------------------------------

  /** A pick for a target is one of the items of its slot, far from what is seen. */
  lemma PickIs(rules: Rules, w: State, pool: Pool, maxDist: Dist, shelves: seq<seq<Feed>>, p: Progress, c: Choice, i: nat)
    returns (k: nat)
    requires Stocked(w, shelves) && rules.nTargets > 0 && Link(rules, w, pool, maxDist, p, c) && c.Pick?
    requires Aims(w, pool, c.target, i)
    ensures k < |shelves[i]| && At(c) == shelves[i][k].location && c.selected.id == shelves[i][k].id
    ensures pool.minDist <= c.selected.finalDist <= maxDist && !TooClose(Listed(Seen(p)), At(c), c.selected.finalDist)
  {
    hide TooPopular, TooClose, Shelf, Lookup;
    FoundAt(w, shelves, i);
    ShelfItems(w, i, shelves[i]);
    k :| 0 <= k < |w.slots[i].items| && w.slots[i].items[k].id == c.selected.id;
  }

  /** What a level does not bind: its key is 0, or its maximum is above all that is counted. */
  lemma NotPopular(maxima: Maxima, n: nat, slot: Slot, counted: seq<Loc>, loc: Loc)
    requires slot.items != [] && n > 0
    requires forall level: Level :: maxima[level] > 0 && (KeyOf(loc, level) == 0 || |counted| < maxima[level])
    ensures !TooPopular(maxima, n, slot, Tally(counted), loc)
  {
    hide KeyOf, Tally, PopularAt, NumAt, Leafs;
    forall level: Level ensures !PopularAt(maxima, n, slot, Tally(counted), loc, level) {
      Placement.PopularIff(maxima, n, slot, counted, loc, level);
      NumAtMost(counted, level, KeyOf(loc, level));
    }
  }

  lemma NothingListed(loc: Loc)
    ensures !TooClose(Listed([]), loc, 1)
  {
  }

  lemma {:induction false} SumBounds(items: Items, s: seq<Entry>, n: nat)
    requires 0 < n <= |s| && forall i :: 0 <= i < |s| ==> WeightOf(items, s[i].id) > 0
    ensures 0 < SumTo(items, s, n) <= 255 * n
  {
    hide WeightOf;
    if n > 1 { SumBounds(items, s, n - 1); }
  }

  lemma ShelfPollable(w: State, i: nat, fs: seq<Feed>)
    requires i < |w.slots| && Shelf(w, i, fs)
    ensures Pollable(w.slots[i])
  {
    hide SumTo, Surveyed, Walk.JumpFor;
    SumBounds(w.items, w.slots[i].items, |fs|);
  }

  /** An item that is far from what is seen, and that no level binds, serves its target. */
  lemma CanServe(rules: Rules, w: State, pool: Pool, shelves: seq<seq<Feed>>, p: Progress, t: nat, i: nat, k: nat, d: Dist)
    requires Stocked(w, shelves) && rules.nTargets > 0 && rules.avoids == [] && Aims(w, pool, t, i) && k < |shelves[i]|
    requires !TooClose(Listed(Seen(p)), shelves[i][k].location, d)
    requires forall level: Level ::
      rules.maxima[level] > 0 && (KeyOf(shelves[i][k].location, level) == 0 || |p.counted| < rules.maxima[level])
    ensures Serves(rules, w, pool.targets[t], p, d)
  {
    hide KeyOf, Tally, TooPopular, TooClose, Shelf, Lookup;
    FoundAt(w, shelves, i);
    ShelfItems(w, i, shelves[i]);
    ShelfPollable(w, i, shelves[i]);
    var s := w.slots[i];
    NotPopular(rules.maxima, rules.nTargets, s, p.counted, shelves[i][k].location);
    NothingListed(shelves[i][k].location);
    assert Acceptable(rules, s, p, LocOf(w.items, s.items[k].id), d);
    assert SlotServes(rules, w.items, s, p, d);
    assert pool.targets[t][0] == s.name;
  }

  // ---- The walk of a small slot --------------------------------------------------------------------------------

  lemma SmallJump(len: nat)
    requires 0 < len <= 2
    ensures Walk.Coprime(Walk.JumpFor(len), len)
  {
    assert Walk.JumpFor(len) == SHUFFLE_JUMP;
    forall d: nat | d > 1 && Walk.Divides(d, len) ensures !Walk.Divides(d, SHUFFLE_JUMP) {
      Walk.DividesAtMost(d, len);
      if Walk.Divides(d, SHUFFLE_JUMP) {
        var q := Walk.Quotient(d, SHUFFLE_JUMP);
      }
    }
  }

  lemma StockedIsWalkable(w: State, shelves: seq<seq<Feed>>)
    requires Stocked(w, shelves)
    ensures AllWalkable(w)
  {
    hide Shelf, Walk.JumpFor, Walk.Coprime;
    forall s | s in w.slots ensures Walkable(s) {
      var i :| 0 <= i < |w.slots| && w.slots[i] == s;
      FoundAt(w, shelves, i);
      ShelfItems(w, i, shelves[i]);
      SmallSlot(w, i, shelves[i]);
    }
  }

  lemma SmallSlot(w: State, i: nat, fs: seq<Feed>)
    requires i < |w.slots| && Shelf(w, i, fs)
    ensures 0 < |w.slots[i].items| <= 2 && Walkable(w.slots[i])
  {
    hide Surveyed, Exact, Walk.JumpFor, Walk.Coprime;
    SmallJump(|fs|);
  }

  // ---- Known locations of no target ------------------------------------------------------------------------------

  /** No slot of the world has a location. */
  ghost predicate Nowhere(shelves: seq<seq<Feed>>, loc: Loc) {
    forall i, k :: 0 <= i < |shelves| && 0 <= k < |shelves[i]| ==> shelves[i][k].location != loc
  }

  /** The locations still pending, here one at most, stand for no target. */
  lemma NoMatch(w: State, pool: Pool, shelves: seq<seq<Feed>>, t: nat, i: nat, pending: seq<Loc>, strict: bool)
    requires Stocked(w, shelves) && Aims(w, pool, t, i)
    requires |pending| <= 1 && forall j :: 0 <= j < |pending| ==> Nowhere(shelves, pending[j])
    ensures Match(w, pool.joker, pool.targets[t], pending, strict).None?
  {
    hide SearchFirst, Shelf, Lookup;
    if pending != [] {
      FoundAt(w, shelves, i);
      ShelfItems(w, i, shelves[i]);
      var s := w.slots[i];
      SlotHasIs(w.items, s, pending[0], strict);
      var locs := Locs(w.items, s.items);
      forall k | 0 <= k < |locs| ensures locs[k] != pending[0] { assert locs[k] == shelves[i][k].location; }
      assert FirstHeld(w.items, s, pending, strict, 0) == -1;
      assert MatchFrom(w, [s.name], pending, strict, 0).None?;
    }
  }

  /** The targets of the pool are single slots. */
  ghost predicate AllAim(w: State, pool: Pool, slotOf: seq<nat>) {
    |slotOf| == |pool.targets| && forall t :: 0 <= t < |slotOf| ==> Aims(w, pool, t, slotOf[t])
  }

  lemma {:induction false} PassLeavesAll(w: State, pool: Pool, known: seq<Loc>, t: nat)
    requires t <= |pool.targets|
    requires forall i :: 0 <= i < |pool.targets| ==> Match(w, pool.joker, pool.targets[i], known, true).None?
    ensures StrictPass(w, pool, known, t) == Pass([], Upto(t))
  {
    hide Match;
    if t > 0 {
      PassLeavesAll(w, pool, known, t - 1);
      assert After(known, []) == Start(known);
      assert Upto(t) == Upto(t - 1) + [t - 1];
    }
  }

  /** A request whose known locations, one at most, stand for no target. */
  ghost predicate Plain(w: State, pool: Pool, shelves: seq<seq<Feed>>, slotOf: seq<nat>, known: seq<Loc>) {
    && Stocked(w, shelves) && AllAim(w, pool, slotOf) && |known| <= 1
    && forall j :: 0 <= j < |known| ==> Nowhere(shelves, known[j])
  }

  lemma PlainPass(w: State, pool: Pool, shelves: seq<seq<Feed>>, slotOf: seq<nat>, known: seq<Loc>)
    requires Plain(w, pool, shelves, slotOf, known)
    ensures StrictPass(w, pool, known, |pool.targets|) == Pass([], Upto(|pool.targets|))
  {
    hide Match, Stocked, Nowhere;
    forall t | 0 <= t < |pool.targets| ensures Match(w, pool.joker, pool.targets[t], known, true).None? {
      NoMatch(w, pool, shelves, t, slotOf[t], known, true);
    }
    PassLeavesAll(w, pool, known, |pool.targets|);
  }

  /** What is pending is at most what was known. */
  lemma {:induction false} PendingIsKnown(known: seq<Loc>, run: seq<Choice>)
    requires |known| <= 1
    ensures After(known, run).pending == known || After(known, run).pending == []
  {
    if run != [] { PendingIsKnown(known, run[..|run| - 1]); }
  }

  /** Each choice is a pick, for the target of its rank. */
  lemma PlainChoice(rules: Rules, w: State, pool: Pool, maxDist: Dist, shelves: seq<seq<Feed>>, slotOf: seq<nat>,
                    known: seq<Loc>, run: seq<Choice>, j: nat)
    requires Plain(w, pool, shelves, slotOf, known) && j < |run|
    requires Chain(rules, w, pool, maxDist, known, run) && InOrder(w, pool, known, run)
    ensures rules.nTargets > 0 && j < |slotOf| && Aims(w, pool, j, slotOf[j])
    ensures run[j].Pick? && run[j].target == j && Link(rules, w, pool, maxDist, After(known, run[..j]), run[j])
  {
    hide Match, Stocked, Nowhere, After, StrictPass, Picked;
    PlainPass(w, pool, shelves, slotOf, known);
    assert Link(rules, w, pool, maxDist, After(known, run[..j]), run[j]);
    assert run[j].target == Upto(|pool.targets|)[j] == j;
    PendingIsKnown(known, run[..j]);
    NoMatch(w, pool, shelves, j, slotOf[j], After(known, run[..j]).pending, false);
  }

  /** A poll that stops stops at a target that nothing serves. */
  lemma PlainStuck(rules: Rules, w: State, pool: Pool, maxDist: Dist, shelves: seq<seq<Feed>>, slotOf: seq<nat>,
                   known: seq<Loc>, run: seq<Choice>)
    requires Plain(w, pool, shelves, slotOf, known) && Stuck(rules, w, pool, maxDist, known, run)
    requires pool.minDist <= maxDist
    ensures |run| < |pool.targets| && rules.nTargets > 0
    ensures !Serves(rules, w, pool.targets[|run|], After(known, run), pool.minDist)
  {
    hide Match, Stocked, Nowhere, After, StrictPass, Serves;
    PlainPass(w, pool, shelves, slotOf, known);
  }

  // ---- Reachable small worlds -----------------------------------------------------------------------------------

  /** Feeds of different items with a weight, in the order of their locations. */
  ghost predicate Ranged(fs: seq<Feed>) {
    && 0 < |fs| <= 2 && (forall k :: 0 <= k < |fs| ==> fs[k].putWeight > 0)
    && (|fs| == 2 ==> fs[0].id != fs[1].id && fs[0].location <= fs[1].location)
  }

  lemma StockOne(name: Name, fs: seq<Feed>)
    requires Ranged(fs)
    ensures
      var w := Run(EMPTY, [CreateSlot(name), FeedList(name, fs)]);
      Stocked(w, [fs]) && w.slots[0].name == name && WorldReload.Capped(w)
  {
    hide Run, Filled, WorldReload.Capped, Knows;
    OneFilled(name, fs);
    WorldReload.RunCaps([CreateSlot(name), FeedList(name, fs)]);
  }

  lemma StockTwo(a: Name, b: Name, fs: seq<Feed>, gs: seq<Feed>)
    requires a != b && Ranged(fs) && Ranged(gs)
    requires forall k, m :: 0 <= k < |fs| && 0 <= m < |gs| ==> fs[k].id != gs[m].id
    ensures
      var w := Run(EMPTY, [CreateSlot(a), CreateSlot(b), FeedList(a, fs), FeedList(b, gs)]);
      Stocked(w, [fs, gs]) && w.slots[0].name == a && w.slots[1].name == b && WorldReload.Capped(w)
  {
    hide Run, Filled, WorldReload.Capped, Knows;
    TwoFilled(a, b, fs, gs);
    WorldReload.RunCaps([CreateSlot(a), CreateSlot(b), FeedList(a, fs), FeedList(b, gs)]);
  }

  /** The world goes as far as the prefix of one of its items is not empty. */
  lemma Reaches(w: State, shelves: seq<seq<Feed>>, i: nat, k: nat, d: Dist)
    requires Stocked(w, shelves) && WorldReload.Capped(w) && i < |shelves| && k < |shelves[i]| && d > 0
    requires d == 1 || Prefix(shelves[i][k].location, d - 1) != 0
    ensures MinDist(w.absMaxDist, d) == d
  {
    hide Prefix, MaxDist, Filled;
    var loc := shelves[i][k].location;
    assert Shelf(w, i, shelves[i]);
    PrefixVanishes(loc);
    if MaxDist(loc) < d { Vanished(loc, MaxDist(loc), d - 1); }
  }

  lemma NothingSeen(loc: Loc, d: Dist)
    ensures !TooClose(Listed(Seen(Start([]))), loc, d)
  {
  }

  /** Only one location, not 0, is seen. */
  lemma OneSeen(p: Progress, a: Loc, b: Loc, d: Dist)
    requires Seen(p) == [a] && a != 0
    ensures TooClose(Listed(Seen(p)), b, d) <==> Close(a, b, d)
  {
    hide Close;
    ListedIs([a], 1);
    assert [a][0] == a;
  }

  lemma ZeroSeen(p: Progress, b: Loc, d: Dist)
    requires Seen(p) != [] && Seen(p)[0] == 0
    ensures !TooClose(Listed(Seen(p)), b, d)
  {
  }

  lemma AfterOne(known: seq<Loc>, run: seq<Choice>)
    requires |run| > 0 && run[0].Pick?
    ensures After(known, run[..1]) == Took(Start(known), At(run[0])) && run[..0] == []
  {
    assert run[..1][..0] == [];
    assert After(known, run[..1][..0]) == Start(known);
  }

  lemma AfterTwo(known: seq<Loc>, run: seq<Choice>)
    requires |run| > 1 && run[0].Pick? && run[1].Pick?
    ensures After(known, run[..2]) == Took(Took(Start(known), At(run[0])), At(run[1]))
  {
    hide Took;
    AfterOne(known, run);
    assert run[..2][..1] == run[..1];
  }

  // ---- A key that is never counted -----------------------------------------------------------------------

  const ONE_HOST: Loc := 0x0001_0000_FFFF_0001
  const SAME_HOST: Loc := 0x0001_0000_FFFF_0002

  lemma HostPrefixes()
    ensures Prefix(ONE_HOST, 1) == 0x0001_0000_FFFF && Prefix(SAME_HOST, 1) == 0x0001_0000_FFFF
    ensures Prefix(0x0001_0000_FFFF_0000, 1) == 0x0001_0000_FFFF && Prefix(ONE_HOST, 0) != Prefix(SAME_HOST, 0)
  {
  }

  lemma HostKeys()
    ensures KeyOf(ONE_HOST, 1) == 0 && KeyOf(SAME_HOST, 1) == 0
    ensures Prefix(ONE_HOST, 1) == Prefix(SAME_HOST, 1)
    ensures !Close(ONE_HOST, SAME_HOST, 1) && !Close(SAME_HOST, ONE_HOST, 1)
  {
    hide KeyOf, Prefix;
    HostPrefixes();
    HostKeyVanishes();
    SamePrefixSameKey(ONE_HOST, 0x0001_0000_FFFF_0000, 1);
    SamePrefixSameKey(SAME_HOST, 0x0001_0000_FFFF_0000, 1);
  }

  ghost predicate OneHost(fs: seq<Feed>) { |fs| == 2 && fs[0].location == ONE_HOST && fs[1].location == SAME_HOST }

  /** Neither item is bound, and each of them is far from the other. */
  lemma HostServes(rules: Rules, w: State, pool: Pool, fs: seq<Feed>, run: seq<Choice>)
    requires Plain(w, pool, [fs], [0, 0], []) && OneHost(fs) && pool.minDist == 1 && |run| < 2
    requires rules == Rules([], [1, 1, 9, 9], 2)
    requires Chain(rules, w, pool, 1, [], run) && InOrder(w, pool, [], run)
    ensures Serves(rules, w, pool.targets[|run|], After([], run), 1)
  {
    hide KeyOf, Prefix, Chain, InOrder, Stocked, Link, Close, Serves, After, TooClose, Nowhere, Aims;
    HostKeys();
    assert Aims(w, pool, 0, [0, 0][0]) && Aims(w, pool, 1, [0, 0][1]);
    assert rules.maxima[1] == 1 && rules.maxima[2] == 9 && rules.maxima[3] == 9;
    if run == [] {
      Placement.AfterNone([]);
      NothingSeen(ONE_HOST, 1);
      CanServe(rules, w, pool, [fs], Start([]), 0, 0, 0, 1);
    } else {
      PlainChoice(rules, w, pool, 1, [fs], [0, 0], [], run, 0);
      var k := PickIs(rules, w, pool, 1, [fs], After([], run[..0]), run[0], 0);
      AfterOne([], run);
      assert run[..1] == run;
      var p := After([], run);
      OneSeen(p, At(run[0]), fs[1 - k].location, 1);
      CanServe(rules, w, pool, [fs], p, 1, 0, 1 - k, 1);
    }
  }

  /** Whatever is picked shares the host. */
  lemma HostShared(rules: Rules, w: State, pool: Pool, fs: seq<Feed>, run: seq<Choice>)
    requires Plain(w, pool, [fs], [0, 0], []) && OneHost(fs) && |run| == 2
    requires Chain(rules, w, pool, 1, [], run) && InOrder(w, pool, [], run)
    ensures Placement.Sharers(Locations(run), 1, Prefix(ONE_HOST, 1)) == 2
  {
    hide KeyOf, Prefix, Chain, InOrder, Stocked, Link, Close, After, TooClose, Nowhere;
    HostKeys();
    forall j | 0 <= j < 2 ensures Prefix(At(run[j]), 1) == Prefix(ONE_HOST, 1) {
      PlainChoice(rules, w, pool, 1, [fs], [0, 0], [], run, j);
      var k := PickIs(rules, w, pool, 1, [fs], After([], run[..j]), run[j], 0);
    }
    assert Locations(run) == [At(run[0]), At(run[1])];
    TwoSharers(At(run[0]), At(run[1]));
  }

  lemma TwoSharers(a: Loc, b: Loc)
    requires Prefix(a, 1) == Prefix(b, 1)
    ensures Placement.Sharers([a, b], 1, Prefix(a, 1)) == 2
  {
    hide Prefix;
    assert [a, b][..1] == [a] && [a][..0] == [];
    assert Placement.Sharers([a], 1, Prefix(a, 1)) == 1;
  }

  /** Two targets, at most one pick per host, and two items on a host whose key is 0: both picks are on it. */
  method ZeroKeyExceeds(name: Name, joker: Name, x: Id, y: Id, weight: Weight, attempts: nat, random: nat -> nat)
    returns (w: State, pool: Pool, a: Answer)
    requires x != y && weight > 0 && joker != name
    ensures w == Run(EMPTY, [CreateSlot(name), FeedList(name, [Feed(x, ONE_HOST, weight), Feed(y, SAME_HOST, weight)])])
    ensures pool == Pool(joker, [[name], [name]], 1, 1, [1, 1, 9, 9], [0, 0, 0, 0])
    ensures a.Satisfied? && Placement.Sharers(Locations(a.selection), 1, Prefix(ONE_HOST, 1)) == 2 > pool.strictMax[1]
  {
    hide Run, Prefix, Chain, InOrder, Stocked, Stuck, Greedy, Answers, Serves, AllWalkable, After, WorldReload.Capped;
    var fs := [Feed(x, ONE_HOST, weight), Feed(y, SAME_HOST, weight)];
    w := Run(EMPTY, [CreateSlot(name), FeedList(name, fs)]);
    pool := Pool(joker, [[name], [name]], 1, 1, [1, 1, 9, 9], [0, 0, 0, 0]);
    StockOne(name, fs);
    StockedSize(w, [fs]);
    Reaches(w, [fs], 0, 0, 1);
    StockedIsWalkable(w, [fs]);
    ghost var run;
    a, run := Patch(w, pool, [], [], pool.strictMax, false, attempts, random);
    if a.NotSatisfiable? {
      PlainStuck(Rules([], pool.strictMax, 2), w, pool, 1, [fs], [0, 0], [], run);
      HostServes(Rules([], pool.strictMax, 2), w, pool, fs, run);
    }
    HostShared(Rules([], pool.strictMax, 2), w, pool, fs, run);
    Placement.AnswersAlike(run, 1, a.selection, []);
  }

  // ---- A pick at location 0 ------------------------------------------------------------------------------

  ghost predicate ZeroThenFive(fs: seq<Feed>, gs: seq<Feed>) {
    |fs| == 1 && |gs| == 1 && fs[0].location == 0 && gs[0].location == 5
  }

  /** The picks so far: the item at 0, then the other one. */
  lemma ZeroPicks(rules: Rules, w: State, pool: Pool, fs: seq<Feed>, gs: seq<Feed>, run: seq<Choice>, j: nat)
    requires Plain(w, pool, [fs, gs], [0, 1, 1], []) && ZeroThenFive(fs, gs) && j < |run|
    requires Chain(rules, w, pool, 1, [], run) && InOrder(w, pool, [], run)
    ensures j < 3 && run[j].Pick? && At(run[j]) == (if j == 0 then 0 else 5)
    ensures j > 0 ==> run[j].selected.id == gs[0].id
  {
    hide Chain, InOrder, Stocked, Link, After, TooClose, Nowhere;
    PlainChoice(rules, w, pool, 1, [fs, gs], [0, 1, 1], [], run, j);
    var k := PickIs(rules, w, pool, 1, [fs, gs], After([], run[..j]), run[j], [0, 1, 1][j]);
  }

  lemma ZeroServes(rules: Rules, w: State, pool: Pool, fs: seq<Feed>, gs: seq<Feed>, run: seq<Choice>)
    requires Plain(w, pool, [fs, gs], [0, 1, 1], []) && ZeroThenFive(fs, gs) && pool.minDist == 1 && |run| < 3
    requires rules == Rules([], [9, 9, 9, 9], 3)
    requires Chain(rules, w, pool, 1, [], run) && InOrder(w, pool, [], run)
    ensures Serves(rules, w, pool.targets[|run|], After([], run), 1)
  {
    hide KeyOf, Chain, InOrder, Stocked, Serves, After, TooClose, Nowhere, Aims;
    assert Aims(w, pool, 0, [0, 1, 1][0]) && Aims(w, pool, 1, [0, 1, 1][1]) && Aims(w, pool, 2, [0, 1, 1][2]);
    if run == [] {
      Placement.AfterNone([]);
      NothingSeen(0, 1);
      CanServe(rules, w, pool, [fs, gs], Start([]), 0, 0, 0, 1);
    } else {
      ZeroPicks(rules, w, pool, fs, gs, run, 0);
      AfterOne([], run);
      if |run| == 2 {
        ZeroPicks(rules, w, pool, fs, gs, run, 1);
        AfterTwo([], run);
      }
      assert run[..|run|] == run;
      ZeroSeen(After([], run), 5, 1);
      CanServe(rules, w, pool, [fs, gs], After([], run), |run|, 1, 0, 1);
    }
  }

  /** Three targets, an item at 0 for the first one and another item for the two others: that one is picked twice. */
  method ZeroHidesPicks(a: Name, b: Name, joker: Name, x: Id, y: Id, weight: Weight, attempts: nat, random: nat -> nat)
    returns (w: State, pool: Pool, r: Answer)
    requires a != b && x != y && weight > 0 && joker != a && joker != b
    ensures w == Run(EMPTY, [CreateSlot(a), CreateSlot(b), FeedList(a, [Feed(x, 0, weight)]), FeedList(b, [Feed(y, 5, weight)])])
    ensures pool == Pool(joker, [[a], [b], [b]], 1, 1, [9, 9, 9, 9], [0, 0, 0, 0])
    ensures r.Satisfied? && |r.selection| == 3 && r.selection[1].Pick? && r.selection[2].Pick?
    ensures r.selection[1].selected.id == r.selection[2].selected.id == y
    ensures Close(At(r.selection[1]), At(r.selection[2]), pool.minDist)
  {
    hide Run, Chain, InOrder, Stocked, Stuck, Greedy, Answers, Serves, AllWalkable, After, WorldReload.Capped;
    var fs, gs := [Feed(x, 0, weight)], [Feed(y, 5, weight)];
    w := Run(EMPTY, [CreateSlot(a), CreateSlot(b), FeedList(a, fs), FeedList(b, gs)]);
    pool := Pool(joker, [[a], [b], [b]], 1, 1, [9, 9, 9, 9], [0, 0, 0, 0]);
    StockTwo(a, b, fs, gs);
    StockedSize(w, [fs, gs]);
    Reaches(w, [fs, gs], 0, 0, 1);
    StockedIsWalkable(w, [fs, gs]);
    ghost var run;
    r, run := Patch(w, pool, [], [], pool.strictMax, false, attempts, random);
    if r.NotSatisfiable? {
      PlainStuck(Rules([], pool.strictMax, 3), w, pool, 1, [fs, gs], [0, 1, 1], [], run);
      ZeroServes(Rules([], pool.strictMax, 3), w, pool, fs, gs, run);
    }
    ZeroPicks(Rules([], pool.strictMax, 3), w, pool, fs, gs, run, 1);
    ZeroPicks(Rules([], pool.strictMax, 3), w, pool, fs, gs, run, 2);
    Placement.AnswersAlike(run, 1, r.selection, []);
    assert Placement.Alike(run[1], r.selection[1]) && Placement.Alike(run[2], r.selection[2]);
  }

  // ---- A known location that is overwritten ----------------------------------------------------------------

  ghost predicate NearAndFar(fs: seq<Feed>) { |fs| == 2 && fs[0].location == 6 && fs[1].location == 0x1_0000_0000 }

  lemma NearAndFarAre()
    ensures Close(5, 6, 2) && !Close(5, 0x1_0000_0000, 2) && !Close(0x1_0000_0000, 6, 2)
    ensures Prefix(0x1_0000_0000, 1) != 0
  {
  }

  lemma CloseToItself(a: Loc, d: Dist)
    requires d > 0
    ensures Close(a, a, d)
  {
  }

  /** The first pick is the far item; the second one is the near item, as the known location is gone. */
  lemma OverPicks(rules: Rules, w: State, pool: Pool, fs: seq<Feed>, run: seq<Choice>, j: nat)
    requires Plain(w, pool, [fs], [0, 0], [5]) && NearAndFar(fs) && pool.minDist == 2 && j < |run|
    requires Chain(rules, w, pool, 2, [5], run) && InOrder(w, pool, [5], run)
    ensures j < 2 && run[j].Pick? && At(run[j]) == (if j == 0 then 0x1_0000_0000 else 6)
  {
    hide Chain, InOrder, Stocked, Link, After, TooClose, Nowhere, Close;
    NearAndFarAre();
    PlainChoice(rules, w, pool, 2, [fs], [0, 0], [5], run, 0);
    AfterOne([5], run);
    Placement.AfterNone([5]);
    var k := PickIs(rules, w, pool, 2, [fs], Start([5]), run[0], 0);
    OneSeen(Start([5]), 5, At(run[0]), 2);
    if j > 0 {
      PlainChoice(rules, w, pool, 2, [fs], [0, 0], [5], run, j);
      var p := Took(Start([5]), At(run[0]));
      assert j == 1 && Seen(p) == [0x1_0000_0000];
      var m := PickIs(rules, w, pool, 2, [fs], p, run[1], 0);
      OneSeen(p, 0x1_0000_0000, At(run[1]), 2);
      CloseToItself(0x1_0000_0000, 2);
    }
  }

  lemma OverServes(rules: Rules, w: State, pool: Pool, fs: seq<Feed>, run: seq<Choice>)
    requires Plain(w, pool, [fs], [0, 0], [5]) && NearAndFar(fs) && pool.minDist == 2 && |run| < 2
    requires rules == Rules([], [9, 9, 9, 9], 2)
    requires Chain(rules, w, pool, 2, [5], run) && InOrder(w, pool, [5], run)
    ensures Serves(rules, w, pool.targets[|run|], After([5], run), 2)
  {
    hide KeyOf, Chain, InOrder, Stocked, Serves, After, TooClose, Nowhere, Aims, Close;
    NearAndFarAre();
    assert Aims(w, pool, 0, [0, 0][0]) && Aims(w, pool, 1, [0, 0][1]);
    if run == [] {
      Placement.AfterNone([5]);
      OneSeen(Start([5]), 5, 0x1_0000_0000, 2);
      CanServe(rules, w, pool, [fs], Start([5]), 0, 0, 1, 2);
    } else {
      OverPicks(rules, w, pool, fs, run, 0);
      AfterOne([5], run);
      assert run[..1] == run;
      var p := Took(Start([5]), 0x1_0000_0000);
      OneSeen(p, 0x1_0000_0000, 6, 2);
      CanServe(rules, w, pool, [fs], p, 1, 0, 0, 2);
    }
  }

  /** Two targets, a known location of neither, and items far from it and near it: the first pick is written over
      the known location, so the second one is too close to it. */
  method KnownForgotten(name: Name, joker: Name, x: Id, y: Id, weight: Weight, attempts: nat, random: nat -> nat)
    returns (w: State, pool: Pool, a: Answer)
    requires x != y && weight > 0 && joker != name
    ensures w == Run(EMPTY, [CreateSlot(name), FeedList(name, [Feed(x, 6, weight), Feed(y, 0x1_0000_0000, weight)])])
    ensures pool == Pool(joker, [[name], [name]], 2, 2, [9, 9, 9, 9], [0, 0, 0, 0]) && Unclaimed(w, pool, [5]) == [5]
    ensures a.Satisfied? && |a.selection| == 2 && a.selection[1].Pick? && Close(5, At(a.selection[1]), pool.minDist)
  {
    hide Run, Chain, InOrder, Stocked, Stuck, Greedy, Answers, Serves, AllWalkable, After, WorldReload.Capped;
    hide Prefix, Unclaimed;
    var fs := [Feed(x, 6, weight), Feed(y, 0x1_0000_0000, weight)];
    w := Run(EMPTY, [CreateSlot(name), FeedList(name, fs)]);
    pool := Pool(joker, [[name], [name]], 2, 2, [9, 9, 9, 9], [0, 0, 0, 0]);
    StockOne(name, fs);
    StockedSize(w, [fs]);
    NearAndFarAre();
    Reaches(w, [fs], 0, 1, 2);
    StockedIsWalkable(w, [fs]);
    OneListed(5);
    PlainUnclaimed(w, pool, [fs], [0, 0], [5]);
    ghost var run;
    a, run := Patch(w, pool, [], [5], pool.strictMax, false, attempts, random);
    if a.NotSatisfiable? {
      PlainStuck(Rules([], pool.strictMax, 2), w, pool, 2, [fs], [0, 0], [5], run);
      OverServes(Rules([], pool.strictMax, 2), w, pool, fs, run);
    }
    OverPicks(Rules([], pool.strictMax, 2), w, pool, fs, run, 1);
    Placement.AnswersAlike(run, 2, a.selection, [5]);
    assert Placement.Alike(run[1], a.selection[1]);
  }

  lemma OneListed(loc: Loc)
    requires loc != 0
    ensures Listed([loc]) == [loc]
  {
    ListedIs([loc], 1);
  }

  /** No target takes the known locations of a plain request. */
  lemma PlainUnclaimed(w: State, pool: Pool, shelves: seq<seq<Feed>>, slotOf: seq<nat>, known: seq<Loc>)
    requires Plain(w, pool, shelves, slotOf, known) && pool.targets != []
    ensures Unclaimed(w, pool, known) == known
  {
    hide Match, Stocked, Nowhere, StrictPass;
    PlainPass(w, pool, shelves, slotOf, known);
    Placement.AfterNone(known);
    NoMatch(w, pool, shelves, 0, slotOf[0], known, false);
    assert Upto(|pool.targets|)[0] == 0;
  }

  // ---- The placeholder of the distances ----------------------------------------------------------------------

  const HIGH: Loc := 0xFFFF_0000_0000_0001

  lemma HighIs()
    ensures Close(ALL_ONES, HIGH, 4) && !Close(ALL_ONES, HIGH, 3) && Prefix(HIGH, 3) != 0
  {
  }

  lemma HighServes(rules: Rules, w: State, pool: Pool, fs: seq<Feed>)
    requires Plain(w, pool, [fs], [0], []) && |fs| == 1 && fs[0].location == HIGH && pool.minDist == 4
    requires rules == Rules([], [9, 9, 9, 9], 1)
    ensures Serves(rules, w, pool.targets[0], After([], []), 4)
  {
    hide KeyOf, Stocked, Serves, After, TooClose, Nowhere, Aims;
    assert Aims(w, pool, 0, [0][0]);
    Placement.AfterNone([]);
    NothingSeen(HIGH, 4);
    CanServe(rules, w, pool, [fs], Start([]), 0, 0, 0, 4);
  }

  /** The distance of the only pick is the greatest one at which it is far from the placeholder. */
  lemma HighReported(rules: Rules, w: State, pool: Pool, fs: seq<Feed>, run: seq<Choice>, sel: seq<Choice>)
    requires Plain(w, pool, [fs], [0], []) && |fs| == 1 && fs[0].location == HIGH && |run| == 1
    requires Chain(rules, w, pool, 4, [], run) && InOrder(w, pool, [], run) && Answers(run, 4, sel)
    ensures |sel| == 1 && sel[0].Pick? && sel[0].selected.finalDist == 3 && At(sel[0]) == HIGH
  {
    hide Chain, InOrder, Stocked, Link, After, TooClose, Nowhere, Close;
    PlainChoice(rules, w, pool, 4, [fs], [0], [], run, 0);
    var k := PickIs(rules, w, pool, 4, [fs], After([], run[..0]), run[0], 0);
    assert Redone(run, 0, 4, sel[0]);
    assert Locations(run)[0 := ALL_ONES] == [ALL_ONES];
    HighIs();
    var p := Took(Start([]), ALL_ONES);
    assert Seen(p) == [ALL_ONES];
    forall d: Dist ensures TooClose(Listed([ALL_ONES]), HIGH, d) <==> Close(ALL_ONES, HIGH, d) {
      OneSeen(p, ALL_ONES, HIGH, d);
    }
    assert !TooClose(Listed([ALL_ONES]), HIGH, 3) && TooClose(Listed([ALL_ONES]), HIGH, 4);
  }

  /** One target and one item, that starts like the placeholder: it is reported below the least distance. */
  method PlaceholderTooNear(name: Name, joker: Name, x: Id, weight: Weight, attempts: nat, random: nat -> nat)
    returns (w: State, pool: Pool, a: Answer)
    requires weight > 0 && joker != name
    ensures w == Run(EMPTY, [CreateSlot(name), FeedList(name, [Feed(x, HIGH, weight)])])
    ensures pool == Pool(joker, [[name]], 4, 4, [9, 9, 9, 9], [0, 0, 0, 0])
    ensures a.Satisfied? && |a.selection| == 1 && a.selection[0].Pick? && a.selection[0].selected.finalDist == 3 < pool.minDist
  {
    hide Run, Chain, InOrder, Stocked, Stuck, Greedy, Answers, Serves, AllWalkable, After, WorldReload.Capped;
    hide Prefix;
    var fs := [Feed(x, HIGH, weight)];
    w := Run(EMPTY, [CreateSlot(name), FeedList(name, fs)]);
    pool := Pool(joker, [[name]], 4, 4, [9, 9, 9, 9], [0, 0, 0, 0]);
    StockOne(name, fs);
    StockedSize(w, [fs]);
    HighIs();
    Reaches(w, [fs], 0, 0, 4);
    StockedIsWalkable(w, [fs]);
    ghost var run;
    a, run := Patch(w, pool, [], [], pool.strictMax, false, attempts, random);
    if a.NotSatisfiable? {
      PlainStuck(Rules([], pool.strictMax, 1), w, pool, 4, [fs], [0], [], run);
      HighServes(Rules([], pool.strictMax, 1), w, pool, fs);
    }
    HighReported(Rules([], pool.strictMax, 1), w, pool, fs, run, a.selection);
  }
}
