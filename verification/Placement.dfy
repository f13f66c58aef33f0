/**
 What a poll promises (core/lb.c): each target is served, once, by a known location or by a
 pick; the picks are far from the rest, out of the avoid list and within the maxima.
 */
module Placement {
  import opened Basics
  import opened Location
  import opened Counters
  import opened Slots
  import opened WorldSpec
  import opened Matching
  import opened Poll
  import opened Patching
  import WorldIndex
  import WorldReload
  import Draw
  import Walk

  /** How many locations have a prefix. */
  ghost function Sharers(locs: seq<Loc>, level: Level, prefix: nat): nat {
    if locs == [] then 0
    else Sharers(locs[..|locs| - 1], level, prefix) + (if Prefix(locs[|locs| - 1], level) == prefix then 1 else 0)
  }

  ghost predicate Comes(w: State, target: seq<Name>, sel: Selected) {
    && sel.slot in target && Lookup(w.slots, sel.slot) >= 0 && sel.location == LocOf(w.items, sel.id)
    && exists e :: e in w.slots[Lookup(w.slots, sel.slot)].items && e.id == sel.id
  }

  /** A list of locations is read up to the first 0: this one is read. */
  ghost predicate Read(locs: seq<Loc>, i: nat)
    requires i < |locs|
  {
    forall k :: 0 <= k <= i ==> locs[k] != 0
  }

  /** A pick and another choice are far from each other, if the first of them is read; two picks are not
      the same item. */
  ghost predicate Apart(run: seq<Choice>, d: Dist) {
    forall i, j :: 0 <= i < j < |run| && (run[i].Pick? || run[j].Pick?) && Read(Locations(run), i) ==>
      && !Close(At(run[i]), At(run[j]), d)
      && (run[i].Pick? && run[j].Pick? ==> run[i].selected.id != run[j].selected.id)
  }

  /** A pick is far from the known locations still pending, if no location in place is 0. */
  ghost predicate FarFromPending(known: seq<Loc>, run: seq<Choice>, d: Dist) {
    forall j, x :: 0 <= j < |run| && run[j].Pick? && x in After(known, run[..j]).pending && 0 !in Locations(run)[..j] ==>
      !Close(x, At(run[j]), d)
  }

  /** Each pick is far from each known location. */
  ghost predicate FarFromKnown(known: seq<Loc>, run: seq<Choice>, d: Dist) {
    forall j, x :: 0 <= j < |run| && run[j].Pick? && x in known ==> !Close(x, At(run[j]), d)
  }

  /** No prefix of a pick has more picks and known locations than the maximum set for its level, unless its
      key is the one that is never counted. */
  ghost predicate WithinMaxima(known: seq<Loc>, run: seq<Choice>, maxima: Maxima) {
    forall level: Level, j :: maxima[level] > 0 && 0 <= j < |run| && run[j].Pick? && KeyOf(At(run[j]), level) != 0 ==>
      Sharers(After(known, run).counted, level, Prefix(At(run[j]), level)) <= maxima[level]
  }

  /** A choice is close to another one, or to the placeholder that takes its place when distances are
      recomputed, as far as the list is read. */
  ghost predicate Near(locs: seq<Loc>, j: nat, d: Dist)
    requires j < |locs|
  {
    var marked := locs[j := ALL_ONES];
    exists i :: 0 <= i < |locs| && Read(marked, i) && Close(marked[i], locs[j], d)
  }

  /** The distance of a pick is the greatest one at which it is not near, and is not below the least one,
      except at 0 or next to the placeholder. */
  ghost predicate FinalDists(sel: seq<Choice>, minDist: Dist, maxDist: Dist) {
    var locs := Locations(sel);
    forall j :: 0 <= j < |sel| && sel[j].Pick? ==>
      var dist := sel[j].selected.finalDist;
      && dist <= maxDist && !Near(locs, j, dist) && (forall d: Dist :: dist < d <= maxDist ==> Near(locs, j, d))
      && (locs[j] != 0 && !Close(ALL_ONES, locs[j], minDist) ==> minDist <= dist)
  }

  /** A known location stands for a target as its slots allow; a pick is an item of a slot of its target. */
  ghost predicate Suits(w: State, pool: Pool, avoids: seq<Loc>, known: seq<Loc>, c: Choice) {
    && c.target < |pool.targets|
    && match c
       case Known(t, strict, _, loc) =>
         && loc in known
         && (AllSorted(w) && (pool.targets[t] == [] || pool.targets[t][0] != pool.joker) ==>
           TargetHolds(w, pool.targets[t], loc, strict))
       case Pick(t, sel) => Comes(w, pool.targets[t], sel) && sel.location !in Listed(avoids)
  }

  ghost predicate Safe(w: State, pool: Pool, avoids: seq<Loc>, known: seq<Loc>, maxima: Maxima, sel: seq<Choice>) {
    var maxDist := MinDist(w.absMaxDist, pool.initialDist);
    && multiset(TargetsOf(sel)) == multiset(Upto(|pool.targets|)) && pool.minDist <= maxDist
    && (forall j :: 0 <= j < |sel| ==> Suits(w, pool, avoids, known, sel[j]))
    && Apart(sel, pool.minDist) && FarFromPending(known, sel, pool.minDist)
    && (Unclaimed(w, pool, known) == [] ==> FarFromKnown(known, sel, pool.minDist))
    && WithinMaxima(known, sel, maxima) && FinalDists(sel, pool.minDist, maxDist)
  }

  // ---- Distances ----------------------------------------------------------------------------------------

  lemma CloseBothWays(a: Loc, b: Loc, d: Dist)
    ensures Close(a, b, d) == Close(b, a, d)
  {
  }

  /** The distance test reads the list up to the first 0. */
  lemma {:induction false} ListedIsRead(locs: seq<Loc>, n: nat)
    requires n <= |locs| && (forall k :: 0 <= k < n ==> locs[k] != 0) && (n < |locs| ==> locs[n] == 0)
    ensures Listed(locs) == locs[..n] && forall i :: 0 <= i < |locs| ==> (Read(locs, i) <==> i < n)
  {
    ListedIs(locs, n);
  }

  /** The place of the first 0. */
  function FirstZero(locs: seq<Loc>): (n: nat)
    ensures n <= |locs| && (forall k :: 0 <= k < n ==> locs[k] != 0) && (n < |locs| ==> locs[n] == 0)
  {
    if locs == [] || locs[0] == 0 then 0 else 1 + FirstZero(locs[1..])
  }

  lemma TooCloseIsRead(locs: seq<Loc>, item: Loc, d: Dist)
    ensures TooClose(Listed(locs), item, d) <==> exists i :: 0 <= i < |locs| && Read(locs, i) && Close(locs[i], item, d)
  {
    hide Close;
    var n := FirstZero(locs);
    ListedIsRead(locs, n);
    var listed := locs[..n];
    if i :| 0 <= i < |locs| && Read(locs, i) && Close(locs[i], item, d) {
      assert Close(listed[i], item, d);
    }
    if TooClose(listed, item, d) {
      var i :| 0 <= i < |listed| && Close(listed[i], item, d);
      assert Read(locs, i) && Close(locs[i], item, d);
    }
  }

  /** The distance test sees all the picks, whatever the candidate, exactly when none of them is at 0. */
  lemma TestSeesAll(picks: seq<Loc>)
    ensures (forall item: Loc, d: Dist :: TooClose(Listed(picks), item, d) <==> TooClose(picks, item, d)) <==> 0 !in picks
  {
    var n := FirstZero(picks);
    ListedIsRead(picks, n);
    if 0 in picks {
      assert Close(picks[n], 0, 1);
      assert TooClose(picks, 0, 1);
      assert !TooClose(Listed(picks), 0, 1);
    } else {
      assert picks[..n] == picks;
    }
  }

  /** What is pending later was pending before, and was known at first. */
  lemma {:induction false} PendingShrinks(known: seq<Loc>, run: seq<Choice>, i: nat, x: Loc)
    requires i <= |run| && x in After(known, run).pending
    ensures x in After(known, run[..i]).pending && x in known
  {
    hide After, Next;
    if run == [] {
      AfterNone(known);
      assert run[..i] == [];
    } else {
      var n := |run| - 1;
      assert run == run[..n] + [run[n]];
      AfterGrows(known, run[..n], run[n]);
      NextShrinks(After(known, run[..n]), run[n], x);
      if i == |run| {
        assert run[..i] == run;
        PendingShrinks(known, run[..n], n, x);
      } else {
        assert run[..n][..i] == run[..i];
        PendingShrinks(known, run[..n], i, x);
      }
    }
  }

  lemma AfterNone(known: seq<Loc>)
    ensures After(known, []) == Start(known)
  {
  }

  lemma NextShrinks(p: Progress, c: Choice, x: Loc)
    requires x in Next(p, c).pending
    ensures x in p.pending
  {
  }

  /** A pick is far from what it was compared with and read. */
  lemma PickedFar(rules: Rules, w: State, target: seq<Name>, p: Progress, sel: Selected, d: Dist, i: nat)
    requires rules.nTargets > 0 && Picked(rules, w, target, p, sel, sel.finalDist) && d <= sel.finalDist
    requires i < |Seen(p)| && Read(Seen(p), i)
    ensures !Close(Seen(p)[i], sel.location, d)
  {
    hide TooPopular, Listed, Lookup, TooClose, Close, Seen;
    TooCloseIsRead(Seen(p), sel.location, sel.finalDist);
    if Close(Seen(p)[i], sel.location, d) { CloseMonotone(Seen(p)[i], sel.location, d, sel.finalDist); }
  }

  ghost predicate NonZero(locs: seq<Loc>) { forall i :: 0 <= i < |locs| ==> locs[i] != 0 }

  /** A pick reads what is in place before it. */
  lemma FarFromDone(rules: Rules, w: State, pool: Pool, maxDist: Dist, known: seq<Loc>, run: seq<Choice>, i: nat, j: nat)
    requires Chain(rules, w, pool, maxDist, known, run) && i < j < |run| && run[j].Pick? && Read(Locations(run), i)
    requires pool.minDist <= maxDist
    ensures !Close(At(run[i]), At(run[j]), pool.minDist)
  {
    hide Picked, Match, After, Close;
    var p := After(known, run[..j]);
    ChainPrefix(rules, w, pool, maxDist, known, run, j);
    DoneIs(rules, w, pool, maxDist, known, run[..j]);
    assert Link(rules, w, pool, maxDist, p, run[j]);
    assert Seen(p)[i] == At(run[i]);
    assert Read(Seen(p), i) by {
      forall k | 0 <= k <= i ensures Seen(p)[k] != 0 { assert Seen(p)[k] == Locations(run)[k]; }
    }
    PickedFar(rules, w, pool.targets[run[j].target], p, run[j].selected, pool.minDist, i);
  }

  lemma ChainPrefix(rules: Rules, w: State, pool: Pool, maxDist: Dist, known: seq<Loc>, run: seq<Choice>, j: nat)
    requires Chain(rules, w, pool, maxDist, known, run) && j <= |run|
    ensures Chain(rules, w, pool, maxDist, known, run[..j]) && Locations(run[..j]) == Locations(run)[..j]
  {
    hide Link, After;
    assert forall i :: 0 <= i <= j ==> run[..j][..i] == run[..i];
  }

  /** A pick reads what is pending, if no location in place is 0. */
  lemma FarFromLeft(rules: Rules, w: State, pool: Pool, maxDist: Dist, known: seq<Loc>, run: seq<Choice>, j: nat, x: Loc)
    requires Chain(rules, w, pool, maxDist, known, run) && j < |run| && run[j].Pick? && pool.minDist <= maxDist
    requires NonZero(known) && x in After(known, run[..j]).pending && 0 !in Locations(run)[..j]
    ensures !Close(x, At(run[j]), pool.minDist)
  {
    hide Picked, Match, After, Close;
    var p := After(known, run[..j]);
    ChainPrefix(rules, w, pool, maxDist, known, run, j);
    DoneIs(rules, w, pool, maxDist, known, run[..j]);
    assert Link(rules, w, pool, maxDist, p, run[j]);
    var r :| 0 <= r < |p.pending| && p.pending[r] == x;
    forall k | 0 <= k < |Seen(p)| ensures Seen(p)[k] != 0 {
      if k < j {
        assert Seen(p)[k] in Locations(run)[..j];
      } else {
        PendingShrinks(known, run[..j], j, p.pending[k - j]);
      }
    }
    PickedFar(rules, w, pool.targets[run[j].target], p, run[j].selected, pool.minDist, j + r);
  }

  /** A pick is far from a known location that is matched later. */
  lemma FarFromLater(rules: Rules, w: State, pool: Pool, maxDist: Dist, known: seq<Loc>, run: seq<Choice>, i: nat, j: nat)
    requires Chain(rules, w, pool, maxDist, known, run) && pool.minDist <= maxDist && NonZero(known)
    requires i < j < |run| && run[i].Pick? && run[j].Known? && Read(Locations(run), i)
    ensures !Close(At(run[i]), At(run[j]), pool.minDist)
  {
    hide Picked, Match, After, Close;
    assert Link(rules, w, pool, maxDist, After(known, run[..j]), run[j]);
    PendingShrinks(known, run[..j], i, At(run[j]));
    assert run[..j][..i] == run[..i];
    FarFromLeft(rules, w, pool, maxDist, known, run, i, At(run[j]));
    CloseBothWays(At(run[i]), At(run[j]), pool.minDist);
  }

  /** Two choices of which one is a pick. */
  lemma FarFromEachOther(rules: Rules, w: State, pool: Pool, maxDist: Dist, known: seq<Loc>, run: seq<Choice>,
                         i: nat, j: nat)
    requires Chain(rules, w, pool, maxDist, known, run) && pool.minDist <= maxDist && NonZero(known)
    requires i < j < |run| && (run[i].Pick? || run[j].Pick?) && Read(Locations(run), i)
    ensures !Close(At(run[i]), At(run[j]), pool.minDist)
  {
    hide Chain, Close, Read;
    if run[j].Pick? {
      FarFromDone(rules, w, pool, maxDist, known, run, i, j);
    } else {
      FarFromLater(rules, w, pool, maxDist, known, run, i, j);
    }
  }

  /** The recomputed distance. */
  lemma FarthestIs(locs: seq<Loc>, j: nat, maxDist: Dist, dist: Dist)
    requires j < |locs| && Farthest(locs[j := ALL_ONES], locs[j], maxDist, dist)
    ensures dist <= maxDist && !Near(locs, j, dist) && forall d: Dist :: dist < d <= maxDist ==> Near(locs, j, d)
  {
    hide Listed, Close, Read, TooClose;
    forall d: Dist ensures TooClose(Listed(locs[j := ALL_ONES]), locs[j], d) <==> Near(locs, j, d) {
      TooCloseIsRead(locs[j := ALL_ONES], locs[j], d);
    }
  }

  /** A pick that is not at 0 nor next to the placeholder is not near at the least distance. */
  lemma PickIsFar(rules: Rules, w: State, pool: Pool, maxDist: Dist, known: seq<Loc>, run: seq<Choice>, j: nat)
    requires Chain(rules, w, pool, maxDist, known, run) && pool.minDist <= maxDist && NonZero(known)
    requires j < |run| && run[j].Pick? && At(run[j]) != 0 && !Close(ALL_ONES, At(run[j]), pool.minDist)
    ensures !Near(Locations(run), j, pool.minDist)
  {
    hide Chain, Close;
    var locs := Locations(run);
    var marked := locs[j := ALL_ONES];
    if Near(locs, j, pool.minDist) {
      var i :| 0 <= i < |locs| && Read(marked, i) && Close(marked[i], locs[j], pool.minDist);
      assert i != j && marked[i] == locs[i];
      assert Read(locs, i) by {
        forall k | 0 <= k <= i ensures locs[k] != 0 { assert k != j ==> marked[k] == locs[k]; }
      }
      if i < j {
        FarFromEachOther(rules, w, pool, maxDist, known, run, i, j);
      } else {
        assert Read(locs, j);
        FarFromEachOther(rules, w, pool, maxDist, known, run, j, i);
        CloseBothWays(locs[i], locs[j], pool.minDist);
      }
    }
  }

  // ---- Maxima ---------------------------------------------------------------------------------------------

  lemma {:induction false} SharersAtMost(locs: seq<Loc>, level: Level, loc: Loc)
    ensures Sharers(locs, level, Prefix(loc, level)) <= NumAt(locs, level, KeyOf(loc, level))
  {
    hide KeyOf, Prefix;
    if locs != [] {
      SharersAtMost(locs[..|locs| - 1], level, loc);
      var last := locs[|locs| - 1];
      if Prefix(last, level) == Prefix(loc, level) { SamePrefixSameKey(last, loc, level); }
    }
  }

  lemma NumAtAppend(locs: seq<Loc>, loc: Loc, level: Level, key: nat)
    ensures NumAt(locs + [loc], level, key) == NumAt(locs, level, key) + (if KeyOf(loc, level) == key then 1 else 0)
  {
    hide KeyOf;
    assert (locs + [loc])[..|locs|] == locs;
  }

  /** The guard of a cap: a location is too popular exactly when its key is counted and reached the cap. */
  lemma PopularIff(maxima: Maxima, n: nat, slot: Slot, counted: seq<Loc>, loc: Loc, level: Level)
    requires slot.items != [] && n > 0
    ensures
      var key := KeyOf(loc, level);
      PopularAt(maxima, n, slot, Tally(counted), loc, level) <==>
        key != 0 && NumAt(counted, level, key) >= Cap(maxima[level], n, Leafs(slot, level, key), |slot.items|)
  {
    hide KeyOf, Tally, Leafs;
    TallyIsExact(counted, level, KeyOf(loc, level));
  }

  /** The key of a location is not counted, or fewer locations are under it than its cap. */
  ghost predicate BelowCap(rules: Rules, slot: Slot, counted: seq<Loc>, loc: Loc, level: Level)
    requires slot.items != [] && rules.nTargets > 0
  {
    var key := KeyOf(loc, level);
    || key == 0
    || NumAt(counted, level, key) < Cap(rules.maxima[level], rules.nTargets, Leafs(slot, level, key), |slot.items|)
  }

  /** An item is acceptable exactly when its location is not in the avoid list, is far from the locations in place and
      pending, as far as they are read, and has no key that is counted and reached its cap. */
  lemma AcceptableIff(rules: Rules, slot: Slot, p: Progress, loc: Loc, d: Dist)
    requires slot.items != [] && rules.nTargets > 0
    ensures Acceptable(rules, slot, p, loc, d) <==>
      && loc !in Listed(rules.avoids)
      && (forall i :: 0 <= i < |Seen(p)| && Read(Seen(p), i) ==> !Close(Seen(p)[i], loc, d))
      && forall level: Level :: BelowCap(rules, slot, p.counted, loc, level)
  {
    hide Listed, Close, Read, PopularAt, TooClose, Seen, KeyOf, NumAt, Cap, Leafs;
    TooCloseIsRead(Seen(p), loc, d);
    SamePlace(Listed(rules.avoids), loc);
    forall level: Level
      ensures PopularAt(rules.maxima, rules.nTargets, slot, Tally(p.counted), loc, level)
        <==> !BelowCap(rules, slot, p.counted, loc, level)
    {
      PopularIff(rules.maxima, rules.nTargets, slot, p.counted, loc, level);
    }
  }

  /** At distance 1, only the same location is too close. */
  lemma SamePlace(locs: seq<Loc>, loc: Loc)
    ensures TooClose(locs, loc, 1) <==> loc in locs
  {
    forall a: Loc ensures Close(a, loc, 1) <==> a == loc {
      assert Prefix(a, 0) == a && Prefix(loc, 0) == loc;
    }
    if loc in locs {
      var i :| 0 <= i < |locs| && locs[i] == loc;
      assert Close(locs[i], loc, 1);
    }
  }

  /** A pick was below the maximum of its key. */
  lemma PickedBelow(rules: Rules, w: State, target: seq<Name>, p: Progress, sel: Selected, level: Level)
    requires rules.nTargets > 0 && Picked(rules, w, target, p, sel, sel.finalDist) && rules.maxima[level] > 0
    requires KeyOf(sel.location, level) != 0
    ensures NumAt(p.counted, level, KeyOf(sel.location, level)) < rules.maxima[level]
  {
    hide KeyOf, Tally, TooClose, Listed, Lookup, Leafs;
    var slot := w.slots[Lookup(w.slots, sel.slot)];
    assert !PopularAt(rules.maxima, rules.nTargets, slot, Tally(p.counted), sel.location, level);
    PopularIff(rules.maxima, rules.nTargets, slot, p.counted, sel.location, level);
  }

  lemma {:induction false} CapsKept(rules: Rules, w: State, pool: Pool, maxDist: Dist, known: seq<Loc>, run: seq<Choice>,
                                    level: Level, j: nat)
    requires Chain(rules, w, pool, maxDist, known, run) && rules.maxima[level] > 0
    requires j < |run| && run[j].Pick? && KeyOf(At(run[j]), level) != 0
    ensures NumAt(After(known, run).counted, level, KeyOf(At(run[j]), level)) <= rules.maxima[level]
  {
    hide Picked, Match, KeyOf, After;
    var n := |run| - 1;
    var c, p := run[n], After(known, run[..n]);
    assert run == run[..n] + [c];
    AfterGrows(known, run[..n], c);
    ChainPrefix(rules, w, pool, maxDist, known, run, n);
    assert Link(rules, w, pool, maxDist, p, c);
    if c.Pick? { NumAtAppend(p.counted, At(c), level, KeyOf(At(run[j]), level)); }
    if c.Pick? && KeyOf(At(c), level) == KeyOf(At(run[j]), level) {
      PickedBelow(rules, w, pool.targets[c.target], p, c.selected, level);
    } else {
      CapsKept(rules, w, pool, maxDist, known, run[..n], level, j);
    }
  }

  lemma ChainWithinMaxima(rules: Rules, w: State, pool: Pool, maxDist: Dist, known: seq<Loc>, run: seq<Choice>)
    requires Chain(rules, w, pool, maxDist, known, run)
    ensures WithinMaxima(known, run, rules.maxima)
  {
    hide KeyOf, Prefix, Chain, After;
    var counted := After(known, run).counted;
    forall level: Level, j | rules.maxima[level] > 0 && 0 <= j < |run| && run[j].Pick? && KeyOf(At(run[j]), level) != 0
      ensures Sharers(counted, level, Prefix(At(run[j]), level)) <= rules.maxima[level]
    {
      CapsKept(rules, w, pool, maxDist, known, run, level, j);
      SharersAtMost(counted, level, At(run[j]));
    }
  }

  // ---- Nothing is forgotten, but what is overwritten ------------------------------------------------------

  /** The locations counted by a poll are those in place, those pending and the known ones overwritten by
      picks; they are the known ones, once each, and the picks. */
  lemma {:induction false} ChainConserves(rules: Rules, w: State, pool: Pool, maxDist: Dist, known: seq<Loc>,
                                          run: seq<Choice>)
    requires Chain(rules, w, pool, maxDist, known, run)
    ensures Conserved(After(known, run))
    ensures (forall j :: 0 <= j < |run| ==> run[j].Known?) ==> After(known, run).counted == known
  {
    hide Link, Conserved, After;
    if run == [] {
      AfterNone(known);
      StartConserves(known);
    } else {
      var n := |run| - 1;
      var p := After(known, run[..n]);
      assert run == run[..n] + [run[n]];
      AfterGrows(known, run[..n], run[n]);
      ChainPrefix(rules, w, pool, maxDist, known, run, n);
      ChainConserves(rules, w, pool, maxDist, known, run[..n]);
      if run[n].Pick? {
        TookKeeps(p, At(run[n]));
      } else if run[n].rank < |p.pending| {
        MatchedKeeps(p, run[n].rank);
      }
    }
  }

  lemma StartConserves(known: seq<Loc>)
    ensures Conserved(Start(known))
  {
  }

  /** There are fewer known locations than targets, so something is picked. */
  lemma SomethingPicked(rules: Rules, w: State, pool: Pool, maxDist: Dist, known: seq<Loc>, run: seq<Choice>)
    requires Chain(rules, w, pool, maxDist, known, run) && |run| == |pool.targets| > |known|
    ensures exists j :: 0 <= j < |run| && run[j].Pick?
  {
    hide Chain, After;
    var p := After(known, run);
    ChainConserves(rules, w, pool, maxDist, known, run);
    DoneIs(rules, w, pool, maxDist, known, run);
    ConservedSize(p);
  }

  lemma ConservedSize(p: Progress)
    requires Conserved(p)
    ensures |p.done| + |p.pending| + |p.lost| == |p.counted|
  {
    assert |multiset(p.done) + multiset(p.pending) + multiset(p.lost)| == |multiset(p.counted)|;
  }

  // ---- Known locations that no target takes ---------------------------------------------------------------

  lemma {:induction false} StrictMatches(w: State, pool: Pool, known: seq<Loc>, t: nat)
    requires t <= |pool.targets|
    ensures forall j :: 0 <= j < |StrictPass(w, pool, known, t).run| ==> StrictPass(w, pool, known, t).run[j].Known?
  {
    hide Match, After;
    if t > 0 { StrictMatches(w, pool, known, t - 1); }
  }

  /** A choice of the second pass before the first pick is the one that the request determines. */
  lemma LooseStep(rules: Rules, w: State, pool: Pool, maxDist: Dist, known: seq<Loc>, run: seq<Choice>, j: nat)
    requires Chain(rules, w, pool, maxDist, known, run) && InOrder(w, pool, known, run) && j < |run| && run[j].Known?
    requires |StrictPass(w, pool, known, |pool.targets|).run| <= j
    ensures
      var q := StrictPass(w, pool, known, |pool.targets|);
      LooseMatches(w, pool, known, run[..j], q.left[j - |q.run|..])
        == LooseMatches(w, pool, known, run[..j + 1], q.left[j + 1 - |q.run|..])
  {
    hide Match, After, StrictPass;
    assert Link(rules, w, pool, maxDist, After(known, run[..j]), run[j]);
    assert run[..j + 1] == run[..j] + [run[j]];
    var q := StrictPass(w, pool, known, |pool.targets|);
    assert q.left[j - |q.run|..][1..] == q.left[j + 1 - |q.run|..];
  }

  lemma {:induction false} LooseFrom(rules: Rules, w: State, pool: Pool, maxDist: Dist, known: seq<Loc>, run: seq<Choice>,
                                     j: nat, k: nat)
    requires Chain(rules, w, pool, maxDist, known, run) && InOrder(w, pool, known, run) && j <= k < |run|
    requires run[k].Pick? && forall i :: 0 <= i < k ==> run[i].Known?
    requires |StrictPass(w, pool, known, |pool.targets|).run| <= j
    ensures
      var q := StrictPass(w, pool, known, |pool.targets|);
      LooseMatches(w, pool, known, run[..j], q.left[j - |q.run|..]) == run[..k]
    decreases k - j
  {
    hide Match, After, StrictPass, Link;
    if j < k {
      LooseStep(rules, w, pool, maxDist, known, run, j);
      LooseFrom(rules, w, pool, maxDist, known, run, j + 1, k);
    }
  }

  /** What comes before the first pick of a poll is determined by its request. */
  lemma PreludeIs(rules: Rules, w: State, pool: Pool, maxDist: Dist, known: seq<Loc>, run: seq<Choice>, k: nat)
    requires Chain(rules, w, pool, maxDist, known, run) && InOrder(w, pool, known, run) && k < |run|
    requires run[k].Pick? && forall i :: 0 <= i < k ==> run[i].Known?
    ensures run[..k] == Prelude(w, pool, known)
  {
    hide Match, After, StrictPass, Chain, LooseMatches;
    var q := StrictPass(w, pool, known, |pool.targets|);
    var m := |q.run|;
    StrictMatches(w, pool, known, |pool.targets|);
    forall j | 0 <= j < m ensures run[j].Known? { assert run[..m][j] == q.run[j]; }
    LooseFrom(rules, w, pool, maxDist, known, run, m, k);
    assert q.left[0..] == q.left;
  }

  /** Matches overwrite nothing. */
  lemma {:induction false} MatchesLoseNothing(known: seq<Loc>, run: seq<Choice>)
    requires forall j :: 0 <= j < |run| ==> run[j].Known?
    ensures After(known, run).lost == []
  {
    if run != [] { MatchesLoseNothing(known, run[..|run| - 1]); }
  }

  lemma NextLoses(p: Progress, c: Choice)
    ensures p.pending == [] ==> Next(p, c).pending == [] && Next(p, c).lost == p.lost
    ensures p.lost != [] ==> Next(p, c).lost != []
    ensures c.Pick? && p.pending != [] ==> Next(p, c).lost != []
  {
  }

  /** From the first pick on, something is lost exactly when something was pending then. */
  lemma {:induction false} LosesIff(known: seq<Loc>, run: seq<Choice>, k: nat)
    requires k < |run| && run[k].Pick? && forall i :: 0 <= i < k ==> run[i].Known?
    ensures After(known, run).lost == [] <==> After(known, run[..k]).pending == []
    ensures After(known, run[..k]).pending == [] ==> After(known, run).pending == []
    decreases |run|
  {
    hide After, Next;
    var n := |run| - 1;
    assert run == run[..n] + [run[n]];
    AfterGrows(known, run[..n], run[n]);
    NextLoses(After(known, run[..n]), run[n]);
    if k == n {
      MatchesLoseNothing(known, run[..n]);
    } else {
      LosesIff(known, run[..n], k);
      assert run[..n][..k] == run[..k];
    }
  }

  lemma FirstPick(run: seq<Choice>, j: nat) returns (k: nat)
    requires j < |run| && run[j].Pick?
    ensures k <= j && run[k].Pick? && forall i :: 0 <= i < k ==> run[i].Known?
  {
    k := 0;
    while run[k].Known?
      invariant k <= j && forall i :: 0 <= i < k ==> run[i].Known?
      decreases j - k
    {
      k := k + 1;
    }
  }

  /** Once a pick is made, a known location is lost exactly when the request left some unclaimed. */
  lemma LostIffUnclaimed(rules: Rules, w: State, pool: Pool, maxDist: Dist, known: seq<Loc>, run: seq<Choice>, j: nat, n: nat)
    requires Chain(rules, w, pool, maxDist, known, run) && InOrder(w, pool, known, run)
    requires j < n <= |run| && run[j].Pick?
    ensures After(known, run[..n]).lost == [] <==> Unclaimed(w, pool, known) == []
    ensures Unclaimed(w, pool, known) == [] ==> After(known, run[..n]).pending == []
  {
    hide Chain, InOrder, After, Prelude;
    var k := FirstPick(run, j);
    PreludeIs(rules, w, pool, maxDist, known, run, k);
    LosesIff(known, run[..n], k);
    assert run[..n][..k] == run[..k];
  }

  /** A pick that is not the first is compared with all the known locations and all the choices before it
      exactly when the request leaves no known location unclaimed; the first one always is. */
  lemma PickSeesAll(rules: Rules, w: State, pool: Pool, maxDist: Dist, known: seq<Loc>, run: seq<Choice>, i: nat, j: nat)
    requires Chain(rules, w, pool, maxDist, known, run) && InOrder(w, pool, known, run)
    requires i <= j < |run| && run[i].Pick? && run[j].Pick? && forall k :: 0 <= k < i ==> run[k].Known?
    ensures
      var p := After(known, run[..j]);
      multiset(Seen(p)) == multiset(p.counted) <==> i == j || Unclaimed(w, pool, known) == []
  {
    hide Chain, InOrder, After, Unclaimed, Seen, Conserved;
    ChainPrefix(rules, w, pool, maxDist, known, run, j);
    ChainConserves(rules, w, pool, maxDist, known, run[..j]);
    SeesAll(After(known, run[..j]));
    if i == j {
      MatchesLoseNothing(known, run[..j]);
    } else {
      LostIffUnclaimed(rules, w, pool, maxDist, known, run, i, j);
    }
  }

  /** With none unclaimed, the known locations are in place before the first pick. */
  lemma KnownInPlace(rules: Rules, w: State, pool: Pool, maxDist: Dist, known: seq<Loc>, run: seq<Choice>, k: nat, x: Loc)
    returns (i: nat)
    requires Chain(rules, w, pool, maxDist, known, run) && k <= |run| && x in known
    requires (forall j :: 0 <= j < k ==> run[j].Known?) && After(known, run[..k]).pending == []
    ensures i < k && At(run[i]) == x
  {
    hide Chain, After;
    ChainPrefix(rules, w, pool, maxDist, known, run, k);
    ChainConserves(rules, w, pool, maxDist, known, run[..k]);
    DoneIs(rules, w, pool, maxDist, known, run[..k]);
    MatchesLoseNothing(known, run[..k]);
    assert x in multiset(known);
    assert x in Locations(run)[..k];
    i :| 0 <= i < k && Locations(run)[i] == x;
  }

  lemma ChainFarFromKnown(rules: Rules, w: State, pool: Pool, maxDist: Dist, known: seq<Loc>, run: seq<Choice>, j: nat, x: Loc)
    requires Chain(rules, w, pool, maxDist, known, run) && InOrder(w, pool, known, run) && NonZero(known)
    requires pool.minDist <= maxDist && Unclaimed(w, pool, known) == []
    requires j < |run| && run[j].Pick? && x in known
    ensures !Close(x, At(run[j]), pool.minDist)
  {
    hide Chain, InOrder, After, Close, Prelude;
    var k := FirstPick(run, j);
    PreludeIs(rules, w, pool, maxDist, known, run, k);
    var i := KnownInPlace(rules, w, pool, maxDist, known, run, k, x);
    assert Read(Locations(run), i) by {
      forall m | 0 <= m <= i ensures Locations(run)[m] != 0 { MatchedNonZero(rules, w, pool, maxDist, known, run, m); }
    }
    FarFromDone(rules, w, pool, maxDist, known, run, i, j);
  }

  lemma MatchedNonZero(rules: Rules, w: State, pool: Pool, maxDist: Dist, known: seq<Loc>, run: seq<Choice>, m: nat)
    requires Chain(rules, w, pool, maxDist, known, run) && NonZero(known) && m < |run| && run[m].Known?
    ensures At(run[m]) != 0
  {
    hide Match, After;
    assert Link(rules, w, pool, maxDist, After(known, run[..m]), run[m]);
    PendingShrinks(known, run[..m], m, At(run[m]));
  }

  // ---- Placement safety -------------------------------------------------------------------------------------

  /** Recomputing distances changes neither the choices nor where they lead. */
  lemma {:induction false} SameRun(known: seq<Loc>, run: seq<Choice>, sel: seq<Choice>)
    requires |sel| == |run| && forall j :: 0 <= j < |run| ==> Alike(run[j], sel[j])
    ensures After(known, sel) == After(known, run) && Locations(sel) == Locations(run) && TargetsOf(sel) == TargetsOf(run)
  {
    hide Matched, Took;
    if run != [] { SameRun(known, run[..|run| - 1], sel[..|run| - 1]); }
  }

  ghost predicate Alike(a: Choice, b: Choice) {
    if a.Known? then b == a else b.Pick? && b == Pick(a.target, a.selected.(finalDist := b.selected.finalDist))
  }

  lemma AnswersAlike(run: seq<Choice>, maxDist: Dist, sel: seq<Choice>, known: seq<Loc>)
    requires Answers(run, maxDist, sel)
    ensures forall j :: 0 <= j < |run| ==> Alike(run[j], sel[j])
    ensures Locations(sel) == Locations(run) && TargetsOf(sel) == TargetsOf(run)
    ensures forall j :: 0 <= j <= |run| ==> After(known, sel[..j]) == After(known, run[..j])
    ensures After(known, sel) == After(known, run)
  {
    hide Farthest, After;
    assert forall j :: 0 <= j < |run| ==> Redone(run, j, maxDist, sel[j]);
    SameRun(known, run, sel);
    forall j | 0 <= j <= |run| ensures After(known, sel[..j]) == After(known, run[..j]) {
      SameRun(known, run[..j], sel[..j]);
    }
  }

  lemma PickedComes(rules: Rules, w: State, target: seq<Name>, p: Progress, sel: Selected, d: Dist, dist: Dist)
    requires rules.nTargets > 0 && Picked(rules, w, target, p, sel, d)
    ensures Comes(w, target, sel.(finalDist := dist)) && sel.location !in Listed(rules.avoids)
  {
    hide TooPopular, Listed;
    var s := w.slots[Lookup(w.slots, sel.slot)];
    var i :| 0 <= i < |s.items| && s.items[i].id == sel.id;
    assert s.items[i] in s.items;
    var avoids := Listed(rules.avoids);
    assert forall k :: 0 <= k < |avoids| ==> !Close(avoids[k], sel.location, 1);
  }

  lemma ChainSuits(rules: Rules, w: State, pool: Pool, maxDist: Dist, known: seq<Loc>, run: seq<Choice>, j: nat, c: Choice)
    requires Chain(rules, w, pool, maxDist, known, run) && j < |run| && Alike(run[j], c)
    ensures Suits(w, pool, rules.avoids, known, c)
  {
    hide Picked, Comes, Match, TargetHolds, AllSorted, After;
    var p := After(known, run[..j]);
    assert Link(rules, w, pool, maxDist, p, run[j]);
    match run[j] {
      case Known(t, strict, _, loc) =>
        PendingShrinks(known, run[..j], j, loc);
        if AllSorted(w) && (pool.targets[t] == [] || pool.targets[t][0] != pool.joker) {
          MatchIs(w, pool.joker, pool.targets[t], p.pending, strict);
        }
      case Pick(t, s) =>
        PickedComes(rules, w, pool.targets[t], p, s, s.finalDist, c.selected.finalDist);
    }
  }

  lemma ChainApart(rules: Rules, w: State, pool: Pool, maxDist: Dist, known: seq<Loc>, run: seq<Choice>, sel: seq<Choice>)
    requires Chain(rules, w, pool, maxDist, known, run) && 1 <= pool.minDist <= maxDist && NonZero(known)
    requires |sel| == |run| && (forall j :: 0 <= j < |run| ==> Alike(run[j], sel[j])) && Locations(sel) == Locations(run)
    requires forall j :: 0 <= j < |sel| ==> Suits(w, pool, rules.avoids, known, sel[j])
    ensures Apart(sel, pool.minDist)
  {
    hide Chain, Listed, Lookup, TargetHolds, Match, Read, Prefix;
    forall i, j | 0 <= i < j < |sel| && (sel[i].Pick? || sel[j].Pick?) && Read(Locations(sel), i)
      ensures !Close(At(sel[i]), At(sel[j]), pool.minDist)
      ensures sel[i].Pick? && sel[j].Pick? ==> sel[i].selected.id != sel[j].selected.id
    {
      assert Alike(run[i], sel[i]) && Alike(run[j], sel[j]);
      FarFromEachOther(rules, w, pool, maxDist, known, run, i, j);
      assert Suits(w, pool, rules.avoids, known, sel[i]) && Suits(w, pool, rules.avoids, known, sel[j]);
    }
  }

  lemma ChainFinal(rules: Rules, w: State, pool: Pool, maxDist: Dist, known: seq<Loc>, run: seq<Choice>, sel: seq<Choice>)
    requires Chain(rules, w, pool, maxDist, known, run) && pool.minDist <= maxDist && NonZero(known)
    requires Answers(run, maxDist, sel) && Locations(sel) == Locations(run)
    ensures FinalDists(sel, pool.minDist, maxDist)
  {
    hide Chain, Near, Farthest, Close;
    var locs := Locations(run);
    forall j | 0 <= j < |sel| && sel[j].Pick?
      ensures
        var dist := sel[j].selected.finalDist;
        && dist <= maxDist && !Near(locs, j, dist) && (forall d: Dist :: dist < d <= maxDist ==> Near(locs, j, d))
        && (locs[j] != 0 && !Close(ALL_ONES, locs[j], pool.minDist) ==> pool.minDist <= dist)
    {
      assert Redone(run, j, maxDist, sel[j]);
      FarthestIs(locs, j, maxDist, sel[j].selected.finalDist);
      if locs[j] != 0 && !Close(ALL_ONES, locs[j], pool.minDist) { PickIsFar(rules, w, pool, maxDist, known, run, j); }
    }
  }

  /** The answer to a complete run is a safe placement. */
  lemma PlacementIsSafe(rules: Rules, w: State, pool: Pool, known: seq<Loc>, run: seq<Choice>, sel: seq<Choice>)
    requires pool.minDist >= 1 && NonZero(known) && |run| == |pool.targets| > |known|
    requires Chain(rules, w, pool, MinDist(w.absMaxDist, pool.initialDist), known, run) && InOrder(w, pool, known, run)
    requires Answers(run, MinDist(w.absMaxDist, pool.initialDist), sel)
    ensures Safe(w, pool, rules.avoids, known, rules.maxima, sel)
  {
    hide Picked, Match, InOrder, Answers, Suits, WithinMaxima, FinalDists, Apart, Alike, KeyOf, After, Unclaimed, FarFromKnown;
    var maxDist := MinDist(w.absMaxDist, pool.initialDist);
    SomethingPicked(rules, w, pool, maxDist, known, run);
    var k :| 0 <= k < |run| && run[k].Pick?;
    assert Link(rules, w, pool, maxDist, After(known, run[..k]), run[k]);
    EachOnce(w, pool, known, run);
    AnswersAlike(run, maxDist, sel, known);
    forall j | 0 <= j < |sel| ensures Suits(w, pool, rules.avoids, known, sel[j]) {
      ChainSuits(rules, w, pool, maxDist, known, run, j, sel[j]);
    }
    ChainApart(rules, w, pool, maxDist, known, run, sel);
    ChainPending(rules, w, pool, maxDist, known, run, sel);
    if Unclaimed(w, pool, known) == [] { ChainKnown(rules, w, pool, maxDist, known, run, sel); }
    ChainWithinMaxima(rules, w, pool, maxDist, known, run);
    SameMaxima(known, run, sel, rules.maxima);
    ChainFinal(rules, w, pool, maxDist, known, run, sel);
  }

  lemma SameMaxima(known: seq<Loc>, run: seq<Choice>, sel: seq<Choice>, maxima: Maxima)
    requires WithinMaxima(known, run, maxima) && |sel| == |run| && After(known, sel) == After(known, run)
    requires forall j :: 0 <= j < |run| ==> Alike(run[j], sel[j])
    ensures WithinMaxima(known, sel, maxima)
  {
    hide KeyOf, Prefix, After, Sharers;
    assert forall j :: 0 <= j < |run| ==> At(sel[j]) == At(run[j]) && sel[j].Pick? == run[j].Pick?;
  }

  lemma ChainKnown(rules: Rules, w: State, pool: Pool, maxDist: Dist, known: seq<Loc>, run: seq<Choice>, sel: seq<Choice>)
    requires Chain(rules, w, pool, maxDist, known, run) && InOrder(w, pool, known, run) && NonZero(known)
    requires pool.minDist <= maxDist && Unclaimed(w, pool, known) == []
    requires |sel| == |run| && forall j :: 0 <= j < |run| ==> Alike(run[j], sel[j])
    ensures FarFromKnown(known, sel, pool.minDist)
  {
    hide Chain, InOrder, Unclaimed, Close;
    forall j, x | 0 <= j < |sel| && sel[j].Pick? && x in known ensures !Close(x, At(sel[j]), pool.minDist) {
      assert Alike(run[j], sel[j]);
      ChainFarFromKnown(rules, w, pool, maxDist, known, run, j, x);
    }
  }

  lemma ChainPending(rules: Rules, w: State, pool: Pool, maxDist: Dist, known: seq<Loc>, run: seq<Choice>, sel: seq<Choice>)
    requires Chain(rules, w, pool, maxDist, known, run) && pool.minDist <= maxDist && NonZero(known)
    requires |sel| == |run| && (forall j :: 0 <= j < |run| ==> Alike(run[j], sel[j])) && Locations(sel) == Locations(run)
    requires forall j :: 0 <= j <= |run| ==> After(known, sel[..j]) == After(known, run[..j])
    ensures FarFromPending(known, sel, pool.minDist)
  {
    hide Chain, After, Close;
    forall j, x | 0 <= j < |sel| && sel[j].Pick? && x in After(known, sel[..j]).pending && 0 !in Locations(sel)[..j]
      ensures !Close(x, At(sel[j]), pool.minDist)
    {
      assert Alike(run[j], sel[j]);
      FarFromLeft(rules, w, pool, maxDist, known, run, j, x);
    }
  }

  // ---- Worlds without the two special locations ---------------------------------------------------------------

  /** A choice is close to another one at a distance. */
  ghost predicate CloseToOther(locs: seq<Loc>, j: nat, d: Dist)
    requires j < |locs|
  {
    exists i :: 0 <= i < |locs| && i != j && Close(locs[i], locs[j], d)
  }

  /** The greatest distance, up to a limit, at which a choice is far from the others. */
  ghost predicate TrueDist(locs: seq<Loc>, j: nat, maxDist: Dist, d: Dist)
    requires j < |locs|
  {
    d <= maxDist && !CloseToOther(locs, j, d) && forall d': Dist :: d < d' <= maxDist ==> CloseToOther(locs, j, d')
  }

  lemma NearIs(locs: seq<Loc>, j: nat, d: Dist)
    requires j < |locs| && forall i :: 0 <= i < |locs| && i != j ==> locs[i] != 0
    ensures Near(locs, j, d) <==> CloseToOther(locs, j, d) || Close(ALL_ONES, locs[j], d)
  {
    hide Close;
    var marked := locs[j := ALL_ONES];
    assert forall i :: 0 <= i < |locs| ==> Read(marked, i);
    if Near(locs, j, d) {
      var i :| 0 <= i < |locs| && Read(marked, i) && Close(marked[i], locs[j], d);
      if i != j { assert Close(locs[i], locs[j], d); }
    }
    if CloseToOther(locs, j, d) {
      var i :| 0 <= i < |locs| && i != j && Close(locs[i], locs[j], d);
      assert Read(marked, i) && Close(marked[i], locs[j], d);
    }
    if Close(ALL_ONES, locs[j], d) { assert Read(marked, j) && Close(marked[j], locs[j], d); }
  }

  /** When no other location is 0, the distance reported for a pick is the true one exactly when, at that one,
      the pick is far from the placeholder. */
  lemma ReportedIsTrue(locs: seq<Loc>, j: nat, maxDist: Dist, dist: Dist, d: Dist)
    requires j < |locs| && forall i :: 0 <= i < |locs| && i != j ==> locs[i] != 0
    requires Farthest(locs[j := ALL_ONES], locs[j], maxDist, dist) && TrueDist(locs, j, maxDist, d)
    ensures dist == d <==> !Close(ALL_ONES, locs[j], d)
  {
    hide Close, Farthest, Near, CloseToOther;
    FarthestIs(locs, j, maxDist, dist);
    NearIs(locs, j, d);
    NearIs(locs, j, dist);
  }

  /** No item is at 0, which ends lists, nor starts like the placeholder. */
  ghost predicate Located(w: State) {
    forall s, e :: s in w.slots && e in s.items ==> LocOf(w.items, e.id) != 0 && Regular(LocOf(w.items, e.id))
  }

  /** At any distance, a regular location is far from the placeholder. */
  lemma PlaceholderIsFar(loc: Loc, d: Dist)
    requires Regular(loc)
    ensures !Close(ALL_ONES, loc, d)
  {
    if Close(ALL_ONES, loc, d) { CloseMonotone(ALL_ONES, loc, d, 4); }
  }

  /** Any pick is far from all other choices, and its distance is the true one. */
  ghost predicate Spread(sel: seq<Choice>, minDist: Dist, maxDist: Dist) {
    forall j :: 0 <= j < |sel| && sel[j].Pick? ==>
      && !CloseToOther(Locations(sel), j, minDist) && minDist <= sel[j].selected.finalDist
      && TrueDist(Locations(sel), j, maxDist, sel[j].selected.finalDist)
  }

  lemma LocatedChoices(w: State, pool: Pool, avoids: seq<Loc>, known: seq<Loc>, c: Choice)
    requires Located(w) && NonZero(known) && Suits(w, pool, avoids, known, c)
    ensures At(c) != 0 && (c.Pick? ==> Regular(At(c)))
  {
    hide Regular, Listed, TargetHolds, AllSorted;
    if c.Pick? {
      var s := w.slots[Lookup(w.slots, c.selected.slot)];
      var e :| e in s.items && e.id == c.selected.id;
      assert s in w.slots;
    }
  }

  /** In a world without the two special locations, a safe placement is spread. */
  lemma LocatedIsSpread(w: State, pool: Pool, avoids: seq<Loc>, known: seq<Loc>, maxima: Maxima, sel: seq<Choice>)
    requires Located(w) && NonZero(known) && Safe(w, pool, avoids, known, maxima, sel)
    ensures Spread(sel, pool.minDist, MinDist(w.absMaxDist, pool.initialDist))
  {
    hide Located, Suits, Regular, Close, Near, CloseToOther, WithinMaxima, FarFromPending, After, Read, Apart, FinalDists;
    var locs := Locations(sel);
    forall j | 0 <= j < |sel| ensures locs[j] != 0 && (sel[j].Pick? ==> Regular(locs[j])) {
      LocatedChoices(w, pool, avoids, known, sel[j]);
    }
    forall j | 0 <= j < |sel| && sel[j].Pick?
      ensures !CloseToOther(locs, j, pool.minDist) && pool.minDist <= sel[j].selected.finalDist
      ensures TrueDist(locs, j, MinDist(w.absMaxDist, pool.initialDist), sel[j].selected.finalDist)
    {
      FarFromOthers(sel, j, pool.minDist);
      TrueWhenRegular(sel, j, pool.minDist, MinDist(w.absMaxDist, pool.initialDist));
    }
  }

  lemma FarFromOthers(sel: seq<Choice>, j: nat, d: Dist)
    requires Apart(sel, d) && j < |sel| && sel[j].Pick? && forall i :: 0 <= i < |sel| ==> Locations(sel)[i] != 0
    ensures !CloseToOther(Locations(sel), j, d)
  {
    hide Close;
    var locs := Locations(sel);
    forall i | 0 <= i < |sel| && i != j ensures !Close(locs[i], locs[j], d) {
      assert Read(locs, i) && Read(locs, j);
      if i > j { CloseBothWays(locs[i], locs[j], d); }
    }
  }

  lemma TrueWhenRegular(sel: seq<Choice>, j: nat, minDist: Dist, maxDist: Dist)
    requires FinalDists(sel, minDist, maxDist) && j < |sel| && sel[j].Pick?
    requires Regular(Locations(sel)[j]) && forall i :: 0 <= i < |sel| ==> Locations(sel)[i] != 0
    ensures minDist <= sel[j].selected.finalDist && TrueDist(Locations(sel), j, maxDist, sel[j].selected.finalDist)
  {
    hide Close, Near, CloseToOther, Regular;
    var locs := Locations(sel);
    forall d: Dist ensures Near(locs, j, d) <==> CloseToOther(locs, j, d) {
      NearIs(locs, j, d);
      PlaceholderIsFar(locs[j], d);
    }
    PlaceholderIsFar(locs[j], minDist);
  }

  // ---- The whole poll --------------------------------------------------------------------------------------------

  /** The random numbers of an attempt, with the fair maxima or without. */
  function Numbers(random: (bool, nat) -> nat, fair: bool): nat -> nat { (k: nat) => random(fair, k) }

  /** The run of an attempt: each choice may follow those before it, in the order of the passes; the picks are the
      items drawn, in turn; when the walks of the slots are complete, each is the best one. */
  ghost predicate Attempted(w: State, pool: Pool, avoids: seq<Loc>, known: seq<Loc>, maxima: Maxima, bypass: bool,
                            chance: Chance, run: seq<Choice>)
  {
    var rules, maxDist := Rules(avoids, maxima, |pool.targets|), MinDist(w.absMaxDist, pool.initialDist);
    && Chain(rules, w, pool, maxDist, known, run) && InOrder(w, pool, known, run)
    && InTurn(rules, w, pool, maxDist, known, run, bypass, chance)
    && (AllWalkable(w) ==> Greedy(rules, w, pool, maxDist, known, run, bypass))
  }

  /** The run of an attempt that failed: when the walks of the slots are complete, the next target cannot be served. */
  ghost predicate Failed(w: State, pool: Pool, avoids: seq<Loc>, known: seq<Loc>, maxima: Maxima, bypass: bool,
                         chance: Chance, run: seq<Choice>)
  {
    && Attempted(w, pool, avoids, known, maxima, bypass, chance, run)
    && (AllWalkable(w) ==>
      Stuck(Rules(avoids, maxima, |pool.targets|), w, pool, MinDist(w.absMaxDist, pool.initialDist), known, run))
  }

  /** oio_lb_pool__patch: an ideal attempt first, where there are fair maxima to try; if it fails, an attempt with the
      strict maxima, or with the fair ones if they are forced. An answer is a safe placement for the maxima of its
      attempt. */
  method PatchPool(w: State, pool: Pool, avoids: seq<Loc>, known: seq<Loc>, tryFair: bool, forceFair: bool, bypass: bool,
                   attempts: nat, random: (bool, nat) -> nat)
    returns (a: Answer, ghost maxima: Maxima, ghost run: seq<Choice>, ghost fair: Option<seq<Choice>>)
    requires pool.minDist >= 1
    ensures a.BadRequest? <==> |Listed(known)| >= |pool.targets|
    ensures fair.Some? ==> tryFair && !forceFair && pool.fairMax[0] != 0
    ensures tryFair && !forceFair && pool.fairMax[0] != 0 && fair.None? ==> a.Satisfied?
    ensures fair.Some? && !a.BadRequest? ==>
      Failed(w, pool, avoids, Listed(known), pool.fairMax, bypass, Chance(attempts, Numbers(random, true)), fair.value)
    ensures
      var first := tryFair && !forceFair && pool.fairMax[0] != 0 && fair.None?;
      && maxima == (if first || forceFair then pool.fairMax else pool.strictMax)
      && (a.Satisfied? ==>
        Attempted(w, pool, avoids, Listed(known), maxima, bypass, Chance(attempts, Numbers(random, first)), run))
      && (a.NotSatisfiable? ==>
        Failed(w, pool, avoids, Listed(known), maxima, bypass, Chance(attempts, Numbers(random, first)), run))
    ensures a.Satisfied? ==> Answers(run, MinDist(w.absMaxDist, pool.initialDist), a.selection)
    ensures a.Satisfied? ==> Safe(w, pool, avoids, Listed(known), maxima, a.selection)
    ensures a.Satisfied? && Located(w) ==> Spread(a.selection, pool.minDist, MinDist(w.absMaxDist, pool.initialDist))
  {
    hide Safe, Chain, Answers, Stuck, Greedy, Located, InOrder, InTurn, AllWalkable, Numbers;
    ListedNonZero(known);
    fair := None;
    if tryFair && !forceFair && pool.fairMax[0] != 0 {
      maxima := pool.fairMax;
      a, run := Patch(w, pool, avoids, known, pool.fairMax, bypass, attempts, Numbers(random, true));
      if a.Satisfied? {
        PlacedSafely(w, pool, avoids, Listed(known), maxima, run, a.selection);
        return;
      }
      fair := Some(run);
    }
    maxima := if forceFair then pool.fairMax else pool.strictMax;
    a, run := Patch(w, pool, avoids, known, if forceFair then pool.fairMax else pool.strictMax, bypass, attempts,
                    Numbers(random, false));
    if a.Satisfied? { PlacedSafely(w, pool, avoids, Listed(known), maxima, run, a.selection); }
  }

  lemma ListedNonZero(locs: seq<Loc>)
    ensures NonZero(Listed(locs))
  {
    ListedIs(locs, FirstZero(locs));
  }

  lemma PlacedSafely(w: State, pool: Pool, avoids: seq<Loc>, known: seq<Loc>, maxima: Maxima, run: seq<Choice>,
                     sel: seq<Choice>)
    requires pool.minDist >= 1 && NonZero(known) && |run| == |pool.targets| > |known|
    requires Chain(Rules(avoids, maxima, |pool.targets|), w, pool, MinDist(w.absMaxDist, pool.initialDist), known, run)
    requires InOrder(w, pool, known, run) && Answers(run, MinDist(w.absMaxDist, pool.initialDist), sel)
    ensures Safe(w, pool, avoids, known, maxima, sel)
    ensures Located(w) ==> Spread(sel, pool.minDist, MinDist(w.absMaxDist, pool.initialDist))
  {
    hide Safe, Chain, Answers, Located, InOrder, Spread;
    PlacementIsSafe(Rules(avoids, maxima, |pool.targets|), w, pool, known, run, sel);
    if Located(w) { LocatedIsSpread(w, pool, avoids, known, maxima, sel); }
  }

  // ---- Completeness ---------------------------------------------------------------------------------------------

  /** A target is not satisfiable exactly when no known location is left for it and nothing is acceptable even at
      the least distance. */
  lemma StuckIsLeast(rules: Rules, w: State, pool: Pool, maxDist: Dist, known: seq<Loc>, run: seq<Choice>, t: nat)
    requires rules.nTargets > 0 && pool.minDist <= maxDist && InOrder(w, pool, known, run) && t < |pool.targets|
    requires
      var q := StrictPass(w, pool, known, |pool.targets|);
      |run| - |q.run| < |q.left| && q.left[|run| - |q.run|] == t
    ensures Stuck(rules, w, pool, maxDist, known, run) <==>
      && Match(w, pool.joker, pool.targets[t], After(known, run).pending, false).None?
      && !Serves(rules, w, pool.targets[t], After(known, run), pool.minDist)
  {
    hide Serves, Match, After, StrictPass;
    var target, p := pool.targets[t], After(known, run);
    forall d: Dist | pool.minDist <= d <= maxDist && Serves(rules, w, target, p, d)
      ensures Serves(rules, w, target, p, pool.minDist)
    {
      ServesBelow(rules, w, target, p, d, pool.minDist);
    }
  }

  /** Once there is a location to compare with, no item of the world is acceptable beyond the cap of the world. */
  lemma BeyondCapNothingServes(rules: Rules, w: State, target: seq<Name>, p: Progress, d: Dist)
    requires rules.nTargets > 0 && WorldReload.Capped(w) && w.absMaxDist < d
    requires |Seen(p)| > 0 && Seen(p)[0] != 0 && MaxDist(Seen(p)[0]) <= w.absMaxDist
    requires forall s, e :: s in w.slots && e in s.items ==> e.id in w.items
    ensures !Serves(rules, w, target, p, d)
  {
    hide TooPopular, Seen;
    var locs := Seen(p);
    ListedHas(locs, 0);
    forall s, e | s in w.slots && e in s.items ensures TooClose(Listed(locs), LocOf(w.items, e.id), d) {
      BeyondCap(locs[0], LocOf(w.items, e.id), w.absMaxDist, d);
      assert Close(Listed(locs)[0], LocOf(w.items, e.id), d);
    }
  }

  /** In a world reached by cautious feeds, every slot that needs no rehash can be walked completely, but for
      one number of items, and all its items can be drawn. */
  lemma RehashedIsWalkable(ops: seq<Op>, k: nat)
    requires Walk.PrimesArePrime() && WorldIndex.CautiousRun(EMPTY, ops) && k < |Run(EMPTY, ops).slots|
    ensures
      var w := Run(EMPTY, ops);
      var s := w.slots[k];
      !NeedsRehash(s) && |s.items| < SHUFFLE_JUMP && s.items != [] && SumTo(w.items, s.items, |s.items|) < WORD ==>
        (Walkable(s) <==> |s.items| != Walk.UNLUCKY) && s.sumWeight > 0
  {
    hide Run, Walk.Coprime, Walk.JumpFor, Walk.PrimesArePrime, WorldIndex.CautiousRun;
    WorldIndex.IndexHolds(ops, k);
    var w := Run(EMPTY, ops);
    var s := w.slots[k];
    if !NeedsRehash(s) && 0 < |s.items| < SHUFFLE_JUMP && SumTo(w.items, s.items, |s.items|) < WORD {
      Walk.JumpIsCoprime(|s.items|);
      WorldIndex.RunIndexes(ops);
      assert WorldIndex.Sound(w.items, s);
      WorldIndex.Weights(w.items, s);
    }
  }

  /** In such a slot, over the random numbers below the sum of the weights, an item is the first one looked at as
      often as its weight says, but for the first item, once more, and the last one, once less. */
  lemma FirstLookFollowsWeights(ops: seq<Op>, k: nat, i: nat, random: nat -> nat, first: nat, attempts: nat)
    requires WorldIndex.CautiousRun(EMPTY, ops) && k < |Run(EMPTY, ops).slots| && i < |Run(EMPTY, ops).slots[k].items|
    requires !NeedsRehash(Run(EMPTY, ops).slots[k]) && attempts > 0
    requires
      var w := Run(EMPTY, ops);
      SumTo(w.items, w.slots[k].items, |w.slots[k].items|) < WORD
    ensures
      var w := Run(EMPTY, ops);
      var s := w.slots[k];
      && Pollable(s)
      && |FirstLooks(s, i, random, first, attempts)| == WeightOf(w.items, s.items[i].id)
        + (if i == 0 then 1 else 0) - (if i == |s.items| - 1 then 1 else 0)
  {
    hide Run, Draw.Draw, Draw.Hits, FirstLooks, SumTo, WorldIndex.CautiousRun;
    WorldIndex.DrawFollowsWeights(ops, k, i);
    WorldIndex.RunIndexes(ops);
    var w := Run(EMPTY, ops);
    var s := w.slots[k];
    assert WorldIndex.Sound(w.items, s);
    WorldIndex.Weights(w.items, s);
    SameHits(s, i, random, first, attempts);
  }

  /** If the first random number draws, from the main slot of a target, an item that can be picked, the first pick of
      a poll is this item. */
  lemma FirstPickIsDrawn(rules: Rules, w: State, pool: Pool, maxDist: Dist, known: seq<Loc>, run: seq<Choice>, bypass: bool,
                         chance: Chance, j: nat)
    requires InTurn(rules, w, pool, maxDist, known, run, bypass, chance)
    requires j < |run| && run[j].Pick? && run[j].target < |pool.targets| && forall i :: 0 <= i < j ==> run[i].Known?
    requires
      var target := pool.targets[run[j].target];
      Hit(rules, w, target, After(known, run[..j]), maxDist, SlackOf(pool, target, bypass), chance.attempts, chance.random, 0)
    ensures DrawnIs(w, pool.targets[run[j].target], chance.random, 0, run[j].selected)
  {
    hide Hit, DrawnIs, After, SlackOf, Picks, AllHit;
    NoPicks(run[..j]);
    FirstHits(rules, w, pool, maxDist, known, run, bypass, chance, j);
  }

  lemma FirstHits(rules: Rules, w: State, pool: Pool, maxDist: Dist, known: seq<Loc>, run: seq<Choice>, bypass: bool,
                  chance: Chance, j: nat)
    requires rules.nTargets > 0 && j < |run| && Picks(run[..j]) == 0
    requires run[j].Pick? && run[j].target < |pool.targets| && forall i :: 0 <= i < j ==> run[i].Known?
    requires
      var target := pool.targets[run[j].target];
      Hit(rules, w, target, After(known, run[..j]), maxDist, SlackOf(pool, target, bypass), chance.attempts, chance.random, 0)
    ensures AllHit(rules, w, pool, maxDist, known, run, bypass, chance, j + 1)
  {
    hide Hit, After, SlackOf, Picks;
  }

  /** Random numbers, with one of them replaced. */
  function With(random: nat -> nat, k: nat, x: nat): nat -> nat { (n: nat) => if n == k then x else random(n) }

  /** The random numbers for which an item is the first one looked at. */
  ghost function FirstLooks(s: Slot, i: nat, random: nat -> nat, first: nat, attempts: nat): set<int>
    requires Pollable(s)
  {
    set x | 0 <= x < s.sumWeight && Visit(s, With(random, first, x), first, attempts, 0) == i
  }

  lemma FirstLookIs(s: Slot, random: nat -> nat, first: nat, attempts: nat, x: nat)
    requires Pollable(s) && attempts > 0 && x < s.sumWeight
    ensures Visit(s, With(random, first, x), first, attempts, 0) == Draw.Draw(Accs(s), x)
  {
    hide Draw.Draw, Weighted;
    Walk.SmallMod(x, s.sumWeight);
  }

  lemma SameHits(s: Slot, i: nat, random: nat -> nat, first: nat, attempts: nat)
    requires Pollable(s) && attempts > 0 && Accs(s)[|s.items| - 1] == s.sumWeight
    ensures FirstLooks(s, i, random, first, attempts) == Draw.Hits(Accs(s), i)
  {
    hide Draw.Draw, Visit, With;
    forall x | 0 <= x < s.sumWeight
      ensures Visit(s, With(random, first, x), first, attempts, 0) == Draw.Draw(Accs(s), x)
    {
      FirstLookIs(s, random, first, attempts, x);
    }
  }

  /** No slot waits for a rehash, nor has too many items, too much weight, or the number of items that the walk
      does not suit. */
  ghost predicate Ready(w: State) {
    forall k :: 0 <= k < |w.slots| ==>
      var s := w.slots[k];
      && !NeedsRehash(s) && |s.items| < SHUFFLE_JUMP && |s.items| != Walk.UNLUCKY
      && SumTo(w.items, s.items, |s.items|) < WORD
  }

  /** No slot has too many items, too much weight, or the number of items that the walk does not suit. */
  ghost predicate Sized(w: State) {
    forall k :: 0 <= k < |w.slots| ==>
      var s := w.slots[k];
      && |s.items| < SHUFFLE_JUMP && |s.items| != Walk.UNLUCKY && SumTo(w.items, s.items, |s.items|) < WORD
  }

  /** From any world, a rehash of all slots makes it ready exactly when the sizes of the slots allow it. */
  lemma RehashedIsReady(w: State)
    ensures Ready(Step(w, RehashAll)) <==> Sized(w)
  {
    hide RehashIfNeeded, SumTo, NeedsRehash;
    var r := Step(w, RehashAll);
    forall k | 0 <= k < |w.slots|
      ensures !NeedsRehash(r.slots[k]) && |r.slots[k].items| == |w.slots[k].items|
      ensures SumTo(w.items, r.slots[k].items, |r.slots[k].items|) == SumTo(w.items, w.slots[k].items, |w.slots[k].items|)
    {
      WorldIndex.RehashKeeps(w.items, w.slots[k]);
    }
  }

  /** After harmless feeds and a rehash of all slots, a world is ready as soon as its slots have fewer items than
      the number that the walk does not suit. */
  lemma RehashedRunIsReady(ops: seq<Op>)
    requires WorldIndex.CautiousRun(EMPTY, ops) && forall s :: s in Run(EMPTY, ops).slots ==> |s.items| < Walk.UNLUCKY
    ensures WorldIndex.CautiousRun(EMPTY, ops + [RehashAll]) && Ready(Run(EMPTY, ops + [RehashAll]))
  {
    hide Run, Step, Ready, WorldIndex.Cautious, SumTo;
    var w, more := Run(EMPTY, ops), ops + [RehashAll];
    forall k | 0 <= k < |more| ensures WorldIndex.Cautious(Run(EMPTY, more[..k]), more[k]) {
      assert more[..k] == ops[..k];
      if k == |ops| { Harmless(Run(EMPTY, more[..k])); }
    }
    forall k | 0 <= k < |w.slots| ensures SumTo(w.items, w.slots[k].items, |w.slots[k].items|) < WORD {
      SumAtMost(w.items, w.slots[k].items, |w.slots[k].items|);
    }
    RehashedIsReady(w);
    RunOne(EMPTY, ops, RehashAll);
  }

  lemma Harmless(w: State)
    ensures WorldIndex.Cautious(w, RehashAll)
  {
  }

  /** In a world that is ready after cautious feeds, all slots can be walked, searched and drawn from. */
  lemma ReadyIsWalkable(ops: seq<Op>)
    requires Walk.PrimesArePrime() && WorldIndex.CautiousRun(EMPTY, ops) && Ready(Run(EMPTY, ops))
    ensures AllWalkable(Run(EMPTY, ops)) && AllSorted(Run(EMPTY, ops)) && AllWeighted(Run(EMPTY, ops))
  {
    hide Run, Walk.PrimesArePrime, WorldIndex.CautiousRun, Walkable, SumTo, Weighted;
    var w := Run(EMPTY, ops);
    forall k | 0 <= k < |w.slots|
      ensures Walkable(w.slots[k]) && (w.slots[k].items != [] ==> Pollable(w.slots[k]) && Weighted(w.slots[k]))
      ensures Sorted(w.items, w.slots[k].items) && Sorted(w.items, w.slots[k].zero)
    {
      SlotReady(ops, k);
    }
  }

  lemma SlotReady(ops: seq<Op>, k: nat)
    requires Walk.PrimesArePrime() && WorldIndex.CautiousRun(EMPTY, ops) && Ready(Run(EMPTY, ops))
    requires k < |Run(EMPTY, ops).slots|
    ensures
      var w := Run(EMPTY, ops);
      var s := w.slots[k];
      && Walkable(s) && (s.items != [] ==> Pollable(s) && Weighted(s))
      && Sorted(w.items, s.items) && Sorted(w.items, s.zero)
  {
    hide Run, Walk.PrimesArePrime, WorldIndex.CautiousRun, Walk.Coprime, Walk.JumpFor, SumTo, Tally;
    var w := Run(EMPTY, ops);
    var s := w.slots[k];
    RehashedIsWalkable(ops, k);
    WorldIndex.IndexHolds(ops, k);
    WorldIndex.RunIndexes(ops);
    assert WorldIndex.Sound(w.items, s);
  }
}
