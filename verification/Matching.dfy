/**
 Known locations (core/lb.c): a poll may be told of services that are already in place.
 Each may stand for a target with a slot that has its location; what is left of them is
 overwritten, one by one, by what the poll picks.
 */
module Matching {
  import opened Basics
  import opened Location
  import opened Slots
  import opened WorldSpec

  /** A poll in progress: the locations of the targets served so far, the known locations that no target
      took yet, those that were overwritten, and those that the counters have counted. */
  datatype Progress = Progress(done: seq<Loc>, pending: seq<Loc>, lost: seq<Loc>, counted: seq<Loc>)

  function Start(known: seq<Loc>): Progress { Progress([], known, [], known) }

  /** A pick is written over the first location still pending. */
  function Took(p: Progress, loc: Loc): Progress {
    if p.pending == [] then p.(done := p.done + [loc], counted := p.counted + [loc])
    else Progress(p.done + [loc], p.pending[1..], p.lost + [p.pending[0]], p.counted + [loc])
  }

  /** The first location still pending takes the place of a matched one. */
  function SwapOut(s: seq<Loc>, i: nat): (r: seq<Loc>)
    requires i < |s|
    ensures |r| == |s| - 1
  {
    if i == 0 then s[1..] else s[1..][i - 1 := s[0]]
  }

  function Matched(p: Progress, i: nat): Progress
    requires i < |p.pending|
  {
    p.(done := p.done + [p.pending[i]], pending := SwapOut(p.pending, i))
  }

  /** The locations that a pick is compared with. */
  function Seen(p: Progress): seq<Loc> { p.done + p.pending }

  // ---- Matching a target -----------------------------------------------------------------------------

  /** Whether a search finds an item at a location. */
  predicate Finds(items: Items, s: seq<Entry>, loc: Loc) { s != [] && SearchFirst(Locs(items, s), loc, 0, |s| - 1) >= 0 }

  predicate SlotHas(items: Items, slot: Slot, loc: Loc, strict: bool) {
    Finds(items, slot.items, loc) || (strict && Finds(items, slot.zero, loc))
  }

  /** The first of some locations, from a position on, that a slot has, or -1. */
  function FirstHeld(items: Items, slot: Slot, locs: seq<Loc>, strict: bool, i: nat): (r: int)
    requires i <= |locs|
    ensures r == -1 ==> forall j :: i <= j < |locs| ==> !SlotHas(items, slot, locs[j], strict)
    ensures r != -1 ==> i <= r < |locs| && SlotHas(items, slot, locs[r], strict)
    ensures r != -1 ==> forall j :: i <= j < r ==> !SlotHas(items, slot, locs[j], strict)
    decreases |locs| - i
  {
    if i == |locs| then -1 else if SlotHas(items, slot, locs[i], strict) then i
    else FirstHeld(items, slot, locs, strict, i + 1)
  }

  /** The slots of a target, from one on: the first that has a location; if strict, the first that exists. */
  function MatchFrom(w: State, target: seq<Name>, pending: seq<Loc>, strict: bool, m: nat): (r: Option<nat>)
    requires m <= |target|
    ensures r.Some? ==> r.value < |pending|
    decreases |target| - m
  {
    if m == |target| then None
    else
      var k := Lookup(w.slots, target[m]);
      if k < 0 then MatchFrom(w, target, pending, strict, m + 1)
      else
        var i := FirstHeld(w.items, w.slots[k], pending, strict, 0);
        if i >= 0 then Some(i) else if strict then None else MatchFrom(w, target, pending, strict, m + 1)
  }

  /** _local_target__is_satisfied: which of the pending locations stands for a target. */
  function Match(w: State, joker: Name, target: seq<Name>, pending: seq<Loc>, strict: bool): (r: Option<nat>)
    ensures r.Some? ==> r.value < |pending|
  {
    if pending == [] then None
    else if target != [] && target[0] == joker then Some(0)
    else MatchFrom(w, target, pending, strict, 0)
  }

  /** In a sorted list, the search finds the locations of the list. */
  lemma FindsIs(items: Items, s: seq<Entry>, loc: Loc)
    requires Sorted(items, s)
    ensures Finds(items, s, loc) <==> loc in Locs(items, s)
  {
    hide SearchFirst, LocOf;
    if s != [] { SearchIsFirst(Locs(items, s), loc, 0, |s| - 1); }
  }

  /** A slot has a location: one of its items is there, among those with a weight unless strict. */
  ghost predicate Holds(items: Items, slot: Slot, loc: Loc, strict: bool) {
    loc in Locs(items, slot.items) || (strict && loc in Locs(items, slot.zero))
  }

  ghost predicate AllSorted(w: State) {
    forall k :: 0 <= k < |w.slots| ==> Sorted(w.items, w.slots[k].items) && Sorted(w.items, w.slots[k].zero)
  }

  lemma SlotHasIs(items: Items, slot: Slot, loc: Loc, strict: bool)
    requires Sorted(items, slot.items) && Sorted(items, slot.zero)
    ensures SlotHas(items, slot, loc, strict) <==> Holds(items, slot, loc, strict)
  {
    hide Finds, Sorted, Locs;
    FindsIs(items, slot.items, loc);
    FindsIs(items, slot.zero, loc);
  }

  ghost predicate HoldsAt(w: State, target: seq<Name>, m: nat, loc: Loc, strict: bool)
    requires m < |target|
  {
    Lookup(w.slots, target[m]) >= 0 && Holds(w.items, w.slots[Lookup(w.slots, target[m])], loc, strict)
  }

  /** Some slot of a target has a location; if strict, only the first that exists matters. */
  ghost predicate TargetHolds(w: State, target: seq<Name>, loc: Loc, strict: bool) {
    exists m :: 0 <= m < |target| && HoldsAt(w, target, m, loc, strict)
      && (strict ==> forall n :: 0 <= n < m ==> Lookup(w.slots, target[n]) < 0)
  }

  /** The first slot of a target that has a pending location, and the first one that it has. */
  ghost predicate FirstMatch(w: State, target: seq<Name>, pending: seq<Loc>, strict: bool, m: nat, i: nat)
    requires m < |target| && i < |pending|
  {
    && HoldsAt(w, target, m, pending[i], strict)
    && (forall j :: 0 <= j < i ==> !HoldsAt(w, target, m, pending[j], strict))
    && forall n, j :: 0 <= n < m && 0 <= j < |pending| ==> !HoldsAt(w, target, n, pending[j], strict)
  }

  /** When the slots are sorted, a target that is no joker is matched exactly by a pending location that one
      of its slots has. */
  lemma {:induction false} MatchFromIs(w: State, target: seq<Name>, pending: seq<Loc>, strict: bool, m: nat)
    requires m <= |target| && AllSorted(w)
    requires strict ==> forall n :: 0 <= n < m ==> Lookup(w.slots, target[n]) < 0
    requires !strict ==> forall n, i :: 0 <= n < m && 0 <= i < |pending| ==> !HoldsAt(w, target, n, pending[i], strict)
    ensures
      var r := MatchFrom(w, target, pending, strict, m);
      && (r.Some? ==> TargetHolds(w, target, pending[r.value], strict))
      && (r.Some? ==> exists n :: 0 <= n < |target| && FirstMatch(w, target, pending, strict, n, r.value))
      && (r.None? ==> forall i :: 0 <= i < |pending| ==> !TargetHolds(w, target, pending[i], strict))
    decreases |target| - m
  {
    hide Holds, SlotHas, Sorted, Lookup;
    if m < |target| {
      var k := Lookup(w.slots, target[m]);
      if k < 0 {
        MatchFromIs(w, target, pending, strict, m + 1);
      } else {
        forall loc ensures SlotHas(w.items, w.slots[k], loc, strict) <==> Holds(w.items, w.slots[k], loc, strict) {
          SlotHasIs(w.items, w.slots[k], loc, strict);
        }
        var i := FirstHeld(w.items, w.slots[k], pending, strict, 0);
        if i >= 0 {
          assert HoldsAt(w, target, m, pending[i], strict);
          assert FirstMatch(w, target, pending, strict, m, i);
        } else if !strict {
          MatchFromIs(w, target, pending, strict, m + 1);
        }
      }
    }
  }

  lemma MatchIs(w: State, joker: Name, target: seq<Name>, pending: seq<Loc>, strict: bool)
    requires AllSorted(w) && (target == [] || target[0] != joker)
    ensures
      var r := Match(w, joker, target, pending, strict);
      && (r.Some? ==> TargetHolds(w, target, pending[r.value], strict))
      && (r.Some? ==> exists n :: 0 <= n < |target| && FirstMatch(w, target, pending, strict, n, r.value))
      && (r.None? ==> forall i :: 0 <= i < |pending| ==> !TargetHolds(w, target, pending[i], strict))
  {
    hide TargetHolds, MatchFrom, AllSorted;
    MatchFromIs(w, target, pending, strict, 0);
  }

  /** A target that nothing pending stands for is in the same case when fewer locations are pending. */
  lemma {:induction false} NoMatchFromFewer(w: State, target: seq<Name>, pending: seq<Loc>, fewer: seq<Loc>, strict: bool, m: nat)
    requires m <= |target| && (forall x :: x in fewer ==> x in pending)
    requires MatchFrom(w, target, pending, strict, m).None?
    ensures MatchFrom(w, target, fewer, strict, m).None?
    decreases |target| - m
  {
    hide SlotHas;
    if m < |target| {
      var k := Lookup(w.slots, target[m]);
      if k >= 0 {
        assert forall j :: 0 <= j < |pending| ==> !SlotHas(w.items, w.slots[k], pending[j], strict);
        assert forall j :: 0 <= j < |fewer| ==> fewer[j] in pending;
        assert FirstHeld(w.items, w.slots[k], fewer, strict, 0) == -1;
      }
      if k < 0 || !strict { NoMatchFromFewer(w, target, pending, fewer, strict, m + 1); }
    }
  }

  lemma NoMatchInFewer(w: State, joker: Name, target: seq<Name>, pending: seq<Loc>, fewer: seq<Loc>, strict: bool)
    requires (forall x :: x in fewer ==> x in pending) && Match(w, joker, target, pending, strict).None?
    ensures Match(w, joker, target, fewer, strict).None?
  {
    hide MatchFrom;
    if fewer != [] {
      assert fewer[0] in pending;
      NoMatchFromFewer(w, target, pending, fewer, strict, 0);
    }
  }

  lemma SwapOutShrinks(s: seq<Loc>, i: nat)
    requires i < |s|
    ensures forall x :: x in SwapOut(s, i) ==> x in s
  {
  }

  // ---- Nothing is forgotten, but what is overwritten ---------------------------------------------------

  /** The locations counted are those in place, those pending and those lost. */
  ghost predicate Conserved(p: Progress) {
    multiset(p.done) + multiset(p.pending) + multiset(p.lost) == multiset(p.counted)
  }

  lemma SwapOutKeeps(s: seq<Loc>, i: nat)
    requires i < |s|
    ensures multiset(s) == multiset(SwapOut(s, i)) + multiset{s[i]}
  {
    assert s == [s[0]] + s[1..];
    if i > 0 {
      var t := s[1..];
      assert t == t[..i - 1] + [t[i - 1]] + t[i..];
      assert t[i - 1 := s[0]] == t[..i - 1] + [s[0]] + t[i..];
    }
  }

  lemma TookKeeps(p: Progress, loc: Loc)
    requires Conserved(p)
    ensures Conserved(Took(p, loc))
  {
    if p.pending != [] { assert p.pending == [p.pending[0]] + p.pending[1..]; }
  }

  lemma MatchedKeeps(p: Progress, i: nat)
    requires Conserved(p) && i < |p.pending|
    ensures Conserved(Matched(p, i))
  {
    hide SwapOut;
    SwapOutKeeps(p.pending, i);
  }

  /** A pick is compared with everything that was counted exactly when nothing is lost. */
  lemma SeesAll(p: Progress)
    requires Conserved(p)
    ensures multiset(Seen(p)) == multiset(p.counted) <==> p.lost == []
  {
    if p.lost != [] {
      assert p.lost[0] in multiset(p.lost);
      assert |multiset(Seen(p)) + multiset(p.lost)| == |multiset(p.counted)|;
    }
  }
}
