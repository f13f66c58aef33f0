/**
 Polling services (core/lb.c): one item per target, at decreasing distances, by weighted
 draws and then a walk over the slot, under an avoid list and caps per level.
 */
module Poll {
  import opened Basics
  import opened Location
  import opened Counters
  import opened Slots
  import opened WorldSpec
  import opened Matching
  import Draw
  import Walk

  /** Maxima per level; at 0, the cap is proportional. The first one only tells that they are set. */
  type Maxima = m: seq<nat> | |m| == 4 witness [0, 0, 0, 0]

  /** A target is a list of slots: the expected one, then its fallbacks. The joker is a target that any
      known location stands for. */
  datatype Pool = Pool(joker: Name, targets: seq<seq<Name>>, initialDist: Dist, minDist: nat,
                       strictMax: Maxima, fairMax: Maxima)

  // ---- Caps ----------------------------------------------------------------------------------------

  /** How many items of the slot are under a key, as _item_is_too_popular corrects it. */
  function Leafs(slot: Slot, level: Level, key: nat): (n: nat)
    requires slot.items != []
    ensures 0 < n <= |slot.items|
  {
    var n := Count(slot.byLoc, level, key);
    if n == 0 then 1 else if n > |slot.items| then |slot.items| else n
  }

  /** How many of `n` targets may be under a key. */
  function Cap(max: nat, n: nat, leafs: nat, len: nat): (c: nat)
    requires 0 < leafs <= len && 0 < n
    ensures 0 < c && (max > 0 ==> c == max)
  {
    if max != 0 then max
    else
      assert len / leafs >= 1 by { AtLeastOne(len, leafs); }
      1 + (n - 1) / (len / leafs)
  }

  lemma AtLeastOne(a: nat, b: nat)
    requires 0 < b <= a
    ensures a / b >= 1
  {
  }

  /** The proportional cap is the least number of targets that, times the share of the key, reaches `n`. */
  lemma CapIsLeast(n: nat, leafs: nat, len: nat, k: nat)
    requires 0 < leafs <= len && 0 < n
    ensures k >= Cap(0, n, leafs, len) <==> k * (len / leafs) >= n
  {
    AtLeastOne(len, leafs);
    var q := len / leafs;
    var c := (n - 1) / q;
    var r := (n - 1) % q;
    assert n - 1 == q * c + r;
    if k >= c + 1 {
      Grows(q, c + 1, k);
      assert q * (c + 1) == q * c + q;
    } else {
      Grows(q, k, c);
    }
  }

  lemma Grows(q: nat, a: nat, b: nat)
    requires a <= b
    ensures q * a <= q * b && q * a == a * q && q * b == b * q
  {
    assert q * b == q * a + q * (b - a);
  }

  predicate PopularAt(maxima: Maxima, n: nat, slot: Slot, counters: Counts, loc: Loc, level: Level)
    requires slot.items != [] && n > 0
  {
    var key := KeyOf(loc, level);
    Count(counters, level, key) >= Cap(maxima[level], n, Leafs(slot, level, key), |slot.items|)
  }

  ghost predicate TooPopular(maxima: Maxima, n: nat, slot: Slot, counters: Counts, loc: Loc)
    requires slot.items != [] && n > 0
  {
    exists level: Level :: PopularAt(maxima, n, slot, counters, loc, level)
  }

  /** _item_is_too_popular */
  method ItemIsTooPopular(maxima: Maxima, n: nat, slot: Slot, counters: Counts, loc: Loc) returns (popular: bool)
    requires slot.items != [] && n > 0
    ensures popular <==> TooPopular(maxima, n, slot, counters, loc)
  {
    hide PopularAt;
    var level := 1;
    while level <= 3
      invariant 1 <= level <= 4
      invariant forall l: Level :: l < level ==> !PopularAt(maxima, n, slot, counters, loc, l)
    {
      if PopularAt(maxima, n, slot, counters, loc, level) {
        return true;
      }
      level := level + 1;
    }
    return false;
  }

  // ---- What a poll accepts ---------------------------------------------------------------------------

  /** What does not change during a poll. */
  datatype Rules = Rules(avoids: seq<Loc>, maxima: Maxima, nTargets: nat)

  /** An item that may be picked after others, at a distance. */
  ghost predicate Acceptable(rules: Rules, slot: Slot, p: Progress, loc: Loc, d: Dist)
    requires slot.items != [] && rules.nTargets > 0
  {
    && !TooClose(Listed(rules.avoids), loc, 1)
    && !TooClose(Listed(Seen(p)), loc, d)
    && !TooPopular(rules.maxima, rules.nTargets, slot, Tally(p.counted), loc)
  }

  /** What is acceptable at a distance is acceptable at any lower one. */
  lemma AcceptableBelow(rules: Rules, slot: Slot, p: Progress, loc: Loc, d: Dist, d': Dist)
    requires slot.items != [] && rules.nTargets > 0 && d' <= d && Acceptable(rules, slot, p, loc, d)
    ensures Acceptable(rules, slot, p, loc, d')
  {
    hide TooPopular, Listed;
    if TooClose(Listed(Seen(p)), loc, d') { TooCloseMonotone(Listed(Seen(p)), loc, d', d); }
  }

  /** What a poll returns of an item; the distance is first the one at which it was accepted. */
  datatype Selected = Selected(id: Id, location: Loc, slot: Name, finalDist: Dist)

  /** Whether a selected item is an acceptable one of some slot of a target. */
  ghost predicate Picked(rules: Rules, w: State, target: seq<Name>, p: Progress, sel: Selected, d: Dist)
    requires rules.nTargets > 0
  {
    var k := Lookup(w.slots, sel.slot);
    && sel.slot in target && k >= 0 && w.slots[k].items != []
    && (exists i :: 0 <= i < |w.slots[k].items| && w.slots[k].items[i].id == sel.id)
    && sel.location == LocOf(w.items, sel.id) && Acceptable(rules, w.slots[k], p, sel.location, d)
  }

  /** Whether some item of a slot can be picked. */
  ghost predicate SlotServes(rules: Rules, items: Items, slot: Slot, p: Progress, d: Dist)
    requires rules.nTargets > 0
  {
    && slot.items != [] && slot.sumWeight > 0
    && exists i :: 0 <= i < |slot.items| && Acceptable(rules, slot, p, LocOf(items, slot.items[i].id), d)
  }

  /** Whether some item of some slot of a target can be picked. */
  ghost predicate Serves(rules: Rules, w: State, target: seq<Name>, p: Progress, d: Dist)
    requires rules.nTargets > 0
  {
    exists m :: 0 <= m < |target| && Lookup(w.slots, target[m]) >= 0
      && SlotServes(rules, w.items, w.slots[Lookup(w.slots, target[m])], p, d)
  }

  predicate Pollable(slot: Slot) { slot.items != [] && slot.sumWeight > 0 }

  /** The accumulated weights are strictly increasing, up to their sum. */
  ghost predicate Weighted(slot: Slot) {
    slot.items != [] && Draw.Increasing(Accs(slot)) && slot.items[|slot.items| - 1].acc == slot.sumWeight
  }

  /** The first item whose accumulated weight reaches a number. */
  ghost predicate Reaches(slot: Slot, x: nat, i: nat) {
    && i < |slot.items| && slot.items[i].acc >= x
    && forall j :: 0 <= j < i ==> slot.items[j].acc < x
  }

  /** The item that a random number draws. */
  function Drawn(slot: Slot, random: nat -> nat, k: nat): (i: nat)
    requires Pollable(slot)
    ensures i < |slot.items|
    ensures Weighted(slot) ==> Reaches(slot, random(k) % slot.sumWeight, i)
  {
    assert Weighted(slot) ==> Reaches(slot, random(k) % slot.sumWeight, Draw.Draw(Accs(slot), random(k) % slot.sumWeight)) by {
      if Weighted(slot) { DrawReaches(slot, random(k) % slot.sumWeight); }
    }
    Draw.Draw(Accs(slot), random(k) % slot.sumWeight)
  }

  lemma DrawReaches(slot: Slot, x: nat)
    requires Weighted(slot) && x < slot.sumWeight
    ensures Reaches(slot, x, Draw.Draw(Accs(slot), x))
  {
    hide Draw.Draw, Draw.Increasing;
    var accs := Accs(slot);
    Draw.DrawIsLeast(accs, x);
    assert forall j :: 0 <= j < |accs| ==> accs[j] == slot.items[j].acc;
  }

  /** Where the walk starts: from the last item drawn. */
  function StartOf(slot: Slot, random: nat -> nat, first: nat, attempts: nat): (i: nat)
    requires Pollable(slot)
    ensures i < |slot.items|
  {
    if attempts == 0 then 0 else Drawn(slot, random, first + attempts - 1)
  }

  /** The items that a poll looks at, in order: those drawn, then those of the walk. */
  function Visit(slot: Slot, random: nat -> nat, first: nat, attempts: nat, k: nat): (i: nat)
    requires Pollable(slot)
    ensures i < |slot.items|
    ensures k < attempts && Weighted(slot) ==> Reaches(slot, random(first + k) % slot.sumWeight, i)
  {
    if k < attempts then Drawn(slot, random, first + k)
    else Walk.At(StartOf(slot, random, first, attempts), slot.jump, |slot.items|, k - attempts + 1)
  }

  /** The first `n` items looked at are not acceptable. */
  ghost predicate Refused(rules: Rules, items: Items, slot: Slot, p: Progress, d: Dist,
                          random: nat -> nat, first: nat, attempts: nat, n: nat)
    requires rules.nTargets > 0 && Pollable(slot)
  {
    forall k: nat :: k < n ==>
      !Acceptable(rules, slot, p, LocOf(items, slot.items[Visit(slot, random, first, attempts, k)].id), d)
  }

  lemma NothingDrawn(slot: Slot, random: nat -> nat, first: nat)
    requires Pollable(slot)
    ensures StartOf(slot, random, first, 0) == 0
  {
  }

  lemma VisitDrawn(slot: Slot, random: nat -> nat, first: nat, attempts: nat, k: nat)
    requires Pollable(slot) && k < attempts
    ensures Visit(slot, random, first, attempts, k) == StartOf(slot, random, first, k + 1) == Drawn(slot, random, first + k)
  {
  }

  /** After the draws, each item is a jump away from the one looked at before it. */
  lemma VisitJumps(slot: Slot, random: nat -> nat, first: nat, attempts: nat, k: nat)
    requires Pollable(slot) && k >= attempts
    ensures Visit(slot, random, first, attempts, k)
      == ((if k == 0 then 0 else Visit(slot, random, first, attempts, k - 1)) + slot.jump) % |slot.items|
  {
    hide Walk.At, Drawn;
    Walk.AtStart(StartOf(slot, random, first, attempts), slot.jump, |slot.items|);
    Walk.AtStep(StartOf(slot, random, first, attempts), slot.jump, |slot.items|, k - attempts);
  }

  lemma NoneRefused(rules: Rules, items: Items, slot: Slot, p: Progress, d: Dist,
                    random: nat -> nat, first: nat, attempts: nat)
    requires rules.nTargets > 0 && Pollable(slot)
    ensures Refused(rules, items, slot, p, d, random, first, attempts, 0)
  {
  }

  lemma RefusedMore(rules: Rules, items: Items, slot: Slot, p: Progress, d: Dist,
                    random: nat -> nat, first: nat, attempts: nat, n: nat)
    requires rules.nTargets > 0 && Pollable(slot) && Refused(rules, items, slot, p, d, random, first, attempts, n)
    requires !Acceptable(rules, slot, p, LocOf(items, slot.items[Visit(slot, random, first, attempts, n)].id), d)
    ensures Refused(rules, items, slot, p, d, random, first, attempts, n + 1)
  {
    hide Acceptable, Visit;
  }

  lemma FirstRefused(rules: Rules, items: Items, slot: Slot, p: Progress, d: Dist,
                     random: nat -> nat, first: nat, attempts: nat, n: nat)
    requires rules.nTargets > 0 && Pollable(slot) && Refused(rules, items, slot, p, d, random, first, attempts, n)
    requires n > 0 && attempts > 0
    ensures !Acceptable(rules, slot, p, LocOf(items, slot.items[Drawn(slot, random, first)].id), d)
  {
    hide Acceptable, Drawn;
    assert Visit(slot, random, first, attempts, 0) == Drawn(slot, random, first);
  }

  /** When the walk is complete, a poll that refused all it looked at refused the whole slot. */
  lemma RefusedAll(rules: Rules, items: Items, slot: Slot, p: Progress, d: Dist,
                   random: nat -> nat, first: nat, attempts: nat)
    requires rules.nTargets > 0 && Pollable(slot) && Walkable(slot)
    requires Refused(rules, items, slot, p, d, random, first, attempts, attempts + |slot.items|)
    ensures !SlotServes(rules, items, slot, p, d)
  {
    hide Acceptable, Walk.Coprime, Walk.At, StartOf, Drawn;
    var len, start := |slot.items|, StartOf(slot, random, first, attempts);
    forall j | 0 <= j < len ensures !Acceptable(rules, slot, p, LocOf(items, slot.items[j].id), d) {
      var k := Walk.Reached(start, slot.jump, len, j);
      assert Visit(slot, random, first, attempts, attempts + k - 1) == j;
    }
  }

  ghost predicate AllWalkable(w: State) { forall s :: s in w.slots ==> Walkable(s) }

  /** The items of every slot can be drawn. */
  ghost predicate AllWeighted(w: State) { forall s :: s in w.slots && s.items != [] ==> Pollable(s) && Weighted(s) }

  /** The walk of a slot is complete. */
  ghost predicate Walkable(slot: Slot) { slot.items != [] ==> Walk.Coprime(slot.jump, |slot.items|) }

  // ---- Distances ---------------------------------------------------------------------------------------

  /** How a distance may be lowered, for a target: down to a least one, if this is allowed, when too many
      targets are for the same slot. */
  datatype Slack = Slack(minDist: nat, bypass: bool, similar: nat)

  ghost function SlackOf(pool: Pool, target: seq<Name>, bypass: bool): Slack {
    Slack(pool.minDist, bypass, |Similar(pool.targets, target)|)
  }

  /** The targets with the same main slot. */
  ghost function Similar(targets: seq<seq<Name>>, target: seq<Name>): set<int> {
    set j | 0 <= j < |targets| && targets[j] != [] && target != [] && targets[j][0] == target[0]
  }

  /** There are more targets than locations at the level below a distance. */
  predicate Crowded(slot: Slot, d: Dist, similar: nat) {
    d > 1 && d - 1 in slot.locsByLevel && similar > slot.locsByLevel[d - 1]
  }

  /** The distance that a slot is polled at: one less when it is crowded and a bypass is allowed, but not below
      the least one. */
  function Relaxed(slot: Slot, d: Dist, slack: Slack): (r: Dist)
    requires slack.minDist <= d
    ensures r == d || r == d - 1 >= slack.minDist
    ensures r < d <==> slack.bypass && slack.minDist < d && Crowded(slot, d, slack.similar)
  {
    if slack.bypass && Crowded(slot, d, slack.similar) then
      if d - 1 < slack.minDist then slack.minDist else d - 1
    else d
  }

  /** Whether some item of a slot of a target can be picked, when the target is polled at a distance. */
  ghost predicate ServesAt(rules: Rules, w: State, target: seq<Name>, p: Progress, d: Dist, slack: Slack)
    requires rules.nTargets > 0 && slack.minDist <= d
  {
    exists m :: 0 <= m < |target| && Lookup(w.slots, target[m]) >= 0
      && SlotServes(rules, w.items, w.slots[Lookup(w.slots, target[m])], p,
                    Relaxed(w.slots[Lookup(w.slots, target[m])], d, slack))
  }

  /** No slot listed before this one can serve a target. */
  ghost predicate FirstToServe(rules: Rules, w: State, target: seq<Name>, p: Progress, d: Dist, slack: Slack, name: Name)
    requires rules.nTargets > 0 && slack.minDist <= d
  {
    exists m :: 0 <= m < |target| && target[m] == name && !ServesAt(rules, w, target[..m], p, d, slack)
  }

  /** A pick of a target polled at a distance: from the first of its slots that can serve it, and at the
      distance of that slot. */
  ghost predicate PickedAt(rules: Rules, w: State, target: seq<Name>, p: Progress, d: Dist, slack: Slack, sel: Selected)
    requires rules.nTargets > 0
  {
    && slack.minDist <= d && FirstToServe(rules, w, target, p, d, slack, sel.slot)
    && Lookup(w.slots, sel.slot) >= 0 && sel.finalDist == Relaxed(w.slots[Lookup(w.slots, sel.slot)], d, slack)
  }

  /** A pick is made at the greatest distance at which the target can be served. */
  ghost predicate Best(rules: Rules, w: State, target: seq<Name>, p: Progress, maxDist: Dist, slack: Slack, sel: Selected)
    requires rules.nTargets > 0
  {
    exists d: Dist :: PickedAt(rules, w, target, p, d, slack, sel) && d <= maxDist
      && forall d': Dist :: d < d' <= maxDist ==> !ServesAt(rules, w, target, p, d', slack)
  }

  /** Without a bypass, a target polled at a distance is served at this distance; at the least one, always. */
  lemma ServesAtIs(rules: Rules, w: State, target: seq<Name>, p: Progress, d: Dist, slack: Slack)
    requires rules.nTargets > 0 && slack.minDist <= d && (!slack.bypass || d == slack.minDist)
    ensures ServesAt(rules, w, target, p, d, slack) <==> Serves(rules, w, target, p, d)
  {
    hide SlotServes, Crowded;
    assert forall slot :: Relaxed(slot, d, slack) == d;
  }

  /** What serves a target at a distance serves it at any lower one. */
  lemma ServesBelow(rules: Rules, w: State, target: seq<Name>, p: Progress, d: Dist, d': Dist)
    requires rules.nTargets > 0 && d' <= d && Serves(rules, w, target, p, d)
    ensures Serves(rules, w, target, p, d')
  {
    hide Acceptable;
    var m :| 0 <= m < |target| && Lookup(w.slots, target[m]) >= 0
      && SlotServes(rules, w.items, w.slots[Lookup(w.slots, target[m])], p, d);
    var s := w.slots[Lookup(w.slots, target[m])];
    var i :| 0 <= i < |s.items| && Acceptable(rules, s, p, LocOf(w.items, s.items[i].id), d);
    AcceptableBelow(rules, s, p, LocOf(w.items, s.items[i].id), d, d');
  }

  /** A target that cannot be served when polled at the least distance cannot be served at all. */
  lemma NothingServes(rules: Rules, w: State, target: seq<Name>, p: Progress, slack: Slack, d: Dist)
    requires rules.nTargets > 0 && slack.minDist <= d && !ServesAt(rules, w, target, p, slack.minDist, slack)
    ensures !Serves(rules, w, target, p, d)
  {
    hide Serves, ServesAt;
    ServesAtIs(rules, w, target, p, slack.minDist, slack);
    if Serves(rules, w, target, p, d) { ServesBelow(rules, w, target, p, d, slack.minDist); }
  }

  // ---- The first draw ------------------------------------------------------------------------------------

  /** Whether a random number draws, from the main slot of a target, an item that can be picked. */
  ghost predicate Hit(rules: Rules, w: State, target: seq<Name>, p: Progress, d: Dist, slack: Slack,
                      attempts: nat, random: nat -> nat, k: nat)
    requires rules.nTargets > 0
  {
    && attempts > 0 && target != [] && slack.minDist <= d && Lookup(w.slots, target[0]) >= 0
    && var slot := w.slots[Lookup(w.slots, target[0])];
    && Pollable(slot)
    && Acceptable(rules, slot, p, LocOf(w.items, slot.items[Drawn(slot, random, k)].id), Relaxed(slot, d, slack))
  }

  /** The item that a random number draws from the main slot of a target. */
  ghost predicate DrawnIs(w: State, target: seq<Name>, random: nat -> nat, k: nat, sel: Selected) {
    && target != [] && sel.slot == target[0] && Lookup(w.slots, target[0]) >= 0
    && var slot := w.slots[Lookup(w.slots, target[0])];
    && Pollable(slot) && sel.id == slot.items[Drawn(slot, random, k)].id
  }

  /** _count_similar_target_slots */
  method CountSimilar(targets: seq<seq<Name>>, target: seq<Name>) returns (n: nat)
    requires target != []
    ensures n == |Similar(targets, target)|
  {
    n := 0;
    var i := 0;
    ghost var seen: set<int> := {};
    while i < |targets|
      invariant 0 <= i <= |targets| && n == |seen|
      invariant seen == set j | 0 <= j < i && targets[j] != [] && targets[j][0] == target[0]
    {
      if targets[i] != [] && targets[i][0] == target[0] {
        seen := seen + {i};
        n := n + 1;
      }
      i := i + 1;
    }
    assert seen == Similar(targets, target);
  }

  /** Zeroes after a list end it. */
  lemma ListedPad(locs: seq<Loc>, s: seq<Loc>)
    requires |locs| < |s| && s[..|locs|] == locs && s[|locs|] == 0
    ensures Listed(s) == Listed(locs)
    decreases |locs|
  {
    if locs != [] && locs[0] != 0 {
      assert s[0] == locs[0];
      assert s[1..][..|locs| - 1] == locs[1..];
      ListedPad(locs[1..], s[1..]);
    }
  }

  lemma TallyAppend(locs: seq<Loc>, loc: Loc)
    ensures Tally(locs + [loc]) == Incr(Tally(locs), loc)
  {
    assert (locs + [loc])[..|locs|] == locs;
  }

  /** The counters of some locations. */
  method CountAll(locs: seq<Loc>) returns (counters: Counts)
    ensures counters == Tally(locs)
  {
    hide Tally, Incr;
    counters := map[];
    NothingTallied();
    var i := 0;
    while i < |locs|
      invariant 0 <= i <= |locs| && counters == Tally(locs[..i])
    {
      TallyAppend(locs[..i], locs[i]);
      assert locs[..i + 1] == locs[..i] + [locs[i]];
      counters := Incr(counters, locs[i]);
      i := i + 1;
    }
    assert locs[..i] == locs;
  }

  lemma NothingTallied()
    ensures Tally([]) == map[]
  {
  }

  /** A poll in progress. */
  class Polling {
    const rules: Rules
    const polled: array<Loc>
    /** The random numbers to come, whatever they are. */
    const random: nat -> nat
    var next: nat
    var counters: Counts
    var draws: nat
    ghost var progress: Progress

    ghost predicate Valid()
      reads `next, `counters, `progress, polled
    {
      var end := next + |progress.pending|;
      && rules.nTargets > 0 && polled.Length == rules.nTargets + 1 && end <= rules.nTargets
      && next == |progress.done| && polled[..end] == Seen(progress)
      && (forall i :: 0 <= i < |progress.pending| ==> progress.pending[i] != 0)
      && (forall i :: end <= i < polled.Length ==> polled[i] == 0)
      && counters == Tally(progress.counted)
    }

    constructor (rules: Rules, known: seq<Loc>, random: nat -> nat)
      requires |known| < rules.nTargets && forall i :: 0 <= i < |known| ==> known[i] != 0
      ensures this.rules == rules && Valid() && progress == Start(known) && fresh(polled) && draws == 0
      ensures this.random == random
    {
      hide Tally;
      this.rules, this.random := rules, random;
      draws, next, progress := 0, 0, Start(known);
      polled := new Loc[rules.nTargets + 1](i => if 0 <= i < |known| then known[i] else 0);
      var counts := CountAll(known);
      counters := counts;
      new;
      assert polled[..|known|] == known;
    }

    lemma NextIs()
      requires Valid()
      ensures next == |progress.done| && next + |progress.pending| <= rules.nTargets
    {
    }

    /** The list is read up to the end of what is pending. */
    lemma ListedIsSeen()
      requires Valid()
      ensures Listed(polled[..]) == Listed(Seen(progress))
    {
      ListedPad(Seen(progress), polled[..]);
    }

    /** _accept_item: if acceptable, an item becomes the next pick. */
    method AcceptItem(slot: Slot, loc: Loc, d: Dist) returns (ok: bool)
      requires Valid() && next < rules.nTargets && slot.items != []
      modifies this`next, this`counters, this`progress, polled
      ensures Valid() && ok == old(Acceptable(rules, slot, progress, loc, d))
      ensures progress == if ok then Took(old(progress), loc) else old(progress)
    {
      hide Tally, Listed, TooPopular, TooClose;
      ListedIsSeen();
      ok := false;
      var close := ItemIsTooClose(rules.avoids, loc, 1);
      if close {
        return;
      }
      close := ItemIsTooClose(polled[..], loc, d);
      if close {
        return;
      }
      var popular := ItemIsTooPopular(rules.maxima, rules.nTargets, slot, counters, loc);
      if popular {
        return;
      }
      ok := true;
      Take(loc);
    }

    method Take(loc: Loc)
      requires Valid() && next < rules.nTargets
      modifies this`next, this`counters, this`progress, polled
      ensures Valid() && progress == Took(old(progress), loc)
    {
      hide Tally;
      TallyAppend(progress.counted, loc);
      ghost var p := progress;
      ghost var seen := polled[..];
      polled[next] := loc;
      counters := Incr(counters, loc);
      next := next + 1;
      progress := Took(p, loc);
      ghost var end := next + |progress.pending|;
      assert polled[..end] == Seen(progress);
    }

    /** _local_target__is_satisfied: a pending location that stands for a target is moved to the front, and
        no longer pending. */
    method IsSatisfied(w: State, pool: Pool, target: seq<Name>, strict: bool) returns (r: Option<nat>)
      requires Valid() && next < rules.nTargets
      modifies this`next, this`progress, polled
      ensures Valid() && r == Match(w, pool.joker, target, old(progress).pending, strict)
      ensures progress == if r.Some? then Matched(old(progress), r.value) else old(progress)
      ensures old(progress).pending != [] && target != [] && target[0] == pool.joker ==> r == Some(0)
      ensures r.Some? ==> 0 < next < polled.Length && polled[next - 1] == old(progress).pending[r.value]
    {
      hide SlotHas, Tally;
      if polled[next] == 0 {
        return None;
      }
      if target != [] && target[0] == pool.joker {
        Bring(0);
        return Some(0);
      }
      var m := 0;
      while m < |target|
        invariant 0 <= m <= |target| && Valid() && progress == old(progress) && next == old(next)
        invariant MatchFrom(w, target, progress.pending, strict, m) == MatchFrom(w, target, progress.pending, strict, 0)
      {
        var k := Lookup(w.slots, target[m]);
        if k >= 0 {
          var i := FirstIn(w.items, w.slots[k], strict);
          if i.Some? {
            Bring(i.value);
            return i;
          }
          if strict {
            return None;
          }
        }
        m := m + 1;
      }
      return None;
    }

    /** The scan of the pending locations, up to a zero. */
    method FirstIn(items: Items, slot: Slot, strict: bool) returns (r: Option<nat>)
      requires Valid() && polled[next] != 0
      ensures
        var i := FirstHeld(items, slot, progress.pending, strict, 0);
        if r.Some? then r.value == i else i == -1
    {
      hide SlotHas, Tally;
      var i := 0;
      while polled[next + i] != 0
        invariant 0 <= i <= |progress.pending|
        invariant FirstHeld(items, slot, progress.pending, strict, i) == FirstHeld(items, slot, progress.pending, strict, 0)
        decreases |progress.pending| - i
      {
        assert polled[next + i] == Seen(progress)[next + i];
        if SlotHas(items, slot, polled[next + i], strict) {
          return Some(i);
        }
        i := i + 1;
      }
      return None;
    }

    /** The swap that brings a pending location to the front. */
    method Bring(i: nat)
      requires Valid() && i < |progress.pending|
      modifies this`next, this`progress, polled
      ensures Valid() && progress == Matched(old(progress), i)
      ensures 0 < next < polled.Length && polled[next - 1] == old(progress).pending[i]
    {
      hide Tally;
      ghost var p := progress;
      assert polled[next] == p.pending[0] && polled[next + i] == p.pending[i];
      if i > 0 {
        polled[next], polled[next + i] := polled[next + i], polled[next];
      }
      next := next + 1;
      progress := Matched(p, i);
      ghost var end := next + |progress.pending|;
      assert polled[..end] == Seen(progress);
    }

    /** After `n` refusals, nothing changed. */
    ghost predicate Looked(items: Items, slot: Slot, d: Dist, first: nat, attempts: nat, p: Progress, n: nat)
      reads `next, `counters, `progress, polled
      requires Valid() && Pollable(slot)
    {
      progress == p && Refused(rules, items, slot, p, d, random, first, attempts, n)
    }

    /** A pick after `n - 1` refusals, and what it changed. */
    ghost predicate Accepted(items: Items, slot: Slot, d: Dist, first: nat, attempts: nat, p: Progress, n: nat, i: nat)
      reads `next, `counters, `progress, polled
      requires Valid() && Pollable(slot)
    {
      && 0 < n <= attempts + |slot.items| && i == Visit(slot, random, first, attempts, n - 1)
      && Acceptable(rules, slot, p, LocOf(items, slot.items[i].id), d)
      && progress == Took(p, LocOf(items, slot.items[i].id))
      && Refused(rules, items, slot, p, d, random, first, attempts, n - 1)
    }

    /** The weighted draws. */
    method DrawItems(items: Items, slot: Slot, d: Dist, attempts: nat) returns (ok: bool, i: nat, ghost n: nat)
      requires Valid() && next < rules.nTargets && Pollable(slot)
      modifies this, polled
      ensures Valid() && draws == old(draws) + n && n <= attempts
      ensures ok ==> Accepted(items, slot, d, old(draws), attempts, old(progress), n, i)
      ensures !ok ==> n == attempts && Looked(items, slot, d, old(draws), attempts, old(progress), n)
      ensures !ok ==> next == old(next) && i == StartOf(slot, random, old(draws), attempts)
    {
      hide Acceptable, Drawn, Refused, Visit, StartOf, Walk.At, LocOf;
      NoneRefused(rules, items, slot, progress, d, random, draws, attempts);
      ghost var p, first := progress, draws;
      ok, i, n := false, 0, 0;
      NothingDrawn(slot, random, first);
      var attempt: nat := 0;
      while attempt < attempts
        invariant attempt <= attempts && draws == first + attempt && n == attempt && !ok
        invariant Valid() && Looked(items, slot, d, first, attempts, p, n) && next == old(next)
        invariant i == StartOf(slot, random, first, attempt)
      {
        VisitDrawn(slot, random, first, attempts, attempt);
        i := Drawn(slot, random, draws);
        draws, n := draws + 1, n + 1;
        ok := AcceptItem(slot, LocOf(items, slot.items[i].id), d);
        if ok {
          return;
        }
        RefusedMore(rules, items, slot, p, d, random, first, attempts, attempt);
        attempt := attempt + 1;
      }
    }

    /** The walk over the whole slot. */
    method WalkItems(items: Items, slot: Slot, d: Dist, start: nat, ghost first: nat, ghost attempts: nat)
      returns (ok: bool, i: nat, ghost n: nat)
      requires Valid() && next < rules.nTargets && Pollable(slot) && start == StartOf(slot, random, first, attempts)
      requires Looked(items, slot, d, first, attempts, progress, attempts)
      modifies this`next, this`counters, this`progress, polled
      ensures Valid() && attempts <= n <= attempts + |slot.items|
      ensures ok ==> Accepted(items, slot, d, first, attempts, old(progress), n, i)
      ensures !ok ==> n == attempts + |slot.items| && Looked(items, slot, d, first, attempts, old(progress), n)
    {
      hide Acceptable, Drawn, StartOf, Walk.At, Refused;
      ghost var p := progress;
      ok, i, n := false, start, attempts;
      var len := |slot.items|;
      var iter: nat := 0;
      Walk.AtStart(start, slot.jump, len);
      while iter < len
        invariant iter <= len && i == Walk.At(start, slot.jump, len, iter) && n == attempts + iter && !ok
        invariant Valid() && Looked(items, slot, d, first, attempts, p, n) && next == old(next)
      {
        Walk.AtStep(start, slot.jump, len, iter);
        i := (i + slot.jump) % len;
        assert i == Visit(slot, random, first, attempts, n);
        iter, n := iter + 1, n + 1;
        ok := AcceptItem(slot, LocOf(items, slot.items[i].id), d);
        if ok {
          return;
        }
        RefusedMore(rules, items, slot, p, d, random, first, attempts, n - 1);
      }
    }

    /** The item that the next random number draws can be picked. */
    ghost predicate CanDraw(items: Items, slot: Slot, d: Dist)
      reads `next, `counters, `progress, `draws, polled
      requires Valid()
    {
      Pollable(slot) && Acceptable(rules, slot, progress, LocOf(items, slot.items[Drawn(slot, random, draws)].id), d)
    }

    /** _local_slot__poll: some draws, then a walk over the whole slot; the first acceptable item is picked. */
    method PollSlot(items: Items, slot: Slot, d: Dist, attempts: nat) returns (r: Option<nat>, ghost n: nat)
      requires Valid() && next < rules.nTargets
      modifies this, polled
      ensures Valid()
      ensures !Pollable(slot) ==> r.None? && draws == old(draws)
      ensures Pollable(slot) ==> draws == old(draws) + (if n < attempts then n else attempts)
      ensures Pollable(slot) && r.None? ==>
        n == attempts + |slot.items| && Looked(items, slot, d, old(draws), attempts, old(progress), n)
      ensures r.Some? ==> Pollable(slot) && Accepted(items, slot, d, old(draws), attempts, old(progress), n, r.value)
      ensures r.None? ==> progress == old(progress)
      ensures Pollable(slot) && Weighted(slot) ==>
        forall k: nat :: k < attempts ==>
          Reaches(slot, random(old(draws) + k) % slot.sumWeight, Visit(slot, random, old(draws), attempts, k))
      ensures attempts > 0 && old(CanDraw(items, slot, d)) ==>
        r == Some(Drawn(slot, random, old(draws))) && draws == old(draws) + 1
    {
      hide Refused, StartOf, Acceptable, Drawn, Reaches, Visit, Weighted, Valid, LocOf;
      n := 0;
      if slot.items == [] || slot.sumWeight == 0 {
        return None, n;
      }
      ghost var first := draws;
      var ok, i;
      ghost var p := progress;
      ok, i, n := DrawItems(items, slot, d, attempts);
      if attempts > 0 {
        VisitDrawn(slot, random, first, attempts, 0);
        if !ok { FirstRefused(rules, items, slot, p, d, random, first, attempts, n); }
        if ok && n > 1 { FirstRefused(rules, items, slot, p, d, random, first, attempts, n - 1); }
      }
      if ok {
        return Some(i), n;
      }
      ok, i, n := WalkItems(items, slot, d, i, first, attempts);
      return if ok then Some(i) else None, n;
    }

    /** _local_target__poll: the slots of a target, in order. */
    method PollTarget(w: State, pool: Pool, target: seq<Name>, d: Dist, bypass: bool, attempts: nat)
      returns (r: Option<Selected>)
      requires Valid() && next < rules.nTargets && pool.minDist <= d
      modifies this, polled
      ensures Valid()
      ensures r.Some? ==> progress == Took(old(progress), r.value.location)
      ensures r.Some? ==> pool.minDist <= r.value.finalDist <= d
      ensures r.Some? ==> Picked(rules, w, target, old(progress), r.value, r.value.finalDist)
      ensures r.Some? && AllWalkable(w) ==>
        PickedAt(rules, w, target, old(progress), d, SlackOf(pool, target, bypass), r.value)
      ensures r.None? ==> progress == old(progress)
      ensures r.None? && AllWalkable(w) ==> !ServesAt(rules, w, target, old(progress), d, SlackOf(pool, target, bypass))
      ensures old(Hit(rules, w, target, progress, d, SlackOf(pool, target, bypass), attempts, random, draws)) ==>
        r.Some? && DrawnIs(w, target, random, old(draws), r.value) && draws == old(draws) + 1
    {
      hide Acceptable, Walk.Coprime, Visit, Refused, Valid, Took, Drawn, Relaxed, Reaches, Weighted, Crowded, Similar;
      if target == [] {
        return None;
      }
      ghost var p := progress;
      NextIs();
      var similar := CountSimilar(pool.targets, target);
      var slack := Slack(pool.minDist, bypass, similar);
      var m := 0;
      while m < |target|
        invariant Valid() && progress == p && next < rules.nTargets && 0 <= m <= |target|
        invariant AllWalkable(w) ==> !ServesAt(rules, w, target[..m], p, d, slack)
        invariant m == 0 ==> draws == old(draws)
        invariant m > 0 ==> !Hit(rules, w, target, p, d, slack, attempts, random, old(draws))
      {
        var k := Lookup(w.slots, target[m]);
        if k >= 0 {
          var slot := w.slots[k];
          var dist := Relaxed(slot, d, slack);
          ghost var first := draws;
          var i, n := PollSlot(w.items, slot, dist, attempts);
          if i.Some? {
            var id := slot.items[i.value].id;
            return Some(Selected(id, LocOf(w.items, id), target[m], dist));
          }
          NextIs();
          if Pollable(slot) && Walkable(slot) {
            RefusedAll(rules, w.items, slot, p, dist, random, first, attempts);
          }
        }
        m := m + 1;
      }
      assert target[..m] == target;
      return None;
    }

    /** A target, from the greatest distance down to the least one. */
    method PollDistances(w: State, pool: Pool, target: seq<Name>, maxDist: Dist, bypass: bool, attempts: nat)
      returns (r: Option<Selected>)
      requires Valid() && next < rules.nTargets && pool.minDist >= 1
      modifies this, polled
      ensures Valid()
      ensures r.Some? ==> progress == Took(old(progress), r.value.location)
      ensures r.Some? ==> pool.minDist <= r.value.finalDist <= maxDist
      ensures r.Some? ==> Picked(rules, w, target, old(progress), r.value, r.value.finalDist)
      ensures r.Some? && AllWalkable(w) ==>
        Best(rules, w, target, old(progress), maxDist, SlackOf(pool, target, bypass), r.value)
      ensures r.None? ==> progress == old(progress)
      ensures r.None? && AllWalkable(w) ==>
        forall d: Dist :: pool.minDist <= d <= maxDist ==> !Serves(rules, w, target, old(progress), d)
      ensures old(Hit(rules, w, target, progress, maxDist, SlackOf(pool, target, bypass), attempts, random, draws)) ==>
        r.Some? && DrawnIs(w, target, random, old(draws), r.value) && draws == old(draws) + 1
    {
      hide Picked, Serves, ServesAt, AllWalkable, PickedAt, DrawnIs, Acceptable, Drawn, Valid;
      ghost var p := progress;
      ghost var slack := SlackOf(pool, target, bypass);
      NextIs();
      var dist: int := maxDist;
      while dist >= pool.minDist
        invariant Valid() && progress == p && next < rules.nTargets
        invariant dist <= maxDist && (pool.minDist - 1 <= dist || dist == maxDist)
        invariant AllWalkable(w) ==>
          forall d: Dist :: dist < d <= maxDist && pool.minDist <= d ==> !ServesAt(rules, w, target, p, d, slack)
        invariant dist == maxDist ==> draws == old(draws)
        invariant dist < maxDist ==> !Hit(rules, w, target, p, maxDist, slack, attempts, random, old(draws))
      {
        r := PollTarget(w, pool, target, dist, bypass, attempts);
        if r.Some? {
          return;
        }
        NextIs();
        dist := dist - 1;
      }
      if AllWalkable(w) {
        forall d: Dist | pool.minDist <= d <= maxDist ensures !Serves(rules, w, target, p, d) {
          NothingServes(rules, w, target, p, slack, d);
        }
      }
      return None;
    }
  }
}
