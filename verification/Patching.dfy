/**
 The whole poll (core/lb.c): known locations first stand for the targets whose main slot
 has them, then each target left is given a known location or a pick.
 */
module Patching {
  import opened Basics
  import opened Location
  import opened WorldSpec
  import opened Matching
  import opened Poll

  const ALL_ONES: Loc := 0xFFFF_FFFF_FFFF_FFFF

  /** What serves a target: a pending location, by its rank, or a pick. */
  datatype Choice =
    | Known(target: nat, strict: bool, rank: nat, location: Loc)
    | Pick(target: nat, selected: Selected)

  /** The choices that are picks are told to the caller. */
  datatype Answer = BadRequest | NotSatisfiable | Satisfied(selection: seq<Choice>)

  function At(c: Choice): Loc { if c.Known? then c.location else c.selected.location }

  function Locations(run: seq<Choice>): seq<Loc> { seq(|run|, j requires 0 <= j < |run| => At(run[j])) }

  function TargetsOf(run: seq<Choice>): seq<nat> { seq(|run|, j requires 0 <= j < |run| => run[j].target) }

  function Next(p: Progress, c: Choice): Progress {
    match c
    case Known(_, _, rank, _) => if rank < |p.pending| then Matched(p, rank) else p
    case Pick(_, sel) => Took(p, sel.location)
  }

  /** Where choices lead. */
  function After(known: seq<Loc>, run: seq<Choice>): Progress {
    if run == [] then Start(known) else Next(After(known, run[..|run| - 1]), run[|run| - 1])
  }

  function MinDist(a: nat, b: Dist): (r: Dist)
    ensures r <= a && r <= b && (r == a || r == b)
  {
    if a < b then a else b
  }

  // ---- What a poll does --------------------------------------------------------------------------------

  /** A choice that may follow others. */
  ghost predicate Link(rules: Rules, w: State, pool: Pool, maxDist: Dist, p: Progress, c: Choice)
    requires rules.nTargets > 0
  {
    && c.target < |pool.targets|
    && match c
       case Known(t, strict, rank, loc) =>
         && rank < |p.pending| && loc == p.pending[rank]
         && Match(w, pool.joker, pool.targets[t], p.pending, strict) == Some(rank)
       case Pick(t, sel) =>
         pool.minDist <= sel.finalDist <= maxDist && Picked(rules, w, pool.targets[t], p, sel, sel.finalDist)
  }

  /** Each choice may follow those before it. */
  ghost predicate Chain(rules: Rules, w: State, pool: Pool, maxDist: Dist, known: seq<Loc>, run: seq<Choice>) {
    && rules.nTargets == |pool.targets| > 0 && |run| <= |pool.targets|
    && forall j :: 0 <= j < |run| ==> Link(rules, w, pool, maxDist, After(known, run[..j]), run[j])
  }

  /** The choices of the first pass, over some targets, and the targets that it leaves. */
  datatype Pass = Pass(run: seq<Choice>, left: seq<nat>)

  function PassOver(w: State, pool: Pool, known: seq<Loc>, q: Pass, t: nat): Pass
    requires t < |pool.targets|
  {
    var pending := After(known, q.run).pending;
    match Match(w, pool.joker, pool.targets[t], pending, true)
    case Some(i) => q.(run := q.run + [Known(t, true, i, pending[i])])
    case None => q.(left := q.left + [t])
  }

  function StrictPass(w: State, pool: Pool, known: seq<Loc>, t: nat): Pass
    requires t <= |pool.targets|
  {
    if t == 0 then Pass([], []) else PassOver(w, pool, known, StrictPass(w, pool, known, t - 1), t - 1)
  }

  /** The first pass, then the targets that it left, in order: a pending location if there is one, else a pick. */
  ghost predicate InOrder(w: State, pool: Pool, known: seq<Loc>, run: seq<Choice>) {
    var q := StrictPass(w, pool, known, |pool.targets|);
    var m := |q.run|;
    && m <= |run| <= m + |q.left| && run[..m] == q.run
    && forall j :: m <= j < |run| ==>
      && run[j].target == q.left[j - m] < |pool.targets|
      && (run[j].Known? ==> !run[j].strict)
      && (run[j].Pick? ==>
        Match(w, pool.joker, pool.targets[run[j].target], After(known, run[..j]).pending, false).None?)
  }

  /** Some choices, then the pending locations that the next targets take, up to the first target with none. */
  function LooseMatches(w: State, pool: Pool, known: seq<Loc>, run: seq<Choice>, left: seq<nat>): seq<Choice>
    decreases |left|
  {
    if left == [] || left[0] >= |pool.targets| then run
    else
      var pending := After(known, run).pending;
      match Match(w, pool.joker, pool.targets[left[0]], pending, false)
      case Some(i) => LooseMatches(w, pool, known, run + [Known(left[0], false, i, pending[i])], left[1..])
      case None => run
  }

  /** The choices before the first pick, which no random number influences. */
  function Prelude(w: State, pool: Pool, known: seq<Loc>): seq<Choice> {
    var q := StrictPass(w, pool, known, |pool.targets|);
    LooseMatches(w, pool, known, q.run, q.left)
  }

  /** The known locations that no target takes before the first pick. */
  function Unclaimed(w: State, pool: Pool, known: seq<Loc>): seq<Loc> { After(known, Prelude(w, pool, known)).pending }

  /** Each pick was made at the greatest distance at which there was one, in the first slot that had one. */
  ghost predicate Greedy(rules: Rules, w: State, pool: Pool, maxDist: Dist, known: seq<Loc>, run: seq<Choice>, bypass: bool) {
    && rules.nTargets > 0 && |run| <= |pool.targets|
    && forall j :: 0 <= j < |run| && run[j].Pick? ==>
      && run[j].target < |pool.targets|
      && Best(rules, w, pool.targets[run[j].target], After(known, run[..j]), maxDist,
              SlackOf(pool, pool.targets[run[j].target], bypass), run[j].selected)
  }

  function Picks(run: seq<Choice>): nat {
    if run == [] then 0 else Picks(run[..|run| - 1]) + (if run[|run| - 1].Pick? then 1 else 0)
  }

  /** The random numbers of a poll, and how many of them each slot may draw with. */
  datatype Chance = Chance(attempts: nat, random: nat -> nat)

  /** Of the choices up to one, each pick could be the item drawn by the number of the same rank. */
  ghost predicate AllHit(rules: Rules, w: State, pool: Pool, maxDist: Dist, known: seq<Loc>, run: seq<Choice>, bypass: bool,
                         chance: Chance, n: nat)
    requires rules.nTargets > 0 && n <= |run|
  {
    forall j :: 0 <= j < n && run[j].Pick? ==>
      && run[j].target < |pool.targets|
      && Hit(rules, w, pool.targets[run[j].target], After(known, run[..j]), maxDist,
             SlackOf(pool, pool.targets[run[j].target], bypass), chance.attempts, chance.random, Picks(run[..j]))
  }

  /** As long as each random number draws an item that can be picked, the picks are the items drawn, in turn. */
  ghost predicate InTurn(rules: Rules, w: State, pool: Pool, maxDist: Dist, known: seq<Loc>, run: seq<Choice>, bypass: bool,
                         chance: Chance)
  {
    && rules.nTargets > 0
    && forall j :: 0 <= j < |run| && run[j].Pick? && AllHit(rules, w, pool, maxDist, known, run, bypass, chance, j + 1) ==>
      && run[j].target < |pool.targets|
      && DrawnIs(w, pool.targets[run[j].target], chance.random, Picks(run[..j]), run[j].selected)
  }

  /** The next target has no pending location, and no pick at any distance allowed. */
  ghost predicate Stuck(rules: Rules, w: State, pool: Pool, maxDist: Dist, known: seq<Loc>, run: seq<Choice>) {
    var q := StrictPass(w, pool, known, |pool.targets|);
    var p := After(known, run);
    && rules.nTargets > 0 && 0 <= |run| - |q.run| < |q.left| && q.left[|run| - |q.run|] < |pool.targets|
    && var target := pool.targets[q.left[|run| - |q.run|]];
    && Match(w, pool.joker, target, p.pending, false).None?
    && forall d: Dist :: pool.minDist <= d <= maxDist ==> !Serves(rules, w, target, p, d)
  }

  /** The greatest distance, up to a limit, at which a location is not too close to the listed ones. */
  ghost predicate Farthest(locs: seq<Loc>, item: Loc, maxDist: Dist, dist: Dist) {
    && dist <= maxDist && !TooClose(Listed(locs), item, dist)
    && forall d: Dist :: dist < d <= maxDist ==> TooClose(Listed(locs), item, d)
  }

  /** The selection that answers a run: only the distances of the picks are recomputed. */
  ghost predicate Answers(run: seq<Choice>, maxDist: Dist, selection: seq<Choice>) {
    && |selection| == |run|
    && forall j :: 0 <= j < |run| ==> Redone(run, j, maxDist, selection[j])
  }

  ghost predicate Redone(run: seq<Choice>, j: nat, maxDist: Dist, c: Choice)
    requires j < |run|
  {
    match run[j]
    case Known(_, _, _, _) => c == run[j]
    case Pick(t, sel) =>
      && c.Pick? && c == Pick(t, sel.(finalDist := c.selected.finalDist))
      && Farthest(Locations(run)[j := ALL_ONES], sel.location, maxDist, c.selected.finalDist)
  }

  // ---- Steps -----------------------------------------------------------------------------------------------

  lemma AfterGrows(known: seq<Loc>, run: seq<Choice>, c: Choice)
    ensures After(known, run + [c]) == Next(After(known, run), c)
    ensures Locations(run + [c]) == Locations(run) + [At(c)]
    ensures forall j :: 0 <= j <= |run| ==> (run + [c])[..j] == run[..j]
    ensures run[..|run|] == run
  {
    assert (run + [c])[..|run|] == run;
  }

  lemma ChainGrows(rules: Rules, w: State, pool: Pool, maxDist: Dist, known: seq<Loc>, run: seq<Choice>, c: Choice)
    requires Chain(rules, w, pool, maxDist, known, run) && |run| < |pool.targets|
    requires Link(rules, w, pool, maxDist, After(known, run), c)
    ensures Chain(rules, w, pool, maxDist, known, run + [c])
  {
    hide Link, After;
    AfterGrows(known, run, c);
  }

  lemma InOrderGrows(w: State, pool: Pool, known: seq<Loc>, run: seq<Choice>, c: Choice)
    requires InOrder(w, pool, known, run)
    requires
      var q := StrictPass(w, pool, known, |pool.targets|);
      && |run| - |q.run| < |q.left| && c.target == q.left[|run| - |q.run|] < |pool.targets|
      && (c.Known? ==> !c.strict)
      && (c.Pick? ==> Match(w, pool.joker, pool.targets[c.target], After(known, run).pending, false).None?)
    ensures InOrder(w, pool, known, run + [c])
  {
    hide Match, After, StrictPass;
    AfterGrows(known, run, c);
  }

  lemma GreedyGrows(rules: Rules, w: State, pool: Pool, maxDist: Dist, known: seq<Loc>, run: seq<Choice>, bypass: bool,
                    c: Choice)
    requires Greedy(rules, w, pool, maxDist, known, run, bypass) && |run| < |pool.targets| && c.target < |pool.targets|
    requires c.Pick? ==>
      Best(rules, w, pool.targets[c.target], After(known, run), maxDist, SlackOf(pool, pool.targets[c.target], bypass), c.selected)
    ensures Greedy(rules, w, pool, maxDist, known, run + [c], bypass)
  {
    hide Best, After, SlackOf;
    AfterGrows(known, run, c);
  }

  lemma AllHitSame(rules: Rules, w: State, pool: Pool, maxDist: Dist, known: seq<Loc>, run: seq<Choice>, bypass: bool,
                   chance: Chance, c: Choice, n: nat)
    requires rules.nTargets > 0 && n <= |run|
    ensures AllHit(rules, w, pool, maxDist, known, run + [c], bypass, chance, n)
      <==> AllHit(rules, w, pool, maxDist, known, run, bypass, chance, n)
  {
    hide Hit, After, SlackOf, Picks;
    AfterGrows(known, run, c);
    assert forall j :: 0 <= j < |run| ==> (run + [c])[j] == run[j];
  }

  /** The next choice: its rank among the picks is the number of draws, if all hit so far. */
  lemma InTurnGrows(rules: Rules, w: State, pool: Pool, maxDist: Dist, known: seq<Loc>, run: seq<Choice>, bypass: bool,
                    chance: Chance, c: Choice, draws: nat, later: nat)
    requires InTurn(rules, w, pool, maxDist, known, run, bypass, chance) && c.target < |pool.targets|
    requires AllHit(rules, w, pool, maxDist, known, run, bypass, chance, |run|) ==> draws == Picks(run)
    requires c.Known? ==> later == draws
    requires
      var target := pool.targets[c.target];
      c.Pick? && Hit(rules, w, target, After(known, run), maxDist, SlackOf(pool, target, bypass), chance.attempts,
                     chance.random, draws) ==>
        DrawnIs(w, target, chance.random, draws, c.selected) && later == draws + 1
    ensures InTurn(rules, w, pool, maxDist, known, run + [c], bypass, chance)
    ensures AllHit(rules, w, pool, maxDist, known, run + [c], bypass, chance, |run| + 1) ==> later == Picks(run + [c])
  {
    hide Hit, After, SlackOf, DrawnIs;
    var longer := run + [c];
    AfterGrows(known, run, c);
    assert Picks(longer) == Picks(longer[..|run|]) + (if c.Pick? then 1 else 0);
    forall n | 0 <= n <= |run|
      ensures AllHit(rules, w, pool, maxDist, known, longer, bypass, chance, n)
        <==> AllHit(rules, w, pool, maxDist, known, run, bypass, chance, n)
    {
      AllHitSame(rules, w, pool, maxDist, known, run, bypass, chance, c, n);
    }
    if AllHit(rules, w, pool, maxDist, known, longer, bypass, chance, |longer|) {
      LastHit(rules, w, pool, maxDist, known, longer, bypass, chance);
    }
  }

  lemma LastHit(rules: Rules, w: State, pool: Pool, maxDist: Dist, known: seq<Loc>, run: seq<Choice>, bypass: bool,
                chance: Chance)
    requires rules.nTargets > 0 && run != []
    requires AllHit(rules, w, pool, maxDist, known, run, bypass, chance, |run|)
    ensures AllHit(rules, w, pool, maxDist, known, run, bypass, chance, |run| - 1)
    ensures
      var n := |run| - 1;
      run[n].Pick? ==>
        && run[n].target < |pool.targets|
        && Hit(rules, w, pool.targets[run[n].target], After(known, run[..n]), maxDist,
               SlackOf(pool, pool.targets[run[n].target], bypass), chance.attempts, chance.random, Picks(run[..n]))
  {
    hide Hit, After, SlackOf, Picks;
  }

  function Upto(t: nat): seq<nat> { seq(t, i requires 0 <= i < t => i) }

  ghost predicate Splits(q: Pass, t: nat) {
    && multiset(TargetsOf(q.run)) + multiset(q.left) == multiset(Upto(t)) && |q.run| + |q.left| == t
    && forall i :: 0 <= i < |q.left| ==> q.left[i] < t
  }

  lemma SplitsOn(w: State, pool: Pool, known: seq<Loc>, q: Pass, t: nat)
    requires t < |pool.targets| && Splits(q, t)
    ensures Splits(PassOver(w, pool, known, q, t), t + 1)
  {
    hide Match, After;
    var r := PassOver(w, pool, known, q, t);
    assert Upto(t + 1) == Upto(t) + [t];
    if r.left == q.left {
      assert TargetsOf(r.run) == TargetsOf(q.run) + [t];
    } else {
      assert r.left == q.left + [t];
    }
  }

  /** The first pass splits the targets into those that it serves and those that it leaves. */
  lemma {:induction false} StrictSplits(w: State, pool: Pool, known: seq<Loc>, t: nat)
    requires t <= |pool.targets|
    ensures Splits(StrictPass(w, pool, known, t), t)
  {
    hide PassOver, Splits;
    if t == 0 {
      NothingSplits();
    } else {
      StrictSplits(w, pool, known, t - 1);
      SplitsOn(w, pool, known, StrictPass(w, pool, known, t - 1), t - 1);
    }
  }

  /** The first pass leaves a target only if no location that it leaves stands for it strictly. */
  lemma {:induction false} StrictLeaves(w: State, pool: Pool, known: seq<Loc>, t: nat, i: nat)
    requires t <= |pool.targets| && i < |StrictPass(w, pool, known, t).left|
    ensures
      var q := StrictPass(w, pool, known, t);
      q.left[i] < t && Match(w, pool.joker, pool.targets[q.left[i]], After(known, q.run).pending, true).None?
  {
    hide Match, After;
    var q, r := StrictPass(w, pool, known, t - 1), StrictPass(w, pool, known, t);
    if i < |q.left| {
      StrictLeaves(w, pool, known, t - 1, i);
      if r.run != q.run {
        var c := r.run[|q.run|];
        AfterGrows(known, q.run, c);
        SwapOutShrinks(After(known, q.run).pending, c.rank);
        NoMatchInFewer(w, pool.joker, pool.targets[q.left[i]], After(known, q.run).pending, After(known, r.run).pending, true);
      }
    }
  }

  /** After the first pass over the targets, no location still pending is in the main slot of a target that is
      left, and no joker is left but for lack of locations. */
  lemma StrictIsExhaustive(w: State, pool: Pool, known: seq<Loc>, i: nat, x: Loc)
    requires i < |StrictPass(w, pool, known, |pool.targets|).left| && AllSorted(w)
    requires x in After(known, StrictPass(w, pool, known, |pool.targets|).run).pending
    ensures
      var q := StrictPass(w, pool, known, |pool.targets|);
      && q.left[i] < |pool.targets|
      && var target := pool.targets[q.left[i]];
      !TargetHolds(w, target, x, true) && (target == [] || target[0] != pool.joker)
  {
    hide StrictPass, After, TargetHolds, MatchFrom, AllSorted;
    StrictLeaves(w, pool, known, |pool.targets|, i);
    var q := StrictPass(w, pool, known, |pool.targets|);
    var target := pool.targets[q.left[i]];
    assert target == [] || target[0] != pool.joker;
    MatchIs(w, pool.joker, target, After(known, q.run).pending, true);
  }

  lemma NothingSplits()
    ensures Splits(Pass([], []), 0)
  {
  }

  /** A complete run serves each target, once. */
  lemma EachOnce(w: State, pool: Pool, known: seq<Loc>, run: seq<Choice>)
    requires InOrder(w, pool, known, run) && |run| == |pool.targets|
    ensures multiset(TargetsOf(run)) == multiset(Upto(|pool.targets|))
  {
    hide StrictPass, After, Match;
    StrictSplits(w, pool, known, |pool.targets|);
    var q := StrictPass(w, pool, known, |pool.targets|);
    assert TargetsOf(run) == TargetsOf(q.run) + q.left;
  }

  // ---- The code ----------------------------------------------------------------------------------------------

  lemma NothingDone(rules: Rules, w: State, pool: Pool, maxDist: Dist, known: seq<Loc>)
    requires rules.nTargets == |pool.targets| > 0
    ensures After(known, []) == Start(known) && Chain(rules, w, pool, maxDist, known, [])
  {
  }

  lemma LinkPlaces(rules: Rules, w: State, pool: Pool, maxDist: Dist, p: Progress, c: Choice)
    requires rules.nTargets > 0 && Link(rules, w, pool, maxDist, p, c)
    ensures Next(p, c).done == p.done + [At(c)]
  {
    hide Match, Picked, SwapOut;
  }

  /** The locations in place are those of the choices. */
  lemma {:induction false} DoneIs(rules: Rules, w: State, pool: Pool, maxDist: Dist, known: seq<Loc>, run: seq<Choice>)
    requires Chain(rules, w, pool, maxDist, known, run)
    ensures After(known, run).done == Locations(run)
  {
    hide Link, Next, After;
    if run == [] {
      NothingDone(rules, w, pool, maxDist, known);
    } else {
      var n := |run| - 1;
      var before := run[..n];
      assert run == before + [run[n]];
      AfterGrows(known, before, run[n]);
      DoneIs(rules, w, pool, maxDist, known, before);
      LinkPlaces(rules, w, pool, maxDist, After(known, before), run[n]);
    }
  }

  /** _match_known_services_with_targets */
  method MatchKnown(ctx: Polling, w: State, pool: Pool, ghost known: seq<Loc>, ghost maxDist: Dist)
    returns (run: seq<Choice>, left: seq<nat>)
    requires ctx.Valid() && ctx.progress == Start(known) && ctx.rules.nTargets == |pool.targets| > 0
    modifies ctx`next, ctx`progress, ctx.polled
    ensures ctx.Valid() && ctx.progress == After(known, run)
    ensures Pass(run, left) == StrictPass(w, pool, known, |pool.targets|)
    ensures Chain(ctx.rules, w, pool, maxDist, known, run) && forall j :: 0 <= j < |run| ==> run[j].Known?
  {
    hide Match, After, Chain, Matched, Polling.Valid;
    run, left := [], [];
    NothingDone(ctx.rules, w, pool, maxDist, known);
    var t := 0;
    while t < |pool.targets|
      invariant 0 <= t <= |pool.targets| && ctx.Valid() && ctx.progress == After(known, run)
      invariant Pass(run, left) == StrictPass(w, pool, known, t) && |run| <= t
      invariant Chain(ctx.rules, w, pool, maxDist, known, run) && forall j :: 0 <= j < |run| ==> run[j].Known?
    {
      DoneIs(ctx.rules, w, pool, maxDist, known, run);
      ctx.NextIs();
      var r := ctx.IsSatisfied(w, pool, pool.targets[t], true);
      if r.Some? {
        var c := Known(t, true, r.value, ctx.polled[ctx.next - 1]);
        ChainGrows(ctx.rules, w, pool, maxDist, known, run, c);
        AfterGrows(known, run, c);
        run := run + [c];
      } else {
        left := left + [t];
      }
      t := t + 1;
    }
  }

  /** A target that was left: a pending location if there is one, else a pick. */
  method ServeTarget(ctx: Polling, w: State, pool: Pool, t: nat, maxDist: Dist, bypass: bool, attempts: nat)
    returns (r: Option<Choice>)
    requires ctx.Valid() && ctx.next < ctx.rules.nTargets && t < |pool.targets| && pool.minDist >= 1
    modifies ctx, ctx.polled
    ensures ctx.Valid() && ctx.progress == if r.Some? then Next(old(ctx.progress), r.value) else old(ctx.progress)
    ensures r.Some? ==> r.value.target == t && Link(ctx.rules, w, pool, maxDist, old(ctx.progress), r.value)
    ensures r.Some? ==> if r.value.Known? then !r.value.strict else pool.minDist <= r.value.selected.finalDist
    ensures r.None? || r.value.Pick? ==> Match(w, pool.joker, pool.targets[t], old(ctx.progress).pending, false).None?
    ensures r.Some? && r.value.Pick? && AllWalkable(w) ==>
      Best(ctx.rules, w, pool.targets[t], old(ctx.progress), maxDist, SlackOf(pool, pool.targets[t], bypass), r.value.selected)
    ensures r.None? && AllWalkable(w) ==>
      forall d: Dist :: pool.minDist <= d <= maxDist ==> !Serves(ctx.rules, w, pool.targets[t], old(ctx.progress), d)
    ensures r.Some? && r.value.Known? ==> ctx.draws == old(ctx.draws)
    ensures r.Some? && r.value.Pick? && old(Hit(ctx.rules, w, pool.targets[t], ctx.progress, maxDist,
                                                SlackOf(pool, pool.targets[t], bypass), attempts, ctx.random, ctx.draws)) ==>
      DrawnIs(w, pool.targets[t], ctx.random, old(ctx.draws), r.value.selected) && ctx.draws == old(ctx.draws) + 1
  {
    hide Match, Matched, Took, Picked, Serves, AllWalkable, Best, Hit, DrawnIs, SlackOf, Polling.Valid;
    ctx.NextIs();
    var rank := ctx.IsSatisfied(w, pool, pool.targets[t], false);
    if rank.Some? {
      return Some(Known(t, false, rank.value, ctx.polled[ctx.next - 1]));
    }
    ctx.NextIs();
    var sel := ctx.PollDistances(w, pool, pool.targets[t], maxDist, bypass, attempts);
    return if sel.Some? then Some(Pick(t, sel.value)) else None;
  }

  /** How many known locations there are before a zero. */
  method CountKnown(known: seq<Loc>) returns (n: nat)
    ensures n == |Listed(known)| && n <= |known| && known[..n] == Listed(known)
    ensures forall i :: 0 <= i < n ==> known[i] != 0
  {
    n := 0;
    while n < |known| && known[n] != 0
      invariant n <= |known| && forall i :: 0 <= i < n ==> known[i] != 0
    {
      n := n + 1;
    }
    ListedIs(known, n);
  }

  /** __local__patch */
  method Patch(w: State, pool: Pool, avoids: seq<Loc>, known: seq<Loc>, maxima: Maxima, bypass: bool, attempts: nat,
               random: nat -> nat)
    returns (a: Answer, ghost run: seq<Choice>)
    requires pool.minDist >= 1
    ensures a.BadRequest? <==> |Listed(known)| >= |pool.targets|
    ensures a.Satisfied? ==> |run| == |pool.targets| && Answers(run, MinDist(w.absMaxDist, pool.initialDist), a.selection)
    ensures !a.BadRequest? ==>
      && Chain(Rules(avoids, maxima, |pool.targets|), w, pool, MinDist(w.absMaxDist, pool.initialDist), Listed(known), run)
      && InOrder(w, pool, Listed(known), run)
    ensures !a.BadRequest? && AllWalkable(w) ==>
      Greedy(Rules(avoids, maxima, |pool.targets|), w, pool, MinDist(w.absMaxDist, pool.initialDist), Listed(known), run, bypass)
    ensures a.NotSatisfiable? && AllWalkable(w) ==>
      Stuck(Rules(avoids, maxima, |pool.targets|), w, pool, MinDist(w.absMaxDist, pool.initialDist), Listed(known), run)
    ensures !a.BadRequest? ==>
      InTurn(Rules(avoids, maxima, |pool.targets|), w, pool, MinDist(w.absMaxDist, pool.initialDist), Listed(known), run, bypass,
             Chance(attempts, random))
  {
    hide Link, Serves, AllWalkable, Answers, Greedy, InOrder, StrictPass, Match, After, Next, Polling.Valid;
    hide Best, Hit, DrawnIs, SlackOf, InTurn, AllHit, Picks;
    run := [];
    var n := CountKnown(known);
    if n >= |pool.targets| {
      return BadRequest, run;
    }
    var maxDist := MinDist(w.absMaxDist, pool.initialDist);
    var rules := Rules(avoids, maxima, |pool.targets|);
    var ctx := new Polling(rules, known[..n], random);
    var selection, left := MatchKnown(ctx, w, pool, known[..n], maxDist);
    run := selection;
    ghost var chance := Chance(attempts, random);
    PassIsStart(rules, w, pool, maxDist, known[..n], run, bypass, chance);
    var served := 0;
    while served < |left|
      invariant 0 <= served <= |left| && ctx.Valid() && ctx.rules == rules && fresh(ctx) && fresh(ctx.polled)
      invariant selection == run && ctx.progress == After(known[..n], run) && |run| + |left| - served == |pool.targets|
      invariant Chain(rules, w, pool, maxDist, known[..n], run) && InOrder(w, pool, known[..n], run)
      invariant AllWalkable(w) ==> Greedy(rules, w, pool, maxDist, known[..n], run, bypass)
      invariant InTurn(rules, w, pool, maxDist, known[..n], run, bypass, chance)
      invariant AllHit(rules, w, pool, maxDist, known[..n], run, bypass, chance, |run|) ==> ctx.draws == Picks(run)
    {
      DoneIs(rules, w, pool, maxDist, known[..n], run);
      ctx.NextIs();
      ghost var draws := ctx.draws;
      var r := ServeTarget(ctx, w, pool, left[served], maxDist, bypass, attempts);
      if r.None? {
        return NotSatisfiable, run;
      }
      AfterGrows(known[..n], run, r.value);
      ChainGrows(rules, w, pool, maxDist, known[..n], run, r.value);
      InOrderGrows(w, pool, known[..n], run, r.value);
      if AllWalkable(w) { GreedyGrows(rules, w, pool, maxDist, known[..n], run, bypass, r.value); }
      InTurnGrows(rules, w, pool, maxDist, known[..n], run, bypass, chance, r.value, draws, ctx.draws);
      selection := selection + [r.value];
      run, served := selection, served + 1;
    }
    DoneIs(rules, w, pool, maxDist, known[..n], run);
    selection := SetDists(ctx, selection, maxDist);
    return Satisfied(selection), run;
  }

  lemma PassIsStart(rules: Rules, w: State, pool: Pool, maxDist: Dist, known: seq<Loc>, run: seq<Choice>, bypass: bool,
                    chance: Chance)
    requires run == StrictPass(w, pool, known, |pool.targets|).run && forall j :: 0 <= j < |run| ==> run[j].Known?
    requires rules.nTargets > 0
    ensures InOrder(w, pool, known, run) && Splits(StrictPass(w, pool, known, |pool.targets|), |pool.targets|)
    ensures Greedy(rules, w, pool, maxDist, known, run, bypass) && Picks(run) == 0
    ensures InTurn(rules, w, pool, maxDist, known, run, bypass, chance)
  {
    hide StrictPass, After, Match, Best;
    StrictSplits(w, pool, known, |pool.targets|);
    NoPicks(run);
  }

  lemma {:induction false} NoPicks(run: seq<Choice>)
    requires forall j :: 0 <= j < |run| ==> run[j].Known?
    ensures Picks(run) == 0
  {
    if run != [] { NoPicks(run[..|run| - 1]); }
  }

  /** The loop of __local__patch that recomputes the distance of each pick to the others. */
  method SetDists(ctx: Polling, run: seq<Choice>, maxDist: Dist) returns (selection: seq<Choice>)
    requires ctx.Valid() && |run| == ctx.rules.nTargets && ctx.progress.done == Locations(run)
    modifies ctx.polled
    ensures Answers(run, maxDist, selection)
  {
    hide Farthest;
    selection := run;
    ghost var locs := Locations(run);
    ctx.NextIs();
    var cur := 0;
    while cur < |run|
      invariant 0 <= cur <= |run| == |selection|
      invariant ctx.polled[..|run|] == locs && ctx.polled[|run|] == 0
      invariant forall j :: 0 <= j < cur ==> Redone(run, j, maxDist, selection[j])
      invariant forall j :: cur <= j < |run| ==> selection[j] == run[j]
    {
      if run[cur].Pick? {
        var kept := ctx.polled[cur];
        ctx.polled[cur] := ALL_ONES;
        assert ctx.polled[..|run|] == locs[cur := ALL_ONES];
        var dist := MinDistTo(ctx, locs[cur := ALL_ONES], run[cur].selected.location, maxDist);
        selection := selection[cur := Pick(run[cur].target, run[cur].selected.(finalDist := dist))];
        ctx.polled[cur] := kept;
        assert ctx.polled[..|run|] == locs;
      }
      cur := cur + 1;
    }
  }

  method MinDistTo(ctx: Polling, ghost locs: seq<Loc>, item: Loc, maxDist: Dist) returns (dist: Dist)
    requires |locs| < ctx.polled.Length && ctx.polled[..|locs|] == locs && ctx.polled[|locs|] == 0
    ensures Farthest(locs, item, maxDist, dist)
  {
    ListedPad(locs, ctx.polled[..]);
    dist := FindMinDist(ctx.polled[..], item, maxDist);
  }
}
