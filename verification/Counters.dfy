/**
 The per-level counters of core/lb.c: for each level, how many locations have each key.
 A keyed list of GLib refuses the key 0, so nothing is ever counted under it.
 */
module Counters {
  import opened Location

  /** What is counted under (level, key). */
  type Counts = map<(Level, nat), nat>

  function Count(c: Counts, level: Level, key: nat): nat {
    if (level, key) in c then c[(level, key)] else 0
  }

  function Bump(c: Counts, level: Level, key: nat): Counts {
    if key == 0 then c else c[(level, key) := Count(c, level, key) + 1]
  }

  /** _level_datalist_incr_loc */
  function Incr(c: Counts, loc: Loc): Counts {
    Bump(Bump(Bump(c, 1, KeyOf(loc, 1)), 2, KeyOf(loc, 2)), 3, KeyOf(loc, 3))
  }

  lemma IncrIs(c: Counts, loc: Loc, level: Level, key: nat)
    ensures Count(Incr(c, loc), level, key) == Count(c, level, key) + (if key == KeyOf(loc, level) != 0 then 1 else 0)
    ensures (level, key) in Incr(c, loc) <==> (level, key) in c || key == KeyOf(loc, level) != 0
  {
    hide KeyOf;
    assert level == 1 || level == 2 || level == 3;
  }

  /** The counters after counting each of some locations. */
  function Tally(locs: seq<Loc>): Counts {
    if locs == [] then map[] else Incr(Tally(locs[..|locs| - 1]), locs[|locs| - 1])
  }

  /** How many of some locations have a key. */
  ghost function NumAt(locs: seq<Loc>, level: Level, key: nat): nat {
    if locs == [] then 0
    else NumAt(locs[..|locs| - 1], level, key) + (if KeyOf(locs[|locs| - 1], level) == key then 1 else 0)
  }

  /** Counters are exact, except that the key 0 is not counted. */
  lemma {:induction false} TallyIsExact(locs: seq<Loc>, level: Level, key: nat)
    ensures Count(Tally(locs), level, key) == (if key == 0 then 0 else NumAt(locs, level, key))
    ensures (level, key) in Tally(locs) <==> key != 0 && NumAt(locs, level, key) > 0
  {
    hide KeyOf, Incr;
    if locs != [] {
      TallyIsExact(locs[..|locs| - 1], level, key);
      IncrIs(Tally(locs[..|locs| - 1]), locs[|locs| - 1], level, key);
    }
  }

  lemma {:induction false} NumAtHas(locs: seq<Loc>, level: Level, i: nat)
    requires i < |locs|
    ensures NumAt(locs, level, KeyOf(locs[i], level)) > 0
  {
    if i < |locs| - 1 { NumAtHas(locs[..|locs| - 1], level, i); }
  }

  lemma {:induction false} NumAtMost(locs: seq<Loc>, level: Level, key: nat)
    ensures NumAt(locs, level, key) <= |locs|
  {
    if locs != [] { NumAtMost(locs[..|locs| - 1], level, key); }
  }

  /** The keys counted at a level. */
  function Keys(c: Counts, level: Level): set<nat> { set k | k in c.Keys && k.0 == level :: k.1 }

  /** oio_ext_gdatalist_length, for each level */
  function Lengths(c: Counts): map<Level, nat> { map l: Level | 1 <= l <= 3 :: |Keys(c, l)| }
}
