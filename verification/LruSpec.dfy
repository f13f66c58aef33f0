/**
 What the LRU tree (core/lrutree.c) does, on values: its entries from the most to
 the least recently touched, and the plain dictionary with time stamps that it
 stands for.
 */
module LruSpec {
  import opened Basics
  import opened LruNodes

  datatype Entry = Entry(key: Key, value: Value, atime: int)

  /** The position of a key, or the length when it is missing. */
  function Index(q: seq<Entry>, k: Key): (i: nat)
    ensures i <= |q|
    ensures i < |q| ==> q[i].key == k
    ensures forall j :: 0 <= j < i ==> q[j].key != k
  {
    if q == [] || q[0].key == k then 0 else 1 + Index(q[1..], k)
  }

  predicate Has(q: seq<Entry>, k: Key) { Index(q, k) < |q| }

  function Without(q: seq<Entry>, i: nat): seq<Entry>
    requires i < |q|
  {
    q[..i] + q[i + 1..]
  }

  function Touched(q: seq<Entry>, i: nat, now: int): seq<Entry>
    requires i < |q|
  {
    [q[i].(atime := now)] + Without(q, i)
  }

  // ---- Operations --------------------------------------------------------------

  function Put(q: seq<Entry>, k: Key, v: Value, now: int, noUtime: bool): seq<Entry> {
    var i := Index(q, k);
    if i == |q| then [Entry(k, v, now)] + q
    else
      var q' := q[i := q[i].(value := v)];
      if noUtime then q' else Touched(q', i, now)
  }

  lemma PutNew(q: seq<Entry>, k: Key, v: Value, now: int, noUtime: bool)
    ensures Index(q, k) == |q| ==> Put(q, k, v, now, noUtime) == [Entry(k, v, now)] + q
  {
  }

  function Get(q: seq<Entry>, k: Key, now: int, noAtime: bool): (seq<Entry>, Option<Value>) {
    var i := Index(q, k);
    if i == |q| then (q, None)
    else (if noAtime then q else Touched(q, i, now), Some(q[i].value))
  }

  function Drop(q: seq<Entry>, k: Key): seq<Entry> {
    var i := Index(q, k);
    if i == |q| then q else Without(q, i)
  }

  /** Pop the tail while it is too old. */
  function Fresh(q: seq<Entry>, oldest: int): seq<Entry> {
    if q == [] || q[|q| - 1].atime >= oldest then q else Fresh(q[..|q| - 1], oldest)
  }

  /** Pop the tail while it is too old, at most `max` times. */
  function FreshAtMost(q: seq<Entry>, oldest: int, max: nat): (r: seq<Entry>)
    ensures |r| <= |q| && r == q[..|r|]
    decreases max
  {
    if q == [] || q[|q| - 1].atime >= oldest || max == 0 then q
    else FreshAtMost(q[..|q| - 1], oldest, max - 1)
  }

  lemma FreshAtMostStep(q: seq<Entry>, oldest: int, max: nat)
    ensures q != [] && q[|q| - 1].atime < oldest && max > 0 ==>
      FreshAtMost(q, oldest, max) == FreshAtMost(q[..|q| - 1], oldest, max - 1)
    ensures q == [] || q[|q| - 1].atime >= oldest || max == 0 ==> FreshAtMost(q, oldest, max) == q
  {
  }

  /** Pop the tail while there are too many entries. */
  function AtMost(q: seq<Entry>, max: nat): seq<Entry> { if |q| <= max then q else q[..max] }

  /** The entries the filter does not match. */
  function Unmatched(q: seq<Entry>, filter: (Key, Value) -> bool): (r: seq<Entry>)
    ensures |r| <= |q|
  {
    if q == [] then []
    else
      var n := |q| - 1;
      if filter(q[n].key, q[n].value) then Unmatched(q[..n], filter) else Unmatched(q[..n], filter) + [q[n]]
  }

  // ---- What every operation keeps ------------------------------------------------

  /** Keys are unique and the most recently touched come first. */
  ghost predicate WellFormed(q: seq<Entry>, clock: int) {
    && (forall i, j :: 0 <= i < j < |q| ==> q[i].key != q[j].key)
    && (forall i, j :: 0 <= i < j < |q| ==> q[i].atime >= q[j].atime)
    && (forall i :: 0 <= i < |q| ==> q[i].atime <= clock)
  }

  datatype Op =
    | DoPut(k: Key, v: Value, now: int)
    | DoGet(k: Key, now: int)
    | DoDrop(k: Key)
    | DoExpire(oldest: int)
    | DoExceed(max: nat)
    | DoSteal(oldest: int, max: nat)
    | DoFilter(filter: (Key, Value) -> bool)

  datatype Flags = Flags(noAtime: bool, noUtime: bool)

  function Step(q: seq<Entry>, op: Op, f: Flags): seq<Entry> {
    match op
    case DoPut(k, v, now) => Put(q, k, v, now, f.noUtime)
    case DoGet(k, now) => Get(q, k, now, f.noAtime).0
    case DoDrop(k) => Drop(q, k)
    case DoExpire(oldest) => Fresh(q, oldest)
    case DoExceed(max) => AtMost(q, max)
    case DoSteal(oldest, max) => FreshAtMost(q, oldest, max)
    case DoFilter(filter) => Unmatched(q, filter)
  }

  /** The clock after an operation; the clock never goes back. */
  function Clock(op: Op, clock: int): int {
    match op
    case DoPut(_, _, now) => now
    case DoGet(_, now) => now
    case _ => clock
  }

  ghost predicate InTime(ops: seq<Op>, clock: int) {
    |ops| == 0 || (clock <= Clock(ops[0], clock) && InTime(ops[1..], Clock(ops[0], clock)))
  }

  function Run(q: seq<Entry>, ops: seq<Op>, f: Flags): seq<Entry>
    decreases ops
  {
    if |ops| == 0 then q else Run(Step(q, ops[0], f), ops[1..], f)
  }

  // ---- The dictionary ------------------------------------------------------------

  type Table = map<Key, (Value, int)>

  ghost function Keys(q: seq<Entry>): set<Key> { set i | 0 <= i < |q| :: q[i].key }

  ghost function ToTable(q: seq<Entry>): Table {
    map k | k in Keys(q) && Has(q, k) :: (q[Index(q, k)].value, q[Index(q, k)].atime)
  }

  ghost function Younger(t: Table, oldest: int): Table {
    map k | k in t && t[k].1 >= oldest :: t[k]
  }

  ghost predicate Submap(t': Table, t: Table) { forall k :: k in t' ==> k in t && t'[k] == t[k] }

  /** What is gone was touched no later than what stays. */
  ghost predicate OldestGone(t: Table, t': Table) {
    forall k, k' :: k in t && k !in t' && k' in t' && k' in t ==> t[k].1 <= t[k'].1
  }

  ghost function Refused(t: Table, filter: (Key, Value) -> bool): Table {
    map k | k in t && !filter(k, t[k].0) :: t[k]
  }

  /** The same operations on the dictionary alone. Where time stamps are equal, it does not tell which entries
      go first. */
  ghost predicate TableStep(t: Table, op: Op, f: Flags, t': Table) {
    match op
    case DoPut(k, v, now) => t' == t[k := (v, if k in t && f.noUtime then t[k].1 else now)]
    case DoGet(k, now) => t' == if k in t && !f.noAtime then t[k := (t[k].0, now)] else t
    case DoDrop(k) => t' == t - {k}
    case DoExpire(oldest) => t' == Younger(t, oldest)
    case DoExceed(max) => Submap(t', t) && OldestGone(t, t') && |t'| == if |t| <= max then |t| else max
    case DoSteal(oldest, max) =>
      && Submap(t', t) && OldestGone(t, t') && |t| - |t'| <= max
      && (forall k :: k in t && k !in t' ==> t[k].1 < oldest)
      && (|t| - |t'| < max ==> t' == Younger(t, oldest))
    case DoFilter(filter) => t' == Refused(t, filter)
  }

  /** The tables that a run goes through. */
  ghost predicate TableRun(ts: seq<Table>, ops: seq<Op>, f: Flags) {
    |ts| == |ops| + 1 && forall i :: 0 <= i < |ops| ==> TableStep(ts[i], ops[i], f, ts[i + 1])
  }

  ghost predicate Unique(q: seq<Entry>) {
    forall i, j :: 0 <= i < j < |q| ==> q[i].key != q[j].key
  }

  lemma IndexIs(q: seq<Entry>, i: nat)
    requires Unique(q) && i < |q|
    ensures Index(q, q[i].key) == i
  {
  }

  /** The table is determined by where each entry goes. */
  lemma TableIs(q: seq<Entry>, t: Table)
    requires Unique(q) && Keys(q) == t.Keys
    requires forall i :: 0 <= i < |q| ==> t[q[i].key] == (q[i].value, q[i].atime)
    ensures ToTable(q) == t
  {
    forall k | k in t
      ensures Has(q, k) && ToTable(q)[k] == t[k]
    {
      var i :| 0 <= i < |q| && q[i].key == k;
      IndexIs(q, i);
    }
  }

  lemma EntryInTable(q: seq<Entry>, i: nat)
    requires Unique(q) && i < |q|
    ensures q[i].key in ToTable(q) && ToTable(q)[q[i].key] == (q[i].value, q[i].atime)
  {
    IndexIs(q, i);
  }

  lemma TableKeys(q: seq<Entry>)
    ensures ToTable(q).Keys == Keys(q)
    ensures forall k :: k in Keys(q) <==> Has(q, k)
  {
    forall k | k in Keys(q)
      ensures Has(q, k)
    {
      var i :| 0 <= i < |q| && q[i].key == k;
    }
    forall k | Has(q, k)
      ensures k in Keys(q)
    {
      assert q[Index(q, k)].key == k;
    }
  }

  lemma ReplacedTable(q: seq<Entry>, i: nat, e: Entry)
    requires Unique(q) && i < |q| && e.key == q[i].key
    ensures Unique(q[i := e]) && ToTable(q[i := e]) == ToTable(q)[e.key := (e.value, e.atime)]
  {
    var q', t := q[i := e], ToTable(q)[e.key := (e.value, e.atime)];
    TableKeys(q);
    assert Keys(q') == t.Keys by {
      forall j | 0 <= j < |q| ensures q[j].key in Keys(q') { assert q'[j].key == q[j].key; }
    }
    forall j | 0 <= j < |q'| ensures t[q'[j].key] == (q'[j].value, q'[j].atime) {
      if j != i { EntryInTable(q, j); }
    }
    TableIs(q', t);
  }

  lemma ConsTable(q: seq<Entry>, e: Entry)
    requires Unique(q) && !Has(q, e.key)
    ensures Unique([e] + q) && ToTable([e] + q) == ToTable(q)[e.key := (e.value, e.atime)]
  {
    var q', t := [e] + q, ToTable(q)[e.key := (e.value, e.atime)];
    TableKeys(q);
    assert Keys(q') == t.Keys by {
      assert q'[0] == e;
      forall j | 0 <= j < |q| ensures q[j].key in Keys(q') { assert q'[j + 1] == q[j]; }
    }
    forall j | 0 <= j < |q'| ensures t[q'[j].key] == (q'[j].value, q'[j].atime) {
      if j > 0 { EntryInTable(q, j - 1); assert q[j - 1].key in Keys(q); }
    }
    TableIs(q', t);
  }

  lemma WithoutAt(q: seq<Entry>, i: nat)
    requires i < |q|
    ensures |Without(q, i)| == |q| - 1
    ensures forall j :: 0 <= j < |q| - 1 ==> Without(q, i)[j] == q[if j < i then j else j + 1]
  {
  }

  lemma WithoutKeys(q: seq<Entry>, i: nat)
    requires Unique(q) && i < |q|
    ensures Unique(Without(q, i)) && Keys(Without(q, i)) == Keys(q) - {q[i].key}
    ensures forall j :: 0 <= j < |q| - 1 ==> Without(q, i)[j] == q[if j < i then j else j + 1]
  {
    WithoutAt(q, i);
    hide Without;
    var q' := Without(q, i);
    forall j | 0 <= j < |q| && j != i ensures q[j].key in Keys(q') {
      assert q'[if j < i then j else j - 1] == q[j];
    }
    forall j | 0 <= j < |q'| ensures q'[j].key in Keys(q) && q'[j].key != q[i].key {
      assert q'[j] == q[if j < i then j else j + 1];
    }
  }

  lemma WithoutTable(q: seq<Entry>, i: nat)
    requires Unique(q) && i < |q|
    ensures Unique(Without(q, i)) && ToTable(Without(q, i)) == ToTable(q) - {q[i].key}
  {
    hide Without, ToTable, Keys;
    var q', t := Without(q, i), ToTable(q) - {q[i].key};
    WithoutKeys(q, i);
    TableKeys(q);
    assert |q'| == |q| - 1 by { WithoutSize(q, i); }
    forall j | 0 <= j < |q'| ensures q'[j].key in t && t[q'[j].key] == (q'[j].value, q'[j].atime) {
      var j' := if j < i then j else j + 1;
      assert q'[j] == q[j'];
      EntryInTable(q, j');
    }
    TableIs(q', t);
  }

  lemma WithoutSize(q: seq<Entry>, i: nat)
    requires i < |q|
    ensures |Without(q, i)| == |q| - 1
  {
  }

  /** Moving entry `i` to the front, with new contents under the same key. */
  lemma MovedTable(q: seq<Entry>, i: nat, e: Entry)
    requires Unique(q) && i < |q| && e.key == q[i].key
    ensures Unique([e] + Without(q, i))
    ensures ToTable([e] + Without(q, i)) == ToTable(q)[e.key := (e.value, e.atime)]
  {
    hide ToTable;
    WithoutTable(q, i);
    TableKeys(Without(q, i));
    ConsTable(Without(q, i), e);
    assert (ToTable(q) - {e.key})[e.key := (e.value, e.atime)] == ToTable(q)[e.key := (e.value, e.atime)];
  }

  lemma {:induction false} FreshIsPrefix(q: seq<Entry>, oldest: int, clock: int)
    requires WellFormed(q, clock)
    ensures Fresh(q, oldest) <= q
    ensures forall i :: 0 <= i < |q| ==> (q[i].atime >= oldest <==> i < |Fresh(q, oldest)|)
  {
    if q != [] && q[|q| - 1].atime < oldest {
      FreshIsPrefix(q[..|q| - 1], oldest, clock);
    }
  }

  lemma PrefixWellFormed(q: seq<Entry>, n: nat, clock: int)
    requires WellFormed(q, clock) && n <= |q|
    ensures WellFormed(q[..n], clock)
  {
  }

  lemma {:induction false} UnmatchedKeeps(q: seq<Entry>, filter: (Key, Value) -> bool, clock: int)
    requires WellFormed(q, clock)
    ensures WellFormed(Unmatched(q, filter), clock)
    ensures forall e :: e in Unmatched(q, filter) <==> e in q && !filter(e.key, e.value)
  {
    hide WellFormed;
    if q == [] {
      PrefixWellFormed(q, 0, clock);
    } else {
      var n := |q| - 1;
      assert q == q[..n] + [q[n]];
      PrefixWellFormed(q, n, clock);
      UnmatchedKeeps(q[..n], filter, clock);
      AppendWellFormed(q, Unmatched(q[..n], filter), clock);
    }
  }

  lemma AppendWellFormed(q: seq<Entry>, r: seq<Entry>, clock: int)
    requires q != [] && WellFormed(q, clock) && WellFormed(r, clock) && forall e :: e in r ==> e in q[..|q| - 1]
    ensures WellFormed(r + [q[|q| - 1]], clock)
  {
    var n := |q| - 1;
    forall i | 0 <= i < |r| ensures r[i].key != q[n].key && r[i].atime >= q[n].atime {
      assert r[i] in r;
      var j :| 0 <= j < n && q[j] == r[i];
    }
  }

  /** Half-way through a filtering of `e`: `done` entries seen, `i` of them kept. */
  ghost predicate Split(e: seq<Entry>, filter: (Key, Value) -> bool, q: seq<Entry>, i: nat, done: nat) {
    i <= |q| && done <= |e| && q[..i] == Unmatched(e[..done], filter) && q[i..] == e[done..]
  }

  lemma UnmatchedSplit(e: seq<Entry>, filter: (Key, Value) -> bool, q: seq<Entry>, i: nat, done: nat)
    ensures Split(e, filter, e, 0, 0)
    ensures Split(e, filter, q, i, done) && i == |q| ==> q == Unmatched(e, filter)
  {
    assert e[..0] == [] && e[0..] == e;
    if Split(e, filter, q, i, done) && i == |q| {
      assert |e[done..]| == 0;
      assert e[..done] == e && q[..i] == q;
    }
  }

  lemma SplitStep(e: seq<Entry>, filter: (Key, Value) -> bool, q: seq<Entry>, i: nat, done: nat)
    requires Split(e, filter, q, i, done) && i < |q|
    ensures done < |e|
    ensures if filter(q[i].key, q[i].value) then Split(e, filter, Without(q, i), i, done + 1)
            else Split(e, filter, q, i + 1, done + 1)
  {
    assert |q[i..]| == |e[done..]|;
    assert q[i] == q[i..][0] == e[done];
    assert e[..done + 1][..done] == e[..done];
    assert q[i + 1..] == q[i..][1..] && e[done + 1..] == e[done..][1..];
    assert Without(q, i)[..i] == q[..i] && Without(q, i)[i..] == q[i + 1..];
    assert q[..i + 1] == q[..i] + [q[i]];
  }

  /** What popping at most `max` old entries leaves, and what it takes. */
  lemma {:induction false} FreshAtMostIs(q: seq<Entry>, oldest: int, max: nat, clock: int)
    requires WellFormed(q, clock)
    ensures
      var m := |FreshAtMost(q, oldest, max)|;
      && |q| - m <= max
      && (forall i :: m <= i < |q| ==> q[i].atime < oldest)
      && (|q| - m < max ==> forall i :: 0 <= i < m ==> q[i].atime >= oldest)
    decreases max
  {
    if q != [] && q[|q| - 1].atime < oldest && max > 0 {
      FreshAtMostIs(q[..|q| - 1], oldest, max - 1, clock);
    }
  }

  lemma FreshEntry(q: seq<Entry>, oldest: int, clock: int, i: nat)
    requires WellFormed(q, clock) && i < |q|
    ensures Fresh(q, oldest) <= q
    ensures q[i].key in Younger(ToTable(q), oldest) <==> i < |Fresh(q, oldest)|
    ensures i < |Fresh(q, oldest)| ==> Younger(ToTable(q), oldest)[q[i].key] == (q[i].value, q[i].atime)
  {
    hide ToTable;
    FreshIsPrefix(q, oldest, clock);
    EntryInTable(q, i);
  }

  lemma FreshKeys(q: seq<Entry>, oldest: int, clock: int)
    requires WellFormed(q, clock)
    ensures Keys(Fresh(q, oldest)) == Younger(ToTable(q), oldest).Keys
  {
    hide ToTable;
    var q', t := Fresh(q, oldest), Younger(ToTable(q), oldest);
    FreshIsPrefix(q, oldest, clock);
    TableKeys(q);
    forall k | k in t
      ensures k in Keys(q')
    {
      var i :| 0 <= i < |q| && q[i].key == k;
      FreshEntry(q, oldest, clock, i);
      assert q'[i].key == k;
    }
    forall i | 0 <= i < |q'|
      ensures q'[i].key in t
    {
      FreshEntry(q, oldest, clock, i);
    }
  }

  /** Popping the tail while it is too old removes exactly the entries that are too old. */
  lemma FreshTable(q: seq<Entry>, oldest: int, clock: int)
    requires WellFormed(q, clock)
    ensures ToTable(Fresh(q, oldest)) == Younger(ToTable(q), oldest)
  {
    hide ToTable, Younger, Keys;
    var q', t := Fresh(q, oldest), Younger(ToTable(q), oldest);
    FreshIsPrefix(q, oldest, clock);
    FreshKeys(q, oldest, clock);
    forall i | 0 <= i < |q'|
      ensures q'[i].key in t && t[q'[i].key] == (q'[i].value, q'[i].atime)
    {
      FreshEntry(q, oldest, clock, i);
    }
    TableIs(q', t);
  }

  // ---- One operation, then any run -------------------------------------------------

  lemma TouchedKeeps(q: seq<Entry>, i: nat, now: int, clock: int)
    requires WellFormed(q, clock) && i < |q| && clock <= now
    ensures WellFormed(Touched(q, i, now), now)
    ensures ToTable(Touched(q, i, now)) == ToTable(q)[q[i].key := (q[i].value, now)]
  {
    MovedTable(q, i, q[i].(atime := now));
    hide Without, ToTable;
    WithoutKeys(q, i);
    WithoutSize(q, i);
    var q' := Touched(q, i, now);
    forall a | 0 < a < |q'|
      ensures q'[a] == q[if a - 1 < i then a - 1 else a]
    {
    }
  }

  lemma LaterWellFormed(q: seq<Entry>, clock: int, now: int)
    requires WellFormed(q, clock) && clock <= now
    ensures WellFormed(q, now)
  {
  }

  lemma ConsWellFormed(q: seq<Entry>, e: Entry, clock: int)
    requires WellFormed(q, clock) && clock <= e.atime && !Has(q, e.key)
    ensures WellFormed([e] + q, e.atime)
  {
    forall i | 0 <= i < |q| ensures q[i].key != e.key { assert Index(q, e.key) == |q|; }
  }

  lemma RevaluedWellFormed(q: seq<Entry>, i: nat, v: Value, clock: int)
    requires WellFormed(q, clock) && i < |q|
    ensures WellFormed(q[i := q[i].(value := v)], clock) && Unique(q)
  {
  }

  lemma PutKeeps(q: seq<Entry>, k: Key, v: Value, now: int, f: Flags, clock: int)
    requires WellFormed(q, clock) && clock <= now
    ensures WellFormed(Put(q, k, v, now, f.noUtime), now)
    ensures TableStep(ToTable(q), DoPut(k, v, now), f, ToTable(Put(q, k, v, now, f.noUtime)))
  {
    hide ToTable, Touched, WellFormed, Unique;
    TableKeys(q);
    var i := Index(q, k);
    WellFormedUnique(q, clock);
    if i == |q| {
      ConsTable(q, Entry(k, v, now));
      ConsWellFormed(q, Entry(k, v, now), clock);
    } else {
      EntryInTable(q, i);
      var q' := q[i := q[i].(value := v)];
      ReplacedTable(q, i, q[i].(value := v));
      RevaluedWellFormed(q, i, v, clock);
      LaterWellFormed(q', clock, now);
      if !f.noUtime { TouchedKeeps(q', i, now, clock); }
    }
  }

  lemma WellFormedUnique(q: seq<Entry>, clock: int)
    requires WellFormed(q, clock)
    ensures Unique(q)
  {
  }

  lemma GetKeeps(q: seq<Entry>, k: Key, now: int, f: Flags, clock: int)
    requires WellFormed(q, clock) && clock <= now
    ensures WellFormed(Get(q, k, now, f.noAtime).0, now)
    ensures TableStep(ToTable(q), DoGet(k, now), f, ToTable(Get(q, k, now, f.noAtime).0))
  {
    hide ToTable, Touched, WellFormed, Unique;
    TableKeys(q);
    LaterWellFormed(q, clock, now);
    WellFormedUnique(q, clock);
    var i := Index(q, k);
    if i < |q| {
      EntryInTable(q, i);
      TouchedKeeps(q, i, now, clock);
    }
  }

  lemma DropKeeps(q: seq<Entry>, k: Key, f: Flags, clock: int)
    requires WellFormed(q, clock)
    ensures WellFormed(Drop(q, k), clock)
    ensures TableStep(ToTable(q), DoDrop(k), f, ToTable(Drop(q, k)))
  {
    TableKeys(q);
    hide ToTable, Without;
    var i := Index(q, k);
    if i < |q| {
      WithoutTable(q, i);
      WithoutKeys(q, i);
      WithoutSize(q, i);
    } else {
      assert ToTable(q) - {k} == ToTable(q);
    }
  }

  // ---- Prefixes and filters of the queue ---------------------------------------------------------------

  lemma KeysLast(q: seq<Entry>)
    requires Unique(q) && q != []
    ensures
      var n := |q| - 1;
      Keys(q) == Keys(q[..n]) + {q[n].key} && q[n].key !in Keys(q[..n])
  {
    var n := |q| - 1;
    forall k | k in Keys(q) ensures k in Keys(q[..n]) + {q[n].key} {
      var i :| 0 <= i < |q| && q[i].key == k;
      if i < n { assert q[..n][i].key == k; }
    }
    forall i | 0 <= i < n ensures q[..n][i].key in Keys(q) && q[..n][i].key != q[n].key {
      assert q[..n][i] == q[i];
    }
  }

  lemma {:induction false} KeysSize(q: seq<Entry>)
    requires Unique(q)
    ensures |Keys(q)| == |q|
  {
    if q == [] {
      assert Keys(q) == {};
    } else {
      KeysLast(q);
      hide Keys;
      KeysSize(q[..|q| - 1]);
    }
  }

  lemma TableSize(q: seq<Entry>)
    requires Unique(q)
    ensures |ToTable(q)| == |q|
  {
    hide ToTable, Keys;
    TableKeys(q);
    KeysSize(q);
    assert |ToTable(q)| == |ToTable(q).Keys|;
  }

  /** A prefix of the queue has the entries whose rank is in the prefix. */
  lemma PrefixEntry(q: seq<Entry>, m: nat, k: Key)
    requires Unique(q) && m <= |q|
    ensures k in ToTable(q[..m]) <==> k in ToTable(q) && Index(q, k) < m
    ensures k in ToTable(q[..m]) ==> ToTable(q[..m])[k] == ToTable(q)[k]
  {
    hide ToTable;
    TableKeys(q);
    TableKeys(q[..m]);
    if Has(q[..m], k) {
      var i := Index(q[..m], k);
      assert q[i].key == k;
      IndexIs(q, i);
      EntryInTable(q, i);
      EntryInTable(q[..m], i);
    }
    if Has(q, k) && Index(q, k) < m { assert q[..m][Index(q, k)].key == k; }
  }

  /** A prefix of the queue is a part of the table, without its oldest entries. */
  lemma PrefixTable(q: seq<Entry>, m: nat, clock: int)
    requires WellFormed(q, clock) && m <= |q|
    ensures
      var t, t' := ToTable(q), ToTable(q[..m]);
      && Submap(t', t) && OldestGone(t, t') && |t| == |q| && |t'| == m
      && (forall k :: k in t && k !in t' ==> m <= Index(q, k) < |q| && t[k].1 == q[Index(q, k)].atime)
  {
    hide ToTable;
    TableSize(q);
    TableSize(q[..m]);
    forall k
      ensures k in ToTable(q[..m]) <==> k in ToTable(q) && Index(q, k) < m
      ensures k in ToTable(q[..m]) ==> ToTable(q[..m])[k] == ToTable(q)[k]
      ensures k in ToTable(q) ==> Index(q, k) < |q| && ToTable(q)[k].1 == q[Index(q, k)].atime
    {
      PrefixEntry(q, m, k);
      TableKeys(q);
      if k in ToTable(q) { EntryInTable(q, Index(q, k)); }
    }
  }

  lemma ExceedKeeps(q: seq<Entry>, max: nat, f: Flags, clock: int)
    requires WellFormed(q, clock)
    ensures WellFormed(AtMost(q, max), clock)
    ensures TableStep(ToTable(q), DoExceed(max), f, ToTable(AtMost(q, max)))
  {
    hide ToTable;
    var m := |AtMost(q, max)|;
    assert AtMost(q, max) == q[..m];
    PrefixTable(q, m, clock);
    PrefixWellFormed(q, m, clock);
  }

  lemma StealKeeps(q: seq<Entry>, oldest: int, max: nat, f: Flags, clock: int)
    requires WellFormed(q, clock)
    ensures WellFormed(FreshAtMost(q, oldest, max), clock)
    ensures TableStep(ToTable(q), DoSteal(oldest, max), f, ToTable(FreshAtMost(q, oldest, max)))
  {
    hide ToTable, FreshAtMost, Younger;
    var q' := FreshAtMost(q, oldest, max);
    PrefixTable(q, |q'|, clock);
    PrefixWellFormed(q, |q'|, clock);
    FreshAtMostIs(q, oldest, max, clock);
    if |q| - |q'| < max {
      FreshIsPrefix(q, oldest, clock);
      SamePrefix(q, Fresh(q, oldest), q', oldest);
      FreshTable(q, oldest, clock);
    }
  }

  lemma SamePrefix(q: seq<Entry>, a: seq<Entry>, b: seq<Entry>, oldest: int)
    requires a <= q && b <= q
    requires forall i :: 0 <= i < |q| ==> (q[i].atime >= oldest <==> i < |a|)
    requires forall i :: 0 <= i < |b| ==> q[i].atime >= oldest
    requires forall i :: |b| <= i < |q| ==> q[i].atime < oldest
    ensures a == b
  {
    if |a| < |q| { assert q[|a|].atime < oldest; }
    if |a| > 0 { assert q[|a| - 1].atime >= oldest; }
  }

  lemma FilterKeeps(q: seq<Entry>, filter: (Key, Value) -> bool, f: Flags, clock: int)
    requires WellFormed(q, clock)
    ensures WellFormed(Unmatched(q, filter), clock)
    ensures TableStep(ToTable(q), DoFilter(filter), f, ToTable(Unmatched(q, filter)))
  {
    hide ToTable, Unmatched;
    var r, t := Unmatched(q, filter), Refused(ToTable(q), filter);
    UnmatchedKeeps(q, filter, clock);
    TableKeys(q);
    forall k | k in t ensures k in Keys(r) {
      var i := Index(q, k);
      EntryInTable(q, i);
      assert q[i] in r;
    }
    forall i | 0 <= i < |r| ensures r[i].key in t && t[r[i].key] == (r[i].value, r[i].atime) {
      assert r[i] in q;
      var j :| 0 <= j < |q| && q[j] == r[i];
      EntryInTable(q, j);
    }
    TableIs(r, t);
  }

  /** Each operation keeps the order, and does to the contents what the dictionary does. */
  lemma StepKeeps(q: seq<Entry>, op: Op, f: Flags, clock: int)
    requires WellFormed(q, clock) && clock <= Clock(op, clock)
    ensures WellFormed(Step(q, op, f), Clock(op, clock))
    ensures TableStep(ToTable(q), op, f, ToTable(Step(q, op, f)))
  {
    hide ToTable, Put, Get, Drop, AtMost, FreshAtMost, Unmatched, WellFormed;
    match op
    case DoPut(k, v, now) => PutKeeps(q, k, v, now, f, clock);
    case DoGet(k, now) => GetKeeps(q, k, now, f, clock);
    case DoDrop(k) => DropKeeps(q, k, f, clock);
    case DoExpire(oldest) => ExpireKeeps(q, oldest, f, clock);
    case DoExceed(max) => ExceedKeeps(q, max, f, clock);
    case DoSteal(oldest, max) => StealKeeps(q, oldest, max, f, clock);
    case DoFilter(filter) => FilterKeeps(q, filter, f, clock);
  }

  lemma ExpireKeeps(q: seq<Entry>, oldest: int, f: Flags, clock: int)
    requires WellFormed(q, clock)
    ensures WellFormed(Fresh(q, oldest), clock)
    ensures TableStep(ToTable(q), DoExpire(oldest), f, ToTable(Fresh(q, oldest)))
  {
    hide ToTable;
    FreshIsPrefix(q, oldest, clock);
    FreshTable(q, oldest, clock);
  }

  /** After any run, under any flags: unique keys, ordered by last touch, and the contents
      go through the steps of the dictionary. */
  lemma {:induction false} RunRefines(q: seq<Entry>, ops: seq<Op>, f: Flags, clock: int)
    returns (clock': int, ts: seq<Table>)
    requires WellFormed(q, clock) && InTime(ops, clock)
    ensures clock <= clock' && WellFormed(Run(q, ops, f), clock')
    ensures TableRun(ts, ops, f) && ts[0] == ToTable(q) && ts[|ops|] == ToTable(Run(q, ops, f))
    decreases |ops|
  {
    hide ToTable, TableStep, Step, WellFormed;
    clock', ts := clock, [ToTable(q)];
    if |ops| > 0 {
      StepKeeps(q, ops[0], f, clock);
      var rest;
      clock', rest := RunRefines(Step(q, ops[0], f), ops[1..], f, Clock(ops[0], clock));
      ts := [ToTable(q)] + rest;
      forall i | 0 <= i < |ops| ensures TableStep(ts[i], ops[i], f, ts[i + 1]) {
        assert i > 0 ==> ops[i] == ops[1..][i - 1] && TableStep(rest[i - 1], ops[1..][i - 1], f, rest[i]);
      }
    }
  }

  /** The last value put under a key. */
  ghost function LastPut(ops: seq<Op>, k: Key): Option<Value> {
    if |ops| == 0 then None
    else
      var last := ops[|ops| - 1];
      if last.DoPut? && last.k == k then Some(last.v) else LastPut(ops[..|ops| - 1], k)
  }

  /** Nothing but a put adds a key or changes a value. */
  lemma StepValues(t: Table, op: Op, f: Flags, t': Table, k: Key)
    requires TableStep(t, op, f, t') && k in t'
    ensures if op.DoPut? && op.k == k then t'[k].0 == op.v else k in t && t'[k].0 == t[k].0
  {
  }

  /** Whatever came in between, a key that is present has the last value put under it. */
  lemma {:induction false} ValueIsLastPut(ts: seq<Table>, ops: seq<Op>, f: Flags, k: Key)
    requires TableRun(ts, ops, f) && ts[0] == map[] && k in ts[|ops|]
    ensures LastPut(ops, k) == Some(ts[|ops|][k].0)
    decreases |ops|
  {
    hide TableStep;
    if |ops| > 0 {
      var n := |ops| - 1;
      StepValues(ts[n], ops[n], f, ts[n + 1], k);
      if !(ops[n].DoPut? && ops[n].k == k) {
        ValueIsLastPut(ts[..n + 1], ops[..n], f, k);
      }
    }
  }

  /** What a lookup answers after any run from the empty tree: the last value put under the key, if the key
      is still there. */
  lemma GetIsLastPut(ops: seq<Op>, f: Flags, k: Key, now: int, clock: int)
    requires InTime(ops, clock)
    ensures
      var q := Run([], ops, f);
      var r := Get(q, k, now, f.noAtime).1;
      && (r.Some? <==> k in ToTable(q))
      && (r.Some? ==> r == LastPut(ops, k))
  {
    hide TableStep, Step;
    var q := Run([], ops, f);
    assert ToTable([]) == map[];
    var c, ts := RunRefines([], ops, f, clock);
    TableKeys(q);
    if Has(q, k) {
      EntryInTable(q, Index(q, k));
      ValueIsLastPut(ts, ops, f, k);
    }
  }
}
