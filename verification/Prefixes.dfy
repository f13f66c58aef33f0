/**
 The prefixes that a directory service manages (meta1v2/meta1_prefixes.c): a bitmap of
 65536 bits, reloaded from the directory of prefixes, and compatible with the names of
 the databases (meta1v2/meta1_backend.c, meta0v2/meta0_utils.c).
 */
module Prefixes {
  import opened Basics
  import opened MetaZero

  const CACHE_SIZE: nat := 8192

  // ---- Bits ---------------------------------------------------------------------------------------------

  function BitPos(k: nat): bv8
    requires k < 8
  {
    if k == 0 then 0x01 else if k == 1 then 0x02 else if k == 2 then 0x04 else if k == 3 then 0x08
    else if k == 4 then 0x10 else if k == 5 then 0x20 else if k == 6 then 0x40 else 0x80
  }

  predicate BitAt(b: bv8, k: nat)
    requires k < 8
  {
    b & BitPos(k) != 0
  }

  lemma SetBit(b: bv8, k: nat, j: nat)
    requires k < 8 && j < 8
    ensures BitAt(b | BitPos(k), j) <==> j == k || BitAt(b, j)
  {
  }

  lemma WholeByte(b: bv8)
    ensures b == 0xFF <==> forall k: nat :: k < 8 ==> BitAt(b, k)
    ensures b == 0 <==> forall k: nat :: k < 8 ==> !BitAt(b, k)
  {
    var bits := BitAt(b, 0) && BitAt(b, 1) && BitAt(b, 2) && BitAt(b, 3)
      && BitAt(b, 4) && BitAt(b, 5) && BitAt(b, 6) && BitAt(b, 7);
    var none := !BitAt(b, 0) && !BitAt(b, 1) && !BitAt(b, 2) && !BitAt(b, 3)
      && !BitAt(b, 4) && !BitAt(b, 5) && !BitAt(b, 6) && !BitAt(b, 7);
    assert b == 0xFF <==> bits;
    assert b == 0 <==> none;
  }

  // ---- The bitmap ------------------------------------------------------------------------------------------

  type Cache = c: seq<bv8> | |c| == CACHE_SIZE witness seq(8192, _ => 0)

  /** _cache_is_managed, of a prefix read as a 16-bit number */
  predicate IsManaged(c: Cache, slot: Prefix) { BitAt(c[slot / 8], slot % 8) }

  /** _cache_manage */
  method Manage(cache: array<bv8>, slot: Prefix)
    requires cache.Length == CACHE_SIZE
    modifies cache
    ensures forall p: Prefix :: IsManaged(cache[..], p) <==> p == slot || old(IsManaged(cache[..], p))
  {
    var k := slot / 8;
    ghost var was := cache[..];
    cache[k] := cache[k] | BitPos(slot % 8);
    forall p: Prefix ensures IsManaged(cache[..], p) <==> p == slot || IsManaged(was, p) {
      if p / 8 == k { SetBit(was[k], slot % 8, p % 8); }
    }
  }

  ghost predicate AllManaged(c: Cache) { forall p: Prefix :: IsManaged(c, p) }

  ghost predicate NoneManaged(c: Cache) { forall p: Prefix :: !IsManaged(c, p) }

  lemma FullBytes(c: Cache)
    ensures AllManaged(c) <==> forall i :: 0 <= i < CACHE_SIZE ==> c[i] == 0xFF
  {
    hide BitAt;
    if AllManaged(c) {
      forall i | 0 <= i < CACHE_SIZE ensures c[i] == 0xFF {
        WholeByte(c[i]);
        forall k: nat | k < 8 ensures BitAt(c[i], k) { assert IsManaged(c, 8 * i + k); }
      }
    }
    if forall i :: 0 <= i < CACHE_SIZE ==> c[i] == 0xFF {
      forall p: Prefix ensures IsManaged(c, p) { WholeByte(c[p / 8]); }
    }
  }

  lemma EmptyBytes(c: Cache)
    ensures NoneManaged(c) <==> forall i :: 0 <= i < CACHE_SIZE ==> c[i] == 0
  {
    hide BitAt;
    if NoneManaged(c) {
      forall i | 0 <= i < CACHE_SIZE ensures c[i] == 0 {
        WholeByte(c[i]);
        forall k: nat | k < 8 ensures !BitAt(c[i], k) { assert !IsManaged(c, 8 * i + k); }
      }
    }
    if forall i :: 0 <= i < CACHE_SIZE ==> c[i] == 0 {
      forall p: Prefix ensures !IsManaged(c, p) { WholeByte(c[p / 8]); }
    }
  }

  /** Whether the four bytes of a 32-bit word have a value. */
  predicate WordIs(c: Cache, w: nat, b: bv8)
    requires w < 2048
  {
    c[4 * w] == b && c[4 * w + 1] == b && c[4 * w + 2] == b && c[4 * w + 3] == b
  }

  lemma Words(c: Cache, b: bv8)
    ensures (forall w: nat :: w < 2048 ==> WordIs(c, w, b)) <==> forall i :: 0 <= i < CACHE_SIZE ==> c[i] == b
  {
    if forall w: nat :: w < 2048 ==> WordIs(c, w, b) {
      forall i | 0 <= i < CACHE_SIZE ensures c[i] == b {
        assert WordIs(c, i / 4, b);
        assert i == 4 * (i / 4) + i % 4;
      }
    }
  }

  /** _cache_full */
  method CacheFull(c: Cache) returns (full: bool)
    ensures full <==> AllManaged(c)
  {
    hide AllManaged;
    FullBytes(c);
    Words(c, 0xFF);
    var w := 0;
    while w < 2048
      invariant 0 <= w <= 2048 && forall v: nat :: v < w ==> WordIs(c, v, 0xFF)
    {
      if !WordIs(c, w, 0xFF) {
        return false;
      }
      w := w + 1;
    }
    return true;
  }

  /** _cache_empty */
  method CacheEmpty(c: Cache) returns (empty: bool)
    ensures empty <==> NoneManaged(c)
  {
    hide NoneManaged;
    EmptyBytes(c);
    Words(c, 0);
    var w := 0;
    while w < 2048
      invariant 0 <= w <= 2048 && forall v: nat :: v < w ==> WordIs(c, v, 0)
    {
      if !WordIs(c, w, 0) {
        return false;
      }
      w := w + 1;
    }
    return true;
  }

  // ---- The bitmap of a directory --------------------------------------------------------------------------------

  /** A prefix listed for some service, or for a given one. */
  ghost predicate Listed(list: seq<Info>, only: Option<Addr>, p: Prefix) {
    exists i :: 0 <= i < |list| && (only.None? || list[i].addr == only.value) && p in list[i].prefixes
  }

  /** _cache_from_all_m0l, or _cache_from_m0l for one service */
  method CacheOf(list: seq<Info>, only: Option<Addr>) returns (cache: array<bv8>)
    ensures fresh(cache) && cache.Length == CACHE_SIZE
    ensures forall p: Prefix :: IsManaged(cache[..], p) <==> Listed(list, only, p)
  {
    hide IsManaged;
    cache := new bv8[CACHE_SIZE](_ => 0);
    EmptyIsEmpty(cache[..]);
    var i := 0;
    while i < |list|
      invariant 0 <= i <= |list|
      invariant forall p: Prefix :: IsManaged(cache[..], p) <==> Listed(list[..i], only, p)
    {
      ListedMore(list, only, i);
      if only.None? || list[i].addr == only.value {
        ManageList(cache, list[i].prefixes);
      }
      i := i + 1;
    }
    assert list[..i] == list;
  }

  lemma EmptyIsEmpty(c: Cache)
    requires forall i :: 0 <= i < CACHE_SIZE ==> c[i] == 0
    ensures forall p: Prefix :: !IsManaged(c, p)
  {
    EmptyBytes(c);
  }

  lemma ListedMore(list: seq<Info>, only: Option<Addr>, i: nat)
    requires i < |list|
    ensures forall p: Prefix :: Listed(list[..i + 1], only, p) <==>
      Listed(list[..i], only, p) || ((only.None? || list[i].addr == only.value) && p in list[i].prefixes)
  {
    var more, less := list[..i + 1], list[..i];
    assert forall j :: 0 <= j < i ==> more[j] == less[j];
    assert more[i] == list[i];
  }

  method ManageList(cache: array<bv8>, prefixes: seq<Prefix>)
    requires cache.Length == CACHE_SIZE
    modifies cache
    ensures forall p: Prefix :: IsManaged(cache[..], p) <==> p in prefixes || old(IsManaged(cache[..], p))
  {
    hide IsManaged;
    var k := 0;
    while k < |prefixes|
      invariant 0 <= k <= |prefixes|
      invariant forall p: Prefix :: IsManaged(cache[..], p) <==> p in prefixes[..k] || old(IsManaged(cache[..], p))
    {
      assert prefixes[..k + 1] == prefixes[..k] + [prefixes[k]];
      Manage(cache, prefixes[k]);
      k := k + 1;
    }
    assert prefixes[..k] == prefixes;
  }

  // ---- Groups of prefixes ------------------------------------------------------------------------------------------

  /** The number of prefixes that share their first digits. */
  function GroupSize(digits: nat): (n: nat)
    requires digits <= 4
    ensures n > 0
  {
    if digits == 0 then 65536 else if digits == 1 then 4096 else if digits == 2 then 256 else if digits == 3 then 16 else 1
  }

  /** A prefix, as a big-endian number, masked to its first digits. */
  function Group(h: Prefix, digits: nat): (g: Prefix)
    requires digits <= 4
  {
    h - h % GroupSize(digits)
  }

  /** The 16-bit number read from the two bytes of a big-endian prefix. */
  function Slot(h: Prefix): Prefix { h / 256 + 256 * (h % 256) }

  /** The bytes of a prefix are swapped, so that swapping them again gives it back. */
  lemma SlotSwaps(first: nat, second: nat)
    requires first < 256 && second < 256
    ensures Slot(256 * first + second) == 256 * second + first
    ensures Slot(Slot(256 * first + second)) == 256 * first + second
  {
    assert (256 * first + second) / 256 == first && (256 * first + second) % 256 == second;
    assert (256 * second + first) / 256 == second && (256 * second + first) % 256 == first;
  }

  lemma GroupTwice(h: Prefix, digits: nat)
    requires digits <= 4
    ensures Group(Group(h, digits), digits) == Group(h, digits)
  {
  }

  /** The managed prefixes are whole groups. */
  ghost predicate Coalesced(c: Cache, digits: nat)
    requires digits <= 4
  {
    forall h: Prefix :: IsManaged(c, Slot(h)) == IsManaged(c, Slot(Group(h, digits)))
  }

  /** meta1_prefixes_check_coalescence_all, over all prefixes as meta0_utils_foreach_prefix lists them */
  method CheckCoalescence(c: Cache, digits: nat) returns (ok: bool)
    requires digits <= 4
    ensures ok <==> Coalesced(c, digits)
  {
    hide IsManaged, Slot, Group;
    var h: Prefix := 0;
    ghost var n := 0;
    while true
      invariant h == n && forall p: Prefix :: p < n ==> IsManaged(c, Slot(p)) == IsManaged(c, Slot(Group(p, digits)))
      decreases 65536 - n
    {
      if IsManaged(c, Slot(h)) != IsManaged(c, Slot(Group(h, digits))) {
        return false;
      }
      n := n + 1;
      h := (h + 1) % 65536;
      if h == 0 {
        return true;
      }
    }
  }

  // ---- Names of databases -------------------------------------------------------------------------------------------

  function Digit(n: nat): char
    requires n < 16
  {
    "0123456789ABCDEF"[n]
  }

  lemma DigitsDiffer(a: nat, b: nat)
    requires a < 16 && b < 16
    ensures Digit(a) == Digit(b) <==> a == b
  {
  }

  /** The four digits of a prefix. */
  function Hex(h: Prefix): (s: string)
    ensures |s| == 4
  {
    [Digit(h / 4096), Digit(h / 256 % 16), Digit(h / 16 % 16), Digit(h % 16)]
  }

  ghost function Name(h: Prefix, digits: nat): string
    requires digits <= 4
  {
    Hex(h)[..digits] + seq(4 - digits, _ => '0')
  }

  /** meta1_backend_basename: the digits of a prefix, the last ones overwritten */
  method Basename(h: Prefix, digits: nat) returns (dst: string)
    requires digits <= 4
    ensures dst == Name(h, digits) && ReadHex(dst) == Group(h, digits)
  {
    hide Digit, ReadHex, Group;
    NameIsGroup(h, digits);
    dst := Hex(h);
    var i := digits;
    while i < 4
      invariant digits <= i <= 4 && |dst| == 4 && dst[..digits] == Hex(h)[..digits]
      invariant forall j :: digits <= j < i ==> dst[j] == '0'
    {
      dst := dst[i := '0'];
      i := i + 1;
    }
  }

  function Nibble(h: Prefix, j: nat): (n: nat)
    requires j < 4
    ensures n < 16
  {
    if j == 0 then h / 4096 else if j == 1 then h / 256 % 16 else if j == 2 then h / 16 % 16 else h % 16
  }

  /** The first digits, as a number. */
  function Leading(h: Prefix, digits: nat): nat
    requires digits <= 4
  {
    if digits == 0 then 0 else 16 * Leading(h, digits - 1) + Nibble(h, digits - 1)
  }

  lemma LeadingIs(h: Prefix, digits: nat)
    requires digits <= 4
    ensures Group(h, digits) == Leading(h, digits) * GroupSize(digits)
  {
    LeadingQuotient(h, digits);
    Euclid(h, GroupSize(digits));
  }

  lemma Euclid(h: nat, n: nat)
    requires n > 0
    ensures h - h % n == h / n * n
  {
  }

  lemma LeadingQuotient(h: Prefix, digits: nat)
    requires digits <= 4
    ensures Leading(h, digits) == h / GroupSize(digits)
  {
    if digits > 1 {
      LeadingQuotient(h, digits - 1);
      OneMoreDigit(h, digits);
    } else if digits == 1 {
      assert Leading(h, 0) == 0;
    }
  }

  lemma OneMoreDigit(h: Prefix, digits: nat)
    requires 2 <= digits <= 4
    ensures h / GroupSize(digits) == 16 * (h / GroupSize(digits - 1)) + Nibble(h, digits - 1)
  {
  }

  lemma {:induction false} SameLeading(a: Prefix, b: Prefix, digits: nat)
    requires digits <= 4
    ensures Leading(a, digits) == Leading(b, digits) <==> forall j :: 0 <= j < digits ==> Nibble(a, j) == Nibble(b, j)
  {
    hide Nibble;
    if digits > 0 { SameLeading(a, b, digits - 1); }
  }

  lemma SameGroup(a: Prefix, b: Prefix, digits: nat)
    requires digits <= 4
    ensures Group(a, digits) == Group(b, digits) <==> Leading(a, digits) == Leading(b, digits)
  {
    hide Leading, Group;
    LeadingIs(a, digits);
    LeadingIs(b, digits);
  }

  /** Two prefixes have the same name exactly when they are in the same group. */
  lemma SameNameSameGroup(a: Prefix, b: Prefix, digits: nat)
    requires digits <= 4
    ensures Name(a, digits) == Name(b, digits) <==> Group(a, digits) == Group(b, digits)
  {
    hide Digit, Group, Leading, Nibble, Hex;
    var x, y := Name(a, digits), Name(b, digits);
    forall j | 0 <= j < digits ensures x[j] == y[j] <==> Nibble(a, j) == Nibble(b, j) {
      HexIs(a, j);
      HexIs(b, j);
      DigitsDiffer(Nibble(a, j), Nibble(b, j));
    }
    assert forall j :: digits <= j < 4 ==> x[j] == y[j];
    assert x == y <==> forall j :: 0 <= j < digits ==> x[j] == y[j];
    SameLeading(a, b, digits);
    SameGroup(a, b, digits);
  }

  /** The value of a hexadecimal digit. */
  function DigitValue(c: char): nat {
    if '0' <= c <= '9' then c as nat - '0' as nat
    else if 'A' <= c <= 'F' then c as nat - 'A' as nat + 10
    else 16
  }

  /** The number that hexadecimal digits spell. */
  function ReadHex(s: string): nat { if s == [] then 0 else 16 * ReadHex(s[..|s| - 1]) + DigitValue(s[|s| - 1]) }

  lemma DigitReads(n: nat)
    requires n < 16
    ensures DigitValue(Digit(n)) == n
  {
  }

  lemma {:induction false} LeadingReads(h: Prefix, digits: nat)
    requires digits <= 4
    ensures ReadHex(Hex(h)[..digits]) == Leading(h, digits)
  {
    hide Digit, Hex, Nibble, DigitValue;
    if digits > 0 {
      LeadingReads(h, digits - 1);
      assert Hex(h)[..digits][..digits - 1] == Hex(h)[..digits - 1];
      HexIs(h, digits - 1);
      DigitReads(Nibble(h, digits - 1));
    }
  }

  lemma ZeroReads(s: string)
    ensures ReadHex(s + ['0']) == 16 * ReadHex(s)
  {
    assert (s + ['0'])[..|s|] == s;
  }

  /** The name of the database of a prefix, read as a number, is the first prefix of its group. */
  lemma NameIsGroup(h: Prefix, digits: nat)
    requires digits <= 4
    ensures ReadHex(Name(h, digits)) == Group(h, digits)
  {
    hide Digit, Hex, ReadHex, Leading, Group;
    LeadingReads(h, digits);
    LeadingIs(h, digits);
    var s := Hex(h)[..digits];
    ZeroReads(s);
    ZeroReads(s + ['0']);
    ZeroReads(s + ['0'] + ['0']);
    ZeroReads(s + ['0'] + ['0'] + ['0']);
    var zeroes := seq(4 - digits, _ => '0');
    if digits == 0 {
      assert s + zeroes == s + ['0'] + ['0'] + ['0'] + ['0'];
    } else if digits == 1 {
      assert s + zeroes == s + ['0'] + ['0'] + ['0'];
    } else if digits == 2 {
      assert s + zeroes == s + ['0'] + ['0'];
    } else if digits == 3 {
      assert s + zeroes == s + ['0'];
    } else {
      assert s + zeroes == s;
    }
  }

  lemma HexIs(h: Prefix, j: nat)
    requires j < 4
    ensures Hex(h)[j] == Digit(Nibble(h, j))
  {
  }

  /** Managed prefixes are whole groups exactly when two prefixes with the same database name are
      both managed or both not. */
  lemma CoalescedIsByName(c: Cache, digits: nat)
    requires digits <= 4
    ensures Coalesced(c, digits) <==>
      forall a: Prefix, b: Prefix :: Name(a, digits) == Name(b, digits) ==> IsManaged(c, Slot(a)) == IsManaged(c, Slot(b))
  {
    hide IsManaged, Name, Group, Slot;
    if Coalesced(c, digits) {
      forall a: Prefix, b: Prefix | Name(a, digits) == Name(b, digits)
        ensures IsManaged(c, Slot(a)) == IsManaged(c, Slot(b))
      {
        SameNameSameGroup(a, b, digits);
      }
    }
    if forall a: Prefix, b: Prefix :: Name(a, digits) == Name(b, digits) ==> IsManaged(c, Slot(a)) == IsManaged(c, Slot(b)) {
      forall h: Prefix ensures IsManaged(c, Slot(h)) == IsManaged(c, Slot(Group(h, digits))) {
        GroupTwice(h, digits);
        SameNameSameGroup(h, Group(h, digits), digits);
      }
    }
  }

  lemma UniformIsCoalesced(c: Cache, digits: nat)
    requires digits <= 4 && (AllManaged(c) || NoneManaged(c))
    ensures Coalesced(c, digits)
  {
    hide IsManaged;
  }

  // ---- Loading ----------------------------------------------------------------------------------------------------------

  datatype Loaded = RemoteError | Partial | Inconsistent | Zeroed | Done

  /** The prefixes listed for a service are whole groups. */
  ghost predicate ListedByGroup(list: seq<Info>, local: Addr, digits: nat)
    requires digits <= 4
  {
    forall h: Prefix :: Listed(list, Some(local), Slot(h)) == Listed(list, Some(local), Slot(Group(h, digits)))
  }

  /** What a load decides, from what it received and what is in place. */
  ghost function Verdict(remote: Option<seq<Info>>, local: Addr, digits: nat, before: Cache): Loaded
    requires digits <= 4
  {
    if remote.None? then RemoteError
    else
      var list := remote.value;
      var anyone := exists p: Prefix :: Listed(list, None, p);
      if anyone && !(forall p: Prefix :: Listed(list, None, p)) then Partial
      else if !ListedByGroup(list, local, digits) then Inconsistent
      else if !anyone && !NoneManaged(before) then Zeroed
      else Done
  }

  class PrefixSet {
    var cache: array<bv8>
    var byPrefix: Option<Table>

    ghost predicate Valid(digits: nat)
      reads this, cache
    {
      digits <= 4 && cache.Length == CACHE_SIZE && Coalesced(cache[..], digits)
    }

    /** meta1_prefixes_init */
    constructor (ghost digits: nat)
      requires digits <= 4
      ensures Valid(digits) && fresh(cache) && byPrefix.None? && NoneManaged(cache[..])
    {
      cache := new bv8[CACHE_SIZE](_ => 0);
      byPrefix := None;
      new;
      EmptyIsEmpty(cache[..]);
      UniformIsCoalesced(cache[..], digits);
    }

    /** meta1_prefixes_manage_all */
    method ManageAll(ghost digits: nat)
      requires Valid(digits)
      modifies cache
      ensures Valid(digits) && AllManaged(cache[..])
    {
      hide IsManaged;
      var i := 0;
      while i < 65536
        invariant 0 <= i <= 65536 && forall p: Prefix :: p < i ==> IsManaged(cache[..], p)
      {
        Manage(cache, i);
        i := i + 1;
      }
      UniformIsCoalesced(cache[..], digits);
    }

    /** _cache_load_from_m0: takes the mapping received, or refuses it and changes nothing. */
    method Load(remote: Option<seq<Info>>, local: Addr, format: Addr -> Url, digits: nat)
      returns (r: Loaded, updated: Option<seq<Prefix>>)
      requires Valid(digits)
      modifies this`cache, this`byPrefix
      ensures Valid(digits) && r == Verdict(remote, local, digits, old(cache[..]))
      ensures r != Done ==> cache == old(cache) && cache[..] == old(cache[..]) && byPrefix == old(byPrefix) && updated.None?
      ensures r == Done ==> fresh(cache) && byPrefix.Some? && updated.Some? == old(byPrefix.Some?)
      ensures r == Done ==> forall p: Prefix :: IsManaged(cache[..], p) <==> Listed(remote.value, Some(local), p)
      ensures r == Done ==> forall q: Prefix, u :: multiset(byPrefix.value[q])[u] == InList(remote.value, format, u, q)
      ensures r == Done && updated.Some? ==> Ascends(updated.value)
      ensures r == Done && updated.Some? ==>
        forall p: Prefix :: p in updated.value <==> IsManaged(cache[..], p) != old(IsManaged(cache[..], p))
    {
      hide IsManaged, Listed, Slot, Group;
      updated := None;
      if remote.None? {
        return RemoteError, None;
      }
      var all := CacheOf(remote.value, None);
      var own := CacheOf(remote.value, Some(local));
      var empty := CacheEmpty(all[..]);
      var full := CacheFull(all[..]);
      if !empty && !full {
        return Partial, None;
      }
      var ok := CheckCoalescence(own[..], digits);
      if !ok {
        return Inconsistent, None;
      }
      var table := ListToArray(remote.value, format);
      var before := CacheEmpty(cache[..]);
      if !before && empty {
        return Zeroed, None;
      }
      if byPrefix.Some? {
        var differs := Differences(cache[..], own[..]);
        updated := Some(differs);
      }
      byPrefix := Some(table);
      cache := own;
      return Done, updated;
    }
  }

  ghost predicate Ascends(s: seq<Prefix>) { forall i, j :: 0 <= i < j < |s| ==> s[i] < s[j] }

  /** The prefixes that are managed in one bitmap only. */
  method Differences(a: Cache, b: Cache) returns (s: seq<Prefix>)
    ensures Ascends(s) && forall p: Prefix :: p in s <==> IsManaged(b, p) != IsManaged(a, p)
  {
    hide IsManaged;
    s := [];
    var i: int := 0;
    while i < 65536
      invariant 0 <= i <= 65536 && Ascends(s) && forall k :: 0 <= k < |s| ==> s[k] < i
      invariant forall p: Prefix :: p in s <==> p < i && IsManaged(b, p) != IsManaged(a, p)
    {
      if IsManaged(a, i) != IsManaged(b, i) {
        s := s + [i];
      }
      i := i + 1;
    }
  }
}
