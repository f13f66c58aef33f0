/**
 The download of a content (core/sds.c): chunks are organized into metachunks laid out one
 after the other, and ranges of the content are read metachunk by metachunk.
 */
module Download {
  import opened Basics
  import opened HttpPut

  /** The replica of a metachunk. */
  datatype Chunk = Chunk(url: nat, meta: nat, intra: nat, size: nat, score: nat)

  datatype Metachunk = Metachunk(meta: nat, size: nat, offset: nat, chunks: seq<Chunk>)

  datatype Organized = NoChunk | TooMany | Gap | Metachunks(out: seq<Metachunk>)

  const MAX_METACHUNKS: nat := 1024 * 1024

  // ---- Layout ---------------------------------------------------------------------------------------------

  ghost function Sum(sizes: seq<nat>): nat {
    if sizes == [] then 0 else Sum(sizes[..|sizes| - 1]) + sizes[|sizes| - 1]
  }

  ghost function Sizes(ms: seq<Metachunk>): seq<nat> { seq(|ms|, i requires 0 <= i < |ms| => ms[i].size) }

  /** Each metachunk starts where the ones before it end. */
  ghost predicate LaidOut(ms: seq<Metachunk>) {
    forall i :: 0 <= i < |ms| ==> ms[i].offset == Sum(Sizes(ms)[..i])
  }

  lemma {:induction false} SumGrows(sizes: seq<nat>, i: nat, j: nat)
    requires i <= j <= |sizes|
    ensures Sum(sizes[..i]) <= Sum(sizes[..j])
    ensures i < j ==> Sum(sizes[..i]) + sizes[i] <= Sum(sizes[..j])
  {
    if i < j {
      SumGrows(sizes, i, j - 1);
      assert sizes[..j][..j - 1] == sizes[..j - 1];
    }
  }

  // ---- Organizing chunks -----------------------------------------------------------------------------------

  /** The chunks of a position, the last listed first. */
  function Select(chunks: seq<Chunk>, meta: nat): seq<Chunk> {
    if chunks == [] then []
    else
      var rest := Select(chunks[..|chunks| - 1], meta);
      var c := chunks[|chunks| - 1];
      if c.meta == meta then [c] + rest else rest
  }

  lemma {:induction false} SelectHas(chunks: seq<Chunk>, meta: nat, c: Chunk)
    ensures c in Select(chunks, meta) <==> c in chunks && c.meta == meta
    ensures multiset(Select(chunks, meta))[c] == (if c.meta == meta then multiset(chunks)[c] else 0)
  {
    if chunks != [] {
      var n := |chunks| - 1;
      SelectHas(chunks[..n], meta, c);
      assert chunks == chunks[..n] + [chunks[n]];
    }
  }

  /** _get_meta_bound */
  method MetaBound(chunks: seq<Chunk>) returns (bound: nat)
    requires chunks != []
    ensures forall c :: c in chunks ==> c.meta < bound
    ensures exists c :: c in chunks && c.meta == bound - 1
  {
    var highest := 0;
    var k := 0;
    while k < |chunks|
      invariant 0 <= k <= |chunks|
      invariant forall i :: 0 <= i < k ==> chunks[i].meta <= highest
      invariant k > 0 ==> exists i :: 0 <= i < k && chunks[i].meta == highest
    {
      if chunks[k].meta > highest || k == 0 {
        highest := chunks[k].meta;
      }
      k := k + 1;
    }
    bound := highest + 1;
    var i :| 0 <= i < |chunks| && chunks[i].meta == highest;
    assert chunks[i] in chunks;
  }

  function Resized(cs: seq<Chunk>, size: nat): seq<Chunk> { seq(|cs|, i requires 0 <= i < |cs| => cs[i].(size := size)) }

  /** The size of a metachunk is that of its first chunk, times the number of data fragments. */
  function MetaSize(cs: seq<Chunk>, k: nat): nat
    requires cs != []
  {
    cs[0].size * k
  }

  /** A metachunk made of the chunks of its position, in some order, with the size of the first one. */
  ghost predicate MadeOf(m: Metachunk, chunks: seq<Chunk>, meta: nat, k: nat) {
    && m.meta == meta
    && exists cs: seq<Chunk> ::
      && cs != [] && multiset(cs) == multiset(Select(chunks, meta))
      && m.size == MetaSize(cs, k) && m.chunks == Resized(cs, m.size)
  }

  /** Some position before that of a chunk has no chunk. */
  ghost predicate HasGap(chunks: seq<Chunk>, start: nat) {
    exists c, meta: nat :: c in chunks && start <= meta < c.meta && Select(chunks, meta) == []
  }

  /** Each chunk goes at the head of the list of its position. */
  method Distribute(chunks: seq<Chunk>, start: nat, n: nat) returns (groups: seq<seq<Chunk>>)
    requires forall c :: c in chunks ==> start <= c.meta < start + n
    ensures |groups| == n && forall j :: 0 <= j < n ==> groups[j] == Select(chunks, start + j)
  {
    groups := seq(n, _ => []);
    var k := 0;
    while k < |chunks|
      invariant 0 <= k <= |chunks| && |groups| == n
      invariant forall j :: 0 <= j < n ==> groups[j] == Select(chunks[..k], start + j)
    {
      assert chunks[..k + 1][..k] == chunks[..k];
      var c := chunks[k];
      assert c in chunks;
      groups := groups[c.meta - start := [c] + groups[c.meta - start]];
      k := k + 1;
    }
    assert chunks[..k] == chunks;
  }

  /** Checks that there is no gap, and arranges the chunks of each metachunk. */
  method ArrangeAll(groups: seq<seq<Chunk>>, arrange: seq<Chunk> -> seq<Chunk>) returns (r: Option<seq<seq<Chunk>>>)
    requires forall s :: multiset(arrange(s)) == multiset(s)
    ensures r.None? <==> exists j :: 0 <= j < |groups| && groups[j] == []
    ensures r.Some? ==> |r.value| == |groups|
    ensures r.Some? ==> forall j :: 0 <= j < |groups| ==> r.value[j] != [] && multiset(r.value[j]) == multiset(groups[j])
  {
    var out: seq<seq<Chunk>> := [];
    var i := 0;
    while i < |groups|
      invariant 0 <= i <= |groups| && |out| == i
      invariant forall j :: 0 <= j < i ==> groups[j] != [] && out[j] != [] && multiset(out[j]) == multiset(groups[j])
    {
      if groups[i] == [] {
        return None;
      }
      NotEmpty(arrange(groups[i]), groups[i]);
      out := out + [arrange(groups[i])];
      i := i + 1;
    }
    return Some(out);
  }

  /** The metachunks of some lists of chunks, one after the other. */
  method LayOut(groups: seq<seq<Chunk>>, k: nat, start: nat) returns (out: seq<Metachunk>)
    requires forall j :: 0 <= j < |groups| ==> groups[j] != []
    ensures |out| == |groups| && LaidOut(out)
    ensures forall j :: 0 <= j < |out| ==>
      && out[j].meta == start + j && out[j].size == MetaSize(groups[j], k)
      && out[j].chunks == Resized(groups[j], out[j].size)
  {
    assert LaidOut([]) && Sum(Sizes([])) == 0;
    hide Resized, MetaSize, LaidOut, Sum, Sizes;
    out := [];
    var offset, i := 0, 0;
    while i < |groups|
      invariant 0 <= i <= |groups| && |out| == i && LaidOut(out) && offset == Sum(Sizes(out))
      invariant forall j :: 0 <= j < i ==>
        && out[j].meta == start + j && out[j].size == MetaSize(groups[j], k)
        && out[j].chunks == Resized(groups[j], out[j].size)
    {
      var size := MetaSize(groups[i], k);
      var m := Metachunk(start + i, size, offset, Resized(groups[i], size));
      LaidOutGrows(out, m);
      out := out + [m];
      offset := offset + size;
      i := i + 1;
    }
  }

  /** _organize_chunks; `arrange` shuffles or sorts the chunks of a metachunk. */
  method OrganizeChunks(chunks: seq<Chunk>, arrange: seq<Chunk> -> seq<Chunk>, k: nat, start: nat) returns (r: Organized)
    requires forall c :: c in chunks ==> c.meta >= start
    requires forall s :: multiset(arrange(s)) == multiset(s)
    ensures r.NoChunk? <==> chunks == []
    ensures r.TooMany? <==> exists c :: c in chunks && c.meta >= MAX_METACHUNKS
    ensures r.Gap? <==> chunks != [] && (forall c :: c in chunks ==> c.meta < MAX_METACHUNKS) && HasGap(chunks, start)
    ensures r.Metachunks? ==> forall c :: c in chunks ==> c.meta < start + |r.out|
    ensures r.Metachunks? ==> LaidOut(r.out)
    ensures r.Metachunks? ==> forall i :: 0 <= i < |r.out| ==> MadeOf(r.out[i], chunks, start + i, k)
  {
    hide LaidOut, Resized, Select;
    if chunks == [] {
      return NoChunk;
    }
    var bound := MetaBound(chunks);
    if bound > MAX_METACHUNKS {
      return TooMany;
    }
    ghost var top: Chunk :| top in chunks && top.meta == bound - 1;
    var groups := Distribute(chunks, start, bound - start);
    SelectHas(chunks, bound - 1, top);
    var arranged := ArrangeAll(groups, arrange);
    if arranged.None? {
      ghost var j :| 0 <= j < |groups| && groups[j] == [];
      assert start <= start + j < top.meta && Select(chunks, start + j) == [];
      return Gap;
    }
    forall meta: nat | start <= meta < bound ensures Select(chunks, meta) != [] { assert groups[meta - start] != []; }
    var out := LayOut(arranged.value, k, start);
    forall i | 0 <= i < |out| ensures MadeOf(out[i], chunks, start + i, k) {
      var cs := arranged.value[i];
      assert multiset(cs) == multiset(Select(chunks, start + i));
    }
    return Metachunks(out);
  }

  lemma NotEmpty(a: seq<Chunk>, b: seq<Chunk>)
    requires multiset(a) == multiset(b) && b != []
    ensures a != []
  {
    assert b[0] in multiset(b);
    assert b[0] in multiset(a);
  }

  lemma LaidOutGrows(ms: seq<Metachunk>, m: Metachunk)
    requires LaidOut(ms) && m.offset == Sum(Sizes(ms))
    ensures LaidOut(ms + [m]) && Sum(Sizes(ms + [m])) == Sum(Sizes(ms)) + m.size
  {
    var ns := ms + [m];
    assert Sizes(ns)[..|ms|] == Sizes(ms);
    assert forall i :: 0 <= i <= |ms| ==> Sizes(ns)[..i] == Sizes(ms)[..i];
  }

  // ---- Reading ranges --------------------------------------------------------------------------------------

  /** Metachunks laid out one after the other, and the bytes of each. */
  ghost predicate Content(ms: seq<Metachunk>, data: seq<Block>) {
    LaidOut(ms) && |data| == |ms| && forall i :: 0 <= i < |ms| ==> |data[i]| == ms[i].size
  }

  /** The bytes of the metachunk `i` are where its offset says. */
  lemma {:induction false} DataAt(ms: seq<Metachunk>, data: seq<Block>, i: nat)
    requires |data| == |ms| && i < |ms| && forall j :: 0 <= j < |ms| ==> |data[j]| == ms[j].size
    ensures |Concat(data)| == Sum(Sizes(ms)) && Sum(Sizes(ms)[..i]) + ms[i].size <= Sum(Sizes(ms))
    ensures Concat(data)[Sum(Sizes(ms)[..i])..Sum(Sizes(ms)[..i]) + ms[i].size] == data[i]
  {
    var n := |ms| - 1;
    var ns := ms[..n];
    assert Sizes(ns) == Sizes(ms)[..n];
    if i < n {
      assert Sizes(ns)[..i] == Sizes(ms)[..i];
      DataAt(ns, data[..n], i);
    } else {
      ContentLength(ns, data[..n]);
      assert Sizes(ms)[..i] == Sizes(ns);
    }
  }

  lemma {:induction false} ContentLength(ms: seq<Metachunk>, data: seq<Block>)
    requires |data| == |ms| && forall j :: 0 <= j < |ms| ==> |data[j]| == ms[j].size
    ensures |Concat(data)| == Sum(Sizes(ms))
  {
    if ms != [] {
      var n := |ms| - 1;
      assert Sizes(ms[..n]) == Sizes(ms)[..n];
      ContentLength(ms[..n], data[..n]);
    }
  }

  lemma SliceOfSlice(b: Block, at: nat, size: nat, from: nat, n: nat)
    requires at + size <= |b| && from + n <= size
    ensures b[at..at + size][from..from + n] == b[at + from..at + from + n]
  {
    var x, y := b[at..at + size][from..from + n], b[at + from..at + from + n];
    assert forall k :: 0 <= k < n ==> x[k] == b[at + from + k] && y[k] == b[at + from + k];
    assert x == y;
  }

  /** A range of a metachunk is the same bytes of the content. */
  lemma SliceAt(ms: seq<Metachunk>, data: seq<Block>, i: nat, from: nat, n: nat)
    requires Content(ms, data) && i < |ms| && from + n <= ms[i].size
    ensures |Concat(data)| == Sum(Sizes(ms)) && ms[i].offset + from + n <= |Concat(data)|
    ensures data[i][from..from + n] == Concat(data)[ms[i].offset + from..ms[i].offset + from + n]
  {
    hide Sum, Concat, Sizes;
    DataAt(ms, data, i);
    var all, at := Concat(data), ms[i].offset;
    assert data[i] == all[at..at + ms[i].size];
    SliceOfSlice(all, at, ms[i].size, from, n);
  }

  // ---- Reading a metachunk from its replicas -----------------------------------------------------------------

  /** What a replica gives of the bytes asked: all of them, some, or some and then an error. */
  datatype Reply = Full | Short(n: nat) | Broken(n: nat)

  const WORD: nat := 0x1_0000_0000_0000_0000

  function Given(r: Reply, size: nat): (n: nat)
    ensures n <= size
  {
    if r.Full? then size else Min(r.n, size)
  }

  /** What is left to read, in 64 bits; the greatest number stands for an unknown size, which any reply ends. */
  function Less(left: nat, n: nat): nat {
    if left == WORD - 1 then 0 else if n <= left then left - n else (left - n) % WORD
  }

  /** Whether the loop over the replicas ends without error, `left` bytes being expected. */
  predicate Served(size: nat, left: nat, replies: seq<Reply>)
    decreases |replies|
  {
    left == 0 || (replies != [] && !replies[0].Broken? && Served(size, Less(left, Given(replies[0], size)), replies[1..]))
  }

  /** The bytes that the loop gives: each replica is asked for the whole slice again. */
  function Output(slice: Block, left: nat, replies: seq<Reply>): Block
    decreases |replies|
  {
    if left == 0 || replies == [] then []
    else
      var n := Given(replies[0], |slice|);
      slice[..n] + (if replies[0].Broken? then [] else Output(slice, Less(left, n), replies[1..]))
  }

  /** _download_range_from_metachunk_replicated */
  method ReadReplicated(slice: Block, replies: seq<Reply>) returns (ok: bool, out: Block)
    ensures ok == Served(|slice|, |slice|, replies) && out == Output(slice, |slice|, replies)
  {
    hide Less, Given, Served, Output;
    out := [];
    var left: nat, i: nat := |slice|, 0;
    assert replies[0..] == replies && out + Output(slice, left, replies) == Output(slice, left, replies);
    while left > 0
      invariant i <= |replies|
      invariant Served(|slice|, left, replies[i..]) == Served(|slice|, |slice|, replies)
      invariant out + Output(slice, left, replies[i..]) == Output(slice, |slice|, replies)
      decreases |replies| - i, left
    {
      ReadStep(slice, left, replies, i);
      if i == |replies| {
        return false, out;
      }
      var n := Given(replies[i], |slice|);
      assert (out + slice[..n]) + Output(slice, Less(left, n), replies[i + 1..])
        == out + (slice[..n] + Output(slice, Less(left, n), replies[i + 1..]));
      out := out + slice[..n];
      if replies[i].Broken? {
        return false, out;
      }
      left, i := Less(left, n), i + 1;
    }
    ReadDone(slice, replies[i..]);
    return true, out;
  }

  lemma ReadStep(slice: Block, left: nat, replies: seq<Reply>, i: nat)
    requires left > 0 && i <= |replies|
    ensures i == |replies| ==> !Served(|slice|, left, replies[i..]) && Output(slice, left, replies[i..]) == []
    ensures i < |replies| ==>
      var n := Given(replies[i], |slice|);
      if replies[i].Broken? then !Served(|slice|, left, replies[i..]) && Output(slice, left, replies[i..]) == slice[..n]
      else
        && Served(|slice|, left, replies[i..]) == Served(|slice|, Less(left, n), replies[i + 1..])
        && Output(slice, left, replies[i..]) == slice[..n] + Output(slice, Less(left, n), replies[i + 1..])
  {
    hide Less, Given;
    if i < |replies| { assert replies[i..][1..] == replies[i + 1..]; }
  }

  lemma ReadDone(slice: Block, replies: seq<Reply>)
    ensures Served(|slice|, 0, replies) && Output(slice, 0, replies) == []
  {
  }

  /** Some replicas give nothing, unless the size is unknown, and the next one gives all. */
  predicate Clean(size: nat, replies: seq<Reply>) {
    size == 0 || (replies != [] && !replies[0].Broken? && (
      || Given(replies[0], size) == size
      || (Given(replies[0], size) == 0 && size != WORD - 1 && Clean(size, replies[1..]))))
  }

  lemma {:induction false} CleanIsRight(slice: Block, replies: seq<Reply>)
    requires Clean(|slice|, replies)
    ensures Served(|slice|, |slice|, replies) && Output(slice, |slice|, replies) == slice
  {
    if slice != [] && Given(replies[0], |slice|) < |slice| { CleanIsRight(slice, replies[1..]); }
  }

  /** Two bytes are asked, and one, then both, then both again are given: what is left wraps to the greatest number,
      and the read succeeds with five bytes. */
  lemma WrappedRead(slice: Block)
    requires |slice| == 2
    ensures Served(2, 2, [Short(1), Full, Full]) && |Output(slice, 2, [Short(1), Full, Full])| == 5
  {
    var replies := [Short(1), Full, Full];
    assert replies[1..] == [Full, Full] && [Full, Full][1..] == [Full] && [Full][1..] == [];
    assert Less(2, 1) == 1 && Less(1, 2) == WORD - 1 && Less(WORD - 1, 2) == 0;
    assert Served(2, WORD - 1, [Full]) && Output(slice, WORD - 1, [Full]) == slice[..2] + [];
    assert Served(2, 1, [Full, Full]) && Output(slice, 1, [Full, Full]) == slice[..2] + Output(slice, WORD - 1, [Full]);
  }

  /** The bytes after a short reply start over. */
  lemma {:induction false} ShortIsWrong(size: nat, replies: seq<Reply>) returns (slice: Block)
    requires Served(size, size, replies) && !Clean(size, replies)
    ensures |slice| == size && Output(slice, size, replies) != slice
  {
    var n := Given(replies[0], size);
    if n == 0 && size != WORD - 1 {
      slice := ShortIsWrong(size, replies[1..]);
    } else {
      slice := seq(size, i => if i == n then 1 else 0);
      var out := Output(slice, Less(size, n), replies[1..]);
      StartsOver(slice, Less(size, n), replies[1..]);
      assert Output(slice, size, replies) == slice[..n] + out;
      if out != [] { assert (slice[..n] + out)[n] == out[0]; }
    }
  }

  /** What follows starts with the first byte of the slice, if there is anything. */
  lemma {:induction false} StartsOver(slice: Block, left: nat, replies: seq<Reply>)
    requires slice != []
    ensures
      var out := Output(slice, left, replies);
      out == [] || out[0] == slice[0]
    decreases |replies|
  {
    if left > 0 && replies != [] && !replies[0].Broken? {
      StartsOver(slice, Less(left, Given(replies[0], |slice|)), replies[1..]);
    }
  }

  /** A read that ends without error is right, whatever the bytes, exactly when all the replicas but the last
      one gave nothing. */
  lemma ReadIsRight(size: nat, replies: seq<Reply>)
    requires Served(size, size, replies)
    ensures (forall slice: Block :: |slice| == size ==> Output(slice, size, replies) == slice) <==> Clean(size, replies)
  {
    hide Served, Output, Clean;
    if Clean(size, replies) {
      forall slice: Block | |slice| == size ensures Output(slice, size, replies) == slice { CleanIsRight(slice, replies); }
    } else {
      var slice := ShortIsWrong(size, replies);
    }
  }

  // ---- Reading ranges over metachunks ------------------------------------------------------------------------

  /** What is asked of a metachunk: bytes relative to its start. */
  datatype Ask = Ask(index: nat, offset: nat, size: nat)

  ghost predicate InBounds(ms: seq<Metachunk>, q: Ask) {
    q.index < |ms| && q.offset < ms[q.index].size && q.offset + q.size <= ms[q.index].size
  }

  function Min(a: nat, b: nat): nat { if a < b then a else b }

  /** What the replicas of a metachunk reply, for each range. */
  type Replies = (nat, nat) -> seq<Reply>

  /** All the requests of a range are answered, or cleanly so. */
  ghost predicate AllServed(requests: seq<Ask>, replies: Replies, turn: nat) {
    forall q :: q in requests ==> Served(q.size, q.size, replies(turn, q.index))
  }

  ghost predicate AllClean(requests: seq<Ask>, replies: Replies, turn: nat) {
    forall q :: q in requests ==> Clean(q.size, replies(turn, q.index))
  }

  /** _download_range: the requests stay within their metachunks; unless one fails, and if all are read
      cleanly, they give the range of the content. */
  method DownloadRange(ms: seq<Metachunk>, data: seq<Block>, offset: nat, size: nat, replies: Replies, turn: nat)
    returns (ok: bool, out: Block, requests: seq<Ask>)
    requires Content(ms, data) && offset + size <= |Concat(data)|
    ensures forall q :: q in requests ==> InBounds(ms, q)
    ensures ok <==> AllServed(requests, replies, turn)
    ensures ok && AllClean(requests, replies, turn) ==> out == Concat(data)[offset..offset + size]
  {
    hide Sum, Concat, LaidOut, Served, Output, Clean;
    ok, out, requests := true, [], [];
    var at: nat, left: nat, k: nat := offset, size, 0;
    ghost var all := Concat(data);
    LayoutLength(ms, data);
    while k < |ms|
      invariant 0 <= k <= |ms| && at + left == offset + size && offset <= at
      invariant AllClean(requests, replies, turn) ==> out == all[offset..at]
      invariant left > 0 ==> at >= Sum(Sizes(ms)[..k])
      invariant (forall q :: q in requests ==> InBounds(ms, q)) && AllServed(requests, replies, turn)
    {
      LayoutStep(ms, k);
      if ms[k].offset <= at < ms[k].offset + ms[k].size {
        var from := at - ms[k].offset;
        var n := Min(ms[k].size - from, left);
        ghost var before := requests;
        requests := requests + [Ask(k, from, n)];
        assert requests[|before|] == Ask(k, from, n);
        var bytes;
        ok, bytes := ReadReplicated(data[k][from..from + n], replies(turn, k));
        out := out + bytes;
        if !ok {
          return;
        }
        SliceAt(ms, data, k, from, n);
        if AllClean(requests, replies, turn) {
          CleanIsRight(data[k][from..from + n], replies(turn, k));
          assert forall q :: q in before ==> q in requests;
          assert all[offset..at] + all[at..at + n] == all[offset..at + n];
        }
        at, left := at + n, left - n;
      }
      k := k + 1;
    }
    assert Sizes(ms)[..k] == Sizes(ms);
  }

  lemma LayoutLength(ms: seq<Metachunk>, data: seq<Block>)
    requires Content(ms, data)
    ensures |Concat(data)| == Sum(Sizes(ms)) && Sum(Sizes(ms)[..0]) == 0
  {
    ContentLength(ms, data);
  }

  lemma LayoutStep(ms: seq<Metachunk>, k: nat)
    requires LaidOut(ms) && k < |ms|
    ensures ms[k].offset == Sum(Sizes(ms)[..k]) && Sum(Sizes(ms)[..k + 1]) == ms[k].offset + ms[k].size
  {
    assert Sizes(ms)[..k + 1][..k] == Sizes(ms)[..k];
  }

  // ---- A whole download -------------------------------------------------------------------------------------

  datatype Range = Range(offset: nat, size: nat)

  datatype Downloaded = BadRange | ReadFailed(partial: Block) | Bytes(out: Block)

  predicate Satisfiable(r: Range, total: nat) { r.offset < total && r.offset + r.size <= total }

  ghost function Slices(content: Block, ranges: seq<Range>): Block
    requires Within(ranges, |content|)
  {
    if ranges == [] then []
    else
      var r := ranges[|ranges| - 1];
      Slices(content, ranges[..|ranges| - 1]) + content[r.offset..r.offset + r.size]
  }

  method TotalSize(ms: seq<Metachunk>) returns (total: nat)
    ensures total == Sum(Sizes(ms))
  {
    total := 0;
    var k := 0;
    while k < |ms|
      invariant 0 <= k <= |ms| && total == Sum(Sizes(ms)[..k])
    {
      assert Sizes(ms)[..k + 1][..k] == Sizes(ms)[..k];
      total := total + ms[k].size;
      k := k + 1;
    }
    assert Sizes(ms)[..k] == Sizes(ms);
  }

  /** The ranges to read: those asked, if all are within the content, or its start, up to a limit. */
  ghost function Wanted(ranges: seq<Range>, limit: Option<nat>, total: nat): seq<Range> {
    if ranges != [] then ranges else [Range(0, if limit.None? then total else Min(limit.value, total))]
  }

  ghost predicate Within(ranges: seq<Range>, total: nat) {
    forall i :: 0 <= i < |ranges| ==> ranges[i].offset + ranges[i].size <= total
  }

  ghost function Lengths(ranges: seq<Range>): seq<nat> { seq(|ranges|, i requires 0 <= i < |ranges| => ranges[i].size) }

  /** Some bytes are those of the ranges of a content, in order. */
  ghost predicate Carries(out: Block, content: Block, ranges: seq<Range>) {
    && |out| == Sum(Lengths(ranges))
    && forall k :: 0 <= k < |ranges| ==> CarriesAt(out, content, ranges, k)
  }

  ghost predicate CarriesAt(out: Block, content: Block, ranges: seq<Range>, k: nat)
    requires k < |ranges|
  {
    var at, r := Sum(Lengths(ranges)[..k]), ranges[k];
    at + r.size <= |out| && r.offset + r.size <= |content| && out[at..at + r.size] == content[r.offset..r.offset + r.size]
  }

  /** A range more. */
  lemma CarriesOn(out: Block, content: Block, ranges: seq<Range>, more: Block, k: nat)
    requires ranges != [] && k < |ranges| - 1 && CarriesAt(out, content, ranges[..|ranges| - 1], k)
    ensures CarriesAt(out + more, content, ranges, k)
  {
    hide Sum;
    assert Lengths(ranges)[..k] == Lengths(ranges[..|ranges| - 1])[..k];
    var at, size := Sum(Lengths(ranges)[..k]), ranges[k].size;
    assert (out + more)[at..at + size] == out[at..at + size];
  }

  lemma CarriesLast(out: Block, content: Block, ranges: seq<Range>)
    requires ranges != [] && |out| == Sum(Lengths(ranges[..|ranges| - 1]))
    requires ranges[|ranges| - 1].offset + ranges[|ranges| - 1].size <= |content|
    ensures
      var n := |ranges| - 1;
      var more := content[ranges[n].offset..ranges[n].offset + ranges[n].size];
      CarriesAt(out + more, content, ranges, n) && |out + more| == Sum(Lengths(ranges))
  {
    var n := |ranges| - 1;
    assert Lengths(ranges)[..n] == Lengths(ranges[..n]);
    var more := content[ranges[n].offset..ranges[n].offset + ranges[n].size];
    assert (out + more)[|out|..|out| + ranges[n].size] == more;
  }

  lemma {:induction false} SlicesCarry(content: Block, ranges: seq<Range>)
    requires Within(ranges, |content|)
    ensures Carries(Slices(content, ranges), content, ranges)
  {
    hide CarriesAt, Sum;
    if ranges == [] {
      NothingCarried(content);
    } else {
      var n := |ranges| - 1;
      var out, more := Slices(content, ranges[..n]), content[ranges[n].offset..ranges[n].offset + ranges[n].size];
      SlicesCarry(content, ranges[..n]);
      CarriesLast(out, content, ranges);
      forall k | 0 <= k < n ensures CarriesAt(out + more, content, ranges, k) { CarriesOn(out, content, ranges, more, k); }
    }
  }

  lemma NothingCarried(content: Block)
    ensures Carries([], content, [])
  {
  }

  lemma StartSliced(content: Block, r: Range)
    requires r.offset + r.size <= |content|
    ensures Slices(content, [r]) == content[r.offset..r.offset + r.size]
  {
    assert Slices(content, [r]) == Slices(content, [r][..0]) + content[r.offset..r.offset + r.size];
  }

  /** The reads of all the ranges were clean. */
  ghost predicate CleanReads(asked: seq<seq<Ask>>, replies: Replies) {
    forall k :: 0 <= k < |asked| ==> AllClean(asked[k], replies, k)
  }

  /** The ranges, one after the other, until a read fails. */
  method ReadRanges(ms: seq<Metachunk>, data: seq<Block>, ranges: seq<Range>, replies: Replies)
    returns (ok: bool, out: Block, ghost asked: seq<seq<Ask>>)
    requires Content(ms, data) && Within(ranges, |Concat(data)|)
    ensures ok && CleanReads(asked, replies) ==> out == Slices(Concat(data), ranges)
    ensures !ok <==> exists k :: 0 <= k < |asked| && !AllServed(asked[k], replies, k)
    ensures forall k, q :: 0 <= k < |asked| && q in asked[k] ==> InBounds(ms, q)
  {
    hide Concat, Content, AllServed, AllClean, InBounds;
    ok, out, asked := true, [], [];
    var k: nat := 0;
    while k < |ranges|
      invariant k == |asked| <= |ranges|
      invariant CleanReads(asked, replies) ==> out == Slices(Concat(data), ranges[..k])
      invariant forall i :: 0 <= i < k ==> AllServed(asked[i], replies, i) && forall q :: q in asked[i] ==> InBounds(ms, q)
    {
      assert ranges[..k + 1][..k] == ranges[..k];
      var bytes, requests;
      ok, bytes, requests := DownloadRange(ms, data, ranges[k].offset, ranges[k].size, replies, k);
      ghost var before := asked;
      asked, out := asked + [requests], out + bytes;
      assert asked[k] == requests && forall i :: 0 <= i < k ==> asked[i] == before[i];
      if !ok {
        return;
      }
      assert CleanReads(asked, replies) ==> CleanReads(before, replies);
      k := k + 1;
    }
    assert ranges[..k] == ranges;
  }

  /** _download */
  method Download(ms: seq<Metachunk>, data: seq<Block>, ranges: seq<Range>, limit: Option<nat>, replies: Replies)
    returns (r: Downloaded, ghost asked: seq<seq<Ask>>)
    requires Content(ms, data)
    ensures r.BadRange? <==> exists q :: q in ranges && (q.offset >= |Concat(data)| || q.offset + q.size > |Concat(data)|)
    ensures r.Bytes? && CleanReads(asked, replies) ==>
      var wanted := Wanted(ranges, limit, |Concat(data)|);
      Within(wanted, |Concat(data)|) && r.out == Slices(Concat(data), wanted)
    ensures r.Bytes? && CleanReads(asked, replies) && ranges == [] ==>
      r.out == if limit.None? then Concat(data) else Concat(data)[..Min(limit.value, |Concat(data)|)]
    ensures r.Bytes? && CleanReads(asked, replies) && ranges != [] ==> Carries(r.out, Concat(data), ranges)
    ensures r.ReadFailed? <==> exists k :: 0 <= k < |asked| && !AllServed(asked[k], replies, k)
    ensures forall k, q :: 0 <= k < |asked| && q in asked[k] ==> InBounds(ms, q)
  {
    hide Sum, Concat, LaidOut, Content, AllServed, CleanReads, InBounds, Slices, Carries;
    asked := [];
    LayoutLength(ms, data);
    var total := TotalSize(ms);
    var all := ranges;
    if ranges != [] {
      var k := 0;
      while k < |ranges|
        invariant 0 <= k <= |ranges| && forall i :: 0 <= i < k ==> Satisfiable(ranges[i], total)
      {
        if !Satisfiable(ranges[k], total) {
          assert ranges[k] in ranges;
          return BadRange, asked;
        }
        k := k + 1;
      }
    } else {
      all := [Range(0, if limit.None? then total else Min(limit.value, total))];
    }
    assert all == Wanted(ranges, limit, total);
    SlicesCarry(Concat(data), all);
    StartSliced(Concat(data), all[0]);
    var ok, out;
    ok, out, asked := ReadRanges(ms, data, all, replies);
    return if ok then Bytes(out) else ReadFailed(out), asked;
  }

  // ---- Showing a content ---------------------------------------------------------------------------------------

  /** The order of _compare_chunks. */
  predicate NotAfter(a: Chunk, b: Chunk) {
    a.meta < b.meta || (a.meta == b.meta && (a.intra < b.intra || (a.intra == b.intra && a.score <= b.score)))
  }

  ghost predicate InOrder(cs: seq<Chunk>) { forall i, j :: 0 <= i < j < |cs| ==> NotAfter(cs[i], cs[j]) }

  datatype Reported = Reported(meta: nat, offset: nat, size: nat)

  function EndOf(reports: seq<Reported>): nat {
    if reports == [] then 0 else reports[|reports| - 1].offset + reports[|reports| - 1].size
  }

  function Seen(cs: seq<Chunk>): set<nat> { set c | c in cs :: c.meta }

  /** One report for each new position, starting where the one before it ends. */
  function Reports(sorted: seq<Chunk>): seq<Reported> {
    if sorted == [] then []
    else
      var n := |sorted| - 1;
      var rs, c := Reports(sorted[..n]), sorted[n];
      if c.meta in Seen(sorted[..n]) then rs else rs + [Reported(c.meta, EndOf(rs), c.size)]
  }

  /** The loop of oio_sds_show_content over the chunks, once sorted. */
  method ShowContent(sorted: seq<Chunk>) returns (reports: seq<Reported>)
    ensures reports == Reports(sorted)
  {
    hide EndOf, Reports, Seen;
    reports := [];
    var seen: set<nat> := {};
    var offset, k := 0, 0;
    NoReport();
    while k < |sorted|
      invariant 0 <= k <= |sorted| && reports == Reports(sorted[..k])
      invariant seen == Seen(sorted[..k]) && offset == EndOf(reports)
    {
      var c := sorted[k];
      assert sorted[..k + 1] == sorted[..k] + [c];
      SeenMore(sorted[..k], c);
      ReportsStep(sorted[..k], c);
      if c.meta !in seen {
        OneMore(reports, Reported(c.meta, offset, c.size));
        reports := reports + [Reported(c.meta, offset, c.size)];
        offset := offset + c.size;
        seen := seen + {c.meta};
      }
      k := k + 1;
    }
    assert sorted[..k] == sorted;
  }

  lemma NoReport()
    ensures EndOf([]) == 0 && Reports([]) == [] && Seen([]) == {}
  {
  }

  lemma OneMore(reports: seq<Reported>, r: Reported)
    ensures EndOf(reports + [r]) == r.offset + r.size
  {
  }

  lemma SeenMore(cs: seq<Chunk>, c: Chunk)
    ensures Seen(cs + [c]) == Seen(cs) + {c.meta}
    ensures c.meta in Seen(cs) ==> Seen(cs + [c]) == Seen(cs)
  {
  }

  // ---- The layout shown is the one downloaded -------------------------------------------------------------------

  /** Replicas agree on the size of their metachunk. */
  ghost predicate Agree(chunks: seq<Chunk>) {
    forall a, b :: a in chunks && b in chunks && a.meta == b.meta ==> a.size == b.size
  }

  ghost function ReportsOf(ms: seq<Metachunk>): seq<Reported> {
    seq(|ms|, i requires 0 <= i < |ms| => Reported(ms[i].meta, ms[i].offset, ms[i].size))
  }

  lemma MadeOfSize(m: Metachunk, chunks: seq<Chunk>, meta: nat, c: Chunk)
    requires MadeOf(m, chunks, meta, 1) && Agree(chunks) && c in chunks && c.meta == meta
    ensures m.size == c.size && m.meta == meta
  {
    var cs: seq<Chunk> :| cs != [] && multiset(cs) == multiset(Select(chunks, meta)) && m.size == MetaSize(cs, 1)
      && m.chunks == Resized(cs, m.size);
    assert cs[0] in multiset(cs);
    SelectHas(chunks, meta, cs[0]);
  }

  lemma MadeOfHas(m: Metachunk, chunks: seq<Chunk>, meta: nat) returns (c: Chunk)
    requires MadeOf(m, chunks, meta, 1)
    ensures c in chunks && c.meta == meta
  {
    var cs: seq<Chunk> :| cs != [] && multiset(cs) == multiset(Select(chunks, meta)) && m.size == MetaSize(cs, 1)
      && m.chunks == Resized(cs, m.size);
    assert cs[0] in multiset(cs);
    c := cs[0];
    SelectHas(chunks, meta, c);
  }

  /** The metachunks of sorted chunks, all positions from 0 having one. */
  ghost predicate Organizes(sorted: seq<Chunk>, ms: seq<Metachunk>) {
    && LaidOut(ms) && InOrder(sorted) && Agree(sorted)
    && (forall c :: c in sorted ==> c.meta < |ms|)
    && forall i :: 0 <= i < |ms| ==> MadeOf(ms[i], sorted, i, 1)
  }

  /** How many positions the first chunks have. */
  function Positions(sorted: seq<Chunk>, k: nat): nat
    requires k <= |sorted|
  {
    if k == 0 then 0 else sorted[k - 1].meta + 1
  }

  /** In sorted chunks without gap, the next position is the last one or the one after it. */
  lemma NextPosition(sorted: seq<Chunk>, ms: seq<Metachunk>, k: nat)
    requires Organizes(sorted, ms) && k < |sorted|
    requires forall m :: m in Seen(sorted[..k]) <==> 0 <= m < Positions(sorted, k)
    ensures sorted[k].meta + 1 == Positions(sorted, k) || sorted[k].meta == Positions(sorted, k)
  {
    hide MadeOf, LaidOut, Agree;
    var p := Positions(sorted, k);
    assert k > 0 ==> NotAfter(sorted[k - 1], sorted[k]);
    assert sorted[k] in sorted;
    if sorted[k].meta > p {
      var c := MadeOfHas(ms[p], sorted, p);
      var i :| 0 <= i < |sorted| && sorted[i] == c;
      SeenOrAfter(sorted, k, i);
    }
  }

  lemma SeenOrAfter(sorted: seq<Chunk>, k: nat, i: nat)
    requires InOrder(sorted) && k < |sorted| && i < |sorted|
    ensures sorted[i].meta in Seen(sorted[..k]) || sorted[k].meta <= sorted[i].meta
  {
    if i < k {
      assert sorted[i] in sorted[..k];
    } else if i > k {
      assert NotAfter(sorted[k], sorted[i]);
    }
  }

  lemma SeenHas(cs: seq<Chunk>, c: Chunk)
    requires c in cs
    ensures c.meta in Seen(cs)
  {
  }

  lemma LayoutNext(ms: seq<Metachunk>, p: nat)
    requires LaidOut(ms) && p < |ms|
    ensures EndOf(ReportsOf(ms[..p])) == ms[p].offset
  {
    if p > 0 {
      LayoutStep(ms, p - 1);
    }
  }

  /** A chunk at the next position is reported where its metachunk starts. */
  lemma ShownNext(sorted: seq<Chunk>, ms: seq<Metachunk>, p: nat, c: Chunk)
    requires Organizes(sorted, ms) && p < |ms| && c in sorted && c.meta == p
    ensures
      var rs := ReportsOf(ms[..p]);
      rs + [Reported(c.meta, EndOf(rs), c.size)] == ReportsOf(ms[..p + 1])
  {
    hide MadeOf, LaidOut, InOrder, Agree, EndOf;
    MadeOfSize(ms[p], sorted, p, c);
    LayoutNext(ms, p);
  }

  lemma ReportsStep(cs: seq<Chunk>, c: Chunk)
    ensures
      var rs := Reports(cs);
      Reports(cs + [c]) == if c.meta in Seen(cs) then rs else rs + [Reported(c.meta, EndOf(rs), c.size)]
  {
    hide EndOf, Seen;
    assert (cs + [c])[..|cs|] == cs;
  }

  lemma {:induction false} ShownPrefix(sorted: seq<Chunk>, ms: seq<Metachunk>, k: nat)
    requires Organizes(sorted, ms) && k <= |sorted|
    ensures Positions(sorted, k) <= |ms| && Reports(sorted[..k]) == ReportsOf(ms[..Positions(sorted, k)])
    ensures forall m :: m in Seen(sorted[..k]) <==> 0 <= m < Positions(sorted, k)
  {
    hide MadeOf, LaidOut, InOrder, Agree, EndOf, Reports, ReportsOf;
    if k == 0 {
      NothingShown(sorted, ms);
    } else {
      var c := sorted[k - 1];
      assert c in sorted;
      ShownPrefix(sorted, ms, k - 1);
      NextPosition(sorted, ms, k - 1);
      assert sorted[..k] == sorted[..k - 1] + [c];
      SeenMore(sorted[..k - 1], c);
      ReportsStep(sorted[..k - 1], c);
      if c.meta == Positions(sorted, k - 1) { ShownNext(sorted, ms, c.meta, c); }
    }
  }

  lemma NothingShown(sorted: seq<Chunk>, ms: seq<Metachunk>)
    ensures Reports(sorted[..0]) == ReportsOf(ms[..0]) && Seen(sorted[..0]) == {}
  {
  }

  /** When replicas agree on their size, the layout shown is that of the metachunks. */
  lemma ShownAsOrganized(sorted: seq<Chunk>, ms: seq<Metachunk>)
    requires Organizes(sorted, ms)
    ensures Reports(sorted) == ReportsOf(ms)
  {
    hide MadeOf, LaidOut, InOrder, Agree, Reports, ReportsOf;
    var n := |sorted|;
    ShownPrefix(sorted, ms, n);
    assert sorted[..n] == sorted;
    var p := Positions(sorted, n);
    if p < |ms| {
      var c := MadeOfHas(ms[p], sorted, p);
      SeenHas(sorted, c);
    }
    assert ms[..p] == ms;
  }
}
