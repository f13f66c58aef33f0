/**
 The upload of a content (core/sds.c): a stream of buffers is cut into metachunks, each one
 a streamed PUT to as many destinations as it has chunks.
 */
module Upload {
  import opened Basics
  import opened HttpPut

  datatype Chunk = Chunk(success: bool, body: Block)

  datatype Metachunk = Metachunk(meta: int, offset: int, size: nat, chunks: seq<Chunk>)

  /** Where an upload goes: it may resume a content at some offset and position. */
  datatype Target = Target(chunkSize: nat, partial: bool, offset: int, metaPos: int)

  /** A metachunk in progress, with the number of its chunks. */
  datatype Current = Current(meta: int, offset: int, n: nat)

  datatype Outcome = Progress | Draining | Failed

  // ---- The layout of finished metachunks --------------------------------------------------------------

  function StartOffset(t: Target): int { if t.partial then t.offset else 0 }

  function StartMeta(t: Target): int { if t.partial then t.metaPos else 0 }

  function NextOffset(t: Target, done: seq<Metachunk>): int {
    if done == [] then StartOffset(t) else done[|done| - 1].offset + done[|done| - 1].size
  }

  function NextMeta(t: Target, done: seq<Metachunk>): int {
    if done == [] then StartMeta(t) else done[|done| - 1].meta + 1
  }

  /** A metachunk that has some chunks, at least one of them stored, with the same bytes. */
  ghost predicate Holds(m: Metachunk, bytes: Block) {
    && m.size == |bytes|
    && (exists c :: c in m.chunks && c.success)
    && (forall c :: c in m.chunks && c.success ==> c.body == bytes)
  }

  ghost predicate Contiguous(t: Target, done: seq<Metachunk>) {
    forall i :: 0 <= i < |done| ==> done[i].offset == NextOffset(t, done[..i]) && done[i].meta == NextMeta(t, done[..i])
  }

  ghost predicate AllHold(done: seq<Metachunk>, stored: seq<Block>) {
    |done| == |stored| && forall i :: 0 <= i < |done| ==> Holds(done[i], stored[i])
  }

  /** All metachunks are full, but maybe for the last one, which is empty only if alone. */
  ghost predicate Cut(size: nat, stored: seq<Block>) {
    && (forall i :: 0 <= i < |stored| - 1 ==> |stored[i]| == size)
    && (stored != [] ==> |stored[|stored| - 1]| <= size && (|stored| > 1 ==> stored[|stored| - 1] != []))
  }

  ghost predicate AllFull(size: nat, stored: seq<Block>) { forall i :: 0 <= i < |stored| ==> |stored[i]| == size }

  // ---- The upload ---------------------------------------------------------------------------------------

  class Upload {
    const target: Target
    var started: bool
    var finished: bool
    var readyForData: bool
    var queue: seq<Block>
    /** The numbers of chunks of the metachunks prepared. */
    var ready: seq<nat>
    var current: Option<Current>
    var put: Put?
    var localDone: nat
    var done: seq<Metachunk>
    /** The bytes fed by the application, those of each metachunk, and whether no error occurred. */
    ghost var input: Block
    ghost var stored: seq<Block>
    ghost var clean: bool

    ghost function Own(): set<object>
      reads this
    {
      if put == null then {this} else {this, put}
    }

    /** The end marker is in the queue, or was taken from it. */
    ghost predicate QueueOk()
      reads this
    {
      && (forall i :: 0 <= i < |queue| - 1 ==> queue[i] != [])
      && (queue != [] ==> (readyForData <==> queue[|queue| - 1] != []))
    }

    /** The bytes of the metachunk in progress. */
    ghost function Running(): Block
      reads Own()
    {
      if put == null then [] else put.Body()
    }

    ghost predicate PutOk()
      reads Own()
    {
      if put == null then localDone == 0
      else
        && put.Valid() && put.length.None? && put.soft == target.chunkSize && localDone == |put.Body()|
        && current.Some? && |put.dests| == current.value.n
        && current.value.offset == NextOffset(target, done) && current.value.meta == NextMeta(target, done)
    }

    /** A metachunk ends short only at the end of the stream, and ends there; it is empty only if it is the first. */
    ghost predicate ShortOk()
      reads Own()
    {
      && (put != null && put.Ended() && |put.Body()| < target.chunkSize ==> !readyForData && queue == [])
      && (put != null && !readyForData && queue == [] ==> put.Ended())
      && (put != null && put.Body() == [] ==> done == [] || (queue != [] && queue[0] != []))
      && (!AllFull(target.chunkSize, stored) ==> put == null && !readyForData && queue == [])
    }

    ghost predicate Valid()
      reads Own()
    {
      && target.chunkSize > 0 && PutOk()
      && (clean ==>
        && QueueOk() && ShortOk() && Concat(stored) + Running() + Concat(queue) == input
        && AllHold(done, stored) && Contiguous(target, done) && Cut(target.chunkSize, stored)
        && (started <==> put != null || done != [])
        && (finished ==> put == null && queue == [] && !readyForData)
        && (!readyForData && queue == [] ==> started))
    }

    /** oio_sds_upload_init */
    constructor (target: Target)
      requires target.chunkSize > 0
      ensures Valid() && this.target == target && clean && input == [] && done == []
      ensures put == null && !finished && readyForData && queue == [] && ready == []
    {
      this.target := target;
      started, finished, readyForData := false, false, true;
      queue, ready, current, put, localDone, done := [], [], None, null, 0, [];
      input, stored, clean := [], [], true;
    }

    /** oio_sds_upload_feed */
    method Feed(b: Block)
      requires Valid() && !finished && readyForData
      modifies this`queue, this`readyForData, this`input
      ensures Valid() && input == old(input) + b && queue == old(queue) + [b] && readyForData == (b != [])
    {
      hide AllHold, Contiguous, Cut, AllFull, Concat, Put.Valid, Put.Body, Put.Ended, NextOffset, NextMeta;
      ConcatAppend(queue, b);
      queue := queue + [b];
      if b == [] {
        readyForData := false;
      }
      input := input + b;
      assert Concat(stored) + Running() + (Concat(old(queue)) + b) == Concat(stored) + Running() + Concat(old(queue)) + b;
    }

    /** _sds_upload_renew: a new metachunk, and its PUT. */
    method Renew(prepared: Option<seq<nat>>) returns (ok: bool)
      requires Valid() && put == null && !finished && queue != [] && (queue[0] != [] || !started)
      requires prepared.Some? ==> prepared.value != []
      modifies this`started, this`ready, this`current, this`put, this`clean
      ensures Valid() && ok == (old(ready) != [] || prepared.Some?) && clean == (old(clean) && ok)
      ensures ok ==> put != null && fresh(put) && put.state == WholeBegin && put.remaining == target.chunkSize
      ensures ok ==>
        var all := if old(ready) != [] then old(ready) else prepared.value;
        put.dests == seq(all[0], _ => Dest(None, [], 0, Begin)) && put.queue == [] && ready == all[1..]
      ensures !ok ==> put == null
    {
      hide AllHold, Contiguous, Cut, AllFull, Put.Valid, Put.Body, Put.Ended, Concat, NextOffset, NextMeta;
      started := true;
      if ready == [] {
        if prepared.None? {
          clean := false;
          return false;
        }
        ready := prepared.value;
      }
      current := Some(Current(NextMeta(target, done), NextOffset(target, done), ready[0]));
      ready := ready[1..];
      put := new Put(None, target.chunkSize, current.value.n);
      return true;
    }

    /** The metachunk in progress takes what it can of the next buffer. */
    method Push()
      requires Valid() && put != null && put.remaining > 0 && queue != []
      modifies this`queue, this`localDone, put`queue, put`remaining
      ensures Valid() && put.Body() == old(put.Body()) + Taken(old(queue), old(put.remaining))
      ensures queue == Left(old(queue), old(put.remaining)) && (old(queue)[0] == [] ==> put.Ended())
      ensures put.queue == old(put.queue) + [Taken(old(queue), old(put.remaining))]
    {
      hide AllHold, Contiguous, Cut, AllFull, Put.Valid, Put.Body, Put.Ended, Concat, NextOffset, NextMeta;
      var buf, rest := queue[0], queue[1..];
      var max := put.remaining;
      if |buf| > max {
        Splits(queue, max);
        buf, rest := buf[..max], [buf[max..]] + rest;
      } else {
        Heads(queue);
      }
      put.Feed(buf);
      queue := rest;
      localDone := localDone + |buf|;
    }

    /** _sds_upload_finish: unless every chunk failed, the metachunk in progress is done. */
    method Finish() returns (ok: bool)
      requires Valid() && put != null && put.state == WholeFinished && !finished
      modifies this`current, this`put, this`localDone, this`done, this`stored, this`clean
      ensures Valid() && put == null && clean == (old(clean) && ok)
      ensures ok <==> exists i :: 0 <= i < |old(put).dests| && Success(old(put).dests[i])
      ensures ok ==>
        var c := old(current).value;
        done == old(done) + [Metachunk(c.meta, c.offset, old(localDone), ChunksOf(old(put).dests))]
      ensures !ok ==> done == old(done)
    {
      hide AllHold, Contiguous, Cut, AllFull, Put.Valid, Put.Body, Put.Ended, Concat, NextOffset, NextMeta, Success, Holds;
      Wanted(put);
      var failures := put.Failures();
      AllFailed(put.dests);
      if failures >= |put.dests| {
        ok, clean := false, false;
      } else {
        ok := true;
        var m := Metachunk(current.value.meta, current.value.offset, localDone, ChunksOf(put.dests));
        Succeeded(put, m);
        if clean {
          MetachunkAdds(target, done, stored, m, put.Body());
          ConcatAppend(stored, put.Body());
        }
        done := done + [m];
        stored := stored + [put.Body()];
      }
      put, current, localDone := null, None, 0;
    }

    /** The PUT of a metachunk makes a move. */
    method StepPut(round: Round) returns (ok: bool)
      requires Valid() && put != null
      modifies this`clean, put`dests, put`queue, put`popped, put`state
      ensures Valid() && clean == (old(clean) && ok) && put.All() == old(put.All())
      ensures (put.dests, put.queue, put.state, ok) == Stepped(None, old(put.dests), old(put.queue), old(put.state), round)
    {
      hide AllHold, Contiguous, Cut, AllFull, Put.Valid, Concat, NextOffset, NextMeta, Stepped;
      ok := put.Step(round);
      clean := clean && ok;
    }

    /** Ends the PUT of a metachunk that wants no more bytes, as far as the scheduler goes. */
    method Drain(rounds: seq<Round>) returns (r: Outcome)
      requires Valid() && put != null && put.ExpectedBytes() == 0
      modifies this`clean, put`dests, put`queue, put`popped, put`state, put`remaining
      ensures Valid() && clean == (old(clean) && r != Failed) && put.Body() == old(put.Body()) && put.ExpectedBytes() == 0
      ensures r == Progress ==> put.state == WholeFinished
      ensures (put.dests, put.queue, put.state, r) == Drained(old(put.dests), old(put.queue), old(put.state), rounds)
    {
      hide AllHold, Contiguous, Cut, AllFull, Put.Valid, Concat, NextOffset, NextMeta, Stepped;
      var k := 0;
      while put.state != WholeFinished && k < |rounds|
        invariant 0 <= k <= |rounds|
        invariant Valid() && clean == old(clean) && put.ExpectedBytes() == 0 && put.Body() == old(put.Body())
        invariant Drained(put.dests, put.queue, put.state, rounds[k..])
          == Drained(old(put.dests), old(put.queue), old(put.state), rounds)
      {
        assert rounds[k..][1..] == rounds[k + 1..];
        DrainFeed();
        var ok := StepPut(rounds[k]);
        if !ok {
          return Failed;
        }
        k := k + 1;
      }
      return if put.state == WholeFinished then Progress else Draining;
    }

    /** Feeds an end marker to a PUT that wants no more bytes. */
    method DrainFeed()
      requires Valid() && put != null && put.ExpectedBytes() == 0 && put.state != WholeFinished
      modifies put`queue, put`remaining
      ensures Valid() && put.Body() == old(put.Body()) && put.remaining == 0 && put.Ended()
      ensures put.queue == old(put.queue) + [[]]
    {
      hide AllHold, Contiguous, Cut, AllFull, Concat, NextOffset, NextMeta, Closed, Follows;
      put.Feed([]);
    }

    /** A running metachunk takes some of the next buffer, if any, and its PUT makes a move. */
    method Advance(round: Round) returns (ok: bool)
      requires Valid() && put != null && put.ExpectedBytes() != 0
      modifies this`queue, this`localDone, this`clean, put
      ensures Valid() && put == old(put) && clean == (old(clean) && ok)
      ensures old(queue) == [] ==> queue == [] && put.Body() == old(put.Body())
      ensures old(queue) != [] ==>
        queue == Left(old(queue), old(put.remaining)) && put.Body() == old(put.Body()) + Taken(old(queue), old(put.remaining))
      ensures
        var taken := if old(queue) == [] then [] else [Taken(old(queue), old(put.remaining))];
        (put.dests, put.queue, put.state, ok) == Stepped(None, old(put.dests), old(put.queue) + taken, old(put.state), round)
    {
      hide Valid, Concat, Stepped, Put.Valid;
      RemainsWanted();
      assert old(put.queue) + [] == old(put.queue);
      if queue != [] {
        Push();
      }
      ok := StepPut(round);
    }

    lemma RemainsWanted()
      requires Valid() && put != null
      ensures put.remaining >= 0
    {
      hide Put.Valid;
      Wanted(put);
    }

    /** oio_sds_upload_step, with what the proxy and the scheduler answer */
    method Step(prepared: Option<seq<nat>>, rounds: seq<Round>) returns (r: Outcome)
      requires Valid() && rounds != [] && (prepared.Some? ==> prepared.value != [])
      modifies Own()
      ensures Valid() && fresh(Own() - old(Own())) && input == old(input) && clean == (old(clean) && r != Failed)
      ensures old(finished) ==> unchanged(this) && r == Progress
      ensures !old(finished) && old(put) == null ==>
        if old(queue) == [] then finished == !readyForData && put == null && r == Progress
        else if old(queue)[0] == [] && old(started) then
          finished && !readyForData && put == null && queue == old(queue)[1..] && r == Progress
        else
          && (put != null <==> r == Progress) && (r == Progress <==> old(ready) != [] || prepared.Some?)
          && queue == old(queue) && !finished
      ensures !old(finished) && old(put) == null && put != null ==>
        var all := if old(ready) != [] || prepared.None? then old(ready) else prepared.value;
        && all != [] && put.dests == seq(all[0], _ => Dest(None, [], 0, Begin)) && put.queue == []
        && put.state == WholeBegin && put.remaining == target.chunkSize && ready == all[1..]
      ensures old(put) != null ==> finished == old(finished) && ready == old(ready)
      ensures old(put) == null && put == null ==> ready == old(ready) || r == Failed
      ensures old(clean) ==> readyForData == old(readyForData)
      ensures !old(finished) && old(put) != null && old(put.ExpectedBytes()) == 0 ==>
        var drained := Drained(old(put.dests), old(put.queue), old(put.state), rounds);
        if drained.3 != Progress then r == drained.3
        else r == if exists i :: 0 <= i < |drained.0| && Success(drained.0[i]) then Progress else Failed
      ensures !old(finished) && old(put) != null && old(put.ExpectedBytes()) == 0 && r == Progress ==>
        var dests := Drained(old(put.dests), old(put.queue), old(put.state), rounds).0;
        && put == null && queue == old(queue) && old(current).Some?
        && done == old(done) + [Metachunk(old(current).value.meta, old(current).value.offset, old(localDone), ChunksOf(dests))]
      ensures old(finished) || old(put) == null || old(put.ExpectedBytes()) != 0 ==> done == old(done)
      ensures !old(finished) && old(put) != null && old(put.ExpectedBytes()) != 0 && old(queue) != [] ==>
        put == old(put) && queue == Left(old(queue), old(put.remaining))
        && put.Body() == old(put.Body()) + Taken(old(queue), old(put.remaining))
      ensures !old(finished) && old(put) != null && old(put.ExpectedBytes()) != 0 ==>
        var taken := if old(queue) == [] then [] else [Taken(old(queue), old(put.remaining))];
        put == old(put) && (put.dests, put.queue, put.state, r == Progress)
          == Stepped(None, old(put.dests), old(put.queue) + taken, old(put.state), rounds[0])
    {
      hide AllHold, Contiguous, Cut, AllFull, Put.Valid, Concat, NextOffset, NextMeta, Stepped, Success, Drained, ChunksOf;
      r := Progress;
      if finished {
        return;
      }
      if put != null {
        if put.ExpectedBytes() == 0 {
          r := Drain(rounds);
          if r == Progress {
            var ok := Finish();
            r := if ok then Progress else Failed;
          }
          return;
        }
        var ok := Advance(rounds[0]);
        r := if ok then Progress else Failed;
      } else if queue == [] {
        if !readyForData {
          finished := true;
        }
      } else if queue[0] == [] && started {
        Heads(queue);
        queue, readyForData, finished := queue[1..], false, true;
      } else {
        var ok := Renew(prepared);
        r := if ok then Progress else Failed;
      }
    }

    /** The size of the content that oio_sds_upload_commit announces */
    method CommittedSize() returns (size: int)
      ensures size == target.offset + SizeOf(done)
    {
      size := target.offset;
      var k := 0;
      while k < |done|
        invariant 0 <= k <= |done| && size == target.offset + SizeOf(done[..k])
      {
        assert done[..k + 1][..k] == done[..k];
        size := size + done[k].size;
        k := k + 1;
      }
      assert done[..k] == done;
    }
  }

  lemma Wanted(p: Put)
    requires p.Valid() && p.soft >= 0
    ensures p.remaining >= 0 && |p.Body()| <= p.soft
    ensures p.state == WholeFinished ==> AllFinished(p.dests)
  {
  }

  /** What end markers and steps make of a PUT, until it is done or the scheduler stops. */
  function Drained(dests: seq<Dest>, queue: seq<Block>, state: WholeState, rounds: seq<Round>)
    : (seq<Dest>, seq<Block>, WholeState, Outcome)
    decreases |rounds|
  {
    if state == WholeFinished then (dests, queue, state, Progress)
    else if rounds == [] then (dests, queue, state, Draining)
    else
      var s := Stepped(None, dests, queue + [[]], state, rounds[0]);
      if s.3 then Drained(s.0, s.1, s.2, rounds[1..]) else (s.0, s.1, s.2, Failed)
  }

  /** What a metachunk takes of the head of a queue, and what is left. */
  function Taken(queue: seq<Block>, max: nat): (b: Block)
    requires queue != []
    ensures b <= queue[0] && |b| <= max && (|b| == max || b == queue[0])
  {
    if |queue[0]| > max then queue[0][..max] else queue[0]
  }

  function Left(queue: seq<Block>, max: nat): (rest: seq<Block>)
    requires queue != []
    ensures Taken(queue, max) == queue[0] ==> rest == queue[1..]
    ensures Taken(queue, max) != queue[0] ==> rest != [] && rest[1..] == queue[1..] && Taken(queue, max) + rest[0] == queue[0]
  {
    if |queue[0]| > max then [queue[0][max..]] + queue[1..] else queue[1..]
  }

  /** Taking the head of a queue. */
  lemma Heads(queue: seq<Block>)
    requires queue != []
    ensures Concat(queue) == queue[0] + Concat(queue[1..])
  {
    assert queue == [queue[0]] + queue[1..];
    ConcatSplit([queue[0]], queue[1..]);
    assert Concat([queue[0]]) == queue[0] by { ConcatAppend([], queue[0]); }
  }

  /** Taking a part of the head of a queue. */
  lemma Splits(queue: seq<Block>, max: nat)
    requires queue != [] && max < |queue[0]|
    ensures Concat(queue) == queue[0][..max] + Concat([queue[0][max..]] + queue[1..])
  {
    Heads(queue);
    Heads([queue[0][max..]] + queue[1..]);
    assert queue[0] == queue[0][..max] + queue[0][max..];
  }

  /** The chunks of a metachunk, as the destinations of its PUT left them. */
  function ChunksOf(dests: seq<Dest>): seq<Chunk> {
    seq(|dests|, i requires 0 <= i < |dests| => Chunk(Success(dests[i]), dests[i].sent))
  }

  /** A PUT with a success stored the whole body in each chunk that succeeded. */
  lemma Succeeded(p: Put, m: Metachunk)
    requires p.length.None? && p.Valid() && p.state == WholeFinished && m.chunks == ChunksOf(p.dests) && m.size == |p.Body()|
    requires exists i :: 0 <= i < |p.dests| && Success(p.dests[i])
    ensures Holds(m, p.Body()) && p.Ended()
  {
    hide Success, Follows, Closed, Concat;
    var i :| 0 <= i < |p.dests| && Success(p.dests[i]);
    Complete(p, i);
    assert m.chunks[i].success;
    forall j | 0 <= j < |m.chunks| && m.chunks[j].success ensures m.chunks[j].body == p.Body() { Complete(p, j); }
  }

  lemma MetachunkAdds(t: Target, done: seq<Metachunk>, stored: seq<Block>, m: Metachunk, body: Block)
    requires AllHold(done, stored) && Contiguous(t, done) && Holds(m, body) && AllFull(t.chunkSize, stored)
    requires m.offset == NextOffset(t, done) && m.meta == NextMeta(t, done)
    requires |body| <= t.chunkSize && (body == [] ==> done == [])
    ensures AllHold(done + [m], stored + [body]) && Contiguous(t, done + [m]) && Cut(t.chunkSize, stored + [body])
    ensures AllFull(t.chunkSize, stored + [body]) <==> |body| == t.chunkSize
  {
    hide Holds, NextOffset, NextMeta;
    assert forall i :: 0 <= i <= |done| ==> (done + [m])[..i] == done[..i];
    assert done[..|done|] == done;
    assert (stored + [body])[|stored|] == body;
  }

  // ---- Conservation ---------------------------------------------------------------------------------------

  ghost function SizeOf(done: seq<Metachunk>): nat {
    if done == [] then 0 else SizeOf(done[..|done| - 1]) + done[|done| - 1].size
  }

  lemma {:induction false} SizeIsConcat(done: seq<Metachunk>, stored: seq<Block>)
    requires AllHold(done, stored)
    ensures SizeOf(done) == |Concat(stored)|
  {
    hide Holds;
    if done != [] {
      var n := |done| - 1;
      SizeIsConcat(done[..n], stored[..n]);
      assert Holds(done[n], stored[n]);
      assert done[n].size == |stored[n]| by { HoldsSize(done[n], stored[n]); }
    }
  }

  lemma HoldsSize(m: Metachunk, bytes: Block)
    requires Holds(m, bytes)
    ensures m.size == |bytes|
  {
  }

  lemma {:induction false} FullLength(size: nat, stored: seq<Block>)
    requires AllFull(size, stored)
    ensures |Concat(stored)| == |stored| * size
  {
    if stored != [] {
      FullLength(size, stored[..|stored| - 1]);
      assert |stored| * size == (|stored| - 1) * size + size;
    }
  }

  /** How many metachunks a content of some length takes. */
  function MetachunkCount(total: nat, size: nat): nat
    requires size > 0
  {
    if total == 0 then 1 else (total + size - 1) / size
  }

  lemma CutCount(size: nat, stored: seq<Block>)
    requires size > 0 && stored != [] && Cut(size, stored)
    ensures |stored| == MetachunkCount(|Concat(stored)|, size)
  {
    var n := |stored| - 1;
    FullLength(size, stored[..n]);
    var total := |Concat(stored)|;
    assert total == n * size + |stored[n]|;
    if total > 0 {
      RoundedUp(n, size, |stored[n]|);
    }
  }

  lemma RoundedUp(n: nat, size: nat, last: nat)
    requires size > 0 && 0 < last <= size
    ensures (n * size + last + size - 1) / size == n + 1
  {
    var x := n * size + last + size - 1;
    assert x == size * (n + 1) + (last - 1);
    DivUnique(x, size, n + 1, last - 1);
  }

  /** An upload that finishes without error stored the stream: as many metachunks as its length takes,
      all full but the last one, contiguous, each with a chunk stored and only good ones, that
      concatenate to the bytes fed. */
  lemma Conservation(u: Upload)
    requires u.Valid() && u.clean && u.finished
    ensures Concat(u.stored) == u.input && AllHold(u.done, u.stored) && Contiguous(u.target, u.done)
    ensures |u.done| == MetachunkCount(|u.input|, u.target.chunkSize)
    ensures forall i :: 0 <= i < |u.done| - 1 ==> u.done[i].size == u.target.chunkSize
    ensures SizeOf(u.done) == |u.input|
  {
    hide Holds, Contiguous;
    assert Concat(u.queue) == [];
    assert Concat(u.stored) + u.Running() + Concat(u.queue) == Concat(u.stored);
    CutCount(u.target.chunkSize, u.stored);
    SizeIsConcat(u.done, u.stored);
    forall i | 0 <= i < |u.done| - 1 ensures u.done[i].size == u.target.chunkSize {
      HoldsSize(u.done[i], u.stored[i]);
    }
  }

  /** The offset and the position of each metachunk, in closed form. */
  lemma {:induction false} Offsets(t: Target, done: seq<Metachunk>, i: nat)
    requires Contiguous(t, done) && i < |done|
    ensures done[i].offset == (if t.partial then t.offset else 0) + SizeOf(done[..i])
    ensures done[i].meta == (if t.partial then t.metaPos else 0) + i
  {
    if i > 0 {
      Offsets(t, done, i - 1);
      assert done[..i][..i - 1] == done[..i - 1];
    }
  }
}
