/**
 A streamed PUT to several destinations (core/http_put.c). Buffers are queued and handed to
 all the destinations at once, when none of them has data left; the transfers themselves are
 the moves of an arbitrary scheduler.
 */
module HttpPut {
  import opened Basics

  type Byte = b: int | 0 <= b < 256
  type Block = seq<Byte>

  datatype DestState = Begin | Request | Paused | Reply | Finished

  /** A destination: what it has yet to send, and what it sent so far. */
  datatype Dest = Dest(buffer: Option<Block>, sent: Block, code: nat, state: DestState)

  datatype WholeState = WholeBegin | WholeReady | WholePaused | WholeFinished

  /** What the scheduler does during a step: transfers that end, then reads of some bytes, or a
      failure to wait. */
  datatype Round = Round(ends: seq<(nat, nat)>, fails: bool, sends: seq<(nat, nat)>)

  ghost function Concat(bs: seq<Block>): Block {
    if bs == [] then [] else Concat(bs[..|bs| - 1]) + bs[|bs| - 1]
  }

  lemma ConcatAppend(bs: seq<Block>, b: Block)
    ensures Concat(bs + [b]) == Concat(bs) + b
  {
    assert (bs + [b])[..|bs|] == bs;
  }

  lemma {:induction false} ConcatSplit(a: seq<Block>, b: seq<Block>)
    ensures Concat(a + b) == Concat(a) + Concat(b)
  {
    if b == [] {
      assert a + b == a;
    } else {
      var n := |b| - 1;
      assert (a + b)[..|a + b| - 1] == a + b[..n];
      ConcatSplit(a, b[..n]);
    }
  }

  /** After the end marker, an empty buffer, there are only others. */
  ghost predicate Closed(bs: seq<Block>) {
    forall i, j :: 0 <= i < j < |bs| && bs[i] == [] ==> bs[j] == []
  }

  lemma {:induction false} EmptyTail(bs: seq<Block>)
    requires forall i :: 0 <= i < |bs| ==> bs[i] == []
    ensures Concat(bs) == []
  {
    if bs != [] { EmptyTail(bs[..|bs| - 1]); }
  }

  function Pending(d: Dest): Block { if d.buffer.Some? then d.buffer.value else [] }

  function Success(d: Dest): bool { d.code / 100 == 2 }

  /** All but the last of the buffers handed out. */
  ghost function Before(popped: seq<Block>): Block { if popped == [] then [] else Concat(popped[..|popped| - 1]) }

  /** The length announced for the body, if it is known. */
  type Length = Option<nat>

  /** The body that was handed out so far is whole: its end marker was, or its length is reached. */
  ghost predicate Whole(popped: seq<Block>, length: Length) {
    [] in popped || length == Some(|Concat(popped)|)
  }

  /** A destination among those that were handed some buffers. */
  ghost predicate Follows(d: Dest, popped: seq<Block>, length: Length) {
    && (d.state != Finished ==>
      && d.code == 0 && d.sent + Pending(d) == Concat(popped) && |Before(popped)| <= |d.sent|
      && (popped == [] ==> d.buffer.None?) && (d.buffer == Some([]) ==> [] in popped)
      && (d.state == Reply ==> Whole(popped, length) && Pending(d) == []))
    && (d.state == Finished && Success(d) ==> Whole(popped, length) && d.sent == Concat(popped))
  }

  /** No more than the length was handed out. */
  ghost predicate WithinLength(popped: seq<Block>, length: Length) { length.Some? ==> |Concat(popped)| <= length.value }

  lemma PartWithin(a: seq<Block>, b: seq<Block>, length: Length)
    requires WithinLength(a + b, length)
    ensures WithinLength(a, length)
  {
    ConcatSplit(a, b);
  }

  // ---- Moves of a destination ------------------------------------------------------------------------

  function Hand(d: Dest, b: Block): Dest { d.(buffer := Some(b)) }

  predicate Waits(d: Dest) { d.state != Finished && d.buffer.None? }

  lemma HandFollows(d: Dest, popped: seq<Block>, b: Block, length: Length)
    requires Follows(d, popped, length) && Closed(popped + [b]) && (d.state != Finished ==> d.buffer.None?)
    requires WithinLength(popped + [b], length)
    ensures Follows(Hand(d, b), popped + [b], length)
  {
    ConcatAppend(popped, b);
    var all := popped + [b];
    assert all[..|all| - 1] == popped;
    if [] in popped {
      var i :| 0 <= i < |popped| && popped[i] == [];
      assert all[i] == [] && all[|popped|] == b;
    }
  }

  /** cb_read: data to send, a pause, or the end, at the length of the body or at the end marker. */
  function Read(d: Dest, max: nat, length: Length): (r: Dest)
    requires d.state == Begin || d.state == Request
    ensures r.state == Reply <==> (if length.Some? && |r.sent| >= length.value then true else d.buffer == Some([]))
    ensures r.state == Paused <==> d.buffer.None? && !(length.Some? && |d.sent| >= length.value)
    ensures d.sent <= r.sent && r.code == d.code && (|r.sent| - |d.sent| == max || r.buffer.None? || r.state == Reply)
  {
    if length.Some? && |d.sent| >= length.value then d.(buffer := None, state := Reply)
    else if d.buffer.None? then d.(state := Paused)
    else if d.buffer.value == [] then d.(buffer := None, state := Reply)
    else
      var b := d.buffer.value;
      var m := if max < |b| then max else |b|;
      var n := if length.Some? && length.value - |d.sent| < m then length.value - |d.sent| else m;
      d.(buffer := if n == |b| then None else Some(b[n..]), sent := d.sent + b[..n],
         state := if length.Some? && |d.sent| + n >= length.value then Reply else Request)
  }

  lemma ReadFollows(d: Dest, max: nat, popped: seq<Block>, length: Length)
    requires (d.state == Begin || d.state == Request) && Follows(d, popped, length) && WithinLength(popped, length)
    ensures Follows(Read(d, max, length), popped, length)
  {
    hide Concat;
    assert |d.sent| + |Pending(d)| == |Concat(popped)|;
    if d.buffer.Some? {
      var b := d.buffer.value;
      assert forall n :: 0 <= n <= |b| ==> d.sent + b[..n] + b[n..] == d.sent + b;
    }
  }

  /** The end of a transfer. A destination succeeds only once it got the whole body. */
  predicate CanEnd(d: Dest, code: nat) { d.state != Finished && (code / 100 == 2 ==> d.state == Reply) }

  function End(d: Dest, code: nat): Dest { d.(buffer := None, code := code, state := Finished) }

  lemma EndFollows(d: Dest, code: nat, popped: seq<Block>, length: Length)
    requires CanEnd(d, code) && Follows(d, popped, length)
    ensures Follows(End(d, code), popped, length)
  {
  }

  /** A paused destination that has data again. */
  function Resume(d: Dest): Dest {
    if d.state == Paused && d.buffer.Some? then d.(state := if |d.sent| > 0 then Request else Begin) else d
  }

  // ---- Moves of all the destinations -------------------------------------------------------------------

  /** The transfers that end, those that can. */
  function EndAll(dests: seq<Dest>, ends: seq<(nat, nat)>): (r: seq<Dest>)
    ensures |r| == |dests|
  {
    if ends == [] then dests
    else
      var ds, (i, code) := EndAll(dests, ends[..|ends| - 1]), ends[|ends| - 1];
      if i < |ds| && CanEnd(ds[i], code) then ds[i := End(ds[i], code)] else ds
  }

  /** The reads of the scheduler, from the destinations that can be read. */
  function SendAll(length: Length, dests: seq<Dest>, sends: seq<(nat, nat)>): (r: seq<Dest>)
    ensures |r| == |dests|
  {
    if sends == [] then dests
    else
      var ds, (i, max) := SendAll(length, dests, sends[..|sends| - 1]), sends[|sends| - 1];
      if i < |ds| && (ds[i].state == Begin || ds[i].state == Request) then ds[i := Read(ds[i], max, length)] else ds
  }

  function HandAll(dests: seq<Dest>, b: Block): seq<Dest> { seq(|dests|, i requires 0 <= i < |dests| => Hand(dests[i], b)) }

  function ResumeEach(dests: seq<Dest>): seq<Dest> { seq(|dests|, i requires 0 <= i < |dests| => Resume(dests[i])) }

  predicate AllWait(dests: seq<Dest>) { forall i :: 0 <= i < |dests| ==> dests[i].state == Finished || Waits(dests[i]) }

  /** No destination still up has data. */
  ghost predicate NoneHolds(dests: seq<Dest>) {
    forall i :: 0 <= i < |dests| && dests[i].buffer.Some? ==> dests[i].state == Finished
  }

  predicate AllFinished(dests: seq<Dest>) { forall i :: 0 <= i < |dests| ==> dests[i].state == Finished }

  /** The destinations and the queue after a buffer was handed out, if it could be. */
  function Distributed(dests: seq<Dest>, queue: seq<Block>): (seq<Dest>, seq<Block>) {
    if AllWait(dests) && queue != [] then (HandAll(dests, queue[0]), queue[1..]) else (dests, queue)
  }

  /** What a step makes of a PUT. */
  function Stepped(length: Length, dests: seq<Dest>, queue: seq<Block>, state: WholeState, round: Round)
    : (seq<Dest>, seq<Block>, WholeState, bool)
  {
    if dests == [] then (dests, queue, WholeFinished, true)
    else if state == WholeFinished then (dests, queue, state, true)
    else
      var d := Distributed(if state == WholeBegin then dests else EndAll(dests, round.ends), queue);
      var ds := ResumeEach(d.0);
      if AllFinished(ds) then (SendAll(length, ds, round.sends), d.1, WholeFinished, true)
      else if round.fails then (ds, d.1, WholeReady, false)
      else (SendAll(length, ds, round.sends), d.1, WholeReady, true)
  }

  lemma {:induction false} SendKeepsFinished(length: Length, dests: seq<Dest>, sends: seq<(nat, nat)>)
    ensures
      var ds := SendAll(length, dests, sends);
      forall i :: 0 <= i < |dests| ==> (ds[i].state == Finished <==> dests[i].state == Finished)
  {
    if sends != [] { SendKeepsFinished(length, dests, sends[..|sends| - 1]); }
  }

  // ---- The PUT --------------------------------------------------------------------------------------------

  class Put {
    const length: Length
    const soft: int
    var dests: seq<Dest>
    var queue: seq<Block>
    var remaining: int
    var state: WholeState
    /** The buffers already handed to the destinations. */
    ghost var popped: seq<Block>

    ghost function All(): seq<Block>
      reads this
    {
      popped + queue
    }

    /** The bytes fed so far. */
    ghost function Body(): Block
      reads this
    {
      Concat(All())
    }

    /** Whether the end marker was fed. */
    ghost predicate Ended()
      reads this
    {
      [] in All()
    }

    ghost predicate Valid()
      reads this
    {
      && Closed(All()) && (forall i :: 0 <= i < |dests| ==> Follows(dests[i], popped, length))
      && (length.Some? ==> soft == length.value)
      && (if Ended() then remaining == 0 else remaining == soft - |Body()|)
      && (soft >= 0 ==> 0 <= remaining && |Body()| <= soft)
      && (state == WholeFinished ==> AllFinished(dests))
      && (state == WholeBegin ==> forall i :: 0 <= i < |dests| ==> dests[i].state == Begin)
    }

    /** A PUT to some destinations, once its lengths agree. */
    constructor (length: Length, soft: int, n: nat)
      requires length.Some? ==> soft == length.value
      ensures Valid() && this.length == length && this.soft == soft && remaining == soft
      ensures state == WholeBegin && queue == popped == [] && dests == seq(n, _ => Dest(None, [], 0, Begin))
      ensures Body() == [] && !Ended()
    {
      this.length, this.soft := length, soft;
      dests := seq(n, _ => Dest(None, [], 0, Begin));
      queue, remaining, state, popped := [], soft, WholeBegin, [];
    }

    /** http_put_feed */
    method Feed(b: Block)
      requires Valid() && (b == [] || remaining < 0 || |b| <= remaining)
      modifies this`queue, this`remaining
      ensures Valid()
      ensures queue == old(queue) + [b] && All() == old(All()) + [b] && Body() == old(Body()) + b
      ensures Ended() <==> old(Ended()) || b == []
      ensures remaining == if b == [] then 0 else old(remaining) - |b|
    {
      hide Follows;
      ghost var all := All();
      ConcatAppend(all, b);
      queue := queue + [b];
      assert All() == all + [b];
      remaining := if b == [] then 0 else remaining - |b|;
    }

    /** _manage_curl_events */
    method ManageEvents(ends: seq<(nat, nat)>)
      requires Valid() && state != WholeFinished && state != WholeBegin
      modifies this`dests
      ensures Valid() && dests == EndAll(old(dests), ends)
    {
      hide Follows, Closed, Concat;
      var k := 0;
      while k < |ends|
        invariant 0 <= k <= |ends| && Valid() && dests == EndAll(old(dests), ends[..k])
      {
        assert ends[..k + 1][..k] == ends[..k];
        var (i, code) := ends[k];
        if i < |dests| && CanEnd(dests[i], code) {
          EndFollows(dests[i], code, popped, length);
          dests := dests[i := End(dests[i], code)];
        }
        k := k + 1;
      }
      assert ends[..k] == ends;
    }

    /** Hands the next buffer to all the destinations, if none of those still up has data. */
    method Distribute()
      requires Valid() && state != WholeFinished
      modifies this`dests, this`queue, this`popped
      ensures Valid() && All() == old(All()) && (dests, queue) == Distributed(old(dests), old(queue))
      ensures old(NoneHolds(dests)) && old(queue) != [] ==>
        && popped == old(popped) + [old(queue)[0]] && queue == old(queue)[1..]
        && forall i :: 0 <= i < |dests| && dests[i].state != Finished ==> dests[i].buffer == Some(old(queue)[0])
      ensures !old(NoneHolds(dests)) || old(queue) == [] ==> popped == old(popped) && dests == old(dests)
    {
      hide Follows, Concat;
      var up, waiting, k := 0, 0, 0;
      while k < |dests|
        invariant 0 <= k <= |dests| && waiting <= up
        invariant waiting == up <==> forall i :: 0 <= i < k ==> dests[i].state == Finished || Waits(dests[i])
      {
        if dests[k].state != Finished {
          up := up + 1;
          if Waits(dests[k]) {
            waiting := waiting + 1;
          }
        }
        k := k + 1;
      }
      if waiting == up && queue != [] {
        var b := queue[0];
        ghost var all, was := All(), popped;
        queue, popped := queue[1..], popped + [b];
        assert All() == all;
        PartWithin(popped, queue, length);
        assert Closed(popped) by { assert forall i :: 0 <= i < |popped| ==> popped[i] == all[i]; }
        k := 0;
        while k < |dests|
          modifies this`dests
          invariant 0 <= k <= |dests| == old(|dests|)
          invariant forall i :: k <= i < |dests| ==> dests[i] == old(dests)[i]
          invariant forall i :: 0 <= i < k ==> dests[i] == Hand(old(dests)[i], b) && Follows(dests[i], popped, length)
        {
          HandFollows(dests[k], was, b, length);
          dests := dests[k := Hand(dests[k], b)];
          k := k + 1;
        }
        assert dests == HandAll(old(dests), b);
      }
    }

    /** curl_multi_perform */
    method Perform(sends: seq<(nat, nat)>)
      requires Valid() && state != WholeFinished && state != WholeBegin
      modifies this`dests
      ensures Valid() && dests == SendAll(length, old(dests), sends)
    {
      hide Follows, Closed, Concat;
      PartWithin(popped, queue, length);
      var k := 0;
      while k < |sends|
        invariant 0 <= k <= |sends| && Valid() && dests == SendAll(length, old(dests), sends[..k])
      {
        assert sends[..k + 1][..k] == sends[..k];
        var (i, max) := sends[k];
        if i < |dests| && (dests[i].state == Begin || dests[i].state == Request) {
          ReadFollows(dests[i], max, popped, length);
          dests := dests[i := Read(dests[i], max, length)];
        }
        k := k + 1;
      }
      assert sends[..k] == sends;
    }

    /** Lets the paused destinations that have data go on. */
    method ResumeAll()
      requires Valid() && state != WholeFinished
      modifies this`dests
      ensures Valid() && dests == ResumeEach(old(dests))
    {
      hide Closed, Concat;
      var k := 0;
      while k < |dests|
        invariant 0 <= k <= |dests| == |old(dests)|
        invariant forall i :: k <= i < |dests| ==> dests[i] == old(dests)[i]
        invariant forall i :: 0 <= i < k ==> dests[i] == Resume(old(dests)[i]) && Follows(dests[i], popped, length)
      {
        dests := dests[k := Resume(dests[k])];
        k := k + 1;
      }
    }

    method CountUp() returns (n: nat)
      ensures n == 0 <==> AllFinished(dests)
    {
      n := 0;
      var k := 0;
      while k < |dests|
        invariant 0 <= k <= |dests| && (n == 0 <==> forall i :: 0 <= i < k ==> dests[i].state == Finished)
      {
        if dests[k].state != Finished {
          n := n + 1;
        }
        k := k + 1;
      }
    }

    /** http_put_step; fails if waiting for the transfers does */
    method Step(round: Round) returns (ok: bool)
      requires Valid()
      modifies this`dests, this`queue, this`popped, this`state
      ensures Valid() && All() == old(All()) && |dests| == old(|dests|)
      ensures (dests, queue, state, ok) == Stepped(length, old(dests), old(queue), old(state), round)
      ensures old(dests) != [] && old(state) != WholeFinished ==>
        var ended := if old(state) == WholeBegin then old(dests) else EndAll(old(dests), round.ends);
        popped == if NoneHolds(ended) && old(queue) != [] then old(popped) + [old(queue)[0]] else old(popped)
    {
      hide Follows, Closed, Concat, NoneHolds;
      if dests == [] {
        state := WholeFinished;
        return true;
      }
      if state == WholeFinished {
        return true;
      }
      if state != WholeBegin {
        ManageEvents(round.ends);
      }
      Distribute();
      ResumeAll();
      var up := CountUp();
      state := if up > 0 then WholeReady else WholePaused;
      if up > 0 && round.fails {
        return false;
      }
      SendKeepsFinished(length, dests, round.sends);
      Perform(round.sends);
      up := CountUp();
      if up == 0 {
        state := WholeFinished;
      }
      return true;
    }

    /** http_put_expected_bytes */
    function ExpectedBytes(): int
      reads this
    {
      if state == WholeFinished then 0 else remaining
    }

    /** http_put_get_failure_number */
    method Failures() returns (n: nat)
      ensures n == FailureCount(dests)
    {
      n := 0;
      var k := 0;
      while k < |dests|
        invariant 0 <= k <= |dests| && n == FailureCount(dests[..k])
      {
        assert dests[..k + 1][..k] == dests[..k];
        if dests[k].state == Finished && !Success(dests[k]) {
          n := n + 1;
        }
        k := k + 1;
      }
      assert dests[..k] == dests;
    }
  }

  /** http_put_create and http_put_add_dest: a known length is also the expected one, and may not differ from it. */
  method Create(length: Length, soft: int, n: nat) returns (p: Put?)
    ensures p == null <==> length.Some? && 0 <= soft != length.value
    ensures p != null ==> fresh(p) && p.Valid() && p.length == length && |p.dests| == n && p.All() == []
    ensures p != null ==> p.soft == if length.Some? then length.value else soft
  {
    var expected := if soft < 0 && length.Some? then length.value else soft;
    if length.Some? && expected != length.value {
      return null;
    }
    p := new Put(length, expected, n);
  }

  /** How many destinations ended without a success. */
  ghost function FailureCount(dests: seq<Dest>): nat {
    if dests == [] then 0
    else
      var d := dests[|dests| - 1];
      FailureCount(dests[..|dests| - 1]) + (if d.state == Finished && !Success(d) then 1 else 0)
  }

  /** Failures are all there is exactly when nothing succeeded and nothing is up. */
  lemma {:induction false} AllFailed(dests: seq<Dest>)
    ensures FailureCount(dests) <= |dests|
    ensures FailureCount(dests) == |dests| <==>
      forall i :: 0 <= i < |dests| ==> dests[i].state == Finished && !Success(dests[i])
  {
    hide Success;
    if dests != [] { AllFailed(dests[..|dests| - 1]); }
  }

  // ---- Replication --------------------------------------------------------------------------------------------

  /** For each destination still up, what it sent, what it holds and what is queued make the body. */
  lemma Replicated(p: Put, i: nat)
    requires p.Valid() && i < |p.dests| && p.dests[i].state != Finished
    ensures p.dests[i].sent + Pending(p.dests[i]) + Concat(p.queue) == p.Body()
  {
    ConcatSplit(p.popped, p.queue);
  }

  /** A destination that got all of the body, or that succeeded, sent exactly the body, which is over. */
  lemma Complete(p: Put, i: nat)
    requires p.Valid() && i < |p.dests|
    requires p.dests[i].state == Reply || (p.dests[i].state == Finished && Success(p.dests[i]))
    ensures p.dests[i].sent == p.Body() && (p.Ended() || p.length == Some(|p.Body()|))
  {
    ConcatSplit(p.popped, p.queue);
    if [] in p.popped {
      var k :| 0 <= k < |p.popped| && p.popped[k] == [];
      var all := p.All();
      assert all[k] == [];
      forall j | 0 <= j < |p.queue| ensures p.queue[j] == [] { assert all[|p.popped| + j] == p.queue[j]; }
      EmptyTail(p.queue);
    } else {
      assert p.length == Some(|Concat(p.popped)|);
      assert Concat(p.queue) == [];
    }
  }

  /** Destinations still up never diverge by more than the last buffer handed out. */
  lemma NeverFarApart(p: Put, i: nat, j: nat)
    requires p.Valid() && i < |p.dests| && j < |p.dests|
    requires p.dests[i].state != Finished && p.dests[j].state != Finished
    ensures
      var last := if p.popped == [] then 0 else |p.popped[|p.popped| - 1]|;
      |p.dests[i].sent| <= |p.dests[j].sent| + last
    ensures p.dests[i].sent <= p.dests[j].sent || p.dests[j].sent <= p.dests[i].sent
  {
    var a, b, whole := p.dests[i], p.dests[j], Concat(p.popped);
    assert a.sent == whole[..|a.sent|] && b.sent == whole[..|b.sent|];
  }
}
