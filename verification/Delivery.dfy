/**
 Progress of uploads (core/http_put.c, core/sds.c): when each destination is read and
 answers once it got the body, every PUT ends with a success everywhere, after a number of
 steps bounded by its queue, and an upload stores all that it is fed.
 */
module Delivery {
  import opened Basics
  import opened HttpPut
  import opened Upload

  /** A round in which each of `n` destinations is read, by at least a size, answers if it got the whole body,
      and does not fail. */
  ghost predicate Diligent(round: Round, n: nat, size: nat) {
    && !round.fails
    && (forall k :: 0 <= k < |round.ends| ==> round.ends[k].1 / 100 == 2)
    && (forall i :: 0 <= i < n ==> Ends(round.ends, i))
    && (forall i :: 0 <= i < n ==> Reads(round.sends, i, size))
  }

  ghost predicate Ends(ends: seq<(nat, nat)>, i: nat) { exists k :: 0 <= k < |ends| && ends[k].0 == i }

  ghost predicate Reads(sends: seq<(nat, nat)>, i: nat, size: nat) {
    exists k :: 0 <= k < |sends| && sends[k].0 == i && sends[k].1 >= size
  }

  // ---- What a round does to a destination -----------------------------------------------------------------

  /** A read of at least the size of a buffer sends all of it. */
  lemma ReadSendsAll(d: Dest, max: nat)
    requires (d.state == Begin || d.state == Request) && d.buffer.Some? && d.buffer.value != [] && |d.buffer.value| <= max
    ensures Read(d, max, None) == d.(buffer := None, sent := d.sent + d.buffer.value, state := Request)
  {
    var b := d.buffer.value;
    assert b[..|b|] == b;
  }

  /** Answers of success end exactly the destinations that got the whole body. */
  lemma {:induction false} AnswersEnd(dests: seq<Dest>, ends: seq<(nat, nat)>, i: nat)
    requires i < |dests| && forall k :: 0 <= k < |ends| ==> ends[k].1 / 100 == 2
    ensures
      var r := EndAll(dests, ends)[i];
      && (dests[i].state != Reply ==> r == dests[i])
      && (dests[i].state == Reply ==> r == dests[i] || (r.state == Finished && Success(r)))
      && (dests[i].state == Reply && Ends(ends, i) ==> r.state == Finished && Success(r))
  {
    if ends != [] {
      var n := |ends| - 1;
      AnswersEnd(dests, ends[..n], i);
      if Ends(ends, i) && ends[n].0 != i {
        var k :| 0 <= k < |ends| && ends[k].0 == i;
        assert ends[..n][k].0 == i;
      }
    }
  }

  ghost predicate Readable(d: Dest) { d.state == Begin || d.state == Request }

  /** What reads make of a destination: it sent some of its buffer, or all of it. */
  ghost predicate Sent(d: Dest, r: Dest, full: bool) {
    && r.code == d.code
    && (!Readable(d) ==> r == d)
    && (Readable(d) ==>
      || (r.buffer.None? && (d.buffer == Some([]) <==> r.state == Reply) && (r.state == Reply || r.state == Request || r.state == Paused)
          && r.sent == d.sent + Pending(d))
      || (!full && Readable(r) && r.sent + Pending(r) == d.sent + Pending(d) && |Pending(r)| <= |Pending(d)|
          && (r.buffer == Some([]) <==> d.buffer == Some([])) && (r.buffer.None? <==> d.buffer.None?)))
  }

  lemma ReadSends(d: Dest, r: Dest, full: bool, max: nat, size: nat)
    requires Sent(d, r, full) && Readable(r) && |Pending(d)| <= size
    ensures Sent(d, Read(r, max, None), full || max >= size)
  {
    if r.buffer.Some? && r.buffer.value != [] {
      var b := r.buffer.value;
      assert forall n :: 0 <= n <= |b| ==> r.sent + b[..n] + b[n..] == r.sent + b;
    }
  }

  lemma {:induction false} ReadsSend(dests: seq<Dest>, sends: seq<(nat, nat)>, i: nat, size: nat)
    requires i < |dests| && |Pending(dests[i])| <= size
    ensures Sent(dests[i], SendAll(None, dests, sends)[i], Reads(sends, i, size))
  {
    hide Sent, Read;
    if sends == [] {
      NothingSent(dests[i]);
    } else {
      var n := |sends| - 1;
      var (k, max) := sends[n];
      ReadsSend(dests, sends[..n], i, size);
      var r := SendAll(None, dests, sends[..n])[i];
      ReadsLast(sends, i, size);
      if k == i && Readable(r) {
        ReadSends(dests[i], r, Reads(sends[..n], i, size), max, size);
      } else if k == i {
        NotReadable(dests[i], r, Reads(sends[..n], i, size));
      }
    }
  }

  lemma NothingSent(d: Dest)
    ensures Sent(d, d, false)
  {
  }

  /** What is no longer readable has sent all. */
  lemma NotReadable(d: Dest, r: Dest, full: bool)
    requires Sent(d, r, full) && !Readable(r)
    ensures Sent(d, r, true)
  {
  }

  lemma ReadsLast(sends: seq<(nat, nat)>, i: nat, size: nat)
    requires sends != []
    ensures
      var n := |sends| - 1;
      Reads(sends, i, size) <==> Reads(sends[..n], i, size) || (sends[n].0 == i && sends[n].1 >= size)
  {
    var n := |sends| - 1;
    if Reads(sends[..n], i, size) {
      var k :| 0 <= k < n && sends[..n][k].0 == i && sends[..n][k].1 >= size;
      assert sends[k].0 == i && sends[k].1 >= size;
    }
    if Reads(sends, i, size) {
      var k :| 0 <= k < |sends| && sends[k].0 == i && sends[k].1 >= size;
      assert k < n ==> sends[..n][k].0 == i && sends[..n][k].1 >= size;
    }
  }

  // ---- What a round does to a PUT -----------------------------------------------------------------------------

  /** A destination that has no data, but maybe for an end marker after the body. */
  ghost predicate Settled(d: Dest) { d.state == Finished || d.state == Reply || d.buffer.None? }

  ghost predicate AllSettled(dests: seq<Dest>) { forall i :: 0 <= i < |dests| ==> Settled(dests[i]) }

  /** Destinations at work: before the first step, none got the whole body. */
  ghost predicate AtWork(dests: seq<Dest>, state: WholeState, size: nat) {
    && dests != [] && state != WholeFinished
    && (forall i :: 0 <= i < |dests| && dests[i].state != Finished ==> |Pending(dests[i])| <= size)
    && (state == WholeBegin ==> forall i :: 0 <= i < |dests| ==> dests[i].state != Reply)
  }

  /** The destinations after the transfers that end in a round. */
  ghost function Ended(dests: seq<Dest>, state: WholeState, round: Round): (r: seq<Dest>)
    ensures |r| == |dests|
  {
    if state == WholeBegin then dests else EndAll(dests, round.ends)
  }

  lemma EndedAt(dests: seq<Dest>, state: WholeState, round: Round, size: nat, i: nat)
    requires AtWork(dests, state, size) && Diligent(round, |dests|, size) && i < |dests|
    ensures
      var r := Ended(dests, state, round)[i];
      if dests[i].state == Reply then r.state == Finished && Success(r) else r == dests[i]
  {
    hide EndAll, Success;
    if state != WholeBegin { AnswersEnd(dests, round.ends, i); }
  }

  /** Where a destination stands after a round in which it may be handed a buffer. */
  ghost predicate Moved(d: Dest, r: Dest, handed: Option<Block>) {
    match d.state
    case Finished => r.state == Finished && r.code == d.code
    case Reply => r.state == Finished && Success(r)
    case _ =>
      var all := if handed.Some? then handed else d.buffer;
      && r.state != Finished && r.code == d.code && r.buffer.None?
      && r.sent == d.sent + (if all.Some? then all.value else []) && (r.state == Reply <==> all == Some([]))
  }

  /** From settled destinations, a round hands the head of the queue to all that are up, and they send it. */
  lemma RoundHands(dests: seq<Dest>, queue: seq<Block>, state: WholeState, round: Round, size: nat)
    requires AtWork(dests, state, size) && Diligent(round, |dests|, size) && AllSettled(dests)
    requires queue != [] && |queue[0]| <= size
    ensures
      var s := Stepped(None, dests, queue, state, round);
      && |s.0| == |dests| && s.1 == queue[1..] && s.3
      && (forall i :: 0 <= i < |dests| ==> Moved(dests[i], s.0[i], Some(queue[0])))
      && s.2 == (if AllFinished(s.0) then WholeFinished else WholeReady)
  {
    hide EndAll, SendAll, Moved, Ends, Reads;
    var e := Ended(dests, state, round);
    forall i | 0 <= i < |dests| ensures e[i].state == Finished || Waits(e[i]) { EndedAt(dests, state, round, size, i); }
    assert Distributed(e, queue) == (HandAll(e, queue[0]), queue[1..]);
    var ds := ResumeEach(HandAll(e, queue[0]));
    var s := Stepped(None, dests, queue, state, round);
    RoundIs(dests, queue, state, round, ds);
    forall i | 0 <= i < |dests| ensures Moved(dests[i], s.0[i], Some(queue[0])) {
      EndedAt(dests, state, round, size, i);
      MovedAt(dests, ds, round, size, i, Some(queue[0]));
    }
  }

  lemma RoundIs(dests: seq<Dest>, queue: seq<Block>, state: WholeState, round: Round, ds: seq<Dest>)
    requires dests != [] && state != WholeFinished && !round.fails
    requires ds == ResumeEach(Distributed(Ended(dests, state, round), queue).0)
    ensures
      var s := Stepped(None, dests, queue, state, round);
      && s.0 == SendAll(None, ds, round.sends) && s.1 == Distributed(Ended(dests, state, round), queue).1 && s.3
      && s.2 == (if AllFinished(s.0) then WholeFinished else WholeReady)
  {
    hide EndAll, SendAll, Distributed, ResumeEach;
    SendKeepsFinished(None, ds, round.sends);
  }

  /** One destination, from what the round left of it before the reads. */
  lemma MovedAt(dests: seq<Dest>, ds: seq<Dest>, round: Round, size: nat, i: nat, handed: Option<Block>)
    requires i < |dests| == |ds| && Diligent(round, |dests|, size)
    requires handed.Some? ==> |handed.value| <= size
    requires dests[i].state != Finished ==> |Pending(dests[i])| <= size
    requires
      var e := if dests[i].state == Reply then ds[i].(state := Finished) else dests[i];
      && (dests[i].state == Reply ==> ds[i].state == Finished && Success(ds[i]))
      && ds[i] == Resume(if handed.Some? then Hand(e, handed.value) else e)
    ensures Moved(dests[i], SendAll(None, ds, round.sends)[i], handed)
  {
    hide SendAll, Success;
    ReadsSend(ds, round.sends, i, if ds[i].state == Finished then |Pending(ds[i])| else size);
  }

  /** From destinations of which some hold data, a round makes them all send it. */
  lemma RoundSends(dests: seq<Dest>, queue: seq<Block>, state: WholeState, round: Round, size: nat)
    requires AtWork(dests, state, size) && Diligent(round, |dests|, size) && !AllSettled(dests)
    ensures
      var s := Stepped(None, dests, queue, state, round);
      && |s.0| == |dests| && s.1 == queue && s.2 == WholeReady && s.3
      && (forall i :: 0 <= i < |dests| ==> Moved(dests[i], s.0[i], None))
  {
    hide EndAll, SendAll, Moved, Ends, Reads;
    var e := Ended(dests, state, round);
    var k :| 0 <= k < |dests| && !Settled(dests[k]);
    EndedAt(dests, state, round, size, k);
    assert !AllWait(e);
    var ds := ResumeEach(e);
    var s := Stepped(None, dests, queue, state, round);
    RoundIs(dests, queue, state, round, ds);
    forall i | 0 <= i < |dests| ensures Moved(dests[i], s.0[i], None) {
      EndedAt(dests, state, round, size, i);
      MovedAt(dests, ds, round, size, i, None);
    }
    MovedStays(dests[k], s.0[k], None);
  }

  lemma MovedStays(d: Dest, r: Dest, handed: Option<Block>)
    requires Moved(d, r, handed)
    ensures d.state != Finished && d.state != Reply ==> r.state != Finished && Settled(r)
    ensures d.state == Finished || d.state == Reply ==> r.state == Finished
  {
    hide Success;
  }

  // ---- A PUT that is drained --------------------------------------------------------------------------------------

  /** All destinations are over, those that were up with a success. */
  ghost predicate Delivered(dests: seq<Dest>, r: seq<Dest>) {
    && |r| == |dests|
    && forall i :: 0 <= i < |dests| ==>
      && r[i].state == Finished
      && (if dests[i].state == Finished then r[i].code == dests[i].code else Success(r[i]))
  }

  ghost predicate AllSmall(queue: seq<Block>, size: nat) { forall k :: 0 <= k < |queue| ==> |queue[k]| <= size }

  /** The first end marker of a queue, or its end. */
  ghost predicate Marked(queue: seq<Block>, m: nat) {
    m <= |queue| && (forall k :: 0 <= k < m ==> queue[k] != []) && (m < |queue| ==> queue[m] == [])
  }

  ghost predicate AllDiligent(rounds: seq<Round>, n: nat, size: nat) {
    forall k :: 0 <= k < |rounds| ==> Diligent(rounds[k], n, size)
  }

  /** A first round, then the others. */
  lemma DrainedFirst(dests: seq<Dest>, queue: seq<Block>, state: WholeState, rounds: seq<Round>)
    requires state != WholeFinished && rounds != []
    ensures
      var s := Stepped(None, dests, queue + [[]], state, rounds[0]);
      s.3 ==> Drained(dests, queue, state, rounds) == Drained(s.0, s.1, s.2, rounds[1..])
  {
    hide Stepped;
  }

  lemma DrainedLast(dests: seq<Dest>, queue: seq<Block>, rounds: seq<Round>)
    ensures Drained(dests, queue, WholeFinished, rounds) == (dests, queue, WholeFinished, Progress)
  {
  }

  lemma MovedOn(dests: seq<Dest>, s: seq<Dest>, handed: Option<Block>, size: nat)
    requires |s| == |dests| && forall i :: 0 <= i < |dests| ==> Moved(dests[i], s[i], handed)
    ensures AllSettled(s) && (forall i :: 0 <= i < |s| && s[i].state != Finished ==> |Pending(s[i])| <= size)
    ensures handed == Some([]) ==> forall i :: 0 <= i < |s| ==> s[i].state == Finished || s[i].state == Reply
    ensures AllFinished(s) ==> forall i :: 0 <= i < |s| ==> dests[i].state == Finished || dests[i].state == Reply
    ensures (forall i :: 0 <= i < |s| ==> dests[i].state == Finished || dests[i].state == Reply) ==> AllFinished(s)
  {
    hide Success;
    assert forall i :: 0 <= i < |s| ==> Moved(dests[i], s[i], handed);
  }

  lemma DeliveredOn(dests: seq<Dest>, s: seq<Dest>, handed: Option<Block>, r: seq<Dest>)
    requires |s| == |dests| && forall i :: 0 <= i < |dests| ==> Moved(dests[i], s[i], handed)
    requires Delivered(s, r)
    ensures Delivered(dests, r)
  {
    forall i | 0 <= i < |dests|
      ensures r[i].state == Finished
      ensures if dests[i].state == Finished then r[i].code == dests[i].code else Success(r[i])
    {
      assert Moved(dests[i], s[i], handed);
    }
  }

  lemma FinishedIsDelivered(dests: seq<Dest>)
    requires AllFinished(dests)
    ensures Delivered(dests, dests)
  {
  }

  /** From settled destinations, as many rounds as there are buffers before the end marker, and two more. */
  lemma {:induction false} DrainSettled(dests: seq<Dest>, queue: seq<Block>, state: WholeState, rounds: seq<Round>, size: nat,
                                        m: nat)
    requires AtWork(dests, state, size) && AllSettled(dests) && AllSmall(queue, size) && Marked(queue, m)
    requires AllDiligent(rounds, |dests|, size) && |rounds| >= m + 2
    ensures
      var r := Drained(dests, queue, state, rounds);
      r.3 == Progress && Delivered(dests, r.0)
    decreases m
  {
    hide Stepped, Drained, Moved, Diligent, Delivered, AllSettled, Pending;
    var all := queue + [[]];
    var s := Stepped(None, dests, all, state, rounds[0]);
    RoundHands(dests, all, state, rounds[0], size);
    DrainedFirst(dests, queue, state, rounds);
    MovedOn(dests, s.0, Some(all[0]), size);
    if AllFinished(s.0) {
      DrainedLast(s.0, s.1, rounds[1..]);
      FinishedIsDelivered(s.0);
    } else if m == 0 {
      DrainReplies(s.0, s.1, rounds[1..], size);
    } else {
      DrainSettled(s.0, s.1, WholeReady, rounds[1..], size, m - 1);
    }
    DeliveredOn(dests, s.0, Some(all[0]), Drained(dests, queue, state, rounds).0);
  }

  /** Destinations that got the whole body only have to answer. */
  lemma DrainReplies(dests: seq<Dest>, queue: seq<Block>, rounds: seq<Round>, size: nat)
    requires AtWork(dests, WholeReady, size) && AllSmall(queue, size) && AllDiligent(rounds, |dests|, size) && rounds != []
    requires forall i :: 0 <= i < |dests| ==> dests[i].state == Finished || dests[i].state == Reply
    ensures
      var r := Drained(dests, queue, WholeReady, rounds);
      r.3 == Progress && Delivered(dests, r.0)
  {
    hide Stepped, Drained, Moved, Diligent, Delivered, Pending;
    var all := queue + [[]];
    var s := Stepped(None, dests, all, WholeReady, rounds[0]);
    RoundHands(dests, all, WholeReady, rounds[0], size);
    DrainedFirst(dests, queue, WholeReady, rounds);
    MovedOn(dests, s.0, Some(all[0]), size);
    DrainedLast(s.0, s.1, rounds[1..]);
    FinishedIsDelivered(s.0);
    DeliveredOn(dests, s.0, Some(all[0]), s.0);
  }

  lemma {:induction false} FirstMarker(queue: seq<Block>) returns (m: nat)
    ensures Marked(queue, m)
  {
    if queue == [] || queue[0] == [] {
      m := 0;
    } else {
      m := FirstMarker(queue[1..]);
      m := m + 1;
      forall k | 0 <= k < m ensures queue[k] != [] { assert k > 0 ==> queue[k] == queue[1..][k - 1]; }
    }
  }

  /** A PUT that wants no more bytes, whatever its destinations hold and its queue has: if they are read and answer,
      it ends within three rounds more than its queue is long, with a success of all that are up. */
  lemma DrainDelivers(dests: seq<Dest>, queue: seq<Block>, state: WholeState, rounds: seq<Round>, size: nat)
    requires AtWork(dests, state, size) && AllSmall(queue, size)
    requires AllDiligent(rounds, |dests|, size) && |rounds| >= |queue| + 3
    ensures
      var r := Drained(dests, queue, state, rounds);
      r.3 == Progress && Delivered(dests, r.0)
  {
    hide Stepped, Drained, Moved, Diligent, Delivered, Pending;
    if AllSettled(dests) {
      var m := FirstMarker(queue);
      DrainSettled(dests, queue, state, rounds, size, m);
    } else {
      hide AllSettled;
      var all := queue + [[]];
      var s := Stepped(None, dests, all, state, rounds[0]);
      RoundSends(dests, all, state, rounds[0], size);
      DrainedFirst(dests, queue, state, rounds);
      MovedOn(dests, s.0, None, size);
      var m := FirstMarker(all);
      assert all[|queue|] == [];
      DrainSettled(s.0, all, WholeReady, rounds[1..], size, m);
      DeliveredOn(dests, s.0, None, Drained(dests, queue, state, rounds).0);
    }
  }

  // ---- An upload that is run to its end ----------------------------------------------------------------------------

  /** A PUT that did all it could: all its destinations are up, and none has data. */
  ghost predicate Idle(p: Put, chunks: nat)
    reads p
  {
    && 0 < |p.dests| <= chunks && p.queue == [] && p.state != WholeFinished
    && forall i :: 0 <= i < |p.dests| ==> p.dests[i].state != Finished && p.dests[i].buffer.None?
  }

  ghost predicate Counts(ready: seq<nat>, chunks: nat) { forall i :: 0 <= i < |ready| ==> 0 < ready[i] <= chunks }

  /** All chunks are stored. */
  ghost predicate AllStored(done: seq<Metachunk>) {
    forall i, j :: 0 <= i < |done| && 0 <= j < |done[i].chunks| ==> done[i].chunks[j].success
  }

  /** An upload without error so far, of metachunks with a limited number of chunks. */
  ghost predicate Healthy(u: Upload, chunks: nat)
    reads u, u.put
  {
    u.Valid() && u.clean && Counts(u.ready, chunks) && (u.put != null ==> Idle(u.put, chunks)) && AllStored(u.done)
  }

  /** What is left to take, in bytes and buffers. */
  ghost function Load(queue: seq<Block>): nat { |Concat(queue)| + |queue| }

  /** How far the next buffer taken is: the end of a metachunk, a new one, its first byte. */
  ghost function Rank(u: Upload): nat
    reads u, u.put
  {
    if u.put == null then 2 else if u.put.ExpectedBytes() == 0 then 3 else 1
  }

  lemma LoadFalls(queue: seq<Block>, max: nat)
    requires queue != [] && max > 0
    ensures Load(Left(queue, max)) < Load(queue)
  {
    hide Concat;
    Heads(queue);
    if |queue[0]| > max { Splits(queue, max); }
  }

  lemma FewerDests(rounds: seq<Round>, n: nat, chunks: nat, size: nat)
    requires AllDiligent(rounds, chunks, size) && n <= chunks
    ensures AllDiligent(rounds, n, size)
  {
    forall k | 0 <= k < |rounds| ensures Diligent(rounds[k], n, size) { assert Diligent(rounds[k], chunks, size); }
  }

  /** No destination got the whole body of a PUT that wants more. */
  lemma NoReply(p: Put)
    requires p.Valid() && p.length.None? && p.remaining != 0
    ensures forall i :: 0 <= i < |p.dests| ==> p.dests[i].state != Reply
  {
    forall i | 0 <= i < |p.dests| ensures p.dests[i].state != Reply {
      assert Follows(p.dests[i], p.popped, p.length);
      assert forall k :: 0 <= k < |p.popped| ==> p.All()[k] == p.popped[k];
    }
  }

  lemma BeginsFresh(p: Put)
    requires p.Valid()
    ensures p.state == WholeBegin ==> forall i :: 0 <= i < |p.dests| ==> p.dests[i].state == Begin
    ensures p.soft >= 0 ==> 0 <= p.remaining <= p.soft && (p.Ended() ==> p.remaining == 0)
  {
  }

  /** The next buffer is sent by all destinations at once. */
  lemma StepsIdle(dests: seq<Dest>, b: Block, state: WholeState, round: Round, size: nat)
    requires dests != [] && state != WholeFinished && Diligent(round, |dests|, size) && |b| <= size
    requires forall i :: 0 <= i < |dests| ==> dests[i].buffer.None? && dests[i].state != Finished && dests[i].state != Reply
    ensures
      var s := Stepped(None, dests, [b], state, round);
      && |s.0| == |dests| && s.1 == [] && s.2 == WholeReady && s.3
      && forall i :: 0 <= i < |dests| ==> s.0[i].buffer.None? && s.0[i].state != Finished && s.0[i].sent == dests[i].sent + b
  {
    hide Stepped, Diligent, Success;
    RoundHands(dests, [b], state, round, size);
    var s := Stepped(None, dests, [b], state, round);
    assert Moved(dests[0], s.0[0], Some([b][0]));
    assert s.0[0].state != Finished;
    forall i | 0 <= i < |dests|
      ensures s.0[i].buffer.None? && s.0[i].state != Finished && s.0[i].sent == dests[i].sent + b
    {
      assert Moved(dests[i], s.0[i], Some([b][0]));
    }
  }

  /** A PUT that did all it could, and wants no more, is delivered. */
  lemma DrainsIdle(p: Put, rounds: seq<Round>, chunks: nat, size: nat)
    requires p.Valid() && Idle(p, chunks) && AllDiligent(rounds, chunks, size) && |rounds| >= 3
    ensures
      var r := Drained(p.dests, p.queue, p.state, rounds);
      && r.3 == Progress && (exists i :: 0 <= i < |r.0| && Success(r.0[i]))
      && forall j :: 0 <= j < |r.0| ==> ChunksOf(r.0)[j].success
  {
    hide Drained, AllDiligent, Success, Put.Valid;
    FewerDests(rounds, |p.dests|, chunks, size);
    BeginsFresh(p);
    DrainDelivers(p.dests, p.queue, p.state, rounds, size);
    assert Success(Drained(p.dests, p.queue, p.state, rounds).0[0]);
  }

  /** A step of an upload that has something to do, when the transfers go well: it gets closer to its end. */
  method Proceed(u: Upload, ghost chunks: nat, prepared: seq<nat>, rounds: seq<Round>)
    requires Healthy(u, chunks) && !u.finished && (u.queue != [] || !u.readyForData)
    requires prepared != [] && Counts(prepared, chunks)
    requires |rounds| >= 3 && AllDiligent(rounds, chunks, u.target.chunkSize)
    modifies u.Own()
    ensures Healthy(u, chunks) && fresh(u.Own() - old(u.Own())) && u.input == old(u.input)
    ensures u.readyForData == old(u.readyForData)
    ensures u.finished || Load(u.queue) < old(Load(u.queue)) || (u.queue == old(u.queue) && Rank(u) < old(Rank(u)))
  {
    hide AllDiligent, Stepped, Drained, Success, Put.Valid, Concat, AllHold, Contiguous, Cut, AllFull, NextOffset, NextMeta, Load;
    ghost var p := u.put;
    if p != null {
      BeginsFresh(p);
      if p.ExpectedBytes() == 0 {
        DrainsIdle(p, rounds, chunks, u.target.chunkSize);
      } else {
        NoReply(p);
        FewerDests(rounds, |p.dests|, chunks, u.target.chunkSize);
        ghost var b := Taken(u.queue, p.remaining);
        assert p.queue + [b] == [b];
        DiligentAt(rounds, |p.dests|, u.target.chunkSize);
        StepsIdle(p.dests, b, p.state, rounds[0], u.target.chunkSize);
        LoadFalls(u.queue, p.remaining);
      }
    }
    var r := u.Step(Some(prepared), rounds);
  }

  lemma DiligentAt(rounds: seq<Round>, n: nat, size: nat)
    requires AllDiligent(rounds, n, size) && rounds != []
    ensures Diligent(rounds[0], n, size)
  {
  }

  lemma NothingYet(blocks: seq<Block>, chunks: nat)
    ensures Counts([], chunks) && Concat(blocks[..0]) == [] && AllStored([])
  {
  }

  lemma Over(u: Upload)
    requires u.Valid() && u.clean && u.finished
    ensures !u.readyForData
  {
  }

  /** _upload_sequential: with a source that has data until its end, a proxy that answers and transfers that go well,
      an upload finishes without error, and it was fed the whole stream. */
  method Sequential(target: Target, blocks: seq<Block>, ghost chunks: nat, prepare: nat -> seq<nat>, schedule: nat -> seq<Round>)
    returns (u: Upload)
    requires target.chunkSize > 0 && forall i :: 0 <= i < |blocks| ==> blocks[i] != []
    requires forall k :: prepare(k) != [] && Counts(prepare(k), chunks)
    requires forall k :: |schedule(k)| >= 3 && AllDiligent(schedule(k), chunks, target.chunkSize)
    ensures u.Valid() && u.target == target && u.finished && u.clean && u.input == Concat(blocks)
    ensures AllStored(u.done) && AllHold(u.done, u.stored) && Concat(u.stored) == Concat(blocks)
  {
    hide AllDiligent, Put.Valid, Concat, Upload.Valid, Load, Counts, Idle, AllStored, AllHold;
    u := new Upload(target);
    var fed, k := 0, 0;
    NothingYet(blocks, chunks);
    while !u.finished
      invariant Healthy(u, chunks) && fresh(u) && fresh(u.Own()) && u.target == target && 0 <= fed <= |blocks|
      invariant u.input == Concat(blocks[..fed]) && (!u.readyForData ==> fed == |blocks|)
      decreases !u.finished, |blocks| - fed + (if u.readyForData then 1 else 0), Load(u.queue), Rank(u)
    {
      if u.readyForData && u.queue == [] {
        if fed < |blocks| {
          u.Feed(blocks[fed]);
          assert blocks[..fed + 1] == blocks[..fed] + [blocks[fed]];
          ConcatAppend(blocks[..fed], blocks[fed]);
          fed := fed + 1;
        } else {
          u.Feed([]);
          assert u.input + [] == u.input;
        }
      }
      Proceed(u, chunks, prepare(k), schedule(k));
      k := k + 1;
    }
    Over(u);
    Conservation(u);
    assert blocks[..fed] == blocks;
  }
}
