/**
 The LRU tree of core/lrutree.c: a red-black tree by key and a double-ended queue
 by last access, over the same nodes. Every operation is proved against LruSpec;
 the memory of the nodes is the one of the two pointer structures.
 */
module LruTree {
  import opened Basics
  import opened LruNodes
  import opened RbShape
  import opened RbTree
  import opened LruSpec

  ghost predicate AllSet(s: seq<Node>)
    reads s`key, s`value
  {
    forall i :: 0 <= i < |s| ==> s[i].key.Some? && s[i].value.Some?
  }

  /** Sorted by key, `x` left aside. */
  ghost predicate SortedBut(cmp: (Key, Key) -> int, s: seq<Node>, x: Node)
    reads s`key
  {
    && (forall i :: 0 <= i < |s| && s[i] != x ==> s[i].key.Some?)
    && (forall i, j :: 0 <= i < j < |s| && s[i] != x && s[j] != x ==> cmp(s[i].key.value, s[j].key.value) < 0)
  }

  lemma SortedWithout(cmp: (Key, Key) -> int, a: seq<Node>, x: Node, b: seq<Node>)
    requires SortedBut(cmp, a + [x] + b, x) && x !in a + b
    ensures Sorted(cmp, a + b)
  {
    var s, r := a + [x] + b, a + b;
    forall i | 0 <= i < |r|
      ensures r[i] == s[if i < |a| then i else i + 1] && r[i] != x
    {
      assert r[i] in r;
    }
  }

  /** The entries that a sequence of nodes stands for. */
  ghost function Entries(s: seq<Node>): (q: seq<Entry>)
    requires AllSet(s)
    reads s`key, s`value, s`atime
    ensures |q| == |s|
    ensures forall i :: 0 <= i < |s| ==> q[i] == Entry(s[i].key.value, s[i].value.value, s[i].atime)
  {
    if s == [] then [] else
      var n := s[|s| - 1];
      Entries(s[..|s| - 1]) + [Entry(n.key.value, n.value.value, n.atime)]
  }

  /** Pairs taken one by one from the end of a list of entries. */
  ghost predicate FromTail(was: seq<Entry>, out: seq<(Key, Value)>) {
    |out| <= |was| && forall i :: 0 <= i < |out| ==> out[i] == (was[|was| - 1 - i].key, was[|was| - 1 - i].value)
  }

  lemma NoneFromTail(was: seq<Entry>)
    ensures FromTail(was, [])
  {
  }

  lemma OneMoreFromTail(was: seq<Entry>, out: seq<(Key, Value)>, k: Key, v: Value)
    requires FromTail(was, out) && |out| < |was|
    requires was[|was| - 1 - |out|].key == k && was[|was| - 1 - |out|].value == v
    ensures FromTail(was, out + [(k, v)])
  {
  }

  class Lru {
    const cmp: (Key, Key) -> int
    const flags: Flags
    const base: RbHead

    var first: Node?
    var last: Node?
    var count: int

    /** The nodes, from the most to the least recently touched. */
    ghost var queue: seq<Node>
    /** The time of the last operation that read the clock. */
    ghost var clock: int

    /** The tree, the queue and the counter describe the same nodes. */
    ghost predicate Structure()
      reads this, base, queue, base.links.at.Keys, base.Order()
    {
      && base.Valid() && TotalOrder(cmp) && Sorted(cmp, base.Order())
      && Deque() && AllSet(queue)
      && Elems(queue) == base.links.at.Keys && count == |queue|
    }

    ghost function View(): seq<Entry>
      reads `queue, queue`key, queue`value, queue`atime
      requires AllSet(queue)
    {
      Entries(queue)
    }

    ghost predicate Valid()
      reads this, base, queue, base.links.at.Keys, base.Order()
    {
      Structure() && WellFormed(View(), clock)
    }

    /** lru_tree_create */
    constructor (cmp: (Key, Key) -> int, flags: Flags)
      requires TotalOrder(cmp)
      ensures Valid() && View() == [] && this.cmp == cmp && this.flags == flags
      ensures fresh(base) && queue == [] && clock == 0
    {
      this.cmp, this.flags := cmp, flags;
      base := new RbHead();
      first, last, count := null, null, 0;
      queue, clock := [], 0;
    }

    // ---- The double-ended queue --------------------------------------------------

    ghost predicate Deque()
      reads `first, `last, `queue, queue`prev, queue`next
    {
      && (forall i, j :: 0 <= i < j < |queue| ==> queue[i] != queue[j])
      && first == (if queue == [] then null else queue[0])
      && last == (if queue == [] then null else queue[|queue| - 1])
      && (queue != [] ==> queue[0].prev == null && queue[|queue| - 1].next == null)
      && (forall i {:trigger queue[i].prev} :: 1 <= i < |queue| ==> queue[i].prev == queue[i - 1])
      && (forall i {:trigger queue[i].next} :: 0 <= i < |queue| - 1 ==> queue[i].next == queue[i + 1])
    }

    method Extract(node: Node, ghost i: nat)
      requires Deque() && i < |queue| && queue[i] == node
      modifies `first, `last, `queue, Elems(queue)`prev, Elems(queue)`next
      ensures Deque() && queue == old(queue[..i] + queue[i + 1..])
      ensures node.prev == null && node.next == null
    {
      ghost var q := queue;
      assert node.prev == (if i == 0 then null else q[i - 1]);
      assert node.next == (if i == |q| - 1 then null else q[i + 1]);
      assert q[i] in Elems(q) && (i > 0 ==> q[i - 1] in Elems(q)) && (i + 1 < |q| ==> q[i + 1] in Elems(q));
      if first == node {
        first := node.next;
      }
      if last == node {
        last := node.prev;
      }
      if node.prev != null {
        node.prev.next := node.next;
      }
      if node.next != null {
        node.next.prev := node.prev;
      }
      node.next, node.prev := null, null;
      queue := q[..i] + q[i + 1..];
    }

    method PushFront(node: Node)
      requires Deque() && node !in queue
      modifies `first, `last, `queue, Elems(queue)`prev, node`prev, node`next
      ensures Deque() && queue == [node] + old(queue)
    {
      assert queue != [] ==> queue[0] in Elems(queue);
      if first == null {
        node.prev, node.next := null, null;
        first, last := node, node;
      } else {
        node.prev := null;
        node.next := first;
        first.prev := node;
        first := node;
      }
      queue := [node] + queue;
    }

    // ---- Keys -------------------------------------------------------------------

    /** The nodes of the queue are those of the tree. */
    lemma SameNode(n: Node)
      requires base.Valid() && Elems(queue) == base.links.at.Keys
      ensures n in base.Order() <==> n in queue
      ensures n in queue <==> n in base.links.at
    {
      NodesAreInorder(base.shape);
      assert n in base.Order() ==> n in Elems(base.Order());
      assert n in queue ==> n in Elems(queue);
    }

    /** Two nodes of the tree have different keys. */
    lemma KeysDiffer(a: Node, b: Node)
      requires TotalOrder(cmp) && Sorted(cmp, base.Order())
      requires a in base.Order() && b in base.Order() && a != b
      ensures a.key.Some? && b.key.Some? && a.key != b.key
    {
      var s := base.Order();
      var i :| 0 <= i < |s| && s[i] == a;
      var j :| 0 <= j < |s| && s[j] == b;
      if i < j {
        assert cmp(a.key.value, b.key.value) < 0;
      } else {
        assert cmp(b.key.value, a.key.value) < 0;
      }
    }

    /** Where a node of the queue stands among the entries. */
    lemma Position(i: nat)
      requires Structure() && i < |queue|
      ensures Index(View(), queue[i].key.value) == i
    {
      hide RbHead.Valid, TotalOrder, Sorted, Deque;
      var k := queue[i].key.value;
      var j := Index(View(), k);
      if j < i {
        SameNode(queue[i]);
        SameNode(queue[j]);
        Differ(i, j);
        KeysDiffer(queue[j], queue[i]);
      }
    }

    lemma Differ(i: nat, j: nat)
      requires Deque() && i < |queue| && j < |queue| && i != j
      ensures queue[i] != queue[j]
    {
    }

    /** A key that no node of the tree has is no key of the entries. */
    lemma Absent(k: Key)
      requires Structure() && forall n :: n in base.Order() ==> n.key != Some(k)
      ensures Index(View(), k) == |queue|
    {
      hide RbHead.Valid, TotalOrder, Sorted, Deque;
      var j := Index(View(), k);
      if j < |queue| {
        SameNode(queue[j]);
      }
    }

    // ---- Insertion ----------------------------------------------------------------

    /** RB_INSERT of a node whose key is not in the tree. */
    method Enter(node: Node)
      requires base.Valid() && TotalOrder(cmp) && Sorted(cmp, base.Order())
      requires node.key.Some? && node !in base.links.at
      requires forall n :: n in base.Order() ==> n.key != node.key
      modifies base, node`left, node`right, node`parent, node`red
      modifies base.links.at.Keys`left, base.links.at.Keys`right, base.links.at.Keys`parent, base.links.at.Keys`red
      ensures base.Valid() && Sorted(cmp, base.Order()) && base.links.at.Keys == old(base.links.at.Keys) + {node}
    {
      hide RbHead.Valid, TotalOrder;
      ghost var o := base.Order();
      assert allocated(o);
      var dup: Node?;
      ghost var a, b;
      dup, a, b := base.Insert(cmp, node);
      assert dup != null ==> dup in o;
    }

    /** The tree holds one node more than the queue; the queue gets it too, in front. */
    method Enqueue(node: Node, now: int)
      requires base.Valid() && TotalOrder(cmp) && Sorted(cmp, base.Order())
      requires Deque() && AllSet(queue) && AllSet([node]) && node !in queue
      requires Elems(queue) + {node} == base.links.at.Keys && count == |queue| + 1
      modifies `first, `last, `queue, Elems(queue)`prev, node`prev, node`next, node`atime
      ensures Structure() && queue == [node] + old(queue)
      ensures View() == [Entry(node.key.value, node.value.value, now)] + old(View())
    {
      hide RbHead.Valid, TotalOrder, Sorted, Deque, Elems;
      ghost var q := queue;
      assert allocated(base.Order());
      assert [node][0] == node;
      PushFront(node);
      node.atime := now;
      ElemsConcat([node], q);
      SingleElem(node);
    }

    method InsertNew(k: Key, v: Value, now: int)
      requires Structure() && forall n :: n in base.Order() ==> n.key != Some(k)
      modifies this, base, Elems(queue)
      ensures Structure() && View() == [Entry(k, v, now)] + old(View())
      ensures clock == old(clock) && fresh(Elems(queue) - old(Elems(queue)))
    {
      hide RbHead.Valid, RbHead.Order, TotalOrder, Sorted, Deque, Elems, Entries, AllSet;
      assert allocated(base.Order());
      var node := new Node(k, v);
      assert Sorted(cmp, base.Order());
      SingleSet(node);
      Enter(node);
      count := count + 1;
      Enqueue(node, now);
      ElemsConcat([node], old(queue));
      SingleElem(node);
    }

    lemma SingleSet(node: Node)
      requires node.key.Some? && node.value.Some?
      ensures AllSet([node])
    {
    }

    /** _node_deq_extract, then _node_deq_push_front, then a new access time. */
    method Refresh(node: Node, now: int, ghost i: nat)
      requires Structure() && i < |queue| && queue[i] == node
      modifies `first, `last, `queue, Elems(queue)`prev, Elems(queue)`next, Elems(queue)`atime
      ensures Structure() && View() == Touched(old(View()), i, now)
      ensures Elems(queue) == old(Elems(queue))
    {
      hide RbHead.Valid, TotalOrder, Sorted, Deque, Elems, Entries;
      ghost var q, e := queue, View();
      assert allocated(base.Order());
      ExtractedElems(i);
      Extract(node, i);
      assert View() == Without(e, i);
      Enqueue(node, now);
    }

    /** A queue without its node `i`. */
    lemma ExtractedElems(i: nat)
      requires Deque() && i < |queue|
      ensures Elems(queue[..i] + queue[i + 1..]) == Elems(queue) - {queue[i]}
      ensures queue[i] in Elems(queue) && queue[i] !in queue[..i] + queue[i + 1..]
    {
      assert queue == queue[..i] + [queue[i]] + queue[i + 1..];
      ElemsConcat(queue[..i], [queue[i]]);
      ElemsConcat(queue[..i] + [queue[i]], queue[i + 1..]);
      ElemsConcat(queue[..i], queue[i + 1..]);
      SingleElem(queue[i]);
    }

    /** _node_update: the key is replaced by an equal one. */
    method UpdateNode(node: Node, k: Key, v: Value, ghost i: nat)
      requires Structure() && i < |queue| && queue[i] == node && node.key == Some(k)
      modifies node`key, node`value
      ensures Structure() && View() == old(View())[i := old(View())[i].(value := v)]
    {
      hide RbHead.Valid, TotalOrder, Deque, Elems;
      assert allocated(base.Order());
      forall j | 0 <= j < |queue| && j != i ensures queue[j] != node { Differ(i, j); }
      node.key, node.value := Some(k), Some(v);
    }

    /** The node with key `k`, if any, and where it stands. */
    method Lookup(k: Key) returns (node: Node?, ghost i: nat)
      requires Structure()
      ensures Structure() && View() == old(View()) && queue == old(queue)
      ensures node == null ==> Index(View(), k) == |queue| && forall n :: n in base.Order() ==> n.key != Some(k)
      ensures node != null ==> i < |queue| && queue[i] == node && node.key == Some(k) && Index(View(), k) == i
      ensures node != null ==> node in Elems(queue)
    {
      hide RbHead.Valid, TotalOrder, Sorted, Deque, Entries, Elems;
      assert allocated(base.Order());
      i := 0;
      ghost var steps;
      node, steps := base.Find(cmp, k);
      if node == null {
        Absent(k);
      } else {
        SameNode(node);
        i :| 0 <= i < |queue| && queue[i] == node;
        Position(i);
        Member(i);
      }
    }

    lemma Member(i: nat)
      requires i < |queue|
      ensures queue[i] in Elems(queue)
    {
    }

    /** lru_tree_insert */
    method Insert(k: Key, v: Value, now: int)
      requires Valid() && clock <= now
      modifies this, base, Elems(queue)
      ensures Valid() && View() == Put(old(View()), k, v, now, flags.noUtime) && clock == now
      ensures fresh(Elems(queue) - old(Elems(queue)))
    {
      hide RbHead.Valid, RbHead.Order, TotalOrder, Sorted, Deque, AllSet, Entries, WellFormed, Elems, Put, Index;
      hide TableStep, ToTable;
      PutKeeps(View(), k, v, now, flags, clock);
      PutNew(View(), k, v, now, flags.noUtime);
      var node: Node?;
      ghost var i;
      node, i := Lookup(k);
      if node == null {
        InsertNew(k, v, now);
      } else {
        Overwrite(node, k, v, now, i);
      }
      clock := now;
    }

    method Overwrite(node: Node, k: Key, v: Value, now: int, ghost i: nat)
      requires Structure() && i < |queue| && queue[i] == node && node.key == Some(k) && Index(View(), k) == i
      modifies `first, `last, `queue, Elems(queue)`prev, Elems(queue)`next, Elems(queue)`atime, node`key, node`value
      ensures Structure() && View() == Put(old(View()), k, v, now, flags.noUtime)
      ensures Elems(queue) == old(Elems(queue))
    {
      hide RbHead.Valid, TotalOrder, Sorted, Deque, Entries, Touched, Elems;
      UpdateNode(node, k, v, i);
      if !flags.noUtime {
        Refresh(node, now, i);
      }
    }

    /** lru_tree_get */
    method Get(k: Key, now: int) returns (v: Option<Value>)
      requires Valid() && clock <= now
      modifies this, Elems(queue)
      ensures Valid() && (View(), v) == LruSpec.Get(old(View()), k, now, flags.noAtime) && clock == now
      ensures Elems(queue) == old(Elems(queue))
    {
      hide RbHead.Valid, RbHead.Order, TotalOrder, Sorted, Deque, Entries, WellFormed, Touched, Elems, TableStep, ToTable;
      GetKeeps(View(), k, now, flags, clock);
      var node: Node?;
      ghost var i;
      node, i := Lookup(k);
      clock := now;
      if node == null {
        return None;
      }
      if !flags.noAtime {
        Refresh(node, now, i);
      }
      v := node.value;
    }

    // ---- Removal ------------------------------------------------------------------

    /** RB_REMOVE: it does not look at the key of `node`, which may be gone already. */
    method Leave(node: Node)
      requires base.Valid() && node in base.links.at && SortedBut(cmp, base.Order(), node)
      modifies base
      modifies base.links.at.Keys`left, base.links.at.Keys`right, base.links.at.Keys`parent, base.links.at.Keys`red
      ensures base.Valid() && Sorted(cmp, base.Order()) && base.links.at.Keys == old(base.links.at.Keys) - {node}
    {
      hide SortedBut, Sorted;
      ghost var o := base.Order();
      assert allocated(o);
      var gone: Node;
      ghost var a, b;
      gone, a, b := base.Remove(node);
      assert SortedBut(cmp, a + [node] + b, node);
      NodesAreInorder(base.shape);
      assert node !in a + b by {
        assert base.Order() == a + b && node !in Elems(a + b);
        assert node in a + b ==> node in Elems(a + b);
      }
      SortedWithout(cmp, a, node, b);
    }

    /** Take a node out of the tree, of the queue and of the counter. */
    method Unlink(node: Node, ghost i: nat)
      requires base.Valid() && TotalOrder(cmp) && SortedBut(cmp, base.Order(), node)
      requires Deque() && i < |queue| && queue[i] == node && AllSet(queue[..i] + queue[i + 1..])
      requires Elems(queue) == base.links.at.Keys && count == |queue|
      modifies this, base, Elems(queue)`prev, Elems(queue)`next
      modifies Elems(queue)`left, Elems(queue)`right, Elems(queue)`parent, Elems(queue)`red
      ensures Structure() && queue == old(queue[..i] + queue[i + 1..])
      ensures View() == old(Entries(queue[..i] + queue[i + 1..]))
      ensures clock == old(clock) && Elems(queue) == old(Elems(queue)) - {node}
    {
      hide RbHead.Valid, TotalOrder, Sorted, SortedBut, Deque, Elems, Entries;
      ghost var q := queue[..i] + queue[i + 1..];
      assert allocated(q);
      QueueIsTree();
      ExtractedElems(i);
      Leave(node);
      assert allocated(base.Order());
      Extract(node, i);
      count := count - 1;
    }

    /** _steal */
    method StealNode(node: Node, ghost i: nat) returns (k: Key, v: Value)
      requires Structure() && i < |queue| && queue[i] == node
      modifies this, base, Elems(queue)
      ensures Structure() && View() == Without(old(View()), i)
      ensures Entry(k, v, old(node.atime)) == old(View())[i]
      ensures clock == old(clock) && Elems(queue) == old(Elems(queue)) - {node}
      ensures queue == old(queue[..i] + queue[i + 1..])
    {
      hide RbHead.Valid, TotalOrder, Deque, Elems, Entries, Sorted, SortedBut;
      k, v := node.key.value, node.value.value;
      Member(i);
      ClearNode(node, i);
      Unlink(node, i);
    }

    /** node->k = node->v = NULL */
    method ClearNode(node: Node, ghost i: nat)
      requires Structure() && i < |queue| && queue[i] == node
      modifies node`key, node`value
      ensures base.Valid() && SortedBut(cmp, base.Order(), node) && Deque()
      ensures AllSet(queue[..i] + queue[i + 1..]) && Entries(queue[..i] + queue[i + 1..]) == Without(old(View()), i)
    {
      hide RbHead.Valid, TotalOrder, Deque, Elems, Sorted, AllSet, Entries;
      ghost var rest := queue[..i] + queue[i + 1..];
      EntriesWithout(i);
      assert allocated(base.Order());
      assert allocated(rest);
      node.key, node.value := None, None;
    }

    lemma EntriesWithout(i: nat)
      requires Structure() && i < |queue|
      ensures
        var rest := queue[..i] + queue[i + 1..];
        && AllSet(rest) && Entries(rest) == Without(View(), i) && queue[i] !in rest
        && SortedBut(cmp, base.Order(), queue[i])
    {
      hide RbHead.Valid, TotalOrder, Elems;
    }

    /** lru_tree_remove */
    method Remove(k: Key) returns (found: bool)
      requires Valid()
      modifies this, base, Elems(queue)
      ensures Valid() && View() == Drop(old(View()), k) && (found <==> Has(old(View()), k))
      ensures clock == old(clock) && Elems(queue) <= old(Elems(queue))
    {
      hide RbHead.Valid, TotalOrder, Deque, WellFormed, Elems, Sorted, Entries, TableStep, ToTable;
      DropKeeps(View(), k, flags, clock);
      var node: Node?;
      ghost var i;
      node, i := Lookup(k);
      found := node != null;
      if found {
        RemoveNode(node, i);
      }
    }

    method RemoveNode(node: Node, ghost i: nat)
      requires Structure() && i < |queue| && queue[i] == node
      modifies this, base, Elems(queue)
      ensures Structure() && View() == Without(old(View()), i)
      ensures clock == old(clock) && Elems(queue) == old(Elems(queue)) - {node}
    {
      hide RbHead.Valid, TotalOrder, Deque, Elems;
      assert Entries(queue[..i] + queue[i + 1..]) == Without(View(), i);
      Unlink(node, i);
    }

    /** lru_tree_steal */
    method Steal(k: Key) returns (v: Option<Value>)
      requires Valid()
      modifies this, base, Elems(queue)
      ensures Valid() && View() == Drop(old(View()), k) && clock == old(clock)
      ensures v == if Has(old(View()), k) then Some(old(View())[Index(old(View()), k)].value) else None
      ensures Elems(queue) <= old(Elems(queue))
    {
      hide RbHead.Valid, TotalOrder, Deque, WellFormed, Elems, Sorted, Entries, TableStep, ToTable;
      DropKeeps(View(), k, flags, clock);
      var node: Node?;
      ghost var i;
      node, i := Lookup(k);
      if node == null {
        return None;
      }
      var pk, pv := StealNode(node, i);
      v := Some(pv);
    }

    /** The last node of the queue is the last entry. */
    lemma LastIs()
      requires Structure()
      ensures last == null <==> queue == []
      ensures last != null ==> queue[|queue| - 1] == last && View()[|queue| - 1].atime == last.atime
    {
    }

    method RemoveLast() returns (k: Key, v: Value)
      requires Structure() && last != null
      modifies this, base, Elems(queue)
      ensures Structure() && |old(View())| > 0 && View() == old(View())[..|old(View())| - 1]
      ensures Entry(k, v, old(last.atime)) == old(View())[|old(View())| - 1]
      ensures clock == old(clock) && Elems(queue) <= old(Elems(queue))
    {
      hide RbHead.Valid, TotalOrder, Deque, Elems, Sorted, Entries;
      LastIs();
      ghost var n := |queue| - 1;
      assert Without(View(), n) == View()[..n];
      k, v := StealNode(last, n);
    }

    /** lru_tree_remove_older */
    method RemoveOlder(oldest: int) returns (removed: nat)
      requires Valid()
      modifies this, base, Elems(queue)
      ensures Valid() && View() == Fresh(old(View()), oldest) && removed == |old(View())| - |View()|
      ensures clock == old(clock) && Elems(queue) <= old(Elems(queue))
    {
      hide RbHead.Valid, TotalOrder, Deque, Sorted, Entries;
      FreshIsPrefix(View(), oldest, clock);
      removed := 0;
      LastIs();
      while last != null && last.atime < oldest
        invariant Structure() && clock == old(clock) && Elems(queue) <= old(Elems(queue))
        invariant View() <= old(View()) && Fresh(View(), oldest) == Fresh(old(View()), oldest)
        invariant removed == |old(View())| - |View()|
        invariant last == null <==> queue == []
        invariant last != null ==> queue[|queue| - 1] == last && View()[|queue| - 1].atime == last.atime
        decreases |queue|
      {
        var k, v := RemoveLast();
        removed := removed + 1;
        LastIs();
      }
    }

    /** lru_tree_remove_exceeding */
    method RemoveExceeding(max: nat) returns (removed: nat)
      requires Valid()
      modifies this, base, Elems(queue)
      ensures Valid() && removed == |old(View())| - |View()|
      ensures View() == AtMost(old(View()), max)
      ensures clock == old(clock) && Elems(queue) <= old(Elems(queue))
    {
      hide RbHead.Valid, TotalOrder, Deque, Sorted, Entries, Elems;
      PrefixWellFormed(View(), if |View()| <= max then |View()| else max, clock);
      removed := 0;
      LastIs();
      while last != null && count > max
        invariant Structure() && clock == old(clock) && Elems(queue) <= old(Elems(queue))
        invariant View() <= old(View()) && removed == |old(View())| - |View()|
        invariant |View()| >= max || View() == old(View())
        invariant last == null <==> queue == []
        decreases |queue|
      {
        var k, v := RemoveLast();
        removed := removed + 1;
        LastIs();
      }
    }

    /** lru_tree_foreach_older_steal: the pairs handed to the callback, in order. */
    method ForeachOlderSteal(oldest: int, max: nat) returns (out: seq<(Key, Value)>)
      requires Valid()
      modifies this, base, Elems(queue)
      ensures Valid() && View() == FreshAtMost(old(View()), oldest, max)
      ensures |out| == |old(View())| - |View()| && FromTail(old(View()), out)
      ensures clock == old(clock) && Elems(queue) <= old(Elems(queue))
    {
      hide RbHead.Valid, RbHead.Order, TotalOrder, Deque, Sorted, Entries, Elems, WellFormed, FromTail, FreshAtMost, AllSet;
      NoneFromTail(View());
      PrefixWellFormed(View(), |FreshAtMost(View(), oldest, max)|, clock);
      out := [];
      var left := max;
      while last != null && last.atime < oldest && left > 0
        invariant Structure() && clock == old(clock) && Elems(queue) <= old(Elems(queue))
        invariant View() <= old(View()) && |out| == |old(View())| - |View()|
        invariant FreshAtMost(View(), oldest, left) == FreshAtMost(old(View()), oldest, max) && FromTail(old(View()), out)
        decreases left
      {
        LastIs();
        FreshAtMostStep(View(), oldest, left);
        left := left - 1;
        var k, v := RemoveLast();
        OneMoreFromTail(old(View()), out, k, v);
        out := out + [(k, v)];
      }
      LastIs();
      FreshAtMostStep(View(), oldest, left);
    }

    /** lru_tree_remove_matching */
    method RemoveMatching(filter: (Key, Value) -> bool) returns (removed: nat)
      requires Valid()
      modifies this, base, Elems(queue)
      ensures Valid() && View() == Unmatched(old(View()), filter) && removed == |old(View())| - |View()|
      ensures clock == old(clock) && Elems(queue) <= old(Elems(queue))
    {
      hide RbHead.Valid, RbHead.Order, TotalOrder, Sorted, Entries, Elems, WellFormed, Deque, Without, Unmatched, Split;
      hide AllSet;
      ghost var e := View();
      UnmatchedKeeps(e, filter, clock);
      removed := 0;
      Ahead(0);
      var node := first;
      ghost var done, i := 0, 0;
      UnmatchedSplit(e, filter, View(), 0, 0);
      while node != null
        invariant Structure() && clock == old(clock) && Elems(queue) <= old(Elems(queue))
        invariant i <= |queue| && done <= |e| && Split(e, filter, View(), i, done)
        invariant removed == |e| - |queue|
        invariant node == if i == |queue| then null else queue[i]
        decreases |e| - done
      {
        SplitStep(e, filter, View(), i, done);
        Ahead(i);
        var next := node.next;
        if filter(node.key.value, node.value.value) {
          var k, v := StealNode(node, i);
          removed := removed + 1;
        } else {
          i := i + 1;
        }
        node := next;
        done := done + 1;
      }
      UnmatchedSplit(e, filter, View(), i, done);
    }

    /** What comes after the position `i`. */
    lemma Ahead(i: nat)
      requires Structure() && i <= |queue|
      ensures first == if queue == [] then null else queue[0]
      ensures i < |queue| ==> queue[i].next == if i == |queue| - 1 then null else queue[i + 1]
      ensures i < |queue| ==> queue[i].key.Some? && queue[i].value.Some?
      ensures i < |queue| ==> View()[i].key == queue[i].key.value && View()[i].value == queue[i].value.value
    {
    }

    /** lru_tree_count */
    method Count() returns (n: int)
      requires Valid()
      ensures n == |View()|
    {
      n := count;
    }

    lemma QueueIsTree()
      requires Elems(queue) == base.links.at.Keys
      ensures forall n :: n in base.links.at <==> n in queue
    {
      forall n
        ensures n in base.links.at <==> n in queue
      {
        assert n in queue ==> n in Elems(queue);
      }
    }

    lemma SingleElem(n: Node)
      ensures Elems([n]) == {n}
    {
      assert [n][0] == n;
    }
  }
}
