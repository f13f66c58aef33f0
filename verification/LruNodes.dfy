/**
 The node of the LRU tree (core/lrutree.c): one object carries the links of the
 red-black tree (the index by key) and the links of the double-ended queue (the
 order of last access). Keys and values are opaque; keys are only ever compared
 through the comparison function given to the tree.
 */
module LruNodes {
  import opened Basics

  type Key(==, !new)
  type Value(==, !new)

  class Node {
    // Entry of the red-black tree
    var left: Node?
    var right: Node?
    var parent: Node?
    var red: bool

    // Entry of the double-ended queue
    var prev: Node?
    var next: Node?

    var atime: int
    var key: Option<Key>
    var value: Option<Value>

    constructor (k: Key, v: Value)
      ensures key == Some(k) && value == Some(v)
      ensures left == null && right == null && parent == null && !red
      ensures prev == null && next == null && atime == 0
    {
      left, right, parent, red := null, null, null, false;
      prev, next, atime := null, null, 0;
      key, value := Some(k), Some(v);
    }
  }

  predicate Lt(cmp: (Key, Key) -> int, a: Key, b: Key) { cmp(a, b) < 0 }

  /** What a comparison function must satisfy: it is the sign of a strict total order. */
  ghost predicate TotalOrder(cmp: (Key, Key) -> int)
  {
    && (forall a, b :: cmp(a, b) == 0 <==> a == b)
    && (forall a, b {:trigger Lt(cmp, a, b)} :: Lt(cmp, a, b) <==> cmp(b, a) > 0)
    && (forall a, b, c :: Lt(cmp, a, b) && Lt(cmp, b, c) ==> Lt(cmp, a, c))
  }
}
