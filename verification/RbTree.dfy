/**
 The pointer red-black tree of core/tree.h: rotations, insertion, removal and
 lookup on nodes linked by left, right and parent. Each step is proved against
 the shapes of RbShape; the position reached by the code is a context and the
 subtree in its hole.
 */
module RbTree {
  import opened Basics
  import opened LruNodes
  import opened RbShape
  import opened RbLinks

  // ---- Order by key -------------------------------------------------------------

  ghost predicate Keyed(s: seq<Node>)
    reads s`key
  {
    forall i :: 0 <= i < |s| ==> s[i].key.Some?
  }

  /** Every key of `s` is before `k`. */
  ghost predicate AllBelow(cmp: (Key, Key) -> int, s: seq<Node>, k: Key)
    reads s`key
  {
    Keyed(s) && forall i :: 0 <= i < |s| ==> cmp(k, s[i].key.value) > 0
  }

  /** Every key of `s` is after `k`. */
  ghost predicate AllAbove(cmp: (Key, Key) -> int, s: seq<Node>, k: Key)
    reads s`key
  {
    Keyed(s) && forall i :: 0 <= i < |s| ==> cmp(k, s[i].key.value) < 0
  }

  ghost predicate Sorted(cmp: (Key, Key) -> int, s: seq<Node>)
    reads s`key
  {
    Keyed(s) && forall i, j :: 0 <= i < j < |s| ==> cmp(s[i].key.value, s[j].key.value) < 0
  }

  /** Comparing `k` with one node of a sorted sequence places it with respect to the rest. */
  lemma Compared(cmp: (Key, Key) -> int, s: seq<Node>, i: nat, k: Key)
    requires TotalOrder(cmp) && Sorted(cmp, s) && i < |s|
    ensures cmp(k, s[i].key.value) < 0 ==> AllAbove(cmp, s[i..], k)
    ensures cmp(k, s[i].key.value) > 0 ==> AllBelow(cmp, s[..i + 1], k)
  {
    forall j | i < j < |s| && cmp(k, s[i].key.value) < 0
      ensures cmp(k, s[j].key.value) < 0
    {
      assert Lt(cmp, k, s[i].key.value) && Lt(cmp, s[i].key.value, s[j].key.value);
      assert Lt(cmp, k, s[j].key.value);
    }
    forall j | 0 <= j < i && cmp(k, s[i].key.value) > 0
      ensures cmp(k, s[j].key.value) > 0
    {
      assert Lt(cmp, s[j].key.value, s[i].key.value) && Lt(cmp, s[i].key.value, k);
      assert Lt(cmp, s[j].key.value, k);
    }
  }

  lemma SortedWith(cmp: (Key, Key) -> int, a: seq<Node>, x: Node, b: seq<Node>)
    requires TotalOrder(cmp) && Sorted(cmp, a + b) && x.key.Some?
    requires AllBelow(cmp, a, x.key.value) && AllAbove(cmp, b, x.key.value)
    ensures Sorted(cmp, a + [x] + b)
  {
    var s := a + [x] + b;
    forall i, j | 0 <= i < j < |s|
      ensures cmp(s[i].key.value, s[j].key.value) < 0
    {
      if i != |a| && j != |a| {
        var i', j' := if i < |a| then i else i - 1, if j < |a| then j else j - 1;
        assert (a + b)[i'] == s[i] && (a + b)[j'] == s[j];
      } else if j == |a| {
        assert cmp(x.key.value, a[i].key.value) > 0;
        assert Lt(cmp, a[i].key.value, x.key.value);
      }
    }
  }

  /** The comparisons made on the way down to a position. */
  ghost predicate OnPath(cmp: (Key, Key) -> int, k: Key, c: Ctx)
    reads CtxNodes(c)`key
  {
    match c
    case Top => true
    case InLeft(n, _, _, up) => n.key.Some? && cmp(k, n.key.value) < 0 && OnPath(cmp, k, up)
    case InRight(_, n, _, up) => n.key.Some? && cmp(k, n.key.value) > 0 && OnPath(cmp, k, up)
  }

  /** In a sorted tree, those few comparisons place `k` with respect to every node. */
  lemma {:induction false} PathBounds(cmp: (Key, Key) -> int, k: Key, c: Ctx, t: Tree)
    requires TotalOrder(cmp) && Sorted(cmp, Whole(c, t)) && OnPath(cmp, k, c)
    ensures AllBelow(cmp, Before(c), k) && AllAbove(cmp, After(c), k)
    decreases c
  {
    hide TotalOrder, Sorted, Whole, AllBelow, AllAbove;
    if c.Top? {
      NothingBounds(cmp, k);
    } else {
      HangWhole(c, t);
      PathBounds(cmp, k, c.up, Hang(c, t));
      Bounded(cmp, k, c, t);
    }
  }

  lemma NothingBounds(cmp: (Key, Key) -> int, k: Key)
    ensures AllBelow(cmp, [], k) && AllAbove(cmp, [], k)
  {
  }

  /** The last comparison bounds what it leaves aside. */
  lemma Bounded(cmp: (Key, Key) -> int, k: Key, c: Ctx, t: Tree)
    requires !c.Top? && TotalOrder(cmp) && Sorted(cmp, Whole(c, t)) && OnPath(cmp, k, c)
    requires AllBelow(cmp, Before(c.up), k) && AllAbove(cmp, After(c.up), k)
    ensures AllBelow(cmp, Before(c), k) && AllAbove(cmp, After(c), k)
  {
    hide TotalOrder, Sorted, AllBelow, AllAbove, Whole, Inorder;
    var i := if c.InLeft? then |Before(c)| + |Inorder(t)| else |Before(c)| - 1;
    WholeParts(c, t);
    Compared(cmp, Whole(c, t), i, k);
  }

  lemma WholeParts(c: Ctx, t: Tree)
    requires !c.Top?
    ensures
      var w, i := Whole(c, t), if c.InLeft? then |Before(c)| + |Inorder(t)| else |Before(c)| - 1;
      && 0 <= i < |w| && w[i] == c.n
      && (if c.InLeft? then w[i..] == After(c) && Before(c) == Before(c.up)
          else w[..i + 1] == Before(c) && After(c) == After(c.up))
  {
    hide Inorder;
  }

  class RbHead {
    var root: Node?
    /** The root and the links of the nodes, as a value. */
    ghost var links: Links
    ghost var shape: Tree

    constructor ()
      ensures Valid() && shape == Leaf
    {
      root := null;
      links := Links(null, map[]);
      shape := Leaf;
    }

    /** The nodes in the order of an in-order traversal. */
    ghost function Order(): seq<Node>
      reads `shape
    {
      Inorder(shape)
    }

    /** A red-black tree whose left, right and parent links agree. */
    ghost predicate Valid()
      reads this, links.at.Keys`left, links.at.Keys`right, links.at.Keys`parent, links.at.Keys`red
    {
      Synced() && At(links, Top, shape) && RedBlack(shape) && links.at.Keys == Nodes(shape)
    }

    ghost predicate Synced()
      reads this, links.at.Keys`left, links.at.Keys`right, links.at.Keys`parent, links.at.Keys`red
    {
      && root == links.root
      && forall n :: n in links.at ==> links.at[n] == Link(n.left, n.right, n.parent, n.red)
    }

    // ---- Assignments to one field ----------------------------------------------

    method PutLeft(n: Node, x: Node?)
      requires Synced() && n in links.at
      modifies `links, links.at.Keys`left
      ensures Synced() && links == SetLeft(old(links), n, x)
      ensures links.at.Keys == old(links.at.Keys)
    {
      n.left := x;
      links := SetLeft(links, n, x);
    }

    method PutRight(n: Node, x: Node?)
      requires Synced() && n in links.at
      modifies `links, links.at.Keys`right
      ensures Synced() && links == SetRight(old(links), n, x)
      ensures links.at.Keys == old(links.at.Keys)
    {
      n.right := x;
      links := SetRight(links, n, x);
    }

    /** RB_PARENT(n) = x, when there is a node n. */
    method PutParent(n: Node?, x: Node?)
      requires Synced() && (n != null ==> n in links.at)
      modifies `links, links.at.Keys`parent
      ensures Synced() && links == SetParent(old(links), n, x)
      ensures links.at.Keys == old(links.at.Keys)
    {
      if n != null {
        n.parent := x;
      }
      links := SetParent(links, n, x);
    }

    method PutRed(n: Node, red: bool)
      requires Synced() && n in links.at
      modifies `links, links.at.Keys`red
      ensures Synced() && links == SetRed(old(links), n, red)
      ensures links.at.Keys == old(links.at.Keys)
    {
      n.red := red;
      links := SetRed(links, n, red);
    }

    /** Put `x` where `child` was, below `parent` or at the root. */
    method Replace(parent: Node?, child: Node?, x: Node?)
      requires Synced() && (parent != null ==> parent in links.at)
      modifies `root, `links, links.at.Keys`left, links.at.Keys`right
      ensures Synced() && links == Replaced(old(links), parent, child, x)
      ensures links.at.Keys == old(links.at.Keys)
    {
      if parent != null {
        if parent.left == child {
          PutLeft(parent, x);
        } else {
          PutRight(parent, x);
        }
      } else {
        root := x;
        links := links.(root := x);
      }
    }

    // ---- Rotations -------------------------------------------------------------

    method TurnLeft(elm: Node)
      requires Synced() && CanRotateLeft(links, elm)
      modifies this, links.at.Keys`left, links.at.Keys`right, links.at.Keys`parent
      ensures Synced() && links == RotatedLeft(old(links), elm)
    {
      hide SetLeft, SetRight, SetParent, Replaced;
      var tmp := elm.right;
      var b, p := tmp.left, elm.parent;
      PutRight(elm, b);
      PutParent(b, elm);
      PutParent(tmp, p);
      Replace(p, elm, tmp);
      PutLeft(tmp, elm);
      PutParent(elm, tmp);
    }

    method TurnRight(elm: Node)
      requires Synced() && CanRotateRight(links, elm)
      modifies this, links.at.Keys`left, links.at.Keys`right, links.at.Keys`parent
      ensures Synced() && links == RotatedRight(old(links), elm)
    {
      hide SetLeft, SetRight, SetParent, Replaced;
      var tmp := elm.left;
      var b, p := tmp.right, elm.parent;
      PutLeft(elm, b);
      PutParent(b, elm);
      PutParent(tmp, p);
      Replace(p, elm, tmp);
      PutRight(tmp, elm);
      PutParent(elm, tmp);
    }

    method RotateLeft(elm: Node, ghost c: Ctx, ghost t: Tree)
      requires Synced() && At(links, c, t) && t.Fork? && t.n == elm && t.r.Fork?
      modifies this, links.at.Keys`left, links.at.Keys`right, links.at.Keys`parent
      ensures Synced() && At(links, c, RotL(t)) && links.at.Keys == old(links.at.Keys)
    {
      RotateLeftAt(links, c, t);
      TurnLeft(elm);
    }

    method RotateRight(elm: Node, ghost c: Ctx, ghost t: Tree)
      requires Synced() && At(links, c, t) && t.Fork? && t.n == elm && t.l.Fork?
      modifies this, links.at.Keys`left, links.at.Keys`right, links.at.Keys`parent
      ensures Synced() && At(links, c, RotR(t)) && links.at.Keys == old(links.at.Keys)
    {
      RotateRightAt(links, c, t);
      TurnRight(elm);
    }

    /** RB_COLOR(n) = red, at the position of `n`. */
    method Paint(n: Node, red: bool, ghost c: Ctx, ghost t: Tree)
      requires Synced() && At(links, c, t) && t.Fork? && t.n == n
      modifies `links, links.at.Keys`red
      ensures Synced() && At(links, c, Painted(t, red)) && links.at.Keys == old(links.at.Keys)
    {
      PaintAt(links, c, t, red);
      PutRed(n, red);
    }

    // ---- Insertion -------------------------------------------------------------

    /** The red uncle case: both sons turn black, the grandparent red. */
    method Recolour(parent: Node, gparent: Node, uncle: Node, ghost c: Ctx, ghost t: Tree)
      requires Synced() && At(links, c, t) && !c.Top? && !c.up.Top? && Sibling(c.up).Fork?
      requires parent == c.n && gparent == c.up.n && uncle == Sibling(c.up).n
      modifies `links, links.at.Keys`red
      ensures Synced() && links.at.Keys == old(links.at.Keys)
      ensures At(links, c.up.up, Recoloured(c, t))
    {
      hide At;
      ghost var g, p, u := c.up, Hang(c, t), Sibling(c.up);
      Up(links, c, t);
      Cross(links, g, p);
      Paint(uncle, false, Across(g, p), u);
      Cross(links, Across(g, p), Painted(u, false));
      ghost var g' := Across(Across(g, p), Painted(u, false));
      Paint(parent, false, g', p);
      Up(links, g', Painted(p, false));
      Paint(gparent, true, g'.up, Hang(g', Painted(p, false)));
    }

    /** Bring an inner grandson of `gparent` to the outer side. */
    method StraightenLeft(elm: Node, parent: Node, ghost c: Ctx, ghost t: Tree)
      requires Synced() && At(links, c, t) && c.InRight? && t.Fork? && elm == t.n && parent == c.n
      modifies this, links.at.Keys`left, links.at.Keys`right, links.at.Keys`parent
      ensures Synced() && links.at.Keys == old(links.at.Keys)
      ensures At(links, InLeft(elm, t.red, t.r, c.up), Fork(c.l, parent, c.red, t.l))
      ensures Whole(InLeft(elm, t.red, t.r, c.up), Fork(c.l, parent, c.red, t.l)) == Whole(c, t)
    {
      ghost var p := Hang(c, t);
      HangWhole(c, t);
      Up(links, c, t);
      RotateLeft(parent, c.up, p);
      RotLInorder(p);
      ghost var c', t' := InLeft(elm, t.red, t.r, c.up), Fork(c.l, parent, c.red, t.l);
      assert RotL(p) == Hang(c', t');
      Up(links, c', t');
      HangWhole(c', t');
    }

    /** The outer grandson case: the parent turns black and takes the place of the
        grandparent, now red. */
    method TurnOverLeft(parent: Node, gparent: Node, ghost c: Ctx, ghost t: Tree)
      requires Synced() && At(links, c, t) && c.InLeft? && c.up.InLeft?
      requires parent == c.n && gparent == c.up.n
      modifies this
      modifies links.at.Keys`left, links.at.Keys`right, links.at.Keys`parent, links.at.Keys`red
      ensures Synced() && links.at.Keys == old(links.at.Keys)
      ensures At(links, InLeft(parent, false, Fork(c.r, gparent, true, c.up.r), c.up.up), t)
      ensures Whole(InLeft(parent, false, Fork(c.r, gparent, true, c.up.r), c.up.up), t) == Whole(c, t)
    {
      ghost var up, p := c.up, Hang(c, t);
      HangWhole(c, t);
      HangWhole(up, p);
      Up(links, c, t);
      Paint(parent, false, up, p);
      ghost var p' := Painted(p, false);
      Up(links, up, p');
      Paint(gparent, true, up.up, Hang(up, p'));
      ghost var g := Painted(Hang(up, p'), true);
      RotateRight(gparent, up.up, g);
      RotRInorder(g);
      ghost var c' := InLeft(parent, false, Fork(c.r, gparent, true, up.r), up.up);
      assert RotR(g) == Hang(c', t);
      Up(links, c', t);
      HangWhole(c', t);
    }

    /** One turn of the loop when the parent is a left son. */
    method AscendLeft(elm0: Node, parent: Node, gparent: Node, ghost c0: Ctx, ghost t0: Tree)
      returns (elm: Node, ghost c: Ctx, ghost t: Tree)
      requires Synced() && At(links, c0, t0) && Rising(c0, t0) && RedParent(c0) && c0.up.InLeft?
      requires elm0 == t0.n && parent == c0.n && gparent == c0.up.n
      requires parent in links.at && gparent in links.at
      modifies this
      modifies links.at.Keys`left, links.at.Keys`right, links.at.Keys`parent, links.at.Keys`red
      ensures Synced() && links.at.Keys == old(links.at.Keys)
      ensures At(links, c, t) && Rising(c, t) && elm == t.n && Depth(c) < Depth(c0)
      ensures Whole(c, t) == Whole(c0, t0)
    {
      RecolourRises(c0, t0);
      Nearby(links, c0, t0);
      var uncle := gparent.right;
      if uncle != null && uncle.red {
        RecolouredWhole(c0, t0);
        Recolour(parent, gparent, uncle, c0, t0);
        elm, c, t := gparent, c0.up.up, Recoloured(c0, t0);
      } else if parent.right == elm0 {
        InnerRises(c0, t0);
        StraightenLeft(elm0, parent, c0, t0);
        elm, c, t := parent, InLeft(elm0, true, t0.r, c0.up), Fork(c0.l, parent, true, t0.l);
        TurnRises(c, t);
        TurnOverLeft(elm0, gparent, c, t);
        c := InLeft(elm0, false, Fork(c.r, gparent, true, c.up.r), c.up.up);
      } else {
        TurnRises(c0, t0);
        TurnOverLeft(parent, gparent, c0, t0);
        elm, c, t := elm0, InLeft(parent, false, Fork(c0.r, gparent, true, c0.up.r), c0.up.up), t0;
      }
    }

    /** Bring an inner grandson of `gparent` to the outer side. */
    method StraightenRight(elm: Node, parent: Node, ghost c: Ctx, ghost t: Tree)
      requires Synced() && At(links, c, t) && c.InLeft? && t.Fork? && elm == t.n && parent == c.n
      modifies this, links.at.Keys`right, links.at.Keys`left, links.at.Keys`parent
      ensures Synced() && links.at.Keys == old(links.at.Keys)
      ensures At(links, InRight(t.l, elm, t.red, c.up), Fork(t.r, parent, c.red, c.r))
      ensures Whole(InRight(t.l, elm, t.red, c.up), Fork(t.r, parent, c.red, c.r)) == Whole(c, t)
    {
      ghost var p := Hang(c, t);
      HangWhole(c, t);
      Up(links, c, t);
      RotateRight(parent, c.up, p);
      RotRInorder(p);
      ghost var c', t' := InRight(t.l, elm, t.red, c.up), Fork(t.r, parent, c.red, c.r);
      assert RotR(p) == Hang(c', t');
      Up(links, c', t');
      HangWhole(c', t');
    }

    /** The outer grandson case: the parent turns black and takes the place of the
        grandparent, now red. */
    method TurnOverRight(parent: Node, gparent: Node, ghost c: Ctx, ghost t: Tree)
      requires Synced() && At(links, c, t) && c.InRight? && c.up.InRight?
      requires parent == c.n && gparent == c.up.n
      modifies this
      modifies links.at.Keys`right, links.at.Keys`left, links.at.Keys`parent, links.at.Keys`red
      ensures Synced() && links.at.Keys == old(links.at.Keys)
      ensures At(links, InRight(Fork(c.up.l, gparent, true, c.l), parent, false, c.up.up), t)
      ensures Whole(InRight(Fork(c.up.l, gparent, true, c.l), parent, false, c.up.up), t) == Whole(c, t)
    {
      ghost var up, p := c.up, Hang(c, t);
      HangWhole(c, t);
      HangWhole(up, p);
      Up(links, c, t);
      Paint(parent, false, up, p);
      ghost var p' := Painted(p, false);
      Up(links, up, p');
      Paint(gparent, true, up.up, Hang(up, p'));
      ghost var g := Painted(Hang(up, p'), true);
      RotateLeft(gparent, up.up, g);
      RotLInorder(g);
      ghost var c' := InRight(Fork(up.l, gparent, true, c.l), parent, false, up.up);
      assert RotL(g) == Hang(c', t);
      Up(links, c', t);
      HangWhole(c', t);
    }

    /** One turn of the loop when the parent is a right son. */
    method AscendRight(elm0: Node, parent: Node, gparent: Node, ghost c0: Ctx, ghost t0: Tree)
      returns (elm: Node, ghost c: Ctx, ghost t: Tree)
      requires Synced() && At(links, c0, t0) && Rising(c0, t0) && RedParent(c0) && c0.up.InRight?
      requires elm0 == t0.n && parent == c0.n && gparent == c0.up.n
      requires parent in links.at && gparent in links.at
      modifies this
      modifies links.at.Keys`right, links.at.Keys`left, links.at.Keys`parent, links.at.Keys`red
      ensures Synced() && links.at.Keys == old(links.at.Keys)
      ensures At(links, c, t) && Rising(c, t) && elm == t.n && Depth(c) < Depth(c0)
      ensures Whole(c, t) == Whole(c0, t0)
    {
      RecolourRises(c0, t0);
      Nearby(links, c0, t0);
      var uncle := gparent.left;
      if uncle != null && uncle.red {
        RecolouredWhole(c0, t0);
        Recolour(parent, gparent, uncle, c0, t0);
        elm, c, t := gparent, c0.up.up, Recoloured(c0, t0);
      } else if parent.left == elm0 {
        InnerRises(c0, t0);
        StraightenRight(elm0, parent, c0, t0);
        elm, c, t := parent, InRight(t0.l, elm0, true, c0.up), Fork(t0.r, parent, true, c0.r);
        TurnRises(c, t);
        TurnOverRight(elm0, gparent, c, t);
        c := InRight(Fork(c.up.l, gparent, true, c.l), elm0, false, c.up.up);
      } else {
        TurnRises(c0, t0);
        TurnOverRight(parent, gparent, c0, t0);
        elm, c, t := elm0, InRight(Fork(c0.up.l, gparent, true, c0.l), parent, false, c0.up.up), t0;
      }
    }

    /** RB_INSERT_COLOR: from a red node just grafted, back to a red-black tree. */
    method InsertColor(elm0: Node, ghost c0: Ctx, ghost t0: Tree) returns (ghost whole: Tree)
      requires Synced() && At(links, c0, t0) && Rising(c0, t0) && elm0 == t0.n
      modifies this
      modifies links.at.Keys`left, links.at.Keys`right, links.at.Keys`parent, links.at.Keys`red
      ensures Synced() && links.at.Keys == old(links.at.Keys)
      ensures At(links, Top, whole) && RedBlack(whole) && Inorder(whole) == Whole(c0, t0)
    {
      hide At, Whole;
      var elm := elm0;
      ghost var c, t := c0, t0;
      Nearby(links, c, t);
      while elm.parent != null && elm.parent.red
        invariant Synced() && links.at.Keys == old(links.at.Keys)
        invariant At(links, c, t) && Rising(c, t) && elm == t.n && Whole(c, t) == Whole(c0, t0)
        invariant elm in links.at && links.at[elm].parent == Parent(c)
        invariant !c.Top? ==> c.n in links.at && links.at[c.n].red == c.red
        decreases Depth(c)
      {
        Nearby(links, c, t);
        RecolourRises(c, t);
        var parent := elm.parent;
        var gparent := parent.parent;
        if parent == gparent.left {
          elm, c, t := AscendLeft(elm, parent, gparent, c, t);
        } else {
          elm, c, t := AscendRight(elm, parent, gparent, c, t);
        }
        Nearby(links, c, t);
      }
      whole := Plug(c, t);
      RisenIsRedBlack(c, t);
      AppendTop(c);
      Deeper(links, Top, c, t);
      Nearby(links, Top, whole);
      Paint(root, false, Top, whole);
      whole := Painted(whole, false);
    }

    // ---- Lookup ----------------------------------------------------------------

    /** The tree seen from a position inside. */
    lemma Inside(c: Ctx, t: Tree)
      requires Valid() && Plug(c, t) == shape
      ensures Whole(c, t) == Order() && At(links, c, t)
    {
      PlugInorder(c, t);
      AppendTop(c);
      Deeper(links, Top, c, t);
    }

    /** The node at a position inside. */
    lemma Visited(c: Ctx, t: Tree)
      requires Valid() && Plug(c, t) == shape && t.Fork?
      ensures t.n in Order() && t.n in links.at
      ensures t.n.left == Root(t.l) && t.n.right == Root(t.r)
      ensures Keyed(Order()) ==> t.n.key.Some?
    {
      Inside(c, t);
      assert t.n in Inorder(t) && t.n in Whole(c, t);
      Nearby(links, c, t);
    }

    /** The height of a tree of the heap is at most twice the logarithm of its number of nodes, plus one. */
    lemma HeightIsLow()
      requires Valid()
      ensures Pow2(Height(shape)) <= (|Order()| + 1) * (|Order()| + 1)
    {
      HeightBound(shape);
      SizeIs(shape);
    }

    /** RB_FIND; no more comparisons are made than the tree is high. */
    method Find(cmp: (Key, Key) -> int, k: Key) returns (tmp: Node?, ghost steps: nat)
      requires Valid() && TotalOrder(cmp) && Sorted(cmp, Order())
      ensures tmp != null ==> tmp in Order() && tmp.key == Some(k)
      ensures tmp == null ==> forall n :: n in Order() ==> n.key != Some(k)
      ensures steps <= Height(shape)
    {
      tmp, steps := root, 0;
      ghost var c, t := Top, shape;
      while tmp != null
        invariant Valid() && Sorted(cmp, Order())
        invariant Plug(c, t) == shape && OnPath(cmp, k, c) && tmp == Root(t)
        invariant steps + Height(t) <= Height(shape)
        decreases t
      {
        Visited(c, t);
        steps := steps + 1;
        var comp := cmp(k, tmp.key.value);
        if comp < 0 {
          tmp := tmp.left;
          c, t := InLeft(t.n, t.red, t.r, c), t.l;
        } else if comp > 0 {
          tmp := tmp.right;
          c, t := InRight(t.l, t.n, t.red, c), t.r;
        } else {
          return;
        }
      }
      Missing(cmp, k, c);
    }

    /** An empty place reached by the comparisons: the key is nowhere in the tree. */
    lemma Missing(cmp: (Key, Key) -> int, k: Key, c: Ctx)
      requires Valid() && TotalOrder(cmp) && Sorted(cmp, Order()) && Plug(c, Leaf) == shape && OnPath(cmp, k, c)
      ensures forall n :: n in Order() ==> n.key != Some(k)
      ensures Order() == Before(c) + After(c)
      ensures AllBelow(cmp, Before(c), k) && AllAbove(cmp, After(c), k)
    {
      hide At, OnPath;
      Inside(c, Leaf);
      PathBounds(cmp, k, c, Leaf);
      assert Order() == Before(c) + After(c);
    }

    // ---- Insertion, from the root ------------------------------------------------

    /** RB_SET: `elm` becomes a lone red node below `parent`. */
    method Set(elm: Node, parent: Node?)
      requires Synced() && elm !in links.at
      modifies `links, elm`left, elm`right, elm`parent, elm`red
      ensures Synced() && links == old(links).(at := old(links.at)[elm := Link(null, null, parent, true)])
    {
      elm.parent, elm.left, elm.right, elm.red := parent, null, null, true;
      links := links.(at := links.at[elm := Link(null, null, parent, true)]);
    }

    /** The link from the parent, or the root, to a new node. */
    method Attach(elm: Node, parent: Node?, onLeft: bool, ghost c: Ctx)
      requires Synced() && parent == Parent(c)
      requires !c.Top? ==> c.n in links.at && (onLeft <==> c.InLeft?)
      modifies `root, `links, links.at.Keys`left, links.at.Keys`right
      ensures Synced() && links == Attached(old(links), c, elm)
      ensures links.at.Keys == old(links.at.Keys)
    {
      if parent != null {
        if onLeft {
          PutLeft(parent, elm);
        } else {
          PutRight(parent, elm);
        }
      } else {
        root := elm;
        links := links.(root := elm);
      }
    }

    method Graft(elm: Node, parent: Node?, onLeft: bool, ghost c: Ctx)
      requires Synced() && At(links, c, Leaf) && elm !in links.at && parent == Parent(c)
      requires !c.Top? ==> c.n in links.at && (onLeft <==> c.InLeft?)
      modifies `root, `links, elm`left, elm`right, elm`parent, elm`red
      modifies links.at.Keys`left, links.at.Keys`right
      ensures Synced() && links.at.Keys == old(links.at.Keys) + {elm}
      ensures At(links, c, Fork(Leaf, elm, true, Leaf))
    {
      GraftAt(links, c, elm);
      Set(elm, parent);
      Attach(elm, parent, onLeft, c);
    }

    /** The descent of RB_INSERT: the node with key `k`, or the place for one. */
    method Place(cmp: (Key, Key) -> int, k: Key) returns (dup: Node?, parent: Node?, comp: int, ghost c: Ctx)
      requires Valid() && TotalOrder(cmp) && Sorted(cmp, Order())
      ensures Valid() && Sorted(cmp, Order())
      ensures dup != null ==> dup in Order() && dup.key == Some(k)
      ensures dup == null ==> Plug(c, Leaf) == shape && OnPath(cmp, k, c) && parent == Parent(c)
      ensures dup == null && !c.Top? ==> c.n in links.at && (comp < 0 <==> c.InLeft?)
    {
      parent, comp, dup := null, 0, null;
      var tmp := root;
      ghost var t := shape;
      c := Top;
      while tmp != null
        invariant Valid() && Sorted(cmp, Order())
        invariant Plug(c, t) == shape && OnPath(cmp, k, c) && tmp == Root(t) && parent == Parent(c)
        invariant !c.Top? ==> c.n in links.at && (comp < 0 <==> c.InLeft?)
        decreases t
      {
        Visited(c, t);
        parent := tmp;
        comp := cmp(k, parent.key.value);
        if comp < 0 {
          tmp := tmp.left;
          c, t := InLeft(t.n, t.red, t.r, c), t.l;
        } else if comp > 0 {
          tmp := tmp.right;
          c, t := InRight(t.l, t.n, t.red, c), t.r;
        } else {
          dup := tmp;
          return;
        }
      }
    }

    /** The rest of RB_INSERT: graft, then rebalance. */
    method Settle(elm: Node, parent: Node?, onLeft: bool, ghost c: Ctx)
      requires Valid() && Plug(c, Leaf) == shape && elm !in links.at && parent == Parent(c)
      requires !c.Top? ==> c.n in links.at && (onLeft <==> c.InLeft?)
      modifies this, elm`left, elm`right, elm`parent, elm`red
      modifies links.at.Keys`left, links.at.Keys`right, links.at.Keys`parent, links.at.Keys`red
      ensures Valid() && Order() == Before(c) + [elm] + After(c)
      ensures links.at.Keys == old(links.at.Keys) + {elm}
    {
      hide At, Whole, Nodes, Inorder, Before, After, Plug;
      Inside(c, Leaf);
      UnplugSound(c, Leaf);
      Graft(elm, parent, onLeft, c);
      ghost var before := shape;
      shape := InsertColor(elm, c, Fork(Leaf, elm, true, Leaf));
      Grown(before, shape, c, elm);
    }

    /** RB_INSERT: returns the node already there under the same key, or inserts `elm`. */
    method Insert(cmp: (Key, Key) -> int, elm: Node) returns (dup: Node?, ghost a: seq<Node>, ghost b: seq<Node>)
      requires Valid() && TotalOrder(cmp) && Sorted(cmp, Order())
      requires elm !in links.at && elm.key.Some?
      modifies this, elm`left, elm`right, elm`parent, elm`red
      modifies links.at.Keys`left, links.at.Keys`right, links.at.Keys`parent, links.at.Keys`red
      ensures Valid() && Sorted(cmp, Order())
      ensures dup != null ==> dup in Order() && dup.key == elm.key && Order() == old(Order())
      ensures dup == null ==> old(Order()) == a + b && Order() == a + [elm] + b
      ensures dup == null ==> links.at.Keys == old(links.at.Keys) + {elm}
    {
      hide At, TotalOrder, AllBelow, AllAbove, OnPath, Whole, Nodes, Inorder, Before, After, Plug, Keyed, Sorted;
      var parent: Node?, comp: int;
      ghost var c: Ctx;
      dup, parent, comp, c := Place(cmp, elm.key.value);
      a, b := Before(c), After(c);
      if dup == null {
        Missing(cmp, elm.key.value, c);
        SortedWith(cmp, a, elm, b);
        assert allocated(a) && allocated(b) && allocated(a + [elm] + b);
        Settle(elm, parent, comp < 0, c);
      }
    }

    // ---- Removal ---------------------------------------------------------------

    /** Make the sibling black, rotating a red one above the parent. */
    method BlackSiblingLeft(parent: Node, ghost c0: Ctx, ghost t: Tree) returns (tmp: Node, ghost c: Ctx)
      requires Synced() && At(links, c0, t) && Lacking(c0, t) && !IsRed(t) && c0.InLeft? && parent == c0.n
      modifies this
      modifies links.at.Keys`left, links.at.Keys`right, links.at.Keys`parent, links.at.Keys`red
      ensures Synced() && links.at.Keys == old(links.at.Keys)
      ensures At(links, c, t) && Lacking(c, t) && Whole(c, t) == Whole(c0, t)
      ensures c.InLeft? && c.n == parent && c.r.Fork? && !c.r.red && tmp == c.r.n
      ensures c == c0 || c.red
    {
      Around(links, c0, t);
      SiblingExists(c0, t);
      c := c0;
      tmp := parent.right;
      if tmp.red {
        RedSiblingLacks(c0, t);
        c := InLeft(parent, true, c0.r.l, InLeft(tmp, false, c0.r.r, c0.up));
        TurnSiblingLeft(parent, tmp, c0, t);
        Around(links, c, t);
        tmp := parent.right;
      }
    }

    method TurnSiblingLeft(parent: Node, tmp: Node, ghost c: Ctx, ghost t: Tree)
      requires Synced() && At(links, c, t) && c.InLeft? && parent == c.n && c.r.Fork? && tmp == c.r.n
      modifies this
      modifies links.at.Keys`left, links.at.Keys`right, links.at.Keys`parent, links.at.Keys`red
      ensures Synced() && links.at.Keys == old(links.at.Keys)
      ensures At(links, InLeft(parent, true, c.r.l, InLeft(tmp, false, c.r.r, c.up)), t)
      ensures Whole(InLeft(parent, true, c.r.l, InLeft(tmp, false, c.r.r, c.up)), t) == Whole(c, t)
    {
      ghost var w := Painted(c.r, false);
      ghost var c1 := InLeft(parent, c.red, w, c.up);
      Cross(links, c, t);
      Paint(tmp, false, Across(c, t), c.r);
      Cross(links, c1, t);
      Up(links, c1, t);
      Paint(parent, true, c.up, Hang(c1, t));
      ghost var p := Fork(t, parent, true, w);
      RotateLeft(parent, c.up, p);
      ghost var up := InLeft(tmp, false, c.r.r, c.up);
      Up(links, up, Fork(t, parent, true, c.r.l));
      Up(links, InLeft(parent, true, c.r.l, up), t);
      RotLInorder(p);
      HangWhole(up, Fork(t, parent, true, c.r.l));
      HangWhole(InLeft(parent, true, c.r.l, up), t);
      HangWhole(c, t);
    }

    /** Bring a red inner son of the sibling above it, to get a red outer son. */
    method StraightenSiblingLeft(parent: Node, tmp0: Node, ghost c0: Ctx, ghost t: Tree) returns (tmp: Node, ghost c: Ctx)
      requires Synced() && At(links, c0, t) && c0.InLeft? && parent == c0.n
      requires c0.r.Fork? && tmp0 == c0.r.n && c0.r.l.Fork?
      modifies this
      modifies links.at.Keys`left, links.at.Keys`right, links.at.Keys`parent, links.at.Keys`red
      ensures Synced() && links.at.Keys == old(links.at.Keys)
      ensures c == InLeft(parent, c0.red, Straightened(c0), c0.up) && At(links, c, t)
      ensures Whole(c, t) == Whole(c0, t) && tmp == c.r.n
    {
      hide At, Whole, Inorder;
      StraightenedWhole(c0, t);
      ghost var a, w := Across(c0, t), c0.r;
      ghost var il := InLeft(tmp0, w.red, w.r, a);
      Around(links, c0, t);
      Cross(links, c0, t);
      Up(links, il, w.l);
      var oleft := tmp0.left;
      if oleft != null {
        Paint(oleft, false, il, w.l);
      }
      ghost var wl := Painted(w.l, false);
      Up(links, il, wl);
      Paint(tmp0, true, a, Fork(wl, tmp0, w.red, w.r));
      ghost var w' := Fork(wl, tmp0, true, w.r);
      RotateRight(tmp0, a, w');
      c := InLeft(parent, c0.red, RotR(w'), c0.up);
      Cross(links, c, t);
      Around(links, c, t);
      tmp := parent.right;
    }

    /** The last rotation of RB_REMOVE_COLOR. */
    method FinishLeft(parent: Node, tmp: Node, ghost c: Ctx, ghost t: Tree)
      requires Synced() && At(links, c, t) && c.InLeft? && parent == c.n && c.r.Fork? && tmp == c.r.n
      modifies this
      modifies links.at.Keys`left, links.at.Keys`right, links.at.Keys`parent, links.at.Keys`red
      ensures Synced() && links.at.Keys == old(links.at.Keys)
      ensures At(links, c.up, Refilled(c, t)) && Whole(c.up, Refilled(c, t)) == Whole(c, t)
    {
      hide At, Whole, Inorder;
      RefilledWhole(c, t);
      ghost var w, up := c.r, c.up;
      Around(links, c, t);
      Cross(links, c, t);
      Paint(tmp, parent.red, Across(c, t), w);
      ghost var c1 := InLeft(parent, c.red, Painted(w, c.red), up);
      Cross(links, c1, t);
      Up(links, c1, t);
      Paint(parent, false, up, Hang(c1, t));
      ghost var c2 := InLeft(parent, false, Painted(w, c.red), up);
      Up(links, c2, t);
      PaintOuterLeft(tmp, c2, t);
      ghost var p := Fork(t, parent, false, Fork(w.l, tmp, c.red, Painted(w.r, false)));
      RotateLeft(parent, up, p);
    }

    method PaintOuterLeft(tmp: Node, ghost c: Ctx, ghost t: Tree)
      requires Synced() && At(links, c, t) && c.InLeft? && c.r.Fork? && tmp == c.r.n
      modifies `links, links.at.Keys`red
      ensures Synced() && links.at.Keys == old(links.at.Keys)
      ensures At(links, c.up, Fork(t, c.n, c.red, Fork(c.r.l, tmp, c.r.red, Painted(c.r.r, false))))
    {
      ghost var w, a := c.r, Across(c, t);
      ghost var ir := InRight(w.l, tmp, w.red, a);
      Around(links, c, t);
      Cross(links, c, t);
      Up(links, ir, w.r);
      if tmp.right != null {
        Paint(tmp.right, false, ir, w.r);
      }
      Up(links, ir, Painted(w.r, false));
      Up(links, a, Fork(w.l, tmp, w.red, Painted(w.r, false)));
    }

    /** A black sibling with black sons turns red. */
    method ReddenSibling(tmp: Node, ghost c: Ctx, ghost t: Tree)
      requires Synced() && At(links, c, t) && !c.Top? && Sibling(c).Fork? && tmp == Sibling(c).n
      modifies `links, links.at.Keys`red
      ensures Synced() && links.at.Keys == old(links.at.Keys)
      ensures At(links, c.up, SiblingReddened(c, t)) && Whole(c.up, SiblingReddened(c, t)) == Whole(c, t)
    {
      hide At, Whole;
      SiblingReddenedWhole(c, t);
      Cross(links, c, t);
      Paint(tmp, true, Across(c, t), Sibling(c));
      ghost var c1 := Across(Across(c, t), Painted(Sibling(c), true));
      Cross(links, c1, t);
      Up(links, c1, t);
    }

    /** The sibling has a red son: one or two rotations end the removal loop. */
    method TurnRefillLeft(parent: Node, tmp0: Node, ghost c0: Ctx, ghost t: Tree)
      returns (elm: Node?, up: Node?, ghost c: Ctx, ghost whole: Tree)
      requires Synced() && At(links, c0, t) && Lacking(c0, t) && !IsRed(t) && c0.InLeft? && parent == c0.n
      requires c0.r.Fork? && !c0.r.red && tmp0 == c0.r.n && (IsRed(c0.r.l) || IsRed(c0.r.r))
      modifies this
      modifies links.at.Keys`left, links.at.Keys`right, links.at.Keys`parent, links.at.Keys`red
      ensures Synced() && links.at.Keys == old(links.at.Keys)
      ensures At(links, c, whole) && Whole(c, whole) == Whole(c0, t) && elm == Root(whole) && up == Parent(c)
      ensures Settled(c, whole)
    {
      hide At, Whole, Inorder, Before, After, Lacking, Refilled, Straightened;
      Around(links, c0, t);
      var tmp := tmp0;
      c := c0;
      if tmp.right == null || !tmp.right.red {
        StraightenedLacks(c, t);
        tmp, c := StraightenSiblingLeft(parent, tmp, c, t);
      }
      RefilledFits(c, t);
      FinishLeft(parent, tmp, c, t);
      elm, up, c, whole := WholeTree(c.up, Refilled(c, t));
    }

    /** One turn of the removal loop when the short subtree is a left one. */
    method RefillLeft(parent0: Node, ghost c0: Ctx, ghost t0: Tree)
      returns (done: bool, parent: Node?, elm: Node?, ghost c: Ctx, ghost t: Tree)
      requires Synced() && At(links, c0, t0) && Lacking(c0, t0) && !IsRed(t0) && c0.InLeft? && parent0 == c0.n
      modifies this
      modifies links.at.Keys`left, links.at.Keys`right, links.at.Keys`parent, links.at.Keys`red
      ensures Synced() && links.at.Keys == old(links.at.Keys)
      ensures At(links, c, t) && Whole(c, t) == Whole(c0, t0) && elm == Root(t) && parent == Parent(c)
      ensures if done then Settled(c, t) else Lacking(c, t) && (IsRed(t) || Depth(c) < Depth(c0))
    {
      hide At, Whole, Inorder, Before, After, Lacking, Settled;
      var tmp;
      tmp, c := BlackSiblingLeft(parent0, c0, t0);
      Around(links, c, t0);
      t := t0;
      if (tmp.left == null || !tmp.left.red) && (tmp.right == null || !tmp.right.red) {
        BlackSonsLack(c, t);
        ReddenSibling(tmp, c, t);
        Nearby(links, c.up, SiblingReddened(c, t));
        elm := parent0;
        parent := elm.parent;
        done, c, t := false, c.up, SiblingReddened(c, t);
      } else {
        elm, parent, c, t := TurnRefillLeft(parent0, tmp, c, t);
        done := true;
      }
    }

    /** Make the sibling black, rotating a red one above the parent. */
    method BlackSiblingRight(parent: Node, ghost c0: Ctx, ghost t: Tree) returns (tmp: Node, ghost c: Ctx)
      requires Synced() && At(links, c0, t) && Lacking(c0, t) && !IsRed(t) && c0.InRight? && parent == c0.n
      modifies this
      modifies links.at.Keys`right, links.at.Keys`left, links.at.Keys`parent, links.at.Keys`red
      ensures Synced() && links.at.Keys == old(links.at.Keys)
      ensures At(links, c, t) && Lacking(c, t) && Whole(c, t) == Whole(c0, t)
      ensures c.InRight? && c.n == parent && c.l.Fork? && !c.l.red && tmp == c.l.n
      ensures c == c0 || c.red
    {
      Around(links, c0, t);
      SiblingExists(c0, t);
      c := c0;
      tmp := parent.left;
      if tmp.red {
        RedSiblingLacks(c0, t);
        c := InRight(c0.l.r, parent, true, InRight(c0.l.l, tmp, false, c0.up));
        TurnSiblingRight(parent, tmp, c0, t);
        Around(links, c, t);
        tmp := parent.left;
      }
    }

    method TurnSiblingRight(parent: Node, tmp: Node, ghost c: Ctx, ghost t: Tree)
      requires Synced() && At(links, c, t) && c.InRight? && parent == c.n && c.l.Fork? && tmp == c.l.n
      modifies this
      modifies links.at.Keys`right, links.at.Keys`left, links.at.Keys`parent, links.at.Keys`red
      ensures Synced() && links.at.Keys == old(links.at.Keys)
      ensures At(links, InRight(c.l.r, parent, true, InRight(c.l.l, tmp, false, c.up)), t)
      ensures Whole(InRight(c.l.r, parent, true, InRight(c.l.l, tmp, false, c.up)), t) == Whole(c, t)
    {
      ghost var w := Painted(c.l, false);
      ghost var c1 := InRight(w, parent, c.red, c.up);
      Cross(links, c, t);
      Paint(tmp, false, Across(c, t), c.l);
      Cross(links, c1, t);
      Up(links, c1, t);
      Paint(parent, true, c.up, Hang(c1, t));
      ghost var p := Fork(w, parent, true, t);
      RotateRight(parent, c.up, p);
      ghost var up := InRight(c.l.l, tmp, false, c.up);
      Up(links, up, Fork(c.l.r, parent, true, t));
      Up(links, InRight(c.l.r, parent, true, up), t);
      RotRInorder(p);
      HangWhole(up, Fork(c.l.r, parent, true, t));
      HangWhole(InRight(c.l.r, parent, true, up), t);
      HangWhole(c, t);
    }

    /** Bring a red inner son of the sibling above it, to get a red outer son. */
    method StraightenSiblingRight(parent: Node, tmp0: Node, ghost c0: Ctx, ghost t: Tree) returns (tmp: Node, ghost c: Ctx)
      requires Synced() && At(links, c0, t) && c0.InRight? && parent == c0.n
      requires c0.l.Fork? && tmp0 == c0.l.n && c0.l.r.Fork?
      modifies this
      modifies links.at.Keys`right, links.at.Keys`left, links.at.Keys`parent, links.at.Keys`red
      ensures Synced() && links.at.Keys == old(links.at.Keys)
      ensures c == InRight(Straightened(c0), parent, c0.red, c0.up) && At(links, c, t)
      ensures Whole(c, t) == Whole(c0, t) && tmp == c.l.n
    {
      hide At, Whole, Inorder;
      StraightenedWhole(c0, t);
      ghost var a, w := Across(c0, t), c0.l;
      ghost var il := InRight(w.l, tmp0, w.red, a);
      Around(links, c0, t);
      Cross(links, c0, t);
      Up(links, il, w.r);
      var oright := tmp0.right;
      if oright != null {
        Paint(oright, false, il, w.r);
      }
      ghost var wl := Painted(w.r, false);
      Up(links, il, wl);
      Paint(tmp0, true, a, Fork(w.l, tmp0, w.red, wl));
      ghost var w' := Fork(w.l, tmp0, true, wl);
      RotateLeft(tmp0, a, w');
      c := InRight(RotL(w'), parent, c0.red, c0.up);
      Cross(links, c, t);
      Around(links, c, t);
      tmp := parent.left;
    }

    /** The last rotation of RB_REMOVE_COLOR. */
    method FinishRight(parent: Node, tmp: Node, ghost c: Ctx, ghost t: Tree)
      requires Synced() && At(links, c, t) && c.InRight? && parent == c.n && c.l.Fork? && tmp == c.l.n
      modifies this
      modifies links.at.Keys`right, links.at.Keys`left, links.at.Keys`parent, links.at.Keys`red
      ensures Synced() && links.at.Keys == old(links.at.Keys)
      ensures At(links, c.up, Refilled(c, t)) && Whole(c.up, Refilled(c, t)) == Whole(c, t)
    {
      hide At, Whole, Inorder;
      RefilledWhole(c, t);
      ghost var w, up := c.l, c.up;
      Around(links, c, t);
      Cross(links, c, t);
      Paint(tmp, parent.red, Across(c, t), w);
      ghost var c1 := InRight(Painted(w, c.red), parent, c.red, up);
      Cross(links, c1, t);
      Up(links, c1, t);
      Paint(parent, false, up, Hang(c1, t));
      ghost var c2 := InRight(Painted(w, c.red), parent, false, up);
      Up(links, c2, t);
      PaintOuterRight(tmp, c2, t);
      ghost var p := Fork(Fork(Painted(w.l, false), tmp, c.red, w.r), parent, false, t);
      RotateRight(parent, up, p);
    }

    method PaintOuterRight(tmp: Node, ghost c: Ctx, ghost t: Tree)
      requires Synced() && At(links, c, t) && c.InRight? && c.l.Fork? && tmp == c.l.n
      modifies `links, links.at.Keys`red
      ensures Synced() && links.at.Keys == old(links.at.Keys)
      ensures At(links, c.up, Fork(Fork(Painted(c.l.l, false), tmp, c.l.red, c.l.r), c.n, c.red, t))
    {
      ghost var w, a := c.l, Across(c, t);
      ghost var ir := InLeft(tmp, w.red, w.r, a);
      Around(links, c, t);
      Cross(links, c, t);
      Up(links, ir, w.l);
      if tmp.left != null {
        Paint(tmp.left, false, ir, w.l);
      }
      Up(links, ir, Painted(w.l, false));
      Up(links, a, Fork(Painted(w.l, false), tmp, w.red, w.r));
    }

    /** The sibling has a red son: one or two rotations end the removal loop. */
    method TurnRefillRight(parent: Node, tmp0: Node, ghost c0: Ctx, ghost t: Tree)
      returns (elm: Node?, up: Node?, ghost c: Ctx, ghost whole: Tree)
      requires Synced() && At(links, c0, t) && Lacking(c0, t) && !IsRed(t) && c0.InRight? && parent == c0.n
      requires c0.l.Fork? && !c0.l.red && tmp0 == c0.l.n && (IsRed(c0.l.r) || IsRed(c0.l.l))
      modifies this
      modifies links.at.Keys`right, links.at.Keys`left, links.at.Keys`parent, links.at.Keys`red
      ensures Synced() && links.at.Keys == old(links.at.Keys)
      ensures At(links, c, whole) && Whole(c, whole) == Whole(c0, t) && elm == Root(whole) && up == Parent(c)
      ensures Settled(c, whole)
    {
      hide At, Whole, Inorder, Before, After, Lacking, Refilled, Straightened;
      Around(links, c0, t);
      var tmp := tmp0;
      c := c0;
      if tmp.left == null || !tmp.left.red {
        StraightenedLacks(c, t);
        tmp, c := StraightenSiblingRight(parent, tmp, c, t);
      }
      RefilledFits(c, t);
      FinishRight(parent, tmp, c, t);
      elm, up, c, whole := WholeTree(c.up, Refilled(c, t));
    }

    /** One turn of the removal loop when the short subtree is a right one. */
    method RefillRight(parent0: Node, ghost c0: Ctx, ghost t0: Tree)
      returns (done: bool, parent: Node?, elm: Node?, ghost c: Ctx, ghost t: Tree)
      requires Synced() && At(links, c0, t0) && Lacking(c0, t0) && !IsRed(t0) && c0.InRight? && parent0 == c0.n
      modifies this
      modifies links.at.Keys`right, links.at.Keys`left, links.at.Keys`parent, links.at.Keys`red
      ensures Synced() && links.at.Keys == old(links.at.Keys)
      ensures At(links, c, t) && Whole(c, t) == Whole(c0, t0) && elm == Root(t) && parent == Parent(c)
      ensures if done then Settled(c, t) else Lacking(c, t) && (IsRed(t) || Depth(c) < Depth(c0))
    {
      hide At, Whole, Inorder, Before, After, Lacking, Settled;
      var tmp;
      tmp, c := BlackSiblingRight(parent0, c0, t0);
      Around(links, c, t0);
      t := t0;
      if (tmp.right == null || !tmp.right.red) && (tmp.left == null || !tmp.left.red) {
        BlackSonsLack(c, t);
        ReddenSibling(tmp, c, t);
        Nearby(links, c.up, SiblingReddened(c, t));
        elm := parent0;
        parent := elm.parent;
        done, c, t := false, c.up, SiblingReddened(c, t);
      } else {
        elm, parent, c, t := TurnRefillRight(parent0, tmp, c, t);
        done := true;
      }
    }

    /** elm = RB_ROOT(head): the position is now that of the whole tree. */
    method WholeTree(ghost c0: Ctx, ghost t0: Tree) returns (elm: Node?, parent: Node?, ghost c: Ctx, ghost t: Tree)
      requires Synced() && At(links, c0, t0) && Sound(t0) && Fits(c0, BlackHeight(t0))
      requires !(IsRed(t0) && (RedParent(c0) || c0.Top?))
      ensures elm == root && parent == null && c == Top && t == Plug(c0, t0)
      ensures At(links, c, t) && Whole(c, t) == Whole(c0, t0) && elm == Root(t) && Settled(c, t)
    {
      elm, parent, c, t := root, null, Top, Plug(c0, t0);
      PlugSound(c0, t0);
      PlugInorder(c0, t0);
      AppendTop(c0);
      Deeper(links, Top, c0, t0);
    }

    /** RB_REMOVE_COLOR: from a subtree one black node short, back to a red-black tree. */
    method RemoveColor(parent0: Node?, elm0: Node?, ghost c0: Ctx, ghost t0: Tree) returns (ghost whole: Tree)
      requires Synced() && At(links, c0, t0) && Lacking(c0, t0) && elm0 == Root(t0) && parent0 == Parent(c0)
      modifies this
      modifies links.at.Keys`left, links.at.Keys`right, links.at.Keys`parent, links.at.Keys`red
      ensures Synced() && links.at.Keys == old(links.at.Keys)
      ensures At(links, Top, whole) && RedBlack(whole) && Inorder(whole) == Whole(c0, t0)
    {
      hide At, Whole, Inorder, Before, After, Lacking;
      var parent, elm, done := parent0, elm0, false;
      ghost var c, t := c0, t0;
      Ends(c, t);
      while !done && (elm == null || !elm.red) && elm != root
        invariant Synced() && links.at.Keys == old(links.at.Keys)
        invariant At(links, c, t) && Whole(c, t) == Whole(c0, t0) && elm == Root(t) && parent == Parent(c)
        invariant if done then Settled(c, t) else Lacking(c, t)
        invariant (c.Top? <==> elm == root) && (elm != null ==> elm in links.at && elm.red == t.red)
        decreases if done || IsRed(t) then 0 else 1 + Depth(c)
      {
        Around(links, c, t);
        SiblingExists(c, t);
        if parent.left == elm {
          OnLeft(c, t);
          done, parent, elm, c, t := RefillLeft(parent, c, t);
        } else {
          done, parent, elm, c, t := RefillRight(parent, c, t);
        }
        Ends(c, t);
      }
      SettledIsRedBlack(c, t);
      if elm != null {
        Paint(elm, false, c, t);
      }
      whole := Plug(c, Painted(t, false));
      AppendTop(c);
      Deeper(links, Top, c, Painted(t, false));
    }

    lemma Ends(c: Ctx, t: Tree)
      requires Synced() && At(links, c, t)
      ensures c.Top? <==> Root(t) == root
      ensures t.Fork? ==> t.n in links.at && t.n.red == t.red
    {
      if !c.Top? {
        RootAbove(links, c, Root(t));
        assert Root(t) != null ==> Root(t) in Nodes(t);
      }
    }

    lemma OnLeft(c: Ctx, t: Tree)
      requires Synced() && At(links, c, t) && !c.Top? && Sibling(c).Fork?
      ensures c.n in links.at && (c.n.left == Root(t) <==> c.InLeft?)
    {
    }

    /** Bypass a node with one son at most. */
    method Splice(e: Node, child: Node?, ghost c: Ctx, ghost t: Tree)
      requires Synced() && At(links, c, t) && t.Fork? && e == t.n && (t.l.Leaf? || t.r.Leaf?)
      requires child == Root(Spliced(t))
      modifies this, links.at.Keys`left, links.at.Keys`right, links.at.Keys`parent
      ensures Synced() && links.at.Keys == old(links.at.Keys) && shape == old(shape)
      ensures At(links, c, Spliced(t)) && e in links.at && links.at[e] == old(links.at[e])
    {
      SpliceAt(links, c, t);
      Nearby(links, c, t);
      SpliceKeeps(links, c, t);
      var parent := e.parent;
      PutParent(child, parent);
      Replace(parent, e, child);
    }

    /** Give to `e`, out of the tree, the place of `gone`. */
    method Transplant(gone: Node, e: Node, ghost c: Ctx, ghost t: Tree)
      requires Synced() && At(links, c, t) && t.Fork? && gone == t.n
      requires e in links.at && e !in Nodes(t) && e !in CtxNodes(c)
      modifies this
      modifies links.at.Keys`left, links.at.Keys`right, links.at.Keys`parent, links.at.Keys`red
      ensures Synced() && links.at.Keys == old(links.at.Keys) && shape == old(shape)
      ensures At(links, c, Fork(t.l, e, t.red, t.r))
    {
      hide At, SetParent, Replaced, Nodes, CtxNodes;
      TransplantAt(links, c, t, e);
      var p, l, r := gone.parent, gone.left, gone.right;
      CopyEntry(gone, e);
      Replace(p, gone, e);
      PutParent(l, e);
      PutParent(r, e);
    }

    /** elm->field = old->field */
    method CopyEntry(gone: Node, e: Node)
      requires Synced() && gone in links.at && e in links.at
      modifies `links, e`left, e`right, e`parent, e`red
      ensures Synced() && links == old(links).(at := old(links.at)[e := old(links.at[gone])])
      ensures links.at.Keys == old(links.at.Keys)
    {
      e.left, e.right, e.parent, e.red := gone.left, gone.right, gone.parent, gone.red;
      links := links.(at := links.at[e := links.at[gone]]);
    }

    /** The end of RB_REMOVE: rebalance if a black node went away, and forget `gone`. */
    method Repair(gone: Node, parent: Node?, child: Node?, wasRed: bool, ghost c: Ctx, ghost t: Tree)
      requires Synced() && At(links, c, t) && child == Root(t) && parent == Parent(c)
      requires if wasRed then RedBlack(Plug(c, t)) else Lacking(c, t)
      requires gone !in CtxNodes(c) + Nodes(t)
      modifies this
      modifies links.at.Keys`left, links.at.Keys`right, links.at.Keys`parent, links.at.Keys`red
      ensures Synced() && At(links, Top, shape) && RedBlack(shape)
      ensures Order() == Whole(c, t) && links.at.Keys == old(links.at.Keys) - {gone}
    {
      hide At, Whole, Lacking, Inorder, Before, After;
      if wasRed {
        shape := Plug(c, t);
        PlugInorder(c, t);
        AppendTop(c);
        Deeper(links, Top, c, t);
      } else {
        shape := RemoveColor(parent, child, c, t);
      }
      SameNodes(c, t, shape);
      ForgetAt(links, Top, shape, gone);
      links := links.(at := links.at - {gone});
    }

    /** RB_REMOVE of a node with one son at most. */
    method RemoveOuter(elm: Node, child: Node?, ghost c: Ctx, ghost t: Tree)
      requires Valid() && Plug(c, t) == shape && t.Fork? && elm == t.n && (t.l.Leaf? || t.r.Leaf?)
      requires child == Root(Spliced(t))
      modifies this
      modifies links.at.Keys`left, links.at.Keys`right, links.at.Keys`parent, links.at.Keys`red
      ensures Valid() && links.at.Keys == old(links.at.Keys) - {elm}
      ensures Order() == Whole(c, Spliced(t))
    {
      hide At, Whole, Inorder, Before, After, Lacking, Nodes, CtxNodes, Spliced;
      Inside(c, t);
      PlugNodes(c, t);
      SplicedNodes(c, t);
      UnplugSound(c, t);
      SplicedLacks(c, t);
      Nearby(links, c, t);
      var parent, color := elm.parent, elm.red;
      Splice(elm, child, c, t);
      Repair(elm, parent, child, color, c, Spliced(t));
      SameNodes(c, Spliced(t), shape);
    }

    /** The successor of a node: the leftmost node of its right subtree. */
    method Successor(right: Node, ghost d: Ctx, ghost r: Tree) returns (e: Node, ghost inner: Ctx, ghost m: Tree)
      requires Valid() && Plug(d, r) == shape && r.Fork? && right == r.n
      ensures AllLeft(inner) && Plug(inner, m) == r && m.Fork? && m.l.Leaf? && e == m.n
    {
      e, inner, m := right, Top, r;
      PlugAppend(inner, d, m);
      Visited(Append(inner, d), m);
      while e.left != null
        invariant Valid() && AllLeft(inner) && Plug(inner, m) == r && m.Fork? && e == m.n
        invariant Plug(Append(inner, d), m) == shape && e in links.at && e.left == Root(m.l)
        decreases m
      {
        inner, m := InLeft(m.n, m.red, m.r, inner), m.l;
        PlugAppend(inner, d, m);
        e := e.left;
        Visited(Append(inner, d), m);
      }
    }

    /** RB_REMOVE of a node with two sons: its successor takes its place. */
    method RemoveInner(gone: Node, ghost c: Ctx, ghost t: Tree) returns (ghost inner: Ctx, ghost m: Tree)
      requires Valid() && Plug(c, t) == shape && t.Fork? && gone == t.n && t.l.Fork? && t.r.Fork?
      modifies this
      modifies links.at.Keys`left, links.at.Keys`right, links.at.Keys`parent, links.at.Keys`red
      ensures Valid() && links.at.Keys == old(links.at.Keys) - {gone}
      ensures AllLeft(inner) && Plug(inner, m) == t.r && m.Fork? && m.l.Leaf?
      ensures Order() == Whole(c, Fork(t.l, m.n, t.red, Plug(inner, m.r)))
    {
      hide At, Whole, Inorder, Before, After, Lacking, Nodes, CtxNodes;
      ghost var d := InRight(t.l, gone, t.red, c);
      Inside(c, t);
      Nearby(links, c, t);
      var elm;
      elm, inner, m := Successor(gone.right, d, t.r);
      ghost var d0 := Append(inner, d);
      PlugAppend(inner, d, m);
      Inside(d0, m);
      Nearby(links, d0, m);
      PlugNodes(d0, m);
      SuccessorNodes(inner, t.l, gone, t.red, c, m);
      SuccessorParent(inner, t.l, gone, t.red, c, m);
      SuccessorLacks(inner, t.l, gone, elm, t.red, c, m);
      var child, parent, color := elm.right, elm.parent, elm.red;
      MoveUp(elm, gone, child, c, t, inner, m);
      if parent == gone {
        parent := elm;
      }
      ghost var d1 := Append(inner, InRight(t.l, elm, t.red, c));
      Repair(gone, parent, child, color, d1, m.r);
      SameNodes(d1, m.r, shape);
      SuccessorWhole(inner, t.l, elm, t.red, c, m.r);
    }

    /** Take the successor `elm` out of its place and give it that of `gone`. */
    method MoveUp(elm: Node, gone: Node, child: Node?, ghost c: Ctx, ghost t: Tree, ghost inner: Ctx, ghost m: Tree)
      requires t.Fork? && gone == t.n
      requires Synced() && At(links, Append(inner, InRight(t.l, gone, t.red, c)), m)
      requires m.Fork? && m.l.Leaf? && elm == m.n && child == Root(m.r)
      modifies this
      modifies links.at.Keys`left, links.at.Keys`right, links.at.Keys`parent, links.at.Keys`red
      ensures Synced() && links.at.Keys == old(links.at.Keys) && shape == old(shape)
      ensures At(links, Append(inner, InRight(t.l, elm, t.red, c)), m.r)
    {
      hide At, Nodes, CtxNodes;
      ghost var d, u := InRight(t.l, gone, t.red, c), Plug(inner, m.r);
      Apart(links, Append(inner, d), m);
      SuccessorNodes(inner, t.l, gone, t.red, c, m);
      Splice(elm, child, Append(inner, d), m);
      Deeper(links, d, inner, m.r);
      Up(links, d, u);
      Transplant(gone, elm, c, Fork(t.l, gone, t.red, u));
      ghost var d' := InRight(t.l, elm, t.red, c);
      Up(links, d', u);
      Deeper(links, d', inner, m.r);
    }

    /** RB_REMOVE. No key is looked at: the node is taken out of the order wherever it is. */
    method Remove(elm: Node) returns (gone: Node, ghost a: seq<Node>, ghost b: seq<Node>)
      requires Valid() && elm in links.at
      modifies this
      modifies links.at.Keys`left, links.at.Keys`right, links.at.Keys`parent, links.at.Keys`red
      ensures Valid() && gone == elm && links.at.Keys == old(links.at.Keys) - {elm}
      ensures old(Order()) == a + [elm] + b && Order() == a + b
    {
      hide At, Whole, Inorder, Before, After, Nodes, CtxNodes, Spliced;
      gone := elm;
      ghost var (c, t) := Locate(Top, shape, elm);
      Inside(c, t);
      Nearby(links, c, t);
      if elm.left == null || elm.right == null {
        SplicedWhole(c, t);
        a, b := SplicedSides(c, t).0, SplicedSides(c, t).1;
        var child := if elm.left == null then elm.right else elm.left;
        assert child == Root(Spliced(t)) by { SplicedRoot(t); }
        RemoveOuter(elm, child, c, t);
      } else {
        ghost var inner, m := RemoveInner(elm, c, t);
        SuccessorOrder(c, t.l, elm, t.red, inner, m.n, m.red, m.r);
        a, b := Before(c) + Inorder(t.l), [m.n] + Inorder(m.r) + After(inner) + After(c);
      }
    }
  }
}
