/**
 Pointer structures as values: the links of every node, what it means for them
 to hold a given tree, and the effect of the assignments and rotations of
 core/tree.h on them.
 */
module RbLinks {
  import opened LruNodes
  import opened RbShape

  // ---- Links -----------------------------------------------------------------

  datatype Link = Link(left: Node?, right: Node?, parent: Node?, red: bool)

  /** A whole pointer structure as a value: its root and the links of its nodes. */
  datatype Links = Links(root: Node?, at: map<Node, Link>)

  /** The links hold exactly the tree `t` under the parent `p`: children, parents and colours. */
  ghost predicate Holds(m: map<Node, Link>, t: Tree, p: Node?)
    decreases t
  {
    match t
    case Leaf => true
    case Fork(l, n, red, r) =>
      n in m && m[n] == Link(Root(l), Root(r), p, red) && Holds(m, l, n) && Holds(m, r, n)
  }

  /** The links hold the context `c`, with `child` linked in its hole. */
  ghost predicate HoldsCtx(s: Links, c: Ctx, child: Node?)
    decreases c
  {
    match c
    case Top => s.root == child
    case InLeft(n, red, r, up) =>
      n in s.at && s.at[n] == Link(child, Root(r), Parent(up), red) && Holds(s.at, r, n) && HoldsCtx(s, up, n)
    case InRight(l, n, red, up) =>
      n in s.at && s.at[n] == Link(Root(l), child, Parent(up), red) && Holds(s.at, l, n) && HoldsCtx(s, up, n)
  }

  /** The links hold the whole tree Plug(c, t), seen from the position of `t`. */
  ghost predicate At(s: Links, c: Ctx, t: Tree) {
    Separate(c, t) && HoldsCtx(s, c, Root(t)) && Holds(s.at, t, Parent(c))
  }

  lemma Up(s: Links, c: Ctx, t: Tree)
    requires !c.Top?
    ensures At(s, c, t) <==> At(s, c.up, Hang(c, t))
  {
  }

  lemma Cross(s: Links, c: Ctx, t: Tree)
    requires !c.Top?
    ensures At(s, c, t) <==> At(s, Across(c, t), Sibling(c))
  {
    Up(s, c, t);
    Up(s, Across(c, t), Sibling(c));
  }

  /** The links of the nodes just above and of the sibling of the node above. */
  lemma Nearby(s: Links, c: Ctx, t: Tree)
    requires At(s, c, t) && t.Fork?
    ensures t.n in s.at && s.at[t.n] == Link(Root(t.l), Root(t.r), Parent(c), t.red)
    ensures c.Top? ==> s.root == t.n
    ensures !c.Top? ==>
      && c.n in s.at && s.at[c.n].parent == Parent(c.up) && s.at[c.n].red == c.red
      && (s.at[c.n].left == t.n <==> c.InLeft?) && (s.at[c.n].right == t.n <==> c.InRight?)
      && (!c.up.Top? ==>
            && c.up.n in s.at
            && (s.at[c.up.n].left == c.n <==> c.up.InLeft?)
            && (c.up.InLeft? ==> s.at[c.up.n].right == Root(c.up.r))
            && (c.up.InRight? ==> s.at[c.up.n].left == Root(c.up.l))
            && (Sibling(c.up).Fork? ==> Sibling(c.up).n in s.at && s.at[Sibling(c.up).n].red == Sibling(c.up).red))
  {
    if !c.Top? {
      assert HoldsCtx(s, c.up, c.n);
      assert CtxDistinct(c.up);
      assert Holds(s.at, Sibling(c), c.n);
    }
  }

  /** The links of the parent, of the sibling and of its sons. */
  lemma Around(s: Links, c: Ctx, t: Tree)
    requires At(s, c, t) && !c.Top?
    ensures c.n in s.at && s.at[c.n].parent == Parent(c.up) && s.at[c.n].red == c.red
    ensures c.InLeft? ==> s.at[c.n].left == Root(t) && s.at[c.n].right == Root(c.r)
    ensures c.InRight? ==> s.at[c.n].left == Root(c.l) && s.at[c.n].right == Root(t)
    ensures
      var w := Sibling(c);
      w.Fork? ==>
        && w.n in s.at && s.at[w.n] == Link(Root(w.l), Root(w.r), c.n, w.red)
        && (w.l.Fork? ==> w.l.n in s.at && s.at[w.l.n].red == w.l.red)
        && (w.r.Fork? ==> w.r.n in s.at && s.at[w.r.n].red == w.r.red)
  {
    var w := Sibling(c);
    assert Holds(s.at, w, c.n);
    if w.Fork? {
      assert Holds(s.at, w.l, w.n) && Holds(s.at, w.r, w.n);
    }
  }

  lemma Apart(s: Links, c: Ctx, t: Tree)
    requires At(s, c, t)
    ensures Separate(c, t)
  {
  }

  /** Seeing the structure from a deeper position changes nothing. */
  lemma {:induction false} Deeper(s: Links, c: Ctx, inner: Ctx, t: Tree)
    ensures At(s, c, Plug(inner, t)) <==> At(s, Append(inner, c), t)
    decreases inner
  {
    if !inner.Top? {
      var h := Hang(inner, t);
      assert Plug(inner, t) == Plug(inner.up, h);
      Deeper(s, c, inner.up, h);
      var d := Append(inner, c);
      assert d.up == Append(inner.up, c) && Hang(d, t) == h;
      Up(s, d, t);
    }
  }

  /** Below the root, the root is another node. */
  lemma {:induction false} RootAbove(s: Links, c: Ctx, child: Node?)
    requires HoldsCtx(s, c, child) && !c.Top?
    ensures s.root != null && s.root in CtxNodes(c)
    decreases c
  {
    if !c.up.Top? { RootAbove(s, c.up, c.n); }
  }

  ghost predicate Agree(m: map<Node, Link>, m': map<Node, Link>, ns: set<Node>) {
    forall n :: n in ns && n in m ==> n in m' && m'[n] == m[n]
  }

  lemma {:induction false} TreeAgrees(m: map<Node, Link>, m': map<Node, Link>, t: Tree, p: Node?)
    requires Holds(m, t, p) && Agree(m, m', Nodes(t))
    ensures Holds(m', t, p)
    decreases t
  {
    if t.Fork? {
      TreeAgrees(m, m', t.l, t.n);
      TreeAgrees(m, m', t.r, t.n);
    }
  }

  lemma {:induction false} CtxAgrees(s: Links, s': Links, c: Ctx, child: Node?)
    requires HoldsCtx(s, c, child) && s.root == s'.root && Agree(s.at, s'.at, CtxNodes(c))
    ensures HoldsCtx(s', c, child)
    decreases c
  {
    match c
    case Top =>
    case InLeft(n, _, r, up) =>
      TreeAgrees(s.at, s'.at, r, n);
      CtxAgrees(s, s', up, n);
    case InRight(l, n, _, up) =>
      TreeAgrees(s.at, s'.at, l, n);
      CtxAgrees(s, s', up, n);
  }

  // Assignments to the fields of a node, on values.

  ghost function SetLeft(s: Links, n: Node, x: Node?): Links
    requires n in s.at
  {
    s.(at := s.at[n := s.at[n].(left := x)])
  }

  ghost function SetRight(s: Links, n: Node, x: Node?): Links
    requires n in s.at
  {
    s.(at := s.at[n := s.at[n].(right := x)])
  }

  ghost function SetParent(s: Links, n: Node?, x: Node?): Links
    requires n != null ==> n in s.at
  {
    if n == null then s else s.(at := s.at[n := s.at[n].(parent := x)])
  }

  ghost function SetRed(s: Links, n: Node, red: bool): Links
    requires n in s.at
  {
    s.(at := s.at[n := s.at[n].(red := red)])
  }

  /** The links once `child`, below `parent` or at the root, is replaced by `x`. */
  ghost function Replaced(s: Links, parent: Node?, child: Node?, x: Node?): Links
    requires parent != null ==> parent in s.at
  {
    if parent == null then s.(root := x)
    else if s.at[parent].left == child then SetLeft(s, parent, x)
    else SetRight(s, parent, x)
  }

  /** The links once `x` hangs in the hole of the context. */
  ghost function Attached(s: Links, c: Ctx, x: Node?): Links
    requires c.Top? || c.n in s.at
  {
    match c
    case Top => s.(root := x)
    case InLeft(n, _, _, _) => SetLeft(s, n, x)
    case InRight(_, n, _, _) => SetRight(s, n, x)
  }

  lemma AttachHolds(s: Links, c: Ctx, child: Node?, x: Node?)
    requires CtxDistinct(c) && HoldsCtx(s, c, child)
    ensures HoldsCtx(Attached(s, c, x), c, x)
  {
    var s' := Attached(s, c, x);
    match c
    case Top =>
    case InLeft(n, _, r, up) =>
      TreeAgrees(s.at, s'.at, r, n);
      CtxAgrees(s, s', up, n);
    case InRight(l, n, _, up) =>
      TreeAgrees(s.at, s'.at, l, n);
      CtxAgrees(s, s', up, n);
  }

  lemma ReplaceHolds(s: Links, c: Ctx, child: Node?, x: Node?)
    requires CtxDistinct(c) && HoldsCtx(s, c, child)
    requires c.InRight? ==> Root(c.l) != child
    ensures HoldsCtx(Replaced(s, Parent(c), child, x), c, x)
  {
    AttachHolds(s, c, child, x);
    assert Replaced(s, Parent(c), child, x) == Attached(s, c, x);
  }

  /** A new red leaf in an empty hole. */
  lemma GraftAt(s: Links, c: Ctx, x: Node)
    requires At(s, c, Leaf) && x !in s.at
    requires c.Top? || c.n in s.at
    ensures
      var s' := s.(at := s.at[x := Link(null, null, Parent(c), true)]);
      At(Attached(s', c, x), c, Fork(Leaf, x, true, Leaf))
  {
    CtxKnown(s, c, null);
    var s' := s.(at := s.at[x := Link(null, null, Parent(c), true)]);
    CtxAgrees(s, s', c, null);
    AttachHolds(s', c, null, x);
  }

  lemma {:induction false} TreeKnown(m: map<Node, Link>, t: Tree, p: Node?)
    requires Holds(m, t, p)
    ensures Nodes(t) <= m.Keys
    decreases t
  {
    if t.Fork? {
      TreeKnown(m, t.l, t.n);
      TreeKnown(m, t.r, t.n);
    }
  }

  lemma {:induction false} CtxKnown(s: Links, c: Ctx, child: Node?)
    requires HoldsCtx(s, c, child)
    ensures CtxNodes(c) <= s.at.Keys
    decreases c
  {
    if !c.Top? {
      TreeKnown(s.at, Sibling(c), c.n);
      CtxKnown(s, c.up, c.n);
    }
  }

  lemma PaintAt(s: Links, c: Ctx, t: Tree, red: bool)
    requires At(s, c, t) && t.Fork?
    ensures At(SetRed(s, t.n, red), c, Painted(t, red))
  {
    var s' := SetRed(s, t.n, red);
    TreeAgrees(s.at, s'.at, t.l, t.n);
    TreeAgrees(s.at, s'.at, t.r, t.n);
    CtxAgrees(s, s', c, t.n);
  }

  // ---- Rotations -------------------------------------------------------------

  ghost predicate Known(s: Links, n: Node?) { n == null || n in s.at }

  /** `y` has taken the place of `x` below the parent of `x`. */
  ghost predicate Substituted(s: Links, s': Links, c: Ctx, x: Node?, y: Node?)
    requires HoldsCtx(s, c, x)
  {
    var r := Replaced(s, Parent(c), x, y);
    s'.root == r.root && Agree(r.at, s'.at, CtxNodes(c))
  }

  lemma SubstitutedHolds(s: Links, s': Links, c: Ctx, x: Node?, y: Node?)
    requires CtxDistinct(c) && HoldsCtx(s, c, x) && (c.InRight? ==> Root(c.l) != x)
    requires Substituted(s, s', c, x, y)
    ensures HoldsCtx(s', c, y)
  {
    ReplaceHolds(s, c, x, y);
    CtxAgrees(Replaced(s, Parent(c), x, y), s', c, y);
  }

  /** The tree `t` has got the parent `p`; nothing else changed in it. */
  ghost predicate Moved(m: map<Node, Link>, m': map<Node, Link>, t: Tree, p: Node?) {
    t.Fork? ==>
      && t.n in m && t.n in m' && m'[t.n] == m[t.n].(parent := p)
      && Agree(m, m', Nodes(t.l)) && Agree(m, m', Nodes(t.r))
  }

  lemma MovedHolds(m: map<Node, Link>, m': map<Node, Link>, t: Tree, p: Node?, p': Node?)
    requires Holds(m, t, p) && Moved(m, m', t, p')
    ensures Holds(m', t, p')
  {
    if t.Fork? {
      TreeAgrees(m, m', t.l, t.n);
      TreeAgrees(m, m', t.r, t.n);
    }
  }

  /** The nodes a left rotation at `x` touches are known. */
  ghost predicate CanRotateLeft(s: Links, x: Node) {
    && x in s.at && s.at[x].right != null && s.at[x].right in s.at
    && Known(s, s.at[s.at[x].right].left) && Known(s, s.at[x].parent)
  }

  /** A left rotation at `x`, on the links alone. */
  ghost function RotatedLeft(s: Links, x: Node): (s': Links)
    requires CanRotateLeft(s, x)
    ensures s'.at.Keys == s.at.Keys
  {
    var y := s.at[x].right;
    var b := s.at[y].left;
    var s1 := SetParent(SetRight(s, x, b), b, x);
    var p := s.at[x].parent;
    var s2 := Replaced(SetParent(s1, y, p), p, x, y);
    SetParent(SetLeft(s2, y, x), x, y)
  }

  /** The effect of a left rotation, node by node, when the nodes involved differ. */
  lemma RotatedLeftLinks(s: Links, x: Node)
    requires CanRotateLeft(s, x)
    requires var y := s.at[x].right; var b, p := s.at[y].left, s.at[x].parent;
      x != y && b != x && b != y && p != x && p != y && (b == null || b != p)
    ensures
      var y := s.at[x].right; var b, p := s.at[y].left, s.at[x].parent;
      var s' := RotatedLeft(s, x);
      && s'.at[x] == s.at[x].(right := b, parent := y)
      && s'.at[y] == s.at[y].(left := x, parent := p)
      && (b != null ==> s'.at[b] == s.at[b].(parent := x))
      && s'.root == Replaced(s, p, x, y).root
      && (p != null ==> s'.at[p] == Replaced(s, p, x, y).at[p])
      && forall n :: n in s.at && n != x && n != y && n != b && n != p ==> s'.at[n] == s.at[n]
  {
    if s.at[x].parent == null {
    } else if s.at[s.at[x].parent].left == x {
    } else {
    }
  }

  lemma RotLSeparate(c: Ctx, t: Tree)
    requires Separate(c, t) && t.Fork? && t.r.Fork?
    ensures Separate(c, RotL(t)) && Nodes(RotL(t)) == Nodes(t)
  {
    var a, b, d := t.l, t.r.l, t.r.r;
    assert Distinct(t.r) && t.r == Fork(b, t.r.n, t.r.red, d);
    assert Nodes(t.r) == {t.r.n} + Nodes(b) + Nodes(d);
    assert Distinct(Fork(a, t.n, t.red, b));
    assert Nodes(RotL(t).l) == {t.n} + Nodes(a) + Nodes(b);
  }

  /** The nodes a left rotation touches are known and pairwise distinct. */
  lemma RotLNodes(s: Links, c: Ctx, t: Tree)
    requires At(s, c, t) && t.Fork? && t.r.Fork?
    ensures t.n in s.at && t.r.n in s.at && s.at[t.r.n] == Link(Root(t.r.l), Root(t.r.r), t.n, t.r.red)
    ensures t.r.l.Fork? ==> t.r.l.n in s.at && t.r.l.n in Nodes(t.r.l)
    ensures t.r.l.Fork? ==> t.r.l.n !in Nodes(t.r.l.l) && t.r.l.n !in Nodes(t.r.l.r)
    ensures !c.Top? ==> c.n in s.at && c.n in CtxNodes(c)
    ensures t.n !in Nodes(t.l) && t.n !in Nodes(t.r.l) && t.n !in Nodes(t.r.r) && t.n !in CtxNodes(c)
    ensures t.r.n !in Nodes(t.l) && t.r.n !in Nodes(t.r.l) && t.r.n !in Nodes(t.r.r) && t.r.n !in CtxNodes(c)
    ensures t.n != t.r.n
    ensures Nodes(t.r.l) !! Nodes(t.l) && Nodes(t.r.l) !! Nodes(t.r.r) && Nodes(t.r.l) !! CtxNodes(c)
    ensures Nodes(t.l) !! CtxNodes(c) && Nodes(t.r.r) !! CtxNodes(c)
    ensures t.r.l.Fork? ==> Nodes(t.r.l.l) <= Nodes(t.r.l) && Nodes(t.r.l.r) <= Nodes(t.r.l)
  {
    assert Holds(s.at, t.r, t.n) && Distinct(t.r);
    assert Holds(s.at, t.r.l, t.r.n) && Distinct(t.r.l);
    assert Nodes(t.r) == {t.r.n} + Nodes(t.r.l) + Nodes(t.r.r);
  }

  /** A left rotation leaves the three subtrees and the context as they were,
      but for the links that had to change. */
  lemma RotLEffect(s: Links, c: Ctx, t: Tree)
    requires At(s, c, t) && t.Fork? && t.r.Fork?
    ensures CanRotateLeft(s, t.n)
    ensures var s' := RotatedLeft(s, t.n);
      && s'.at[t.n] == Link(Root(t.l), Root(t.r.l), t.r.n, t.red)
      && s'.at[t.r.n] == Link(t.n, Root(t.r.r), Parent(c), t.r.red)
      && Substituted(s, s', c, t.n, t.r.n)
      && Agree(s.at, s'.at, Nodes(t.l)) && Agree(s.at, s'.at, Nodes(t.r.r))
      && Moved(s.at, s'.at, t.r.l, t.n)
  {
    RotLNodes(s, c, t);
    RotatedLeftLinks(s, t.n);
  }

  lemma RotateLeftAt(s: Links, c: Ctx, t: Tree)
    requires At(s, c, t) && t.Fork? && t.r.Fork?
    ensures CanRotateLeft(s, t.n) && At(RotatedLeft(s, t.n), c, RotL(t))
  {
    RotLEffect(s, c, t);
    RotLSeparate(c, t);
    var s' := RotatedLeft(s, t.n);
    assert Holds(s.at, t.r, t.n);
    SubstitutedHolds(s, s', c, t.n, t.r.n);
    TreeAgrees(s.at, s'.at, t.l, t.n);
    TreeAgrees(s.at, s'.at, t.r.r, t.r.n);
    MovedHolds(s.at, s'.at, t.r.l, t.r.n, t.n);
  }

  /** The nodes a right rotation at `x` touches are known. */
  ghost predicate CanRotateRight(s: Links, x: Node) {
    && x in s.at && s.at[x].left != null && s.at[x].left in s.at
    && Known(s, s.at[s.at[x].left].right) && Known(s, s.at[x].parent)
  }

  /** A right rotation at `x`, on the links alone. */
  ghost function RotatedRight(s: Links, x: Node): (s': Links)
    requires CanRotateRight(s, x)
    ensures s'.at.Keys == s.at.Keys
  {
    var y := s.at[x].left;
    var b := s.at[y].right;
    var s1 := SetParent(SetLeft(s, x, b), b, x);
    var p := s.at[x].parent;
    var s2 := Replaced(SetParent(s1, y, p), p, x, y);
    SetParent(SetRight(s2, y, x), x, y)
  }

  /** The effect of a right rotation, node by node, when the nodes involved differ. */
  lemma RotatedRightLinks(s: Links, x: Node)
    requires CanRotateRight(s, x)
    requires var y := s.at[x].left; var b, p := s.at[y].right, s.at[x].parent;
      x != y && b != x && b != y && p != x && p != y && (b == null || b != p)
    ensures
      var y := s.at[x].left; var b, p := s.at[y].right, s.at[x].parent;
      var s' := RotatedRight(s, x);
      && s'.at[x] == s.at[x].(left := b, parent := y)
      && s'.at[y] == s.at[y].(right := x, parent := p)
      && (b != null ==> s'.at[b] == s.at[b].(parent := x))
      && s'.root == Replaced(s, p, x, y).root
      && (p != null ==> s'.at[p] == Replaced(s, p, x, y).at[p])
      && forall n :: n in s.at && n != x && n != y && n != b && n != p ==> s'.at[n] == s.at[n]
  {
    if s.at[x].parent == null {
    } else if s.at[s.at[x].parent].left == x {
    } else {
    }
  }

  lemma RotRSeparate(c: Ctx, t: Tree)
    requires Separate(c, t) && t.Fork? && t.l.Fork?
    ensures Separate(c, RotR(t)) && Nodes(RotR(t)) == Nodes(t)
  {
    var a, b, d := t.r, t.l.r, t.l.l;
    assert Distinct(t.l) && t.l == Fork(d, t.l.n, t.l.red, b);
    assert Nodes(t.l) == {t.l.n} + Nodes(b) + Nodes(d);
    assert Distinct(Fork(b, t.n, t.red, a));
    assert Nodes(RotR(t).r) == {t.n} + Nodes(a) + Nodes(b);
  }

  /** The nodes a right rotation touches are known and pairwise distinct. */
  lemma RotRNodes(s: Links, c: Ctx, t: Tree)
    requires At(s, c, t) && t.Fork? && t.l.Fork?
    ensures t.n in s.at && t.l.n in s.at && s.at[t.l.n] == Link(Root(t.l.l), Root(t.l.r), t.n, t.l.red)
    ensures t.l.r.Fork? ==> t.l.r.n in s.at && t.l.r.n in Nodes(t.l.r)
    ensures t.l.r.Fork? ==> t.l.r.n !in Nodes(t.l.r.r) && t.l.r.n !in Nodes(t.l.r.l)
    ensures !c.Top? ==> c.n in s.at && c.n in CtxNodes(c)
    ensures t.n !in Nodes(t.r) && t.n !in Nodes(t.l.r) && t.n !in Nodes(t.l.l) && t.n !in CtxNodes(c)
    ensures t.l.n !in Nodes(t.r) && t.l.n !in Nodes(t.l.r) && t.l.n !in Nodes(t.l.l) && t.l.n !in CtxNodes(c)
    ensures t.n != t.l.n
    ensures Nodes(t.l.r) !! Nodes(t.r) && Nodes(t.l.r) !! Nodes(t.l.l) && Nodes(t.l.r) !! CtxNodes(c)
    ensures Nodes(t.r) !! CtxNodes(c) && Nodes(t.l.l) !! CtxNodes(c)
    ensures t.l.r.Fork? ==> Nodes(t.l.r.r) <= Nodes(t.l.r) && Nodes(t.l.r.l) <= Nodes(t.l.r)
  {
    assert Holds(s.at, t.l, t.n) && Distinct(t.l);
    assert Holds(s.at, t.l.r, t.l.n) && Distinct(t.l.r);
    assert Nodes(t.l) == {t.l.n} + Nodes(t.l.r) + Nodes(t.l.l);
  }

  /** A right rotation leaves the three subtrees and the context as they were,
      but for the links that had to change. */
  lemma RotREffect(s: Links, c: Ctx, t: Tree)
    requires At(s, c, t) && t.Fork? && t.l.Fork?
    ensures CanRotateRight(s, t.n)
    ensures var s' := RotatedRight(s, t.n);
      && s'.at[t.n] == Link(Root(t.l.r), Root(t.r), t.l.n, t.red)
      && s'.at[t.l.n] == Link(Root(t.l.l), t.n, Parent(c), t.l.red)
      && Substituted(s, s', c, t.n, t.l.n)
      && Agree(s.at, s'.at, Nodes(t.r)) && Agree(s.at, s'.at, Nodes(t.l.l))
      && Moved(s.at, s'.at, t.l.r, t.n)
  {
    RotRNodes(s, c, t);
    RotatedRightLinks(s, t.n);
  }

  lemma RotateRightAt(s: Links, c: Ctx, t: Tree)
    requires At(s, c, t) && t.Fork? && t.l.Fork?
    ensures CanRotateRight(s, t.n) && At(RotatedRight(s, t.n), c, RotR(t))
  {
    RotREffect(s, c, t);
    RotRSeparate(c, t);
    var s' := RotatedRight(s, t.n);
    assert Holds(s.at, t.l, t.n);
    SubstitutedHolds(s, s', c, t.n, t.l.n);
    TreeAgrees(s.at, s'.at, t.r, t.n);
    TreeAgrees(s.at, s'.at, t.l.l, t.l.n);
    MovedHolds(s.at, s'.at, t.l.r, t.l.n, t.n);
  }

  // ---- Taking a node out -------------------------------------------------------

  /** The links once the root of `t`, with one son at most, is bypassed. */
  lemma SpliceAt(s: Links, c: Ctx, t: Tree)
    requires At(s, c, t) && t.Fork? && (t.l.Leaf? || t.r.Leaf?)
    ensures c.Top? || c.n in s.at
    ensures Spliced(t).Fork? ==> Spliced(t).n in s.at
    ensures At(Replaced(SetParent(s, Root(Spliced(t)), Parent(c)), Parent(c), t.n, Root(Spliced(t))), c, Spliced(t))
  {
    var u := Spliced(t);
    assert Holds(s.at, u, t.n) && Distinct(u) && Nodes(u) <= Nodes(t);
    assert u.Fork? ==> u.n in Nodes(u);
    var s1 := SetParent(s, Root(u), Parent(c));
    var s' := Replaced(s1, Parent(c), t.n, Root(u));
    CtxAgrees(s, s1, c, t.n);
    ReplaceHolds(s1, c, t.n, Root(u));
    assert Moved(s.at, s'.at, u, Parent(c));
    MovedHolds(s.at, s'.at, u, t.n, Parent(c));
  }

  lemma SpliceKeeps(s: Links, c: Ctx, t: Tree)
    requires At(s, c, t) && t.Fork? && (t.l.Leaf? || t.r.Leaf?)
    requires c.Top? || c.n in s.at
    requires Spliced(t).Fork? ==> Spliced(t).n in s.at
    ensures t.n in s.at
    ensures Replaced(SetParent(s, Root(Spliced(t)), Parent(c)), Parent(c), t.n, Root(Spliced(t))).at[t.n] == s.at[t.n]
  {
    var u := Spliced(t);
    assert u.Fork? ==> u.n in Nodes(u) && Nodes(u) <= Nodes(t);
    assert !c.Top? ==> c.n in CtxNodes(c);
  }

  /** `e` gets the links of `gone`, the neighbours of `gone` point to it instead. */
  ghost function Transplanted(s: Links, gone: Node, e: Node): Links
    requires gone in s.at && e in s.at
    requires Known(s, s.at[gone].parent) && Known(s, s.at[gone].left) && Known(s, s.at[gone].right)
  {
    var o := s.at[gone];
    var s1 := Replaced(s.(at := s.at[e := o]), o.parent, gone, e);
    SetParent(SetParent(s1, o.left, e), o.right, e)
  }

  /** The effect of a transplantation, node by node, when the nodes involved differ. */
  lemma TransplantedLinks(s: Links, gone: Node, e: Node)
    requires gone in s.at && e in s.at && e != gone
    requires Known(s, s.at[gone].parent) && Known(s, s.at[gone].left) && Known(s, s.at[gone].right)
    requires
      var o := s.at[gone];
      && o.parent != e && o.left != e && o.right != e
      && o.parent != gone && o.left != gone && o.right != gone
      && (o.parent != null ==> o.parent != o.left && o.parent != o.right)
      && (o.left != null ==> o.left != o.right)
    ensures
      var o, s' := s.at[gone], Transplanted(s, gone, e);
      && e in s'.at && s'.at[e] == o
      && s'.root == Replaced(s, o.parent, gone, e).root
      && (o.parent != null ==> o.parent in s'.at && s'.at[o.parent] == Replaced(s, o.parent, gone, e).at[o.parent])
      && (o.left != null ==> o.left in s'.at && s'.at[o.left] == s.at[o.left].(parent := e))
      && (o.right != null ==> o.right in s'.at && s'.at[o.right] == s.at[o.right].(parent := e))
      && forall n :: n in s.at && n != e && n != o.parent && n != o.left && n != o.right ==> n in s'.at && s'.at[n] == s.at[n]
  {
    if s.at[gone].parent == null {
    } else if s.at[s.at[gone].parent].left == gone {
    } else {
    }
  }

  lemma TransplantAt(s: Links, c: Ctx, t: Tree, e: Node)
    requires At(s, c, t) && t.Fork? && e in s.at && e !in Nodes(t) && e !in CtxNodes(c)
    ensures t.n in s.at
    ensures Known(s, s.at[t.n].parent) && Known(s, s.at[t.n].left) && Known(s, s.at[t.n].right)
    ensures At(Transplanted(s, t.n, e), c, Fork(t.l, e, t.red, t.r))
  {
    TransplantEffect(s, c, t, e);
    var s' := Transplanted(s, t.n, e);
    SubstitutedHolds(s, s', c, t.n, e);
    MovedHolds(s.at, s'.at, t.l, t.n, e);
    MovedHolds(s.at, s'.at, t.r, t.n, e);
  }

  lemma TransplantEffect(s: Links, c: Ctx, t: Tree, e: Node)
    requires At(s, c, t) && t.Fork? && e in s.at && e !in Nodes(t) && e !in CtxNodes(c)
    ensures t.n in s.at
    ensures Known(s, s.at[t.n].parent) && Known(s, s.at[t.n].left) && Known(s, s.at[t.n].right)
    ensures
      var s' := Transplanted(s, t.n, e);
      && e in s'.at && s'.at[e] == s.at[t.n] && Substituted(s, s', c, t.n, e)
      && Moved(s.at, s'.at, t.l, e) && Moved(s.at, s'.at, t.r, e)
  {
    assert Holds(s.at, t.l, t.n) && Holds(s.at, t.r, t.n);
    assert t.l.Fork? ==> t.l.n in Nodes(t.l) && Distinct(t.l);
    assert t.r.Fork? ==> t.r.n in Nodes(t.r) && Distinct(t.r);
    assert !c.Top? ==> c.n in CtxNodes(c);
    TransplantedLinks(s, t.n, e);
  }

  /** Forgetting a node that is not in the tree any more. */
  lemma ForgetAt(s: Links, c: Ctx, t: Tree, x: Node)
    requires At(s, c, t) && x !in Nodes(t) && x !in CtxNodes(c)
    ensures At(s.(at := s.at - {x}), c, t)
  {
    var s' := s.(at := s.at - {x});
    TreeAgrees(s.at, s'.at, t, Parent(c));
    CtxAgrees(s, s', c, Root(t));
  }
}
