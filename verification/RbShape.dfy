/**
 The mathematical side of the red-black tree of core/tree.h: the shape of a tree
 as a value, the path from a position to the root as a context with a hole, and
 the conditions stated at the top of that file. Nothing here reads the heap.
 */
module RbShape {
  import opened Basics
  import opened LruNodes

  datatype Tree = Leaf | Fork(l: Tree, n: Node, red: bool, r: Tree)

  /** The surroundings of a subtree, from its parent up to the root. */
  datatype Ctx =
    | Top
    | InLeft(n: Node, red: bool, r: Tree, up: Ctx)
    | InRight(l: Tree, n: Node, red: bool, up: Ctx)

  ghost function Plug(c: Ctx, t: Tree): Tree
    decreases c
  {
    match c
    case Top => t
    case InLeft(n, red, r, up) => Plug(up, Fork(t, n, red, r))
    case InRight(l, n, red, up) => Plug(up, Fork(l, n, red, t))
  }

  /** The context `inner`, itself placed inside `outer`. */
  ghost function Append(inner: Ctx, outer: Ctx): Ctx
    decreases inner
  {
    match inner
    case Top => outer
    case InLeft(n, red, r, up) => InLeft(n, red, r, Append(up, outer))
    case InRight(l, n, red, up) => InRight(l, n, red, Append(up, outer))
  }

  ghost function Inorder(t: Tree): seq<Node> {
    match t
    case Leaf => []
    case Fork(l, n, _, r) => Inorder(l) + [n] + Inorder(r)
  }

  ghost function Before(c: Ctx): seq<Node> {
    match c
    case Top => []
    case InLeft(_, _, _, up) => Before(up)
    case InRight(l, n, _, up) => Before(up) + Inorder(l) + [n]
  }

  ghost function After(c: Ctx): seq<Node> {
    match c
    case Top => []
    case InLeft(n, _, r, up) => [n] + Inorder(r) + After(up)
    case InRight(_, _, _, up) => After(up)
  }

  /** All the nodes, in order, seen from a position. */
  ghost function Whole(c: Ctx, t: Tree): seq<Node> { Before(c) + Inorder(t) + After(c) }

  ghost function Root(t: Tree): Node? { if t.Leaf? then null else t.n }

  ghost function Parent(c: Ctx): Node? { if c.Top? then null else c.n }

  predicate IsRed(t: Tree) { t.Fork? && t.red }

  predicate RedParent(c: Ctx) { !c.Top? && c.red }

  ghost function Nodes(t: Tree): set<Node> {
    match t
    case Leaf => {}
    case Fork(l, n, _, r) => {n} + Nodes(l) + Nodes(r)
  }

  ghost function CtxNodes(c: Ctx): set<Node> {
    match c
    case Top => {}
    case InLeft(n, _, r, up) => {n} + Nodes(r) + CtxNodes(up)
    case InRight(l, n, _, up) => {n} + Nodes(l) + CtxNodes(up)
  }

  /** No node occurs twice. */
  ghost predicate Distinct(t: Tree) {
    match t
    case Leaf => true
    case Fork(l, n, _, r) =>
      Distinct(l) && Distinct(r) && n !in Nodes(l) && n !in Nodes(r) && Nodes(l) !! Nodes(r)
  }

  ghost predicate CtxDistinct(c: Ctx) {
    match c
    case Top => true
    case InLeft(n, _, r, up) =>
      Distinct(r) && CtxDistinct(up) && n !in Nodes(r) && n !in CtxNodes(up) && Nodes(r) !! CtxNodes(up)
    case InRight(l, n, _, up) =>
      Distinct(l) && CtxDistinct(up) && n !in Nodes(l) && n !in CtxNodes(up) && Nodes(l) !! CtxNodes(up)
  }

  ghost predicate Separate(c: Ctx, t: Tree) {
    Distinct(t) && CtxDistinct(c) && Nodes(t) !! CtxNodes(c)
  }

  /** Black nodes on the leftmost path; on every path when the tree is sound. */
  function BlackHeight(t: Tree): nat {
    match t
    case Leaf => 0
    case Fork(l, _, red, _) => BlackHeight(l) + if red then 0 else 1
  }

  /** Every path has as many black nodes, and no red node has a red child. */
  predicate Sound(t: Tree) {
    match t
    case Leaf => true
    case Fork(l, _, red, r) =>
      && Sound(l) && Sound(r) && BlackHeight(l) == BlackHeight(r)
      && (red ==> !IsRed(l) && !IsRed(r))
  }

  /** A tree of core/tree.h between two operations. */
  predicate RedBlack(t: Tree) { Sound(t) && !IsRed(t) }

  /** The context becomes a red-black tree once its hole receives a sound tree
      of black height `h` whose root is not a red child of a red node. */
  predicate Fits(c: Ctx, h: nat) {
    match c
    case Top => true
    case InLeft(_, red, r, up) =>
      && Sound(r) && BlackHeight(r) == h
      && (red ==> !IsRed(r) && !RedParent(up) && !up.Top?)
      && Fits(up, h + if red then 0 else 1)
    case InRight(l, _, red, up) =>
      && Sound(l) && BlackHeight(l) == h
      && (red ==> !IsRed(l) && !RedParent(up) && !up.Top?)
      && Fits(up, h + if red then 0 else 1)
  }

  // ---- Facts about contexts ------------------------------------------------

  lemma Regroup(a: seq<Node>, l: seq<Node>, n: seq<Node>, r: seq<Node>, d: seq<Node>)
    ensures a + (l + n + r) + d == a + l + (n + r + d)
    ensures a + (l + n + r) + d == (a + l + n) + r + d
  {
    assert a + (l + n + r) == a + l + n + r;
  }

  lemma {:induction false} PlugInorder(c: Ctx, t: Tree)
    ensures Inorder(Plug(c, t)) == Whole(c, t)
    decreases c
  {
    match c
    case Top =>
    case InLeft(n, red, r, up) =>
      PlugInorder(up, Fork(t, n, red, r));
      Regroup(Before(up), Inorder(t), [n], Inorder(r), After(up));
    case InRight(l, n, red, up) =>
      PlugInorder(up, Fork(l, n, red, t));
      Regroup(Before(up), Inorder(l), [n], Inorder(t), After(up));
  }

  lemma {:induction false} PlugAppend(inner: Ctx, outer: Ctx, t: Tree)
    ensures Plug(Append(inner, outer), t) == Plug(outer, Plug(inner, t))
    decreases inner
  {
    match inner
    case Top =>
    case InLeft(n, red, r, up) => PlugAppend(up, outer, Fork(t, n, red, r));
    case InRight(l, n, red, up) => PlugAppend(up, outer, Fork(l, n, red, t));
  }

  lemma {:induction false} PlugNodes(c: Ctx, t: Tree)
    ensures Nodes(Plug(c, t)) == CtxNodes(c) + Nodes(t)
    ensures Distinct(Plug(c, t)) <==> Separate(c, t)
    decreases c
  {
    match c
    case Top =>
    case InLeft(n, red, r, up) => PlugNodes(up, Fork(t, n, red, r));
    case InRight(l, n, red, up) => PlugNodes(up, Fork(l, n, red, t));
  }

  ghost function Elems(s: seq<Node>): set<Node> { set i | 0 <= i < |s| :: s[i] }

  lemma ElemsConcat(a: seq<Node>, b: seq<Node>)
    ensures Elems(a + b) == Elems(a) + Elems(b)
  {
    var s := a + b;
    assert forall i :: 0 <= i < |a| ==> s[i] == a[i];
    assert forall i :: 0 <= i < |b| ==> s[|a| + i] == b[i];
  }

  lemma {:induction false} NodesAreInorder(t: Tree)
    ensures Nodes(t) == Elems(Inorder(t))
  {
    match t
    case Leaf =>
    case Fork(l, n, _, r) =>
      NodesAreInorder(l);
      NodesAreInorder(r);
      ElemsConcat(Inorder(l), [n]);
      ElemsConcat(Inorder(l) + [n], Inorder(r));
      assert [n][0] == n;
  }

  /** One more node in the order is one more node in the set. */
  lemma OneMore(t: Tree, t': Tree, a: seq<Node>, x: Node, b: seq<Node>)
    requires Inorder(t) == a + b && Inorder(t') == a + [x] + b
    ensures Nodes(t') == Nodes(t) + {x}
  {
    NodesAreInorder(t);
    NodesAreInorder(t');
    ElemsConcat(a, b);
    ElemsConcat(a, [x]);
    ElemsConcat(a + [x], b);
    assert [x][0] == x;
  }

  lemma {:induction false} PlugSound(c: Ctx, t: Tree)
    requires Sound(t) && Fits(c, BlackHeight(t))
    requires !(IsRed(t) && RedParent(c))
    ensures Sound(Plug(c, t))
    ensures c.Top? || !IsRed(Plug(c, t))
    decreases c
  {
    match c
    case Top =>
    case InLeft(n, red, r, up) => PlugSound(up, Fork(t, n, red, r));
    case InRight(l, n, red, up) => PlugSound(up, Fork(l, n, red, t));
  }

  lemma {:induction false} UnplugSound(c: Ctx, t: Tree)
    requires RedBlack(Plug(c, t))
    ensures Sound(t) && Fits(c, BlackHeight(t)) && !(IsRed(t) && (RedParent(c) || c.Top?))
    decreases c
  {
    match c
    case Top =>
    case InLeft(n, red, r, up) => UnplugSound(up, Fork(t, n, red, r));
    case InRight(l, n, red, up) => UnplugSound(up, Fork(l, n, red, t));
  }

  /** Whether a context fits depends on colours only, not on which node sits in its middle. */
  lemma {:induction false} FitsRenamed(inner: Ctx, l: Tree, n: Node, n': Node, red: bool, up: Ctx, h: nat)
    requires Fits(Append(inner, InRight(l, n, red, up)), h)
    ensures Fits(Append(inner, InRight(l, n', red, up)), h)
    decreases inner
  {
    match inner
    case Top =>
    case InLeft(_, c, _, rest) => FitsRenamed(rest, l, n, n', red, up, h + if c then 0 else 1);
    case InRight(_, _, c, rest) => FitsRenamed(rest, l, n, n', red, up, h + if c then 0 else 1);
  }

  // ---- Steps of the rebalancing loops ------------------------------------------

  /** One level up: the tree hanging from the innermost node of the context. */
  ghost function Hang(c: Ctx, t: Tree): (p: Tree)
    requires !c.Top?
    ensures p.Fork? && p.n == c.n && p.red == c.red
  {
    if c.InLeft? then Fork(t, c.n, c.red, c.r) else Fork(c.l, c.n, c.red, t)
  }

  ghost function RotL(t: Tree): Tree
    requires t.Fork? && t.r.Fork?
  {
    Fork(Fork(t.l, t.n, t.red, t.r.l), t.r.n, t.r.red, t.r.r)
  }

  ghost function RotR(t: Tree): Tree
    requires t.Fork? && t.l.Fork?
  {
    Fork(t.l.l, t.l.n, t.l.red, Fork(t.l.r, t.n, t.red, t.r))
  }

  ghost function Depth(c: Ctx): nat { if c.Top? then 0 else 1 + Depth(c.up) }

  /** The order and the set of nodes once the empty hole of `c` holds `x`. */
  lemma Grown(t: Tree, t': Tree, c: Ctx, x: Node)
    requires Inorder(t) == Whole(c, Leaf) && Inorder(t') == Whole(c, Fork(Leaf, x, true, Leaf))
    ensures Inorder(t) == Before(c) + After(c) && Inorder(t') == Before(c) + [x] + After(c)
    ensures Nodes(t') == Nodes(t) + {x}
  {
    assert Inorder(Fork(Leaf, x, true, Leaf)) == [x];
    OneMore(t, t', Before(c), x, After(c));
  }

  /** A tree with the nodes of a position, in the same order, has the same set of nodes. */
  lemma SameNodes(c: Ctx, t: Tree, t': Tree)
    requires Inorder(t') == Whole(c, t)
    ensures Nodes(t') == CtxNodes(c) + Nodes(t)
  {
    PlugInorder(c, t);
    PlugNodes(c, t);
    NodesAreInorder(Plug(c, t));
    NodesAreInorder(t');
  }

  lemma HangWhole(c: Ctx, t: Tree)
    requires !c.Top?
    ensures Whole(c.up, Hang(c, t)) == Whole(c, t)
  {
    if c.InLeft? {
      Regroup(Before(c.up), Inorder(t), [c.n], Inorder(c.r), After(c.up));
    } else {
      Regroup(Before(c.up), Inorder(c.l), [c.n], Inorder(t), After(c.up));
    }
  }

  lemma FiveParts(a: seq<Node>, x: seq<Node>, b: seq<Node>, y: seq<Node>, d: seq<Node>)
    ensures a + x + (b + y + d) == (a + x + b) + y + d
  {
  }

  lemma RotLInorder(t: Tree)
    requires t.Fork? && t.r.Fork?
    ensures Inorder(RotL(t)) == Inorder(t)
  {
    var a, b, d := Inorder(t.l), Inorder(t.r.l), Inorder(t.r.r);
    assert Inorder(t.r) == b + [t.r.n] + d;
    assert Inorder(RotL(t).l) == a + [t.n] + b;
    FiveParts(a, [t.n], b, [t.r.n], d);
  }

  lemma RotRInorder(t: Tree)
    requires t.Fork? && t.l.Fork?
    ensures Inorder(RotR(t)) == Inorder(t)
  {
    var a, b, d := Inorder(t.l.l), Inorder(t.l.r), Inorder(t.r);
    assert Inorder(t.l) == a + [t.l.n] + b;
    assert Inorder(RotR(t).r) == b + [t.n] + d;
    FiveParts(a, [t.l.n], b, [t.n], d);
  }

  /** A sound red tree in a hole it may not fit only because its parent is red too. */
  ghost predicate Rising(c: Ctx, t: Tree) {
    t.Fork? && t.red && Sound(t) && Fits(c, BlackHeight(t))
  }

  /** The sibling of the hole. */
  function Sibling(c: Ctx): Tree
    requires !c.Top?
  {
    if c.InLeft? then c.r else c.l
  }

  /** The same node above, seen from the sibling. */
  ghost function Across(c: Ctx, t: Tree): Ctx
    requires !c.Top?
  {
    if c.InLeft? then InRight(t, c.n, c.red, c.up) else InLeft(c.n, c.red, t, c.up)
  }

  ghost function Painted(t: Tree, red: bool): Tree {
    if t.Leaf? then Leaf else Fork(t.l, t.n, red, t.r)
  }

  /** The tree of the grandparent, once red over two black sons. */
  ghost function Recoloured(c: Ctx, t: Tree): Tree
    requires !c.Top? && !c.up.Top?
  {
    var u, p := Painted(Sibling(c.up), false), Painted(Hang(c, t), false);
    if c.up.InLeft? then Fork(p, c.up.n, true, u) else Fork(u, c.up.n, true, p)
  }

  lemma RecolouredWhole(c: Ctx, t: Tree)
    requires !c.Top? && !c.up.Top?
    ensures Whole(c.up.up, Recoloured(c, t)) == Whole(c, t)
  {
    HangWhole(c, t);
    HangWhole(c.up, Hang(c, t));
    assert Inorder(Recoloured(c, t)) == Inorder(Hang(c.up, Hang(c, t)));
  }

  /** Below a red parent with a red sibling: both turn black and the grandparent red. */
  lemma RecolourRises(c: Ctx, t: Tree)
    requires Rising(c, t) && RedParent(c)
    ensures !c.up.Top? && !c.up.red
    ensures IsRed(Sibling(c.up)) ==>
      Rising(c.up.up, Recoloured(c, t))
  {
    var h := BlackHeight(t);
    assert Fits(c.up, h) && Fits(c.up.up, h + 1);
    assert Sound(Sibling(c)) && Sound(Sibling(c.up)) && BlackHeight(Sibling(c.up)) == h;
  }

  /** On the inner side, a rotation of the parent first brings the case to the outer side. */
  lemma InnerRises(c: Ctx, t: Tree)
    requires Rising(c, t) && RedParent(c)
    ensures c.InRight? ==> Rising(InLeft(t.n, true, t.r, c.up), Fork(c.l, c.n, true, t.l))
    ensures c.InLeft? ==> Rising(InRight(t.l, t.n, true, c.up), Fork(t.r, c.n, true, c.r))
  {
    assert Fits(c.up, BlackHeight(t));
  }

  /** Below a red parent with a black sibling, on the outer side: a rotation ends the ascent. */
  lemma TurnRises(c: Ctx, t: Tree)
    requires Rising(c, t) && RedParent(c) && !IsRed(Sibling(c.up))
    ensures c.InLeft? && c.up.InLeft? ==> Rising(InLeft(c.n, false, Fork(c.r, c.up.n, true, c.up.r), c.up.up), t)
    ensures c.InRight? && c.up.InRight? ==> Rising(InRight(Fork(c.up.l, c.up.n, true, c.l), c.n, false, c.up.up), t)
  {
    var h := BlackHeight(t);
    assert Fits(c.up, h) && Fits(c.up.up, h + 1);
    assert Sound(Sibling(c)) && Sound(Sibling(c.up)) && BlackHeight(Sibling(c.up)) == h;
  }

  /** A tree one black node short of what its context expects, whatever the colour of its root. */
  ghost predicate Lacking(c: Ctx, t: Tree) {
    Sound(Painted(t, false)) && Fits(c, BlackHeight(t) + 1)
  }

  /** A red sibling is first rotated above the parent: the new sibling is black. */
  lemma RedSiblingLacks(c: Ctx, t: Tree)
    requires Lacking(c, t) && !IsRed(t) && !c.Top? && IsRed(Sibling(c))
    ensures !c.red
    ensures c.InLeft? ==> Lacking(InLeft(c.n, true, c.r.l, InLeft(c.r.n, false, c.r.r, c.up)), t)
    ensures c.InRight? ==> Lacking(InRight(c.l.r, c.n, true, InRight(c.l.l, c.l.n, false, c.up)), t)
  {
    assert Sound(Sibling(c)) && Fits(c.up, BlackHeight(t) + 2);
  }

  /** The sibling exists, and its sons too when it is red. */
  lemma SiblingExists(c: Ctx, t: Tree)
    requires Lacking(c, t) && !c.Top?
    ensures Sibling(c).Fork?
    ensures IsRed(Sibling(c)) ==> Sibling(c).l.Fork? && Sibling(c).r.Fork? && !IsRed(Sibling(c).l) && !IsRed(Sibling(c).r)
  {
    assert Sound(Sibling(c)) && BlackHeight(Sibling(c)) > 0;
  }

  /** A black sibling with no red son turns red: the lack moves up. */
  lemma BlackSonsLack(c: Ctx, t: Tree)
    requires Lacking(c, t) && !IsRed(t) && !c.Top?
    requires Sibling(c).Fork? && !IsRed(Sibling(c)) && !IsRed(Sibling(c).l) && !IsRed(Sibling(c).r)
    ensures Lacking(c.up, SiblingReddened(c, t))
  {
    assert Sound(Sibling(c)) && Fits(c.up, BlackHeight(t) + 1 + if c.red then 0 else 1);
  }

  /** The final rotation: the sibling `w`, with a red outer son, takes the place and the
      colour of the parent. */
  ghost function Refilled(c: Ctx, t: Tree): Tree
    requires !c.Top? && Sibling(c).Fork?
  {
    if c.InLeft? then Fork(Fork(t, c.n, false, c.r.l), c.r.n, c.red, Painted(c.r.r, false))
    else Fork(Painted(c.l.l, false), c.l.n, c.red, Fork(c.l.r, c.n, false, t))
  }

  lemma RefilledFits(c: Ctx, t: Tree)
    requires Lacking(c, t) && !IsRed(t) && !c.Top? && Sibling(c).Fork? && !IsRed(Sibling(c))
    requires IsRed(if c.InLeft? then c.r.r else c.l.l)
    ensures Sound(Refilled(c, t)) && Fits(c.up, BlackHeight(Refilled(c, t)))
    ensures !(IsRed(Refilled(c, t)) && (RedParent(c.up) || c.up.Top?))
  {
    assert Sound(Sibling(c)) && Fits(c.up, BlackHeight(t) + 1 + if c.red then 0 else 1);
    assert Sound(Sibling(c).l) && Sound(Sibling(c).r);
  }

  /** A red inner son is first rotated above the sibling, and becomes the sibling. */
  ghost function Straightened(c: Ctx): Tree
    requires !c.Top? && Sibling(c).Fork? && (if c.InLeft? then c.r.l.Fork? else c.l.r.Fork?)
  {
    if c.InLeft? then RotR(Fork(Painted(c.r.l, false), c.r.n, true, c.r.r))
    else RotL(Fork(c.l.l, c.l.n, true, Painted(c.l.r, false)))
  }

  lemma StraightenedLacks(c: Ctx, t: Tree)
    requires Lacking(c, t) && !c.Top? && Sibling(c).Fork? && !IsRed(Sibling(c))
    requires if c.InLeft? then IsRed(c.r.l) && !IsRed(c.r.r) else IsRed(c.l.r) && !IsRed(c.l.l)
    ensures
      var s := Straightened(c);
      && s.Fork? && !s.red && IsRed(if c.InLeft? then s.r else s.l)
      && Lacking(Across(Across(c, t), s), t)
  {
    assert Sound(Sibling(c));
    assert Sound(Sibling(c).l) && Sound(Sibling(c).r);
  }

  lemma StraightenedWhole(c: Ctx, t: Tree)
    requires !c.Top? && Sibling(c).Fork? && (if c.InLeft? then c.r.l.Fork? else c.l.r.Fork?)
    ensures Whole(Across(Across(c, t), Straightened(c)), t) == Whole(c, t)
  {
    var c' := Across(Across(c, t), Straightened(c));
    if c.InLeft? {
      RotRInorder(Fork(Painted(c.r.l, false), c.r.n, true, c.r.r));
      assert Inorder(Painted(c.r.l, false)) == Inorder(c.r.l);
    } else {
      RotLInorder(Fork(c.l.l, c.l.n, true, Painted(c.l.r, false)));
      assert Inorder(Painted(c.l.r, false)) == Inorder(c.l.r);
    }
    HangWhole(c, t);
    HangWhole(c', t);
  }

  lemma RefilledWhole(c: Ctx, t: Tree)
    requires !c.Top? && Sibling(c).Fork?
    ensures Whole(c.up, Refilled(c, t)) == Whole(c, t)
  {
    HangWhole(c, t);
    if c.InLeft? {
      RotLInorder(Fork(t, c.n, false, Fork(c.r.l, c.r.n, c.red, Painted(c.r.r, false))));
      assert Inorder(Painted(c.r.r, false)) == Inorder(c.r.r);
    } else {
      RotRInorder(Fork(Fork(Painted(c.l.l, false), c.l.n, c.red, c.l.r), c.n, false, t));
      assert Inorder(Painted(c.l.l, false)) == Inorder(c.l.l);
    }
  }

  /** Painting the sibling red, then looking from the parent. */
  ghost function SiblingReddened(c: Ctx, t: Tree): Tree
    requires !c.Top?
  {
    Hang(Across(Across(c, t), Painted(Sibling(c), true)), t)
  }

  lemma SiblingReddenedWhole(c: Ctx, t: Tree)
    requires !c.Top? && Sibling(c).Fork?
    ensures Whole(c.up, SiblingReddened(c, t)) == Whole(c, t)
  {
    HangWhole(c, t);
    assert Inorder(Painted(Sibling(c), true)) == Inorder(Sibling(c));
  }

  /** The end of the removal loop: either the lack meets a red node or the root, or it is refilled. */
  ghost predicate Settled(c: Ctx, t: Tree) {
    (Lacking(c, t) && (IsRed(t) || c.Top?)) || (c.Top? && RedBlack(t))
  }

  lemma SettledIsRedBlack(c: Ctx, t: Tree)
    requires Settled(c, t)
    ensures RedBlack(Plug(c, Painted(t, false)))
    ensures Inorder(Plug(c, Painted(t, false))) == Whole(c, t)
  {
    var t' := Painted(t, false);
    assert Inorder(t') == Inorder(t);
    PlugInorder(c, t');
    if !c.Top? {
      PlugSound(c, t');
    }
  }

  lemma {:induction false} AppendTop(c: Ctx)
    ensures Append(c, Top) == c
  {
    if !c.Top? { AppendTop(c.up); }
  }

  /** The end of the ascent: the root is painted black. */
  lemma RisenIsRedBlack(c: Ctx, t: Tree)
    requires Rising(c, t) && !RedParent(c)
    ensures RedBlack(Painted(Plug(c, t), false)) && Plug(c, t).Fork?
    ensures Inorder(Painted(Plug(c, t), false)) == Whole(c, t)
  {
    PlugSound(c, t);
    PlugInorder(c, t);
    assert t.n in Inorder(t) && t.n in Whole(c, t);
  }

  // ---- Taking a node out -------------------------------------------------------

  /** The position of a node of the tree. */
  ghost function Locate(c: Ctx, t: Tree, x: Node): (r: (Ctx, Tree))
    requires x in Nodes(t)
    ensures Plug(r.0, r.1) == Plug(c, t) && r.1.Fork? && r.1.n == x
    decreases t
  {
    if x == t.n then (c, t)
    else if x in Nodes(t.l) then Locate(InLeft(t.n, t.red, t.r, c), t.l, x)
    else Locate(InRight(t.l, t.n, t.red, c), t.r, x)
  }

  /** What is left of a tree without its root, when one son at most exists. */
  ghost function Spliced(t: Tree): Tree
    requires t.Fork? && (t.l.Leaf? || t.r.Leaf?)
  {
    if t.l.Leaf? then t.r else t.l
  }

  lemma SplicedRoot(t: Tree)
    requires t.Fork? && (t.l.Leaf? || t.r.Leaf?)
    ensures Root(Spliced(t)) == if t.l.Leaf? then Root(t.r) else Root(t.l)
  {
  }

  /** Taking out a black node leaves a lack; taking out a red one leaves nothing to repair. */
  lemma SplicedLacks(c: Ctx, t: Tree)
    requires Sound(t) && Fits(c, BlackHeight(t)) && !(IsRed(t) && (RedParent(c) || c.Top?))
    requires t.Fork? && (t.l.Leaf? || t.r.Leaf?)
    ensures !t.red ==> Lacking(c, Spliced(t))
    ensures t.red ==> Spliced(t).Leaf? && RedBlack(Plug(c, Leaf))
  {
    if t.red {
      assert BlackHeight(Spliced(t)) == 0;
      PlugSound(c, Leaf);
    }
  }

  /** A path that only goes left. */
  ghost predicate AllLeft(c: Ctx) { c.Top? || (c.InLeft? && AllLeft(c.up)) }

  lemma {:induction false} AllLeftBefore(c: Ctx)
    requires AllLeft(c)
    ensures Before(c) == []
  {
    if !c.Top? { AllLeftBefore(c.up); }
  }

  /** The order once `old`, with two sons, is replaced by its successor `e`. */
  lemma SuccessorOrder(c: Ctx, l: Tree, gone: Node, red: bool, inner: Ctx, e: Node, e_red: bool, child: Tree)
    requires AllLeft(inner)
    ensures
      var a := Before(c) + Inorder(l);
      var b := [e] + Inorder(child) + After(inner) + After(c);
      && Whole(c, Fork(l, gone, red, Plug(inner, Fork(Leaf, e, e_red, child)))) == a + [gone] + b
      && Whole(c, Fork(l, e, red, Plug(inner, child))) == a + b
  {
    hide Before, After, Plug;
    AllLeftBefore(inner);
    var m := Fork(Leaf, e, e_red, child);
    PlugInorder(inner, m);
    PlugInorder(inner, child);
    assert Inorder(m) == [e] + Inorder(child);
    Chain(Before(c), Inorder(l), [gone], [e], Inorder(child), After(inner), After(c));
    assert Inorder(Plug(inner, m)) == [] + ([e] + Inorder(child)) + After(inner);
    assert Inorder(Plug(inner, child)) == [] + Inorder(child) + After(inner);
  }

  lemma Chain(a: seq<Node>, l: seq<Node>, g: seq<Node>, e: seq<Node>, k: seq<Node>, m: seq<Node>, d: seq<Node>)
    ensures a + (l + g + ([] + (e + k) + m)) + d == (a + l) + g + (e + k + m + d)
    ensures a + (l + e + ([] + k + m)) + d == (a + l) + (e + k + m + d)
  {
    assert [] + (e + k) + m == e + k + m && [] + k + m == k + m;
    assert a + (l + g + (e + k + m)) == a + l + g + (e + k + m);
    assert l + e + (k + m) == l + (e + k + m);
    assert a + (l + (e + k + m)) == a + l + (e + k + m);
  }

  /** The order on both sides of a node taken out of `t`. */
  ghost function SplicedSides(c: Ctx, t: Tree): (r: (seq<Node>, seq<Node>))
    requires t.Fork? && (t.l.Leaf? || t.r.Leaf?)
  {
    if t.l.Leaf? then (Before(c), Inorder(t.r) + After(c)) else (Before(c) + Inorder(t.l), After(c))
  }

  lemma SplicedWhole(c: Ctx, t: Tree)
    requires t.Fork? && (t.l.Leaf? || t.r.Leaf?)
    ensures var (a, b) := SplicedSides(c, t); Whole(c, t) == a + [t.n] + b && Whole(c, Spliced(t)) == a + b
  {
    if t.l.Leaf? {
      assert Inorder(t) == [t.n] + Inorder(t.r);
    } else {
      assert Inorder(t) == Inorder(t.l) + [t.n];
    }
  }

  /** Taking the root out of `t` takes exactly that node out of the set. */
  lemma SplicedNodes(c: Ctx, t: Tree)
    requires Separate(c, t) && t.Fork? && (t.l.Leaf? || t.r.Leaf?)
    ensures t.n !in CtxNodes(c) + Nodes(Spliced(t))
    ensures CtxNodes(c) + Nodes(t) == CtxNodes(c) + Nodes(Spliced(t)) + {t.n}
  {
  }

  /** Replacing `gone` by its successor `e` does not change what the deep context expects. */
  lemma SuccessorLacks(inner: Ctx, l: Tree, gone: Node, e: Node, red: bool, c: Ctx, m: Tree)
    requires RedBlack(Plug(Append(inner, InRight(l, gone, red, c)), m))
    requires m.Fork? && m.l.Leaf?
    ensures
      var d := Append(inner, InRight(l, e, red, c));
      if m.red then RedBlack(Plug(d, m.r)) else Lacking(d, m.r)
  {
    var d0, d := Append(inner, InRight(l, gone, red, c)), Append(inner, InRight(l, e, red, c));
    UnplugSound(d0, m);
    FitsRenamed(inner, l, gone, e, red, c, BlackHeight(m));
    SplicedLacks(d, m);
  }

  /** Around the successor `m.n` of `gone`: it is in none of the parts that stay in place. */
  lemma SuccessorNodes(inner: Ctx, l: Tree, gone: Node, red: bool, c: Ctx, m: Tree)
    requires Separate(Append(inner, InRight(l, gone, red, c)), m) && m.Fork? && m.l.Leaf?
    ensures
      var u, d := Fork(l, gone, red, Plug(inner, m.r)), Append(inner, InRight(l, m.n, red, c));
      && m.n !in Nodes(u) && m.n !in CtxNodes(c)
      && gone !in CtxNodes(d) + Nodes(m.r)
      && CtxNodes(d) + Nodes(m.r) + {gone} == CtxNodes(Append(inner, InRight(l, gone, red, c))) + Nodes(m)
  {
    var g, e := InRight(l, gone, red, c), InRight(l, m.n, red, c);
    AppendNodes(inner, g);
    AppendNodes(inner, e);
    PlugNodes(inner, m.r);
  }

  lemma {:induction false} AppendNodes(inner: Ctx, outer: Ctx)
    ensures CtxNodes(Append(inner, outer)) == CtxNodes(inner) + CtxNodes(outer)
    ensures CtxDistinct(Append(inner, outer)) ==> CtxNodes(inner) !! CtxNodes(outer) && CtxDistinct(outer)
    decreases inner
  {
    if !inner.Top? { AppendNodes(inner.up, outer); }
  }

  lemma SuccessorWhole(inner: Ctx, l: Tree, e: Node, red: bool, c: Ctx, child: Tree)
    ensures Whole(Append(inner, InRight(l, e, red, c)), child) == Whole(c, Fork(l, e, red, Plug(inner, child)))
  {
    var d := InRight(l, e, red, c);
    PlugInorder(Append(inner, d), child);
    PlugAppend(inner, d, child);
    PlugInorder(c, Fork(l, e, red, Plug(inner, child)));
  }

  /** Whose son the hole of the deep context is. */
  lemma SuccessorParent(inner: Ctx, l: Tree, gone: Node, red: bool, c: Ctx, m: Tree)
    requires Separate(Append(inner, InRight(l, gone, red, c)), m) && m.Fork? && m.l.Leaf?
    ensures
      var p := Parent(Append(inner, InRight(l, gone, red, c)));
      Parent(Append(inner, InRight(l, m.n, red, c))) == if p == gone then m.n else p
  {
    AppendNodes(inner, InRight(l, gone, red, c));
    assert !inner.Top? ==> inner.n in CtxNodes(inner);
  }

  // ---- Height --------------------------------------------------------------

  function Height(t: Tree): nat {
    match t
    case Leaf => 0
    case Fork(l, _, _, r) => 1 + if Height(l) >= Height(r) then Height(l) else Height(r)
  }

  function Size(t: Tree): nat {
    match t
    case Leaf => 0
    case Fork(l, _, _, r) => Size(l) + 1 + Size(r)
  }

  lemma SquareMonotone(p: nat, s: nat)
    requires p <= s
    ensures p * p <= s * s
  {
    assert s * s == p * p + (s - p) * (s + p);
  }

  lemma {:induction false} SoundHeight(t: Tree)
    requires Sound(t)
    ensures Height(t) <= 2 * BlackHeight(t) + if IsRed(t) then 1 else 0
    ensures Size(t) + 1 >= Pow2(BlackHeight(t))
  {
    match t
    case Leaf =>
    case Fork(l, _, _, r) =>
      SoundHeight(l);
      SoundHeight(r);
  }

  /** The height of a red-black tree is at most 2 log (n + 1), in base 2: without the logarithm. */
  lemma HeightBound(t: Tree)
    requires RedBlack(t)
    ensures Pow2(Height(t)) <= (Size(t) + 1) * (Size(t) + 1)
  {
    SoundHeight(t);
    var b := BlackHeight(t);
    Pow2Monotone(Height(t), b + b);
    Pow2Sum(b, b);
    SquareMonotone(Pow2(b), Size(t) + 1);
  }

  lemma {:induction false} SizeIs(t: Tree)
    ensures |Inorder(t)| == Size(t)
  {
    match t
    case Leaf =>
    case Fork(l, _, _, r) =>
      SizeIs(l);
      SizeIs(r);
  }
}
