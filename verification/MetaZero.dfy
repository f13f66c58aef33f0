/**
 The two forms of the directory of prefixes (meta0v2/meta0_utils.c): for each prefix the
 services that manage it, and for each service the prefixes that it manages.
 */
module MetaZero {

  const PREFIXES: nat := 65536

  type Prefix = p: int | 0 <= p < 65536

  /** The text of the address of a service, and the address itself. */
  type Url(==, !new)
  type Addr(==, !new)

  datatype Info = Info(addr: Addr, prefixes: seq<Prefix>)

  /** The services of each prefix. */
  type Table = t: seq<seq<Url>> | |t| == PREFIXES witness EmptyTable()

  function EmptyTable(): seq<seq<Url>> { seq(65536, _ => []) }

  /** How often a prefix comes under a service. */
  ghost function InTree(tree: map<Url, seq<Prefix>>, u: Url, p: Prefix): nat {
    if u in tree then multiset(tree[u])[p] else 0
  }

  ghost function InList(list: seq<Info>, format: Addr -> Url, u: Url, p: Prefix): nat {
    if list == [] then 0
    else
      var last := list[|list| - 1];
      InList(list[..|list| - 1], format, u, p) + (if format(last.addr) == u then multiset(last.prefixes)[p] else 0)
  }

  /** meta0_utils_tree_add_url */
  function AddUrl(tree: map<Url, seq<Prefix>>, p: Prefix, u: Url): map<Url, seq<Prefix>> {
    tree[u := (if u in tree then tree[u] else []) + [p]]
  }

  lemma AddUrlCounts(tree: map<Url, seq<Prefix>>, p: Prefix, u: Url, v: Url, q: Prefix)
    ensures InTree(AddUrl(tree, p, u), v, q) == InTree(tree, v, q) + (if u == v && p == q then 1 else 0)
  {
  }

  ghost predicate NoneEmpty(tree: map<Url, seq<Prefix>>) { forall u :: u in tree ==> tree[u] != [] }

  /** One row of the table, added to the tree. */
  method AddRow(tree: map<Url, seq<Prefix>>, p: Prefix, row: seq<Url>) returns (r: map<Url, seq<Prefix>>)
    requires NoneEmpty(tree)
    ensures NoneEmpty(r)
    ensures forall v, q :: InTree(r, v, q) == InTree(tree, v, q) + (if p == q then multiset(row)[v] else 0)
  {
    hide InTree;
    r := tree;
    var k := 0;
    while k < |row|
      invariant 0 <= k <= |row| && NoneEmpty(r)
      invariant forall v, q :: InTree(r, v, q) == InTree(tree, v, q) + (if p == q then multiset(row[..k])[v] else 0)
    {
      assert row[..k + 1] == row[..k] + [row[k]];
      forall v, q ensures InTree(AddUrl(r, p, row[k]), v, q) == InTree(r, v, q) + (if row[k] == v && p == q then 1 else 0) {
        AddUrlCounts(r, p, row[k], v, q);
      }
      r := AddUrl(r, p, row[k]);
      k := k + 1;
    }
    assert row[..k] == row;
  }

  /** meta0_utils_array_to_tree */
  method ArrayToTree(table: Table) returns (tree: map<Url, seq<Prefix>>)
    ensures NoneEmpty(tree) && forall v, q: Prefix :: InTree(tree, v, q) == multiset(table[q])[v]
  {
    tree := map[];
    var i := 0;
    assert forall v, q: Prefix :: InTree(tree, v, q) == 0;
    hide InTree;
    while i < PREFIXES
      invariant 0 <= i <= PREFIXES && NoneEmpty(tree)
      invariant forall v, q: Prefix :: InTree(tree, v, q) == (if q < i then multiset(table[q])[v] else 0)
    {
      tree := AddRow(tree, i, table[i]);
      i := i + 1;
    }
  }

  /** The list lists each service of the tree once, in some order. */
  ghost predicate Lists(list: seq<Info>, tree: map<Url, seq<Prefix>>, parse: Url -> Addr, urls: seq<Url>) {
    ListsSome(list, tree, parse, urls, tree.Keys)
  }

  ghost predicate ListsSome(list: seq<Info>, tree: map<Url, seq<Prefix>>, parse: Url -> Addr,
                            urls: seq<Url>, some: set<Url>)
  {
    && |list| == |urls| && (forall u :: u in urls <==> u in some)
    && (forall i, j :: 0 <= i < j < |urls| ==> urls[i] != urls[j])
    && (forall i :: 0 <= i < |urls| ==> urls[i] in tree && list[i] == Info(parse(urls[i]), tree[urls[i]]))
  }

  lemma ListsMore(list: seq<Info>, tree: map<Url, seq<Prefix>>, parse: Url -> Addr, urls: seq<Url>, some: set<Url>, u: Url)
    requires ListsSome(list, tree, parse, urls, some) && u in tree && u !in some
    ensures ListsSome([Info(parse(u), tree[u])] + list, tree, parse, [u] + urls, some + {u})
  {
  }

  /** meta0_utils_tree_to_list: the traversal prepends, in whatever order it goes. */
  method TreeToList(tree: map<Url, seq<Prefix>>, parse: Url -> Addr) returns (list: seq<Info>, ghost urls: seq<Url>)
    ensures Lists(list, tree, parse, urls)
  {
    list, urls := [], [];
    var left := tree.Keys;
    while left != {}
      invariant left <= tree.Keys && ListsSome(list, tree, parse, urls, tree.Keys - left)
      decreases left
    {
      var u :| u in left;
      ListsMore(list, tree, parse, urls, tree.Keys - left, u);
      left := left - {u};
      assert tree.Keys - left == tree.Keys - (left + {u}) + {u};
      list := [Info(parse(u), tree[u])] + list;
      urls := [u] + urls;
    }
  }

  /** How often a prefix comes under a service, in a list of the services of a tree. */
  lemma {:induction false} ListsCounts(list: seq<Info>, tree: map<Url, seq<Prefix>>, parse: Url -> Addr, format: Addr -> Url,
                                       urls: seq<Url>, u: Url, p: Prefix, n: nat)
    requires Lists(list, tree, parse, urls) && n <= |list| && forall v :: v in tree ==> format(parse(v)) == v
    ensures InList(list[..n], format, u, p) == (if u in urls[..n] then InTree(tree, u, p) else 0)
  {
    if n > 0 {
      ListsCounts(list, tree, parse, format, urls, u, p, n - 1);
      assert list[..n][..n - 1] == list[..n - 1];
      assert urls[..n] == urls[..n - 1] + [urls[n - 1]];
      if u == urls[n - 1] { assert u !in urls[..n - 1]; }
    }
  }

  /** The prefixes of one service, added to the table. */
  method AddService(table: Table, u: Url, prefixes: seq<Prefix>) returns (r: Table)
    ensures forall q: Prefix, v :: multiset(r[q])[v] == multiset(table[q])[v] + (if u == v then multiset(prefixes)[q] else 0)
  {
    r := table;
    var k := 0;
    while k < |prefixes|
      invariant 0 <= k <= |prefixes|
      invariant forall q: Prefix, v ::
        multiset(r[q])[v] == multiset(table[q])[v] + (if u == v then multiset(prefixes[..k])[q] else 0)
    {
      var p := prefixes[k];
      assert prefixes[..k + 1] == prefixes[..k] + [p];
      r := r[p := r[p] + [u]];
      k := k + 1;
    }
    assert prefixes[..k] == prefixes;
  }

  /** meta0_utils_list_to_array */
  method ListToArray(list: seq<Info>, format: Addr -> Url) returns (table: Table)
    ensures forall q: Prefix, v :: multiset(table[q])[v] == InList(list, format, v, q)
  {
    table := EmptyTable();
    var k := 0;
    while k < |list|
      invariant 0 <= k <= |list|
      invariant forall q: Prefix, v :: multiset(table[q])[v] == InList(list[..k], format, v, q)
    {
      assert list[..k + 1][..k] == list[..k];
      table := AddService(table, format(list[k].addr), list[k].prefixes);
      k := k + 1;
    }
    assert list[..k] == list;
  }

  lemma InSomeRow(tree: map<Url, seq<Prefix>>, table: Table, u: Url) returns (p: Prefix)
    requires NoneEmpty(tree) && u in tree && forall v, q: Prefix :: InTree(tree, v, q) == multiset(table[q])[v]
    ensures u in table[p]
  {
    p := tree[u][0];
    assert p in multiset(tree[u]);
    assert InTree(tree, u, p) > 0;
  }

  /** meta0_utils_array_to_list, then back: each prefix keeps its services. */
  method Invert(table: Table, parse: Url -> Addr, format: Addr -> Url) returns (r: Table)
    requires forall p: Prefix, u :: u in table[p] ==> format(parse(u)) == u
    ensures forall p: Prefix :: multiset(r[p]) == multiset(table[p])
  {
    hide InList;
    var tree := ArrayToTree(table);
    forall u | u in tree ensures format(parse(u)) == u { var p := InSomeRow(tree, table, u); }
    var list, urls := TreeToList(tree, parse);
    r := ListToArray(list, format);
    forall p: Prefix ensures multiset(r[p]) == multiset(table[p]) {
      forall u ensures multiset(r[p])[u] == multiset(table[p])[u] {
        ListsCounts(list, tree, parse, format, urls, u, p, |list|);
        assert list[..|list|] == list && urls[..|urls|] == urls;
      }
    }
  }
}
