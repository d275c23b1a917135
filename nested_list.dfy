/** The flat-to-tree builder shared by the admin screens
    (src/utils/buildNestedListStructure.js, and the same algorithm inside
    CategoriesManager): every category is placed under the entry its `parent`
    names, the levels are sorted by `order ?? 0`, and the walk stops sorting
    below a maximum depth.

    The walk is modelled as a recursion over a root chain: `path` is the list
    of entries from a root down to the node being built. With unique ids a
    chain never repeats an entry, so it is never longer than the list, which
    bounds the recursion. */
module NestedList {
  import opened Wrappers
  import opened Taxonomy
  import Seqs

  /** A placement node `{ ...item, children }`. */
  datatype Node = Node(item: Category, children: seq<Node>)

  // ---------------------------------------------------------------------------
  // Placement: which entries become roots and which children each entry gets.

  /** The entries with a falsy parent, in list order. */
  function Roots(items: seq<Category>): seq<Category>
    decreases |items|
  {
    if items == [] then []
    else
      var last := items[|items| - 1];
      Roots(items[..|items| - 1]) + (if IsRoot(last) then [last] else [])
  }

  /** The roots are exactly the entries with a falsy parent, each as often as
      in the list. */
  lemma {:induction false} RootsSpec(items: seq<Category>)
    ensures forall c :: c in Roots(items) ==> c in items && IsRoot(c)
    ensures forall c :: c in items && IsRoot(c) ==> c in Roots(items)
    ensures multiset(Roots(items)) <= multiset(items)
    decreases |items|
  {
    if items != [] {
      var last := items[|items| - 1];
      assert items == items[..|items| - 1] + [last];
      RootsSpec(items[..|items| - 1]);
    }
  }

  /** The entries whose parent is `id`, in list order. */
  function ChildrenOf(items: seq<Category>, id: string): seq<Category>
    decreases |items|
  {
    if items == [] then []
    else
      var last := items[|items| - 1];
      ChildrenOf(items[..|items| - 1], id) + (if IsChildOf(last, id) then [last] else [])
  }

  /** The children of `id` are exactly the entries whose parent is `id`, each
      as often as in the list. */
  lemma {:induction false} ChildrenOfSpec(items: seq<Category>, id: string)
    ensures forall c :: c in ChildrenOf(items, id) ==> c in items && IsChildOf(c, id)
    ensures forall c :: c in items && IsChildOf(c, id) ==> c in ChildrenOf(items, id)
    ensures multiset(ChildrenOf(items, id)) <= multiset(items)
    decreases |items|
  {
    if items != [] {
      var last := items[|items| - 1];
      assert items == items[..|items| - 1] + [last];
      ChildrenOfSpec(items[..|items| - 1], id);
    }
  }

  /** The `map` of placement nodes after both passes: one entry per id, holding
      that entry's children in list order. */
  predicate IsPlacement(items: seq<Category>, kidsOf: map<string, seq<Category>>) {
    kidsOf.Keys == Ids(items) && forall id :: id in kidsOf ==> kidsOf[id] == ChildrenOf(items, id)
  }

  function Placement(items: seq<Category>): (m: map<string, seq<Category>>)
    ensures IsPlacement(items, m)
  {
    map id | id in Ids(items) :: ChildrenOf(items, id)
  }

  lemma PrefixStep(items: seq<Category>, i: nat, id: string)
    requires i < |items|
    ensures Ids(items[..i + 1]) == Ids(items[..i]) + {items[i].id}
    ensures Roots(items[..i + 1]) == Roots(items[..i]) + (if IsRoot(items[i]) then [items[i]] else [])
    ensures ChildrenOf(items[..i + 1], id) == ChildrenOf(items[..i], id) + (if IsChildOf(items[i], id) then [items[i]] else [])
  {
    assert items[..i + 1] == items[..i] + [items[i]];
    assert items[..i + 1][..i] == items[..i];
  }

  lemma PushStep(items: seq<Category>, i: nat, before: map<string, seq<Category>>, after: map<string, seq<Category>>)
    requires i < |items|
    requires forall id :: id in before ==> before[id] == ChildrenOf(items[..i], id)
    requires var c := items[i];
             after == if HasParent(c.parent) && c.parent.id in before
                      then before[c.parent.id := before[c.parent.id] + [c]] else before
    ensures after.Keys == before.Keys
    ensures forall id :: id in after ==> after[id] == ChildrenOf(items[..i + 1], id)
  {
    forall id | id in after
      ensures after[id] == ChildrenOf(items[..i + 1], id)
    {
      PrefixStep(items, i, id);
    }
  }

  /** The two `forEach` passes of buildNestedListStructure.js: first a node per
      id, then each entry pushed into its parent's node, or into `nested` when
      its parent is falsy. An entry whose parent names no id is dropped. */
  method Place(items: seq<Category>) returns (nested: seq<Category>, kidsOf: map<string, seq<Category>>)
    ensures nested == Roots(items)
    ensures IsPlacement(items, kidsOf)
  {
    kidsOf := map[];
    var i := 0;
    while i < |items|
      invariant 0 <= i <= |items|
      invariant kidsOf.Keys == Ids(items[..i])
      invariant forall id :: id in kidsOf ==> kidsOf[id] == []
    {
      PrefixStep(items, i, "");
      kidsOf := kidsOf[items[i].id := []];
      i := i + 1;
    }
    assert items[..i] == items;
    forall id | id in kidsOf
      ensures kidsOf[id] == ChildrenOf(items[..0], id)
    {
    }
    nested := [];
    i := 0;
    while i < |items|
      invariant 0 <= i <= |items|
      invariant kidsOf.Keys == Ids(items)
      invariant forall id :: id in kidsOf ==> kidsOf[id] == ChildrenOf(items[..i], id)
      invariant nested == Roots(items[..i])
    {
      var item := items[i];
      ghost var before := kidsOf;
      if HasParent(item.parent) {
        if item.parent.id in kidsOf {
          kidsOf := kidsOf[item.parent.id := kidsOf[item.parent.id] + [item]];
        }
      } else {
        nested := nested + [item];
      }
      PrefixStep(items, i, "");
      PushStep(items, i, before, kidsOf);
      i := i + 1;
    }
    assert items[..i] == items;
  }

  // ---------------------------------------------------------------------------
  // Root chains.

  /** `path` starts at a root, and each later entry is a child of the one
      before it. */
  ghost predicate IsChain(items: seq<Category>, path: seq<Category>) {
    && |path| > 0
    && (forall k :: 0 <= k < |path| ==> path[k] in items)
    && IsRoot(path[0])
    && (forall k :: 0 < k < |path| ==> IsChildOf(path[k], path[k - 1].id))
  }

  lemma {:induction false} ChainNoRepeat(items: seq<Category>, path: seq<Category>, i: nat, j: nat)
    requires UniqueIds(items) && IsChain(items, path)
    requires i < j < |path|
    ensures path[i] != path[j]
    decreases i
  {
    if i == 0 {
      assert IsChildOf(path[j], path[j - 1].id);
    } else if path[i] == path[j] {
      assert IsChildOf(path[i], path[i - 1].id) && IsChildOf(path[j], path[j - 1].id);
      SameId(items, path[i - 1], path[j - 1]);
      ChainNoRepeat(items, path, i - 1, j - 1);
    }
  }

  /** With unique ids a chain visits an entry at most once ... */
  lemma ChainDistinct(items: seq<Category>, path: seq<Category>)
    requires UniqueIds(items) && IsChain(items, path)
    ensures Seqs.NoDuplicates(path)
  {
    forall i, j | 0 <= i < j < |path|
      ensures path[i] != path[j]
    {
      ChainNoRepeat(items, path, i, j);
    }
  }

  /** ... so it is never longer than the list. */
  lemma ChainBound(items: seq<Category>, path: seq<Category>)
    requires UniqueIds(items) && IsChain(items, path)
    ensures |path| <= |items|
  {
    ChainDistinct(items, path);
    Seqs.DistinctWithin(path, items);
  }

  /** Two chains that end at the same entry are the same chain: the parent of
      an entry is determined by its `parent` id. */
  lemma {:induction false} ChainUnique(items: seq<Category>, p: seq<Category>, q: seq<Category>)
    requires UniqueIds(items) && IsChain(items, p) && IsChain(items, q)
    requires p[|p| - 1] == q[|q| - 1]
    ensures p == q
    decreases |p|
  {
    if |p| > 1 && |q| > 1 {
      assert IsChildOf(p[|p| - 1], p[|p| - 2].id);
      assert IsChildOf(q[|q| - 1], q[|q| - 2].id);
      {
        SameId(items, p[|p| - 2], q[|q| - 2]);
        var p', q' := p[..|p| - 1], q[..|q| - 1];
        assert IsChain(items, p');
        assert IsChain(items, q');
        ChainUnique(items, p', q');
        assert p == p' + [p[|p| - 1]];
        assert q == q' + [q[|q| - 1]];
      }
    } else if |p| == 1 && |q| == 1 {
      assert p == [p[0]] && q == [q[0]];
    } else if |q| > 1 {
      ChainLastHasParent(items, q);
    } else {
      ChainLastHasParent(items, p);
    }
  }

  lemma ChainLastHasParent(items: seq<Category>, p: seq<Category>)
    requires IsChain(items, p) && |p| > 1
    ensures HasParent(p[|p| - 1].parent)
  {
    assert IsChildOf(p[|p| - 1], p[|p| - 2].id);
  }

  /** Dropping the last entry of a chain leaves the chain to its parent. */
  lemma ChainParent(items: seq<Category>, p: seq<Category>) returns (p': seq<Category>)
    requires IsChain(items, p) && |p| > 1
    ensures p' == p[..|p| - 1] && IsChain(items, p')
    ensures IsChildOf(p[|p| - 1], p'[|p'| - 1].id) && p'[|p'| - 1] in items
  {
    p' := p[..|p| - 1];
    assert IsChildOf(p[|p| - 1], p[|p| - 2].id);
  }

  lemma ChainExtend(items: seq<Category>, path: seq<Category>, c: Category)
    requires IsChain(items, path)
    requires c in items && IsChildOf(c, path[|path| - 1].id)
    ensures IsChain(items, path + [c])
  {
  }

  // ---------------------------------------------------------------------------
  // The recursive walk (`sortRecursive`).

  /** Whether the children of a node at `depth` are sorted and walked:
      `depth < maxDepth`, or always when there is no maximum. */
  predicate SortsAt(maxDepth: Option<int>, depth: int) {
    maxDepth.None? || depth < maxDepth.value
  }

  /** The children list of a node at `depth`: sorted by `order ?? 0` when the
      walk continues, the raw placement list otherwise. */
  function Level(maxDepth: Option<int>, depth: int, kids: seq<Category>): (r: seq<Category>)
    ensures multiset(r) == multiset(kids)
  {
    if SortsAt(maxDepth, depth) then Seqs.SortBy(kids, OrderKey) else kids
  }

  /** The node for the last entry of `path`, which sits at depth `|path| - 1`. */
  function Subtree(items: seq<Category>, kidsOf: map<string, seq<Category>>, path: seq<Category>,
                   maxDepth: Option<int>): Node
    requires UniqueIds(items) && IsPlacement(items, kidsOf) && IsChain(items, path)
    decreases |items| - |path|, 1
  {
    var top := path[|path| - 1];
    var kids := Level(maxDepth, |path| - 1, kidsOf[top.id]);
    Seqs.SortedByMembership(kids, kidsOf[top.id]);
    ChildrenOfSpec(items, top.id);
    ChainsBelow(items, path, kids);
    Node(top, Subtrees(items, kidsOf, path, kids, maxDepth))
  }

  lemma ChainsBelow(items: seq<Category>, path: seq<Category>, kids: seq<Category>)
    requires IsChain(items, path)
    requires forall c :: c in kids ==> c in items && IsChildOf(c, path[|path| - 1].id)
    ensures forall c :: c in kids ==> IsChain(items, path + [c])
  {
    forall c | c in kids
      ensures IsChain(items, path + [c])
    {
      ChainExtend(items, path, c);
    }
  }

  /** The nodes for the children `kids` of the last entry of `path`. */
  function Subtrees(items: seq<Category>, kidsOf: map<string, seq<Category>>, path: seq<Category>,
                    kids: seq<Category>, maxDepth: Option<int>): (r: seq<Node>)
    requires UniqueIds(items) && IsPlacement(items, kidsOf)
    requires forall c :: c in kids ==> IsChain(items, path + [c])
    ensures |r| == |kids|
    decreases |items| - |path|, 0
  {
    seq(|kids|, i requires 0 <= i < |kids| =>
      assert kids[i] in kids;
      ChainBound(items, path + [kids[i]]);
      Subtree(items, kidsOf, path + [kids[i]], maxDepth))
  }

  /** The returned forest: the roots sorted, each walked from depth 0. */
  function Forest(items: seq<Category>, maxDepth: Option<int>): seq<Node>
    requires UniqueIds(items)
  {
    var roots := Seqs.SortBy(Roots(items), OrderKey);
    Seqs.SortedByMembership(roots, Roots(items));
    RootsSpec(items);
    ChainsBelow1(items, roots);
    Subtrees(items, Placement(items), [], roots, maxDepth)
  }

  lemma ChainsBelow1(items: seq<Category>, roots: seq<Category>)
    requires forall c :: c in roots ==> c in items && IsRoot(c)
    ensures forall c :: c in roots ==> IsChain(items, [] + [c])
  {
    forall c | c in roots
      ensures IsChain(items, [] + [c])
    {
      assert [] + [c] == [c];
    }
  }

  /** buildNestedListStructure(flatList, maxDepth). */
  method BuildNestedListStructure(flatList: seq<Category>, maxDepth: int) returns (forest: seq<Node>)
    requires UniqueIds(flatList)
    ensures forest == Forest(flatList, Some(maxDepth))
  {
    var nested, kidsOf := Place(flatList);
    assert kidsOf == Placement(flatList);
    var roots := Seqs.SortBy(nested, OrderKey);
    Seqs.SortedByMembership(roots, nested);
    RootsSpec(flatList);
    ChainsBelow1(flatList, roots);
    forest := Subtrees(flatList, kidsOf, [], roots, Some(maxDepth));
  }

  /** The default depth limit of buildNestedListStructure. */
  const DefaultMaxDepth := 2

  // ---------------------------------------------------------------------------
  // The shape of the forest.

  function Items(ns: seq<Node>): (r: seq<Category>)
    ensures |r| == |ns|
    ensures forall i :: 0 <= i < |ns| ==> r[i] == ns[i].item
  {
    seq(|ns|, i requires 0 <= i < |ns| => ns[i].item)
  }

  /** `r` is what a stable sort by `order ?? 0` makes of `s`. */
  ghost predicate IsStableSortOf(r: seq<Category>, s: seq<Category>) {
    && multiset(r) == multiset(s)
    && Seqs.SortedBy(r, OrderKey)
    && forall k :: Seqs.WithKey(r, OrderKey, k) == Seqs.WithKey(s, OrderKey, k)
  }

  /** Every child node is an entry whose parent is the node above it. */
  ghost predicate Linked(n: Node) {
    forall c :: c in n.children ==> IsChildOf(c.item, n.item.id) && Linked(c)
  }

  /** Each node at `depth` holds all children of its entry: sorted stably when
      the walk sorts at that depth, in list order otherwise; and so on below. */
  ghost predicate Shaped(items: seq<Category>, n: Node, depth: int, maxDepth: Option<int>) {
    var expected := ChildrenOf(items, n.item.id);
    && (if SortsAt(maxDepth, depth) then IsStableSortOf(Items(n.children), expected)
        else Items(n.children) == expected)
    && forall c :: c in n.children ==> Shaped(items, c, depth + 1, maxDepth)
  }

  lemma SubtreesAt(items: seq<Category>, kidsOf: map<string, seq<Category>>, path: seq<Category>,
                   kids: seq<Category>, maxDepth: Option<int>, i: nat)
    requires UniqueIds(items) && IsPlacement(items, kidsOf)
    requires forall c :: c in kids ==> IsChain(items, path + [c])
    requires i < |kids|
    ensures IsChain(items, path + [kids[i]])
    ensures Subtrees(items, kidsOf, path, kids, maxDepth)[i] == Subtree(items, kidsOf, path + [kids[i]], maxDepth)
  {
    assert kids[i] in kids;
  }

  /** The nodes for `kids` are the node for the first child followed by the
      nodes for the others. */
  lemma SubtreesTail(items: seq<Category>, kidsOf: map<string, seq<Category>>, path: seq<Category>,
                     kids: seq<Category>, maxDepth: Option<int>)
    requires UniqueIds(items) && IsPlacement(items, kidsOf)
    requires forall c :: c in kids ==> IsChain(items, path + [c])
    requires |kids| > 0
    ensures IsChain(items, path + [kids[0]]) && forall c :: c in kids[1..] ==> IsChain(items, path + [c])
    ensures var ns := Subtrees(items, kidsOf, path, kids, maxDepth);
            && ns[0] == Subtree(items, kidsOf, path + [kids[0]], maxDepth)
            && ns[1..] == Subtrees(items, kidsOf, path, kids[1..], maxDepth)
  {
    var tail := kids[1..];
    assert kids[0] in kids;
    assert forall c :: c in tail ==> c in kids;
    var ns := Subtrees(items, kidsOf, path, kids, maxDepth);
    var rest := Subtrees(items, kidsOf, path, tail, maxDepth);
    forall j | 0 <= j < |rest|
      ensures ns[1..][j] == rest[j]
    {
      assert tail[j] == kids[j + 1];
      assert ns[1..][j] == ns[j + 1];
    }
  }


  lemma SubtreeParts(items: seq<Category>, kidsOf: map<string, seq<Category>>, path: seq<Category>, maxDepth: Option<int>)
    requires UniqueIds(items) && IsPlacement(items, kidsOf) && IsChain(items, path)
    ensures var t := Subtree(items, kidsOf, path, maxDepth);
            var kids := Level(maxDepth, |path| - 1, ChildrenOf(items, path[|path| - 1].id));
            && t.item == path[|path| - 1]
            && (forall c :: c in kids ==> IsChain(items, path + [c]))
            && (forall c :: c in kids ==> IsChildOf(c, path[|path| - 1].id))
            && t.children == Subtrees(items, kidsOf, path, kids, maxDepth)
  {
    var top := path[|path| - 1];
    var kids := Level(maxDepth, |path| - 1, ChildrenOf(items, top.id));
    ChildrenOfSpec(items, top.id);
    Seqs.SortedByMembership(kids, ChildrenOf(items, top.id));
    ChainsBelow(items, path, kids);
  }

  /** The node for a chain has the stated shape, and so does every node below. */
  lemma {:induction false} SubtreeShape(items: seq<Category>, kidsOf: map<string, seq<Category>>, path: seq<Category>,
                                        maxDepth: Option<int>)
    requires UniqueIds(items) && IsPlacement(items, kidsOf) && IsChain(items, path)
    ensures Shaped(items, Subtree(items, kidsOf, path, maxDepth), |path| - 1, maxDepth)
    decreases |items| - |path|, 1
  {
    var t := Subtree(items, kidsOf, path, maxDepth);
    var expected := ChildrenOf(items, path[|path| - 1].id);
    var kids := Level(maxDepth, |path| - 1, expected);
    SubtreeItems(items, kidsOf, path, maxDepth);
    forall c | c in t.children
      ensures Shaped(items, c, |path|, maxDepth)
    {
      var i :| 0 <= i < |t.children| && t.children[i] == c;
      ChildShape(items, kidsOf, path, maxDepth, i);
    }
    LevelShape(maxDepth, |path| - 1, expected);
    ShapedIntro(items, t, |path| - 1, maxDepth);
  }

  lemma SubtreeItems(items: seq<Category>, kidsOf: map<string, seq<Category>>, path: seq<Category>, maxDepth: Option<int>)
    requires UniqueIds(items) && IsPlacement(items, kidsOf) && IsChain(items, path)
    ensures var t := Subtree(items, kidsOf, path, maxDepth);
            && t.item == path[|path| - 1]
            && Items(t.children) == Level(maxDepth, |path| - 1, ChildrenOf(items, path[|path| - 1].id))
  {
    var t := Subtree(items, kidsOf, path, maxDepth);
    var kids := Level(maxDepth, |path| - 1, ChildrenOf(items, path[|path| - 1].id));
    SubtreeParts(items, kidsOf, path, maxDepth);
    var its := Items(t.children);
    assert |its| == |kids|;
    forall i | 0 <= i < |kids|
      ensures its[i] == kids[i]
    {
      SubtreesAt(items, kidsOf, path, kids, maxDepth, i);
      SubtreeTop(items, kidsOf, path + [kids[i]], maxDepth);
    }
  }

  lemma SubtreeTop(items: seq<Category>, kidsOf: map<string, seq<Category>>, path: seq<Category>, maxDepth: Option<int>)
    requires UniqueIds(items) && IsPlacement(items, kidsOf) && IsChain(items, path)
    ensures Subtree(items, kidsOf, path, maxDepth).item == path[|path| - 1]
  {
  }

  lemma ShapedIntro(items: seq<Category>, n: Node, depth: int, maxDepth: Option<int>)
    requires var expected := ChildrenOf(items, n.item.id);
             if SortsAt(maxDepth, depth) then IsStableSortOf(Items(n.children), expected)
             else Items(n.children) == expected
    requires forall c :: c in n.children ==> Shaped(items, c, depth + 1, maxDepth)
    ensures Shaped(items, n, depth, maxDepth)
  {
  }

  lemma LevelShape(maxDepth: Option<int>, depth: int, kids: seq<Category>)
    ensures SortsAt(maxDepth, depth) ==> IsStableSortOf(Level(maxDepth, depth, kids), kids)
    ensures !SortsAt(maxDepth, depth) ==> Level(maxDepth, depth, kids) == kids
  {
  }

  lemma {:induction false} ChildShape(items: seq<Category>, kidsOf: map<string, seq<Category>>, path: seq<Category>,
                                      maxDepth: Option<int>, i: nat)
    requires UniqueIds(items) && IsPlacement(items, kidsOf) && IsChain(items, path)
    requires i < |Subtree(items, kidsOf, path, maxDepth).children|
    ensures Shaped(items, Subtree(items, kidsOf, path, maxDepth).children[i], |path|, maxDepth)
    decreases |items| - |path|, 0
  {
    var kids := Level(maxDepth, |path| - 1, ChildrenOf(items, path[|path| - 1].id));
    SubtreeParts(items, kidsOf, path, maxDepth);
    SubtreesAt(items, kidsOf, path, kids, maxDepth, i);
    ChainBound(items, path + [kids[i]]);
    SubtreeShape(items, kidsOf, path + [kids[i]], maxDepth);
    assert |path + [kids[i]]| - 1 == |path|;
  }

  /** Every node below the node for a chain is a child of the node above it. */
  lemma {:induction false} SubtreeLinked(items: seq<Category>, kidsOf: map<string, seq<Category>>, path: seq<Category>,
                                         maxDepth: Option<int>)
    requires UniqueIds(items) && IsPlacement(items, kidsOf) && IsChain(items, path)
    ensures Linked(Subtree(items, kidsOf, path, maxDepth))
    decreases |items| - |path|
  {
    var t := Subtree(items, kidsOf, path, maxDepth);
    var top := path[|path| - 1];
    var kids := Level(maxDepth, |path| - 1, ChildrenOf(items, top.id));
    SubtreeParts(items, kidsOf, path, maxDepth);
    forall i | 0 <= i < |t.children|
      ensures IsChildOf(t.children[i].item, top.id) && Linked(t.children[i])
    {
      SubtreesAt(items, kidsOf, path, kids, maxDepth, i);
      ChainBound(items, path + [kids[i]]);
      SubtreeLinked(items, kidsOf, path + [kids[i]], maxDepth);
      assert kids[i] in kids;
    }
    forall c | c in t.children
      ensures IsChildOf(c.item, top.id) && Linked(c)
    {
      var i :| 0 <= i < |t.children| && t.children[i] == c;
    }
  }

  /** The forest at a glance: its top level is the stably sorted list of roots;
      every node is linked to the node above it and holds all children of its
      entry, sorted at the depths the walk sorts and in list order below. */
  lemma ForestShape(items: seq<Category>, maxDepth: Option<int>)
    requires UniqueIds(items)
    ensures IsStableSortOf(Items(Forest(items, maxDepth)), Roots(items))
    ensures forall n :: n in Forest(items, maxDepth) ==>
              IsRoot(n.item) && Linked(n) && Shaped(items, n, 0, maxDepth)
  {
    var f := Forest(items, maxDepth);
    var roots := Seqs.SortBy(Roots(items), OrderKey);
    forall i | 0 <= i < |f|
      ensures f[i].item == roots[i]
      ensures IsRoot(f[i].item) && Linked(f[i]) && Shaped(items, f[i], 0, maxDepth)
    {
      RootNode(items, maxDepth, i);
    }
    assert Items(f) == roots;
  }

  /** The `i`-th node of the forest is the node for the `i`-th sorted root. */
  lemma RootNode(items: seq<Category>, maxDepth: Option<int>, i: nat)
    requires UniqueIds(items) && i < |Forest(items, maxDepth)|
    ensures var f := Forest(items, maxDepth);
            && f[i].item == Seqs.SortBy(Roots(items), OrderKey)[i]
            && IsRoot(f[i].item) && Linked(f[i]) && Shaped(items, f[i], 0, maxDepth)
  {
    var roots := Seqs.SortBy(Roots(items), OrderKey);
    RootsSpec(items);
    Seqs.SortedByMembership(roots, Roots(items));
    ChainsBelow1(items, roots);
    SubtreesAt(items, Placement(items), [], roots, maxDepth, i);
    SubtreeShape(items, Placement(items), [] + [roots[i]], maxDepth);
    SubtreeLinked(items, Placement(items), [] + [roots[i]], maxDepth);
    SubtreeParts(items, Placement(items), [] + [roots[i]], maxDepth);
    assert roots[i] in roots;
  }

  // ---------------------------------------------------------------------------
  // Which entries the forest holds.

  /** The entries of a node and its descendants, in depth-first order. */
  function FlattenNode(n: Node): seq<Category> {
    [n.item] + Flatten(n.children)
  }

  function Flatten(ns: seq<Node>): seq<Category> {
    if |ns| == 0 then [] else FlattenNode(ns[0]) + Flatten(ns[1..])
  }

  lemma {:induction false} FlattenHas(ns: seq<Node>, i: nat)
    requires i < |ns|
    ensures forall x :: x in FlattenNode(ns[i]) ==> x in Flatten(ns)
    decreases i
  {
    if i > 0 {
      assert ns[1..][i - 1] == ns[i];
      FlattenHas(ns[1..], i - 1);
    }
  }

  /** `p` is a chain that extends `prefix` and ends at `x`. */
  ghost predicate ChainBelow(items: seq<Category>, p: seq<Category>, prefix: seq<Category>, x: Category) {
    IsChain(items, p) && |prefix| < |p| && p[..|prefix|] == prefix && p[|p| - 1] == x
  }

  /** An entry under the node for `path` is the end of `path` or of a longer
      chain that extends it. */
  lemma {:induction false} NodeChains(items: seq<Category>, kidsOf: map<string, seq<Category>>, path: seq<Category>,
                                      maxDepth: Option<int>)
    requires UniqueIds(items) && IsPlacement(items, kidsOf) && IsChain(items, path)
    ensures forall x :: x in FlattenNode(Subtree(items, kidsOf, path, maxDepth)) ==>
              x == path[|path| - 1] || exists p :: ChainBelow(items, p, path, x)
    decreases |items| - |path|, 1, 0
  {
    var kids := Level(maxDepth, |path| - 1, ChildrenOf(items, path[|path| - 1].id));
    var t := Subtree(items, kidsOf, path, maxDepth);
    SubtreeParts(items, kidsOf, path, maxDepth);
    ListChains(items, kidsOf, path, kids, maxDepth);
    assert FlattenNode(t) == [t.item] + Flatten(t.children);
    forall x | x in FlattenNode(t)
      ensures x == path[|path| - 1] || exists p :: ChainBelow(items, p, path, x)
    {
      if x != t.item {
        assert x in Flatten(t.children);
        var p :| ChainBelow(items, p, path, x) && p[|path|] in kids;
      }
    }
  }

  /** A chain below `path + [k]` is a chain below `path` through `k`. */
  lemma ChainThroughHead(items: seq<Category>, p: seq<Category>, path: seq<Category>, k: Category, x: Category)
    requires ChainBelow(items, p, path + [k], x)
    ensures ChainBelow(items, p, path, x) && p[|path|] == k
  {
    var q := path + [k];
    assert p[..|path|] == p[..|q|][..|path|];
    assert p[|path|] == p[..|q|][|path|];
  }

  /** An entry under the nodes for `kids` ends a chain through one of `kids`. */
  lemma {:induction false} ListChains(items: seq<Category>, kidsOf: map<string, seq<Category>>, path: seq<Category>,
                                      kids: seq<Category>, maxDepth: Option<int>)
    requires UniqueIds(items) && IsPlacement(items, kidsOf)
    requires forall c :: c in kids ==> IsChain(items, path + [c])
    ensures forall x :: x in Flatten(Subtrees(items, kidsOf, path, kids, maxDepth)) ==>
              exists p :: ChainBelow(items, p, path, x) && p[|path|] in kids
    decreases |items| - |path|, 0, |kids|
  {
    if |kids| > 0 {
      var k := kids[0];
      var q := path + [k];
      assert k in kids;
      ChainBound(items, q);
      var ns := Subtrees(items, kidsOf, path, kids, maxDepth);
      SubtreesTail(items, kidsOf, path, kids, maxDepth);
      NodeChains(items, kidsOf, q, maxDepth);
      ListChains(items, kidsOf, path, kids[1..], maxDepth);
      assert Flatten(ns) == FlattenNode(ns[0]) + Flatten(ns[1..]);
      forall x | x in Flatten(ns)
        ensures exists p :: ChainBelow(items, p, path, x) && p[|path|] in kids
      {
        if x in FlattenNode(ns[0]) {
          if x == k {
            assert ChainBelow(items, q, path, x) && q[|path|] == k;
          } else {
            var p :| ChainBelow(items, p, q, x);
            ChainThroughHead(items, p, path, k, x);
          }
        } else {
          assert x in Flatten(ns[1..]);
          var p :| ChainBelow(items, p, path, x) && p[|path|] in kids[1..];
        }
      }
    }
  }

  /** The end of every chain extending `path` is under the node for `path`. */
  lemma {:induction false} ChainEndUnder(items: seq<Category>, kidsOf: map<string, seq<Category>>, path: seq<Category>,
                                         c: seq<Category>, maxDepth: Option<int>)
    requires UniqueIds(items) && IsPlacement(items, kidsOf) && IsChain(items, path)
    requires IsChain(items, c) && |path| <= |c| && c[..|path|] == path
    ensures c[|c| - 1] in FlattenNode(Subtree(items, kidsOf, path, maxDepth))
    decreases |c| - |path|
  {
    if |path| == |c| {
      assert c == path;
    } else {
      var next := c[|path|];
      var kids := Level(maxDepth, |path| - 1, ChildrenOf(items, path[|path| - 1].id));
      var i := NextIndex(items, path, c, maxDepth);
      UnderChild(items, kidsOf, path, maxDepth, i);
      assert c[..|path| + 1] == path + [next];
      ChainEndUnder(items, kidsOf, path + [next], c, maxDepth);
    }
  }

  /** The entry after `path` on a chain is among the children `path` is
      walked with. */
  lemma NextIndex(items: seq<Category>, path: seq<Category>, c: seq<Category>, maxDepth: Option<int>) returns (i: nat)
    requires IsChain(items, path)
    requires IsChain(items, c) && |path| < |c| && c[..|path|] == path
    ensures var kids := Level(maxDepth, |path| - 1, ChildrenOf(items, path[|path| - 1].id));
            i < |kids| && kids[i] == c[|path|]
  {
    var top := path[|path| - 1];
    var next := c[|path|];
    var kids := Level(maxDepth, |path| - 1, ChildrenOf(items, top.id));
    assert IsChildOf(next, c[|path| - 1].id);
    assert c[|path| - 1] == path[|path| - 1];
    ChildrenOfSpec(items, top.id);
    Seqs.SortedByMembership(kids, ChildrenOf(items, top.id));
    assert next in kids;
    i :| 0 <= i < |kids| && kids[i] == next;
  }

  /** The entries under a child node are under its parent node. */
  lemma UnderChild(items: seq<Category>, kidsOf: map<string, seq<Category>>, path: seq<Category>,
                   maxDepth: Option<int>, i: nat)
    requires UniqueIds(items) && IsPlacement(items, kidsOf) && IsChain(items, path)
    requires i < |Level(maxDepth, |path| - 1, ChildrenOf(items, path[|path| - 1].id))|
    ensures var kids := Level(maxDepth, |path| - 1, ChildrenOf(items, path[|path| - 1].id));
            && IsChain(items, path + [kids[i]])
            && forall x :: x in FlattenNode(Subtree(items, kidsOf, path + [kids[i]], maxDepth)) ==>
                 x in FlattenNode(Subtree(items, kidsOf, path, maxDepth))
  {
    var kids := Level(maxDepth, |path| - 1, ChildrenOf(items, path[|path| - 1].id));
    var t := Subtree(items, kidsOf, path, maxDepth);
    SubtreeParts(items, kidsOf, path, maxDepth);
    SubtreesAt(items, kidsOf, path, kids, maxDepth, i);
    FlattenHas(t.children, i);
    assert FlattenNode(t) == [t.item] + Flatten(t.children);
  }

  lemma ForestParts(items: seq<Category>, maxDepth: Option<int>)
    requires UniqueIds(items)
    ensures var roots := Seqs.SortBy(Roots(items), OrderKey);
            && (forall c :: c in roots <==> c in items && IsRoot(c))
            && (forall c :: c in roots ==> IsChain(items, [] + [c]))
            && Forest(items, maxDepth) == Subtrees(items, Placement(items), [], roots, maxDepth)
  {
    var roots := Seqs.SortBy(Roots(items), OrderKey);
    RootsSpec(items);
    Seqs.SortedByMembership(roots, Roots(items));
    ChainsBelow1(items, roots);
  }

  /** Every entry in the forest is linked to a root by a chain of parents ... */
  lemma ForestChains(items: seq<Category>, maxDepth: Option<int>)
    requires UniqueIds(items)
    ensures forall x :: x in Flatten(Forest(items, maxDepth)) ==> exists p :: IsChain(items, p) && p[|p| - 1] == x
  {
    var roots := Seqs.SortBy(Roots(items), OrderKey);
    ForestParts(items, maxDepth);
    ListChains(items, Placement(items), [], roots, maxDepth);
    forall x | x in Flatten(Forest(items, maxDepth))
      ensures exists p :: IsChain(items, p) && p[|p| - 1] == x
    {
      var p :| ChainBelow(items, p, [], x) && p[0] in roots;
    }
  }

  /** ... and every entry so linked is in the forest. */
  lemma ChainInForest(items: seq<Category>, maxDepth: Option<int>, p: seq<Category>)
    requires UniqueIds(items) && IsChain(items, p)
    ensures p[|p| - 1] in Flatten(Forest(items, maxDepth))
  {
    var i := RootIndex(items, maxDepth, p[0]);
    assert p[..1] == [p[0]];
    ChainEndUnder(items, Placement(items), [p[0]], p, maxDepth);
    FlattenHas(Forest(items, maxDepth), i);
  }

  /** Each root has its node in the forest. */
  lemma RootIndex(items: seq<Category>, maxDepth: Option<int>, r: Category) returns (i: nat)
    requires UniqueIds(items) && r in items && IsRoot(r)
    ensures IsChain(items, [r])
    ensures i < |Forest(items, maxDepth)|
    ensures Forest(items, maxDepth)[i] == Subtree(items, Placement(items), [r], maxDepth)
  {
    var roots := Seqs.SortBy(Roots(items), OrderKey);
    ForestParts(items, maxDepth);
    assert r in roots;
    i :| 0 <= i < |roots| && roots[i] == r;
    SubtreesAt(items, Placement(items), [], roots, maxDepth, i);
    assert [] + [r] == [r];
  }

  /** The forest holds exactly the entries that a chain of parents links to a
      root. */
  lemma ForestMembers(items: seq<Category>, maxDepth: Option<int>)
    requires UniqueIds(items)
    ensures forall x :: x in Flatten(Forest(items, maxDepth)) <==> exists p :: IsChain(items, p) && p[|p| - 1] == x
  {
    ForestChains(items, maxDepth);
    forall p | IsChain(items, p)
      ensures p[|p| - 1] in Flatten(Forest(items, maxDepth))
    {
      ChainInForest(items, maxDepth, p);
    }
  }

  // ---------------------------------------------------------------------------
  // Each entry at most once; dropped entries.

  lemma LevelDistinct(items: seq<Category>, maxDepth: Option<int>, depth: int, id: string)
    requires UniqueIds(items)
    ensures Seqs.NoDuplicates(Level(maxDepth, depth, ChildrenOf(items, id)))
  {
    ChildrenOfSpec(items, id);
    UniqueIdsDistinct(items);
    Seqs.DistinctSubMultiset(Level(maxDepth, depth, ChildrenOf(items, id)), items);
  }

  lemma HeadNotInTail<T>(s: seq<T>)
    requires Seqs.NoDuplicates(s) && s != []
    ensures s[0] !in s[1..]
  {
  }

  lemma {:induction false} NodeDistinct(items: seq<Category>, kidsOf: map<string, seq<Category>>, path: seq<Category>,
                                        maxDepth: Option<int>)
    requires UniqueIds(items) && IsPlacement(items, kidsOf) && IsChain(items, path)
    ensures Seqs.NoDuplicates(FlattenNode(Subtree(items, kidsOf, path, maxDepth)))
    decreases |items| - |path|, 1, 0
  {
    var t := Subtree(items, kidsOf, path, maxDepth);
    var top := path[|path| - 1];
    var kids := Level(maxDepth, |path| - 1, ChildrenOf(items, top.id));
    SubtreeParts(items, kidsOf, path, maxDepth);
    LevelDistinct(items, maxDepth, |path| - 1, top.id);
    ListDistinct(items, kidsOf, path, kids, maxDepth);
    ListChains(items, kidsOf, path, kids, maxDepth);
    if top in Flatten(t.children) {
      var p :| ChainBelow(items, p, path, top) && p[|path|] in kids;
      ChainUnique(items, p, path);
    }
    Seqs.DistinctAppend([top], Flatten(t.children));
  }

  lemma {:induction false} ListDistinct(items: seq<Category>, kidsOf: map<string, seq<Category>>, path: seq<Category>,
                                        kids: seq<Category>, maxDepth: Option<int>)
    requires UniqueIds(items) && IsPlacement(items, kidsOf)
    requires forall c :: c in kids ==> IsChain(items, path + [c])
    requires Seqs.NoDuplicates(kids)
    ensures Seqs.NoDuplicates(Flatten(Subtrees(items, kidsOf, path, kids, maxDepth)))
    decreases |items| - |path|, 0, |kids|
  {
    if |kids| > 0 {
      var k := kids[0];
      var q := path + [k];
      assert k in kids;
      ChainBound(items, q);
      var ns := Subtrees(items, kidsOf, path, kids, maxDepth);
      SubtreesTail(items, kidsOf, path, kids, maxDepth);
      assert Flatten(ns) == FlattenNode(ns[0]) + Flatten(ns[1..]);
      NodeDistinct(items, kidsOf, q, maxDepth);
      ListDistinct(items, kidsOf, path, kids[1..], maxDepth);
      HeadTailDisjoint(items, kidsOf, path, kids, maxDepth);
      Seqs.DistinctAppend(FlattenNode(ns[0]), Flatten(ns[1..]));
    }
  }

  /** The subtree of the first child and those of the other children share
      no entry. */
  lemma HeadTailDisjoint(items: seq<Category>, kidsOf: map<string, seq<Category>>, path: seq<Category>,
                         kids: seq<Category>, maxDepth: Option<int>)
    requires UniqueIds(items) && IsPlacement(items, kidsOf)
    requires forall c :: c in kids ==> IsChain(items, path + [c])
    requires Seqs.NoDuplicates(kids) && |kids| > 0
    ensures IsChain(items, path + [kids[0]])
    ensures forall x :: x in FlattenNode(Subtree(items, kidsOf, path + [kids[0]], maxDepth)) ==>
              x !in Flatten(Subtrees(items, kidsOf, path, kids[1..], maxDepth))
  {
    var k := kids[0];
    var q := path + [k];
    assert k in kids;
    var head := FlattenNode(Subtree(items, kidsOf, q, maxDepth));
    var tail := Flatten(Subtrees(items, kidsOf, path, kids[1..], maxDepth));
    NodeChains(items, kidsOf, q, maxDepth);
    ListChains(items, kidsOf, path, kids[1..], maxDepth);
    HeadNotInTail(kids);
    forall x | x in head
      ensures x !in tail
    {
      if x in tail {
        var p' :| ChainBelow(items, p', path, x) && p'[|path|] in kids[1..];
        if x == k {
          ChainUnique(items, q, p');
        } else {
          var p :| ChainBelow(items, p, q, x);
          assert p[|path|] == p[..|q|][|path|];
          ChainUnique(items, p, p');
        }
      }
    }
  }

  /** No entry appears twice in the forest. */
  lemma ForestDistinct(items: seq<Category>, maxDepth: Option<int>)
    requires UniqueIds(items)
    ensures Seqs.NoDuplicates(Flatten(Forest(items, maxDepth)))
  {
    var roots := Seqs.SortBy(Roots(items), OrderKey);
    ForestParts(items, maxDepth);
    RootsSpec(items);
    UniqueIdsDistinct(items);
    Seqs.DistinctSubMultiset(roots, items);
    ListDistinct(items, Placement(items), [], roots, maxDepth);
  }

  /** When every entry is linked to a root, the forest holds each entry exactly
      once. */
  lemma ForestPermutation(items: seq<Category>, maxDepth: Option<int>)
    requires UniqueIds(items)
    requires forall x :: x in items ==> exists p :: IsChain(items, p) && p[|p| - 1] == x
    ensures multiset(Flatten(Forest(items, maxDepth))) == multiset(items)
  {
    var flat := Flatten(Forest(items, maxDepth));
    ForestMembers(items, maxDepth);
    ForestDistinct(items, maxDepth);
    UniqueIdsDistinct(items);
    forall x ensures x in flat <==> x in items {
      if x in flat {
        var p :| IsChain(items, p) && p[|p| - 1] == x;
      }
    }
    Seqs.DistinctSameMembers(flat, items);
  }

  lemma ChainParentPresent(items: seq<Category>, p: seq<Category>)
    requires IsChain(items, p) && HasParent(p[|p| - 1].parent)
    ensures p[|p| - 1].parent.id in Ids(items)
  {
    assert IsChildOf(p[|p| - 1], p[|p| - 2].id);
    assert p[|p| - 2] in items;
  }

  /** An entry whose truthy parent names no entry of the list is left out of
      the forest (`map[item.parent]?.children.push` does nothing). */
  lemma DanglingDropped(items: seq<Category>, maxDepth: Option<int>, x: Category)
    requires UniqueIds(items)
    requires HasParent(x.parent) && x.parent.id !in Ids(items)
    ensures x !in Flatten(Forest(items, maxDepth))
  {
    ForestChains(items, maxDepth);
    if x in Flatten(Forest(items, maxDepth)) {
      var p :| IsChain(items, p) && p[|p| - 1] == x;
      ChainParentPresent(items, p);
    }
  }

  /** Every entry of `group` has a truthy parent naming another entry of
      `group`: a cycle of parents (an entry that is its own parent, say) and
      everything hanging below one. */
  ghost predicate ParentClosed(items: seq<Category>, group: seq<Category>) {
    forall c :: c in group ==>
      c in items && HasParent(c.parent) && c.parent.id in Ids(group)
  }

  lemma {:induction false} ChainAvoidsClosed(items: seq<Category>, group: seq<Category>, p: seq<Category>)
    requires UniqueIds(items) && ParentClosed(items, group) && IsChain(items, p)
    ensures p[|p| - 1] !in group
    decreases |p|
  {
    var x := p[|p| - 1];
    if |p| > 1 && x in group {
      var d :| d in group && d.id == x.parent.id;
      var p' := ChainParent(items, p);
      SameId(items, p'[|p'| - 1], d);
      ChainAvoidsClosed(items, group, p');
    }
  }

  /** An entry on a cycle of parents, or below one, is left out of the
      forest. */
  lemma CycleDropped(items: seq<Category>, maxDepth: Option<int>, group: seq<Category>, x: Category)
    requires UniqueIds(items) && ParentClosed(items, group) && x in group
    ensures x !in Flatten(Forest(items, maxDepth))
  {
    ForestChains(items, maxDepth);
    if x in Flatten(Forest(items, maxDepth)) {
      var p :| IsChain(items, p) && p[|p| - 1] == x;
      ChainAvoidsClosed(items, group, p);
    }
  }

  // ---------------------------------------------------------------------------
  // Well-formed taxonomies.

  /** `x` is linked to a root by a chain of parents. */
  ghost predicate Grounded(items: seq<Category>, x: Category) {
    exists p :: IsChain(items, p) && p[|p| - 1] == x
  }

  /** Every truthy parent names an entry of the list. */
  predicate ParentsResolve(items: seq<Category>) {
    forall c :: c in items && HasParent(c.parent) ==> c.parent.id in Ids(items)
  }

  /** No cycle of parents: no non-empty group of entries holds the parent of
      each of its members. */
  ghost predicate Acyclic(items: seq<Category>) {
    forall group :: ParentClosed(items, group) ==> group == []
  }

  ghost function Ungrounded(items: seq<Category>, s: seq<Category>): (r: seq<Category>)
    ensures forall c :: c in r <==> c in s && !Grounded(items, c)
  {
    if s == [] then [] else (if Grounded(items, s[0]) then [] else [s[0]]) + Ungrounded(items, s[1..])
  }

  /** In a well-formed taxonomy every entry is linked to a root. */
  lemma WellFormedGrounded(items: seq<Category>)
    requires UniqueIds(items) && ParentsResolve(items) && Acyclic(items)
    ensures forall x :: x in items ==> Grounded(items, x)
  {
    var group := Ungrounded(items, items);
    forall c | c in group
      ensures c in items && HasParent(c.parent) && c.parent.id in Ids(group)
    {
      if !HasParent(c.parent) {
        assert IsChain(items, [c]);
      }
      var d :| d in items && d.id == c.parent.id;
      if Grounded(items, d) {
        var p :| IsChain(items, p) && p[|p| - 1] == d;
        ChainExtend(items, p, c);
      }
      assert d in group;
    }
    assert ParentClosed(items, group);
    assert group == [];
    forall x | x in items
      ensures Grounded(items, x)
    {
      assert x !in group;
    }
  }

  /** With unique ids, resolving parents and no cycles, the depth-first
      flatten of the forest holds every entry exactly once. */
  lemma ForestExactlyOnce(items: seq<Category>, maxDepth: Option<int>)
    requires UniqueIds(items) && ParentsResolve(items) && Acyclic(items)
    ensures multiset(Flatten(Forest(items, maxDepth))) == multiset(items)
  {
    WellFormedGrounded(items);
    ForestPermutation(items, maxDepth);
  }
}
