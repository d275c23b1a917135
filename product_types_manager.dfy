/** The admin screen for product types (src/app/admin/ProductTypesManager.jsx):
    a two-level tree built with strict `===` on `parent`, and the local list
    updates that follow a successful remote add, update or delete. Product
    types are plain documents. */
module ProductTypesManager {
  import opened Wrappers
  import opened Js
  import Seqs
  import FirebaseUtils
  import opened DocLists

  /** `{ ...t, children }`: a product type with its child nodes. */
  datatype TypeNode = TypeNode(item: Doc, children: seq<TypeNode>)

  /** `t.parent === parentId`. */
  predicate ParentIs(t: Doc, parentId: Value) {
    StrictEq(Get(t, "parent"), parentId)
  }

  /** `productTypes.filter((t) => t.parent === parentId)`. */
  function WithParent(types: seq<Doc>, parentId: Value): (r: seq<Doc>)
    ensures forall t :: t in r <==> t in types && ParentIs(t, parentId)
  {
    Seqs.Filter(types, t => ParentIs(t, parentId))
  }

  function Items(ns: seq<TypeNode>): (r: seq<Doc>)
    ensures |r| == |ns|
    ensures forall i :: 0 <= i < |ns| ==> r[i] == ns[i].item
  {
    seq(|ns|, i requires 0 <= i < |ns| => ns[i].item)
  }

  /** A parameter with the default `null`: an `undefined` argument gives way
      to it. */
  function OrNull(v: Value): Value {
    if v == Undefined then Null else v
  }

  /** `buildNestedStructure(parentId, depth)`: past depth 1 it returns `[]`,
      which bounds the recursion whatever the parent links are. Each child
      call passes `t.id`, so below a type without an id the default `null`
      applies and the root types are listed again. */
  function Build(types: seq<Doc>, parentId: Value, depth: nat): (r: seq<TypeNode>)
    ensures depth > 1 ==> r == []
    ensures depth <= 1 ==> Items(r) == WithParent(types, OrNull(parentId))
    decreases 2 - depth
  {
    if depth > 1 then []
    else
      var kids := WithParent(types, OrNull(parentId));
      var r := seq(|kids|, i requires 0 <= i < |kids| => TypeNode(kids[i], Build(types, Get(kids[i], "id"), depth + 1)));
      assert Items(r) == kids;
      r
  }

  /** The tree the screen renders: `buildNestedStructure()`. */
  function Forest(types: seq<Doc>): seq<TypeNode> {
    Build(types, Undefined, 0)
  }

  /** The roots are the types whose `parent` is exactly `null`, in list order;
      below each root are the types whose `parent` is exactly its id, in list
      order; and those have no children. */
  lemma ForestShape(types: seq<Doc>)
    ensures Items(Forest(types)) == WithParent(types, Null)
    ensures forall n :: n in Forest(types) ==>
              && Items(n.children) == WithParent(types, OrNull(Get(n.item, "id")))
              && forall c :: c in n.children ==> c.children == []
  {
    forall n | n in Forest(types)
      ensures Items(n.children) == WithParent(types, OrNull(Get(n.item, "id")))
      ensures forall c :: c in n.children ==> c.children == []
    {
      var i :| 0 <= i < |Forest(types)| && Forest(types)[i] == n;
      assert n.children == Build(types, Get(n.item, "id"), 1);
      forall c | c in n.children
        ensures c.children == []
      {
        var j :| 0 <= j < |n.children| && n.children[j] == c;
      }
    }
  }

  /** Below a root without an id the root types appear again, one level down. */
  lemma NoIdListsRoots(types: seq<Doc>, n: TypeNode)
    requires n in Forest(types) && Get(n.item, "id") == Undefined
    ensures Items(n.children) == Items(Forest(types))
  {
    ForestShape(types);
  }

  /** The types the tree shows, depth first. */
  function Flatten(ns: seq<TypeNode>): seq<Doc>
    decreases ns
  {
    if ns == [] then [] else [ns[0].item] + Flatten(ns[0].children) + Flatten(ns[1..])
  }

  lemma {:induction false} FlattenMember(ns: seq<TypeNode>, x: Doc)
    ensures x in Flatten(ns) <==> exists n :: n in ns && (x == n.item || x in Flatten(n.children))
    decreases ns
  {
    if ns != [] {
      FlattenMember(ns[1..], x);
      assert ns == [ns[0]] + ns[1..];
    }
  }

  /** Nodes without children flatten to their items. */
  lemma {:induction false} FlattenLeaves(ns: seq<TypeNode>)
    requires forall c :: c in ns ==> c.children == []
    ensures Flatten(ns) == Items(ns)
    decreases ns
  {
    if ns != [] {
      FlattenLeaves(ns[1..]);
      assert Items(ns) == [ns[0].item] + Items(ns[1..]);
    }
  }

  /** Below a root sit exactly the types whose `parent` is its id. */
  lemma RootChildren(types: seq<Doc>, n: TypeNode, x: Doc)
    requires n in Forest(types)
    ensures x in Flatten(n.children) <==> x in types && ParentIs(x, OrNull(Get(n.item, "id")))
  {
    ForestShape(types);
    FlattenLeaves(n.children);
  }

  /** A root node holds a type whose `parent` is exactly `null`. */
  lemma RootNode(types: seq<Doc>, r: Doc) returns (n: TypeNode)
    requires r in types && ParentIs(r, Null)
    ensures n in Forest(types) && n.item == r
  {
    var f := Forest(types);
    ForestShape(types);
    assert r in Items(f);
    var i :| 0 <= i < |f| && f[i].item == r;
    n := f[i];
  }

  lemma ShownIsPlaced(types: seq<Doc>, x: Doc)
    requires x in Flatten(Forest(types))
    ensures x in types
    ensures ParentIs(x, Null) || exists r :: r in types && ParentIs(r, Null) && ParentIs(x, OrNull(Get(r, "id")))
  {
    var f := Forest(types);
    ForestShape(types);
    FlattenMember(f, x);
    var n :| n in f && (x == n.item || x in Flatten(n.children));
    assert n.item in Items(f);
    if x != n.item {
      RootChildren(types, n, x);
    }
  }

  lemma PlacedIsShown(types: seq<Doc>, x: Doc)
    requires x in types
    requires ParentIs(x, Null) || exists r :: r in types && ParentIs(r, Null) && ParentIs(x, OrNull(Get(r, "id")))
    ensures x in Flatten(Forest(types))
  {
    var f := Forest(types);
    FlattenMember(f, x);
    if ParentIs(x, Null) {
      var n := RootNode(types, x);
    } else {
      var r :| r in types && ParentIs(r, Null) && ParentIs(x, OrNull(Get(r, "id")));
      var n := RootNode(types, r);
      RootChildren(types, n, x);
    }
  }

  /** A type is shown where its `parent` is exactly `null`, or exactly the id
      of a type whose `parent` is `null`; one whose `parent` is missing, `""`,
      dangling or deeper is never shown. */
  lemma ForestMembers(types: seq<Doc>, x: Doc)
    ensures x in Flatten(Forest(types)) <==>
      x in types &&
      (ParentIs(x, Null) || exists r :: r in types && ParentIs(r, Null) && ParentIs(x, OrNull(Get(r, "id"))))
  {
    if x in Flatten(Forest(types)) {
      ShownIsPlaced(types, x);
    }
    if x in types && (ParentIs(x, Null) || exists r :: r in types && ParentIs(r, Null) && ParentIs(x, OrNull(Get(r, "id")))) {
      PlacedIsShown(types, x);
    }
  }

  // ---------------------------------------------------------------------------
  // Local list updates after the remote call resolves

  /** `handleAddType(name, parent = null)`: `{ name, parent }` is written and
      the record `addDocument` returns is appended. `parent` is `Undefined`
      when the argument is omitted. A rejected write leaves the list as it was
      and rethrows. */
  function HandleAddType(prev: seq<Doc>, name: string, parent: Value, remote: Result<string, string>): (r: Result<seq<Doc>, string>)
    ensures remote.Err? ==> r == Err(remote.error)
    ensures remote.Ok? ==> r.Ok? && |r.value| == |prev| + 1 && r.value[..|prev|] == prev
    ensures remote.Ok? ==>
      var added := r.value[|prev|];
      && added.Keys == {"id", "name", "parent"}
      && added["id"] == Str(remote.value)
      && added["name"] == Str(name)
      && added["parent"] == (if parent == Undefined then Null else parent)
  {
    var newType := map["name" := Str(name), "parent" := OrNull(parent)];
    match FirebaseUtils.AddDocument("ProductTypes", Some(newType), remote)
    case Err(e) => Err(e)
    case Ok(addedType) => Ok(prev + [addedType])
  }

  /** `handleUpdateType(id, updatedData)`. */
  function HandleUpdateType(prev: seq<Doc>, id: string, updatedData: Doc, failure: Option<string>): (r: Result<seq<Doc>, string>)
    ensures r.Ok? <==> id != "" && failure.None?
    ensures r.Ok? ==> r.value == MergeInto(prev, Str(id), updatedData)
  {
    match FirebaseUtils.UpdateDocument("ProductTypes", id, Some(updatedData), failure)
    case Err(e) => Err(e)
    case Ok(_) => Ok(MergeInto(prev, Str(id), updatedData))
  }

  /** Kept by the delete of `id`: neither the type itself nor a direct child. */
  predicate Survives(t: Doc, id: Value) {
    !StrictEq(Get(t, "id"), id) && !ParentIs(t, id)
  }

  /** `prev.filter((t) => t.id !== id && t.parent !== id)`. */
  function DropType(prev: seq<Doc>, id: Value): (r: seq<Doc>)
    ensures forall t :: t in r <==> t in prev && Survives(t, id)
    ensures Seqs.IsSubsequence(r, prev)
  {
    Seqs.FilterIsSubsequence(prev, t => Survives(t, id));
    Seqs.Filter(prev, t => Survives(t, id))
  }

  /** `handleDeleteType(id)`: the deletes of the direct children, in turn,
      then the delete of the type itself, then the local filter.
      `childFailure` is the first error a child's delete throws, if any;
      `failure` is the remote outcome of the type's own delete, which first
      passes `deleteDocument`'s guard on the id. */
  function HandleDeleteType(prev: seq<Doc>, id: string, childFailure: Option<string>, failure: Option<string>): (r: Result<seq<Doc>, string>)
    ensures childFailure.Some? ==> r == Err(childFailure.value)
    ensures childFailure.None? && id == "" ==> r == Err(FirebaseUtils.MissingDeleteArgs)
    ensures childFailure.None? && id != "" && failure.Some? ==> r == Err(failure.value)
    ensures r.Ok? <==> childFailure.None? && id != "" && failure.None?
    ensures r.Ok? ==> r.value == DropType(prev, Str(id))
  {
    match childFailure
    case Some(e) => Err(e)
    case None =>
      match FirebaseUtils.DeleteDocument("ProductTypes", id, failure)
      case Err(e) => Err(e)
      case Ok(_) => Ok(DropType(prev, Str(id)))
  }

  /** "Add Subcategory" is rendered for a node at depth 0 only. */
  predicate OffersSubcategory(expanded: bool, depth: nat) {
    expanded && depth < 1
  }

  // ---------------------------------------------------------------------------
  // The two-level invariant

  /** Every type is a root or a direct child of a root. */
  ghost predicate TwoLevels(types: seq<Doc>) {
    forall t :: t in types ==>
      ParentIs(t, Null) || exists r :: r in types && ParentIs(r, Null) && ParentIs(t, OrNull(Get(r, "id")))
  }

  /** Under the two-level invariant the tree shows every type. */
  lemma TwoLevelsAllShown(types: seq<Doc>)
    requires TwoLevels(types)
    ensures forall t :: t in types ==> t in Flatten(Forest(types))
  {
    forall t | t in types
      ensures t in Flatten(Forest(types))
    {
      ForestMembers(types, t);
    }
  }

  /** The screen adds a type at the top (no parent argument) or under a node
      it offers "Add Subcategory" for, which is a root. */
  ghost predicate OfferedParent(types: seq<Doc>, parent: Value) {
    parent == Undefined || exists r :: r in types && ParentIs(r, Null) && StrictEq(parent, Get(r, "id"))
  }

  /** Types created through the screen never go deeper than two levels. */
  lemma AddKeepsTwoLevels(prev: seq<Doc>, name: string, parent: Value, remote: Result<string, string>)
    requires TwoLevels(prev) && OfferedParent(prev, parent)
    requires HandleAddType(prev, name, parent, remote).Ok?
    ensures TwoLevels(HandleAddType(prev, name, parent, remote).value)
  {
    var next := HandleAddType(prev, name, parent, remote).value;
    assert next == prev + [next[|prev|]];
    var added := next[|prev|];
    forall t | t in next
      ensures ParentIs(t, Null) || exists r :: r in next && ParentIs(r, Null) && ParentIs(t, OrNull(Get(r, "id")))
    {
      if t in prev {
        if !ParentIs(t, Null) {
          var r :| r in prev && ParentIs(r, Null) && ParentIs(t, OrNull(Get(r, "id")));
          assert r in next;
        }
      } else {
        assert t == added;
        if parent != Undefined {
          var r :| r in prev && ParentIs(r, Null) && StrictEq(parent, Get(r, "id"));
          assert Get(t, "parent") == parent;
          assert r in next;
        }
      }
    }
  }

  /** Renaming keeps every `id` and `parent`, so it keeps the invariant. */
  lemma RenameKeepsTwoLevels(prev: seq<Doc>, id: Value, name: string)
    requires TwoLevels(prev)
    ensures TwoLevels(MergeInto(prev, id, map["name" := Str(name)]))
  {
    var next := MergeInto(prev, id, map["name" := Str(name)]);
    forall i | 0 <= i < |prev|
      ensures Get(next[i], "id") == Get(prev[i], "id") && Get(next[i], "parent") == Get(prev[i], "parent")
    {
      if StrictEq(Get(prev[i], "id"), id) {
        assert "id" !in map["name" := Str(name)] && "parent" !in map["name" := Str(name)];
      }
    }
    SameLinksKeepTwoLevels(prev, next);
  }

  /** Two lists whose entries agree on `id` and `parent`, position by
      position, satisfy the invariant together. */
  lemma SameLinksKeepTwoLevels(prev: seq<Doc>, next: seq<Doc>)
    requires TwoLevels(prev) && |next| == |prev|
    requires forall i :: 0 <= i < |prev| ==>
               Get(next[i], "id") == Get(prev[i], "id") && Get(next[i], "parent") == Get(prev[i], "parent")
    ensures TwoLevels(next)
  {
    forall t | t in next
      ensures ParentIs(t, Null) || exists r :: r in next && ParentIs(r, Null) && ParentIs(t, OrNull(Get(r, "id")))
    {
      var i :| 0 <= i < |next| && next[i] == t;
      assert prev[i] in prev;
      if !ParentIs(prev[i], Null) {
        var r :| r in prev && ParentIs(r, Null) && ParentIs(prev[i], OrNull(Get(r, "id")));
        var j :| 0 <= j < |prev| && prev[j] == r;
        assert next[j] in next;
      }
    }
  }

  /** Deleting a type with its direct children keeps the invariant: a root
      that survives keeps all its children, and a child's root survives. */
  lemma DeleteKeepsTwoLevels(prev: seq<Doc>, id: string)
    requires TwoLevels(prev)
    ensures TwoLevels(DropType(prev, Str(id)))
  {
    var next := DropType(prev, Str(id));
    forall t | t in next
      ensures ParentIs(t, Null) || exists r :: r in next && ParentIs(r, Null) && ParentIs(t, OrNull(Get(r, "id")))
    {
      if !ParentIs(t, Null) {
        var r :| r in prev && ParentIs(r, Null) && ParentIs(t, OrNull(Get(r, "id")));
        assert Survives(t, Str(id));
        assert Survives(r, Str(id));
      }
    }
  }
}
