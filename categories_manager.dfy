/** The admin screen for the device taxonomy
    (src/app/admin/CategoriesManager.jsx): the expand flags, the record written
    for a new entry, the unbounded tree builder, and drag-and-drop reordering
    within a sibling group. */
module CategoriesManager {
  import opened Wrappers
  import opened Taxonomy
  import Seqs
  import NestedList

  // ---------------------------------------------------------------------------
  // toggleExpand

  /** `!!expanded[id]`: an id never toggled reads as collapsed. */
  predicate IsExpanded(expanded: map<string, bool>, id: string) {
    id in expanded && expanded[id]
  }

  function ToggleExpand(expanded: map<string, bool>, id: string): (r: map<string, bool>)
    ensures IsExpanded(r, id) == !IsExpanded(expanded, id)
    ensures forall k :: k != id ==> IsExpanded(r, k) == IsExpanded(expanded, k)
  {
    expanded[id := !IsExpanded(expanded, id)]
  }

  /** Toggling the same id twice restores every flag. */
  lemma ToggleExpandTwice(expanded: map<string, bool>, id: string)
    ensures forall k :: IsExpanded(ToggleExpand(ToggleExpand(expanded, id), id), k) == IsExpanded(expanded, k)
  {
  }

  // ---------------------------------------------------------------------------
  // handleAddEntry

  /** The orders of a sibling group are 0..k-1, each used once. */
  predicate DenseOrders(group: seq<Category>) {
    && (forall i :: 0 <= i < |group| ==> group[i].order.Some? && 0 <= group[i].order.value < |group|)
    && (forall i, j :: 0 <= i < j < |group| ==> group[i].order != group[j].order)
  }

  /** The entry `handleAddEntry(name, type, parent)` hands to `addCategory`:
      `slugLower` is the npm `slugify(name, { lower: true })`. */
  function NewEntry(categories: seq<Category>, name: string, kind: string, parent: string,
                    slugLower: string -> string): (e: Category)
    ensures e.id == slugLower(name) && e.name == name && e.kind == kind
    ensures e.order == Some(|Siblings(categories, parent)|)
    ensures ParentKey(e.parent) == parent
  {
    Category(slugLower(name), name, kind, Ref(parent), Some(|Siblings(categories, parent)|))
  }

  /** The new entry goes last in its sibling group, and a group numbered
      0..k-1 stays numbered 0..k once it is appended. */
  lemma NewEntryKeepsDense(categories: seq<Category>, name: string, kind: string, parent: string,
                           slugLower: string -> string, stored: Category)
    requires stored == NewEntry(categories, name, kind, parent, slugLower).(id := stored.id)
    ensures Siblings(categories + [stored], parent) == Siblings(categories, parent) + [stored]
    ensures DenseOrders(Siblings(categories, parent)) ==> DenseOrders(Siblings(categories + [stored], parent))
  {
    SiblingsAppend(categories, [stored], parent);
    assert Siblings([stored], parent) == [stored] by {
      assert [stored][1..] == [];
    }
  }

  // ---------------------------------------------------------------------------
  // buildNestedStructure

  /** `buildNestedStructure` is the placement of buildNestedListStructure
      with every level sorted. */
  method BuildNestedStructure(categories: seq<Category>) returns (forest: seq<NestedList.Node>)
    requires UniqueIds(categories)
    ensures forest == NestedList.Forest(categories, None)
  {
    var nested, kidsOf := NestedList.Place(categories);
    assert kidsOf == NestedList.Placement(categories);
    var roots := Seqs.SortBy(nested, OrderKey);
    Seqs.SortedByMembership(roots, nested);
    NestedList.RootsSpec(categories);
    NestedList.ChainsBelow1(categories, roots);
    forest := NestedList.Subtrees(categories, kidsOf, [], roots, None);
  }

  /** Every node's children are all children of its entry, stably sorted. */
  ghost predicate SortedEverywhere(categories: seq<Category>, n: NestedList.Node) {
    && NestedList.IsStableSortOf(NestedList.Items(n.children), NestedList.ChildrenOf(categories, n.item.id))
    && forall c :: c in n.children ==> SortedEverywhere(categories, c)
  }

  lemma {:induction false} ShapedSortedEverywhere(categories: seq<Category>, n: NestedList.Node, depth: int)
    requires NestedList.Shaped(categories, n, depth, None)
    ensures SortedEverywhere(categories, n)
    decreases n
  {
    forall c | c in n.children
      ensures SortedEverywhere(categories, c)
    {
      ShapedSortedEverywhere(categories, c, depth + 1);
    }
  }

  /** With no depth limit every level of the tree is stably sorted by
      `order ?? 0`, the top level included. */
  lemma EveryLevelSorted(categories: seq<Category>)
    requires UniqueIds(categories)
    ensures NestedList.IsStableSortOf(NestedList.Items(NestedList.Forest(categories, None)), NestedList.Roots(categories))
    ensures forall n :: n in NestedList.Forest(categories, None) ==> SortedEverywhere(categories, n)
  {
    NestedList.ForestShape(categories, None);
    forall n | n in NestedList.Forest(categories, None)
      ensures SortedEverywhere(categories, n)
    {
      ShapedSortedEverywhere(categories, n, 0);
    }
  }

  // ---------------------------------------------------------------------------
  // buildNestedStructure as written, where two entries share an id

  /** The ids whose nodes the second pass of `buildNestedStructure` pushes into
      the node of `id`: one per entry whose parent is `id`, in list order, and
      none when no entry has that id (`map[cat.parent]?`). Each pushed value is
      `map[cat.id]`, the node made for the last entry with that id, so where
      ids repeat a node is named by its id alone. */
  function PushedIds(categories: seq<Category>, id: string): (r: seq<string>)
    ensures forall x :: x in r <==>
      id in Ids(categories) && exists c :: c in categories && IsChildOf(c, id) && c.id == x
  {
    var kids := NestedList.ChildrenOf(categories, id);
    NestedList.ChildrenOfSpec(categories, id);
    if id in Ids(categories) then IdsOf(kids) else []
  }

  function IdsOf(entries: seq<Category>): (r: seq<string>)
    ensures forall x :: x in r <==> exists c :: c in entries && c.id == x
  {
    var r := seq(|entries|, i requires 0 <= i < |entries| => entries[i].id);
    assert forall i :: 0 <= i < |entries| ==> r[i] == entries[i].id;
    r
  }

  /** One branch `sortRecursive` follows: the node of a root entry, then at
      each step a node pushed into the node before. */
  predicate IsDescent(categories: seq<Category>, walk: seq<string>) {
    && |walk| > 0
    && (exists c :: c in categories && IsRoot(c) && c.id == walk[0])
    && forall i :: 0 <= i < |walk| - 1 ==> walk[i + 1] in PushedIds(categories, walk[i])
  }

  /** An entry whose id is also its own parent's id has its node pushed into
      that same node. */
  lemma SelfPushed(categories: seq<Category>, c: Category)
    requires c in categories && IsChildOf(c, c.id)
    ensures c.id in PushedIds(categories, c.id)
  {
  }

  /** Adding a brand "Apple", a series "iPad" under it and then a model
      "iPad" under that series gives the model the series' slug, so its node
      lands among its own children and `sortRecursive` finds branches of
      every depth: the recursion goes on until the call stack overflows with a
      `RangeError`. */
  lemma SameSlugUnderItself(slugLower: string -> string, n: nat)
    requires slugLower("Apple") == "apple" && slugLower("iPad") == "ipad"
    ensures var brand := NewEntry([], "Apple", "brand", "", slugLower);
            var series := NewEntry([brand], "iPad", "series", "apple", slugLower);
            var model := NewEntry([brand, series], "iPad", "model", "ipad", slugLower);
            var categories := [brand, series, model];
            && "ipad" in PushedIds(categories, "ipad")
            && IsDescent(categories, ["apple"] + seq(n, _ => "ipad"))
  {
    var brand := NewEntry([], "Apple", "brand", "", slugLower);
    var series := NewEntry([brand], "iPad", "series", "apple", slugLower);
    var model := NewEntry([brand, series], "iPad", "model", "ipad", slugLower);
    var categories := [brand, series, model];
    assert brand.id == "apple" && IsRoot(brand);
    assert series.id == "ipad" && IsChildOf(series, "apple");
    assert model.id == "ipad" && IsChildOf(model, "ipad");
    SelfPushed(categories, model);
    assert "ipad" in PushedIds(categories, "apple") by {
      assert series in categories;
    }
    var walk := ["apple"] + seq(n, _ => "ipad");
    forall i | 0 <= i < |walk| - 1
      ensures walk[i + 1] in PushedIds(categories, walk[i])
    {
      assert walk[i + 1] == "ipad";
      if i > 0 {
        assert walk[i] == "ipad";
      }
    }
  }

  // ---------------------------------------------------------------------------
  // handleDragEnd

  /** A drop that passed the guards: the dragged entry's sibling group (parent
      key `parent`), sorted by `order ?? 0`, and the two positions. */
  datatype Drop = Drop(parent: string, siblings: seq<Category>, from: nat, to: nat)

  /** The guards of `handleDragEnd`: `None` where it returns early. `overId` is
      `over?.id`, `None` when there is no drop target. */
  function DropOf(categories: seq<Category>, activeId: string, overId: Option<string>): (r: Option<Drop>)
    ensures overId.None? || overId.value == activeId ==> r.None?
    ensures FindById(categories, activeId).None? ==> r.None?
    ensures r.Some? ==>
      && overId.Some? && overId.value != activeId
      && FindById(categories, activeId).Some?
      && r.value.parent == ParentKey(FindById(categories, activeId).value.parent)
      && r.value.siblings == Seqs.SortBy(Siblings(categories, r.value.parent), OrderKey)
      && r.value.from < |r.value.siblings| && r.value.to < |r.value.siblings|
      && r.value.siblings[r.value.from].id == activeId
      && r.value.siblings[r.value.to].id == overId.value
  {
    if overId.None? || activeId == overId.value then None
    else match FindById(categories, activeId)
      case None => None
      case Some(dragged) =>
        var parent := ParentKey(dragged.parent);
        var siblings := Seqs.SortBy(Siblings(categories, parent), OrderKey);
        match (IndexById(siblings, activeId), IndexById(siblings, overId.value))
        case (Some(i), Some(j)) => Some(Drop(parent, siblings, i, j))
        case _ => None
  }

  /** A drop onto an entry of another sibling group does nothing; a drop onto
      an entry of the same group always goes through. */
  lemma DropNeedsSibling(categories: seq<Category>, activeId: string, overId: string)
    requires overId != activeId && FindById(categories, activeId).Some?
    ensures var parent := ParentKey(FindById(categories, activeId).value.parent);
            DropOf(categories, activeId, Some(overId)).Some? <==>
              exists c :: c in categories && ParentKey(c.parent) == parent && c.id == overId
  {
    var dragged := FindById(categories, activeId).value;
    var parent := ParentKey(dragged.parent);
    var group := Siblings(categories, parent);
    var siblings := Seqs.SortBy(group, OrderKey);
    SiblingsSpec(categories, parent);
    Seqs.SortedByMembership(siblings, group);
    assert dragged in siblings;
    var i := IndexById(siblings, activeId);
    assert i.Some?;
    var r := DropOf(categories, activeId, Some(overId));
    if r.Some? {
      var t := r.value.siblings[r.value.to];
      assert t in siblings && t.id == overId;
      assert t in categories && ParentKey(t.parent) == parent;
    }
    if c :| c in categories && ParentKey(c.parent) == parent && c.id == overId {
      assert c in siblings;
      assert IndexById(siblings, overId).Some?;
      assert DropOf(categories, activeId, Some(overId)) == Some(Drop(parent, siblings, i.value, IndexById(siblings, overId).value));
    }
  }

  /** The reordered group with each entry's `order` set to its position. */
  function Renumber(reordered: seq<Category>): (r: seq<Category>)
    ensures |r| == |reordered|
    ensures forall i :: 0 <= i < |r| ==> r[i] == reordered[i].(order := Some(i))
  {
    seq(|reordered|, i requires 0 <= i < |reordered| => reordered[i].(order := Some(i)))
  }

  /** `categories.map((c) => reordered.find((r) => r.id === c.id) ?? c)`. */
  function Rebuild(categories: seq<Category>, renumbered: seq<Category>): (r: seq<Category>)
    ensures |r| == |categories|
  {
    seq(|categories|, i requires 0 <= i < |categories| =>
      match FindById(renumbered, categories[i].id)
      case Some(m) => m
      case None => categories[i])
  }

  /** The loop of `handleDragEnd`: each entry of the reordered group gets its
      position as `order`, and one order write is fired per entry. */
  method RenumberGroup(reordered: seq<Category>) returns (renumbered: seq<Category>, writes: seq<OrderWrite>)
    ensures renumbered == Renumber(reordered)
    ensures |writes| == |reordered|
    ensures forall i :: 0 <= i < |writes| ==> writes[i] == OrderWrite(reordered[i].id, i)
  {
    renumbered, writes := [], [];
    var i := 0;
    while i < |reordered|
      invariant 0 <= i <= |reordered|
      invariant |renumbered| == i && |writes| == i
      invariant forall k :: 0 <= k < i ==> renumbered[k] == reordered[k].(order := Some(k))
      invariant forall k :: 0 <= k < i ==> writes[k] == OrderWrite(reordered[k].id, k)
    {
      renumbered := renumbered + [reordered[i].(order := Some(i))];
      writes := writes + [OrderWrite(reordered[i].id, i)];
      i := i + 1;
    }
  }

  /** `handleDragEnd`: the new category list and the order writes fired, in
      the order they are fired. */
  method HandleDragEnd(categories: seq<Category>, activeId: string, overId: Option<string>)
    returns (updated: seq<Category>, writes: seq<OrderWrite>)
    ensures DropOf(categories, activeId, overId).None? ==> updated == categories && writes == []
    ensures DropOf(categories, activeId, overId).Some? ==>
      var d := DropOf(categories, activeId, overId).value;
      var reordered := Seqs.ArrayMove(d.siblings, d.from, d.to);
      && updated == Rebuild(categories, Renumber(reordered))
      && |writes| == |reordered|
      && forall i :: 0 <= i < |writes| ==> writes[i] == OrderWrite(reordered[i].id, i)
  {
    updated, writes := categories, [];
    if overId.None? || activeId == overId.value {
      return;
    }
    var found := FindById(categories, activeId);
    if found.None? {
      assert DropOf(categories, activeId, overId).None?;
      return;
    }
    var dragged := found.value;
    var parent := ParentKey(dragged.parent);
    var siblings := Seqs.SortBy(Siblings(categories, parent), OrderKey);
    var oldIndex := IndexById(siblings, activeId);
    var newIndex := IndexById(siblings, overId.value);
    if oldIndex.None? || newIndex.None? {
      assert DropOf(categories, activeId, overId).None?;
      return;
    }
    assert DropOf(categories, activeId, overId) == Some(Drop(parent, siblings, oldIndex.value, newIndex.value));
    var reordered := Seqs.ArrayMove(siblings, oldIndex.value, newIndex.value);
    var renumbered;
    renumbered, writes := RenumberGroup(reordered);
    updated := Rebuild(categories, renumbered);
  }

  /** The dragged entry lands at the target position and the other siblings
      keep their relative order. */
  lemma DropMoves(categories: seq<Category>, activeId: string, overId: Option<string>)
    requires DropOf(categories, activeId, overId).Some?
    ensures var d := DropOf(categories, activeId, overId).value;
            var reordered := Seqs.ArrayMove(d.siblings, d.from, d.to);
            && reordered[d.to].id == activeId
            && Seqs.Remove(reordered, d.to) == Seqs.Remove(d.siblings, d.from)
            && multiset(reordered) == multiset(Siblings(categories, d.parent))
  {
  }

  /** `reordered` is a rearrangement of the sibling group of `parent` in a
      list with unique ids. */
  predicate Regrouping(categories: seq<Category>, parent: string, reordered: seq<Category>) {
    UniqueIds(categories) && multiset(reordered) == multiset(Siblings(categories, parent))
  }

  /** The lookup of `Rebuild` finds an entry exactly when it is a sibling, and
      then finds it renumbered. */
  lemma RenumberedEntry(categories: seq<Category>, parent: string, reordered: seq<Category>, c: Category)
    requires Regrouping(categories, parent, reordered)
    requires c in categories
    ensures FindById(Renumber(reordered), c.id).Some? ==>
              ParentKey(c.parent) == parent &&
              exists j :: 0 <= j < |reordered| && reordered[j] == c &&
                FindById(Renumber(reordered), c.id).value == c.(order := Some(j))
    ensures ParentKey(c.parent) == parent ==> FindById(Renumber(reordered), c.id).Some?
  {
    var renumbered := Renumber(reordered);
    SiblingsSpec(categories, parent);
    Seqs.SortedByMembership(reordered, Siblings(categories, parent));
    if ParentKey(c.parent) == parent {
      var j :| 0 <= j < |reordered| && reordered[j] == c;
      assert renumbered[j] in renumbered && renumbered[j].id == c.id;
    }
    if FindById(renumbered, c.id).Some? {
      var m := FindById(renumbered, c.id).value;
      var j :| 0 <= j < |renumbered| && renumbered[j] == m;
      assert reordered[j] in reordered;
      SameId(categories, reordered[j], c);
    }
  }

  lemma RegroupEntries(categories: seq<Category>, parent: string, reordered: seq<Category>)
    requires Regrouping(categories, parent, reordered)
    ensures var updated := Rebuild(categories, Renumber(reordered));
            && (forall i :: 0 <= i < |categories| ==>
                  updated[i].id == categories[i].id && updated[i].parent == categories[i].parent)
            && (forall i :: 0 <= i < |categories| && ParentKey(categories[i].parent) != parent ==>
                  updated[i] == categories[i])
            && (forall i :: 0 <= i < |categories| && ParentKey(categories[i].parent) == parent ==>
                  exists j :: 0 <= j < |reordered| && reordered[j] == categories[i] &&
                    updated[i] == categories[i].(order := Some(j)))
  {
    var updated := Rebuild(categories, Renumber(reordered));
    forall i | 0 <= i < |categories|
      ensures updated[i].id == categories[i].id && updated[i].parent == categories[i].parent
      ensures ParentKey(categories[i].parent) != parent ==> updated[i] == categories[i]
      ensures ParentKey(categories[i].parent) == parent ==>
                exists j :: 0 <= j < |reordered| && reordered[j] == categories[i] &&
                  updated[i] == categories[i].(order := Some(j))
    {
      RenumberedEntry(categories, parent, reordered, categories[i]);
    }
  }

  /** The group being reordered holds each of its entries once. */
  lemma RegroupDistinct(categories: seq<Category>, parent: string, reordered: seq<Category>)
    requires Regrouping(categories, parent, reordered)
    ensures Seqs.NoDuplicates(reordered)
    ensures multiset(reordered) <= multiset(categories)
  {
    UniqueIdsDistinct(categories);
    SiblingsSpec(categories, parent);
    Seqs.DistinctSubMultiset(reordered, categories);
  }

  /** The rebuilt list still has unique ids, so its sibling groups have no
      repeats. */
  lemma RegroupGroupDistinct(categories: seq<Category>, parent: string, reordered: seq<Category>)
    requires Regrouping(categories, parent, reordered)
    ensures Seqs.NoDuplicates(Siblings(Rebuild(categories, Renumber(reordered)), parent))
  {
    var updated := Rebuild(categories, Renumber(reordered));
    RegroupEntries(categories, parent, reordered);
    assert UniqueIds(updated);
    UniqueIdsDistinct(updated);
    SiblingsSpec(updated, parent);
    Seqs.DistinctSubMultiset(Siblings(updated, parent), updated);
  }

  lemma GroupWithinRenumbered(categories: seq<Category>, parent: string, reordered: seq<Category>)
    requires Regrouping(categories, parent, reordered)
    ensures forall u :: u in Siblings(Rebuild(categories, Renumber(reordered)), parent) ==> u in Renumber(reordered)
  {
    var renumbered := Renumber(reordered);
    var updated := Rebuild(categories, renumbered);
    RegroupEntries(categories, parent, reordered);
    SiblingsSpec(updated, parent);
    forall u | u in Siblings(updated, parent)
      ensures u in renumbered
    {
      var i :| 0 <= i < |updated| && updated[i] == u;
      assert ParentKey(categories[i].parent) == parent;
      var j :| 0 <= j < |reordered| && reordered[j] == categories[i] &&
               updated[i] == categories[i].(order := Some(j));
      assert renumbered[j] == u;
    }
  }

  lemma RenumberedInGroup(categories: seq<Category>, parent: string, reordered: seq<Category>, j: nat)
    requires Regrouping(categories, parent, reordered)
    requires j < |reordered|
    ensures Renumber(reordered)[j] in Siblings(Rebuild(categories, Renumber(reordered)), parent)
  {
    var renumbered := Renumber(reordered);
    var updated := Rebuild(categories, renumbered);
    var c := reordered[j];
    SiblingsSpec(categories, parent);
    Seqs.SortedByMembership(reordered, Siblings(categories, parent));
    assert c in Siblings(categories, parent);
    var i :| 0 <= i < |categories| && categories[i] == c;
    RenumberedEntry(categories, parent, reordered, c);
    RegroupDistinct(categories, parent, reordered);
    var j' :| 0 <= j' < |reordered| && reordered[j'] == c &&
              FindById(renumbered, c.id).value == c.(order := Some(j'));
    assert j' == j;
    assert updated[i] == renumbered[j];
    SiblingsSpec(updated, parent);
    assert updated[i] in updated;
  }

  lemma RenumberedWithinGroup(categories: seq<Category>, parent: string, reordered: seq<Category>)
    requires Regrouping(categories, parent, reordered)
    ensures forall u :: u in Renumber(reordered) ==> u in Siblings(Rebuild(categories, Renumber(reordered)), parent)
  {
    forall j | 0 <= j < |reordered|
      ensures Renumber(reordered)[j] in Siblings(Rebuild(categories, Renumber(reordered)), parent)
    {
      RenumberedInGroup(categories, parent, reordered, j);
    }
  }

  /** The rebuilt sibling group is numbered 0..k-1. */
  lemma RegroupDense(categories: seq<Category>, parent: string, reordered: seq<Category>)
    requires Regrouping(categories, parent, reordered)
    ensures DenseOrders(Siblings(Rebuild(categories, Renumber(reordered)), parent))
  {
    var renumbered := Renumber(reordered);
    var group := Siblings(Rebuild(categories, renumbered), parent);
    RegroupGroupDistinct(categories, parent, reordered);
    GroupWithinRenumbered(categories, parent, reordered);
    RenumberedWithinGroup(categories, parent, reordered);
    assert Seqs.NoDuplicates(renumbered) by {
      forall a, b | 0 <= a < b < |renumbered|
        ensures renumbered[a] != renumbered[b]
      {
        assert renumbered[a].order == Some(a);
      }
    }
    Seqs.DistinctSameMembers(group, renumbered);
    assert |group| == |renumbered| by {
      assert |multiset(group)| == |multiset(renumbered)|;
    }
    forall a | 0 <= a < |group|
      ensures group[a].order.Some? && 0 <= group[a].order.value < |group|
    {
      assert group[a] in renumbered;
    }
    forall a, b | 0 <= a < b < |group|
      ensures group[a].order != group[b].order
    {
      assert group[a] in renumbered && group[b] in renumbered;
      var ja :| 0 <= ja < |renumbered| && renumbered[ja] == group[a];
      var jb :| 0 <= jb < |renumbered| && renumbered[jb] == group[b];
      assert group[a] != group[b];
    }
  }

  /** After a drop, every entry keeps its id, parent and position; entries
      outside the sibling group are untouched; each sibling gets its place in
      the new sequence as its `order`. */
  lemma DropRenumbers(categories: seq<Category>, activeId: string, overId: Option<string>)
    requires UniqueIds(categories)
    requires DropOf(categories, activeId, overId).Some?
    ensures var d := DropOf(categories, activeId, overId).value;
            var reordered := Seqs.ArrayMove(d.siblings, d.from, d.to);
            var updated := Rebuild(categories, Renumber(reordered));
            && |updated| == |categories|
            && (forall i :: 0 <= i < |categories| ==>
                  updated[i].id == categories[i].id && updated[i].parent == categories[i].parent)
            && (forall i :: 0 <= i < |categories| && ParentKey(categories[i].parent) != d.parent ==>
                  updated[i] == categories[i])
            && (forall i :: 0 <= i < |categories| && ParentKey(categories[i].parent) == d.parent ==>
                  exists j :: 0 <= j < |reordered| && reordered[j] == categories[i] &&
                    updated[i] == categories[i].(order := Some(j)))
  {
    var d := DropOf(categories, activeId, overId).value;
    DropMoves(categories, activeId, overId);
    RegroupEntries(categories, d.parent, Seqs.ArrayMove(d.siblings, d.from, d.to));
  }

  /** After a drop the sibling group is numbered 0..k-1, so the next drag
      sorts it by distinct orders. */
  lemma DropNumbersDensely(categories: seq<Category>, activeId: string, overId: Option<string>)
    requires UniqueIds(categories)
    requires DropOf(categories, activeId, overId).Some?
    ensures var d := DropOf(categories, activeId, overId).value;
            var updated := Rebuild(categories, Renumber(Seqs.ArrayMove(d.siblings, d.from, d.to)));
            DenseOrders(Siblings(updated, d.parent))
  {
    var d := DropOf(categories, activeId, overId).value;
    DropMoves(categories, activeId, overId);
    RegroupDense(categories, d.parent, Seqs.ArrayMove(d.siblings, d.from, d.to));
  }
}
