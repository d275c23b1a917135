/** The device taxonomy of the "Devices" collection: brands, series and
    models, each a document whose `parent` names the id of the entry above it. */
module Taxonomy {
  import opened Wrappers
  import Seqs

  /** The `parent` field of a category document: missing, `null`, or a string
      (the empty string is how the admin screen writes "no parent"). */
  datatype Parent = Undefined | Null | Ref(id: string)

  /** JavaScript truthiness of `parent`. */
  predicate HasParent(p: Parent) {
    p.Ref? && p.id != ""
  }

  /** `parent ?? ''`. */
  function ParentKey(p: Parent): (k: string)
    ensures p.Ref? ==> k == p.id
    ensures !p.Ref? ==> k == ""
    ensures k != "" <==> HasParent(p)
  {
    if p.Ref? then p.id else ""
  }

  /** A category document; `kind` is the document's `type` field ("brand",
      "series" or "model"); `order` is absent until the entry is reordered. */
  datatype Category = Category(id: string, name: string, kind: string, parent: Parent, order: Option<int>)

  /** A write of `{ order }` to one category document, merged into it. */
  datatype OrderWrite = OrderWrite(id: string, order: int)

  /** `order ?? 0`, the key the admin lists sort by. */
  function OrderKey(c: Category): int {
    c.order.GetOr(0)
  }

  predicate IsRoot(c: Category) {
    !HasParent(c.parent)
  }

  /** `c.parent` is truthy and names `id`. */
  predicate IsChildOf(c: Category, id: string) {
    HasParent(c.parent) && c.parent.id == id
  }

  /** No two entries share an id. A stored `id` field is not a document id and
      can repeat, so the builders and lemmas that need this say so. */
  predicate UniqueIds(items: seq<Category>) {
    forall i, j :: 0 <= i < |items| && 0 <= j < |items| && items[i].id == items[j].id ==> i == j
  }

  function Ids(items: seq<Category>): set<string> {
    set c | c in items :: c.id
  }

  lemma SameId(items: seq<Category>, a: Category, b: Category)
    requires UniqueIds(items)
    requires a in items && b in items && a.id == b.id
    ensures a == b
  {
    var i :| 0 <= i < |items| && items[i] == a;
    var j :| 0 <= j < |items| && items[j] == b;
  }

  lemma UniqueIdsDistinct(items: seq<Category>)
    requires UniqueIds(items)
    ensures Seqs.NoDuplicates(items)
  {
  }

  /** `categories.filter((t) => (t.parent ?? '') === parent)`: the sibling
      group of `parent`, in list order. */
  function Siblings(categories: seq<Category>, parent: string): seq<Category> {
    if categories == [] then []
    else (if ParentKey(categories[0].parent) == parent then [categories[0]] else []) + Siblings(categories[1..], parent)
  }

  /** The sibling group holds exactly the entries with that parent key, each
      as often as the list does. */
  lemma {:induction false} SiblingsSpec(categories: seq<Category>, parent: string)
    ensures forall c :: c in Siblings(categories, parent) ==> c in categories && ParentKey(c.parent) == parent
    ensures forall c :: c in categories && ParentKey(c.parent) == parent ==> c in Siblings(categories, parent)
    ensures multiset(Siblings(categories, parent)) <= multiset(categories)
    decreases |categories|
  {
    if categories != [] {
      assert categories == [categories[0]] + categories[1..];
      SiblingsSpec(categories[1..], parent);
    }
  }

  lemma {:induction false} SiblingsAppend(a: seq<Category>, b: seq<Category>, parent: string)
    ensures Siblings(a + b, parent) == Siblings(a, parent) + Siblings(b, parent)
    decreases |a|
  {
    if |a| == 0 {
      assert a + b == b;
    } else {
      var head := if ParentKey(a[0].parent) == parent then [a[0]] else [];
      assert (a + b)[0] == a[0];
      assert (a + b)[1..] == a[1..] + b;
      assert Siblings(a + b, parent) == head + Siblings(a[1..] + b, parent);
      SiblingsAppend(a[1..], b, parent);
      Seqs.AppendAssoc(head, Siblings(a[1..], parent), Siblings(b, parent));
    }
  }

  /** The first entry with the given id (`find((c) => c.id === id)`). */
  function FindById(categories: seq<Category>, id: string): (r: Option<Category>)
    ensures r.Some? ==> r.value in categories && r.value.id == id
    ensures r.Some? ==> exists k ::
      && 0 <= k < |categories|
      && categories[k] == r.value
      && forall j :: 0 <= j < k ==> categories[j].id != id
    ensures r.None? ==> forall c :: c in categories ==> c.id != id
  {
    if categories == [] then None
    else if categories[0].id == id then Some(categories[0])
    else FindById(categories[1..], id)
  }

  /** The position of the first entry with the given id (`findIndex`). */
  function IndexById(categories: seq<Category>, id: string): (r: Option<nat>)
    ensures r.Some? ==> r.value < |categories| && categories[r.value].id == id
    ensures r.Some? ==> forall j :: 0 <= j < r.value ==> categories[j].id != id
    ensures r.None? ==> forall c :: c in categories ==> c.id != id
  {
    if categories == [] then None
    else if categories[0].id == id then Some(0)
    else match IndexById(categories[1..], id)
      case None => None
      case Some(k) => Some(k + 1)
  }
}
