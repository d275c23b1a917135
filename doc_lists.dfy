/** Updates of a list of documents keyed by their `id` field, as the slices
    and the admin hooks apply them after a remote write succeeds. */
module DocLists {
  import opened Js
  import Seqs

  /** `item => item.id === id`. */
  function HasId(id: Value): Doc -> bool {
    (item: Doc) => StrictEq(Get(item, "id"), id)
  }

  /** `item => item.id !== id`. */
  function LacksId(id: Value): Doc -> bool {
    (item: Doc) => !StrictEq(Get(item, "id"), id)
  }

  /** `findIndex` by id, then `items[index] = payload` when found. */
  function ReplaceFirst(items: seq<Doc>, payload: Doc): (r: seq<Doc>)
    ensures |r| == |items|
    ensures Seqs.FindIndex(items, HasId(Get(payload, "id"))).None? ==> r == items
    ensures Seqs.FindIndex(items, HasId(Get(payload, "id"))).Some? ==>
      var i := Seqs.FindIndex(items, HasId(Get(payload, "id"))).value;
      && r[i] == payload
      && (forall j :: 0 <= j < i ==> !StrictEq(Get(items[j], "id"), Get(payload, "id")))
      && (forall j :: 0 <= j < |items| && j != i ==> r[j] == items[j])
  {
    match Seqs.FindIndex(items, HasId(Get(payload, "id")))
    case None => items
    case Some(i) => items[i := payload]
  }

  /** `items.filter(item => item.id !== id)`. */
  function DropId(items: seq<Doc>, id: Value): (r: seq<Doc>)
    ensures forall d :: d in r <==> d in items && !StrictEq(Get(d, "id"), id)
    ensures Seqs.IsSubsequence(r, items)
  {
    Seqs.FilterIsSubsequence(items, LacksId(id));
    Seqs.Filter(items, LacksId(id))
  }

  /** An update never changes which ids the list holds: the item it
      replaces has the payload's id. */
  lemma ReplaceFirstKeepsIds(items: seq<Doc>, payload: Doc, id: Value)
    ensures (exists d :: d in ReplaceFirst(items, payload) && StrictEq(Get(d, "id"), id))
        <==> (exists d :: d in items && StrictEq(Get(d, "id"), id))
  {
    var r := ReplaceFirst(items, payload);
    match Seqs.FindIndex(items, HasId(Get(payload, "id")))
    case None =>
    case Some(i) =>
      assert HasId(Get(payload, "id"))(items[i]);
      IdCarried(items, r, i, id);
      IdCarried(r, items, i, id);
  }

  /** Two lists that agree everywhere but at `i`, where the ids are `===`
      the same, hold an item with id `id` together. */
  lemma IdCarried(a: seq<Doc>, b: seq<Doc>, i: nat, id: Value)
    requires |a| == |b| && i < |a|
    requires StrictEq(Get(a[i], "id"), Get(b[i], "id"))
    requires forall j :: 0 <= j < |a| && j != i ==> a[j] == b[j]
    ensures (exists d :: d in a && StrictEq(Get(d, "id"), id)) ==> (exists d :: d in b && StrictEq(Get(d, "id"), id))
  {
    if exists d :: d in a && StrictEq(Get(d, "id"), id) {
      var d :| d in a && StrictEq(Get(d, "id"), id);
      var k :| 0 <= k < |a| && a[k] == d;
      assert b[k] in b;
    }
  }

  /** `prev.map((t) => (t.id === id ? { ...t, ...updatedData } : t))`. */
  function MergeInto(prev: seq<Doc>, id: Value, updatedData: Doc): (r: seq<Doc>)
    ensures |r| == |prev|
    ensures forall i :: 0 <= i < |prev| && !StrictEq(Get(prev[i], "id"), id) ==> r[i] == prev[i]
    ensures forall i :: 0 <= i < |prev| && StrictEq(Get(prev[i], "id"), id) ==>
              && r[i].Keys == prev[i].Keys + updatedData.Keys
              && (forall k :: k in updatedData ==> r[i][k] == updatedData[k])
              && (forall k :: k in prev[i] && k !in updatedData ==> r[i][k] == prev[i][k])
  {
    seq(|prev|, i requires 0 <= i < |prev| =>
      if StrictEq(Get(prev[i], "id"), id) then Spread(prev[i], updatedData) else prev[i])
  }

  /** Deleting the id of an item just appended, when no earlier item has it,
      restores the list. */
  lemma DropIdAppended(items: seq<Doc>, added: Doc, id: Value)
    requires StrictEq(Get(added, "id"), id)
    requires forall d :: d in items ==> !StrictEq(Get(d, "id"), id)
    ensures DropId(items + [added], id) == items
  {
    Seqs.FilterAppend(items, [added], LacksId(id));
    Seqs.FilterKeepsAll(items, LacksId(id));
    assert Seqs.Filter([added], LacksId(id)) == [];
  }
}
