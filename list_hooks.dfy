/** The two admin list hooks, useDevices (src/hooks/useDevices.js) over the
    "Devices" collection and useCategories (src/hooks/useCategories.js) over
    "ProductTypes". Each holds a list of documents, a loading flag and an
    error; each write goes to Firestore first, and the local list changes only
    once that write has succeeded. A remote outcome is a parameter; `Err` is
    the error the hook rethrows, with the list left as it was. */
module ListHooks {
  import opened Wrappers
  import opened Js
  import Seqs
  import Text
  import FirebaseUtils
  import opened DocLists

  const DevicesCollection := "Devices"
  const CategoriesCollection := "ProductTypes"

  const MissingNameOrType := "Name and type are required."
  const MissingName := "Name is required."
  /** Stands for the `TypeError` that `name?.trim()` throws for a name that
      is neither a string nor nullish; its message text is not modelled. */
  const NameNotAString := TypeError

  /** The hook state: the list, `loading` and `error`. */
  datatype ListState = ListState(items: seq<Doc>, loading: bool, error: Option<string>)

  const Initial := ListState([], false, None)

  /** The fetch effect: `loading` is set, the documents replace the list and
      the error is cleared, or on failure the list stays and the fixed
      message is set; `loading` ends false either way. */
  function Fetch(s: ListState, collectionName: string, failureMessage: string,
                 remote: Result<seq<FirebaseUtils.Snapshot>, string>): (r: ListState)
    requires collectionName != ""
    ensures !r.loading
    ensures remote.Ok? ==>
      r.items == FirebaseUtils.ValidateDocuments(FirebaseUtils.RawAll(remote.value), collectionName) && r.error.None?
    ensures remote.Err? ==> r.items == s.items && r.error == Some(failureMessage)
  {
    match FirebaseUtils.FetchDocuments(collectionName, remote)
    case Ok(data) => ListState(data, false, None)
    case Err(_) => ListState(s.items, false, Some(failureMessage))
  }

  /** `name?.trim()` is truthy. */
  predicate NamePresent(name: Value) {
    name.Str? && Text.Trim(name.s) != ""
  }

  /** The name guard: `None` when it passes, else the error thrown. A
      missing, `null` or blank name gets the hook's message. */
  function NameGuard(name: Value, message: string): (r: Option<string>)
    ensures r.None? <==> NamePresent(name)
    ensures name.Undefined? || name.Null? ==> r == Some(message)
    ensures name.Str? ==> (r.None? <==> exists i :: 0 <= i < |name.s| && !Text.IsSpace(name.s[i]))
    ensures name.Str? && r.Some? ==> r == Some(message)
  {
    Text.TrimBlank(if name.Str? then name.s else "");
    match name
    case Undefined => Some(message)
    case Null => Some(message)
    case Str(s) => if Text.Trim(s) != "" then None else Some(message)
    case _ => Some(NameNotAString)
  }

  // ---------------------------------------------------------------------------
  // useDevices

  /** `{ ...device, id }`. */
  function WithId(device: Doc, id: string): (d: Doc)
    ensures d.Keys == device.Keys + {"id"}
    ensures d["id"] == Str(id)
    ensures forall k :: k in device && k != "id" ==> d[k] == device[k]
  {
    Spread(device, map["id" := Str(id)])
  }

  /** `addDevice(device)`: the guard, then `addDocument("Devices",
      { ...device, id })` with `id = slugify(device.name, { lower: true })`
      (the npm package, a parameter here). Because the data carries `id`, the
      returned record keeps the slug and not the generated document id. */
  function AddDevice(prev: seq<Doc>, device: Doc, slugLower: string -> string,
                     remote: Result<string, string>): (r: Result<seq<Doc>, string>)
    ensures r.Ok? <==> NamePresent(Get(device, "name")) && Truthy(Get(device, "type")) && remote.Ok?
    ensures NamePresent(Get(device, "name")) && !Truthy(Get(device, "type")) ==> r == Err(MissingNameOrType)
    ensures r.Ok? ==>
      && |r.value| == |prev| + 1 && r.value[..|prev|] == prev
      && var added := r.value[|prev|];
         && added.Keys == device.Keys + {"id"}
         && added["id"] == Str(slugLower(Get(device, "name").s))
         && (forall k :: k in device && k != "id" ==> added[k] == device[k])
  {
    match NameGuard(Get(device, "name"), MissingNameOrType)
    case Some(e) => Err(e)
    case None =>
      if !Truthy(Get(device, "type")) then Err(MissingNameOrType)
      else
        var id := slugLower(Get(device, "name").s);
        match FirebaseUtils.AddDocument(DevicesCollection, Some(WithId(device, id)), remote)
        case Err(e) => Err(e)
        case Ok(newDevice) => Ok(prev + [newDevice])
  }

  /** `updateDevice` and `updateCategory`: `updateDocument`, then the merge
      into every item with that id. */
  function Update(collectionName: string, prev: seq<Doc>, id: string, updatedData: Option<Doc>,
                  failure: Option<string>): (r: Result<seq<Doc>, string>)
    requires collectionName != ""
    ensures r.Ok? <==> id != "" && updatedData.Some? && failure.None?
    ensures r.Ok? ==> r.value == MergeInto(prev, Str(id), updatedData.value)
  {
    match FirebaseUtils.UpdateDocument(collectionName, id, updatedData, failure)
    case Err(e) => Err(e)
    case Ok(_) => Ok(MergeInto(prev, Str(id), updatedData.value))
  }

  /** `deleteDevice` and `deleteCategory`: `deleteDocument`, then the filter. */
  function Delete(collectionName: string, prev: seq<Doc>, id: string, failure: Option<string>): (r: Result<seq<Doc>, string>)
    requires collectionName != ""
    ensures r.Ok? <==> id != "" && failure.None?
    ensures r.Ok? ==> r.value == DropId(prev, Str(id))
  {
    match FirebaseUtils.DeleteDocument(collectionName, id, failure)
    case Err(e) => Err(e)
    case Ok(_) => Ok(DropId(prev, Str(id)))
  }

  /** Deleting the id of a device just added removes it again, and only it
      when no other item had that id. */
  lemma AddDeviceThenDelete(prev: seq<Doc>, device: Doc, slugLower: string -> string,
                            remote: Result<string, string>, failure: Option<string>)
    requires AddDevice(prev, device, slugLower, remote).Ok?
    requires slugLower(Get(device, "name").s) != ""
    requires forall d :: d in prev ==> !StrictEq(Get(d, "id"), Str(slugLower(Get(device, "name").s)))
    ensures var id := slugLower(Get(device, "name").s);
            Delete(DevicesCollection, AddDevice(prev, device, slugLower, remote).value, id, None) == Ok(prev)
  {
    var id := slugLower(Get(device, "name").s);
    var added := AddDevice(prev, device, slugLower, remote).value;
    assert added == prev + [added[|prev|]];
    DropIdAppended(prev, added[|prev|], Str(id));
  }

  // ---------------------------------------------------------------------------
  // useCategories

  /** What `addCategory` writes. */
  function CategoryRecord(name: string): (d: Doc)
    ensures d.Keys == {"name", "parent"} && d["name"] == Str(name) && d["parent"] == Null
  {
    map["name" := Str(name), "parent" := Null]
  }

  /** `addCategory(category)`: only the trimmed name and `parent: null` are
      written, whatever else the argument holds. */
  function AddCategory(prev: seq<Doc>, category: Doc, remote: Result<string, string>): (r: Result<seq<Doc>, string>)
    ensures r.Ok? <==> NamePresent(Get(category, "name")) && remote.Ok?
    ensures r.Ok? ==>
      && |r.value| == |prev| + 1 && r.value[..|prev|] == prev
      && var added := r.value[|prev|];
         && added.Keys == {"id", "name", "parent"}
         && added["id"] == Str(remote.value)
         && added["name"] == Str(Text.Trim(Get(category, "name").s))
         && added["parent"] == Null
  {
    match NameGuard(Get(category, "name"), MissingName)
    case Some(e) => Err(e)
    case None =>
      match FirebaseUtils.AddDocument(CategoriesCollection, Some(CategoryRecord(Text.Trim(Get(category, "name").s))), remote)
      case Err(e) => Err(e)
      case Ok(newCategory) => Ok(prev + [newCategory])
  }

  /** The written name has no white space at either end and is not empty. */
  lemma AddedCategoryName(prev: seq<Doc>, category: Doc, remote: Result<string, string>)
    requires AddCategory(prev, category, remote).Ok?
    ensures var name := AddCategory(prev, category, remote).value[|prev|]["name"].s;
            name != "" && !Text.IsSpace(name[0]) && !Text.IsSpace(name[|name| - 1])
  {
  }
}
