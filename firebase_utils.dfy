/** The Firestore helpers of src/lib/firebaseUtils.js: the per-collection
    normaliser applied to fetched documents, and the argument guards and
    returned records of the CRUD helpers. Each remote call is a parameter
    holding its outcome: the value it resolves to or the error it throws. */
module FirebaseUtils {
  import opened Wrappers
  import opened Js

  // ---------------------------------------------------------------------------
  // validateDocuments

  /** The fields a "Devices" document gets a default for. */
  const DeviceDefaultKeys: set<string> := {"id", "name", "type", "parent"}

  /** The exact fields of a normalised "Products" document. */
  const ProductKeys: set<string> := {"id", "name", "price", "description", "categoryId", "productTypeId", "imageUrls"}

  /** A "Devices" document: the defaults, then every field of the document
      spread over them. A field the document has, even a falsy one, wins. */
  function NormalizeDevice(doc: Doc): (r: Doc)
    ensures r.Keys == doc.Keys + DeviceDefaultKeys
    ensures forall k :: k in doc ==> r[k] == doc[k]
    ensures "id" !in doc ==> r["id"] == Str("")
    ensures "name" !in doc ==> r["name"] == Str("Unnamed Category")
    ensures "type" !in doc ==> r["type"] == Str("unknown")
    ensures "parent" !in doc ==> r["parent"] == Null
  {
    Spread(DeviceDefaults(doc), doc)
  }

  /** The defaults a "Devices" document is spread over. */
  function DeviceDefaults(doc: Doc): (d: Doc)
    ensures d.Keys == DeviceDefaultKeys
    ensures "id" !in doc ==> d["id"] == Str("")
    ensures "name" !in doc ==> d["name"] == Str("Unnamed Category")
    ensures "type" !in doc ==> d["type"] == Str("unknown")
    ensures "parent" !in doc ==> d["parent"] == Null
  {
    map[
      "id" := Or(Get(doc, "id"), Str("")),
      "name" := Or(Get(doc, "name"), Str("Unnamed Category")),
      "type" := Or(Get(doc, "type"), Str("unknown")),
      "parent" := Or(Get(doc, "parent"), Null)]
  }

  /** A "Products" document: exactly seven fields, a falsy value replaced by
      its default, a non-array `imageUrls` by `[]`; every other field dropped. */
  function NormalizeProduct(doc: Doc): (r: Doc)
    ensures r.Keys == ProductKeys
    ensures r["id"] == Or(Get(doc, "id"), Str(""))
    ensures r["name"] == Or(Get(doc, "name"), Str("Unnamed Product"))
    ensures r["price"] == Or(Get(doc, "price"), Num(0))
    ensures r["description"] == Or(Get(doc, "description"), Str(""))
    ensures r["categoryId"] == Or(Get(doc, "categoryId"), Str("unknown"))
    ensures r["productTypeId"] == Or(Get(doc, "productTypeId"), Str("unknown"))
    ensures IsArray(r["imageUrls"])
    ensures IsArray(Get(doc, "imageUrls")) ==> r["imageUrls"] == doc["imageUrls"]
    ensures !IsArray(Get(doc, "imageUrls")) ==> r["imageUrls"] == Arr([])
  {
    map[
      "id" := Or(Get(doc, "id"), Str("")),
      "name" := Or(Get(doc, "name"), Str("Unnamed Product")),
      "price" := Or(Get(doc, "price"), Num(0)),
      "description" := Or(Get(doc, "description"), Str("")),
      "categoryId" := Or(Get(doc, "categoryId"), Str("unknown")),
      "productTypeId" := Or(Get(doc, "productTypeId"), Str("unknown")),
      "imageUrls" := if IsArray(Get(doc, "imageUrls")) then Get(doc, "imageUrls") else Arr([])]
  }

  /** `validateDocuments(documents, collectionName)`. */
  function ValidateDocuments(documents: seq<Doc>, collectionName: string): (r: seq<Doc>)
    ensures |r| == |documents|
    ensures collectionName == "Devices" ==> forall i :: 0 <= i < |r| ==> r[i] == NormalizeDevice(documents[i])
    ensures collectionName == "Products" ==> forall i :: 0 <= i < |r| ==> r[i] == NormalizeProduct(documents[i])
    ensures collectionName != "Devices" && collectionName != "Products" ==> r == documents
  {
    match collectionName
    case "Devices" => seq(|documents|, i requires 0 <= i < |documents| => NormalizeDevice(documents[i]))
    case "Products" => seq(|documents|, i requires 0 <= i < |documents| => NormalizeProduct(documents[i]))
    case _ => documents
  }

  /** A normalised "Devices" document has all four defaulted fields, so
      normalising it again changes nothing. */
  lemma NormalizeDeviceIdempotent(doc: Doc)
    ensures NormalizeDevice(NormalizeDevice(doc)) == NormalizeDevice(doc)
  {
    var once := NormalizeDevice(doc);
    assert NormalizeDevice(once).Keys == once.Keys;
  }

  /** A normalised "Products" document holds only truthy values or the
      defaults, so normalising it again changes nothing. */
  lemma NormalizeProductIdempotent(doc: Doc)
    ensures NormalizeProduct(NormalizeProduct(doc)) == NormalizeProduct(doc)
  {
    var once := NormalizeProduct(doc);
    assert NormalizeProduct(once).Keys == once.Keys;
  }

  /** Validating validated documents of the same collection changes nothing. */
  lemma ValidateDocumentsIdempotent(documents: seq<Doc>, collectionName: string)
    ensures ValidateDocuments(ValidateDocuments(documents, collectionName), collectionName)
         == ValidateDocuments(documents, collectionName)
  {
    var once := ValidateDocuments(documents, collectionName);
    var twice := ValidateDocuments(once, collectionName);
    forall i | 0 <= i < |once|
      ensures twice[i] == once[i]
    {
      if collectionName == "Devices" {
        NormalizeDeviceIdempotent(documents[i]);
      } else if collectionName == "Products" {
        NormalizeProductIdempotent(documents[i]);
      }
    }
  }

  // ---------------------------------------------------------------------------
  // CRUD helpers

  const MissingAddArgs := "Collection name and data are required."
  const MissingUpdateArgs := "Collection name, ID, and data are required."
  const MissingDeleteArgs := "Collection name and ID are required."
  const MissingCollection := "Collection name is required."

  /** `addDocument(collectionName, data)`; `data` is `None` for `null` or
      `undefined`, `remote` is the generated id or the error `addDoc` throws. */
  function AddDocument(collectionName: string, data: Option<Doc>, remote: Result<string, string>): (r: Result<Doc, string>)
    ensures collectionName == "" || data.None? ==> r == Err(MissingAddArgs)
    ensures collectionName != "" && data.Some? && remote.Err? ==> r == Err(remote.error)
    ensures r.Ok? ==>
      && remote.Ok? && data.Some?
      && r.value.Keys == data.value.Keys + {"id"}
      && (forall k :: k in data.value ==> r.value[k] == data.value[k])
      && ("id" !in data.value ==> r.value["id"] == Str(remote.value))
  {
    if collectionName == "" || data.None? then Err(MissingAddArgs)
    else match remote
      case Err(e) => Err(e)
      case Ok(newId) => Ok(Spread(map["id" := Str(newId)], data.value))
  }

  /** `updateDocument(collectionName, id, data)`; `failure` is the error
      `updateDoc` throws, if any. */
  function UpdateDocument(collectionName: string, id: string, data: Option<Doc>, failure: Option<string>): (r: Result<Doc, string>)
    ensures collectionName == "" || id == "" || data.None? ==> r == Err(MissingUpdateArgs)
    ensures collectionName != "" && id != "" && data.Some? && failure.Some? ==> r == Err(failure.value)
    ensures r.Ok? ==>
      && failure.None? && data.Some?
      && r.value.Keys == data.value.Keys + {"id"}
      && (forall k :: k in data.value ==> r.value[k] == data.value[k])
      && ("id" !in data.value ==> r.value["id"] == Str(id))
  {
    if collectionName == "" || id == "" || data.None? then Err(MissingUpdateArgs)
    else match failure
      case Some(e) => Err(e)
      case None => Ok(Spread(map["id" := Str(id)], data.value))
  }

  /** `deleteDocument(collectionName, id)`: resolves to the id. */
  function DeleteDocument(collectionName: string, id: string, failure: Option<string>): (r: Result<string, string>)
    ensures collectionName == "" || id == "" ==> r == Err(MissingDeleteArgs)
    ensures collectionName != "" && id != "" && failure.Some? ==> r == Err(failure.value)
    ensures r.Ok? ==> failure.None? && r.value == id
  {
    if collectionName == "" || id == "" then Err(MissingDeleteArgs)
    else match failure
      case Some(e) => Err(e)
      case None => Ok(id)
  }

  /** A fetched document snapshot: its id and its data. */
  datatype Snapshot = Snapshot(id: string, data: Doc)

  /** `{ id: doc.id, ...doc.data() }`: a stored `id` field overrides the
      document id. */
  function Raw(s: Snapshot): (r: Doc)
    ensures r.Keys == s.data.Keys + {"id"}
    ensures forall k :: k in s.data ==> r[k] == s.data[k]
    ensures "id" !in s.data ==> r["id"] == Str(s.id)
  {
    Spread(map["id" := Str(s.id)], s.data)
  }

  function RawAll(snapshots: seq<Snapshot>): (r: seq<Doc>)
    ensures |r| == |snapshots|
    ensures forall i :: 0 <= i < |r| ==> r[i] == Raw(snapshots[i])
  {
    seq(|snapshots|, i requires 0 <= i < |snapshots| => Raw(snapshots[i]))
  }

  /** `fetchDocuments(collectionName)`; `remote` is what `getDocs` yields. */
  function FetchDocuments(collectionName: string, remote: Result<seq<Snapshot>, string>): (r: Result<seq<Doc>, string>)
    ensures collectionName == "" ==> r == Err(MissingCollection)
    ensures collectionName != "" && remote.Err? ==> r == Err(remote.error)
    ensures r.Ok? ==> remote.Ok? && r.value == ValidateDocuments(RawAll(remote.value), collectionName)
  {
    if collectionName == "" then Err(MissingCollection)
    else match remote
      case Err(e) => Err(e)
      case Ok(snapshots) => Ok(ValidateDocuments(RawAll(snapshots), collectionName))
  }

  /** One page: the validated documents and the last snapshot, absent for an
      empty page (`docs[docs.length - 1]` is then `undefined`). */
  datatype Page = Page(docs: seq<Doc>, lastVisible: Option<Snapshot>)

  /** `fetchPaginatedDocuments`; the query (filters, `price` order, page
      size, cursor) is not modelled, `remote` is the page `getDocs` yields. */
  function FetchPaginatedDocuments(collectionName: string, remote: Result<seq<Snapshot>, string>): (r: Result<Page, string>)
    ensures collectionName == "" ==> r == Err(MissingCollection)
    ensures collectionName != "" && remote.Err? ==> r == Err(remote.error)
    ensures r.Ok? ==>
      && remote.Ok?
      && r.value.docs == ValidateDocuments(RawAll(remote.value), collectionName)
      && (|remote.value| == 0 <==> r.value.lastVisible.None?)
      && (|remote.value| > 0 ==> r.value.lastVisible == Some(remote.value[|remote.value| - 1]))
  {
    if collectionName == "" then Err(MissingCollection)
    else match remote
      case Err(e) => Err(e)
      case Ok(snapshots) =>
        Ok(Page(ValidateDocuments(RawAll(snapshots), collectionName),
                if |snapshots| == 0 then None else Some(snapshots[|snapshots| - 1])))
  }

  /** Each helper's guard is decided before the remote call: with a missing
      argument the outcome is the same whatever the remote would have done. */
  lemma GuardsPrecedeRemote(collectionName: string, id: string, data: Option<Doc>,
                            a1: Result<string, string>, a2: Result<string, string>,
                            f1: Option<string>, f2: Option<string>,
                            s1: Result<seq<Snapshot>, string>, s2: Result<seq<Snapshot>, string>)
    ensures collectionName == "" || data.None? ==> AddDocument(collectionName, data, a1) == AddDocument(collectionName, data, a2)
    ensures collectionName == "" || id == "" || data.None? ==> UpdateDocument(collectionName, id, data, f1) == UpdateDocument(collectionName, id, data, f2)
    ensures collectionName == "" || id == "" ==> DeleteDocument(collectionName, id, f1) == DeleteDocument(collectionName, id, f2)
    ensures collectionName == "" ==> FetchDocuments(collectionName, s1) == FetchDocuments(collectionName, s2)
    ensures collectionName == "" ==> FetchPaginatedDocuments(collectionName, s1) == FetchPaginatedDocuments(collectionName, s2)
  {
  }
}
