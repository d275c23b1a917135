/** The two export scripts, src/scripts/exportProducts.js and
    src/scripts/exportAndNormalise.js: each reads the "products" collection,
    projects every document onto a fixed record and writes the list as a JSON
    file. The `get()` outcome is a parameter; the file is returned as the path
    and the records it holds (their JSON text is not modelled). */
module ExportScripts {
  import opened Wrappers
  import opened Js
  import FirebaseUtils

  /** What a run leaves behind: a file, or no file because the collection was
      empty or the read failed (the error is only logged). */
  datatype Outcome = Written(path: string, records: seq<Doc>) | NoDocuments | Failed(error: string)

  /** `normalizeField`: a string becomes a one-element array, an array is
      kept, and anything else becomes the empty array. */
  function NormalizeField(field: Value): (r: Value)
    ensures r.Arr?
    ensures field.Str? ==> r.elems == [field]
    ensures field.Arr? ==> r == field
    ensures !field.Str? && !field.Arr? ==> r.elems == []
  {
    match field
    case Str(_) => Arr([field])
    case Arr(_) => field
    case _ => Arr([])
  }

  /** Normalising a normalised field changes nothing. */
  lemma NormalizeIdempotent(field: Value)
    ensures NormalizeField(NormalizeField(field)) == NormalizeField(field)
  {
  }

  /** `data.f || fallback` for a field the projection copies. */
  function FieldOr(data: Doc, key: string, fallback: Value): (r: Value)
    ensures Truthy(Get(data, key)) ==> r == data[key]
    ensures !Truthy(Get(data, key)) ==> r == fallback
  {
    Or(Get(data, key), fallback)
  }

  // ---------------------------------------------------------------------------
  // exportProducts.js

  const ProductFields: set<string> :=
    {"id", "name", "brand", "series", "model", "description", "imageUrls", "productType", "price"}

  /** The record exportProducts.js writes for one document: always the same
      nine fields, whatever the document holds. */
  function ProductRecord(doc: FirebaseUtils.Snapshot): (r: Doc)
    ensures r.Keys == ProductFields
  {
    var data := doc.data;
    map[
      "id" := Str(doc.id),
      "name" := FieldOr(data, "name", Str("Unnamed Product")),
      "brand" := NormalizeField(Get(data, "brand")),
      "series" := NormalizeField(Get(data, "series")),
      "model" := NormalizeField(Get(data, "model")),
      "description" := FieldOr(data, "description", Str("")),
      "imageUrls" := NormalizeField(Get(data, "imageUrls")),
      "productType" := FieldOr(data, "productType", Str("Unknown Type")),
      "price" := FieldOr(data, "price", Num(0))
    ]
  }

  /** The record carries the document id; name, description, product type
      and price are copied when truthy and otherwise take their defaults. */
  lemma ProductRecordScalars(doc: FirebaseUtils.Snapshot)
    ensures var r := ProductRecord(doc);
            && r["id"] == Str(doc.id)
            && r["name"] == (if Truthy(Get(doc.data, "name")) then doc.data["name"] else Str("Unnamed Product"))
            && r["description"] == (if Truthy(Get(doc.data, "description")) then doc.data["description"] else Str(""))
            && r["productType"] == (if Truthy(Get(doc.data, "productType")) then doc.data["productType"] else Str("Unknown Type"))
            && r["price"] == (if Truthy(Get(doc.data, "price")) then doc.data["price"] else Num(0))
  {
  }

  /** Brand, series, model and image URLs are the document's fields
      normalised to arrays. */
  lemma ProductRecordLists(doc: FirebaseUtils.Snapshot)
    ensures var r := ProductRecord(doc);
            && r["brand"] == NormalizeField(Get(doc.data, "brand"))
            && r["series"] == NormalizeField(Get(doc.data, "series"))
            && r["model"] == NormalizeField(Get(doc.data, "model"))
            && r["imageUrls"] == NormalizeField(Get(doc.data, "imageUrls"))
  {
  }

  /** Every field of an exported record is present: the name and product type
      are non-empty, and the four list fields are arrays. */
  lemma ProductRecordShape(doc: FirebaseUtils.Snapshot)
    ensures var r := ProductRecord(doc);
            && Truthy(r["name"]) && Truthy(r["productType"])
            && r["brand"].Arr? && r["series"].Arr? && r["model"].Arr? && r["imageUrls"].Arr?
  {
    ProductRecordScalars(doc);
    ProductRecordLists(doc);
  }

  /** Exporting an exported record again yields the same record. */
  lemma ProductRecordIdempotent(doc: FirebaseUtils.Snapshot)
    ensures ProductRecord(FirebaseUtils.Snapshot(doc.id, ProductRecord(doc))) == ProductRecord(doc)
  {
    var r := ProductRecord(doc);
    var again := FirebaseUtils.Snapshot(doc.id, r);
    ProductRecordShape(doc);
    ProductRecordScalars(doc);
    ProductRecordLists(doc);
    ProductRecordScalars(again);
    ProductRecordLists(again);
    assert forall k :: k in ProductFields ==> ProductRecord(again)[k] == r[k];
  }

  /** `exportCollectionToJSON("products", "./products.json")`. */
  function ExportProducts(remote: Result<seq<FirebaseUtils.Snapshot>, string>): (o: Outcome)
    ensures remote.Err? ==> o == Failed(remote.error)
    ensures remote.Ok? && remote.value == [] ==> o == NoDocuments
    ensures remote.Ok? && remote.value != [] ==>
      && o.Written? && o.path == "./products.json" && |o.records| == |remote.value|
      && forall i :: 0 <= i < |remote.value| ==> o.records[i] == ProductRecord(remote.value[i])
  {
    match remote
    case Err(e) => Failed(e)
    case Ok(docs) =>
      if docs == [] then NoDocuments
      else Written("./products.json", seq(|docs|, i requires 0 <= i < |docs| => ProductRecord(docs[i])))
  }

  // ---------------------------------------------------------------------------
  // exportAndNormalise.js

  const NormalizedFields: set<string> := {"id", "name", "brands", "models", "series", "description", "price"}

  /** The record exportAndNormalise.js writes for one document: always the
      same seven fields, whatever the document holds. */
  function NormalizedRecord(doc: FirebaseUtils.Snapshot): (r: Doc)
    ensures r.Keys == NormalizedFields
  {
    var data := doc.data;
    map[
      "id" := Str(doc.id),
      "name" := FieldOr(data, "name", Str("Unnamed Product")),
      "brands" := NormalizeField(Get(data, "brands")),
      "models" := NormalizeField(Get(data, "models")),
      "series" := NormalizeField(Get(data, "series")),
      "description" := FieldOr(data, "description", Str("")),
      "price" := FieldOr(data, "price", Num(0))
    ]
  }

  /** The record carries the document id; name, description and price are
      copied when truthy and otherwise take their defaults. */
  lemma NormalizedRecordScalars(doc: FirebaseUtils.Snapshot)
    ensures var r := NormalizedRecord(doc);
            && r["id"] == Str(doc.id)
            && r["name"] == (if Truthy(Get(doc.data, "name")) then doc.data["name"] else Str("Unnamed Product"))
            && r["description"] == (if Truthy(Get(doc.data, "description")) then doc.data["description"] else Str(""))
            && r["price"] == (if Truthy(Get(doc.data, "price")) then doc.data["price"] else Num(0))
  {
  }

  /** Brands, models and series are the document's fields normalised to
      arrays. */
  lemma NormalizedRecordLists(doc: FirebaseUtils.Snapshot)
    ensures var r := NormalizedRecord(doc);
            && r["brands"] == NormalizeField(Get(doc.data, "brands"))
            && r["models"] == NormalizeField(Get(doc.data, "models"))
            && r["series"] == NormalizeField(Get(doc.data, "series"))
  {
  }

  /** Normalising a normalised record again yields the same record. */
  lemma NormalizedRecordIdempotent(doc: FirebaseUtils.Snapshot)
    ensures NormalizedRecord(FirebaseUtils.Snapshot(doc.id, NormalizedRecord(doc))) == NormalizedRecord(doc)
  {
    var r := NormalizedRecord(doc);
    var again := FirebaseUtils.Snapshot(doc.id, r);
    NormalizedRecordScalars(doc);
    NormalizedRecordLists(doc);
    NormalizedRecordScalars(again);
    NormalizedRecordLists(again);
    assert forall k :: k in NormalizedFields ==> NormalizedRecord(again)[k] == r[k];
  }

  /** `exportAndNormalizeProducts()`. */
  function ExportAndNormalize(remote: Result<seq<FirebaseUtils.Snapshot>, string>): (o: Outcome)
    ensures remote.Err? ==> o == Failed(remote.error)
    ensures remote.Ok? && remote.value == [] ==> o == NoDocuments
    ensures remote.Ok? && remote.value != [] ==>
      && o.Written? && o.path == "./NormalizedProducts.json" && |o.records| == |remote.value|
      && forall i :: 0 <= i < |remote.value| ==> o.records[i] == NormalizedRecord(remote.value[i])
  {
    match remote
    case Err(e) => Failed(e)
    case Ok(docs) =>
      if docs == [] then NoDocuments
      else Written("./NormalizedProducts.json", seq(|docs|, i requires 0 <= i < |docs| => NormalizedRecord(docs[i])))
  }
}
