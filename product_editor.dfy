/** The product form of the admin screen
    (src/app/admin/components/ProductEditor.jsx): how a stored product's
    brand and series are recovered from its first model, the dependent
    option lists, the model list, and what `handleSubmit` hands to `onSave`. */
module ProductEditor {
  import opened Wrappers
  import opened Js
  import Seqs
  import ProductFilter

  /** `formData`. Fields filled from a stored product keep whatever JavaScript
      value the product had; the selects write strings. */
  datatype Form = Form(name: Value, price: Value, quantity: Value, description: Value,
                       models: seq<Value>, productType: Value, brand: Value, series: Value)

  const EmptyForm := Form(Str(""), Str(""), Num(0), Str(""), [], Str(""), Str(""), Str(""))

  /** `categories.find((c) => c.id === id)`. */
  function FindById(categories: seq<Doc>, id: Value): (r: Option<Doc>)
    ensures r.Some? ==> r.value in categories && StrictEq(Get(r.value, "id"), id)
    ensures r.Some? ==> exists k ::
      && 0 <= k < |categories|
      && categories[k] == r.value
      && forall j :: 0 <= j < k ==> !StrictEq(Get(categories[j], "id"), id)
    ensures r.None? ==> forall c :: c in categories ==> !StrictEq(Get(c, "id"), id)
  {
    Seqs.Find(categories, c => StrictEq(Get(c, "id"), id))
  }

  /** `found?.id || ""`, and likewise for other fields. */
  function FieldOr(found: Option<Doc>, key: string, default: Value): Value {
    if found.Some? then Or(Get(found.value, key), default) else default
  }

  /** `modelIds?.[0]`: the first element of an array, the first character of
      a string, an object's property "0", and `undefined` for an empty array,
      an empty string and every other value. */
  function FirstOf(list: Value): (r: Value)
    ensures list.Arr? && |list.elems| > 0 ==> r == list.elems[0]
    ensures list.Str? && |list.s| > 0 ==> r == Str([list.s[0]])
    ensures list.Obj? ==> r == Get(list.fields, "0")
    ensures (list.Arr? && |list.elems| == 0) || (list.Str? && |list.s| == 0) ==> r == Undefined
    ensures !list.Arr? && !list.Str? && !list.Obj? ==> r == Undefined
  {
    match list
    case Arr(elems) => if |elems| > 0 then elems[0] else Undefined
    case Str(s) => if |s| > 0 then Str([s[0]]) else Undefined
    case Obj(fields) => Get(fields, "0")
    case _ => Undefined
  }

  /** `modelIds || []`, read as a list of ids; a truthy non-array is read as
      an empty list. */
  function ModelList(modelIds: Value): seq<Value> {
    if modelIds.Arr? then modelIds.elems else []
  }

  /** The first model, its series and that series' brand. */
  datatype Ancestry = Ancestry(model: Option<Doc>, series: Option<Doc>, brand: Option<Doc>)

  function Ancestors(categories: seq<Doc>, modelIds: Value): (r: Ancestry)
    ensures r.model.None? ==> r.series.None?
    ensures r.series.None? ==> r.brand.None?
    ensures r.model.Some? ==> StrictEq(Get(r.model.value, "id"), Or(FirstOf(modelIds), Str("")))
    ensures r.series.Some? ==> StrictEq(Get(r.series.value, "id"), Get(r.model.value, "parent"))
    ensures r.brand.Some? ==> StrictEq(Get(r.brand.value, "id"), Get(r.series.value, "parent"))
    ensures r.model.None? <==> forall c :: c in categories ==> !StrictEq(Get(c, "id"), Or(FirstOf(modelIds), Str("")))
    ensures r.model.Some? && r.series.None? ==>
      forall c :: c in categories ==> !StrictEq(Get(c, "id"), Get(r.model.value, "parent"))
    ensures r.series.Some? && r.brand.None? ==>
      forall c :: c in categories ==> !StrictEq(Get(c, "id"), Get(r.series.value, "parent"))
  {
    var model := FindById(categories, Or(FirstOf(modelIds), Str("")));
    var series := if model.Some? then FindById(categories, Get(model.value, "parent")) else None;
    var brand := if series.Some? then FindById(categories, Get(series.value, "parent")) else None;
    Ancestry(model, series, brand)
  }

  /** The load effect: the form filled from `productData`. */
  function Load(productData: Doc, categories: seq<Doc>): (f: Form)
    ensures f.models == ModelList(Get(productData, "modelIds"))
    ensures f.series == FieldOr(Ancestors(categories, Get(productData, "modelIds")).series, "id", Str(""))
    ensures f.brand == FieldOr(Ancestors(categories, Get(productData, "modelIds")).brand, "id", Str(""))
  {
    var a := Ancestors(categories, Get(productData, "modelIds"));
    Form(Or(Get(productData, "name"), Str("")), Or(Get(productData, "price"), Str("")),
         Or(Get(productData, "quantity"), Num(0)), Or(Get(productData, "description"), Str("")),
         ModelList(Get(productData, "modelIds")), Or(Get(productData, "productTypeId"), Str("")),
         FieldOr(a.brand, "id", Str("")), FieldOr(a.series, "id", Str("")))
  }

  /** When the first model is missing, so are series and brand; when its
      series is missing, so is the brand. Each missing link reads as `""`. */
  lemma LoadMissingLinks(productData: Doc, categories: seq<Doc>)
    ensures var a := Ancestors(categories, Get(productData, "modelIds"));
            var f := Load(productData, categories);
            && (a.model.None? ==> f.series == Str("") && f.brand == Str(""))
            && (a.series.None? ==> f.brand == Str(""))
  {
  }

  /** With unique truthy ids, a product whose first model sits under a series
      under a brand loads with exactly that series and brand. */
  lemma LoadResolvesChain(productData: Doc, categories: seq<Doc>, m: Doc, s: Doc, b: Doc)
    requires forall c, d :: c in categories && d in categories && StrictEq(Get(c, "id"), Get(d, "id")) ==> c == d
    requires m in categories && s in categories && b in categories
    requires Truthy(Get(m, "id")) && Truthy(Get(s, "id")) && Truthy(Get(b, "id"))
    requires StrictEq(FirstOf(Get(productData, "modelIds")), Get(m, "id"))
    requires StrictEq(Get(m, "parent"), Get(s, "id")) && StrictEq(Get(s, "parent"), Get(b, "id"))
    ensures Load(productData, categories).series == Get(s, "id")
    ensures Load(productData, categories).brand == Get(b, "id")
  {
    var a := Ancestors(categories, Get(productData, "modelIds"));
    assert FindById(categories, Get(m, "id")).Some?;
    assert a.model == Some(m);
    assert FindById(categories, Get(s, "id")).Some?;
    assert a.series == Some(s);
    assert FindById(categories, Get(b, "id")).Some?;
    assert a.brand == Some(b);
  }

  // ---------------------------------------------------------------------------
  // Options and selection handlers

  /** `cat.type === kind && cat.parent === parent`. */
  function OptionsUnder(categories: seq<Doc>, kind: string, parent: Value): (r: seq<Doc>)
    ensures forall c :: c in r <==> c in categories && ProductFilter.KindUnder(c, kind, parent)
    ensures Seqs.IsSubsequence(r, categories)
  {
    Seqs.FilterIsSubsequence(categories, c => ProductFilter.KindUnder(c, kind, parent));
    Seqs.Filter(categories, c => ProductFilter.KindUnder(c, kind, parent))
  }

  /** `filteredSeries`. */
  function SeriesChoices(categories: seq<Doc>, form: Form): seq<Doc> {
    OptionsUnder(categories, "series", form.brand)
  }

  /** `filteredModels`. */
  function ModelChoices(categories: seq<Doc>, form: Form): seq<Doc> {
    OptionsUnder(categories, "model", form.series)
  }

  /** The brand select: series and models are cleared. */
  function ChangeBrand(form: Form, brand: string): (f: Form)
    ensures f.brand == Str(brand) && f.series == Str("") && f.models == []
    ensures f.(brand := form.brand, series := form.series, models := form.models) == form
  {
    form.(brand := Str(brand), series := Str(""), models := [])
  }

  /** The series select: models are cleared. */
  function ChangeSeries(form: Form, series: string): (f: Form)
    ensures f.series == Str(series) && f.models == []
    ensures f.(series := form.series, models := form.models) == form
  {
    form.(series := Str(series), models := [])
  }

  /** The model select: `""` and an id already listed are ignored. */
  function AddModel(form: Form, selected: string): (f: Form)
    ensures f.(models := form.models) == form
    ensures selected == "" || Str(selected) in form.models ==> f == form
    ensures selected != "" && Str(selected) !in form.models ==> f.models == form.models + [Str(selected)]
  {
    if selected != "" && !ProductFilter.Includes(form.models, Str(selected)) then
      form.(models := form.models + [Str(selected)])
    else form
  }

  /** The remove button of a listed model. */
  function RemoveModel(form: Form, model: string): (f: Form)
    ensures f.(models := form.models) == form
    ensures forall m :: m in f.models <==> m in form.models && m != Str(model)
    ensures Seqs.IsSubsequence(f.models, form.models)
  {
    Seqs.FilterIsSubsequence(form.models, m => !StrictEq(m, Str(model)));
    form.(models := Seqs.Filter(form.models, m => !StrictEq(m, Str(model))))
  }

  /** Adding keeps the model list free of repeats. */
  lemma AddModelDistinct(form: Form, selected: string)
    requires Seqs.NoDuplicates(form.models)
    ensures Seqs.NoDuplicates(AddModel(form, selected).models)
  {
  }

  /** Removing keeps the model list free of repeats. */
  lemma RemoveModelDistinct(form: Form, model: string)
    requires Seqs.NoDuplicates(form.models)
    ensures Seqs.NoDuplicates(RemoveModel(form, model).models)
  {
    var f := RemoveModel(form, model);
    Seqs.FilterIsSubsequence(form.models, m => !StrictEq(m, Str(model)));
    Seqs.SubsequenceDistinct(f.models, form.models);
  }

  // ---------------------------------------------------------------------------
  // handleSubmit

  /** `!name || !price || models.length === 0 || !productType`. */
  predicate Complete(form: Form) {
    Truthy(form.name) && Truthy(form.price) && |form.models| != 0 && Truthy(form.productType)
  }

  datatype File = File(name: string)

  /** `products/<brand slug>/<model slug>/<file name>`. */
  function UploadPath(brandSlug: string, modelSlug: string, file: File): string {
    "products/" + brandSlug + "/" + modelSlug + "/" + file.name
  }

  /** The paths of the uploads that succeeded, in upload order. */
  function UploadedPaths(files: seq<File>, uploaded: seq<bool>, brandSlug: string, modelSlug: string): (r: seq<string>)
    requires |uploaded| == |files|
    ensures |r| <= |files|
    decreases |files|
  {
    if files == [] then []
    else (if uploaded[0] then [UploadPath(brandSlug, modelSlug, files[0])] else [])
         + UploadedPaths(files[1..], uploaded[1..], brandSlug, modelSlug)
  }

  /** Each path names its file under the brand and model folders; every
      successful upload is listed and no failed one. */
  lemma {:induction false} UploadedPathsSpec(files: seq<File>, uploaded: seq<bool>, brandSlug: string, modelSlug: string)
    requires |uploaded| == |files|
    ensures forall i :: 0 <= i < |files| && uploaded[i] ==>
      UploadPath(brandSlug, modelSlug, files[i]) in UploadedPaths(files, uploaded, brandSlug, modelSlug)
    ensures forall p :: p in UploadedPaths(files, uploaded, brandSlug, modelSlug) ==>
      exists i :: 0 <= i < |files| && uploaded[i] && p == UploadPath(brandSlug, modelSlug, files[i])
    ensures (forall i :: 0 <= i < |files| ==> uploaded[i]) ==> |UploadedPaths(files, uploaded, brandSlug, modelSlug)| == |files|
    decreases |files|
  {
    if files != [] {
      UploadedPathsSpec(files[1..], uploaded[1..], brandSlug, modelSlug);
      forall p | p in UploadedPaths(files[1..], uploaded[1..], brandSlug, modelSlug)
        ensures exists i :: 0 <= i < |files| && uploaded[i] && p == UploadPath(brandSlug, modelSlug, files[i])
      {
        var i :| 0 <= i < |files[1..]| && uploaded[1..][i] && p == UploadPath(brandSlug, modelSlug, files[1..][i]);
        assert files[i + 1] == files[1..][i];
      }
      forall i | 0 < i < |files| && uploaded[i]
        ensures UploadPath(brandSlug, modelSlug, files[i]) in UploadedPaths(files[1..], uploaded[1..], brandSlug, modelSlug)
      {
        assert files[1..][i - 1] == files[i] && uploaded[1..][i - 1];
      }
    }
  }

  /** The brand folder name: the brand's name or "unknown-brand", slugified
      by `slugLower` (the npm `slugify` with `lower: true`). */
  function BrandSlug(categories: seq<Doc>, form: Form, slugLower: Value -> string): string {
    slugLower(FieldOr(FindById(categories, form.brand), "name", Str("unknown-brand")))
  }

  /** The model folder name, from the first listed model. */
  function ModelSlug(categories: seq<Doc>, form: Form, slugLower: Value -> string): string
    requires form.models != []
  {
    slugLower(FieldOr(FindById(categories, form.models[0]), "name", Str("unknown-model")))
  }

  function Strs(paths: seq<string>): (r: seq<Value>)
    ensures |r| == |paths|
    ensures forall i :: 0 <= i < |paths| ==> r[i] == Str(paths[i])
  {
    seq(|paths|, i requires 0 <= i < |paths| => Str(paths[i]))
  }

  /** `productData?.imageUrls || []`: the stored image list when there is a
      stored product and its value is truthy, `[]` otherwise. */
  function StoredImages(productData: Option<Doc>): (v: Value)
    ensures productData.Some? && Truthy(Get(productData.value, "imageUrls")) ==> v == productData.value["imageUrls"]
    ensures productData.None? || !Truthy(Get(productData.value, "imageUrls")) ==> v == Arr([])
  {
    if productData.Some? then Or(Get(productData.value, "imageUrls"), Arr([])) else Arr([])
  }

  /** The record passed to `onSave`; `price` and `quantity` are the parsed
      numbers, supplied by the caller. Building it spreads the stored image
      list, which throws when that list is a truthy value other than an array
      or a string. */
  function Submission(productData: Option<Doc>, form: Form, paths: seq<string>,
                      parsedPrice: Value, parsedQuantity: Value): (r: Result<Doc, string>)
    ensures r.Ok? ==> r.value.Keys == {"id", "name", "price", "quantity", "description", "imageUrls", "modelIds", "productTypeId", "brandIds"}
    ensures var stored := StoredImages(productData);
      stored.Arr? ==>
        r.Ok? && r.value["imageUrls"] == Arr(stored.elems + Strs(paths))
    ensures var stored := StoredImages(productData);
      stored.Str? ==>
        && r.Ok? && r.value["imageUrls"].Arr?
        && |r.value["imageUrls"].elems| == |stored.s| + |paths|
        && (forall i :: 0 <= i < |stored.s| ==> r.value["imageUrls"].elems[i] == Str([stored.s[i]]))
        && r.value["imageUrls"].elems[|stored.s|..] == Strs(paths)
    ensures var stored := StoredImages(productData);
      !stored.Arr? && !stored.Str? ==> r == Err(TypeError)
    ensures r.Ok? ==>
      && r.value["name"] == form.name && r.value["description"] == form.description
      && r.value["price"] == parsedPrice && r.value["quantity"] == parsedQuantity
      && r.value["productTypeId"] == form.productType
    ensures r.Ok? ==> r.value["modelIds"] == Arr(form.models)
    ensures r.Ok? ==> r.value["brandIds"] == if Truthy(form.brand) then Arr([form.brand]) else Arr([])
    ensures r.Ok? ==> r.value["id"] == if productData.Some? && Truthy(Get(productData.value, "id")) then productData.value["id"] else Undefined
  {
    match ArraySpread(StoredImages(productData))
    case Err(e) => Err(e)
    case Ok(existing) =>
      Ok(map[
        "id" := if productData.Some? then Or(Get(productData.value, "id"), Undefined) else Undefined,
        "name" := form.name,
        "price" := parsedPrice,
        "quantity" := parsedQuantity,
        "description" := form.description,
        "imageUrls" := Arr(existing + Strs(paths)),
        "modelIds" := Arr(form.models),
        "productTypeId" := form.productType,
        "brandIds" := if Truthy(form.brand) then Arr([form.brand]) else Arr([])])
  }

  /** The upload loop: each image is uploaded in turn and, when that
      succeeds, its storage path is appended to the list. */
  method UploadAll(newImages: seq<File>, uploaded: seq<bool>, brandSlug: string, modelSlug: string)
    returns (paths: seq<string>)
    requires |uploaded| == |newImages|
    ensures paths == UploadedPaths(newImages, uploaded, brandSlug, modelSlug)
  {
    paths := [];
    var i := 0;
    while i < |newImages|
      invariant 0 <= i <= |newImages|
      invariant paths + UploadedPaths(newImages[i..], uploaded[i..], brandSlug, modelSlug)
             == UploadedPaths(newImages, uploaded, brandSlug, modelSlug)
    {
      assert newImages[i..][1..] == newImages[i + 1..];
      assert uploaded[i..][1..] == uploaded[i + 1..];
      if uploaded[i] {
        paths := paths + [UploadPath(brandSlug, modelSlug, newImages[i])];
      }
      i := i + 1;
    }
    assert newImages[i..] == [];
  }

  /** What `handleSubmit` ends in. */
  datatype SubmitOutcome =
    | Incomplete          // the alert; nothing is uploaded and `onSave` is not called
    | Saved(record: Doc)  // `onSave(record)`
    | Threw(error: string) // building the record threw after the uploads; `onSave` is not called

  /** `handleSubmit`: an incomplete form stops at the alert; otherwise the
      uploads run one by one, `uploaded[i]` being whether the i-th succeeded,
      and the record built from the uploaded paths is saved, unless building
      it throws. */
  method HandleSubmit(productData: Option<Doc>, categories: seq<Doc>, form: Form, newImages: seq<File>,
                      uploaded: seq<bool>, slugLower: Value -> string, parsedPrice: Value, parsedQuantity: Value)
    returns (outcome: SubmitOutcome)
    requires |uploaded| == |newImages|
    ensures !Complete(form) ==> outcome == Incomplete
    ensures Complete(form) ==>
      var record := Submission(productData, form,
        UploadedPaths(newImages, uploaded, BrandSlug(categories, form, slugLower), ModelSlug(categories, form, slugLower)),
        parsedPrice, parsedQuantity);
      outcome == if record.Ok? then Saved(record.value) else Threw(record.error)
  {
    if !Complete(form) {
      return Incomplete;
    }
    var brandSlug := BrandSlug(categories, form, slugLower);
    var modelSlug := ModelSlug(categories, form, slugLower);
    var uploadedPaths := UploadAll(newImages, uploaded, brandSlug, modelSlug);
    var record := Submission(productData, form, uploadedPaths, parsedPrice, parsedQuantity);
    outcome := if record.Ok? then Saved(record.value) else Threw(record.error);
  }
}
