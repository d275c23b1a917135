/** The product filter of src/hooks/useFilteredProducts.js: an optional
    product-type filter, then one hierarchy rule, the selected model taking
    precedence over the series and the series over the brand. Products and
    categories are plain documents. */
module ProductFilter {
  import opened Wrappers
  import opened Js
  import Seqs

  /** The four selects; `Some(v)` is a chosen option whose `value` is `v`,
      `None` a cleared select (`null`). */
  datatype Selection = Selection(productType: Option<Value>, brand: Option<Value>,
                                 series: Option<Value>, model: Option<Value>)

  const NoSelection := Selection(None, None, None, None)

  /** `list.includes(v)` (no floating point, so SameValueZero is `===`). */
  predicate Includes(list: seq<Value>, v: Value) {
    exists x :: x in list && StrictEq(x, v)
  }

  /** `docs.map((d) => d.id)`. */
  function IdsOf(docs: seq<Doc>): (r: seq<Value>)
    ensures |r| == |docs|
    ensures forall i :: 0 <= i < |docs| ==> r[i] == Get(docs[i], "id")
  {
    seq(|docs|, i requires 0 <= i < |docs| => Get(docs[i], "id"))
  }

  /** `cat.type === kind && cat.parent === parent`. */
  predicate KindUnder(cat: Doc, kind: string, parent: Value) {
    StrictEq(Get(cat, "type"), Str(kind)) && StrictEq(Get(cat, "parent"), parent)
  }

  /** The ids of the categories of `kind` whose parent is `parent`. */
  function IdsUnder(categories: seq<Doc>, kind: string, parent: Value): (r: seq<Value>)
    ensures forall v :: v in r <==> exists c :: c in categories && KindUnder(c, kind, parent) && Get(c, "id") == v
  {
    var picked := Seqs.Filter(categories, c => KindUnder(c, kind, parent));
    var r := IdsOf(picked);
    assert forall v :: v in r ==> exists c :: c in picked && Get(c, "id") == v by {
      forall v | v in r
        ensures exists c :: c in picked && Get(c, "id") == v
      {
        var i :| 0 <= i < |r| && r[i] == v;
        assert picked[i] in picked;
      }
    }
    assert forall c :: c in picked ==> Get(c, "id") in r by {
      forall c | c in picked
        ensures Get(c, "id") in r
      {
        var i :| 0 <= i < |picked| && picked[i] == c;
        assert r[i] == Get(c, "id");
      }
    }
    r
  }

  /** A model whose parent is one of `seriesIds`. */
  predicate ModelInSeries(cat: Doc, seriesIds: seq<Value>) {
    StrictEq(Get(cat, "type"), Str("model")) && Includes(seriesIds, Get(cat, "parent"))
  }

  /** The ids of the models two hops below `brand`. */
  function ModelsOfBrand(categories: seq<Doc>, brand: Value): (r: seq<Value>)
    ensures forall v :: v in r <==>
      exists c :: c in categories && ModelInSeries(c, IdsUnder(categories, "series", brand)) && Get(c, "id") == v
  {
    var series := IdsUnder(categories, "series", brand);
    var picked := Seqs.Filter(categories, c => ModelInSeries(c, series));
    var r := IdsOf(picked);
    assert forall v :: v in r ==> exists c :: c in picked && Get(c, "id") == v by {
      forall v | v in r
        ensures exists c :: c in picked && Get(c, "id") == v
      {
        var i :| 0 <= i < |r| && r[i] == v;
        assert picked[i] in picked;
      }
    }
    assert forall c :: c in picked ==> Get(c, "id") in r by {
      forall c | c in picked
        ensures Get(c, "id") in r
      {
        var i :| 0 <= i < |picked| && picked[i] == c;
        assert r[i] == Get(c, "id");
      }
    }
    r
  }

  /** `Array.isArray(product.modelIds) && product.modelIds.some((id) => models.includes(id))`. */
  predicate CarriesAny(product: Doc, models: seq<Value>) {
    IsArray(Get(product, "modelIds")) && exists id :: id in Get(product, "modelIds").elems && Includes(models, id)
  }

  /** The always-applied product-type filter. */
  predicate TypeKeeps(sel: Selection, product: Doc) {
    sel.productType.None? || StrictEq(Get(product, "productTypeId"), sel.productType.value)
  }

  /** The hierarchy rule that fires: model, else series, else brand. */
  predicate HierarchyKeeps(categories: seq<Doc>, sel: Selection, product: Doc) {
    if sel.model.Some? then
      IsArray(Get(product, "modelIds")) && Includes(Get(product, "modelIds").elems, sel.model.value)
    else if sel.series.Some? then
      CarriesAny(product, IdsUnder(categories, "model", sel.series.value))
    else if sel.brand.Some? then
      CarriesAny(product, ModelsOfBrand(categories, sel.brand.value))
    else true
  }

  predicate Kept(categories: seq<Doc>, sel: Selection, product: Doc) {
    TypeKeeps(sel, product) && HierarchyKeeps(categories, sel, product)
  }

  /** The effect body: `filtered` is narrowed step by step. */
  method FilterProducts(products: seq<Doc>, categories: seq<Doc>, sel: Selection) returns (filtered: seq<Doc>)
    ensures filtered == Seqs.Filter(products, p => Kept(categories, sel, p))
  {
    filtered := products;
    if sel.productType.Some? {
      filtered := Seqs.Filter(filtered, p => TypeKeeps(sel, p));
    } else {
      Seqs.FilterKeepsAll(products, p => TypeKeeps(sel, p));
    }
    assert filtered == Seqs.Filter(products, p => TypeKeeps(sel, p));
    var rule: Doc -> bool;
    if sel.model.Some? {
      rule := p => IsArray(Get(p, "modelIds")) && Includes(Get(p, "modelIds").elems, sel.model.value);
      filtered := Seqs.Filter(filtered, rule);
    } else if sel.series.Some? {
      var models := IdsUnder(categories, "model", sel.series.value);
      rule := p => CarriesAny(p, models);
      filtered := Seqs.Filter(filtered, rule);
    } else if sel.brand.Some? {
      var models := ModelsOfBrand(categories, sel.brand.value);
      rule := p => CarriesAny(p, models);
      filtered := Seqs.Filter(filtered, rule);
    } else {
      rule := p => true;
      Seqs.FilterKeepsAll(filtered, rule);
    }
    assert forall p :: rule(p) == HierarchyKeeps(categories, sel, p);
    Seqs.FilterFilter(products, p => TypeKeeps(sel, p), rule, p => Kept(categories, sel, p));
  }

  /** The result keeps products in their order, leaving some out. */
  lemma FilterIsSubsequence(products: seq<Doc>, categories: seq<Doc>, sel: Selection)
    ensures Seqs.IsSubsequence(Seqs.Filter(products, p => Kept(categories, sel, p)), products)
  {
    Seqs.FilterIsSubsequence(products, p => Kept(categories, sel, p));
  }

  /** With nothing selected every product is kept. */
  lemma NoSelectionKeepsAll(products: seq<Doc>, categories: seq<Doc>)
    ensures Seqs.Filter(products, p => Kept(categories, NoSelection, p)) == products
  {
    Seqs.FilterKeepsAll(products, p => Kept(categories, NoSelection, p));
  }

  /** A selected model overrides series and brand; a selected series overrides
      the brand. */
  lemma Precedence(categories: seq<Doc>, sel: Selection, product: Doc, series: Option<Value>, brand: Option<Value>)
    ensures sel.model.Some? ==>
      Kept(categories, sel, product) == Kept(categories, sel.(series := series, brand := brand), product)
    ensures sel.model.None? && sel.series.Some? ==>
      Kept(categories, sel, product) == Kept(categories, sel.(brand := brand), product)
  {
  }

  /** Model rule: keep a product whose `modelIds` array holds the model. */
  lemma ModelRule(categories: seq<Doc>, sel: Selection, product: Doc)
    requires sel.model.Some?
    ensures HierarchyKeeps(categories, sel, product) <==>
      IsArray(Get(product, "modelIds")) &&
      exists id :: id in Get(product, "modelIds").elems && StrictEq(id, sel.model.value)
  {
  }

  /** Series rule: keep a product one of whose `modelIds` is the id of a model
      whose parent is the series. */
  lemma SeriesRule(categories: seq<Doc>, sel: Selection, product: Doc)
    requires sel.model.None? && sel.series.Some?
    ensures HierarchyKeeps(categories, sel, product) <==>
      IsArray(Get(product, "modelIds")) &&
      exists id, m :: id in Get(product, "modelIds").elems && m in categories &&
        KindUnder(m, "model", sel.series.value) && StrictEq(Get(m, "id"), id)
  {
    var models := IdsUnder(categories, "model", sel.series.value);
    if HierarchyKeeps(categories, sel, product) {
      var id :| id in Get(product, "modelIds").elems && Includes(models, id);
      var x :| x in models && StrictEq(x, id);
      var m :| m in categories && KindUnder(m, "model", sel.series.value) && Get(m, "id") == x;
    }
    if IsArray(Get(product, "modelIds")) &&
       exists id, m :: id in Get(product, "modelIds").elems && m in categories &&
         KindUnder(m, "model", sel.series.value) && StrictEq(Get(m, "id"), id) {
      var id, m :| id in Get(product, "modelIds").elems && m in categories &&
        KindUnder(m, "model", sel.series.value) && StrictEq(Get(m, "id"), id);
      assert Get(m, "id") in models;
    }
  }

  /** `v` is the id of a model whose parent is a series whose parent is
      `brand`. */
  ghost predicate ModelTwoBelow(categories: seq<Doc>, brand: Value, v: Value) {
    exists m, s :: m in categories && s in categories &&
      KindUnder(s, "series", brand) && KindUnder(m, "model", Get(s, "id")) && StrictEq(Get(m, "id"), v)
  }

  lemma ModelsOfBrandExact(categories: seq<Doc>, brand: Value, v: Value)
    ensures Includes(ModelsOfBrand(categories, brand), v) <==> ModelTwoBelow(categories, brand, v)
  {
    var series := IdsUnder(categories, "series", brand);
    var models := ModelsOfBrand(categories, brand);
    if Includes(models, v) {
      var x :| x in models && StrictEq(x, v);
      var m :| m in categories && ModelInSeries(m, series) && Get(m, "id") == x;
      var y :| y in series && StrictEq(y, Get(m, "parent"));
      var s :| s in categories && KindUnder(s, "series", brand) && Get(s, "id") == y;
      assert KindUnder(m, "model", Get(s, "id"));
    }
    if ModelTwoBelow(categories, brand, v) {
      var m, s :| m in categories && s in categories &&
        KindUnder(s, "series", brand) && KindUnder(m, "model", Get(s, "id")) && StrictEq(Get(m, "id"), v);
      assert Get(s, "id") in series;
      assert ModelInSeries(m, series);
      assert Get(m, "id") in models;
    }
  }

  /** Brand rule: keep a product one of whose `modelIds` is a model whose
      parent is a series whose parent is the brand. */
  lemma BrandRule(categories: seq<Doc>, sel: Selection, product: Doc)
    requires sel.model.None? && sel.series.None? && sel.brand.Some?
    ensures HierarchyKeeps(categories, sel, product) <==>
      IsArray(Get(product, "modelIds")) &&
      exists id :: id in Get(product, "modelIds").elems && ModelTwoBelow(categories, sel.brand.value, id)
  {
    forall id
      ensures Includes(ModelsOfBrand(categories, sel.brand.value), id) <==> ModelTwoBelow(categories, sel.brand.value, id)
    {
      ModelsOfBrandExact(categories, sel.brand.value, id);
    }
  }

  /** With a product type selected only products of that type are kept,
      whatever hierarchy rule fires. */
  lemma TypeAlwaysApplies(categories: seq<Doc>, sel: Selection, product: Doc)
    requires sel.productType.Some?
    ensures Kept(categories, sel, product) ==> StrictEq(Get(product, "productTypeId"), sel.productType.value)
  {
  }

  /** Once any hierarchy select is set, a product without a `modelIds` array
      is left out. */
  lemma NonArrayExcluded(categories: seq<Doc>, sel: Selection, product: Doc)
    requires sel.model.Some? || sel.series.Some? || sel.brand.Some?
    requires !IsArray(Get(product, "modelIds"))
    ensures !Kept(categories, sel, product)
  {
  }
}
