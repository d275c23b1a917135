/** The product list of the admin screen (src/app/admin/ProductsManager.jsx):
    the dependent brand/series/model dropdowns, the selection handlers with
    their page reset, and the 25-per-page slicing. */
module ProductsManager {
  import opened Wrappers
  import opened Js
  import Seqs
  import ProductFilter

  /** `{ value: c.id, label: c.name }`; `label` is a reserved word here, so the field is `caption`. */
  datatype SelectOption = SelectOption(value: Value, caption: Value)

  function ToOptions(cats: seq<Doc>): (r: seq<SelectOption>)
    ensures |r| == |cats|
    ensures forall i :: 0 <= i < |cats| ==> r[i] == SelectOption(Get(cats[i], "id"), Get(cats[i], "name"))
  {
    seq(|cats|, i requires 0 <= i < |cats| => SelectOption(Get(cats[i], "id"), Get(cats[i], "name")))
  }

  function Values(options: seq<SelectOption>): (r: seq<Value>)
    ensures |r| == |options|
    ensures forall i :: 0 <= i < |options| ==> r[i] == options[i].value
  {
    seq(|options|, i requires 0 <= i < |options| => options[i].value)
  }

  predicate IsKind(cat: Doc, kind: string) {
    StrictEq(Get(cat, "type"), Str(kind))
  }

  /** `brandOptions`: every brand, in list order. */
  function BrandOptions(categories: seq<Doc>): (r: seq<SelectOption>)
    ensures forall o :: o in r <==> exists c :: c in categories && IsKind(c, "brand") && o == SelectOption(Get(c, "id"), Get(c, "name"))
  {
    var brands := Seqs.Filter(categories, c => IsKind(c, "brand"));
    var r := ToOptions(brands);
    assert forall o :: o in r ==> exists c :: c in brands && o == SelectOption(Get(c, "id"), Get(c, "name")) by {
      forall o | o in r
        ensures exists c :: c in brands && o == SelectOption(Get(c, "id"), Get(c, "name"))
      {
        var i :| 0 <= i < |r| && r[i] == o;
        assert brands[i] in brands;
      }
    }
    assert forall c :: c in brands ==> SelectOption(Get(c, "id"), Get(c, "name")) in r by {
      forall c | c in brands
        ensures SelectOption(Get(c, "id"), Get(c, "name")) in r
      {
        var i :| 0 <= i < |brands| && brands[i] == c;
        assert r[i] == SelectOption(Get(c, "id"), Get(c, "name"));
      }
    }
    r
  }

  /** A series shown under the selected brand, or any series without one. */
  predicate SeriesOffered(cat: Doc, brand: Option<Value>) {
    IsKind(cat, "series") && (brand.None? || StrictEq(Get(cat, "parent"), brand.value))
  }

  /** `seriesOptions`. */
  function SeriesOptions(categories: seq<Doc>, brand: Option<Value>): seq<SelectOption> {
    ToOptions(Seqs.Filter(categories, c => SeriesOffered(c, brand)))
  }

  /** The filter callback of `modelOptions`: series before brand before all. */
  predicate ModelOffered(categories: seq<Doc>, sel: ProductFilter.Selection, cat: Doc) {
    if !IsKind(cat, "model") then false
    else if sel.series.Some? then StrictEq(Get(cat, "parent"), sel.series.value)
    else if sel.brand.Some? then
      ProductFilter.Includes(ProductFilter.IdsUnder(categories, "series", sel.brand.value), Get(cat, "parent"))
    else true
  }

  /** `modelOptions`. */
  function ModelOptions(categories: seq<Doc>, sel: ProductFilter.Selection): seq<SelectOption> {
    ToOptions(Seqs.Filter(categories, c => ModelOffered(categories, sel, c)))
  }

  lemma {:induction false} ValuesOfOptions(cats: seq<Doc>)
    ensures Values(ToOptions(cats)) == ProductFilter.IdsOf(cats)
  {
  }

  /** The series dropdown offers exactly the series under the selected brand,
      or every series when no brand is selected. */
  lemma SeriesOptionsExact(categories: seq<Doc>, brand: Option<Value>, v: Value)
    ensures v in Values(SeriesOptions(categories, brand)) <==>
      exists c :: c in categories && IsKind(c, "series") &&
        (brand.None? || StrictEq(Get(c, "parent"), brand.value)) && Get(c, "id") == v
  {
    var picked := Seqs.Filter(categories, c => SeriesOffered(c, brand));
    ValuesOfOptions(picked);
    if v in Values(SeriesOptions(categories, brand)) {
      var i :| 0 <= i < |picked| && ProductFilter.IdsOf(picked)[i] == v;
      assert picked[i] in picked;
    }
    if c :| c in categories && IsKind(c, "series") && (brand.None? || StrictEq(Get(c, "parent"), brand.value)) && Get(c, "id") == v {
      assert c in picked;
      var i :| 0 <= i < |picked| && picked[i] == c;
      assert ProductFilter.IdsOf(picked)[i] == v;
    }
  }

  /** Under a selected series the model dropdown offers exactly the models
      the series filter accepts. */
  lemma ModelOptionsUnderSeries(categories: seq<Doc>, sel: ProductFilter.Selection)
    requires sel.series.Some?
    ensures Values(ModelOptions(categories, sel)) == ProductFilter.IdsUnder(categories, "model", sel.series.value)
  {
    ValuesOfOptions(Seqs.Filter(categories, c => ModelOffered(categories, sel, c)));
    Seqs.FilterExt(categories, c => ModelOffered(categories, sel, c),
                   c => ProductFilter.KindUnder(c, "model", sel.series.value));
  }

  /** Under a selected brand and no series the model dropdown offers exactly
      the models the brand filter accepts, two hops below the brand. */
  lemma ModelOptionsUnderBrand(categories: seq<Doc>, sel: ProductFilter.Selection)
    requires sel.series.None? && sel.brand.Some?
    ensures Values(ModelOptions(categories, sel)) == ProductFilter.ModelsOfBrand(categories, sel.brand.value)
  {
    ValuesOfOptions(Seqs.Filter(categories, c => ModelOffered(categories, sel, c)));
    var series := ProductFilter.IdsUnder(categories, "series", sel.brand.value);
    Seqs.FilterExt(categories, c => ModelOffered(categories, sel, c),
                   c => ProductFilter.ModelInSeries(c, series));
  }

  /** With neither series nor brand selected every model is offered. */
  lemma ModelOptionsUnfiltered(categories: seq<Doc>, sel: ProductFilter.Selection)
    requires sel.series.None? && sel.brand.None?
    ensures forall c :: c in categories && IsKind(c, "model") ==>
      SelectOption(Get(c, "id"), Get(c, "name")) in ModelOptions(categories, sel)
  {
    var picked := Seqs.Filter(categories, c => ModelOffered(categories, sel, c));
    forall c | c in categories && IsKind(c, "model")
      ensures SelectOption(Get(c, "id"), Get(c, "name")) in ModelOptions(categories, sel)
    {
      assert c in picked;
      var i :| 0 <= i < |picked| && picked[i] == c;
      assert ToOptions(picked)[i] == SelectOption(Get(c, "id"), Get(c, "name"));
    }
  }

  // ---------------------------------------------------------------------------
  // Paging

  const ItemsPerPage := 25

  /** A `slice` bound: a negative one counts from the end; both are clamped
      into the list. */
  function SliceIndex(i: int, len: nat): (r: nat)
    ensures r <= len
    ensures 0 <= i ==> r == if i < len then i else len
  {
    if i < 0 then (if len + i < 0 then 0 else len + i)
    else if i < len then i else len
  }

  /** `s.slice(start, end)`. */
  function Slice<T>(s: seq<T>, start: int, end: int): (r: seq<T>)
    ensures |r| <= |s|
  {
    var a := SliceIndex(start, |s|);
    var b := SliceIndex(end, |s|);
    if a < b then s[a..b] else []
  }

  /** `currentProducts` for `currentPage`. */
  function PageOf<T>(filtered: seq<T>, page: int): seq<T> {
    Slice(filtered, page * ItemsPerPage - ItemsPerPage, page * ItemsPerPage)
  }

  /** `Math.ceil(n / 25)`. */
  function TotalPages(n: nat): (r: nat)
    ensures r * ItemsPerPage >= n
    ensures r == 0 || (r - 1) * ItemsPerPage < n
  {
    (n + ItemsPerPage - 1) / ItemsPerPage
  }

  /** A page never holds more than 25 products, whatever the page number. */
  lemma PageBound<T>(filtered: seq<T>, page: int)
    ensures |PageOf(filtered, page)| <= ItemsPerPage
  {
  }

  /** Page `p` (from 1) is the `p`-th run of 25 products, cut at the end. */
  lemma PageContents<T>(filtered: seq<T>, page: int)
    requires page >= 1
    ensures var n := |filtered|;
            var lo := if (page - 1) * ItemsPerPage < n then (page - 1) * ItemsPerPage else n;
            var hi := if page * ItemsPerPage < n then page * ItemsPerPage else n;
            PageOf(filtered, page) == filtered[lo..hi]
  {
  }

  /** There are no pages of an empty list, and a page past the last is empty. */
  lemma PastLastPage<T>(filtered: seq<T>, page: int)
    requires page > TotalPages(|filtered|)
    ensures PageOf(filtered, page) == []
  {
  }

  /** Pages `1..k` one after the other. */
  function FirstPages<T>(filtered: seq<T>, k: nat): seq<T>
    decreases k
  {
    if k == 0 then [] else FirstPages(filtered, k - 1) + PageOf(filtered, k)
  }

  lemma {:induction false} FirstPagesPrefix<T>(filtered: seq<T>, k: nat)
    ensures FirstPages(filtered, k) == filtered[..if k * ItemsPerPage < |filtered| then k * ItemsPerPage else |filtered|]
    decreases k
  {
    if k > 0 {
      FirstPagesPrefix(filtered, k - 1);
      PageContents(filtered, k);
      var lo := if (k - 1) * ItemsPerPage < |filtered| then (k - 1) * ItemsPerPage else |filtered|;
      var hi := if k * ItemsPerPage < |filtered| then k * ItemsPerPage else |filtered|;
      assert filtered[..lo] + filtered[lo..hi] == filtered[..hi];
    }
  }

  /** Pages `1..totalPages` partition the filtered list, in order. */
  lemma PagesPartition<T>(filtered: seq<T>)
    ensures FirstPages(filtered, TotalPages(|filtered|)) == filtered
  {
    FirstPagesPrefix(filtered, TotalPages(|filtered|));
  }

  // ---------------------------------------------------------------------------
  // The select state

  /** The four selects and the current page of the screen. */
  class ProductsView {
    var selection: ProductFilter.Selection
    var currentPage: int

    /** The initial state: nothing selected, page 1. */
    constructor ()
      ensures selection == ProductFilter.NoSelection && currentPage == 1
    {
      selection := ProductFilter.NoSelection;
      currentPage := 1;
    }

    /** After a render whose selected values differ, the effect keyed on the
        filter values puts the page back to 1. */
    method Rekey(before: ProductFilter.Selection)
      modifies this
      ensures selection == old(selection)
      ensures currentPage == if selection != before then 1 else old(currentPage)
    {
      if selection != before {
        currentPage := 1;
      }
    }

    method SelectType(option: Option<Value>)
      modifies this
      ensures selection == old(selection).(productType := option)
      ensures currentPage == if selection != old(selection) then 1 else old(currentPage)
    {
      var before := selection;
      selection := selection.(productType := option);
      Rekey(before);
    }

    /** Choosing a brand clears series and model. */
    method SelectBrand(option: Option<Value>)
      modifies this
      ensures selection == old(selection).(brand := option, series := None, model := None)
      ensures currentPage == if selection != old(selection) then 1 else old(currentPage)
    {
      var before := selection;
      selection := selection.(brand := option, series := None, model := None);
      Rekey(before);
    }

    /** Choosing a series clears the model. */
    method SelectSeries(option: Option<Value>)
      modifies this
      ensures selection == old(selection).(series := option, model := None)
      ensures currentPage == if selection != old(selection) then 1 else old(currentPage)
    {
      var before := selection;
      selection := selection.(series := option, model := None);
      Rekey(before);
    }

    method SelectModel(option: Option<Value>)
      modifies this
      ensures selection == old(selection).(model := option)
      ensures currentPage == if selection != old(selection) then 1 else old(currentPage)
    {
      var before := selection;
      selection := selection.(model := option);
      Rekey(before);
    }

    /** `onPageChange`. */
    method ChangePage(page: int)
      modifies this
      ensures selection == old(selection) && currentPage == page
    {
      currentPage := page;
    }

    /** Submitting the form for a new product goes back to page 1. */
    method SubmitNew()
      modifies this
      ensures selection == old(selection) && currentPage == 1
    {
      currentPage := 1;
    }
  }
}
