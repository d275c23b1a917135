/** The shop's product list, src/app/shop/page.jsx: products are fetched
    five at a time, ordered by price, and each "Load More" appends the next
    page after the last document seen. What `getDocs` yields for a cursor is
    a parameter, and `StoreQuery` gives it for a fixed collection. */
module ShopPage {
  import opened Wrappers
  import opened Js
  import FirebaseUtils
  import Seqs

  const ProductsCollection := "Products"
  const PageSize := 5
  const FetchFailed := "Failed to fetch products."

  /** `products`, `loading`, `error`, `lastDoc` and `hasMore`. */
  datatype ShopState = ShopState(products: seq<Doc>, loading: bool, error: Option<string>,
                                 lastDoc: Option<FirebaseUtils.Snapshot>, hasMore: bool)

  const Initial := ShopState([], true, None, None, true)

  /** The products one page of snapshots yields. */
  function PageDocs(snapshots: seq<FirebaseUtils.Snapshot>): (r: seq<Doc>)
    ensures |r| == |snapshots|
  {
    FirebaseUtils.ValidateDocuments(FirebaseUtils.RawAll(snapshots), ProductsCollection)
  }

  /** `PageDocs` of two runs of snapshots is the two lists in turn. */
  lemma PageDocsAppend(a: seq<FirebaseUtils.Snapshot>, b: seq<FirebaseUtils.Snapshot>)
    ensures PageDocs(a + b) == PageDocs(a) + PageDocs(b)
  {
    RawAllAppend(a, b);
    ValidateAppend(FirebaseUtils.RawAll(a), FirebaseUtils.RawAll(b));
  }

  lemma RawAllAppend(a: seq<FirebaseUtils.Snapshot>, b: seq<FirebaseUtils.Snapshot>)
    ensures FirebaseUtils.RawAll(a + b) == FirebaseUtils.RawAll(a) + FirebaseUtils.RawAll(b)
  {
    var l := FirebaseUtils.RawAll(a + b);
    var r := FirebaseUtils.RawAll(a) + FirebaseUtils.RawAll(b);
    forall i | 0 <= i < |l|
      ensures l[i] == r[i]
    {
      if i < |a| {
        assert (a + b)[i] == a[i];
      } else {
        assert (a + b)[i] == b[i - |a|];
      }
    }
  }

  lemma ValidateAppend(a: seq<Doc>, b: seq<Doc>)
    ensures FirebaseUtils.ValidateDocuments(a + b, ProductsCollection)
         == FirebaseUtils.ValidateDocuments(a, ProductsCollection) + FirebaseUtils.ValidateDocuments(b, ProductsCollection)
  {
    var l := FirebaseUtils.ValidateDocuments(a + b, ProductsCollection);
    var r := FirebaseUtils.ValidateDocuments(a, ProductsCollection) + FirebaseUtils.ValidateDocuments(b, ProductsCollection);
    forall i | 0 <= i < |l|
      ensures l[i] == r[i]
    {
      if i < |a| {
        assert (a + b)[i] == a[i];
      } else {
        assert (a + b)[i] == b[i - |a|];
      }
    }
  }

  /** What `getDocs` yields for the products query with a given cursor
      (`None` for `null`). */
  type Query = Option<FirebaseUtils.Snapshot> -> Result<seq<FirebaseUtils.Snapshot>, string>

  /** The cursor `fetchProducts(isNextPage)` passes: `lastDoc` for the next
      page, `null` for the first. */
  function Cursor(s: ShopState, isNextPage: bool): Option<FirebaseUtils.Snapshot> {
    if isNextPage then s.lastDoc else None
  }

  /** "Load More" is on show: the page is not showing its error, and the
      button needs `hasMore && !loading`. */
  predicate LoadMoreOffered(s: ShopState) {
    s.hasMore && !s.loading && s.error.None?
  }

  /** `setLoading(true)`, the start of every fetch: "Load More" disappears
      until the fetch ends. */
  function Started(s: ShopState): (r: ShopState)
    ensures r.loading && !LoadMoreOffered(r)
    ensures r.products == s.products && r.lastDoc == s.lastDoc && r.hasMore == s.hasMore && r.error == s.error
  {
    s.(loading := true)
  }

  /** The state once `fetchProducts(isNextPage)` ends, `query` answering the
      cursor it passes. A page replaces the list on the first fetch and is
      appended after it on the next ones; its last snapshot becomes
      `lastDoc`; a short page ends `hasMore` for good. A failure sets the
      error and changes nothing else. */
  function Fetched(s: ShopState, isNextPage: bool, query: Query): (r: ShopState)
    ensures !r.loading
    ensures var remote := query(if isNextPage then s.lastDoc else None);
            && (remote.Err? ==> r == s.(loading := false, error := Some(FetchFailed)))
            && (remote.Ok? ==>
                && r.products == (if isNextPage then s.products + PageDocs(remote.value) else PageDocs(remote.value))
                && r.lastDoc == (if |remote.value| == 0 then None else Some(remote.value[|remote.value| - 1]))
                && (r.hasMore <==> s.hasMore && |remote.value| >= PageSize)
                && r.error == s.error)
    ensures !s.hasMore ==> !r.hasMore
    ensures s.error.Some? ==> r.error.Some?
  {
    match FirebaseUtils.FetchPaginatedDocuments(ProductsCollection, query(Cursor(s, isNextPage)))
    case Err(_) => s.(loading := false, error := Some(FetchFailed))
    case Ok(page) =>
      s.(products := if isNextPage then s.products + page.docs else page.docs,
         lastDoc := page.lastVisible,
         hasMore := if |page.docs| < PageSize then false else s.hasMore,
         loading := false)
  }

  /** A click on "Load More", `fetchProducts(true)`; where the button is not
      on show the click cannot happen and nothing changes. */
  function Press(s: ShopState, query: Query): ShopState {
    if LoadMoreOffered(s) then Fetched(Started(s), true, query) else s
  }

  /** The page after the first fetch and `n` clicks on "Load More". */
  function Session(query: Query, n: nat): (r: ShopState)
    ensures !r.loading
  {
    if n == 0 then Fetched(Initial, false, query) else Press(Session(query, n - 1), query)
  }

  // ---------------------------------------------------------------------------
  // The products query over a fixed collection

  function Min(a: int, b: int): int {
    if a <= b then a else b
  }

  /** Where `startAfter(cursor)` resumes in `store`, the collection in
      `price` order: just after the cursor's snapshot, at the start without a
      cursor, and past the end for a snapshot the collection does not hold. */
  function Start(store: seq<FirebaseUtils.Snapshot>, cursor: Option<FirebaseUtils.Snapshot>): (i: nat)
    ensures i <= |store|
    ensures cursor.None? ==> i == 0
    ensures cursor.Some? && i < |store| ==> 0 < i && store[i - 1] == cursor.value
  {
    match cursor
    case None => 0
    case Some(d) =>
      match Seqs.FindIndex(store, x => x == d)
      case Some(k) => k + 1
      case None => |store|
  }

  /** `getDocs` of `limit(5)` and `startAfter(cursor)` over `store`: the next
      five snapshots at most. */
  function StoreQuery(store: seq<FirebaseUtils.Snapshot>): Query {
    c => Ok(store[Start(store, c)..Min(Start(store, c) + PageSize, |store|)])
  }

  /** In a collection without repeated snapshots the cursor `store[i]`
      resumes at `i + 1`. */
  lemma StartAfterIndex(store: seq<FirebaseUtils.Snapshot>, i: nat)
    requires Seqs.NoDuplicates(store) && i < |store|
    ensures Start(store, Some(store[i])) == i + 1
  {
    var f := (x: FirebaseUtils.Snapshot) => x == store[i];
    assert f(store[i]);
    match Seqs.FindIndex(store, f)
    case Some(k) =>
      assert store[k] == store[i];
    case None =>
  }

  /** The shop lists the products of the first `a` snapshots of `store`
      (all of them when there are fewer); "Load More" is on show exactly
      while `a` snapshots exist, resuming after the `a`-th. */
  predicate ShowsPrefix(store: seq<FirebaseUtils.Snapshot>, s: ShopState, a: nat) {
    && s.products == PageDocs(store[..Min(a, |store|)])
    && PagedTo(store, s, a)
  }

  /** The paging part of `ShowsPrefix`. */
  predicate PagedTo(store: seq<FirebaseUtils.Snapshot>, s: ShopState, a: nat) {
    && (s.hasMore <==> a <= |store|)
    && (s.hasMore ==> 0 < a && s.lastDoc == Some(store[a - 1]))
    && s.error.None? && !s.loading
  }

  lemma SessionFirst(store: seq<FirebaseUtils.Snapshot>)
    ensures ShowsPrefix(store, Fetched(Initial, false, StoreQuery(store)), PageSize)
  {
    assert StoreQuery(store)(None) == Ok(store[0..Min(PageSize, |store|)]);
    assert store[0..Min(PageSize, |store|)] == store[..Min(PageSize, |store|)];
  }

  /** One click moves the shown prefix on by a page. */
  lemma PressStep(store: seq<FirebaseUtils.Snapshot>, s: ShopState, a: nat)
    requires Seqs.NoDuplicates(store) && ShowsPrefix(store, s, a)
    ensures ShowsPrefix(store, Press(s, StoreQuery(store)), a + PageSize)
  {
    if LoadMoreOffered(s) {
      PressOffered(store, s, a);
    } else {
      assert Min(a + PageSize, |store|) == Min(a, |store|);
    }
  }

  lemma PressOffered(store: seq<FirebaseUtils.Snapshot>, s: ShopState, a: nat)
    requires Seqs.NoDuplicates(store) && ShowsPrefix(store, s, a) && LoadMoreOffered(s)
    ensures ShowsPrefix(store, Fetched(Started(s), true, StoreQuery(store)), a + PageSize)
  {
    var b := Min(a + PageSize, |store|);
    StartAfterIndex(store, a - 1);
    assert StoreQuery(store)(Some(store[a - 1])) == Ok(store[a..b]);
    FetchedPage(Started(s), StoreQuery(store), store[a..b]);
    NextPageShown(store, s, a, Fetched(Started(s), true, StoreQuery(store)));
  }

  /** The state a fetch of the page after the `a`-th snapshot leaves. */
  lemma NextPageShown(store: seq<FirebaseUtils.Snapshot>, s: ShopState, a: nat, r: ShopState)
    requires ShowsPrefix(store, s, a) && s.hasMore
    requires var page := store[a..Min(a + PageSize, |store|)];
             && r.products == s.products + PageDocs(page)
             && r.lastDoc == (if |page| == 0 then None else Some(page[|page| - 1]))
             && (r.hasMore <==> |page| >= PageSize)
             && r.error.None? && !r.loading
    ensures ShowsPrefix(store, r, a + PageSize)
  {
    NextPageListed(store, s.products, a, r.products);
    NextPagePaged(store, s, a, r);
  }

  lemma NextPageListed(store: seq<FirebaseUtils.Snapshot>, before: seq<Doc>, a: nat, after: seq<Doc>)
    requires a <= |store| && before == PageDocs(store[..a])
    requires after == before + PageDocs(store[a..Min(a + PageSize, |store|)])
    ensures after == PageDocs(store[..Min(a + PageSize, |store|)])
  {
    var b := Min(a + PageSize, |store|);
    PageDocsAppend(store[..a], store[a..b]);
    SliceJoin(store, a, b);
  }

  lemma NextPagePaged(store: seq<FirebaseUtils.Snapshot>, s: ShopState, a: nat, r: ShopState)
    requires PagedTo(store, s, a) && s.hasMore
    requires var page := store[a..Min(a + PageSize, |store|)];
             && r.lastDoc == (if |page| == 0 then None else Some(page[|page| - 1]))
             && (r.hasMore <==> |page| >= PageSize)
             && r.error.None? && !r.loading
    ensures PagedTo(store, r, a + PageSize)
  {
    var b := Min(a + PageSize, |store|);
    assert |store[a..b]| == b - a;
    if r.hasMore {
      assert store[a..b][b - a - 1] == store[b - 1];
    }
  }

  lemma SliceJoin<T>(s: seq<T>, a: nat, b: nat)
    requires a <= b <= |s|
    ensures s[..a] + s[a..b] == s[..b]
  {
  }

  /** A "Load More" fetch that yields `page`. */
  lemma FetchedPage(s: ShopState, query: Query, page: seq<FirebaseUtils.Snapshot>)
    requires query(s.lastDoc) == Ok(page)
    ensures var r := Fetched(s, true, query);
            && r.products == s.products + PageDocs(page)
            && r.lastDoc == (if |page| == 0 then None else Some(page[|page| - 1]))
            && (r.hasMore <==> s.hasMore && |page| >= PageSize)
            && r.error == s.error && !r.loading
  {
  }

  /** After the first fetch and `n` clicks on a collection `store`, the shop
      lists the products of the first `Asked(n)` snapshots, five per fetch
      (all of them when there are fewer), in order and each once; "Load More"
      stays on show exactly while that many snapshots exist, and each next
      page is asked for after the last snapshot shown. */
  lemma SessionShowsPrefix(store: seq<FirebaseUtils.Snapshot>, n: nat)
    requires Seqs.NoDuplicates(store)
    ensures var r := Session(StoreQuery(store), n);
            && r.products == PageDocs(store[..Min(Asked(n), |store|)])
            && (r.hasMore <==> Asked(n) <= |store|)
            && (r.hasMore ==> r.lastDoc == Some(store[Asked(n) - 1]))
            && r.error.None?
  {
    SessionInvariant(store, n);
    PrefixParts(store, Session(StoreQuery(store), n), Asked(n));
  }

  lemma PrefixParts(store: seq<FirebaseUtils.Snapshot>, s: ShopState, a: nat)
    requires ShowsPrefix(store, s, a)
    ensures s.products == PageDocs(store[..Min(a, |store|)])
    ensures s.hasMore <==> a <= |store|
    ensures s.hasMore ==> s.lastDoc == Some(store[a - 1])
    ensures s.error.None?
  {
  }

  /** How many snapshots the first fetch and `n` clicks ask for. */
  function Asked(n: nat): nat {
    if n == 0 then PageSize else Asked(n - 1) + PageSize
  }

  /** Five snapshots per fetch. */
  lemma {:induction false} AskedPages(n: nat)
    ensures Asked(n) == PageSize * (n + 1)
  {
    if n > 0 {
      AskedPages(n - 1);
    }
  }

  lemma {:induction false} SessionInvariant(store: seq<FirebaseUtils.Snapshot>, n: nat)
    requires Seqs.NoDuplicates(store)
    ensures ShowsPrefix(store, Session(StoreQuery(store), n), Asked(n))
  {
    if n == 0 {
      SessionFirst(store);
    } else {
      SessionInvariant(store, n - 1);
      SessionStep(store, n, Asked(n - 1));
    }
  }

  lemma SessionStep(store: seq<FirebaseUtils.Snapshot>, n: nat, a: nat)
    requires Seqs.NoDuplicates(store) && n > 0
    requires ShowsPrefix(store, Session(StoreQuery(store), n - 1), a)
    ensures ShowsPrefix(store, Session(StoreQuery(store), n), a + PageSize)
  {
    PressStep(store, Session(StoreQuery(store), n - 1), a);
  }

  /** Once "Load More" is gone for good, every product of the collection is
      listed, in `price` order. */
  lemma SessionShowsAll(store: seq<FirebaseUtils.Snapshot>, n: nat)
    requires Seqs.NoDuplicates(store)
    requires !Session(StoreQuery(store), n).hasMore
    ensures Session(StoreQuery(store), n).products == PageDocs(store)
  {
    SessionShowsPrefix(store, n);
    assert store[..|store|] == store;
  }

  /** Enough clicks reach the end of the collection. */
  lemma SessionEnds(store: seq<FirebaseUtils.Snapshot>)
    requires Seqs.NoDuplicates(store)
    ensures !Session(StoreQuery(store), |store|).hasMore
  {
    SessionShowsPrefix(store, |store|);
    AskedPages(|store|);
  }

  /** A failed fetch shows the error, which hides "Load More"; later clicks
      are impossible and the list stays as it was. */
  lemma FailureStops(s: ShopState, isNextPage: bool, query: Query)
    requires query(Cursor(s, isNextPage)).Err?
    ensures var r := Fetched(s, isNextPage, query);
            && r.error == Some(FetchFailed) && !LoadMoreOffered(r)
            && r.products == s.products && r.lastDoc == s.lastDoc
            && Press(r, query) == r
  {
  }
}
