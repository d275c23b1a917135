/** The Redux slices other than the cart: products and categories
    (src/store/slices/productsSlice.js, src/store/slices/categoriesSlice.js),
    authentication (src/store/slices/authSlice.js) and the product modal
    (src/store/slices/uiSlice.js). Each slice is an object whose reducers
    assign its fields in place; each thunk is a function of its remote outcome. */
module Slices {
  import opened Wrappers
  import opened Js
  import Seqs
  import FirebaseUtils
  import opened DocLists

  // ---------------------------------------------------------------------------
  // Thunks

  /** `fetchProducts` and `fetchCategories`: `{ id: doc.id, ...doc.data() }`
      for every snapshot, without validation. */
  function FetchAll(remote: Result<seq<FirebaseUtils.Snapshot>, string>): (r: Result<seq<Doc>, string>)
    ensures remote.Err? ==> r == Err(remote.error)
    ensures remote.Ok? ==> r.Ok? && |r.value| == |remote.value|
    ensures remote.Ok? ==> forall i :: 0 <= i < |remote.value| ==>
      r.value[i].Keys == remote.value[i].data.Keys + {"id"}
      && (forall k :: k in remote.value[i].data ==> r.value[i][k] == remote.value[i].data[k])
      && ("id" !in remote.value[i].data ==> r.value[i]["id"] == Str(remote.value[i].id))
  {
    match remote
    case Err(e) => Err(e)
    case Ok(snapshots) => Ok(FirebaseUtils.RawAll(snapshots))
  }

  /** What `addProduct` writes: the product without its `id` field. */
  function CleanProduct(product: Doc): (r: Doc)
    ensures "id" !in r && r.Keys == product.Keys - {"id"}
    ensures forall k :: k in r ==> r[k] == product[k]
  {
    product - {"id"}
  }

  /** `addProduct`: the written fields with the generated id, or the error
      message passed to `rejectWithValue`. */
  function AddProduct(product: Doc, remote: Result<string, string>): (r: Result<Doc, string>)
    ensures remote.Err? ==> r == Err(remote.error)
    ensures remote.Ok? ==> r.Ok? && r.value.Keys == product.Keys + {"id"}
    ensures remote.Ok? ==> r.value["id"] == Str(remote.value)
    ensures remote.Ok? ==> forall k :: k in product && k != "id" ==> r.value[k] == product[k]
  {
    match remote
    case Err(e) => Err(e)
    case Ok(newId) => Ok(Spread(map["id" := Str(newId)], CleanProduct(product)))
  }

  /** `updateProduct`: resolves to the product as given. */
  function UpdateProduct(product: Doc, failure: Option<string>): (r: Result<Doc, string>)
    ensures failure.Some? ==> r == Err(failure.value)
    ensures failure.None? ==> r == Ok(product)
  {
    match failure
    case Some(e) => Err(e)
    case None => Ok(product)
  }

  /** `deleteProduct`: resolves to the id. */
  function DeleteProduct(id: Value, failure: Option<string>): (r: Result<Value, string>)
    ensures failure.Some? ==> r == Err(failure.value)
    ensures failure.None? ==> r == Ok(id)
  {
    match failure
    case Some(e) => Err(e)
    case None => Ok(id)
  }

  // ---------------------------------------------------------------------------
  // Slices

  class ProductsSlice {
    var items: seq<Doc>
    var loading: bool
    var error: Value

    constructor ()
      ensures items == [] && !loading && error == Null
    {
      items := [];
      loading := false;
      error := Null;
    }

    /** `fetchProducts.pending`. */
    method FetchPending()
      modifies this
      ensures loading && error == Null && items == old(items)
    {
      loading := true;
      error := Null;
    }

    /** `fetchProducts.fulfilled`: `error` is left as it was. */
    method FetchFulfilled(payload: seq<Doc>)
      modifies this
      ensures !loading && items == payload && error == old(error)
    {
      loading := false;
      items := payload;
    }

    /** `fetchProducts.rejected`. */
    method FetchRejected(message: Value)
      modifies this
      ensures !loading && error == message && items == old(items)
    {
      loading := false;
      error := message;
    }

    /** `addProduct.fulfilled`: appended last. */
    method AddFulfilled(payload: Doc)
      modifies this
      ensures items == old(items) + [payload] && loading == old(loading) && error == old(error)
    {
      items := items + [payload];
    }

    /** `addProduct.rejected`: `action.payload || action.error.message`. */
    method AddRejected(payload: Value, message: Value)
      modifies this
      ensures error == Or(payload, message) && items == old(items) && loading == old(loading)
    {
      error := Or(payload, message);
    }

    /** `updateProduct.fulfilled`. */
    method UpdateFulfilled(payload: Doc)
      modifies this
      ensures items == ReplaceFirst(old(items), payload) && loading == old(loading) && error == old(error)
    {
      var index := Seqs.FindIndex(items, HasId(Get(payload, "id")));
      if index.Some? {
        items := items[index.value := payload];
      }
    }

    /** `deleteProduct.fulfilled`. */
    method DeleteFulfilled(id: Value)
      modifies this
      ensures items == DropId(old(items), id) && loading == old(loading) && error == old(error)
    {
      items := DropId(items, id);
    }
  }

  class CategoriesSlice {
    var items: seq<Doc>
    var loading: bool
    var error: Value

    constructor ()
      ensures items == [] && !loading && error == Null
    {
      items := [];
      loading := false;
      error := Null;
    }

    /** `fetchCategories.pending`. */
    method FetchPending()
      modifies this
      ensures loading && error == Null && items == old(items)
    {
      loading := true;
      error := Null;
    }

    /** `fetchCategories.fulfilled`. */
    method FetchFulfilled(payload: seq<Doc>)
      modifies this
      ensures !loading && items == payload && error == old(error)
    {
      loading := false;
      items := payload;
    }

    /** `fetchCategories.rejected`. */
    method FetchRejected(message: Value)
      modifies this
      ensures !loading && error == message && items == old(items)
    {
      loading := false;
      error := message;
    }
  }

  /** `action.payload || 'login'`. */
  function RequestedMode(payload: Value): (r: Value)
    ensures Truthy(payload) ==> r == payload
    ensures !Truthy(payload) ==> r == Str("login")
  {
    Or(payload, Str("login"))
  }

  /** `state.mode === 'login' ? 'signup' : 'login'`. */
  function ToggledMode(mode: Value): (r: Value)
    ensures r == Str("login") || r == Str("signup")
    ensures r == Str("signup") <==> mode == Str("login")
  {
    if StrictEq(mode, Str("login")) then Str("signup") else Str("login")
  }

  /** Toggling twice is the identity on the two modes; any other mode is
      read as 'signup' by the first toggle's `else`, and lands on 'signup'. */
  lemma ToggleTwice(mode: Value)
    ensures mode == Str("login") || mode == Str("signup") ==> ToggledMode(ToggledMode(mode)) == mode
    ensures mode != Str("login") && mode != Str("signup") ==> ToggledMode(ToggledMode(mode)) == Str("signup")
  {
  }

  class AuthSlice {
    var modalOpen: bool
    var mode: Value
    var user: Value
    var loading: bool

    constructor ()
      ensures !modalOpen && mode == Str("login") && user == Null && loading
    {
      modalOpen := false;
      mode := Str("login");
      user := Null;
      loading := true;
    }

    method OpenAuthModal(payload: Value)
      modifies this
      ensures modalOpen && mode == RequestedMode(payload)
      ensures user == old(user) && loading == old(loading)
    {
      modalOpen := true;
      mode := RequestedMode(payload);
    }

    method CloseAuthModal()
      modifies this
      ensures !modalOpen && mode == old(mode) && user == old(user) && loading == old(loading)
    {
      modalOpen := false;
    }

    method ToggleAuthMode()
      modifies this
      ensures mode == ToggledMode(old(mode))
      ensures modalOpen == old(modalOpen) && user == old(user) && loading == old(loading)
    {
      mode := ToggledMode(mode);
    }

    method SetUser(payload: Value)
      modifies this
      ensures user == payload && !loading && modalOpen == old(modalOpen) && mode == old(mode)
    {
      user := payload;
      loading := false;
    }

    method ClearUser()
      modifies this
      ensures user == Null && !loading && modalOpen == old(modalOpen) && mode == old(mode)
    {
      user := Null;
      loading := false;
    }
  }

  /** `action.payload || null`. */
  function EditingOf(payload: Value): (r: Value)
    ensures Truthy(payload) ==> r == payload
    ensures !Truthy(payload) ==> r == Null
  {
    Or(payload, Null)
  }

  class UiSlice {
    var modalOpen: bool
    var editingProduct: Value

    constructor ()
      ensures !modalOpen && editingProduct == Null
    {
      modalOpen := false;
      editingProduct := Null;
    }

    method OpenModal(payload: Value)
      modifies this
      ensures modalOpen && editingProduct == EditingOf(payload)
    {
      modalOpen := true;
      editingProduct := EditingOf(payload);
    }

    /** Back to the initial values from any state, so closing twice is
        closing once and open-then-close is the initial state. */
    method CloseModal()
      modifies this
      ensures !modalOpen && editingProduct == Null
    {
      modalOpen := false;
      editingProduct := Null;
    }
  }
}
