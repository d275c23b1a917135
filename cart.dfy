/** The cart slice (src/store/slices/cartSlice.js): a list of lines with a
    running quantity total and price total, updated in place by the reducers.
    Prices are whole numbers of the smallest currency unit. */
module Cart {
  import opened Wrappers
  import Seqs

  datatype Line = Line(productId: string, name: string, price: int, imageUrl: string, quantity: int)

  /** The product dispatched to `addToCart`. */
  datatype Product = Product(id: string, name: string, price: int, imageUrls: seq<string>)

  /** The whole slice state, as `setCart` receives it. */
  datatype State = State(items: seq<Line>, totalQuantity: int, totalPrice: int)

  /** Sum of the line quantities. */
  function Quantities(items: seq<Line>): int
    decreases |items|
  {
    if items == [] then 0 else items[0].quantity + Quantities(items[1..])
  }

  /** Sum of `price * quantity` over the lines. */
  function Prices(items: seq<Line>): int
    decreases |items|
  {
    if items == [] then 0 else items[0].price * items[0].quantity + Prices(items[1..])
  }

  /** No two lines for one product, and no line below quantity 1. */
  predicate WellFormed(items: seq<Line>) {
    && UniqueProducts(items)
    && (forall i :: 0 <= i < |items| ==> items[i].quantity >= 1)
  }

  /** `items.find(item => item.productId === productId)`, as a position. */
  function LineIndex(items: seq<Line>, productId: string): (r: Option<nat>)
    ensures r.Some? ==> r.value < |items| && items[r.value].productId == productId
    ensures r.Some? ==> forall j :: 0 <= j < r.value ==> items[j].productId != productId
    ensures r.None? <==> forall j :: 0 <= j < |items| ==> items[j].productId != productId
  {
    Seqs.FindIndex(items, (l: Line) => l.productId == productId)
  }

  /** `item => item.productId !== productId`. */
  function Other(productId: string): Line -> bool {
    (l: Line) => l.productId != productId
  }

  /** `items.filter(item => item.productId !== productId)`. */
  function Without(items: seq<Line>, productId: string): (r: seq<Line>)
    ensures forall l :: l in r <==> l in items && l.productId != productId
    ensures Seqs.IsSubsequence(r, items)
  {
    Seqs.FilterIsSubsequence(items, Other(productId));
    Seqs.Filter(items, Other(productId))
  }

  /** The line pushed for a product not yet in the cart. */
  function NewLine(product: Product): (l: Line)
    ensures l.productId == product.id && l.name == product.name && l.price == product.price && l.quantity == 1
    ensures l.imageUrl == if product.imageUrls != [] then product.imageUrls[0] else ""
  {
    Line(product.id, product.name, product.price,
         if product.imageUrls != [] && product.imageUrls[0] != "" then product.imageUrls[0] else "", 1)
  }

  /** The line at `i` with its quantity moved by `delta`. */
  function Bump(items: seq<Line>, i: nat, delta: int): (r: seq<Line>)
    requires i < |items|
    ensures |r| == |items| && r[i].quantity == items[i].quantity + delta
    ensures r[i] == items[i].(quantity := r[i].quantity)
    ensures forall j :: 0 <= j < |items| && j != i ==> r[j] == items[j]
  {
    items[i := items[i].(quantity := items[i].quantity + delta)]
  }

  // ---------------------------------------------------------------------------
  // How the totals follow the line edits

  lemma {:induction false} TotalsAppend(items: seq<Line>, l: Line)
    ensures Quantities(items + [l]) == Quantities(items) + l.quantity
    ensures Prices(items + [l]) == Prices(items) + l.price * l.quantity
    decreases |items|
  {
    if items == [] {
      assert [l][1..] == [];
    } else {
      assert (items + [l])[1..] == items[1..] + [l];
      TotalsAppend(items[1..], l);
    }
  }

  lemma {:induction false} TotalsBump(items: seq<Line>, i: nat, delta: int)
    requires i < |items|
    ensures Quantities(Bump(items, i, delta)) == Quantities(items) + delta
    ensures Prices(Bump(items, i, delta)) == Prices(items) + items[i].price * delta
    decreases |items|
  {
    var r := Bump(items, i, delta);
    if i == 0 {
      assert r[1..] == items[1..];
    } else {
      assert r[1..] == Bump(items[1..], i - 1, delta);
      TotalsBump(items[1..], i - 1, delta);
    }
  }

  /** With at most one line for the product, filtering it out subtracts
      exactly that line's quantity and value. */
  lemma {:induction false} TotalsWithout(items: seq<Line>, i: nat)
    requires i < |items|
    requires forall j :: 0 <= j < |items| && j != i ==> items[j].productId != items[i].productId
    ensures Quantities(Without(items, items[i].productId)) == Quantities(items) - items[i].quantity
    ensures Prices(Without(items, items[i].productId)) == Prices(items) - items[i].price * items[i].quantity
    decreases |items|
  {
    var id := items[i].productId;
    var keep := Other(id);
    if i == 0 {
      forall l | l in items[1..]
        ensures keep(l)
      {
        var k :| 0 <= k < |items[1..]| && items[1..][k] == l;
        assert items[k + 1] == l;
      }
      Seqs.FilterKeepsAll(items[1..], keep);
      assert Without(items, id) == items[1..];
    } else {
      forall j | 0 <= j < |items[1..]| && j != i - 1
        ensures items[1..][j].productId != items[1..][i - 1].productId
      {
        assert items[1..][j] == items[j + 1];
      }
      TotalsWithout(items[1..], i - 1);
      assert Without(items, id) == [items[0]] + Without(items[1..], id);
    }
  }

  /** Removing a product's line keeps the lines well formed. */
  lemma WithoutWellFormed(items: seq<Line>, productId: string)
    requires WellFormed(items)
    ensures WellFormed(Without(items, productId))
  {
    UniqueWithout(items, productId);
    var r := Without(items, productId);
    forall i | 0 <= i < |r|
      ensures r[i].quantity >= 1
    {
      assert r[i] in items;
    }
  }

  predicate UniqueProducts(items: seq<Line>) {
    forall i, j :: 0 <= i < j < |items| ==> items[i].productId != items[j].productId
  }

  lemma {:induction false} UniqueWithout(items: seq<Line>, productId: string)
    requires UniqueProducts(items)
    ensures UniqueProducts(Without(items, productId))
    decreases |items|
  {
    if |items| > 0 {
      var tail := items[1..];
      assert UniqueProducts(tail) by {
        forall i, j | 0 <= i < j < |tail|
          ensures tail[i].productId != tail[j].productId
        {
          assert tail[i] == items[i + 1] && tail[j] == items[j + 1];
        }
      }
      UniqueWithout(tail, productId);
      var rest := Without(tail, productId);
      assert Without(items, productId) == (if Other(productId)(items[0]) then [items[0]] else []) + rest;
      forall l | l in rest
        ensures l.productId != items[0].productId
      {
        var k :| 0 <= k < |tail| && tail[k] == l;
        assert items[k + 1] == l;
      }
    }
  }

  // ---------------------------------------------------------------------------
  // The reducers on state values

  /** The totals agree with the lines, and the lines are well formed: the
      invariant every reducer except `setCart` keeps. */
  predicate Valid(s: State) {
    s.totalQuantity == Quantities(s.items) && s.totalPrice == Prices(s.items) && WellFormed(s.items)
  }

  /** `initialState`. */
  const Initial := State([], 0, 0)

  /** The product's catalogue price is the one on its line, if it has one. */
  predicate PriceAgrees(items: seq<Line>, product: Product) {
    forall l :: l in items && l.productId == product.id ==> l.price == product.price
  }

  /** `addToCart`. */
  function Add(s: State, product: Product): (r: State)
    ensures r.totalQuantity == s.totalQuantity + 1 && r.totalPrice == s.totalPrice + product.price
    ensures LineIndex(s.items, product.id).Some? ==>
      var i := LineIndex(s.items, product.id).value;
      |r.items| == |s.items| && r.items[i] == s.items[i].(quantity := s.items[i].quantity + 1)
      && forall j :: 0 <= j < |s.items| && j != i ==> r.items[j] == s.items[j]
    ensures LineIndex(s.items, product.id).None? ==> r.items == s.items + [NewLine(product)]
  {
    match LineIndex(s.items, product.id)
    case Some(i) => State(Bump(s.items, i, 1), s.totalQuantity + 1, s.totalPrice + product.price)
    case None => State(s.items + [NewLine(product)], s.totalQuantity + 1, s.totalPrice + product.price)
  }

  /** `removeFromCart`. */
  function Remove(s: State, productId: string): (r: State)
    ensures LineIndex(s.items, productId).None? ==> r == s
    ensures LineIndex(s.items, productId).Some? ==>
      var l := s.items[LineIndex(s.items, productId).value];
      && r.totalQuantity == s.totalQuantity - l.quantity
      && r.totalPrice == s.totalPrice - l.price * l.quantity
    ensures forall l :: l in r.items <==> l in s.items && l.productId != productId
    ensures Seqs.IsSubsequence(r.items, s.items)
  {
    match LineIndex(s.items, productId)
    case None => Seqs.SubsequenceOfSelf(s.items); s
    case Some(i) =>
      var l := s.items[i];
      State(Without(s.items, productId), s.totalQuantity - l.quantity, s.totalPrice - l.price * l.quantity)
  }

  /** `increaseQuantity`. */
  function Increase(s: State, productId: string): (r: State)
    ensures LineIndex(s.items, productId).None? ==> r == s
    ensures LineIndex(s.items, productId).Some? ==>
      var i := LineIndex(s.items, productId).value;
      && r.items == Bump(s.items, i, 1)
      && r.totalQuantity == s.totalQuantity + 1 && r.totalPrice == s.totalPrice + s.items[i].price
  {
    match LineIndex(s.items, productId)
    case None => s
    case Some(i) => State(Bump(s.items, i, 1), s.totalQuantity + 1, s.totalPrice + s.items[i].price)
  }

  /** `decreaseQuantity`: a line at quantity 1 (or below), or an unknown id,
      goes to `removeFromCart`. */
  function Decrease(s: State, productId: string): (r: State)
    ensures LineIndex(s.items, productId).None? ==> r == s
    ensures LineIndex(s.items, productId).Some? && s.items[LineIndex(s.items, productId).value].quantity <= 1 ==>
      r == Remove(s, productId)
    ensures LineIndex(s.items, productId).Some? && s.items[LineIndex(s.items, productId).value].quantity > 1 ==>
      var i := LineIndex(s.items, productId).value;
      && r.items == Bump(s.items, i, -1)
      && r.totalQuantity == s.totalQuantity - 1 && r.totalPrice == s.totalPrice - s.items[i].price
  {
    match LineIndex(s.items, productId)
    case Some(i) =>
      if s.items[i].quantity > 1 then State(Bump(s.items, i, -1), s.totalQuantity - 1, s.totalPrice - s.items[i].price)
      else Remove(s, productId)
    case None => Remove(s, productId)
  }

  lemma AddKeepsValid(s: State, product: Product)
    requires Valid(s) && PriceAgrees(s.items, product)
    ensures Valid(Add(s, product))
  {
    match LineIndex(s.items, product.id)
    case Some(i) =>
      TotalsBump(s.items, i, 1);
      assert s.items[i] in s.items;
    case None =>
      TotalsAppend(s.items, NewLine(product));
  }

  lemma RemoveKeepsValid(s: State, productId: string)
    requires Valid(s)
    ensures Valid(Remove(s, productId))
  {
    if LineIndex(s.items, productId).Some? {
      TotalsWithout(s.items, LineIndex(s.items, productId).value);
      WithoutWellFormed(s.items, productId);
    }
  }

  lemma IncreaseKeepsValid(s: State, productId: string)
    requires Valid(s)
    ensures Valid(Increase(s, productId))
  {
    if LineIndex(s.items, productId).Some? {
      TotalsBump(s.items, LineIndex(s.items, productId).value, 1);
    }
  }

  lemma DecreaseKeepsValid(s: State, productId: string)
    requires Valid(s)
    ensures Valid(Decrease(s, productId))
  {
    match LineIndex(s.items, productId)
    case Some(i) =>
      if s.items[i].quantity > 1 {
        TotalsBump(s.items, i, -1);
      } else {
        RemoveKeepsValid(s, productId);
      }
    case None =>
  }

  /** Removing a product leaves no line for it, even in a cart that held
      several. */
  lemma RemoveLeavesNoLine(s: State, productId: string)
    ensures LineIndex(Remove(s, productId).items, productId).None?
  {
    var r := Remove(s, productId);
    forall j | 0 <= j < |r.items|
      ensures r.items[j].productId != productId
    {
      assert r.items[j] in r.items;
    }
  }

  /** Adding a product the cart does not hold and then removing it restores
      the state. */
  lemma AddThenRemove(s: State, product: Product)
    requires LineIndex(s.items, product.id).None?
    ensures Remove(Add(s, product), product.id) == s
  {
    var added := Add(s, product);
    var n := NewLine(product);
    assert added.items[|s.items|] == n;
    assert LineIndex(added.items, product.id) == Some(|s.items|);
    Seqs.FilterAppend(s.items, [n], Other(product.id));
    forall l | l in s.items
      ensures Other(product.id)(l)
    {
      var k :| 0 <= k < |s.items| && s.items[k] == l;
    }
    Seqs.FilterKeepsAll(s.items, Other(product.id));
    assert Seqs.Filter([n], Other(product.id)) == [];
  }

  /** One more and then one fewer of a held product restores the state. */
  lemma IncreaseThenDecrease(s: State, productId: string)
    requires Valid(s) && LineIndex(s.items, productId).Some?
    ensures Decrease(Increase(s, productId), productId) == s
  {
    var i := LineIndex(s.items, productId).value;
    var up := Increase(s, productId);
    assert LineIndex(up.items, productId) == Some(i);
    assert Bump(up.items, i, -1) == s.items;
  }

  /** Adding a product twice leaves one line for it, whatever the cart held. */
  lemma AddedTwiceOneLine(s: State, product: Product)
    requires WellFormed(s.items)
    ensures var r := Add(Add(s, product), product);
            && WellFormed(r.items)
            && LineIndex(r.items, product.id).Some?
            && (forall j :: 0 <= j < |r.items| && j != LineIndex(r.items, product.id).value ==>
                  r.items[j].productId != product.id)
  {
    AddWellFormed(s, product);
    AddWellFormed(Add(s, product), product);
  }

  /** Adding keeps the lines well formed and puts the product on a line. */
  lemma AddWellFormed(s: State, product: Product)
    requires WellFormed(s.items)
    ensures WellFormed(Add(s, product).items)
    ensures LineIndex(Add(s, product).items, product.id).Some?
  {
    var r := Add(s, product);
    if LineIndex(s.items, product.id).None? {
      assert r.items[|s.items|].productId == product.id;
    }
  }

  // ---------------------------------------------------------------------------
  // The slice, updated in place

  class CartSlice {
    var items: seq<Line>
    var totalQuantity: int
    var totalPrice: int

    function Snapshot(): State
      reads this
    {
      State(items, totalQuantity, totalPrice)
    }

    constructor ()
      ensures Snapshot() == Initial && Valid(Snapshot())
    {
      items := [];
      totalQuantity := 0;
      totalPrice := 0;
    }

    /** `setCart`: installs the payload as it is, unchecked. */
    method SetCart(payload: State)
      modifies this
      ensures Snapshot() == payload
    {
      items := payload.items;
      totalQuantity := payload.totalQuantity;
      totalPrice := payload.totalPrice;
    }

    method AddToCart(product: Product)
      modifies this
      ensures Snapshot() == Add(old(Snapshot()), product)
    {
      var found := LineIndex(items, product.id);
      if found.Some? {
        items := items[found.value := items[found.value].(quantity := items[found.value].quantity + 1)];
      } else {
        items := items + [NewLine(product)];
      }
      totalQuantity := totalQuantity + 1;
      totalPrice := totalPrice + product.price;
    }

    method RemoveFromCart(productId: string)
      modifies this
      ensures Snapshot() == Remove(old(Snapshot()), productId)
    {
      var found := LineIndex(items, productId);
      if found.Some? {
        var l := items[found.value];
        totalQuantity := totalQuantity - l.quantity;
        totalPrice := totalPrice - l.price * l.quantity;
        items := Without(items, productId);
      }
    }

    method IncreaseQuantity(productId: string)
      modifies this
      ensures Snapshot() == Increase(old(Snapshot()), productId)
    {
      var found := LineIndex(items, productId);
      if found.Some? {
        var i := found.value;
        var price := items[i].price;
        items := items[i := items[i].(quantity := items[i].quantity + 1)];
        totalQuantity := totalQuantity + 1;
        totalPrice := totalPrice + price;
      }
    }

    method DecreaseQuantity(productId: string)
      modifies this
      ensures Snapshot() == Decrease(old(Snapshot()), productId)
    {
      var found := LineIndex(items, productId);
      if found.Some? && items[found.value].quantity > 1 {
        var i := found.value;
        var price := items[i].price;
        items := items[i := items[i].(quantity := items[i].quantity - 1)];
        totalQuantity := totalQuantity - 1;
        totalPrice := totalPrice - price;
      } else {
        RemoveFromCart(productId);
      }
    }

    /** `clearCart`: no lines and both totals zero. */
    method ClearCart()
      modifies this
      ensures Snapshot() == Initial && Valid(Snapshot())
    {
      items := [];
      totalQuantity := 0;
      totalPrice := 0;
    }
  }
}
