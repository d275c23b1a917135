/** The checkout page, src/app/shop/checkout/page.jsx: a contact form over the
    cart slice. Submitting checks the form, then the cart, then writes one
    order to the "orders" collection and clears the cart. The outcome of
    `addDoc` is a parameter; the navigation to /shop is returned. */
module Checkout {
  import opened Wrappers
  import opened Js
  import Cart

  const FillAllFields := "Please fill in all fields."
  const CartIsEmpty := "Your cart is empty."
  const SubmitFailed := "Something went wrong. Please try again."
  const OrdersCollection := "orders"
  const Pending := "pending"
  const AfterOrder := "/shop"

  /** The record written to "orders"; `createdAt` is a server timestamp and
      is not modelled. */
  datatype Order = Order(contactInfo: Doc, items: seq<Cart.Line>, totalPrice: int, status: string)

  const InitialForm: Doc := map["name" := Str(""), "email" := Str(""), "phone" := Str(""), "address" := Str("")]

  /** `handleChange`: `{ ...form, [name]: value }`. */
  function WithField(form: Doc, name: string, value: string): (r: Doc)
    ensures r.Keys == form.Keys + {name}
    ensures r[name] == Str(value)
    ensures forall k :: k in form && k != name ==> r[k] == form[k]
  {
    Spread(form, map[name := Str(value)])
  }

  /** No contact field is empty. */
  predicate Filled(form: Doc) {
    Truthy(Get(form, "name")) && Truthy(Get(form, "email")) && Truthy(Get(form, "phone")) && Truthy(Get(form, "address"))
  }

  /** The two checks of `handleSubmit`, in order: `None` lets the order
      through, otherwise the error shown. */
  function Validate(form: Doc, items: seq<Cart.Line>): (r: Option<string>)
    ensures r.None? <==> Filled(form) && items != []
    ensures !Filled(form) ==> r == Some(FillAllFields)
    ensures Filled(form) && items == [] ==> r == Some(CartIsEmpty)
  {
    if !Filled(form) then Some(FillAllFields)
    else if items == [] then Some(CartIsEmpty)
    else None
  }

  /** The cart is only consulted once the form is complete. */
  lemma UnfilledIgnoresCart(form: Doc, a: seq<Cart.Line>, b: seq<Cart.Line>)
    requires !Filled(form)
    ensures Validate(form, a) == Validate(form, b) == Some(FillAllFields)
  {
  }

  /** Typing into each of the four inputs, starting from any form (the empty
      one included), is what lets it through. */
  lemma FormFilling(form: Doc, name: string, email: string, phone: string, address: string)
    ensures Filled(WithField(WithField(WithField(WithField(form, "name", name), "email", email), "phone", phone), "address", address))
            <==> name != "" && email != "" && phone != "" && address != ""
  {
    var f := WithField(WithField(WithField(WithField(form, "name", name), "email", email), "phone", phone), "address", address);
    TypedFields(form, name, email, phone, address);
    FilledByText(f, name, email, phone, address);
  }

  lemma FilledByText(f: Doc, name: string, email: string, phone: string, address: string)
    requires Get(f, "name") == Str(name) && Get(f, "email") == Str(email)
    requires Get(f, "phone") == Str(phone) && Get(f, "address") == Str(address)
    ensures Filled(f) <==> name != "" && email != "" && phone != "" && address != ""
  {
  }

  /** After typing into the four inputs each holds what was typed last. */
  lemma TypedFields(form: Doc, name: string, email: string, phone: string, address: string)
    ensures var f := WithField(WithField(WithField(WithField(form, "name", name), "email", email), "phone", phone), "address", address);
            Get(f, "name") == Str(name) && Get(f, "email") == Str(email) &&
            Get(f, "phone") == Str(phone) && Get(f, "address") == Str(address)
  {
    var f1 := WithField(form, "name", name);
    var f2 := WithField(f1, "email", email);
    var f3 := WithField(f2, "phone", phone);
    GetWithField(f3, "address", address, "address");
    GetWithField(f3, "address", address, "phone");
    GetWithField(f2, "phone", phone, "phone");
    GetWithField(f3, "address", address, "email");
    GetWithField(f2, "phone", phone, "email");
    GetWithField(f1, "email", email, "email");
    GetWithField(f3, "address", address, "name");
    GetWithField(f2, "phone", phone, "name");
    GetWithField(f1, "email", email, "name");
    GetWithField(form, "name", name, "name");
  }

  /** Clearing any of the four inputs blocks the form, whatever the others
      hold. */
  lemma ClearingBlocks(form: Doc, field: string)
    requires field in InitialForm
    ensures !Filled(WithField(form, field, ""))
  {
    assert field == "name" || field == "email" || field == "phone" || field == "address";
    GetWithField(form, field, "", field);
  }

  lemma GetWithField(form: Doc, name: string, value: string, k: string)
    ensures Get(WithField(form, name, value), k) == if k == name then Str(value) else Get(form, k)
  {
  }

  /** The page state and the cart slice it reads and clears. */
  class CheckoutPage {
    var form: Doc
    var error: Option<string>
    var submitting: bool
    const cart: Cart.CartSlice

    constructor (cart: Cart.CartSlice)
      ensures this.cart == cart && form == InitialForm && error.None? && !submitting
    {
      this.cart := cart;
      form := InitialForm;
      error := None;
      submitting := false;
    }

    method HandleChange(name: string, value: string)
      modifies this
      ensures form == WithField(old(form), name, value)
      ensures error == old(error) && submitting == old(submitting)
    {
      form := WithField(form, name, value);
    }

    /** `handleSubmit`; `failure` is the error `addDoc` throws, if any. The
        written order and the route pushed are returned. */
    method HandleSubmit(failure: Option<string>) returns (written: Option<Order>, route: Option<string>)
      modifies this, cart
      ensures form == old(form)
      ensures Validate(old(form), old(cart.items)).Some? ==>
        && error == Validate(old(form), old(cart.items))
        && submitting == old(submitting)
        && written.None? && route.None?
        && cart.Snapshot() == old(cart.Snapshot())
      ensures Validate(old(form), old(cart.items)).None? && failure.None? ==>
        && written == Some(Order(old(form), old(cart.items), old(cart.totalPrice), Pending))
        && route == Some(AfterOrder)
        && cart.Snapshot() == Cart.Initial
        && error == old(error) && !submitting
      ensures Validate(old(form), old(cart.items)).None? && failure.Some? ==>
        && written.None? && route.None?
        && cart.Snapshot() == old(cart.Snapshot())
        && error == Some(SubmitFailed) && !submitting
    {
      written, route := None, None;
      var invalid := Validate(form, cart.items);
      if invalid.Some? {
        error := invalid;
        return;
      }
      submitting := true;
      if failure.None? {
        written := Some(Order(form, cart.items, cart.totalPrice, Pending));
        cart.ClearCart();
        route := Some(AfterOrder);
      } else {
        error := Some(SubmitFailed);
      }
      submitting := false;
    }
  }
}
