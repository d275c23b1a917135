/** The admin orders list, src/app/admin/OrdersManager.jsx: the orders
    fetched once, at most one of them expanded, and a status select whose
    change is written to Firestore before the local list follows it. The
    remote outcomes are parameters; failures are only logged. */
module OrdersManager {
  import opened Wrappers
  import opened Js
  import FirebaseUtils
  import Checkout
  import DocLists

  const OrdersCollection := "orders"

  /** The options of the status select. */
  const Statuses: seq<string> := ["pending", "ready", "fulfilled"]

  /** `orders`, `expandedOrderId` and `loading`. */
  datatype OrdersState = OrdersState(orders: seq<Doc>, expanded: Value, loading: bool)

  const Initial := OrdersState([], Null, true)

  /** `loadOrders`: the fetched list replaces the empty one; on failure it
      stays; `loading` ends false either way. */
  function Loaded(s: OrdersState, remote: Result<seq<FirebaseUtils.Snapshot>, string>): (r: OrdersState)
    ensures !r.loading && r.expanded == s.expanded
    ensures remote.Ok? ==> r.orders == FirebaseUtils.ValidateDocuments(FirebaseUtils.RawAll(remote.value), OrdersCollection)
    ensures remote.Err? ==> r.orders == s.orders
  {
    match FirebaseUtils.FetchDocuments(OrdersCollection, remote)
    case Ok(data) => s.(orders := data, loading := false)
    case Err(_) => s.(loading := false)
  }

  /** `toggleExpand(id)`: the expanded order collapses, any other expands. */
  function ToggleExpand(prev: Value, id: Value): (r: Value)
    ensures StrictEq(prev, id) ==> r == Null
    ensures !StrictEq(prev, id) ==> r == id
  {
    if StrictEq(prev, id) then Null else id
  }

  /** The details of `orders[i]` are on show. */
  predicate Expanded(orders: seq<Doc>, expanded: Value, i: int)
    requires 0 <= i < |orders|
  {
    StrictEq(expanded, Get(orders[i], "id"))
  }

  predicate DistinctIds(orders: seq<Doc>) {
    forall i, j :: 0 <= i < j < |orders| ==> Get(orders[i], "id") != Get(orders[j], "id")
  }

  /** With distinct ids, at most one order is expanded, whatever was toggled;
      toggling an order twice leaves it open if it was open and otherwise
      leaves nothing open. */
  lemma AtMostOneExpanded(orders: seq<Doc>, prev: Value, id: Value)
    requires DistinctIds(orders)
    ensures forall i, j ::
              (0 <= i < |orders| && 0 <= j < |orders| &&
               Expanded(orders, ToggleExpand(prev, id), i) && Expanded(orders, ToggleExpand(prev, id), j)) ==> i == j
    ensures id.Str? ==> ToggleExpand(ToggleExpand(prev, id), id) == if StrictEq(prev, id) then id else Null
  {
    var e := ToggleExpand(prev, id);
    forall i, j | 0 <= i < |orders| && 0 <= j < |orders| && Expanded(orders, e, i) && Expanded(orders, e, j)
      ensures i == j
    {
      assert Get(orders[i], "id") == e == Get(orders[j], "id");
    }
  }

  /** The status of an order as the select shows it. */
  function StatusOf(order: Doc): Value {
    Get(order, "status")
  }

  /** `handleStatusChange(orderId, newStatus)`: `failure` is the error
      `updateDocument` throws, if any. Only on success does every order with
      that id take the new status, all its other fields and every other order
      staying as they were. */
  function HandleStatusChange(orders: seq<Doc>, orderId: string, newStatus: string, failure: Option<string>): (r: seq<Doc>)
    ensures |r| == |orders|
    ensures orderId == "" || failure.Some? ==> r == orders
    ensures forall i :: 0 <= i < |orders| && !StrictEq(Get(orders[i], "id"), Str(orderId)) ==> r[i] == orders[i]
    ensures orderId != "" && failure.None? ==>
      forall i :: 0 <= i < |orders| && StrictEq(Get(orders[i], "id"), Str(orderId)) ==>
        && r[i].Keys == orders[i].Keys + {"status"}
        && StatusOf(r[i]) == Str(newStatus)
        && (forall k :: k in orders[i] && k != "status" ==> r[i][k] == orders[i][k])
  {
    match FirebaseUtils.UpdateDocument(OrdersCollection, orderId, Some(map["status" := Str(newStatus)]), failure)
    case Err(_) => orders
    case Ok(_) => DocLists.MergeInto(orders, Str(orderId), map["status" := Str(newStatus)])
  }

  /** Every order shows one of the offered statuses. */
  predicate OfferedStatuses(orders: seq<Doc>) {
    forall i :: 0 <= i < |orders| ==> StatusOf(orders[i]).Str? && StatusOf(orders[i]).s in Statuses
  }

  /** Choosing an offered status keeps every order on an offered status. */
  lemma StatusChangeKeepsOffered(orders: seq<Doc>, orderId: string, newStatus: string, failure: Option<string>)
    requires OfferedStatuses(orders) && newStatus in Statuses
    ensures OfferedStatuses(HandleStatusChange(orders, orderId, newStatus, failure))
  {
    var r := HandleStatusChange(orders, orderId, newStatus, failure);
    forall i | 0 <= i < |r|
      ensures StatusOf(r[i]).Str? && StatusOf(r[i]).s in Statuses
    {
      if StrictEq(Get(orders[i], "id"), Str(orderId)) && orderId != "" && failure.None? {
        assert StatusOf(r[i]) == Str(newStatus);
      } else {
        assert r[i] == orders[i];
      }
    }
  }

  /** Checkout writes its orders with a status the select offers. */
  lemma CheckoutStatusOffered()
    ensures Checkout.Pending == Statuses[0]
    ensures Statuses[0] != Statuses[1] && Statuses[1] != Statuses[2] && Statuses[0] != Statuses[2]
  {
  }
}
