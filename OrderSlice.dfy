/** The client's order state: the user's orders, the order on display, and the loading and error flags. */
module OrderSlice {
  import opened Common
  import opened Thunk
  import OrderModel

  type Order = OrderModel.Order

  /** The actions the order reducer handles. */
  datatype OrderAction =
    | FetchMyOrders(orders: Phase<seq<Order>>)
    | FetchOrderById(order: Phase<Order>)
    | CreateOrder(created: Phase<Order>)
    | CancelOrder(cancelled: Phase<Order>)
    | ClearCurrentOrder
    | ClearError

  /** `findIndex(order => order._id === id)`: the first position holding that id, or -1. */
  function FindIndex(orders: seq<Order>, id: OrderId): (r: int)
    ensures -1 <= r < |orders|
    ensures r == -1 <==> forall k | 0 <= k < |orders| :: orders[k].id != id
    ensures r != -1 ==> orders[r].id == id && forall k | 0 <= k < r :: orders[k].id != id
  {
    if orders == [] then -1
    else if orders[0].id == id then 0
    else
      var r := FindIndex(orders[1..], id);
      if r == -1 then -1 else r + 1
  }

  /** The list after `orders[index] = o` at the first position holding `o`'s id, when there is one. */
  function ReplaceFirst(orders: seq<Order>, o: Order): (r: seq<Order>)
    ensures |r| == |orders|
    ensures FindIndex(orders, o.id) == -1 ==> r == orders
    ensures FindIndex(orders, o.id) != -1 ==> r == orders[FindIndex(orders, o.id) := o]
  {
    var i := FindIndex(orders, o.id);
    if i == -1 then orders else orders[i := o]
  }

  /** Only the first order with that id is replaced: every other position keeps its order. */
  lemma ReplaceFirstTouchesOne(orders: seq<Order>, o: Order, k: nat)
    requires k < |orders| && k != FindIndex(orders, o.id)
    ensures ReplaceFirst(orders, o)[k] == orders[k]
  {
  }

  /** Replacing by the same order twice is replacing it once. */
  lemma ReplaceFirstIdempotent(orders: seq<Order>, o: Order)
    ensures ReplaceFirst(ReplaceFirst(orders, o), o) == ReplaceFirst(orders, o)
  {
    var i := FindIndex(orders, o.id);
    if i != -1 {
      var r := orders[i := o];
      assert r[i].id == o.id;
      assert forall k | 0 <= k < i :: r[k] == orders[k];
      var j := FindIndex(r, o.id);
      assert j != -1;
      assert j == i;
    }
  }

  /** Cancelling the order just created replaces the head of the list and nothing else. */
  lemma CancelAfterCreate(orders: seq<Order>, created: Order, cancelled: Order)
    requires cancelled.id == created.id
    ensures ReplaceFirst([created] + orders, cancelled) == [cancelled] + orders
  {
    assert FindIndex([created] + orders, cancelled.id) == 0;
  }

  class OrderState {
    var orders: seq<Order>
    var currentOrder: Option<Order>
    var isLoading: bool
    var error: Option<string>

    constructor ()
      ensures orders == [] && currentOrder == None && !isLoading && error == None
    {
      orders := [];
      currentOrder := None;
      isLoading := false;
      error := None;
    }

    /**
     * The reducer. Every pending sets loading and clears the error; every rejection clears loading and stores
     * the message; creating prepends the order and shows it; cancelling replaces the first listed order with
     * its id, and the shown order only when it has that id.
     */
    method Dispatch(a: OrderAction)
      modifies this
      ensures match a
        case FetchMyOrders(Pending) | FetchOrderById(Pending) | CreateOrder(Pending) | CancelOrder(Pending) =>
          isLoading && error == None && orders == old(orders) && currentOrder == old(currentOrder)
        case FetchMyOrders(Rejected(m)) => !isLoading && error == Some(m) && orders == old(orders) && currentOrder == old(currentOrder)
        case FetchOrderById(Rejected(m)) => !isLoading && error == Some(m) && orders == old(orders) && currentOrder == old(currentOrder)
        case CreateOrder(Rejected(m)) => !isLoading && error == Some(m) && orders == old(orders) && currentOrder == old(currentOrder)
        case CancelOrder(Rejected(m)) => !isLoading && error == Some(m) && orders == old(orders) && currentOrder == old(currentOrder)
        case FetchMyOrders(Fulfilled(list)) =>
          !isLoading && error == old(error) && orders == list && currentOrder == old(currentOrder)
        case FetchOrderById(Fulfilled(o)) =>
          !isLoading && error == old(error) && orders == old(orders) && currentOrder == Some(o)
        case CreateOrder(Fulfilled(o)) =>
          !isLoading && error == old(error) && orders == [o] + old(orders) && currentOrder == Some(o)
        case CancelOrder(Fulfilled(o)) =>
          && !isLoading && error == old(error)
          && orders == ReplaceFirst(old(orders), o)
          && currentOrder == (if old(currentOrder).Some? && old(currentOrder).value.id == o.id then Some(o) else old(currentOrder))
        case ClearCurrentOrder =>
          currentOrder == None && orders == old(orders) && isLoading == old(isLoading) && error == old(error)
        case ClearError =>
          error == None && orders == old(orders) && currentOrder == old(currentOrder) && isLoading == old(isLoading)
    {
      match a
      case FetchMyOrders(Pending) | FetchOrderById(Pending) | CreateOrder(Pending) | CancelOrder(Pending) =>
        isLoading := true;
        error := None;
      case FetchMyOrders(Rejected(m)) =>
        isLoading := false;
        error := Some(m);
      case FetchOrderById(Rejected(m)) =>
        isLoading := false;
        error := Some(m);
      case CreateOrder(Rejected(m)) =>
        isLoading := false;
        error := Some(m);
      case CancelOrder(Rejected(m)) =>
        isLoading := false;
        error := Some(m);
      case FetchMyOrders(Fulfilled(list)) =>
        isLoading := false;
        orders := list;
      case FetchOrderById(Fulfilled(o)) =>
        isLoading := false;
        currentOrder := Some(o);
      case CreateOrder(Fulfilled(o)) =>
        isLoading := false;
        orders := [o] + orders;
        currentOrder := Some(o);
      case CancelOrder(Fulfilled(o)) =>
        isLoading := false;
        var index := FindIndex(orders, o.id);
        if index != -1 {
          orders := orders[index := o];
        }
        if currentOrder.Some? && currentOrder.value.id == o.id {
          currentOrder := Some(o);
        }
      case ClearCurrentOrder =>
        currentOrder := None;
      case ClearError =>
        error := None;
    }
  }
}
