/** The order store (`CheckoutService`): every order ever created, in creation
    order, behind one lock. Each operation is one atomic transition; a
    poisoned lock makes every operation fail with `LockError` and change
    nothing. */
module CheckoutService {
  import opened Common
  import opened OrderModel

  datatype CheckoutError = LockError | OrderNotFound | CannotCancelOrder

  /** The orders, and whether the lock guarding them is poisoned. */
  datatype OrderStore = OrderStore(orders: seq<Order>, poisoned: bool)

  /** `CheckoutService::new`: no orders, a healthy lock. */
  function NewStore(): OrderStore {
    OrderStore([], false)
  }

  predicate HasOrderId(orders: seq<Order>, id: string) {
    exists i :: 0 <= i < |orders| && orders[i].orderId == id
  }

  /** No two orders share an id. */
  predicate DistinctIds(orders: seq<Order>) {
    forall i, j :: 0 <= i < j < |orders| ==> orders[i].orderId != orders[j].orderId
  }

  /** `i` is where `iter().find` stops: the first order with id `id`. */
  predicate FirstOrderOf(orders: seq<Order>, id: string, i: int) {
    && 0 <= i < |orders|
    && orders[i].orderId == id
    && forall j :: 0 <= j < i ==> orders[j].orderId != id
  }

  /** `after` is `before` with only the status of order `i` set to `s`. */
  predicate StatusOnlyChanged(before: seq<Order>, after: seq<Order>, i: int, s: OrderStatus) {
    && |after| == |before|
    && 0 <= i < |before|
    && after[i] == before[i].(status := s)
    && forall j :: 0 <= j < |before| && j != i ==> after[j] == before[j]
  }

  /** The position of the first order with id `id`, if any. */
  function FindOrder(orders: seq<Order>, id: string): (r: Option<nat>)
    ensures r.Some? ==> FirstOrderOf(orders, id, r.value)
    ensures r.None? <==> !HasOrderId(orders, id)
  {
    if orders == [] then None
    else if orders[0].orderId == id then Some(0)
    else
      match FindOrder(orders[1..], id)
      case None =>
        assert forall i :: 1 <= i < |orders| ==> orders[i] == orders[1..][i - 1];
        None
      case Some(k) =>
        assert forall j :: 1 <= j < k + 1 ==> orders[j] == orders[1..][j - 1];
        Some(k + 1)
  }

  /** The orders placed by `user`, in store order. */
  function OrdersOf(orders: seq<Order>, user: string): (r: seq<Order>)
    ensures forall o :: o in r <==> o in orders && o.userId == user
    ensures |r| <= |orders|
  {
    if orders == [] then []
    else
      var rest := OrdersOf(orders[1..], user);
      assert forall o :: o in orders <==> o == orders[0] || o in orders[1..];
      if orders[0].userId == user then [orders[0]] + rest else rest
  }

  /** Filtering by user keeps store order: it distributes over concatenation. */
  lemma {:induction false} OrdersOfAppend(a: seq<Order>, b: seq<Order>, user: string)
    ensures OrdersOf(a + b, user) == OrdersOf(a, user) + OrdersOf(b, user)
  {
    if a == [] {
      assert a + b == b;
    } else {
      assert (a + b)[1..] == a[1..] + b;
      OrdersOfAppend(a[1..], b, user);
    }
  }

  /** `get_user_orders`: the user's orders; an empty list, not an error, when there are none. */
  function GetUserOrders(store: OrderStore, user: string): (r: Result<seq<Order>, CheckoutError>)
    ensures r.Err? <==> store.poisoned
    ensures r.Err? ==> r.error == LockError
    ensures r.Ok? ==> forall o :: o in r.value <==> o in store.orders && o.userId == user
    ensures r.Ok? ==> r.value == OrdersOf(store.orders, user)
  {
    if store.poisoned then Err(LockError) else Ok(OrdersOf(store.orders, user))
  }

  /** `get_order_by_id`: the order with that id, or `OrderNotFound`. */
  function GetOrderById(store: OrderStore, id: string): (r: Result<Order, CheckoutError>)
    ensures store.poisoned ==> r == Err(LockError)
    ensures !store.poisoned ==> (r == Err(OrderNotFound) <==> !HasOrderId(store.orders, id))
    ensures r.Ok? ==> r.value in store.orders && r.value.orderId == id
    ensures !store.poisoned ==> forall i :: FirstOrderOf(store.orders, id, i) ==> r == Ok(store.orders[i])
  {
    if store.poisoned then Err(LockError)
    else
      match FindOrder(store.orders, id)
      case Some(i) => Ok(store.orders[i])
      case None => Err(OrderNotFound)
  }

  /** `create_order`: appends a `PendingPayment` order under the fresh id
      `orderId` (the model's stand-in for a random UUID) and returns it. */
  function CreateOrder(store: OrderStore, orderId: string, user: string, items: seq<string>, total: int)
    : (r: (OrderStore, Result<Order, CheckoutError>))
    requires !HasOrderId(store.orders, orderId)
    ensures store.poisoned ==> r == (store, Err(LockError))
    ensures !store.poisoned ==>
              && r.1.Ok?
              && r.1.value.orderId == orderId
              && r.1.value.userId == user
              && r.1.value.items == items
              && r.1.value.totalAmount == total
              && r.1.value.status == PendingPayment
              && r.0 == OrderStore(store.orders + [r.1.value], false)
    ensures |r.0.orders| == |store.orders| + (if store.poisoned then 0 else 1)
    ensures DistinctIds(store.orders) ==> DistinctIds(r.0.orders)
  {
    if store.poisoned then (store, Err(LockError))
    else
      var order := Order(orderId, user, items, total, PendingPayment);
      (OrderStore(store.orders + [order], false), Ok(order))
  }

  /** `cancel_order`: only a `PendingPayment` order can be cancelled, and it
      becomes `Failed`; any other status is `CannotCancelOrder`, an unknown id
      is `OrderNotFound`, and a failure changes nothing. */
  function CancelOrder(store: OrderStore, id: string): (r: (OrderStore, Result<(), CheckoutError>))
    ensures store.poisoned ==> r == (store, Err(LockError))
    ensures !store.poisoned && !HasOrderId(store.orders, id) ==> r == (store, Err(OrderNotFound))
    ensures !store.poisoned ==>
              forall i :: FirstOrderOf(store.orders, id, i) ==>
                if store.orders[i].status == PendingPayment then
                  r.1 == Ok(()) && !r.0.poisoned && StatusOnlyChanged(store.orders, r.0.orders, i, Failed)
                else
                  r == (store, Err(CannotCancelOrder))
    ensures r.1.Err? ==> r.0 == store
    ensures DistinctIds(store.orders) ==> DistinctIds(r.0.orders)
  {
    if store.poisoned then (store, Err(LockError))
    else
      match FindOrder(store.orders, id)
      case None => (store, Err(OrderNotFound))
      case Some(i) =>
        if Cancellable(store.orders[i].status) then
          (store.(orders := store.orders[i := store.orders[i].(status := Failed)]), Ok(()))
        else
          (store, Err(CannotCancelOrder))
  }

  /** `update_order_status`: overwrites the status of the order with that id,
      with no check of the transition; an unknown id succeeds and changes nothing. */
  function UpdateOrderStatus(store: OrderStore, id: string, status: OrderStatus)
    : (r: (OrderStore, Result<(), CheckoutError>))
    ensures store.poisoned ==> r == (store, Err(LockError))
    ensures !store.poisoned ==> r.1 == Ok(()) && !r.0.poisoned
    ensures !HasOrderId(store.orders, id) ==> r.0 == store
    ensures !store.poisoned ==>
              forall i :: FirstOrderOf(store.orders, id, i) ==>
                StatusOnlyChanged(store.orders, r.0.orders, i, status)
    ensures DistinctIds(store.orders) ==> DistinctIds(r.0.orders)
  {
    if store.poisoned then (store, Err(LockError))
    else
      match FindOrder(store.orders, id)
      case None => (store, Ok(()))
      case Some(i) => (store.(orders := store.orders[i := store.orders[i].(status := status)]), Ok(()))
  }

  /** A created order can be looked up by its id and reads back unchanged. */
  lemma {:induction false} CreatedOrderIsFound(store: OrderStore, orderId: string, user: string, items: seq<string>, total: int)
    requires !store.poisoned
    requires !HasOrderId(store.orders, orderId)
    ensures var (after, created) := CreateOrder(store, orderId, user, items, total);
            GetOrderById(after, orderId) == created
  {
    var (after, created) := CreateOrder(store, orderId, user, items, total);
    assert FirstOrderOf(after.orders, orderId, |store.orders|);
  }

  /** A created order shows up last in its user's order list. */
  lemma CreatedOrderIsListed(store: OrderStore, orderId: string, user: string, items: seq<string>, total: int)
    requires !store.poisoned
    requires !HasOrderId(store.orders, orderId)
    ensures var (after, created) := CreateOrder(store, orderId, user, items, total);
            GetUserOrders(after, user) == Ok(OrdersOf(store.orders, user) + [created.value])
  {
    var (after, created) := CreateOrder(store, orderId, user, items, total);
    OrdersOfAppend(store.orders, [created.value], user);
    assert OrdersOf([created.value], user) == [created.value];
  }

  /** A cancel succeeds exactly when the order exists and is still pending. */
  lemma CancelSucceedsIffPending(store: OrderStore, id: string)
    requires !store.poisoned
    ensures CancelOrder(store, id).1.Ok? <==>
              exists i :: FirstOrderOf(store.orders, id, i) && store.orders[i].status == PendingPayment
  {
    match FindOrder(store.orders, id)
    case None =>
    case Some(i) =>
      assert forall k :: FirstOrderOf(store.orders, id, k) ==> k == i;
  }

  /** A status can leave `Paid` or `Failed` only through `update_order_status`:
      a cancel never changes an order that is not pending. */
  lemma CancelKeepsResolvedOrders(store: OrderStore, id: string, i: int)
    requires FirstOrderOf(store.orders, id, i)
    requires store.orders[i].status != PendingPayment
    ensures CancelOrder(store, id).0 == store
  {
  }
}
