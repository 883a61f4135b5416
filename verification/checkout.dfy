/** The checkout coordinator (`checkout`, `payment_callback`): reads the demo
    user's cart, prices every line through the product lookup, creates one
    order, and later applies the payment outcome to it. The cart read and the
    order creation are two separate atomic steps of the stores; here they are
    composed sequentially. */
module Checkout {
  import opened Common
  import opened CartTypes
  import opened CartService
  import opened OrderModel
  import Orders = CheckoutService
  import Catalog

  /** The state the handlers share: the cart store and the order store. */
  datatype AppState = AppState(carts: Carts, orders: Orders.OrderStore)

  /** A fresh server: no carts, no orders. */
  function NewState(): AppState {
    AppState(NewCarts(), Orders.NewStore())
  }

  /** The product lookup: the unit price of a product, or `None` when it is not found. */
  type ProductLookup = string -> Option<int>

  const EmptyCartMessage: string := "Cart is empty"
  const UnknownProductMessage: string := "product not found"
  const CreateFailedMessage: string := "Failed to create order"
  const StartedMessage: string := "Checkout started, awaiting payment..."
  const CallbackFailedMessage: string := "Failed to update order status"
  const CallbackMessage: string := "Payment status updated"
  const SuccessStatus: string := "success"

  /** Every line's product has a price. */
  predicate Priced(lines: Lines, lookup: ProductLookup) {
    forall i :: 0 <= i < |lines| ==> lookup(lines[i].productId).Some?
  }

  /** The amount due: the sum of quantity times unit price over the lines,
      accumulated in cart order. */
  function CartTotal(lines: Lines, lookup: ProductLookup): int
    requires Priced(lines, lookup)
  {
    if lines == [] then 0
    else
      var last := lines[|lines| - 1];
      CartTotal(lines[..|lines| - 1], lookup) + last.quantity * lookup(last.productId).value
  }

  /** The pricing loop from line `i` on, with `acc` the total of the lines
      before it; the first unknown product aborts the whole loop. */
  function PriceFrom(lines: Lines, lookup: ProductLookup, i: nat, acc: int): (r: Option<int>)
    requires i <= |lines|
    requires Priced(lines[..i], lookup)
    requires acc == CartTotal(lines[..i], lookup)
    ensures r.Some? <==> Priced(lines, lookup)
    ensures r.Some? ==> r.value == CartTotal(lines, lookup)
    decreases |lines| - i
  {
    if i == |lines| then
      assert lines[..i] == lines;
      Some(acc)
    else
      match lookup(lines[i].productId)
      case None => None
      case Some(price) =>
        assert lines[..i + 1][..i] == lines[..i];
        PriceFrom(lines, lookup, i + 1, acc + lines[i].quantity * price)
  }

  /** Prices a cart: `None` as soon as one product cannot be found. */
  function PriceCart(lines: Lines, lookup: ProductLookup): (r: Option<int>)
    ensures r.Some? <==> Priced(lines, lookup)
    ensures r.Some? ==> r.value == CartTotal(lines, lookup)
  {
    assert lines[..0] == [];
    PriceFrom(lines, lookup, 0, 0)
  }

  /** The amount due for a cart is the sum of the amounts due for its parts. */
  lemma {:induction false} CartTotalAppend(a: Lines, b: Lines, lookup: ProductLookup)
    requires Priced(a, lookup) && Priced(b, lookup)
    ensures Priced(a + b, lookup)
    ensures CartTotal(a + b, lookup) == CartTotal(a, lookup) + CartTotal(b, lookup)
    decreases |b|
  {
    assert Priced(a + b, lookup) by {
      forall i | 0 <= i < |a + b| ensures lookup((a + b)[i].productId).Some? {
        if i >= |a| { assert (a + b)[i] == b[i - |a|]; }
      }
    }
    if b == [] {
      assert a + b == a;
    } else {
      var b' := b[..|b| - 1];
      assert Priced(b', lookup) by {
        forall i | 0 <= i < |b'| ensures lookup(b'[i].productId).Some? {
          assert b'[i] == b[i];
        }
      }
      CartTotalAppend(a, b', lookup);
      assert (a + b)[..|a + b| - 1] == a + b';
      assert b[..|b| - 1] == b';
    }
  }

  /** The product ids of the lines, one per line, in cart order. */
  function ProductIds(lines: Lines): (r: seq<string>)
    ensures |r| == |lines|
    ensures forall i :: 0 <= i < |lines| ==> r[i] == lines[i].productId
  {
    seq(|lines|, i requires 0 <= i < |lines| => lines[i].productId)
  }

  /** The order a successful checkout of `lines` creates under `orderId`. */
  function PendingOrder(orderId: string, lines: Lines, lookup: ProductLookup): Order
    requires Priced(lines, lookup)
  {
    Order(orderId, DemoUser, ProductIds(lines), CartTotal(lines, lookup), PendingPayment)
  }

  /** `checkout` for the demo user, with `orderId` the fresh id the order
      store will assign. An empty cart, an unknown product, or a poisoned
      order store fail without creating an order; the cart is never changed;
      the payment notification has no observable effect. */
  function Checkout(state: AppState, lookup: ProductLookup, orderId: string)
    : (r: (AppState, Result<string, CartError>))
    requires !Orders.HasOrderId(state.orders.orders, orderId)
    ensures r.0.carts == state.carts
    ensures GetCart(state.carts, DemoUser) == [] ==> r == (state, Err(GenericError(EmptyCartMessage)))
    ensures var cart := GetCart(state.carts, DemoUser);
            cart != [] && !Priced(cart, lookup) ==> r == (state, Err(GenericError(UnknownProductMessage)))
    ensures var cart := GetCart(state.carts, DemoUser);
            cart != [] && Priced(cart, lookup) && state.orders.poisoned ==>
              r == (state, Err(GenericError(CreateFailedMessage)))
    ensures r.1.Ok? <==>
              GetCart(state.carts, DemoUser) != [] && Priced(GetCart(state.carts, DemoUser), lookup) && !state.orders.poisoned
    ensures r.1.Ok? ==>
              && r.1.value == StartedMessage
              && r.0.orders == Orders.OrderStore(
                   state.orders.orders + [PendingOrder(orderId, GetCart(state.carts, DemoUser), lookup)], false)
    ensures r.1.Err? ==> r.0 == state
    ensures Orders.DistinctIds(state.orders.orders) ==> Orders.DistinctIds(r.0.orders.orders)
  {
    var cart := GetCart(state.carts, DemoUser);
    if cart == [] then (state, Err(GenericError(EmptyCartMessage)))
    else
      match PriceCart(cart, lookup)
      case None => (state, Err(GenericError(UnknownProductMessage)))
      case Some(total) =>
        var (orders, created) := Orders.CreateOrder(state.orders, orderId, DemoUser, ProductIds(cart), total);
        if created.Err? then (state, Err(GenericError(CreateFailedMessage)))
        else (state.(orders := orders), Ok(StartedMessage))
  }

  /** The status a payment callback sets: `Paid` for "success" and `Failed`
      for every other string. */
  function CallbackStatus(paymentStatus: string): (r: OrderStatus)
    ensures r == Paid <==> paymentStatus == SuccessStatus
    ensures r == Failed <==> paymentStatus != SuccessStatus
  {
    if paymentStatus == SuccessStatus then Paid
    else if paymentStatus == "failure" then Failed
    else Failed
  }

  /** `payment_callback`: overwrites the order's status with the callback's
      outcome; an unknown order id succeeds and changes nothing. */
  function PaymentCallback(state: AppState, orderId: string, paymentStatus: string)
    : (r: (AppState, Result<string, CartError>))
    ensures r.0.carts == state.carts
    ensures state.orders.poisoned ==> r == (state, Err(GenericError(CallbackFailedMessage)))
    ensures !state.orders.poisoned ==> r.1 == Ok(CallbackMessage)
    ensures !Orders.HasOrderId(state.orders.orders, orderId) ==> r.0 == state
    ensures r.0.orders.poisoned == state.orders.poisoned
    ensures !state.orders.poisoned ==>
              forall i :: Orders.FirstOrderOf(state.orders.orders, orderId, i) ==>
                Orders.StatusOnlyChanged(state.orders.orders, r.0.orders.orders, i, CallbackStatus(paymentStatus))
  {
    var (orders, outcome) := Orders.UpdateOrderStatus(state.orders, orderId, CallbackStatus(paymentStatus));
    if outcome.Err? then (state, Err(GenericError(CallbackFailedMessage)))
    else (state.(orders := orders), Ok(CallbackMessage))
  }

  /** The cart is not cleared by checkout: checking out the same cart twice
      creates two orders with the same items and the same total. */
  lemma RepeatedCheckoutReorders(state: AppState, lookup: ProductLookup, id1: string, id2: string)
    requires !Orders.HasOrderId(state.orders.orders, id1)
    requires !Orders.HasOrderId(state.orders.orders, id2) && id1 != id2
    requires Checkout(state, lookup, id1).1.Ok?
    ensures var first := Checkout(state, lookup, id1).0;
            !Orders.HasOrderId(first.orders.orders, id2) &&
            var second := Checkout(first, lookup, id2);
            && second.1.Ok?
            && |second.0.orders.orders| == |state.orders.orders| + 2
            && second.0.orders.orders[|state.orders.orders|].items
               == second.0.orders.orders[|state.orders.orders| + 1].items
            && second.0.orders.orders[|state.orders.orders|].totalAmount
               == second.0.orders.orders[|state.orders.orders| + 1].totalAmount
  {
    var first := Checkout(state, lookup, id1).0;
    assert first.orders.orders == state.orders.orders + [PendingOrder(id1, GetCart(state.carts, DemoUser), lookup)];
    assert !Orders.HasOrderId(first.orders.orders, id2) by {
      forall i | 0 <= i < |first.orders.orders| ensures first.orders.orders[i].orderId != id2 {
        if i < |state.orders.orders| {
          assert first.orders.orders[i] == state.orders.orders[i];
        }
      }
    }
  }

  /** Pricing {"2": 2, "3": 1} against the mock catalog gives 35000. */
  lemma MockPricingScenario()
    ensures PriceCart([CartItem("2", 2), CartItem("3", 1)], Catalog.MockPrice) == Some(35000)
  {
    var lines := [CartItem("2", 2), CartItem("3", 1)];
    assert Priced(lines, Catalog.MockPrice);
    assert lines[..1][..0] == [];
    assert lines[..|lines| - 1] == lines[..1];
    assert CartTotal(lines[..1], Catalog.MockPrice) == 30000;
  }

  /** Checkout with an empty cart fails with "Cart is empty" and creates no order. */
  lemma EmptyCartScenario(orderId: string)
    ensures Checkout(NewState(), Catalog.MockPrice, orderId) == (NewState(), Err(GenericError(EmptyCartMessage)))
  {
  }

  /** Two stools in the cart: checkout succeeds with one pending order of 30000. */
  lemma StoolCheckoutScenario(orderId: string)
    ensures var state := NewState().(carts := AddItem(NewCarts(), DemoUser, CartItem("2", 2)));
            var (after, reply) := Checkout(state, Catalog.MockPrice, orderId);
            && reply == Ok(StartedMessage)
            && after.orders.orders == [Order(orderId, DemoUser, ["2"], 30000, PendingPayment)]
  {
    var lines := [CartItem("2", 2)];
    var state := NewState().(carts := AddItem(NewCarts(), DemoUser, CartItem("2", 2)));
    StoolCart();
    assert GetCart(state.carts, DemoUser) == lines;
    StoolOrder(orderId);
  }

  /** The cart two stools leave on a fresh server. */
  lemma StoolCart()
    ensures GetCart(AddItem(NewCarts(), DemoUser, CartItem("2", 2)), DemoUser) == [CartItem("2", 2)]
  {
    assert MergeLine([], CartItem("2", 2)) == [CartItem("2", 2)];
  }

  /** The order a cart of two stools checks out into. */
  lemma StoolOrder(orderId: string)
    ensures Priced([CartItem("2", 2)], Catalog.MockPrice)
    ensures PendingOrder(orderId, [CartItem("2", 2)], Catalog.MockPrice)
            == Order(orderId, DemoUser, ["2"], 30000, PendingPayment)
  {
    var lines := [CartItem("2", 2)];
    assert Priced(lines, Catalog.MockPrice);
    assert lines[..0] == [];
    assert CartTotal(lines, Catalog.MockPrice) == 30000;
    assert ProductIds(lines) == ["2"];
  }

  /** A callback for an order id nobody created succeeds and changes nothing. */
  lemma UnknownOrderCallbackScenario()
    ensures PaymentCallback(NewState(), "some-fake-order-id", SuccessStatus) == (NewState(), Ok(CallbackMessage))
  {
  }

  /** A freshly checked-out order is pending; a "success" callback makes it
      `Paid`, any other outcome makes it `Failed`. */
  lemma CheckoutThenCallback(state: AppState, lookup: ProductLookup, orderId: string, paymentStatus: string)
    requires !Orders.HasOrderId(state.orders.orders, orderId)
    requires Checkout(state, lookup, orderId).1.Ok?
    ensures var after := Checkout(state, lookup, orderId).0;
            && Orders.GetOrderById(after.orders, orderId).Ok?
            && Orders.GetOrderById(after.orders, orderId).value.status == PendingPayment
            && var paid := PaymentCallback(after, orderId, paymentStatus).0;
               && Orders.GetOrderById(paid.orders, orderId).Ok?
               && (Orders.GetOrderById(paid.orders, orderId).value.status == Paid <==> paymentStatus == SuccessStatus)
  {
    var cart := GetCart(state.carts, DemoUser);
    var total := PriceCart(cart, lookup).value;
    Orders.CreatedOrderIsFound(state.orders, orderId, DemoUser, ProductIds(cart), total);
    var after := Checkout(state, lookup, orderId).0;
    var n := |state.orders.orders|;
    assert Orders.FirstOrderOf(after.orders.orders, orderId, n);
    var paid := PaymentCallback(after, orderId, paymentStatus).0;
    assert Orders.StatusOnlyChanged(after.orders.orders, paid.orders.orders, n, CallbackStatus(paymentStatus));
    assert Orders.FirstOrderOf(paid.orders.orders, orderId, n);
  }
}
