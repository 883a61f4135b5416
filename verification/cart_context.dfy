/** The buyer front end's cart state (`CartProvider`): a list of cart items
    and whether the cart drawer is open, with the `addToCart`,
    `removeFromCart` and `toggleCart` updates as pure functions. */
module CartContext {
  import opened Common

  /** A product as the front end shows it; prices are whole amounts. */
  datatype UiProduct = UiProduct(
    id: string,
    title: string,
    price: int,
    image: string,
    category: string,
    description: Option<string>)

  /** A product in the cart, with how many of it. */
  datatype UiCartItem = UiCartItem(product: UiProduct, quantity: int)

  datatype CartUiState = CartUiState(cartItems: seq<UiCartItem>, isCartOpen: bool)

  /** The provider's initial state: an empty cart, drawer closed. */
  function InitialState(): CartUiState {
    CartUiState([], false)
  }

  predicate HasId(items: seq<UiCartItem>, id: string) {
    exists i :: 0 <= i < |items| && items[i].product.id == id
  }

  /** No two items share a product id. */
  predicate UniqueIds(items: seq<UiCartItem>) {
    forall i, j :: 0 <= i < j < |items| ==> items[i].product.id != items[j].product.id
  }

  /** The number of units in the cart. */
  function TotalQuantity(items: seq<UiCartItem>): int {
    if items == [] then 0 else items[0].quantity + TotalQuantity(items[1..])
  }

  /** `prev.map(...)`: one more unit on every item with that id. */
  function IncrementMatching(items: seq<UiCartItem>, id: string): seq<UiCartItem> {
    seq(|items|, i requires 0 <= i < |items| =>
      if items[i].product.id == id then items[i].(quantity := items[i].quantity + 1) else items[i])
  }

  /** `addToCart`: one more unit of a product already in the cart, otherwise
      the product appended with quantity 1. */
  function AddToCart(items: seq<UiCartItem>, product: UiProduct): (r: seq<UiCartItem>)
    ensures HasId(items, product.id) ==> |r| == |items|
    ensures HasId(items, product.id) ==>
              forall i :: 0 <= i < |items| ==>
                && r[i].product == items[i].product
                && r[i].quantity == items[i].quantity + (if items[i].product.id == product.id then 1 else 0)
    ensures !HasId(items, product.id) ==> r == items + [UiCartItem(product, 1)]
    ensures UniqueIds(items) ==> UniqueIds(r)
  {
    if HasId(items, product.id) then IncrementMatching(items, product.id)
    else items + [UiCartItem(product, 1)]
  }

  /** `removeFromCart`: keeps the items with another id, in order. */
  function RemoveFromCart(items: seq<UiCartItem>, id: string): (r: seq<UiCartItem>)
    ensures forall x :: x in r <==> x in items && x.product.id != id
    ensures !HasId(r, id)
    ensures !HasId(items, id) ==> r == items
  {
    if items == [] then []
    else
      var rest := RemoveFromCart(items[1..], id);
      assert forall x :: x in items <==> x == items[0] || x in items[1..];
      if items[0].product.id == id then rest else [items[0]] + rest
  }

  /** `toggleCart`: flips the drawer, keeps the items. */
  function ToggleCart(s: CartUiState): (r: CartUiState)
    ensures r.isCartOpen != s.isCartOpen
    ensures r.cartItems == s.cartItems
  {
    s.(isCartOpen := !s.isCartOpen)
  }

  lemma {:induction false} TotalQuantityAppend(a: seq<UiCartItem>, b: seq<UiCartItem>)
    ensures TotalQuantity(a + b) == TotalQuantity(a) + TotalQuantity(b)
  {
    if a == [] {
      assert a + b == b;
    } else {
      assert (a + b)[1..] == a[1..] + b;
      TotalQuantityAppend(a[1..], b);
    }
  }

  /** Raising the quantity of one item by one raises the cart's unit count by one. */
  lemma {:induction false} TotalQuantityBump(items: seq<UiCartItem>, k: int, r: seq<UiCartItem>)
    requires 0 <= k < |items| && |r| == |items|
    requires r[k].quantity == items[k].quantity + 1
    requires forall i :: 0 <= i < |items| && i != k ==> r[i].quantity == items[i].quantity
    ensures TotalQuantity(r) == TotalQuantity(items) + 1
    decreases |items|
  {
    if k > 0 {
      TotalQuantityBump(items[1..], k - 1, r[1..]);
    } else {
      QuantitiesAgree(items[1..], r[1..]);
    }
  }

  lemma {:induction false} QuantitiesAgree(a: seq<UiCartItem>, b: seq<UiCartItem>)
    requires |a| == |b|
    requires forall i :: 0 <= i < |a| ==> a[i].quantity == b[i].quantity
    ensures TotalQuantity(a) == TotalQuantity(b)
  {
    if a != [] {
      QuantitiesAgree(a[1..], b[1..]);
    }
  }

  /** With unique ids, every add puts exactly one more unit in the cart. */
  lemma AddToCartAddsOneUnit(items: seq<UiCartItem>, product: UiProduct)
    requires UniqueIds(items)
    ensures TotalQuantity(AddToCart(items, product)) == TotalQuantity(items) + 1
  {
    var r := AddToCart(items, product);
    if HasId(items, product.id) {
      var k :| 0 <= k < |items| && items[k].product.id == product.id;
      TotalQuantityBump(items, k, r);
    } else {
      TotalQuantityAppend(items, [UiCartItem(product, 1)]);
      assert TotalQuantity([UiCartItem(product, 1)]) == 1;
    }
  }

  /** Adding a product that is not in the cart and then removing it restores the cart. */
  lemma AddThenRemoveRestores(items: seq<UiCartItem>, product: UiProduct)
    requires !HasId(items, product.id)
    ensures RemoveFromCart(AddToCart(items, product), product.id) == items
  {
    RemoveFromCartAppend(items, [UiCartItem(product, 1)], product.id);
  }

  /** Removal distributes over concatenation, so it keeps the other items in order. */
  lemma {:induction false} RemoveFromCartAppend(a: seq<UiCartItem>, b: seq<UiCartItem>, id: string)
    ensures RemoveFromCart(a + b, id) == RemoveFromCart(a, id) + RemoveFromCart(b, id)
  {
    if a == [] {
      assert a + b == b;
    } else {
      assert (a + b)[1..] == a[1..] + b;
      RemoveFromCartAppend(a[1..], b, id);
    }
  }

  /** Toggling twice restores the state. */
  lemma ToggleTwice(s: CartUiState)
    ensures ToggleCart(ToggleCart(s)) == s
  {
  }

  /** The first add to the initial state gives a one-item cart with the drawer still closed. */
  lemma FirstAdd(product: UiProduct)
    ensures AddToCart(InitialState().cartItems, product) == [UiCartItem(product, 1)]
    ensures !InitialState().isCartOpen
  {
  }
}
