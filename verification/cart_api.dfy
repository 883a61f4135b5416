/** The cart HTTP handlers: each acts for the fixed demo user, adds its own
    defaulting rule on top of the cart store, and always answers with a fixed
    success message. */
module CartApi {
  import opened Common
  import opened CartTypes
  import opened CartService

  const AddedMessage: string := "Item added to cart"
  const UpdatedMessage: string := "Item updated in cart"
  const RemovedMessage: string := "Item removed from cart"

  /** The request's quantity, or 1 when it was omitted. */
  function AddQuantity(req: CartRequest): (r: U32)
    ensures req.quantity.None? ==> r == 1
    ensures req.quantity.Some? ==> r == req.quantity.value
  {
    req.quantity.GetOr(1)
  }

  /** `add_to_cart`: adds the requested product to the demo user's cart,
      with quantity 1 when the request omits it. */
  function AddToCart(carts: Carts, req: CartRequest): (r: (Carts, string))
    requires AddFits(GetCart(carts, DemoUser), CartItem(req.productId, AddQuantity(req)))
    ensures r.1 == AddedMessage
    ensures OthersUnchanged(carts, r.0, DemoUser)
    ensures DemoUser in r.0
    ensures |GetCart(r.0, DemoUser)| >= |GetCart(carts, DemoUser)|
    ensures !HasProduct(GetCart(carts, DemoUser), req.productId) ==>
              GetCart(r.0, DemoUser) == GetCart(carts, DemoUser) + [CartItem(req.productId, AddQuantity(req))]
    ensures forall i :: FirstLineOf(GetCart(carts, DemoUser), req.productId, i) ==>
              && |GetCart(r.0, DemoUser)| == |GetCart(carts, DemoUser)|
              && GetCart(r.0, DemoUser)[i].productId == req.productId
              && GetCart(r.0, DemoUser)[i].quantity == GetCart(carts, DemoUser)[i].quantity + AddQuantity(req)
              && forall j :: 0 <= j < |GetCart(carts, DemoUser)| && j != i ==>
                   GetCart(r.0, DemoUser)[j] == GetCart(carts, DemoUser)[j]
    ensures req.quantity.None? && !HasProduct(GetCart(carts, DemoUser), req.productId) ==>
              GetCart(r.0, DemoUser) == GetCart(carts, DemoUser) + [CartItem(req.productId, 1)]
    ensures WellFormed(carts) ==> WellFormed(r.0)
  {
    (AddItem(carts, DemoUser, CartItem(req.productId, AddQuantity(req))), AddedMessage)
  }

  /** `update_cart`: without a quantity nothing is updated, yet the answer is
      still the success message. */
  function UpdateCart(carts: Carts, req: CartRequest): (r: (Carts, string))
    ensures r.1 == UpdatedMessage
    ensures req.quantity.None? ==> r.0 == carts
    ensures |GetCart(r.0, DemoUser)| == |GetCart(carts, DemoUser)|
    ensures req.quantity.Some? ==>
              forall i :: FirstLineOf(GetCart(carts, DemoUser), req.productId, i) ==>
                && GetCart(r.0, DemoUser)[i] == CartItem(req.productId, req.quantity.value)
                && forall j :: 0 <= j < |GetCart(carts, DemoUser)| && j != i ==>
                     GetCart(r.0, DemoUser)[j] == GetCart(carts, DemoUser)[j]
    ensures DemoUser in r.0 <==> DemoUser in carts
    ensures !HasProduct(GetCart(carts, DemoUser), req.productId) ==> r.0 == carts
    ensures OthersUnchanged(carts, r.0, DemoUser)
  {
    match req.quantity
    case Some(q) => (UpdateItem(carts, DemoUser, CartItem(req.productId, q)), UpdatedMessage)
    case None => (carts, UpdatedMessage)
  }

  /** `remove_from_cart`: always answers with the success message; removing a
      product that is not in the cart changes nothing. */
  function RemoveFromCart(carts: Carts, req: CartRequest): (r: (Carts, string))
    ensures r.1 == RemovedMessage
    ensures !HasProduct(GetCart(r.0, DemoUser), req.productId)
    ensures forall x :: x in GetCart(r.0, DemoUser) <==> x in GetCart(carts, DemoUser) && x.productId != req.productId
    ensures DemoUser in carts ==> GetCart(r.0, DemoUser) == RemoveLines(carts[DemoUser], req.productId)
    ensures DemoUser in r.0 <==> DemoUser in carts
    ensures !HasProduct(GetCart(carts, DemoUser), req.productId) ==> r.0 == carts
    ensures OthersUnchanged(carts, r.0, DemoUser)
  {
    (RemoveItem(carts, DemoUser, req.productId), RemovedMessage)
  }

  /** `get_cart`: the demo user's lines; an empty array when there are none. */
  function GetCartHandler(carts: Carts): (r: Lines)
    ensures DemoUser !in carts ==> r == []
    ensures DemoUser in carts ==> r == carts[DemoUser]
  {
    GetCart(carts, DemoUser)
  }

  /** Adding a product the demo cart lacks and then removing it gives back the
      cart read before the add, whatever the requested quantity. */
  lemma AddThenRemoveRestores(carts: Carts, pid: string, quantity: Option<U32>)
    requires !HasProduct(GetCart(carts, DemoUser), pid)
    ensures var added := AddToCart(carts, CartRequest(pid, quantity)).0;
            GetCartHandler(RemoveFromCart(added, CartRequest(pid, None)).0) == GetCartHandler(carts)
  {
    var before := GetCart(carts, DemoUser);
    var item := CartItem(pid, AddQuantity(CartRequest(pid, quantity)));
    RemoveLinesAppend(before, [item], pid);
    assert RemoveLines([item], pid) == [];
  }

  /** Repeating an update is the same as sending it once. */
  lemma {:induction false} UpdateTwiceIsUpdateOnce(carts: Carts, req: CartRequest)
    ensures UpdateCart(UpdateCart(carts, req).0, req).0 == UpdateCart(carts, req).0
  {
    var once := UpdateCart(carts, req).0;
    if req.quantity.Some? && DemoUser in carts {
      var lines := carts[DemoUser];
      var item := CartItem(req.productId, req.quantity.value);
      match FindLine(lines, req.productId)
      case None =>
      case Some(i) =>
        var after := SetQuantity(lines, item);
        assert FirstLineOf(after, req.productId, i);
        assert SetQuantity(after, item) == after;
    }
  }

  /** Adding ("3", 1) to a fresh store and reading back yields exactly that line. */
  lemma AddThenGetScenario()
    ensures var carts := AddToCart(NewCarts(), CartRequest("3", Some(1))).0;
            GetCartHandler(carts) == [CartItem("3", 1)]
  {
  }

  /** Adding ("2", 2) and then updating it to 5 yields quantity 5. */
  lemma AddThenUpdateScenario()
    ensures var added := AddToCart(NewCarts(), CartRequest("2", Some(2))).0;
            var updated := UpdateCart(added, CartRequest("2", Some(5))).0;
            GetCartHandler(updated) == [CartItem("2", 5)]
  {
    var added := AddToCart(NewCarts(), CartRequest("2", Some(2))).0;
    assert GetCartHandler(added) == [CartItem("2", 2)];
    assert FirstLineOf(GetCart(added, DemoUser), "2", 0);
  }

  /** Adding ("2", 2) and then removing "2" leaves the cart empty. */
  lemma AddThenRemoveScenario()
    ensures var added := AddToCart(NewCarts(), CartRequest("2", Some(2))).0;
            GetCartHandler(RemoveFromCart(added, CartRequest("2", None)).0) == []
  {
    var added := AddToCart(NewCarts(), CartRequest("2", Some(2))).0;
    assert GetCartHandler(added) == [CartItem("2", 2)];
  }

  /** Updating a product that is in no cart, on an empty store, succeeds and leaves the store empty. */
  lemma LenientUpdateScenario()
    ensures UpdateCart(NewCarts(), CartRequest("missing", Some(5))) == (NewCarts(), UpdatedMessage)
  {
  }
}
