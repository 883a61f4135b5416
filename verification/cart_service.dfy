/** The cart store (`CartService`): one sequence of lines per user, held in
    a map. Every operation runs under one lock over the whole map, so each is
    modelled as a single atomic transition from one map value to the next. */
module CartService {
  import opened Common
  import opened CartTypes

  /** The cart error enum. Its variants are the ones the error conversions
      match on; the cart store itself never returns one. */
  datatype CartError = LockError | CartNotFound | GenericError(message: string)

  /** The store: user id to that user's cart lines. */
  type Carts = map<string, Lines>

  /** `CartService::new`: no user has a cart. */
  function NewCarts(): Carts {
    map[]
  }

  /** At most one line per product. */
  predicate UniqueProducts(lines: Lines) {
    forall i, j :: 0 <= i < j < |lines| ==> lines[i].productId != lines[j].productId
  }

  /** Every user's cart has at most one line per product. */
  predicate WellFormed(carts: Carts) {
    forall u :: u in carts ==> UniqueProducts(carts[u])
  }

  predicate HasProduct(lines: Lines, pid: string) {
    exists i :: 0 <= i < |lines| && lines[i].productId == pid
  }

  /** `i` is where `iter().find` stops: the first line for `pid`. */
  predicate FirstLineOf(lines: Lines, pid: string, i: int) {
    && 0 <= i < |lines|
    && lines[i].productId == pid
    && forall j :: 0 <= j < i ==> lines[j].productId != pid
  }

  /** Only `user`'s entry may differ between `a` and `b`. */
  ghost predicate OthersUnchanged(a: Carts, b: Carts, user: string) {
    forall u :: u != user ==> (u in a <==> u in b) && (u in a ==> a[u] == b[u])
  }

  /** The position of the first line for `pid`, if any. */
  function FindLine(lines: Lines, pid: string): (r: Option<nat>)
    ensures r.Some? ==> FirstLineOf(lines, pid, r.value)
    ensures r.None? <==> !HasProduct(lines, pid)
  {
    if lines == [] then None
    else if lines[0].productId == pid then Some(0)
    else
      match FindLine(lines[1..], pid)
      case None =>
        assert forall i :: 1 <= i < |lines| ==> lines[i] == lines[1..][i - 1];
        None
      case Some(k) =>
        assert forall j :: 1 <= j < k + 1 ==> lines[j] == lines[1..][j - 1];
        Some(k + 1)
  }

  /** Merging `item` would keep the first matching line's quantity inside `u32`
      (the `+=` on `u32` must not overflow). */
  predicate AddFits(lines: Lines, item: CartItem) {
    forall i :: 0 <= i < |lines| && FirstLineOf(lines, item.productId, i) ==> lines[i].quantity + item.quantity <= U32_MAX
  }

  /** The cart-level step of `add_item`: bump the existing line or append. */
  function MergeLine(lines: Lines, item: CartItem): (r: Lines)
    requires AddFits(lines, item)
    ensures HasProduct(lines, item.productId) ==> |r| == |lines|
    ensures forall i :: FirstLineOf(lines, item.productId, i) ==>
              && r[i].productId == item.productId
              && r[i].quantity == lines[i].quantity + item.quantity
              && forall j :: 0 <= j < |lines| && j != i ==> r[j] == lines[j]
    ensures !HasProduct(lines, item.productId) ==> r == lines + [item]
    ensures UniqueProducts(lines) ==> UniqueProducts(r)
  {
    match FindLine(lines, item.productId)
    case Some(i) => lines[i := lines[i].(quantity := lines[i].quantity + item.quantity)]
    case None => lines + [item]
  }

  /** The cart-level step of `update_item`: overwrite the first matching line's quantity. */
  function SetQuantity(lines: Lines, item: CartItem): (r: Lines)
    ensures |r| == |lines|
    ensures forall i :: FirstLineOf(lines, item.productId, i) ==>
              && r[i] == item
              && forall j :: 0 <= j < |lines| && j != i ==> r[j] == lines[j]
    ensures !HasProduct(lines, item.productId) ==> r == lines
    ensures UniqueProducts(lines) ==> UniqueProducts(r)
  {
    match FindLine(lines, item.productId)
    case Some(i) => lines[i := lines[i].(quantity := item.quantity)]
    case None => lines
  }

  /** The cart-level step of `remove_item`: `retain` the lines of other products. */
  function RemoveLines(lines: Lines, pid: string): (r: Lines)
    ensures forall x :: x in r <==> x in lines && x.productId != pid
    ensures |r| <= |lines|
    ensures !HasProduct(lines, pid) ==> r == lines
  {
    if lines == [] then []
    else
      var rest := RemoveLines(lines[1..], pid);
      assert forall x :: x in lines <==> x == lines[0] || x in lines[1..];
      if lines[0].productId == pid then rest else [lines[0]] + rest
  }

  /** No line of the removed product survives. */
  lemma RemoveLinesRemovesAll(lines: Lines, pid: string)
    ensures !HasProduct(RemoveLines(lines, pid), pid)
  {
    var r := RemoveLines(lines, pid);
    assert forall i :: 0 <= i < |r| ==> r[i] in r;
  }

  /** Removal keeps a cart free of duplicate products. */
  lemma {:induction false} RemoveLinesKeepsUnique(lines: Lines, pid: string)
    ensures UniqueProducts(lines) ==> UniqueProducts(RemoveLines(lines, pid))
  {
    if lines != [] && UniqueProducts(lines) {
      RemoveLinesKeepsUnique(lines[1..], pid);
      var rest := RemoveLines(lines[1..], pid);
      if lines[0].productId != pid {
        forall x | x in rest ensures x.productId != lines[0].productId {
          var k :| 0 <= k < |lines[1..]| && lines[1..][k] == x;
          assert lines[k + 1] == x;
        }
        var r := [lines[0]] + rest;
        forall i, j | 0 <= i < j < |r| ensures r[i].productId != r[j].productId {
          assert r[j] == rest[j - 1] && r[j] in rest;
          if i > 0 {
            assert r[i] == rest[i - 1];
          }
        }
      }
    }
  }

  /** `get_cart`: a copy of the user's lines, empty when the user has no cart. */
  function GetCart(carts: Carts, user: string): (r: Lines)
    ensures user in carts ==> r == carts[user]
    ensures user !in carts ==> r == []
  {
    if user in carts then carts[user] else []
  }

  /** `add_item`: creates the user's cart if absent, then merges the item. */
  function AddItem(carts: Carts, user: string, item: CartItem): (r: Carts)
    requires AddFits(GetCart(carts, user), item)
    ensures user in r
    ensures OthersUnchanged(carts, r, user)
    ensures var before := GetCart(carts, user);
            HasProduct(before, item.productId) ==> |r[user]| == |before|
    ensures var before := GetCart(carts, user);
            forall i :: FirstLineOf(before, item.productId, i) ==>
              && r[user][i].productId == item.productId
              && r[user][i].quantity == before[i].quantity + item.quantity
              && forall j :: 0 <= j < |before| && j != i ==> r[user][j] == before[j]
    ensures !HasProduct(GetCart(carts, user), item.productId) ==> r[user] == GetCart(carts, user) + [item]
    ensures WellFormed(carts) ==> WellFormed(r)
  {
    carts[user := MergeLine(GetCart(carts, user), item)]
  }

  /** `update_item`: overwrites the quantity of the user's line for the product;
      with no cart or no such line nothing changes and nothing is created. */
  function UpdateItem(carts: Carts, user: string, item: CartItem): (r: Carts)
    ensures OthersUnchanged(carts, r, user)
    ensures user in r <==> user in carts
    ensures !HasProduct(GetCart(carts, user), item.productId) ==> r == carts
    ensures user in carts ==> |r[user]| == |carts[user]|
    ensures forall i :: FirstLineOf(GetCart(carts, user), item.productId, i) ==>
              && r[user][i] == item
              && forall j :: 0 <= j < |carts[user]| && j != i ==> r[user][j] == carts[user][j]
    ensures WellFormed(carts) ==> WellFormed(r)
  {
    if user in carts then carts[user := SetQuantity(carts[user], item)] else carts
  }

  /** `remove_item`: drops every line of the product from the user's cart,
      keeping the others; a no-op for an unknown user or product. */
  function RemoveItem(carts: Carts, user: string, pid: string): (r: Carts)
    ensures OthersUnchanged(carts, r, user)
    ensures user in r <==> user in carts
    ensures !HasProduct(GetCart(r, user), pid)
    ensures forall x :: x in GetCart(r, user) <==> x in GetCart(carts, user) && x.productId != pid
    ensures user in carts ==> r[user] == RemoveLines(carts[user], pid)
    ensures !HasProduct(GetCart(carts, user), pid) ==> r == carts
    ensures WellFormed(carts) ==> WellFormed(r)
  {
    if user in carts then
      RemoveLinesRemovesAll(carts[user], pid);
      RemoveLinesKeepsUnique(carts[user], pid);
      carts[user := RemoveLines(carts[user], pid)]
    else carts
  }

  /** Removal keeps the surviving lines in their original order: it
      distributes over concatenation. */
  lemma {:induction false} RemoveLinesAppend(a: Lines, b: Lines, pid: string)
    ensures RemoveLines(a + b, pid) == RemoveLines(a, pid) + RemoveLines(b, pid)
  {
    if a == [] {
      assert a + b == b;
    } else {
      assert (a + b)[1..] == a[1..] + b;
      RemoveLinesAppend(a[1..], b, pid);
    }
  }

  /** Reading right after an add shows the merged lines; other users read as before. */
  lemma GetCartAfterAdd(carts: Carts, user: string, item: CartItem, other: string)
    requires AddFits(GetCart(carts, user), item)
    requires other != user
    ensures GetCart(AddItem(carts, user, item), user) == MergeLine(GetCart(carts, user), item)
    ensures GetCart(AddItem(carts, user, item), other) == GetCart(carts, other)
  {
  }

  /** Two adds of the same product to a cart without it leave one line holding the sum. */
  lemma AddTwiceMerges(carts: Carts, user: string, pid: string, p: U32, q: U32)
    requires !HasProduct(GetCart(carts, user), pid)
    requires p + q <= U32_MAX
    ensures var once := AddItem(carts, user, CartItem(pid, p));
            AddFits(GetCart(once, user), CartItem(pid, q)) &&
            var twice := AddItem(once, user, CartItem(pid, q));
            |twice[user]| == |GetCart(carts, user)| + 1 &&
            twice[user][|GetCart(carts, user)|] == CartItem(pid, p + q)
  {
    var before := GetCart(carts, user);
    var once := AddItem(carts, user, CartItem(pid, p));
    assert once[user] == before + [CartItem(pid, p)];
    assert FirstLineOf(once[user], pid, |before|);
  }
}
