/** Conversions between the product error and the cart error. Product errors
    survive a round trip through cart errors; cart errors do not. */
module Binding {
  import P = Catalog
  import C = CartService

  const ProductNotFoundMessage: string := "Product not found"

  /** `From<ProductError> for CartError`. */
  function CartErrorFrom(e: P.ProductError): (r: C.CartError)
    ensures r.LockError? <==> e.LockError?
    ensures e.ProductNotFound? ==> r == C.GenericError(ProductNotFoundMessage)
    ensures !r.CartNotFound?
  {
    match e
    case LockError => C.LockError
    case ProductNotFound => C.GenericError(ProductNotFoundMessage)
  }

  /** `Into<ProductError> for CartError`: everything but a lock error becomes `ProductNotFound`. */
  function IntoProductError(e: C.CartError): (r: P.ProductError)
    ensures r.LockError? <==> e.LockError?
    ensures r.ProductNotFound? <==> e.CartNotFound? || e.GenericError?
  {
    match e
    case LockError => P.LockError
    case CartNotFound => P.ProductNotFound
    case GenericError(_) => P.ProductNotFound
  }

  /** Product error to cart error and back is the identity. */
  lemma ProductErrorRoundTrip(e: P.ProductError)
    ensures IntoProductError(CartErrorFrom(e)) == e
  {
  }

  /** Cart error to product error and back keeps exactly the lock error and the
      "Product not found" message; `CartNotFound` and every other message come
      back as `GenericError("Product not found")`. */
  lemma CartErrorRoundTrip(e: C.CartError)
    ensures CartErrorFrom(IntoProductError(e)) == e <==>
              e == C.LockError || e == C.GenericError(ProductNotFoundMessage)
    ensures !e.LockError? ==> CartErrorFrom(IntoProductError(e)) == C.GenericError(ProductNotFoundMessage)
  {
  }

  /** In particular the round trip is not the identity on `CartNotFound`. */
  lemma CartNotFoundIsLost()
    ensures CartErrorFrom(IntoProductError(C.CartNotFound)) != C.CartNotFound
  {
  }
}
