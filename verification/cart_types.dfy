/** The cart line record shared by the cart store and its HTTP handlers,
    and the request body those handlers accept. */
module CartTypes {
  import opened Common

  /** One line of a cart: a product and how many of it. */
  datatype CartItem = CartItem(productId: string, quantity: U32)

  /** Body of the add, update and remove requests; the quantity may be omitted. */
  datatype CartRequest = CartRequest(productId: string, quantity: Option<U32>)

  /** The lines of one user's cart, in insertion order. */
  type Lines = seq<CartItem>
}
