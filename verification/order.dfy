/** The order record and its payment status. */
module OrderModel {

  /** Payment status of an order: `PendingPayment` on creation, `Paid` or
      `Failed` once resolved. */
  datatype OrderStatus = PendingPayment | Paid | Failed

  /** An order: the product ids it was created from (quantities are not
      recorded) and one total amount, in whole XAF. */
  datatype Order = Order(
    orderId: string,
    userId: string,
    items: seq<string>,
    totalAmount: int,
    status: OrderStatus)

  /** The status can still change through a cancel. */
  predicate Cancellable(s: OrderStatus) {
    s == PendingPayment
  }
}
