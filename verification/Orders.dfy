/** Orders: internal/domain/order.go. */
module Orders {
  import opened Basics

  datatype OrderItem = OrderItem(productId: ProductId, quantity: int, unitPrice: real)

  datatype Status = Pending | Paid | Shipped | Cancelled

  datatype Order = Order(user: UserId, total: real, status: Status, items: seq<OrderItem>)
}
