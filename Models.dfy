/**
 * The records of the retail domain (AIPRTest/Models.cs) and the order statuses
 * the code writes as plain strings.
 *
 * C# `decimal` is modelled as an exact `real`; `DateTime` values stored in
 * orders are whole seconds (see module Calendar).
 */
module Models {
  type Money = real

  datatype Product = Product(
    id: int,
    name: string,
    currentPrice: Money,
    category: string,
    stockQuantity: int)

  datatype OrderItem = OrderItem(productId: int, quantity: int, priceAtPurchase: Money)

  /** `CreateOrderItemDetail`: one requested line of a new order. */
  datatype LineRequest = LineRequest(productId: int, quantity: int)

  datatype Order = Order(
    id: int,
    orderDate: int,
    customerId: string,
    items: seq<OrderItem>,
    totalAmount: Money,
    status: string)

  /** The key the repositories search products by. */
  function ProductId(p: Product): int { p.id }

  /** The key the repositories search orders by. */
  function OrderId(o: Order): int { o.id }

  const Pending := "Pending"
  const Processed := "Processed"
  const Shipped := "Shipped"
  const Archived := "Archived"

  /** `Quantity * PriceAtPurchase` of one item. */
  function ItemValue(item: OrderItem): Money {
    item.quantity as real * item.priceAtPurchase
  }

  /** Sum of quantity times price over a list of items, added up front to back. */
  function ItemsValue(items: seq<OrderItem>): Money {
    if |items| == 0 then 0.0 else ItemsValue(items[..|items| - 1]) + ItemValue(items[|items| - 1])
  }

  lemma {:induction false} ItemsValueAppend(xs: seq<OrderItem>, ys: seq<OrderItem>)
    ensures ItemsValue(xs + ys) == ItemsValue(xs) + ItemsValue(ys)
    decreases |ys|
  {
    if |ys| == 0 {
      assert xs + ys == xs;
    } else {
      var n := |ys| - 1;
      assert (xs + ys)[..|xs + ys| - 1] == xs + ys[..n];
      ItemsValueAppend(xs, ys[..n]);
    }
  }
}
