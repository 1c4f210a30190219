/**
 * What the notification service sends (AIPRTest/EmailNotificationService.cs).
 * Sending is modelled as appending to a log; the only decision the service
 * takes is whether a product's stock is low.
 */
module Notifications {
  import opened Models

  datatype Notification =
    | OrderConfirmation(customerId: string, order: Order)
    | StockLow(product: Product)

  const LowStockThreshold := 10

  predicate IsStockLow(p: Product) {
    p.stockQuantity < LowStockThreshold
  }

  /** What `NotifyStockLow(product)` sends: one notice when stock is below 10, otherwise none. */
  function NotifyStockLow(p: Product): (sent: seq<Notification>)
    ensures |sent| <= 1
    ensures sent != [] <==> p.stockQuantity < 10
    ensures sent != [] ==> sent[0] == StockLow(p)
  {
    if IsStockLow(p) then [StockLow(p)] else []
  }
}
