/**
 * The order-fulfilment service (AIPRTest/OrderFulfillmentService.cs): placing an
 * order validates every line, charges the customer, deducts stock line by line
 * and records a "Processed" order; shipping moves "Processed" to "Shipped".
 */
module Fulfillment {
  import opened Wrappers
  import opened Models
  import opened ProductRepository
  import opened OrderRepository
  import opened Notifications

  /** The exceptions `PlaceOrder` throws. */
  datatype PlaceError =
    | EmptyOrder                                                            // "Order must contain items."
    | ProductNotFound(productId: int)                                       // "Product with ID .. not found."
    | NotEnoughStock(productName: string, available: int, requested: int)  // "Not enough stock for product .."
    | PaymentFailed                                                         // "Payment processing failed."

  /** A requested line passes validation: its product exists and has at least the quantity asked for. */
  predicate LineAccepted(ps: seq<Product>, line: LineRequest) {
    Lookup(ps, line.productId).Some? && line.quantity <= Lookup(ps, line.productId).value.stockQuantity
  }

  /** One pass of the validation loop: the line's price snapshot, or the exception it raises. */
  function CheckLine(ps: seq<Product>, line: LineRequest): Result<OrderItem, PlaceError> {
    match Lookup(ps, line.productId)
    case None => Failure(ProductNotFound(line.productId))
    case Some(p) =>
      if p.stockQuantity < line.quantity then Failure(NotEnoughStock(p.name, p.stockQuantity, line.quantity))
      else Success(OrderItem(line.productId, line.quantity, p.currentPrice))
  }

  /** The validation loop over all lines, against the catalog as it was before the call. */
  function ValidateLines(ps: seq<Product>, lines: seq<LineRequest>): Result<seq<OrderItem>, PlaceError>
    decreases |lines|
  {
    if |lines| == 0 then Success([])
    else match ValidateLines(ps, lines[..|lines| - 1])
      case Failure(e) => Failure(e)
      case Success(items) =>
        match CheckLine(ps, lines[|lines| - 1])
        case Failure(e) => Failure(e)
        case Success(item) => Success(items + [item])
  }

  /** Validation succeeds exactly when every line is accepted, and then snapshots each line's price in order. */
  lemma {:induction false} ValidateLinesAccepts(ps: seq<Product>, lines: seq<LineRequest>)
    ensures ValidateLines(ps, lines).Success? <==> forall k :: 0 <= k < |lines| ==> LineAccepted(ps, lines[k])
    ensures ValidateLines(ps, lines).Success? ==>
      var items := ValidateLines(ps, lines).value;
      |items| == |lines| &&
      forall k :: 0 <= k < |lines| ==>
        items[k] == OrderItem(lines[k].productId, lines[k].quantity, Lookup(ps, lines[k].productId).value.currentPrice)
    decreases |lines|
  {
    if |lines| > 0 {
      var n := |lines| - 1;
      var init := lines[..n];
      ValidateLinesAccepts(ps, init);
      assert forall k :: 0 <= k < n ==> init[k] == lines[k];
    }
  }

  /** A failed validation reports the exception of the first rejected line. */
  lemma {:induction false} ValidateLinesFirstRejected(ps: seq<Product>, lines: seq<LineRequest>)
    ensures ValidateLines(ps, lines).Failure? ==>
      exists k :: 0 <= k < |lines| && !LineAccepted(ps, lines[k]) &&
        (forall j :: 0 <= j < k ==> LineAccepted(ps, lines[j])) &&
        CheckLine(ps, lines[k]) == Failure(ValidateLines(ps, lines).error)
    decreases |lines|
  {
    if |lines| > 0 {
      var n := |lines| - 1;
      var init := lines[..n];
      match ValidateLines(ps, init)
      case Failure(e) =>
        ValidateLinesFirstRejected(ps, init);
        var k :| 0 <= k < n && !LineAccepted(ps, init[k]) &&
          (forall j :: 0 <= j < k ==> LineAccepted(ps, init[j])) && CheckLine(ps, init[k]) == Failure(e);
        assert init[k] == lines[k];
        assert forall j :: 0 <= j < k ==> init[j] == lines[j];
      case Success(_) =>
        ValidateLinesAccepts(ps, init);
        assert forall j :: 0 <= j < n ==> init[j] == lines[j];
    }
  }

  /**
   * Validation succeeds exactly when every line is accepted; it then snapshots each
   * line's current price, in request order. Otherwise it fails with the exception of
   * the first rejected line, which is always a missing product or a stock shortfall.
   */
  lemma ValidateLinesSpec(ps: seq<Product>, lines: seq<LineRequest>)
    ensures ValidateLines(ps, lines).Success? <==> forall k :: 0 <= k < |lines| ==> LineAccepted(ps, lines[k])
    ensures ValidateLines(ps, lines).Success? ==>
      var items := ValidateLines(ps, lines).value;
      |items| == |lines| &&
      forall k :: 0 <= k < |lines| ==>
        items[k] == OrderItem(lines[k].productId, lines[k].quantity, Lookup(ps, lines[k].productId).value.currentPrice)
    ensures ValidateLines(ps, lines).Failure? ==>
      exists k :: 0 <= k < |lines| && !LineAccepted(ps, lines[k]) &&
        (forall j :: 0 <= j < k ==> LineAccepted(ps, lines[j])) &&
        CheckLine(ps, lines[k]) == Failure(ValidateLines(ps, lines).error)
    ensures ValidateLines(ps, lines).Failure? ==>
      ValidateLines(ps, lines).error.ProductNotFound? || ValidateLines(ps, lines).error.NotEnoughStock?
  {
    ValidateLinesAccepts(ps, lines);
    ValidateLinesFirstRejected(ps, lines);
  }

  /** Once a prefix of the lines is rejected, the whole request fails with that prefix's exception. */
  lemma {:induction false} ValidatePrefixFailure(ps: seq<Product>, lines: seq<LineRequest>, k: nat)
    requires k <= |lines| && ValidateLines(ps, lines[..k]).Failure?
    ensures ValidateLines(ps, lines) == ValidateLines(ps, lines[..k])
    decreases |lines|
  {
    if k < |lines| {
      var n := |lines| - 1;
      assert lines[..n][..k] == lines[..k];
      ValidatePrefixFailure(ps, lines[..n], k);
    } else {
      assert lines[..k] == lines;
    }
  }

  /** One more pass of the validation loop, over the prefixes the loop walks through. */
  lemma ValidatePrefixStep(ps: seq<Product>, lines: seq<LineRequest>, i: nat, items: seq<OrderItem>, item: OrderItem)
    requires i < |lines| && ValidateLines(ps, lines[..i]) == Success(items)
    requires CheckLine(ps, lines[i]) == Success(item)
    ensures ValidateLines(ps, lines[..i + 1]) == Success(items + [item])
    ensures ItemsValue(items + [item]) == ItemsValue(items) + ItemValue(item)
  {
    assert lines[..i + 1][..i] == lines[..i];
    assert (items + [item])[..|items|] == items;
  }

  /** The validation loop stops at the first rejected line, with that line's exception. */
  lemma ValidatePrefixRejects(ps: seq<Product>, lines: seq<LineRequest>, i: nat, items: seq<OrderItem>)
    requires i < |lines| && ValidateLines(ps, lines[..i]) == Success(items)
    requires CheckLine(ps, lines[i]).Failure?
    ensures ValidateLines(ps, lines) == Failure(CheckLine(ps, lines[i]).error)
  {
    assert lines[..i + 1][..i] == lines[..i];
    ValidatePrefixFailure(ps, lines, i + 1);
  }

  /** Every line of a request that passed validation is accepted. */
  lemma AcceptedAt(ps: seq<Product>, lines: seq<LineRequest>, k: nat)
    requires ValidateLines(ps, lines).Success? && k < |lines|
    ensures LineAccepted(ps, lines[k])
  {
    ValidateLinesSpec(ps, lines);
  }

  /** One pass of the deduction loop: re-read the product, then set its stock to stock - quantity. */
  function DeductLine(ps: seq<Product>, line: LineRequest): seq<Product> {
    match Lookup(ps, line.productId)
    case None => ps
    case Some(p) => SetStock(ps, p.id, p.stockQuantity - line.quantity)
  }

  /** The catalog after the deduction loop has run over `lines` in order. */
  function Deduct(ps: seq<Product>, lines: seq<LineRequest>): seq<Product>
    decreases |lines|
  {
    if |lines| == 0 then ps else DeductLine(Deduct(ps, lines[..|lines| - 1]), lines[|lines| - 1])
  }

  /** What `NotifyStockLow` sends after one deduction: it sees the product with its new stock. */
  function AlertAfterLine(ps: seq<Product>, line: LineRequest): seq<Notification> {
    match Lookup(ps, line.productId)
    case None => []
    case Some(p) => NotifyStockLow(p.(stockQuantity := p.stockQuantity - line.quantity))
  }

  /** The low-stock notices sent during the deduction loop. */
  function LowStockAlerts(ps: seq<Product>, lines: seq<LineRequest>): seq<Notification>
    decreases |lines|
  {
    if |lines| == 0 then []
    else
      var init := lines[..|lines| - 1];
      LowStockAlerts(ps, init) + AlertAfterLine(Deduct(ps, init), lines[|lines| - 1])
  }

  /** Total quantity requested for product `x` over all lines. */
  function QtyFor(lines: seq<LineRequest>, x: int): int
    decreases |lines|
  {
    if |lines| == 0 then 0
    else QtyFor(lines[..|lines| - 1], x) + (if lines[|lines| - 1].productId == x then lines[|lines| - 1].quantity else 0)
  }

  /** A looked-up product with `q` units taken off its stock. */
  function Reduced(found: Option<Product>, q: int): Option<Product> {
    match found
    case None => None
    case Some(p) => Some(p.(stockQuantity := p.stockQuantity - q))
  }

  /** Taking nothing off leaves a product as it was; taking twice is taking the sum. */
  lemma ReducedSteps(found: Option<Product>, a: int, b: int)
    ensures Reduced(found, 0) == found
    ensures Reduced(Reduced(found, a), b) == Reduced(found, a + b)
  {
    if found.Some? {
      var p := found.value;
      assert p.(stockQuantity := p.stockQuantity - 0) == p;
    }
  }

  /** One deduction pass keeps every id in its place. */
  lemma DeductLineSameIds(d: seq<Product>, line: LineRequest)
    ensures SameIds(d, DeductLine(d, line))
  {
    match Lookup(d, line.productId)
    case None =>
    case Some(p) =>
      SetStockEffect(d, p.id, p.stockQuantity - line.quantity);
  }

  /** One deduction pass takes the line's quantity off the product with its id, and nothing else. */
  lemma DeductLineLookupAt(d: seq<Product>, line: LineRequest, x: int)
    ensures Lookup(DeductLine(d, line), x) == Reduced(Lookup(d, x), if line.productId == x then line.quantity else 0)
  {
    ReducedSteps(Lookup(d, x), 0, 0);
    match Lookup(d, line.productId)
    case None =>
    case Some(p) =>
      assert p.id == line.productId;
      SetStockLookupAt(d, p.id, p.stockQuantity - line.quantity, x);
  }

  lemma {:induction false} DeductSameIds(ps: seq<Product>, lines: seq<LineRequest>)
    ensures SameIds(ps, Deduct(ps, lines))
    decreases |lines|
  {
    if |lines| > 0 {
      var n := |lines| - 1;
      var d := Deduct(ps, lines[..n]);
      DeductSameIds(ps, lines[..n]);
      DeductLineSameIds(d, lines[n]);
    }
  }

  lemma {:induction false} DeductLookupAt(ps: seq<Product>, lines: seq<LineRequest>, x: int)
    ensures Lookup(Deduct(ps, lines), x) == Reduced(Lookup(ps, x), QtyFor(lines, x))
    decreases |lines|
  {
    if |lines| == 0 {
      ReducedSteps(Lookup(ps, x), 0, 0);
    } else {
      var n := |lines| - 1;
      var d := Deduct(ps, lines[..n]);
      var line := lines[n];
      DeductLookupAt(ps, lines[..n], x);
      DeductLineLookupAt(d, line, x);
      ReducedSteps(Lookup(ps, x), QtyFor(lines[..n], x), if line.productId == x then line.quantity else 0);
    }
  }

  /**
   * Deduction keeps the ids, and the product each id finds loses exactly the sum of
   * the quantities requested for it, whether those come from one line or several.
   */
  lemma DeductLookup(ps: seq<Product>, lines: seq<LineRequest>)
    ensures SameIds(ps, Deduct(ps, lines))
    ensures forall x :: Lookup(Deduct(ps, lines), x) == Reduced(Lookup(ps, x), QtyFor(lines, x))
  {
    DeductSameIds(ps, lines);
    forall x ensures Lookup(Deduct(ps, lines), x) == Reduced(Lookup(ps, x), QtyFor(lines, x)) {
      DeductLookupAt(ps, lines, x);
    }
  }

  /** One more pass of the deduction loop, over the prefixes the loop walks through. */
  lemma DeductPrefixStep(ps: seq<Product>, lines: seq<LineRequest>, i: nat)
    requires i < |lines|
    ensures Deduct(ps, lines[..i + 1]) == DeductLine(Deduct(ps, lines[..i]), lines[i])
    ensures LowStockAlerts(ps, lines[..i + 1]) == LowStockAlerts(ps, lines[..i]) + AlertAfterLine(Deduct(ps, lines[..i]), lines[i])
  {
    assert lines[..i + 1][..i] == lines[..i];
  }

  /** Deduction never adds or removes a product. */
  lemma DeductKeepsProducts(ps: seq<Product>, lines: seq<LineRequest>, x: int)
    ensures Lookup(Deduct(ps, lines), x).Some? <==> Lookup(ps, x).Some?
  {
    DeductLookup(ps, lines);
  }

  /** One deduction pass changes at most the stock of the first product with the line's id. */
  lemma DeductLineAt(d: seq<Product>, line: LineRequest, j: nat)
    requires j < |d|
    ensures |DeductLine(d, line)| == |d|
    ensures DeductLine(d, line)[j] == d[j].(stockQuantity := DeductLine(d, line)[j].stockQuantity)
    ensures FindProduct(d, line.productId) != Some(j) ==> DeductLine(d, line)[j] == d[j]
  {
    match Lookup(d, line.productId)
    case None =>
    case Some(p) =>
      SetStockAt(d, p.id, p.stockQuantity - line.quantity, j);
  }

  /** Deduction changes at most the stock of the product at position `j`, and nothing of a shadowed one. */
  lemma {:induction false} DeductFrameAt(ps: seq<Product>, lines: seq<LineRequest>, j: nat)
    requires j < |ps|
    ensures |Deduct(ps, lines)| == |ps|
    ensures Deduct(ps, lines)[j] == ps[j].(stockQuantity := Deduct(ps, lines)[j].stockQuantity)
    ensures FindProduct(ps, ps[j].id) != Some(j) ==> Deduct(ps, lines)[j] == ps[j]
    decreases |lines|
  {
    if |lines| > 0 {
      var n := |lines| - 1;
      var d := Deduct(ps, lines[..n]);
      DeductFrameAt(ps, lines[..n], j);
      DeductSameIds(ps, lines[..n]);
      DeductLineAt(d, lines[n], j);
      SameIdsSameFind(ps, d, ps[j].id);
    }
  }

  /** A product whose id no line requests comes out of deduction exactly as it went in. */
  lemma {:induction false} DeductUntouchedAt(ps: seq<Product>, lines: seq<LineRequest>, j: nat)
    requires j < |ps|
    requires forall k :: 0 <= k < |lines| ==> lines[k].productId != ps[j].id
    ensures |Deduct(ps, lines)| == |ps|
    ensures Deduct(ps, lines)[j] == ps[j]
    decreases |lines|
  {
    if |lines| > 0 {
      var n := |lines| - 1;
      var d := Deduct(ps, lines[..n]);
      assert forall k :: 0 <= k < n ==> lines[..n][k] == lines[k];
      DeductUntouchedAt(ps, lines[..n], j);
      DeductLineAt(d, lines[n], j);
      assert lines[n].productId != d[j].id;
    }
  }

  /**
   * Only stock fields change, and a product whose id no line requests, or that is
   * shadowed by an earlier product with the same id, is left exactly as it was.
   */
  lemma DeductFrame(ps: seq<Product>, lines: seq<LineRequest>)
    ensures |Deduct(ps, lines)| == |ps|
    ensures forall j :: 0 <= j < |ps| ==>
      Deduct(ps, lines)[j] == ps[j].(stockQuantity := Deduct(ps, lines)[j].stockQuantity)
    ensures forall j :: 0 <= j < |ps| && (forall k :: 0 <= k < |lines| ==> lines[k].productId != ps[j].id) ==>
      Deduct(ps, lines)[j] == ps[j]
    ensures forall j :: 0 <= j < |ps| && FindProduct(ps, ps[j].id) != Some(j) ==> Deduct(ps, lines)[j] == ps[j]
  {
    DeductSameIds(ps, lines);
    forall j | 0 <= j < |ps|
      ensures Deduct(ps, lines)[j] == ps[j].(stockQuantity := Deduct(ps, lines)[j].stockQuantity)
      ensures (forall k :: 0 <= k < |lines| ==> lines[k].productId != ps[j].id) ==> Deduct(ps, lines)[j] == ps[j]
      ensures FindProduct(ps, ps[j].id) != Some(j) ==> Deduct(ps, lines)[j] == ps[j]
    {
      DeductFrameAt(ps, lines, j);
      if forall k :: 0 <= k < |lines| ==> lines[k].productId != ps[j].id {
        DeductUntouchedAt(ps, lines, j);
      }
    }
  }

  predicate DistinctProductIds(lines: seq<LineRequest>) {
    forall i, j :: 0 <= i < j < |lines| ==> lines[i].productId != lines[j].productId
  }

  /** With distinct ids, the total requested for a line's product is that line's quantity. */
  lemma {:induction false} QtyForDistinct(lines: seq<LineRequest>, x: int)
    requires DistinctProductIds(lines)
    ensures forall k :: 0 <= k < |lines| && lines[k].productId == x ==> QtyFor(lines, x) == lines[k].quantity
    ensures (forall k :: 0 <= k < |lines| ==> lines[k].productId != x) ==> QtyFor(lines, x) == 0
    decreases |lines|
  {
    if |lines| > 0 {
      var n := |lines| - 1;
      assert forall k :: 0 <= k < n ==> lines[..n][k] == lines[k];
      QtyForDistinct(lines[..n], x);
    }
  }

  /**
   * For a validated request with distinct product ids, each requested product's
   * stock drops by exactly its line's quantity and every stock that was
   * non-negative stays non-negative.
   */
  lemma DistinctOrderDeductsEachLine(ps: seq<Product>, lines: seq<LineRequest>)
    requires ValidateLines(ps, lines).Success? && DistinctProductIds(lines)
    ensures forall k :: 0 <= k < |lines| ==>
      Lookup(ps, lines[k].productId).Some? &&
      Lookup(Deduct(ps, lines), lines[k].productId) == Reduced(Lookup(ps, lines[k].productId), lines[k].quantity)
    ensures |Deduct(ps, lines)| == |ps|
    ensures forall j :: 0 <= j < |ps| && 0 <= ps[j].stockQuantity ==> 0 <= Deduct(ps, lines)[j].stockQuantity
  {
    ValidateLinesSpec(ps, lines);
    DeductLookup(ps, lines);
    DeductFrame(ps, lines);
    var d := Deduct(ps, lines);
    forall k | 0 <= k < |lines|
      ensures Lookup(ps, lines[k].productId).Some? &&
        Lookup(d, lines[k].productId) == Reduced(Lookup(ps, lines[k].productId), lines[k].quantity)
    {
      assert LineAccepted(ps, lines[k]);
      QtyForDistinct(lines, lines[k].productId);
    }
    forall j | 0 <= j < |ps| && 0 <= ps[j].stockQuantity
      ensures 0 <= d[j].stockQuantity
    {
      var x := ps[j].id;
      if FindProduct(ps, x) == Some(j) {
        SameIdsSameFind(ps, d, x);
        QtyForDistinct(lines, x);
        if k :| 0 <= k < |lines| && lines[k].productId == x {
          assert LineAccepted(ps, lines[k]);
        }
      }
    }
  }

  /** Two lines for the same product each pass validation, yet together drive its stock below zero. */
  lemma DuplicateLinesOverdraw()
    ensures
      var ps := [Product(1, "Laptop Pro", 1200.00, "Electronics", 1)];
      var lines := [LineRequest(1, 1), LineRequest(1, 1)];
      ValidateLines(ps, lines).Success? && Lookup(Deduct(ps, lines), 1) == Some(ps[0].(stockQuantity := -1))
  {
    var ps := [Product(1, "Laptop Pro", 1200.00, "Electronics", 1)];
    var lines := [LineRequest(1, 1), LineRequest(1, 1)];
    assert lines[..1] == [LineRequest(1, 1)];
    assert lines[..1][..0] == [];
    ValidateLinesSpec(ps, lines);
    assert LineAccepted(ps, lines[0]) && LineAccepted(ps, lines[1]);
    DeductLookup(ps, lines);
    assert QtyFor(lines, 1) == 2;
  }

  /** A negative quantity is never rejected: it passes validation and raises the stock. */
  lemma NegativeQuantityRaisesStock()
    ensures
      var ps := [Product(1, "Laptop Pro", 1200.00, "Electronics", 1)];
      var lines := [LineRequest(1, -5)];
      ValidateLines(ps, lines).Success? && Lookup(Deduct(ps, lines), 1) == Some(ps[0].(stockQuantity := 6))
  {
    var ps := [Product(1, "Laptop Pro", 1200.00, "Electronics", 1)];
    var lines := [LineRequest(1, -5)];
    assert lines[..0] == [];
    ValidateLinesSpec(ps, lines);
    assert LineAccepted(ps, lines[0]);
    DeductLookup(ps, lines);
    assert QtyFor(lines, 1) == -5;
  }

  /** An order can be shipped exactly when it exists and is "Processed". */
  predicate CanShip(os: seq<Order>, orderId: int) {
    LookupOrder(os, orderId).Some? && LookupOrder(os, orderId).value.status == Processed
  }

  class OrderFulfillmentService {
    const productRepo: ProductStore
    const orderRepo: OrderStore
    /** Everything the notification service has sent, oldest first. */
    var notifications: seq<Notification>

    ghost predicate Valid()
      reads this, productRepo, orderRepo
    {
      productRepo.Valid() && orderRepo.Valid()
    }

    constructor (productRepo: ProductStore, orderRepo: OrderStore)
      ensures this.productRepo == productRepo && this.orderRepo == orderRepo
      ensures notifications == []
    {
      this.productRepo := productRepo;
      this.orderRepo := orderRepo;
      notifications := [];
    }

    /**
     * `PlaceOrder`, with the payment gateway's answer passed in as `paymentApproved`
     * and the order store's clock as `now`.
     */
    method PlaceOrder(customerId: string, items: seq<LineRequest>, paymentApproved: bool, now: int)
      returns (r: Result<Order, PlaceError>)
      requires Valid()
      modifies this, productRepo, orderRepo
      ensures Valid()
      ensures productRepo.nextProductId == old(productRepo.nextProductId)
      ensures items == [] ==> r == Failure(EmptyOrder)
      ensures items != [] && ValidateLines(old(productRepo.products), items).Failure? ==>
        r == Failure(ValidateLines(old(productRepo.products), items).error)
      ensures items != [] && ValidateLines(old(productRepo.products), items).Success? ==>
        (r.Success? <==> paymentApproved)
      ensures r == Failure(PaymentFailed) <==>
        items != [] && ValidateLines(old(productRepo.products), items).Success? && !paymentApproved
      ensures r.Failure? ==>
        && productRepo.products == old(productRepo.products)
        && orderRepo.orders == old(orderRepo.orders)
        && orderRepo.nextOrderId == old(orderRepo.nextOrderId)
        && notifications == old(notifications)
      ensures r.Success? ==>
        && ValidateLines(old(productRepo.products), items) == Success(r.value.items)
        && r.value == Order(old(orderRepo.nextOrderId), now, customerId, r.value.items, ItemsValue(r.value.items), Processed)
        && productRepo.products == Deduct(old(productRepo.products), items)
        && orderRepo.orders == old(orderRepo.orders) + [r.value]
        && orderRepo.nextOrderId == old(orderRepo.nextOrderId) + 1
        && notifications == old(notifications) + LowStockAlerts(old(productRepo.products), items)
                                               + [OrderConfirmation(customerId, r.value)]
    {
      if |items| == 0 {
        return Failure(EmptyOrder);
      }
      ValidateLinesSpec(productRepo.products, items);
      var validated, totalAmount := ValidateItems(items);
      if validated.Failure? {
        return Failure(validated.error);
      }
      if !paymentApproved {
        return Failure(PaymentFailed);
      }
      DeductStock(items);
      var order := Order(0, 0, customerId, validated.value, totalAmount, Processed);
      var created := orderRepo.CreateOrder(order, now);
      notifications := notifications + [OrderConfirmation(customerId, created)];
      return Success(created);
    }

    /** The first loop of `PlaceOrder`: check every line and snapshot its price, summing the total. */
    method ValidateItems(items: seq<LineRequest>) returns (r: Result<seq<OrderItem>, PlaceError>, totalAmount: Money)
      ensures r == ValidateLines(productRepo.products, items)
      ensures r.Success? ==> totalAmount == ItemsValue(r.value)
    {
      var orderItems: seq<OrderItem> := [];
      totalAmount := 0.0;
      var i := 0;
      while i < |items|
        invariant 0 <= i <= |items|
        invariant ValidateLines(productRepo.products, items[..i]) == Success(orderItems)
        invariant totalAmount == ItemsValue(orderItems)
      {
        var product := productRepo.GetProductById(items[i].productId);
        assert product == Lookup(productRepo.products, items[i].productId);
        if product.None? {
          ValidatePrefixRejects(productRepo.products, items, i, orderItems);
          return Failure(ProductNotFound(items[i].productId)), totalAmount;
        }
        if product.value.stockQuantity < items[i].quantity {
          ValidatePrefixRejects(productRepo.products, items, i, orderItems);
          return Failure(NotEnoughStock(product.value.name, product.value.stockQuantity, items[i].quantity)), totalAmount;
        }
        var item := OrderItem(items[i].productId, items[i].quantity, product.value.currentPrice);
        ValidatePrefixStep(productRepo.products, items, i, orderItems, item);
        orderItems := orderItems + [item];
        totalAmount := totalAmount + product.value.currentPrice * items[i].quantity as real;
        i := i + 1;
      }
      assert items[..|items|] == items;
      return Success(orderItems), totalAmount;
    }

    /** The second loop of `PlaceOrder`: re-read each product, set its stock to stock - quantity, notify. */
    method DeductStock(items: seq<LineRequest>)
      requires productRepo.Valid()
      requires ValidateLines(productRepo.products, items).Success?
      modifies this, productRepo
      ensures productRepo.products == Deduct(old(productRepo.products), items)
      ensures productRepo.nextProductId == old(productRepo.nextProductId)
      ensures productRepo.Valid()
      ensures notifications == old(notifications) + LowStockAlerts(old(productRepo.products), items)
    {
      ghost var ps0 := productRepo.products;
      assert items[..0] == [];
      var i := 0;
      while i < |items|
        invariant 0 <= i <= |items|
        invariant productRepo.products == Deduct(ps0, items[..i])
        invariant productRepo.nextProductId == old(productRepo.nextProductId)
        invariant productRepo.Valid()
        invariant notifications == old(notifications) + LowStockAlerts(ps0, items[..i])
      {
        AcceptedAt(ps0, items, i);
        DeductKeepsProducts(ps0, items[..i], items[i].productId);
        DeductPrefixStep(ps0, items, i);
        DeductOne(items[i]);
        i := i + 1;
      }
      assert items[..|items|] == items;
    }

    /** One pass of the deduction loop, for a line whose product exists. */
    method DeductOne(line: LineRequest)
      requires productRepo.Valid()
      requires Lookup(productRepo.products, line.productId).Some?
      modifies this, productRepo
      ensures productRepo.products == DeductLine(old(productRepo.products), line)
      ensures productRepo.nextProductId == old(productRepo.nextProductId)
      ensures productRepo.Valid()
      ensures notifications == old(notifications) + AlertAfterLine(old(productRepo.products), line)
    {
      var product := productRepo.GetProductById(line.productId);
      var newStock := product.value.stockQuantity - line.quantity;
      productRepo.UpdateProductStock(product.value.id, newStock);
      notifications := notifications + NotifyStockLow(product.value.(stockQuantity := newStock));
    }

    /** `ShipOrder`: only a "Processed" order becomes "Shipped"; anything else is refused untouched. */
    method ShipOrder(orderId: int) returns (shipped: bool)
      requires Valid()
      modifies orderRepo
      ensures Valid()
      ensures shipped <==> CanShip(old(orderRepo.orders), orderId)
      ensures orderRepo.orders == if shipped then SetStatus(old(orderRepo.orders), orderId, Shipped) else old(orderRepo.orders)
      ensures shipped ==> orderRepo.GetOrderById(orderId) == Some(old(orderRepo.GetOrderById(orderId)).value.(status := Shipped))
      ensures orderRepo.nextOrderId == old(orderRepo.nextOrderId)
    {
      var order := orderRepo.GetOrderById(orderId);
      if order.None? || order.value.status != Processed {
        return false;
      }
      var _ := orderRepo.UpdateOrderStatus(orderId, Shipped);
      SetStatusEffect(old(orderRepo.orders), orderId, Shipped);
      return true;
    }
  }
}
