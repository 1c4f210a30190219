/**
 * LegacyAnalyticsAndReportingEngine (AIPRTest/Legacy.cs): CSV field escaping, the
 * reorder-threshold table, the shipped-sales report, the per-category trend and the
 * end-of-day batch that archives old orders.
 *
 * The engine reads the two stores' shared lists directly; here the product list and
 * the order list are parameters (the batch takes the order store itself, since it
 * rewrites statuses), and `DateTime.UtcNow` is the parameter `now` or `today`.
 * Order dates are seconds since 0001-01-01 00:00 (module Calendar).
 */
module LegacyAnalytics {
  import opened Wrappers
  import opened Models
  import opened Text
  import opened Sorting
  import opened Calendar
  import opened SalesTally
  import opened ProductRepository
  import opened OrderRepository

  // ---------------------------------------------------------------- CSV fields

  /** A field with a comma, a double quote or a line feed must be quoted. */
  predicate NeedsQuoting(field: string) {
    ',' in field || '"' in field || '\n' in field
  }

  /** `field.Replace("\"", "\"\"")`. */
  function DoubleQuotes(s: string): (r: string)
    ensures |r| >= |s|
    ensures '"' !in s ==> r == s
    decreases |s|
  {
    if |s| == 0 then []
    else (if s[0] == '"' then "\"\"" else [s[0]]) + DoubleQuotes(s[1..])
  }

  /** `EscapeCsvField`: empty stays empty, a plain field is kept, any other is quoted. */
  function EscapeCsvField(field: string): (r: string)
    ensures |field| == 0 ==> r == ""
    ensures !NeedsQuoting(field) ==> r == field
    ensures NeedsQuoting(field) ==> |r| >= |field| + 2 && r[0] == '"' && r[|r| - 1] == '"'
  {
    if |field| == 0 then ""
    else if NeedsQuoting(field) then "\"" + DoubleQuotes(field) + "\""
    else field
  }

  /** The body of a quoted field: every double quote must come as a doubled pair. */
  function Undouble(b: string): Option<string>
    decreases |b|
  {
    if |b| == 0 then Some([])
    else if b[0] != '"' then
      match Undouble(b[1..])
      case None => None
      case Some(rest) => Some([b[0]] + rest)
    else if |b| >= 2 && b[1] == '"' then
      match Undouble(b[2..])
      case None => None
      case Some(rest) => Some(['"'] + rest)
    else None
  }

  /**
   * Reads one field back: an escaped field (section 2, rules 5 to 7 of RFC 4180) has
   * its quotes removed and its doubled quotes halved; a field that is not escaped is
   * taken as it is, provided it holds nothing that would have forced quoting.
   */
  function UnquoteCsvField(s: string): Option<string> {
    if |s| > 0 && s[0] == '"' then
      (if |s| >= 2 && s[|s| - 1] == '"' then Undouble(s[1..|s| - 1]) else None)
    else if NeedsQuoting(s) then None
    else Some(s)
  }

  lemma {:induction false} UndoubleDoubleQuotes(s: string)
    ensures Undouble(DoubleQuotes(s)) == Some(s)
    decreases |s|
  {
    if |s| > 0 {
      UndoubleDoubleQuotes(s[1..]);
      var d := DoubleQuotes(s);
      if s[0] == '"' {
        assert d[0] == '"' && d[1] == '"' && d[2..] == DoubleQuotes(s[1..]);
      } else {
        assert d[0] == s[0] && d[1..] == DoubleQuotes(s[1..]);
      }
      assert s == [s[0]] + s[1..];
    }
  }

  /** Reading an escaped field back gives the original field: escaping loses nothing. */
  lemma EscapeCsvFieldRoundTrip(field: string)
    ensures UnquoteCsvField(EscapeCsvField(field)) == Some(field)
  {
    if NeedsQuoting(field) {
      var r := EscapeCsvField(field);
      assert r[1..|r| - 1] == DoubleQuotes(field);
      UndoubleDoubleQuotes(field);
    }
  }

  /** Two fields with the same escaped form are the same field. */
  lemma EscapeCsvFieldInjective(a: string, b: string)
    requires EscapeCsvField(a) == EscapeCsvField(b)
    ensures a == b
  {
    EscapeCsvFieldRoundTrip(a);
    EscapeCsvFieldRoundTrip(b);
  }

  /** A field that needs quoting but holds no double quote is only wrapped in quotes. */
  lemma EscapeWrapsQuoteFreeField(field: string)
    requires NeedsQuoting(field) && '"' !in field
    ensures EscapeCsvField(field) == "\"" + field + "\""
  {
  }

  /** Embedded quotes are doubled inside the surrounding quotes. */
  lemma EscapeQuoteExample()
    ensures EscapeCsvField("a\"b") == "\"a\"\"b\""
  {
    var f := "a\"b";
    assert f[1] == '"';
    assert f[1..][1..] == "b";
    assert DoubleQuotes(f[1..][1..]) == "b";
    assert DoubleQuotes(f[1..]) == "\"\"b";
    assert DoubleQuotes(f) == "a\"\"b";
  }

  /** A carriage return alone does not force quotes. */
  lemma EscapeCarriageReturnExample()
    ensures EscapeCsvField("a\rb") == "a\rb"
  {
    var f := "a\rb";
    assert !NeedsQuoting(f) by {
      assert forall k :: 0 <= k < |f| ==> f[k] != ',' && f[k] != '"' && f[k] != '\n';
    }
  }

  // -------------------------------------------------------- reorder thresholds

  /**
   * `GetReorderThreshold`: the table, keyed by the lower-cased category. `ToLower()` is
   * culture-sensitive; the model lower-cases ASCII letters as the invariant culture does.
   */
  function GetReorderThreshold(category: string): (r: int)
    ensures r == 10 <==> Lower(category) == "electronics"
    ensures r == 20 <==> Lower(category) == "accessories"
    ensures r == 15 <==> Lower(category) != "electronics" && Lower(category) != "accessories"
  {
    var c := Lower(category);
    if c == "electronics" then 10
    else if c == "accessories" then 20
    else 15
  }

  /** The alert condition of the batch's reorder check. */
  predicate NeedsReorder(p: Product) {
    p.stockQuantity < GetReorderThreshold(p.category)
  }

  /** Categories that differ only in ASCII case get the same threshold. */
  lemma ThresholdIgnoresCase(category: string)
    ensures GetReorderThreshold(Upper(category)) == GetReorderThreshold(category)
    ensures GetReorderThreshold(Lower(category)) == GetReorderThreshold(category)
  {
    assert Lower(Upper(category)) == Lower(category);
    LowerIdempotent(category);
  }

  lemma ThresholdExamples()
    ensures GetReorderThreshold("Electronics") == 10
    ensures GetReorderThreshold("ACCESSORIES") == 20
    ensures GetReorderThreshold("Accessories") == 20
    ensures GetReorderThreshold("Home Goods") == 15
  {
    assert Lower("Electronics") == "electronics";
    assert Lower("ACCESSORIES") == "accessories";
    assert Lower("Accessories") == "accessories";
    assert Lower("Home Goods")[0] == 'h';
  }

  /** The products the batch flags for reordering, in list order. */
  function ReorderAlerts(ps: seq<Product>): seq<Product>
    decreases |ps|
  {
    if |ps| == 0 then []
    else ReorderAlerts(ps[..|ps| - 1]) + (if NeedsReorder(ps[|ps| - 1]) then [ps[|ps| - 1]] else [])
  }

  /**
   * A product is flagged iff it is listed and its stock is under its category's threshold,
   * and it is flagged as many times as it is listed.
   */
  lemma {:induction false} ReorderAlertsSpec(ps: seq<Product>)
    ensures |ReorderAlerts(ps)| <= |ps|
    ensures forall p :: p in ReorderAlerts(ps) <==> p in ps && NeedsReorder(p)
    ensures forall p :: multiset(ReorderAlerts(ps))[p] == if NeedsReorder(p) then multiset(ps)[p] else 0
    decreases |ps|
  {
    if |ps| > 0 {
      var init := ps[..|ps| - 1];
      ReorderAlertsSpec(init);
      assert ps == init + [ps[|ps| - 1]];
    }
  }

  /**
   * The alerts of a list split in two are the alerts of the first part followed by those of
   * the second: flagged products keep their relative catalog order.
   */
  lemma {:induction false} ReorderAlertsAppend(a: seq<Product>, b: seq<Product>)
    ensures ReorderAlerts(a + b) == ReorderAlerts(a) + ReorderAlerts(b)
    decreases |b|
  {
    if |b| == 0 {
      assert a + b == a;
    } else {
      var init := b[..|b| - 1];
      var last := b[|b| - 1];
      ReorderAlertsAppend(a, init);
      assert a + b == (a + init) + [last];
      assert (a + b)[..|a + b| - 1] == a + init;
    }
  }

  /** A single product is flagged exactly when it needs reordering. */
  lemma ReorderAlertsSingle(p: Product)
    ensures ReorderAlerts([p]) == if NeedsReorder(p) then [p] else []
  {
    assert [p][..0] == [];
  }

  /** The fixture of the batch test: only the laptop, at stock 5 under threshold 10, is flagged. */
  lemma ReorderAlertsExample()
    ensures var laptop := Product(1, "Laptop Pro", 1200.0, "Electronics", 5);
      var mouse := Product(2, "Wireless Mouse", 25.0, "Accessories", 200);
      var lamp := Product(3, "Desk Lamp", 40.0, "Home Goods", 100);
      ReorderAlerts([laptop, mouse, lamp]) == [laptop]
  {
    var laptop := Product(1, "Laptop Pro", 1200.0, "Electronics", 5);
    var mouse := Product(2, "Wireless Mouse", 25.0, "Accessories", 200);
    var lamp := Product(3, "Desk Lamp", 40.0, "Home Goods", 100);
    ThresholdExamples();
    ReorderAlertsSingle(laptop);
    ReorderAlertsSingle(mouse);
    ReorderAlertsSingle(lamp);
    ReorderAlertsAppend([laptop], [mouse]);
    ReorderAlertsAppend([laptop, mouse], [lamp]);
    assert [laptop] + [mouse] == [laptop, mouse];
    assert [laptop, mouse] + [lamp] == [laptop, mouse, lamp];
  }

  // ------------------------------------------------------------ shared filters

  /** The `Where` of the report and of the trend: shipped, and dated within `[lo, hi]`. */
  predicate ShippedWithin(o: Order, lo: int, hi: int) {
    lo <= o.orderDate <= hi && o.status == Shipped
  }

  function ShippedBetween(os: seq<Order>, lo: int, hi: int): seq<Order>
    decreases |os|
  {
    if |os| == 0 then []
    else ShippedBetween(os[..|os| - 1], lo, hi) + (if ShippedWithin(os[|os| - 1], lo, hi) then [os[|os| - 1]] else [])
  }

  /** The filter keeps exactly the shipped orders in the window, in list order. */
  lemma {:induction false} ShippedBetweenSpec(os: seq<Order>, lo: int, hi: int)
    ensures |ShippedBetween(os, lo, hi)| <= |os|
    ensures forall o :: o in ShippedBetween(os, lo, hi) <==> o in os && ShippedWithin(o, lo, hi)
    decreases |os|
  {
    if |os| > 0 {
      var init := os[..|os| - 1];
      ShippedBetweenSpec(init, lo, hi);
      assert os == init + [os[|os| - 1]];
    }
  }
  // -------------------------------------------------------------- sales report

  /**
   * The item is counted: its product exists and passes the category filter ("" when
   * there is none; the comparison is case-sensitive).
   */
  predicate Kept(products: seq<Product>, filter: string, item: OrderItem) {
    && Lookup(products, item.productId).Some?
    && (filter == "" || Lookup(products, item.productId).value.category == filter)
  }

  /** The items of one order that the inner loop counts, in order. */
  function KeptOf(items: seq<OrderItem>, products: seq<Product>, filter: string): seq<OrderItem>
    decreases |items|
  {
    if |items| == 0 then []
    else
      var last := items[|items| - 1];
      KeptOf(items[..|items| - 1], products, filter) + (if Kept(products, filter, last) then [last] else [])
  }

  /** The counted items of all orders, order by order. */
  function KeptItems(orders: seq<Order>, products: seq<Product>, filter: string): seq<OrderItem>
    decreases |orders|
  {
    if |orders| == 0 then []
    else KeptItems(orders[..|orders| - 1], products, filter) + KeptOf(orders[|orders| - 1].items, products, filter)
  }

  /** One more pass of the inner loop, after the items counted so far. */
  lemma KeptOfPrefix(prior: seq<OrderItem>, items: seq<OrderItem>, products: seq<Product>, filter: string, j: nat)
    requires j < |items|
    ensures Kept(products, filter, items[j]) ==>
      prior + KeptOf(items[..j + 1], products, filter) == (prior + KeptOf(items[..j], products, filter)) + [items[j]]
    ensures !Kept(products, filter, items[j]) ==>
      prior + KeptOf(items[..j + 1], products, filter) == prior + KeptOf(items[..j], products, filter)
  {
    assert items[..j + 1][..j] == items[..j];
  }

  lemma KeptItemsPrefix(orders: seq<Order>, products: seq<Product>, filter: string, i: nat)
    requires i < |orders|
    ensures KeptItems(orders[..i + 1], products, filter)
      == KeptItems(orders[..i], products, filter) + KeptOf(orders[i].items, products, filter)
  {
    assert orders[..i + 1][..i] == orders[..i];
  }

  /** An item is counted iff it belongs to the order and passes the product and category checks. */
  lemma {:induction false} KeptOfSpec(items: seq<OrderItem>, products: seq<Product>, filter: string)
    ensures forall it :: it in KeptOf(items, products, filter) <==> it in items && Kept(products, filter, it)
    decreases |items|
  {
    if |items| > 0 {
      var init := items[..|items| - 1];
      KeptOfSpec(init, products, filter);
      assert items == init + [items[|items| - 1]];
    }
  }

  /** What `GenerateComplexSalesReport` reports, short of its text. */
  datatype SalesReport =
    | NoSales
    | Sales(breakdown: seq<ProductSales>, shippedOrderCount: nat, totalSalesValue: Money)

  /** The report as a function of the order list, the product list and the arguments. */
  function SalesReportOf(orders: seq<Order>, products: seq<Product>, startDate: int, endDate: int, filter: string): SalesReport {
    var inPeriod := ShippedBetween(orders, startDate, endDate);
    if |inPeriod| == 0 then NoSales
    else
      var kept := KeptItems(inPeriod, products, filter);
      Sales(SortDesc(TallyProducts(kept), SaleValue), |inPeriod|, ItemsValue(kept))
  }

  /**
   * `GenerateComplexSalesReport`: select the shipped orders of the period, then walk
   * their items, skipping unknown products and other categories, adding each kept
   * item to its product's entry and to the running total; list the entries by value,
   * largest first.
   */
  method GenerateComplexSalesReport(orders: seq<Order>, products: seq<Product>, startDate: int, endDate: int, categoryFilter: string)
    returns (report: SalesReport)
    ensures report == SalesReportOf(orders, products, startDate, endDate, categoryFilter)
  {
    var inPeriod := ShippedBetween(orders, startDate, endDate);
    if |inPeriod| == 0 {
      return NoSales;
    }
    var totalSalesValue := 0.0;
    var productSales: seq<ProductSales> := [];
    var i := 0;
    while i < |inPeriod|
      invariant 0 <= i <= |inPeriod|
      invariant productSales == TallyProducts(KeptItems(inPeriod[..i], products, categoryFilter))
      invariant totalSalesValue == ItemsValue(KeptItems(inPeriod[..i], products, categoryFilter))
    {
      KeptItemsPrefix(inPeriod, products, categoryFilter, i);
      productSales, totalSalesValue := AddOrderToReport(productSales, totalSalesValue,
        KeptItems(inPeriod[..i], products, categoryFilter), inPeriod[i].items, products, categoryFilter);
      i := i + 1;
    }
    assert inPeriod[..i] == inPeriod;
    report := Sales(SortDesc(productSales, SaleValue), |inPeriod|, totalSalesValue);
  }

  /**
   * The inner loop of `GenerateComplexSalesReport` over one order's items: skip an
   * unknown product or another category, otherwise add the item to its product's
   * entry and to the running total.
   */
  method AddOrderToReport(productSales: seq<ProductSales>, totalSalesValue: Money, ghost prior: seq<OrderItem>,
                          items: seq<OrderItem>, products: seq<Product>, categoryFilter: string)
    returns (updatedSales: seq<ProductSales>, updatedTotal: Money)
    requires productSales == TallyProducts(prior) && totalSalesValue == ItemsValue(prior)
    ensures updatedSales == TallyProducts(prior + KeptOf(items, products, categoryFilter))
    ensures updatedTotal == ItemsValue(prior + KeptOf(items, products, categoryFilter))
  {
    updatedSales, updatedTotal := productSales, totalSalesValue;
    var j := 0;
    assert prior + KeptOf(items[..0], products, categoryFilter) == prior;
    while j < |items|
      invariant 0 <= j <= |items|
      invariant updatedSales == TallyProducts(prior + KeptOf(items[..j], products, categoryFilter))
      invariant updatedTotal == ItemsValue(prior + KeptOf(items[..j], products, categoryFilter))
    {
      var item := items[j];
      KeptOfPrefix(prior, items, products, categoryFilter, j);
      var product := Lookup(products, item.productId);
      if product.Some? && (categoryFilter == "" || product.value.category == categoryFilter) {
        TallyProductsAppend(prior + KeptOf(items[..j], products, categoryFilter), item);
        updatedSales := AddSale(updatedSales, item);
        updatedTotal := updatedTotal + ItemValue(item);
      }
      j := j + 1;
    }
    assert items[..j] == items;
  }

  /** The report says "No sales in this period." iff no order in the list is shipped within the period. */
  lemma NoSalesIffNothingShipped(orders: seq<Order>, products: seq<Product>, startDate: int, endDate: int, filter: string)
    ensures SalesReportOf(orders, products, startDate, endDate, filter).NoSales?
      <==> forall o :: o in orders ==> !ShippedWithin(o, startDate, endDate)
  {
    ShippedBetweenSpec(orders, startDate, endDate);
    var inPeriod := ShippedBetween(orders, startDate, endDate);
    if |inPeriod| > 0 {
      assert inPeriod[0] in inPeriod;
    }
  }

  /**
   * The breakdown: sorted by value, largest first; one entry per product that has a
   * counted item, with that product's total quantity and total value; and the entry
   * values add up to the reported total.
   */
  lemma SalesBreakdownCorrect(orders: seq<Order>, products: seq<Product>, startDate: int, endDate: int, filter: string)
    requires SalesReportOf(orders, products, startDate, endDate, filter).Sales?
    ensures var r := SalesReportOf(orders, products, startDate, endDate, filter);
      var kept := KeptItems(ShippedBetween(orders, startDate, endDate), products, filter);
      && SortedDesc(r.breakdown, SaleValue)
      && ProductKeysDistinct(r.breakdown)
      && (forall e :: e in r.breakdown ==>
            e.quantity == QuantityFor(kept, e.productId) && e.value == ValueFor(kept, e.productId))
      && (forall id :: FindSale(r.breakdown, id).Some? <==> exists j :: 0 <= j < |kept| && kept[j].productId == id)
      && SumBy(r.breakdown, SaleValue) == r.totalSalesValue
  {
    var kept := KeptItems(ShippedBetween(orders, startDate, endDate), products, filter);
    var t := TallyProducts(kept);
    var b := SortDesc(t, SaleValue);
    TallyProductsSpec(kept);
    TallyProductsTotal(kept);
    SortDescCorrect(t, SaleValue);
    SortDescKeepsSums(t, SaleValue, SaleValue);
    SortedSalesKeepKeys(t);
    forall e | e in b ensures e.quantity == QuantityFor(kept, e.productId) && e.value == ValueFor(kept, e.productId) {
      var k :| 0 <= k < |t| && t[k] == e;
    }
  }

  lemma {:induction false} KeptOfNothing(items: seq<OrderItem>, products: seq<Product>, filter: string)
    requires forall it :: it in items ==> !Kept(products, filter, it)
    ensures KeptOf(items, products, filter) == []
    decreases |items|
  {
    if |items| > 0 {
      var n := |items| - 1;
      assert items[n] in items;
      assert forall it :: it in items[..n] ==> it in items;
      KeptOfNothing(items[..n], products, filter);
    }
  }

  lemma {:induction false} NothingKeptWhenAllFiltered(orders: seq<Order>, products: seq<Product>, filter: string)
    requires forall o, it :: o in orders && it in o.items ==> !Kept(products, filter, it)
    ensures KeptItems(orders, products, filter) == []
    decreases |orders|
  {
    if |orders| > 0 {
      var n := |orders| - 1;
      assert forall o :: o in orders[..n] ==> o in orders;
      NothingKeptWhenAllFiltered(orders[..n], products, filter);
      assert orders[n] in orders;
      KeptOfNothing(orders[n].items, products, filter);
    }
  }

  /**
   * The shipped-order count ignores the category filter: orders none of whose items
   * pass the filter still count, with nothing in the breakdown and a zero total.
   */
  lemma FilteredOutOrdersStillCounted(orders: seq<Order>, products: seq<Product>, startDate: int, endDate: int, filter: string)
    requires exists o :: o in orders && ShippedWithin(o, startDate, endDate)
    requires forall o, it :: o in orders && it in o.items ==> !Kept(products, filter, it)
    ensures SalesReportOf(orders, products, startDate, endDate, filter)
      == Sales([], |ShippedBetween(orders, startDate, endDate)|, 0.0)
    ensures |ShippedBetween(orders, startDate, endDate)| > 0
  {
    var inPeriod := ShippedBetween(orders, startDate, endDate);
    ShippedBetweenSpec(orders, startDate, endDate);
    var o :| o in orders && ShippedWithin(o, startDate, endDate);
    assert o in inPeriod;
    NothingKeptWhenAllFiltered(inPeriod, products, filter);
  }

  // ------------------------------------------------------------- sales trend

  /** `monthsToGoBack` as a loop count: a negative count runs no iteration. */
  function MonthCount(monthsToGoBack: int): nat {
    if monthsToGoBack < 0 then 0 else monthsToGoBack
  }

  /** What one item adds to the trend: its value, under its product's category, if the product is known. */
  function Contribution(products: seq<Product>, item: OrderItem): seq<CategorySales> {
    match Lookup(products, item.productId)
    case None => []
    case Some(p) => [CategorySales(p.category, ItemValue(item))]
  }

  /** One `trends[category] += value` per item whose product is known. */
  function ItemContributions(items: seq<OrderItem>, products: seq<Product>): seq<CategorySales>
    decreases |items|
  {
    if |items| == 0 then []
    else
      var last := items[|items| - 1];
      ItemContributions(items[..|items| - 1], products) + Contribution(products, last)
  }

  function OrderContributions(orders: seq<Order>, products: seq<Product>): seq<CategorySales>
    decreases |orders|
  {
    if |orders| == 0 then []
    else OrderContributions(orders[..|orders| - 1], products) + ItemContributions(orders[|orders| - 1].items, products)
  }

  /** The window of look-back month `i`: from its first midnight to `MonthEnd`. */
  function WindowStart(today: DateTime, i: int): int
    requires ValidDateTime(today)
  {
    ToSeconds(MonthStart(today, i))
  }

  function WindowEnd(today: DateTime, i: int): int
    requires ValidDateTime(today)
  {
    MonthEnd(MonthStart(today, i))
  }

  /** Every contribution of the first `m` look-back months, month by month. */
  function TrendContributions(orders: seq<Order>, products: seq<Product>, today: DateTime, m: nat): seq<CategorySales>
    requires ValidDateTime(today)
    decreases m
  {
    if m == 0 then []
    else
      var inMonth := ShippedBetween(orders, WindowStart(today, m - 1), WindowEnd(today, m - 1));
      TrendContributions(orders, products, today, m - 1) + OrderContributions(inMonth, products)
  }

  /** The trend dictionary, enumerated in its final order. */
  function SalesTrendOf(orders: seq<Order>, products: seq<Product>, monthsToGoBack: int, today: DateTime): seq<CategorySales>
    requires ValidDateTime(today)
  {
    SortDesc(TallyCategories(TrendContributions(orders, products, today, MonthCount(monthsToGoBack))), CategoryValue)
  }

  lemma TrendContributionsStep(orders: seq<Order>, products: seq<Product>, today: DateTime, i: nat)
    requires ValidDateTime(today)
    ensures TrendContributions(orders, products, today, i + 1) == TrendContributions(orders, products, today, i)
      + OrderContributions(ShippedBetween(orders, ToSeconds(MonthStart(today, i)), MonthEnd(MonthStart(today, i))), products)
  {
  }

  lemma ItemContributionsPrefix(items: seq<OrderItem>, products: seq<Product>, j: nat)
    requires j < |items|
    ensures ItemContributions(items[..j + 1], products) == ItemContributions(items[..j], products) + Contribution(products, items[j])
  {
    assert items[..j + 1][..j] == items[..j];
  }

  lemma OrderContributionsPrefix(prior: seq<CategorySales>, orders: seq<Order>, products: seq<Product>, k: nat)
    requires k < |orders|
    ensures prior + OrderContributions(orders[..k + 1], products)
      == (prior + OrderContributions(orders[..k], products)) + ItemContributions(orders[k].items, products)
  {
    assert orders[..k + 1][..k] == orders[..k];
  }

  /**
   * The innermost loop of `GetSalesTrendByCategory`: every item of one order whose
   * product is known adds its value to that product's category. `prior` names what
   * the dictionary held before.
   */
  method AddOrderToTrends(trends: seq<CategorySales>, ghost prior: seq<CategorySales>, items: seq<OrderItem>, products: seq<Product>)
    returns (updated: seq<CategorySales>)
    requires trends == TallyCategories(prior)
    ensures updated == TallyCategories(prior + ItemContributions(items, products))
  {
    updated := trends;
    var j := 0;
    assert prior + ItemContributions(items[..j], products) == prior;
    while j < |items|
      invariant 0 <= j <= |items|
      invariant updated == TallyCategories(prior + ItemContributions(items[..j], products))
    {
      ghost var done := prior + ItemContributions(items[..j], products);
      ItemContributionsPrefix(items, products, j);
      var product := Lookup(products, items[j].productId);
      if product.Some? {
        var sale := CategorySales(product.value.category, ItemValue(items[j]));
        TallyCategoriesAppend(done, sale);
        assert prior + ItemContributions(items[..j + 1], products) == done + [sale];
        updated := AddCategorySale(updated, sale);
      } else {
        assert prior + ItemContributions(items[..j + 1], products) == done;
      }
      j := j + 1;
    }
    assert items[..j] == items;
  }

  /**
   * The body of the month loop of `GetSalesTrendByCategory`: the items of every
   * order of the month, order by order.
   */
  method AddMonthToTrends(trends: seq<CategorySales>, ghost prior: seq<CategorySales>, ordersInMonth: seq<Order>, products: seq<Product>)
    returns (updated: seq<CategorySales>)
    requires trends == TallyCategories(prior)
    ensures updated == TallyCategories(prior + OrderContributions(ordersInMonth, products))
  {
    updated := trends;
    var k := 0;
    assert prior + OrderContributions(ordersInMonth[..k], products) == prior;
    while k < |ordersInMonth|
      invariant 0 <= k <= |ordersInMonth|
      invariant updated == TallyCategories(prior + OrderContributions(ordersInMonth[..k], products))
    {
      ghost var upTo := prior + OrderContributions(ordersInMonth[..k], products);
      updated := AddOrderToTrends(updated, upTo, ordersInMonth[k].items, products);
      OrderContributionsPrefix(prior, ordersInMonth, products, k);
      k := k + 1;
    }
    assert ordersInMonth[..k] == ordersInMonth;
  }

  /**
   * `GetSalesTrendByCategory`: for each of the last `monthsToGoBack` months, add the
   * value of every item of every shipped order of that month to its product's
   * category, then list the categories by value, largest first.
   */
  method GetSalesTrendByCategory(orders: seq<Order>, products: seq<Product>, monthsToGoBack: int, today: DateTime)
    returns (trends: seq<CategorySales>)
    requires ValidDateTime(today)
    ensures trends == SalesTrendOf(orders, products, monthsToGoBack, today)
  {
    var tally: seq<CategorySales> := [];
    var i := 0;
    while i < monthsToGoBack
      invariant 0 <= i <= MonthCount(monthsToGoBack)
      invariant tally == TallyCategories(TrendContributions(orders, products, today, i))
    {
      var monthStart := MonthStart(today, i);
      var monthEnd := MonthEnd(monthStart);
      var ordersInMonth := ShippedBetween(orders, ToSeconds(monthStart), monthEnd);
      TrendContributionsStep(orders, products, today, i);
      tally := AddMonthToTrends(tally, TrendContributions(orders, products, today, i), ordersInMonth, products);
      i := i + 1;
    }
    assert i == MonthCount(monthsToGoBack);
    trends := SortDesc(tally, CategoryValue);
  }

  /**
   * The trend: sorted by value, largest first; one entry per category that received
   * a contribution, holding that category's total; the entries add up to the value
   * of all contributions.
   */
  lemma SalesTrendCorrect(orders: seq<Order>, products: seq<Product>, monthsToGoBack: int, today: DateTime)
    requires ValidDateTime(today)
    ensures var r := SalesTrendOf(orders, products, monthsToGoBack, today);
      var contributions := TrendContributions(orders, products, today, MonthCount(monthsToGoBack));
      && SortedDesc(r, CategoryValue)
      && CategoryKeysDistinct(r)
      && (forall e :: e in r ==> e.value == CategoryTotal(contributions, e.category))
      && (forall c :: FindCategory(r, c).Some? <==> exists j :: 0 <= j < |contributions| && contributions[j].category == c)
      && SumBy(r, CategoryValue) == SumBy(contributions, CategoryValue)
  {
    var contributions := TrendContributions(orders, products, today, MonthCount(monthsToGoBack));
    var t := TallyCategories(contributions);
    var r := SortDesc(t, CategoryValue);
    TallyCategoriesSpec(contributions);
    TallyCategoriesTotal(contributions);
    SortDescCorrect(t, CategoryValue);
    SortDescKeepsSums(t, CategoryValue, CategoryValue);
    SortedCategoriesKeepKeys(t);
    forall e | e in r ensures e.value == CategoryTotal(contributions, e.category) {
      var k :| 0 <= k < |t| && t[k] == e;
    }
  }

  /**
   * The month window ends at midnight at the start of the month's last day: a shipped
   * order placed at that midnight counts for the month, one placed later that day
   * does not.
   */
  lemma LastDayOfMonthCutOff(today: DateTime, i: int, o: Order, second: int)
    requires ValidDateTime(today) && o.status == Shipped && 0 <= second < SecondsPerDay
    requires var ms := MonthStart(today, i);
      o.orderDate == ToSeconds(DateTime(ms.year, ms.month, DaysInMonth(ms.year, ms.month), second))
    ensures ShippedWithin(o, WindowStart(today, i), WindowEnd(today, i)) <==> second == 0
  {
    var ms := MonthStart(today, i);
    MonthEndIsLastMidnight(ms);
  }
  // ------------------------------------------------------- end-of-day batch

  /** `o.OrderDate.Date == now.Date`. */
  predicate PlacedOn(o: Order, day: int) {
    DayOf(o.orderDate) == day
  }

  /** Step 1: the summed `TotalAmount` of the shipped orders placed on `day`. */
  function DaySales(os: seq<Order>, day: int): Money
    decreases |os|
  {
    if |os| == 0 then 0.0
    else
      var last := os[|os| - 1];
      DaySales(os[..|os| - 1], day) + (if PlacedOn(last, day) && last.status == Shipped then last.totalAmount else 0.0)
  }

  /** Step 4: how many orders were placed on `day`, whatever their status. */
  function CountPlacedOn(os: seq<Order>, day: int): (n: nat)
    ensures n <= |os|
    decreases |os|
  {
    if |os| == 0 then 0
    else CountPlacedOn(os[..|os| - 1], day) + (if PlacedOn(os[|os| - 1], day) then 1 else 0)
  }

  /** The status step 3 leaves on one order, given the cut-off instant. */
  function Archive(o: Order, cutoff: int): Order {
    if o.orderDate < cutoff && o.status != Archived then o.(status := Archived) else o
  }

  /** The order list after step 3. */
  function ArchiveOld(os: seq<Order>, cutoff: int): (r: seq<Order>)
    ensures |r| == |os|
  {
    seq(|os|, k requires 0 <= k < |os| => Archive(os[k], cutoff))
  }

  /**
   * Archiving marks exactly the orders placed before the cut-off, leaves their other
   * fields alone, and leaves every later order as it was.
   */
  lemma ArchiveOldSpec(os: seq<Order>, cutoff: int)
    ensures SameOrderIds(os, ArchiveOld(os, cutoff))
    ensures forall k :: 0 <= k < |os| ==>
      ArchiveOld(os, cutoff)[k].status == (if os[k].orderDate < cutoff then Archived else os[k].status)
    ensures forall k :: 0 <= k < |os| ==>
      ArchiveOld(os, cutoff)[k] == os[k].(status := ArchiveOld(os, cutoff)[k].status)
    ensures ArchiveOld(ArchiveOld(os, cutoff), cutoff) == ArchiveOld(os, cutoff)
  {
  }

  /** Archiving changes no date, so it changes no count of orders placed on a day. */
  lemma {:induction false} ArchiveKeepsDayCount(os: seq<Order>, cutoff: int, day: int)
    ensures CountPlacedOn(ArchiveOld(os, cutoff), day) == CountPlacedOn(os, day)
    decreases |os|
  {
    if |os| > 0 {
      var n := |os| - 1;
      ArchiveKeepsDayCount(os[..n], cutoff, day);
      assert ArchiveOld(os, cutoff)[..n] == ArchiveOld(os[..n], cutoff);
    }
  }

  /** Midnight that starts day `day`, in seconds. */
  function DayStart(day: int): int {
    day * SecondsPerDay
  }

  /**
   * Comparing `.Date` is the same as testing the day's window of seconds, so the
   * day's sales are the sales report's total amounts over `[midnight, midnight + 86399]`.
   */
  lemma {:induction false} DaySalesIsWindow(os: seq<Order>, day: int)
    ensures DaySales(os, day) == OrderTotals(ShippedBetween(os, DayStart(day), DayStart(day) + SecondsPerDay - 1))
    decreases |os|
  {
    if |os| > 0 {
      var n := |os| - 1;
      var lo, hi := DayStart(day), DayStart(day) + SecondsPerDay - 1;
      DaySalesIsWindow(os[..n], day);
      assert PlacedOn(os[n], day) <==> lo <= os[n].orderDate <= hi;
      OrderTotalsAppend(ShippedBetween(os[..n], lo, hi), if ShippedWithin(os[n], lo, hi) then [os[n]] else []);
    }
  }

  /** The summed `TotalAmount` of a list of orders. */
  function OrderTotals(os: seq<Order>): Money
    decreases |os|
  {
    if |os| == 0 then 0.0 else OrderTotals(os[..|os| - 1]) + os[|os| - 1].totalAmount
  }

  lemma {:induction false} OrderTotalsAppend(xs: seq<Order>, ys: seq<Order>)
    ensures OrderTotals(xs + ys) == OrderTotals(xs) + OrderTotals(ys)
    decreases |ys|
  {
    if |ys| == 0 {
      assert xs + ys == xs;
    } else {
      var n := |ys| - 1;
      assert (xs + ys)[..|xs + ys| - 1] == xs + ys[..n];
      OrderTotalsAppend(xs, ys[..n]);
    }
  }

  /** Step 2 of the batch: the loop that flags products under their reorder threshold. */
  method CollectReorderAlerts(products: seq<Product>) returns (alerts: seq<Product>)
    ensures alerts == ReorderAlerts(products)
  {
    alerts := [];
    var p := 0;
    while p < |products|
      invariant 0 <= p <= |products|
      invariant alerts == ReorderAlerts(products[..p])
    {
      assert products[..p + 1][..p] == products[..p];
      if products[p].stockQuantity < GetReorderThreshold(products[p].category) {
        alerts := alerts + [products[p]];
      }
      p := p + 1;
    }
    assert products[..p] == products;
  }

  /** Step 3 of the batch: archive, in place, every order placed before `cutoff`. */
  method ArchiveOlderThan(store: OrderStore, cutoff: int)
    modifies store
    ensures store.orders == ArchiveOld(old(store.orders), cutoff)
    ensures store.nextOrderId == old(store.nextOrderId)
  {
    ghost var orders0 := store.orders;
    var k := 0;
    while k < |store.orders|
      invariant 0 <= k <= |store.orders| == |orders0|
      invariant forall j :: 0 <= j < k ==> store.orders[j] == Archive(orders0[j], cutoff)
      invariant forall j :: k <= j < |orders0| ==> store.orders[j] == orders0[j]
      invariant store.nextOrderId == old(store.nextOrderId)
    {
      if store.orders[k].orderDate < cutoff && store.orders[k].status != Archived {
        store.orders := store.orders[k := store.orders[k].(status := Archived)];
      }
      k := k + 1;
    }
    assert store.orders == ArchiveOld(orders0, cutoff);
  }

  /** The engine object and its one piece of state. */
  class LegacyEngine {
    var internalAnalyticsCounter: int

    constructor ()
      ensures internalAnalyticsCounter == 0
    {
      internalAnalyticsCounter := 0;
    }

    /**
     * `PerformEndOfDayBatchProcessing`: (1) sum today's shipped sales, (2) flag the
     * products under their reorder threshold, (3) archive, in place, the orders placed
     * more than a year before `now`, (4) add the number of orders placed today to the
     * counter. The log lines become the two results.
     */
    method PerformEndOfDayBatchProcessing(store: OrderStore, products: seq<Product>, now: DateTime)
      returns (todaySales: Money, alerts: seq<Product>)
      requires ValidDateTime(now)
      modifies this, store
      ensures todaySales == DaySales(old(store.orders), DayNumber(now))
      ensures alerts == ReorderAlerts(products)
      ensures store.orders == ArchiveOld(old(store.orders), ToSeconds(AddYears(now, -1)))
      ensures store.nextOrderId == old(store.nextOrderId)
      ensures internalAnalyticsCounter == old(internalAnalyticsCounter) + CountPlacedOn(old(store.orders), DayNumber(now))
      ensures old(store.Valid()) ==> store.Valid()
    {
      var today := DayNumber(now);
      ghost var orders0 := store.orders;

      // 1. today's sales
      todaySales := DaySales(store.orders, today);

      // 2. reorder check
      alerts := CollectReorderAlerts(products);

      // 3. archive orders older than a year
      var oneYearAgo := ToSeconds(AddYears(now, -1));
      ArchiveOlderThan(store, oneYearAgo);

      // 4. analytics counter
      ArchiveKeepsDayCount(orders0, oneYearAgo, today);
      internalAnalyticsCounter := internalAnalyticsCounter + CountPlacedOn(store.orders, today);

      ArchiveOldSpec(orders0, oneYearAgo);
    }
  }
}
