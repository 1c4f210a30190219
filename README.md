# AIPRTest retail core in Dafny

This project models the business core of the AIPRTest retail sample and proves
properties about it. The model covers these parts:

- **Models**: the records. Products have an id, a name, a decimal price, a
  category and a stock quantity. Orders have an id, a date, a customer, line
  items, a total and a status string. An order item records its product, a
  quantity and the price at purchase.
- **ProductRepository**: the in-memory product repository, modelled as the
  class `ProductStore`. It holds the product list and the next-id counter, and
  supports lookup by id, listing, adding with a fresh id, and setting a
  product's stock.
- **OrderRepository**: the in-memory order repository, modelled as the class
  `OrderStore`. It holds the order list and the next-id counter, and supports
  creating an order (this stamps the id and the date), lookup by id, and status
  updates.
- **Notifications**: the low-stock decision of the e-mail notification
  service. Sending a message is modelled as appending it to a notification log.
- **Fulfillment**: the order fulfillment service, modelled as the class
  `OrderFulfillmentService`. `PlaceOrder` validates every line against the
  product repository and snapshots the current price. It then charges the
  payment gateway, deducts stock line by line (a low-stock alert may follow
  each line), stores the order as `Processed` and sends the confirmation.
  `ShipOrder` moves a `Processed` order to `Shipped`. The exceptions become
  `Result` errors: product not found, not enough stock, payment failed, empty
  order.
- **CrossFunctionalHelper**: the static string and discount helpers. These are
  input validation, lower-casing with reversal, truncation, the
  timestamp-and-signature step, sanitizing, the complex formatting pipeline,
  and the customer-type discounts.
- **Forecasting**: the moving-average forecast and the exponential-smoothing
  forecast of the forecasting engine.
- **LegacyAnalytics**: the legacy analytics and reporting engine. It covers:
  - the sales report (the shipped orders in a date range, with per-product
    totals sorted by value);
  - the per-category monthly sales trend;
  - CSV field escaping;
  - reorder thresholds;
  - the end-of-day batch, modelled as the class `LegacyEngine`.
- **SalesTally**: the per-product and per-category tallies that the report and
  the trend build up. These are the dictionary updates inside their loops.
- **Sorting**: LINQ's stable `OrderByDescending`, modelled as a stable
  insertion sort on a key.
- **Calendar**: the `DateTime` arithmetic the engine relies on: dates counted
  in whole seconds, `AddMonths` and `AddYears` with day clamping, the first
  and last day of a month, and the start of the day.
- **Text**: the .NET string operations used, covering ASCII case mapping,
  reversal and substring search.

How the source maps onto the model:

- Code that mutates state is imperative Dafny. The repositories, the
  fulfillment service and the legacy engine are classes whose methods state
  their whole new state. The loops of the report, the trend, the sanitizer,
  the smoothing forecast and the batch are methods with loop invariants.
- Each such method is proved equal to a specification function.
- The properties that the source promises are then proved about those
  functions as lemmas.
- The nested loops of the report and the trend are split into one method per
  loop level.

## Model

| member | source | states |
|---|---|---|
| Models.ItemsValueAppend | AIPRTest/OrderFulfillmentService.cs:37 | The running order total is additive: the value of two item lists joined is the sum of their values. |
| Notifications.NotifyStockLow | AIPRTest/EmailNotificationService.cs:8-15 | At most one notice is sent. It is sent exactly when stock is below 10, and it is the low-stock notice for that product. |
| Wrappers.FindFirst | AIPRTest/InMemoryProductRepository.cs:15 | The result is the first position whose key matches. It is nothing exactly when no element has that key. |
| ProductRepository.FindProduct | AIPRTest/InMemoryProductRepository.cs:13-16 | The result is the first position holding the id. It is nothing exactly when no product has that id. |
| ProductRepository.SetStockEffect | AIPRTest/InMemoryProductRepository.cs:30-42 | Ids keep their places. An unknown id leaves the list as it was. Otherwise the id's lookup gives the old product with the new stock. Every other position is untouched, entries differ only in stock, and other ids look up as before. |
| ProductRepository.SetStockLookupAt | AIPRTest/InMemoryProductRepository.cs:30-36 | After an update, looking up the updated id gives the old product with the new stock, when it existed. Any other id looks up as before. |
| ProductRepository.SetStockAt | AIPRTest/InMemoryProductRepository.cs:32-35 | Position by position: the length is kept, only stock can change, and any position other than the first match is untouched. |
| ProductRepository.MaxId | AIPRTest/InMemoryProductRepository.cs:10 | The result is the largest seed id: no seed id exceeds it, and some seed product has it. |
| ProductRepository.ProductStore.constructor | AIPRTest/InMemoryProductRepository.cs:4-10 | The store starts with the seed list, and its counter is one past the largest seed id, so every id handed out later is fresh. |
| ProductRepository.ProductStore.GetProductById | AIPRTest/InMemoryProductRepository.cs:13-16 | The result is nothing exactly when no stored product has the id. Otherwise it is the stored product at the first position with that id. |
| ProductRepository.ProductStore.GetAllProducts | AIPRTest/InMemoryProductRepository.cs:18-21 | The result is the live list itself, in insertion order. |
| ProductRepository.ProductStore.AddProduct | AIPRTest/InMemoryProductRepository.cs:23-28 | The product is appended with the old counter as its id, an id no stored product had. The counter moves up by one, and the id now finds the added product. |
| ProductRepository.ProductStore.UpdateProductStock | AIPRTest/InMemoryProductRepository.cs:30-42 | The list becomes the stock-update result for that id, the counter is unchanged, and fresh ids stay fresh. |
| OrderRepository.FindOrder | AIPRTest/InMemoryOrderRepository.cs:15-18 | The result is the first position holding the id. It is nothing exactly when no order has that id. |
| OrderRepository.SetStatusEffect | AIPRTest/InMemoryOrderRepository.cs:20-30 | Ids keep their places. An unknown id leaves the list as it was. Otherwise the id's lookup gives the old order with the new status, and other ids look up as before. |
| OrderRepository.StoredOrderIsFound | AIPRTest/InMemoryOrderRepository.cs:6-18 | When ids increase along the list, looking up any stored order's id gives back that order. |
| OrderRepository.OrderStore.constructor | AIPRTest/InMemoryOrderRepository.cs:3-4 | The store starts with no orders and the counter at 1. |
| OrderRepository.OrderStore.CreateOrder | AIPRTest/InMemoryOrderRepository.cs:6-13 | The order is stored with the counter as id and the current time as date. Its id is above every earlier id, the counter moves up by one, ids keep increasing, and the id finds the new order. |
| OrderRepository.OrderStore.GetOrderById | AIPRTest/InMemoryOrderRepository.cs:15-18 | The result is nothing exactly when no stored order has the id. Otherwise it is the stored order at the first position with that id. |
| OrderRepository.OrderStore.UpdateOrderStatus | AIPRTest/InMemoryOrderRepository.cs:20-30 | The result is true exactly when the id was stored. The list becomes the status-update result, the counter is unchanged, and ids keep increasing. |
| Fulfillment.ValidateLinesAccepts | AIPRTest/OrderFulfillmentService.cs:28-38 | Validation succeeds exactly when every line names an existing product with at least the requested stock. The items then copy each line, in order, with that product's current price. |
| Fulfillment.ValidateLinesFirstRejected | AIPRTest/OrderFulfillmentService.cs:28-34 | A failed validation raises the error of the first rejected line. Every line before it was accepted. |
| Fulfillment.ValidateLinesSpec | AIPRTest/OrderFulfillmentService.cs:28-38 | This combines the two lemmas above. In addition, a failure is always product-not-found or not-enough-stock. |
| Fulfillment.ValidatePrefixFailure | AIPRTest/OrderFulfillmentService.cs:28-34 | Once some prefix of the lines fails, the whole order fails with that same error: the loop stops at the first throw. |
| Fulfillment.DeductLineLookupAt | AIPRTest/OrderFulfillmentService.cs:49-51 | Deducting one line lowers the looked-up stock of the line's product by its quantity. Every other id looks up as before. |
| Fulfillment.DeductLookup | AIPRTest/OrderFulfillmentService.cs:47-53 | After the loop, ids keep their places. Each id's product has lost the total quantity that all lines request for it. |
| Fulfillment.DeductKeepsProducts | AIPRTest/OrderFulfillmentService.cs:47-53 | Deduction neither adds nor removes a product: an id is found afterwards exactly when it was found before. |
| Fulfillment.DeductFrame | AIPRTest/OrderFulfillmentService.cs:47-53 | Deduction changes stock only. A product that no line names is untouched, and so is one shadowed by an earlier entry with the same id. |
| Fulfillment.DistinctOrderDeductsEachLine | AIPRTest/OrderFulfillmentService.cs:47-51 | For a validated order naming each product once, each named product loses exactly its line's quantity. Stock that was non-negative stays non-negative. |
| Fulfillment.DuplicateLinesOverdraw | AIPRTest/OrderFulfillmentService.cs:28-53 | Two lines of 1 for a product with stock 1 pass validation, because each line is checked against the stock before any deduction. The stock ends at -1. |
| Fulfillment.NegativeQuantityRaisesStock | AIPRTest/OrderFulfillmentService.cs:33 | A line of -5 passes the stock check, and the deduction raises the stock from 1 to 6. |
| Fulfillment.OrderFulfillmentService.PlaceOrder | AIPRTest/OrderFulfillmentService.cs:20-66 | An empty order, a rejected line and a declined payment each give their error exactly when they apply, and change no store and no notification. On success, the order is stored as Processed under the old order counter, with the price snapshot and its value as total. Stock is deducted line by line, and the log gains the low-stock alerts, then the confirmation. |
| Fulfillment.OrderFulfillmentService.ValidateItems | AIPRTest/OrderFulfillmentService.cs:25-38 | The validation loop computes the validation function. On success, its running total is the value of the snapshot items. |
| Fulfillment.OrderFulfillmentService.DeductStock | AIPRTest/OrderFulfillmentService.cs:47-53 | The loop leaves the catalog equal to the deduction function, and the counter unchanged. It appends exactly the low-stock alerts that follow each line. |
| Fulfillment.OrderFulfillmentService.DeductOne | AIPRTest/OrderFulfillmentService.cs:49-52 | One pass sets the line's product to its stock minus the quantity. It sends the low-stock notice for the updated product when that product is now low. |
| Fulfillment.OrderFulfillmentService.ShipOrder | AIPRTest/OrderFulfillmentService.cs:68-81 | Shipping succeeds exactly when the order exists and is Processed. The order then becomes Shipped and nothing else changes. Otherwise the orders are unchanged. |
| CrossFunctionalHelper.ValidateInputString | AIPRTest/CrossFunctionalHelper.cs:41-49 | Input is accepted exactly when it is non-empty, at least 5 characters long in strict mode, and does not contain "forbidden_word". |
| CrossFunctionalHelper.ShortPassesStrictValidation | AIPRTest/CrossFunctionalHelper.cs:43-46 | In strict mode, "short" (5 characters) passes and "shor" fails. |
| CrossFunctionalHelper.ProcessText | AIPRTest/CrossFunctionalHelper.cs:51-57 | The length is kept. The first half is the input's first half lower-cased. The rest is the input's second half reversed and lower-cased. |
| CrossFunctionalHelper.ProcessTextPermutes | AIPRTest/CrossFunctionalHelper.cs:51-57 | The result is a permutation of the lower-cased input. |
| CrossFunctionalHelper.ProcessTextExample | AIPRTest/CrossFunctionalHelper.cs:21 | "important_data" becomes "importaatad_tn". |
| CrossFunctionalHelper.TruncateString | AIPRTest/CrossFunctionalHelper.cs:59-66 | Empty or short-enough text comes back unchanged. Longer text becomes its first maxLength characters lower-cased, followed by "...". A negative maxLength on non-empty text is the out-of-range error. |
| CrossFunctionalHelper.TruncateStringExample | AIPRTest_Tests/CrossFunctionalHelperTests.cs:69-75 | "This is a long string" truncated to 10 is "this is a ...". |
| CrossFunctionalHelper.AddTimestampAndSignature | AIPRTest/CrossFunctionalHelper.cs:68-72 | The result has the timestamp in brackets, then the text, then " - Signed: " and the signature, and nothing more. |
| CrossFunctionalHelper.SanitizeOutput | AIPRTest/CrossFunctionalHelper.cs:94-105 | The character loop computes the sanitizing function. |
| CrossFunctionalHelper.SanitizeCounts | AIPRTest/CrossFunctionalHelper.cs:94-105 | The output is no longer than the input. Each allowed character occurs as often as in the input, and a disallowed one never occurs. |
| CrossFunctionalHelper.SanitizeOnlyAllowed | AIPRTest/CrossFunctionalHelper.cs:94-105 | Every output character is a digit, an ASCII letter, or one of `. _ - [ ] :` or space. |
| CrossFunctionalHelper.SanitizeKeepsAllowedText | AIPRTest/CrossFunctionalHelper.cs:94-105 | Text made only of allowed characters passes through unchanged. |
| CrossFunctionalHelper.SanitizeFixedPoints | AIPRTest/CrossFunctionalHelper.cs:94-105 | Sanitizing leaves a text unchanged exactly when all its characters are allowed. |
| CrossFunctionalHelper.SanitizeIdempotent | AIPRTest/CrossFunctionalHelper.cs:94-105 | Sanitizing twice gives the same result as sanitizing once. |
| CrossFunctionalHelper.SignedText | AIPRTest/CrossFunctionalHelper.cs:21-23 | When the process-truncate-sign pipeline succeeds, its result is at least 27 characters longer than the timestamp and ends in " - Signed: SystemProcess". |
| CrossFunctionalHelper.SignedTextFails | AIPRTest/CrossFunctionalHelper.cs:21-23 | For non-empty input, the pipeline throws exactly when maxLength is negative. |
| CrossFunctionalHelper.PerformComplexFormattingAndValidation | AIPRTest/CrossFunctionalHelper.cs:14-39 | Input that fails validation gives the exact error string. For valid input, the call throws exactly when maxLength is negative. |
| CrossFunctionalHelper.ForbiddenInputRejected | AIPRTest_Tests/CrossFunctionalHelperTests.cs:17-29 | "forbidden_word_here" gives the validation-error string, in both modes and for every maxLength. |
| CrossFunctionalHelper.StrictModeBoundsLength | AIPRTest/CrossFunctionalHelper.cs:26-36 | In strict mode, a successful result is never longer than maxLength + 20. |
| CrossFunctionalHelper.StrictModeSanitizesLongResults | AIPRTest/CrossFunctionalHelper.cs:26-36 | In strict mode, a signed text within maxLength + 20 is returned as is. A longer one comes back made only of allowed characters. |
| CrossFunctionalHelper.StrictModeCut | AIPRTest/CrossFunctionalHelper.cs:26-36 | In strict mode, a signed text over maxLength + 20 is sanitised. If the clean text is still over maxLength + 15, the result is its first maxLength + 15 characters plus "...". Otherwise the result is the clean text, which still ends with the signature. |
| CrossFunctionalHelper.SanitizeKeepsSignature | AIPRTest/CrossFunctionalHelper.cs:29 | A text ending with the signature line still ends with it after sanitising, because every character of that line is allowed. |
| CrossFunctionalHelper.LenientModeReturnsSignedText | AIPRTest/CrossFunctionalHelper.cs:14-39 | Outside strict mode, valid input gives the signed pipeline result, whatever its length. |
| CrossFunctionalHelper.GetBaseDiscountForType | AIPRTest/CrossFunctionalHelper.cs:122-134 | The base rate is 0.15 for "VIP", 0.10 for "PREFERRED", and 0.05 for anything else. |
| CrossFunctionalHelper.CalculateSpecialDiscount | AIPRTest/CrossFunctionalHelper.cs:107-120 | A blank or white-space type is rated as STANDARD at 5%. Any other type is matched upper-cased: 15% for VIP, 10% for PREFERRED, 5% otherwise. The rate gains 5 points exactly when the amount exceeds 1000, and the discount is the amount times the rate. |
| CrossFunctionalHelper.SpecialDiscountBounds | AIPRTest/CrossFunctionalHelper.cs:107-120 | For an amount of 0 to 1000, the discount is 5% to 15% of it. Above 1000 it is 10% to 20%. |
| CrossFunctionalHelper.NormalizedTypeIgnoresCase | AIPRTest/CrossFunctionalHelper.cs:109-114 | Lower-casing or upper-casing the customer type does not change the type the rate is looked up under. |
| CrossFunctionalHelper.DiscountIgnoresCase | AIPRTest/CrossFunctionalHelper.cs:107-120 | Lower-casing or upper-casing the customer type does not change the discount. |
| CrossFunctionalHelper.BlankTypeIsStandard | AIPRTest/CrossFunctionalHelper.cs:109-112 | A blank customer type gets the discount of "STANDARD", which is also that of an unknown type. |
| CrossFunctionalHelper.NormalizedNamedTypes | AIPRTest/CrossFunctionalHelper.cs:114 | The three named types are looked up under their own names. |
| CrossFunctionalHelper.NormalizedUnknownType | AIPRTest/CrossFunctionalHelper.cs:114 | "unknown" is looked up as "UNKNOWN", which falls to the default case. |
| CrossFunctionalHelper.DiscountExamples | AIPRTest_Tests/CrossFunctionalHelperTests.cs:57-67 | The six test cases give 150, 100, 50, 50, 15 and 400. |
| Forecasting.CalculateMovingAverageForecast | AIPRTest/AdvancedForecastingEngine.cs:20-24 | No sales, or a non-positive period count, forecast 0. |
| Forecasting.RecentSalesAreHighestPriced | AIPRTest/AdvancedForecastingEngine.cs:27-32 | The selection has min(periods, number of sales) items. They are sorted by price descending, priced no lower than any item left out, and drawn from the history. |
| Forecasting.MovingAverageWithinSelected | AIPRTest/AdvancedForecastingEngine.cs:40 | When every selected quantity lies in [lo, hi], so does the forecast. |
| Forecasting.MovingAverageUsesAllWhenShort | AIPRTest/AdvancedForecastingEngine.cs:34-40 | With no more sales than periods, the forecast is the mean quantity of all sales. |
| Forecasting.MovingAverageExample | AIPRTest_Tests/AdvancedForecastingEngineTests.cs:12-41 | Quantities 10, 12 and 14 priced 100, 101 and 102, with two periods, forecast 13. |
| Forecasting.MovingAverageSingleExample | AIPRTest_Tests/AdvancedForecastingEngineTests.cs:43-58 | One sale of 10 with three periods forecasts 10. |
| Forecasting.CalculateExponentialSmoothingForecast | AIPRTest/AdvancedForecastingEngine.cs:51-74 | The smoothing loop computes the forecast function, including the empty and bad-alpha cases. |
| Forecasting.ExponentialForecastCases | AIPRTest/AdvancedForecastingEngine.cs:53-61 | An empty history forecasts 0. The call throws exactly when the history is non-empty and alpha is outside (0, 1]. |
| Forecasting.ExponentialForecastWithinRange | AIPRTest/AdvancedForecastingEngine.cs:63-70 | With alpha in (0, 1] and every quantity in [lo, hi], the forecast succeeds and lies in [lo, hi]. |
| Forecasting.ExponentialForecastConstant | AIPRTest/AdvancedForecastingEngine.cs:63-70 | A constant history forecasts that constant. |
| Forecasting.ExponentialForecastExample | AIPRTest_Tests/AdvancedForecastingEngineTests.cs:75-92 | Quantities 10, 12, 11 and 13 with alpha 0.5 forecast 12. |
| Sorting.SortDescCorrect | AIPRTest/Legacy.cs:60 | The sort returns a permutation of its input, ordered by key descending. It is stable: items with equal keys keep their input order. |
| Sorting.SortDescKeepsSums | AIPRTest/Legacy.cs:106 | Sorting keeps the length and the sum of any per-item value. |
| Sorting.SortDescKeepsDistinct | AIPRTest/Legacy.cs:106 | Items with distinct keys stay distinct after sorting, so building a dictionary from the sorted list cannot hit a duplicate key. |
| Calendar.DaysInMonth | AIPRTest/Legacy.cs:83 | A month has 28 to 31 days, and 29 exactly for February of a leap year. |
| Calendar.AddMonths | AIPRTest/Legacy.cs:82 | The result is a valid date n months later, with the day clamped to the target month's length and the time of day kept. |
| Calendar.AddYears | AIPRTest/Legacy.cs:160 | The result is a valid date n years later, with month and time of day kept. The day is kept, except that 29 February becomes the 28th in a non-leap year. |
| Calendar.LeapDayYearBack | AIPRTest/Legacy.cs:160 | One year before 29 February 2024 at 01:00 is 28 February 2023 at 01:00. |
| Calendar.FirstOfNextMonth | AIPRTest/Legacy.cs:83 | One month after the first of a month is the first of the next month, including across December. |
| Calendar.NextMonthFollowsLastDay | AIPRTest/Legacy.cs:83 | The first of the next month is exactly one day after the last day of the month. |
| Calendar.MonthStart | AIPRTest/Legacy.cs:82 | A trend window starts on a valid first of a month at midnight. |
| Calendar.MonthEndIsLastMidnight | AIPRTest/Legacy.cs:83 | The window end, one month minus one day after the start, is midnight of the month's last day. |
| SalesTally.FindSale | AIPRTest/Legacy.cs:46 | The result is a position holding the product's entry. It is nothing exactly when the dictionary has no such key. |
| SalesTally.AddSaleEffect | AIPRTest/Legacy.cs:46-53 | Adding an item keeps keys distinct and in place, and sums its quantity and value into its product's entry only. A new entry is appended exactly when the key was missing. |
| SalesTally.TallyProductsSpec | AIPRTest/Legacy.cs:46-54 | The tally has distinct keys, exactly the products of the tallied items. Each entry's quantity and value are the totals of that product's items. |
| SalesTally.TallyProductsTotal | AIPRTest/Legacy.cs:50-54 | The entries' values add up to the value of all the tallied items. |
| SalesTally.AddCategorySaleEffect | AIPRTest/Legacy.cs:96-100 | Adding a contribution keeps keys distinct and in place, and adds its value to its category's entry only. A new entry is appended exactly when the category was missing. |
| SalesTally.TallyCategoriesSpec | AIPRTest/Legacy.cs:96-100 | The tally has distinct keys, exactly the categories contributed to. Each entry's value is the total of that category's contributions. |
| SalesTally.TallyCategoriesTotal | AIPRTest/Legacy.cs:96-100 | The category values add up to the sum of all contributions. |
| SalesTally.SortedSalesKeepKeys | AIPRTest/Legacy.cs:60 | Ordering the product entries by value keeps their keys distinct and invents no entry. It finds exactly the products found before. |
| SalesTally.SortedCategoriesKeepKeys | AIPRTest/Legacy.cs:106 | Ordering the category entries by value keeps their keys distinct and invents no entry. It finds exactly the categories found before. |
| LegacyAnalytics.DoubleQuotes | AIPRTest/Legacy.cs:132 | Doubling quotes never shortens a text, and leaves a text without quotes unchanged. |
| LegacyAnalytics.EscapeCsvField | AIPRTest/Legacy.cs:127-135 | An empty field gives "". A field without a comma, quote or line feed is returned as is. Any other field comes back wrapped in quotes and at least two characters longer. |
| LegacyAnalytics.UndoubleDoubleQuotes | AIPRTest/Legacy.cs:132 | Reading doubled quotes back as single quotes recovers the original text. |
| LegacyAnalytics.EscapeCsvFieldRoundTrip | AIPRTest/Legacy.cs:127-135 | Standard CSV unquoting of the escaped field gives back the field. |
| LegacyAnalytics.EscapeCsvFieldInjective | AIPRTest/Legacy.cs:127-135 | Two fields with the same escaped form are equal. |
| LegacyAnalytics.EscapeWrapsQuoteFreeField | AIPRTest/Legacy.cs:130-133 | A field that needs quoting but has no quote is just wrapped in quotes. |
| LegacyAnalytics.EscapeQuoteExample | AIPRTest/Legacy.cs:132 | `a"b` escapes to `"a""b"`. |
| LegacyAnalytics.EscapeCarriageReturnExample | AIPRTest/Legacy.cs:130 | A carriage return alone does not trigger quoting. |
| LegacyAnalytics.GetReorderThreshold | AIPRTest/Legacy.cs:180-189 | The threshold is 10 exactly for electronics, 20 exactly for accessories, and 15 exactly for any other category, compared after lower-casing ASCII letters as the invariant culture does. |
| LegacyAnalytics.ThresholdIgnoresCase | AIPRTest/Legacy.cs:183 | Upper-casing or lower-casing a category keeps its threshold, with ASCII letters lower-cased as the invariant culture does. |
| LegacyAnalytics.ThresholdExamples | AIPRTest/Legacy.cs:183-188 | "Electronics" gives 10, "ACCESSORIES" and "Accessories" give 20, and "Home Goods" gives 15. |
| LegacyAnalytics.ReorderAlertsSpec | AIPRTest/Legacy.cs:150-157 | The alerts are exactly the products whose stock is below their category's threshold. Each flagged product appears as many times as it is listed, and there are never more alerts than products. |
| LegacyAnalytics.ReorderAlertsAppend | AIPRTest/Legacy.cs:150-157 | The alerts of two catalogs joined are the first catalog's alerts followed by the second's, so flagged products keep their catalog order. |
| LegacyAnalytics.ReorderAlertsSingle | AIPRTest/Legacy.cs:152-156 | A single product is flagged exactly when its stock is below its category's threshold. |
| LegacyAnalytics.ReorderAlertsExample | AIPRTest_Tests/LegacyAnalyticsAndReportingEngineTests.cs:174-194 | Of a laptop with stock 5, a mouse with 200 and a lamp with 100, only the laptop is flagged. |
| LegacyAnalytics.ShippedBetweenSpec | AIPRTest/Legacy.cs:21-23 | The orders selected are exactly the Shipped ones dated within the inclusive range. |
| LegacyAnalytics.KeptOfSpec | AIPRTest/Legacy.cs:38-44 | The items counted are exactly those whose product exists and matches the category filter, when there is one. |
| LegacyAnalytics.GenerateComplexSalesReport | AIPRTest/Legacy.cs:10-72 | The nested loops compute the report function. |
| LegacyAnalytics.AddOrderToReport | AIPRTest/Legacy.cs:36-56 | One order's item loop adds exactly its counted items to the tally and to the running total. |
| LegacyAnalytics.NoSalesIffNothingShipped | AIPRTest/Legacy.cs:25-29 | The "no sales" report comes out exactly when no order was shipped within the range. |
| LegacyAnalytics.SalesBreakdownCorrect | AIPRTest/Legacy.cs:34-64 | The breakdown is sorted by value descending and has distinct products, exactly those of the counted items. Each entry holds its product's total quantity and value, and the values add up to the reported total. |
| LegacyAnalytics.FilteredOutOrdersStillCounted | AIPRTest/Legacy.cs:41-66 | When some order shipped in range but the filter drops every item, the report has an empty breakdown and a zero total. It still counts the orders. |
| LegacyAnalytics.AddOrderToTrends | AIPRTest/Legacy.cs:91-102 | One order's item loop adds each known product's item value to that product's category. |
| LegacyAnalytics.AddMonthToTrends | AIPRTest/Legacy.cs:89-103 | One month's loop adds the contributions of every order in that month's window. |
| LegacyAnalytics.GetSalesTrendByCategory | AIPRTest/Legacy.cs:74-107 | The month loops compute the trend function. |
| LegacyAnalytics.SalesTrendCorrect | AIPRTest/Legacy.cs:80-106 | The trend is sorted by value descending, with distinct categories, exactly those contributed to. Each category's value is its total over the month windows, and the values add up to all contributions. |
| LegacyAnalytics.LastDayOfMonthCutOff | AIPRTest/Legacy.cs:83-86 | A shipped order dated on a month's last day falls in that month's window exactly when it was placed at midnight. |
| LegacyAnalytics.ArchiveOldSpec | AIPRTest/Legacy.cs:160-169 | Archiving keeps ids, sets Archived exactly on the orders dated before the cut-off, and changes nothing but status. Doing it twice is the same as once. |
| LegacyAnalytics.ArchiveKeepsDayCount | AIPRTest/Legacy.cs:160-172 | Archiving does not change how many orders were placed on a given day. |
| LegacyAnalytics.DaySalesIsWindow | AIPRTest/Legacy.cs:143-145 | Comparing dates by day gives the same total as taking the Shipped orders within the day's midnight-to-23:59:59 window. |
| LegacyAnalytics.CollectReorderAlerts | AIPRTest/Legacy.cs:150-157 | The product loop collects exactly the reorder-alert list. |
| LegacyAnalytics.ArchiveOlderThan | AIPRTest/Legacy.cs:160-169 | The in-place loop leaves the orders equal to the archive function, with the counter unchanged. |
| LegacyAnalytics.LegacyEngine.constructor | AIPRTest/Legacy.cs:178 | The analytics counter starts at 0. |
| LegacyAnalytics.LegacyEngine.PerformEndOfDayBatchProcessing | AIPRTest/Legacy.cs:137-176 | Returns today's shipped sales and the reorder alerts. Orders dated before one year ago are archived in place, and ids keep increasing. The counter grows by the number of orders placed today, counted before archiving. |

## Left out

- `CancelOrder` is declared in the order-service interface (AIPRTest/Interface.cs:35) and implemented nowhere, so there is nothing to model.
- `SendOrderCancellationNotification` has no caller in the core. Only confirmations and low-stock notices are modelled.
- ExternalDataService is not part of this model: it is network I/O and `async`.
- Program.cs is not part of this model: it is console orchestration of the services.
- The economic order quantity and the reorder point (AIPRTest/AdvancedForecastingEngine.cs:85-120) are left out: they use `double` and `Math.Sqrt`.
- The system clock is a parameter. `GetFormattedTimestamp`, `FormatDate` and `IsCurrentCenturyRelevant` only format or read the clock, and are left out.
- LegacyAnalytics.LegacyEngine.PerformEndOfDayBatchProcessing: reads the clock once, where the source reads it at each step. A batch that runs across midnight is therefore not modelled.
- Console output and report text are left out. This covers `:C` currency formatting, date formatting, and the product names shown in report lines (AIPRTest/Legacy.cs:62-63). The report is returned as a value: the breakdown, the order count and the total.
- `ExportFullInventoryAuditToCsv` (AIPRTest/Legacy.cs:109-125) is left out: it only renders text and reads the clock. The field escaping it relies on is modelled.
- The payment gateway is an input boolean: the approval decision is external.
- Sending a notification is appending to a log. No e-mail is modelled.
- The static shared lists and the lack of locking are not modelled. Lists are fields of store objects or parameters, and concurrency is left out.
- Text.Lower, Text.Upper: ASCII only. Unicode case mapping beyond the ASCII letters is left out.
- LegacyAnalytics.GetReorderThreshold: the source lower-cases with the culture-sensitive `ToLower()` (AIPRTest/Legacy.cs:183). The model assumes a current culture that lower-cases ASCII letters as the invariant culture does. Under a Turkish culture "ELECTRONICS" would become "electronıcs" and get 15, so ThresholdIgnoresCase holds only under that assumption.
- CrossFunctionalHelper.ValidateInputString, CrossFunctionalHelper.ProcessText, CrossFunctionalHelper.TruncateString, CrossFunctionalHelper.PerformComplexFormattingAndValidation: lengths, midpoints and cuts are counted in characters (Unicode scalar values), not in the UTF-16 code units .NET counts. Text outside the Basic Multilingual Plane therefore behaves differently: "abc" plus one emoji has .NET length 5 but model length 4. Surrogate pairs, and their splitting by `Substring` and `Reverse()`, are not modelled.
- Null strings and null lists are modelled as empty ones.
- C# `int` overflow is not modelled. Stock, ids and counters are unbounded integers.
- C# `decimal` is an exact real. The 28-digit rounding and the overflow exception are left out.
- `DateTime` is whole seconds in the proleptic Gregorian calendar. Ticks, kinds and the year 1 to 9999 range check are left out.
- The three fulfillment collaborators (repositories, gateway, notifier) are plain fields of the service, not interfaces.
