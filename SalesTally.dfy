/**
 * The two dictionaries the legacy analytics fill in its nested loops: per product
 * (quantity and value) and per category (value). A .NET `Dictionary` that is only
 * added to enumerates in insertion order, so each is an association list in the
 * order its keys were first seen.
 */
module SalesTally {
  import opened Wrappers
  import opened Models
  import opened Sorting

  /** One `productSales` entry: a product id with its `(Quantity, Value)` pair. */
  datatype ProductSales = ProductSales(productId: int, quantity: int, value: Money)

  /** One `trends` entry: a category with its summed value. */
  datatype CategorySales = CategorySales(category: string, value: Money)

  function SaleValue(e: ProductSales): real { e.value }

  function CategoryValue(e: CategorySales): real { e.value }

  function SaleProductId(e: ProductSales): int { e.productId }

  function SaleCategory(e: CategorySales): string { e.category }

  /** Position of the entry for `id`, if the dictionary has that key. */
  function FindSale(t: seq<ProductSales>, id: int): (r: Option<nat>)
    ensures r.Some? ==> r.value < |t| && t[r.value].productId == id
    ensures r.None? <==> forall k :: 0 <= k < |t| ==> t[k].productId != id
  {
    FindFirst(t, SaleProductId, id)
  }

  /** One pass of the inner loop: create the entry at `(0, 0)` if missing, then add the item. */
  function AddSale(t: seq<ProductSales>, item: OrderItem): seq<ProductSales> {
    match FindSale(t, item.productId)
    case None => t + [ProductSales(item.productId, item.quantity, ItemValue(item))]
    case Some(k) => t[k := t[k].(quantity := t[k].quantity + item.quantity, value := t[k].value + ItemValue(item))]
  }

  /** The dictionary after adding `items` in order to an empty one. */
  function TallyProducts(items: seq<OrderItem>): seq<ProductSales>
    decreases |items|
  {
    if |items| == 0 then [] else AddSale(TallyProducts(items[..|items| - 1]), items[|items| - 1])
  }

  /** Adding one more item is one more pass of the inner loop. */
  lemma TallyProductsAppend(items: seq<OrderItem>, item: OrderItem)
    ensures TallyProducts(items + [item]) == AddSale(TallyProducts(items), item)
    ensures ItemsValue(items + [item]) == ItemsValue(items) + ItemValue(item)
  {
    assert (items + [item])[..|items|] == items;
  }

  /** Total quantity of the items for product `id`. */
  function QuantityFor(items: seq<OrderItem>, id: int): int
    decreases |items|
  {
    if |items| == 0 then 0
    else QuantityFor(items[..|items| - 1], id) + (if items[|items| - 1].productId == id then items[|items| - 1].quantity else 0)
  }

  /** Total value of the items for product `id`. */
  function ValueFor(items: seq<OrderItem>, id: int): real
    decreases |items|
  {
    if |items| == 0 then 0.0
    else ValueFor(items[..|items| - 1], id) + (if items[|items| - 1].productId == id then ItemValue(items[|items| - 1]) else 0.0)
  }

  /** Dictionary keys: no product id appears twice. */
  predicate ProductKeysDistinct(t: seq<ProductSales>) {
    forall i, j :: 0 <= i < j < |t| ==> t[i].productId != t[j].productId
  }

  /** One addition keeps the keys distinct, adds the key if it was missing, and adds the item to that key only. */
  lemma AddSaleEffect(t0: seq<ProductSales>, item: OrderItem)
    requires ProductKeysDistinct(t0)
    ensures ProductKeysDistinct(AddSale(t0, item))
    ensures |t0| <= |AddSale(t0, item)| <= |t0| + 1
    ensures forall k :: 0 <= k < |t0| ==> AddSale(t0, item)[k].productId == t0[k].productId
    ensures |t0| < |AddSale(t0, item)| ==> AddSale(t0, item)[|t0|] == ProductSales(item.productId, item.quantity, ItemValue(item))
    ensures forall k :: 0 <= k < |t0| ==>
      AddSale(t0, item)[k].quantity == t0[k].quantity + (if t0[k].productId == item.productId then item.quantity else 0)
    ensures forall k :: 0 <= k < |t0| ==>
      AddSale(t0, item)[k].value == t0[k].value + (if t0[k].productId == item.productId then ItemValue(item) else 0.0)
    ensures FindSale(t0, item.productId).None? <==> |t0| < |AddSale(t0, item)|
  {
    var t := AddSale(t0, item);
    match FindSale(t0, item.productId) {
      case None =>
        assert t == t0 + [ProductSales(item.productId, item.quantity, ItemValue(item))];
      case Some(k0) =>
        assert t == t0[k0 := t0[k0].(quantity := t0[k0].quantity + item.quantity, value := t0[k0].value + ItemValue(item))];
    }
  }

  lemma {:induction false} TallyProductsDistinct(items: seq<OrderItem>)
    ensures ProductKeysDistinct(TallyProducts(items))
    decreases |items|
  {
    if |items| > 0 {
      var n := |items| - 1;
      TallyProductsDistinct(items[..n]);
      AddSaleEffect(TallyProducts(items[..n]), items[n]);
    }
  }

  /** After one addition there is an entry for `id` exactly when there was one before or the item is for `id`. */
  lemma AddSaleHas(t0: seq<ProductSales>, item: OrderItem, id: int)
    ensures FindSale(AddSale(t0, item), id).Some? <==> FindSale(t0, id).Some? || id == item.productId
  {
    var t := AddSale(t0, item);
    match FindSale(t0, item.productId) {
      case None =>
        assert t == t0 + [ProductSales(item.productId, item.quantity, ItemValue(item))];
        assert t[|t0|].productId == item.productId;
        if FindSale(t0, id).Some? {
          assert t[FindSale(t0, id).value].productId == id;
        }
      case Some(k0) =>
        assert forall k :: 0 <= k < |t| ==> t[k].productId == t0[k].productId;
    }
  }

  /** The tally has an entry for `id` exactly when some item is for `id`. */
  lemma {:induction false} TallyProductsHas(items: seq<OrderItem>, id: int)
    ensures FindSale(TallyProducts(items), id).Some? <==> exists j :: 0 <= j < |items| && items[j].productId == id
    decreases |items|
  {
    if |items| > 0 {
      var n := |items| - 1;
      var init := items[..n];
      TallyProductsHas(init, id);
      AddSaleHas(TallyProducts(init), items[n], id);
      if exists j :: 0 <= j < n && init[j].productId == id {
        var j :| 0 <= j < n && init[j].productId == id;
        assert items[j].productId == id;
      }
      if exists j :: 0 <= j < |items| && items[j].productId == id {
        var j :| 0 <= j < |items| && items[j].productId == id;
        if j < n {
          assert init[j].productId == id;
        }
      }
    }
  }

  /** Each entry holds the total quantity and the total value of the items for its product. */
  lemma {:induction false} TallyProductsTotals(items: seq<OrderItem>)
    ensures forall k :: 0 <= k < |TallyProducts(items)| ==>
      var e := TallyProducts(items)[k];
      e.quantity == QuantityFor(items, e.productId) && e.value == ValueFor(items, e.productId)
    decreases |items|
  {
    if |items| > 0 {
      var n := |items| - 1;
      var init, item := items[..n], items[n];
      var t0 := TallyProducts(init);
      var t := TallyProducts(items);
      TallyProductsTotals(init);
      TallyProductsDistinct(init);
      AddSaleEffect(t0, item);
      assert t == AddSale(t0, item);
      if |t0| < |t| {
        TallyProductsHas(init, item.productId);
        AbsentProductTotals(init, item.productId);
      }
    }
  }

  /**
   * The tally has one entry per product id that occurs among the items, and that
   * entry holds the total quantity and the total value of the items for it.
   */
  lemma TallyProductsSpec(items: seq<OrderItem>)
    ensures ProductKeysDistinct(TallyProducts(items))
    ensures forall k :: 0 <= k < |TallyProducts(items)| ==>
      var e := TallyProducts(items)[k];
      e.quantity == QuantityFor(items, e.productId) && e.value == ValueFor(items, e.productId)
    ensures forall id :: FindSale(TallyProducts(items), id).Some? <==> exists j :: 0 <= j < |items| && items[j].productId == id
  {
    TallyProductsDistinct(items);
    TallyProductsTotals(items);
    forall id ensures FindSale(TallyProducts(items), id).Some? <==> exists j :: 0 <= j < |items| && items[j].productId == id {
      TallyProductsHas(items, id);
    }
  }

  /** A product with no items has nothing tallied for it. */
  lemma {:induction false} AbsentProductTotals(items: seq<OrderItem>, id: int)
    requires forall j :: 0 <= j < |items| ==> items[j].productId != id
    ensures QuantityFor(items, id) == 0 && ValueFor(items, id) == 0.0
    decreases |items|
  {
    if |items| > 0 {
      AbsentProductTotals(items[..|items| - 1], id);
    }
  }

  /** The entry values add up to the total value of all items. */
  lemma {:induction false} TallyProductsTotal(items: seq<OrderItem>)
    ensures SumBy(TallyProducts(items), SaleValue) == ItemsValue(items)
    decreases |items|
  {
    if |items| > 0 {
      var n := |items| - 1;
      TallyProductsTotal(items[..n]);
      var t0 := TallyProducts(items[..n]);
      var item := items[n];
      match FindSale(t0, item.productId)
      case None =>
        SumByAppend(t0, ProductSales(item.productId, item.quantity, ItemValue(item)), SaleValue);
      case Some(k) =>
        SumByUpdate(t0, k, t0[k].(quantity := t0[k].quantity + item.quantity, value := t0[k].value + ItemValue(item)), SaleValue);
    }
  }

  /** Position of the entry for `category`, if the dictionary has that key. */
  function FindCategory(t: seq<CategorySales>, category: string): (r: Option<nat>)
    ensures r.Some? ==> r.value < |t| && t[r.value].category == category
    ensures r.None? <==> forall k :: 0 <= k < |t| ==> t[k].category != category
  {
    FindFirst(t, SaleCategory, category)
  }

  /** `trends[category] += value`, creating the entry at 0 if missing. */
  function AddCategorySale(t: seq<CategorySales>, sale: CategorySales): seq<CategorySales> {
    match FindCategory(t, sale.category)
    case None => t + [sale]
    case Some(k) => t[k := t[k].(value := t[k].value + sale.value)]
  }

  /** The dictionary after adding each contribution in order to an empty one. */
  function TallyCategories(sales: seq<CategorySales>): seq<CategorySales>
    decreases |sales|
  {
    if |sales| == 0 then [] else AddCategorySale(TallyCategories(sales[..|sales| - 1]), sales[|sales| - 1])
  }

  lemma TallyCategoriesAppend(sales: seq<CategorySales>, sale: CategorySales)
    ensures TallyCategories(sales + [sale]) == AddCategorySale(TallyCategories(sales), sale)
  {
    assert (sales + [sale])[..|sales|] == sales;
  }

  /** Total of the contributions for `category`. */
  function CategoryTotal(sales: seq<CategorySales>, category: string): real
    decreases |sales|
  {
    if |sales| == 0 then 0.0
    else CategoryTotal(sales[..|sales| - 1], category) + (if sales[|sales| - 1].category == category then sales[|sales| - 1].value else 0.0)
  }

  predicate CategoryKeysDistinct(t: seq<CategorySales>) {
    forall i, j :: 0 <= i < j < |t| ==> t[i].category != t[j].category
  }

  lemma {:induction false} TallyCategoriesDistinct(sales: seq<CategorySales>)
    ensures CategoryKeysDistinct(TallyCategories(sales))
    decreases |sales|
  {
    if |sales| > 0 {
      var n := |sales| - 1;
      TallyCategoriesDistinct(sales[..n]);
      AddCategorySaleEffect(TallyCategories(sales[..n]), sales[n]);
    }
  }

  /** After one addition there is an entry for `c` exactly when there was one before or the contribution is for `c`. */
  lemma AddCategorySaleHas(t0: seq<CategorySales>, sale: CategorySales, c: string)
    ensures FindCategory(AddCategorySale(t0, sale), c).Some? <==> FindCategory(t0, c).Some? || c == sale.category
  {
    var t := AddCategorySale(t0, sale);
    match FindCategory(t0, sale.category) {
      case None =>
        assert t == t0 + [sale];
        assert t[|t0|].category == sale.category;
        if FindCategory(t0, c).Some? {
          assert t[FindCategory(t0, c).value].category == c;
        }
      case Some(k0) =>
        assert forall k :: 0 <= k < |t| ==> t[k].category == t0[k].category;
    }
  }

  /** The tally has an entry for category `c` exactly when some contribution is for `c`. */
  lemma {:induction false} TallyCategoriesHas(sales: seq<CategorySales>, c: string)
    ensures FindCategory(TallyCategories(sales), c).Some? <==> exists j :: 0 <= j < |sales| && sales[j].category == c
    decreases |sales|
  {
    if |sales| > 0 {
      var n := |sales| - 1;
      var init := sales[..n];
      TallyCategoriesHas(init, c);
      AddCategorySaleHas(TallyCategories(init), sales[n], c);
      if exists j :: 0 <= j < n && init[j].category == c {
        var j :| 0 <= j < n && init[j].category == c;
        assert sales[j].category == c;
      }
      if exists j :: 0 <= j < |sales| && sales[j].category == c {
        var j :| 0 <= j < |sales| && sales[j].category == c;
        if j < n {
          assert init[j].category == c;
        }
      }
    }
  }

  /** Each entry holds the sum of its category's contributions. */
  lemma {:induction false} TallyCategoriesTotals(sales: seq<CategorySales>)
    ensures forall k :: 0 <= k < |TallyCategories(sales)| ==>
      TallyCategories(sales)[k].value == CategoryTotal(sales, TallyCategories(sales)[k].category)
    decreases |sales|
  {
    if |sales| > 0 {
      var n := |sales| - 1;
      var init, sale := sales[..n], sales[n];
      var t0 := TallyCategories(init);
      var t := TallyCategories(sales);
      TallyCategoriesTotals(init);
      TallyCategoriesDistinct(init);
      AddCategorySaleEffect(t0, sale);
      assert t == AddCategorySale(t0, sale);
      if |t0| < |t| {
        TallyCategoriesHas(init, sale.category);
        AbsentCategoryTotal(init, sale.category);
      }
    }
  }

  /**
   * One entry per category that received a contribution, holding the sum of that
   * category's contributions.
   */
  lemma TallyCategoriesSpec(sales: seq<CategorySales>)
    ensures CategoryKeysDistinct(TallyCategories(sales))
    ensures forall k :: 0 <= k < |TallyCategories(sales)| ==>
      TallyCategories(sales)[k].value == CategoryTotal(sales, TallyCategories(sales)[k].category)
    ensures forall c :: FindCategory(TallyCategories(sales), c).Some? <==> exists j :: 0 <= j < |sales| && sales[j].category == c
  {
    TallyCategoriesDistinct(sales);
    TallyCategoriesTotals(sales);
    forall c ensures FindCategory(TallyCategories(sales), c).Some? <==> exists j :: 0 <= j < |sales| && sales[j].category == c {
      TallyCategoriesHas(sales, c);
    }
  }

  /** One addition keeps the keys distinct, adds the key if it was missing, and adds the value to that key only. */
  lemma AddCategorySaleEffect(t0: seq<CategorySales>, sale: CategorySales)
    requires CategoryKeysDistinct(t0)
    ensures CategoryKeysDistinct(AddCategorySale(t0, sale))
    ensures |t0| <= |AddCategorySale(t0, sale)| <= |t0| + 1
    ensures forall k :: 0 <= k < |t0| ==> AddCategorySale(t0, sale)[k].category == t0[k].category
    ensures |t0| < |AddCategorySale(t0, sale)| ==> AddCategorySale(t0, sale)[|t0|] == sale
    ensures forall k :: 0 <= k < |t0| ==>
      AddCategorySale(t0, sale)[k].value == t0[k].value + (if t0[k].category == sale.category then sale.value else 0.0)
    ensures FindCategory(t0, sale.category).None? <==> |t0| < |AddCategorySale(t0, sale)|
  {
    var t := AddCategorySale(t0, sale);
    match FindCategory(t0, sale.category) {
      case None =>
        assert t == t0 + [sale];
      case Some(k0) =>
        assert t == t0[k0 := t0[k0].(value := t0[k0].value + sale.value)];
    }
  }

  /** The entries add up to the sum of all contributions. */
  lemma {:induction false} TallyCategoriesTotal(sales: seq<CategorySales>)
    ensures SumBy(TallyCategories(sales), CategoryValue) == SumBy(sales, CategoryValue)
    decreases |sales|
  {
    if |sales| > 0 {
      var n := |sales| - 1;
      var init, sale := sales[..n], sales[n];
      TallyCategoriesTotal(init);
      var t0 := TallyCategories(init);
      assert sales == init + [sale];
      SumByAppend(init, sale, CategoryValue);
      match FindCategory(t0, sale.category)
      case None =>
        SumByAppend(t0, sale, CategoryValue);
      case Some(k) =>
        SumByUpdate(t0, k, t0[k].(value := t0[k].value + sale.value), CategoryValue);
    }
  }

  /** A category with no contributions totals zero. */
  lemma {:induction false} AbsentCategoryTotal(sales: seq<CategorySales>, category: string)
    requires forall j :: 0 <= j < |sales| ==> sales[j].category != category
    ensures CategoryTotal(sales, category) == 0.0
    decreases |sales|
  {
    if |sales| > 0 {
      AbsentCategoryTotal(sales[..|sales| - 1], category);
    }
  }

  /** Listing product entries by value keeps them one per id, and keeps which ids have an entry. */
  lemma SortedSalesKeepKeys(t: seq<ProductSales>)
    requires ProductKeysDistinct(t)
    ensures ProductKeysDistinct(SortDesc(t, SaleValue))
    ensures forall e :: e in SortDesc(t, SaleValue) ==> e in t
    ensures forall id :: FindSale(SortDesc(t, SaleValue), id).Some? <==> FindSale(t, id).Some?
  {
    var b := SortDesc(t, SaleValue);
    SortDescMembers(t, SaleValue);
    assert DistinctBy(t, SaleProductId) by {
      forall i, j | 0 <= i < j < |t| ensures SaleProductId(t[i]) != SaleProductId(t[j]) {
      }
    }
    SortDescKeepsDistinct(t, SaleValue, SaleProductId);
    forall i, j | 0 <= i < j < |b| ensures b[i].productId != b[j].productId {
      assert SaleProductId(b[i]) != SaleProductId(b[j]);
    }
    forall id ensures FindSale(b, id).Some? <==> FindSale(t, id).Some? {
      match FindSale(t, id) {
        case Some(k) =>
          assert t[k] in b;
          var k' :| 0 <= k' < |b| && b[k'] == t[k];
        case None =>
          forall j | 0 <= j < |b| ensures b[j].productId != id {
            assert b[j] in t;
          }
      }
    }
  }

  /** Listing category entries by value keeps them one per category, and keeps which categories have an entry. */
  lemma SortedCategoriesKeepKeys(t: seq<CategorySales>)
    requires CategoryKeysDistinct(t)
    ensures CategoryKeysDistinct(SortDesc(t, CategoryValue))
    ensures forall e :: e in SortDesc(t, CategoryValue) ==> e in t
    ensures forall c :: FindCategory(SortDesc(t, CategoryValue), c).Some? <==> FindCategory(t, c).Some?
  {
    var b := SortDesc(t, CategoryValue);
    SortDescMembers(t, CategoryValue);
    assert DistinctBy(t, SaleCategory) by {
      forall i, j | 0 <= i < j < |t| ensures SaleCategory(t[i]) != SaleCategory(t[j]) {
      }
    }
    SortDescKeepsDistinct(t, CategoryValue, SaleCategory);
    forall i, j | 0 <= i < j < |b| ensures b[i].category != b[j].category {
      assert SaleCategory(b[i]) != SaleCategory(b[j]);
    }
    forall c ensures FindCategory(b, c).Some? <==> FindCategory(t, c).Some? {
      match FindCategory(t, c) {
        case Some(k) =>
          assert t[k] in b;
          var k' :| 0 <= k' < |b| && b[k'] == t[k];
        case None =>
          forall j | 0 <= j < |b| ensures b[j].category != c {
            assert b[j] in t;
          }
      }
    }
  }
}
