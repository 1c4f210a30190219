/**
 * The in-memory catalog (AIPRTest/InMemoryProductRepository.cs): a list of
 * products and the counter that hands out product ids.
 */
module ProductRepository {
  import opened Wrappers
  import opened Models

  /** Position of the first product with id `id`, the one `FirstOrDefault` returns. */
  function FindProduct(ps: seq<Product>, id: int): (r: Option<nat>)
    ensures r.Some? ==> r.value < |ps| && ps[r.value].id == id
    ensures r.Some? ==> forall j :: 0 <= j < r.value ==> ps[j].id != id
    ensures r.None? <==> forall j :: 0 <= j < |ps| ==> ps[j].id != id
  {
    FindFirst(ps, ProductId, id)
  }

  /** `GetProductById` over a product list: the first match, or null. */
  function Lookup(ps: seq<Product>, id: int): (r: Option<Product>)
  {
    match FindProduct(ps, id)
    case None => None
    case Some(i) => Some(ps[i])
  }

  /** The list after `UpdateProductStock(id, level)`. */
  function SetStock(ps: seq<Product>, id: int, level: int): (r: seq<Product>)
  {
    match FindProduct(ps, id)
    case None => ps
    case Some(i) => ps[i := ps[i].(stockQuantity := level)]
  }

  /** Two lists that carry the same ids in the same places. */
  predicate SameIds(ps: seq<Product>, qs: seq<Product>) {
    |ps| == |qs| && forall j :: 0 <= j < |ps| ==> ps[j].id == qs[j].id
  }

  /** Lookups depend on nothing but the ids. */
  lemma {:induction false} SameIdsSameFind(ps: seq<Product>, qs: seq<Product>, x: int)
    requires SameIds(ps, qs)
    ensures FindProduct(ps, x) == FindProduct(qs, x)
    decreases |ps|
  {
    if |ps| > 0 && ps[0].id != x {
      SameIdsSameFind(ps[1..], qs[1..], x);
    }
  }

  /**
   * A stock update is an absolute set on the first product with that id: it
   * changes that product's stock to exactly `level` and nothing else, and an
   * unknown id leaves the list as it was.
   */
  lemma SetStockEffect(ps: seq<Product>, id: int, level: int)
    ensures SameIds(ps, SetStock(ps, id, level))
    ensures Lookup(ps, id).None? ==> SetStock(ps, id, level) == ps
    ensures Lookup(ps, id).Some? ==>
      Lookup(SetStock(ps, id, level), id) == Some(Lookup(ps, id).value.(stockQuantity := level))
    ensures forall j :: 0 <= j < |ps| && Some(j) != FindProduct(ps, id) ==> SetStock(ps, id, level)[j] == ps[j]
    ensures forall j :: 0 <= j < |ps| ==>
      SetStock(ps, id, level)[j] == ps[j].(stockQuantity := SetStock(ps, id, level)[j].stockQuantity)
    ensures forall x :: x != id ==> Lookup(SetStock(ps, id, level), x) == Lookup(ps, x)
  {
    var r := SetStock(ps, id, level);
    forall x ensures FindProduct(r, x) == FindProduct(ps, x) {
      SameIdsSameFind(r, ps, x);
    }
    forall x | x != id ensures Lookup(r, x) == Lookup(ps, x) {
      match FindProduct(ps, x)
      case None =>
      case Some(k) =>
        assert ps[k].id == x;
    }
  }

  /** A stock update seen through a lookup: only the updated id finds a changed product. */
  lemma SetStockLookupAt(ps: seq<Product>, id: int, level: int, x: int)
    ensures Lookup(SetStock(ps, id, level), x) ==
      if x == id && Lookup(ps, id).Some? then Some(Lookup(ps, id).value.(stockQuantity := level)) else Lookup(ps, x)
  {
    var r := SetStock(ps, id, level);
    match FindProduct(ps, id) {
      case None =>
      case Some(i) =>
        assert SameIds(ps, r);
        SameIdsSameFind(r, ps, x);
        match FindProduct(ps, x) {
          case None =>
          case Some(k) =>
            if x != id {
              assert k != i;
            }
        }
    }
  }

  /** A stock update seen at one position: the same product, perhaps with another stock. */
  lemma SetStockAt(ps: seq<Product>, id: int, level: int, j: nat)
    requires j < |ps|
    ensures |SetStock(ps, id, level)| == |ps|
    ensures SetStock(ps, id, level)[j] == ps[j].(stockQuantity := SetStock(ps, id, level)[j].stockQuantity)
    ensures FindProduct(ps, id) != Some(j) ==> SetStock(ps, id, level)[j] == ps[j]
  {
  }

  /** The largest id of a non-empty list (`AllProducts.Max(p => p.Id)`). */
  function MaxId(ps: seq<Product>): (m: int)
    requires |ps| > 0
    ensures forall j :: 0 <= j < |ps| ==> ps[j].id <= m
    ensures exists j :: 0 <= j < |ps| && ps[j].id == m
  {
    if |ps| == 1 then ps[0].id
    else
      var rest := MaxId(ps[1..]);
      assert forall j :: 1 <= j < |ps| ==> ps[j] == ps[1..][j - 1];
      if ps[0].id >= rest then ps[0].id else rest
  }

  /** The catalog the repository starts with. */
  function SeedProducts(): seq<Product> {
    [ Product(1, "Laptop Pro", 1200.00, "Electronics", 50),
      Product(2, "Wireless Mouse", 25.00, "Accessories", 200),
      Product(3, "Mechanical Keyboard", 75.00, "Accessories", 100) ]
  }

  class ProductStore {
    var products: seq<Product>
    var nextProductId: int

    /** The id counter is above every id in the list, so the ids it hands out are fresh. */
    ghost predicate Valid()
      reads this
    {
      forall j :: 0 <= j < |products| ==> products[j].id < nextProductId
    }

    /** The static initialiser: the counter starts one above the largest seeded id. */
    constructor (seed: seq<Product>)
      requires |seed| > 0
      ensures products == seed && nextProductId == MaxId(seed) + 1
      ensures Valid()
    {
      products := seed;
      nextProductId := MaxId(seed) + 1;
    }

    function GetProductById(productId: int): (r: Option<Product>)
      reads this
      ensures r.None? <==> forall j :: 0 <= j < |products| ==> products[j].id != productId
      ensures r.Some? ==> (r.value.id == productId &&
        exists i :: 0 <= i < |products| && products[i] == r.value &&
          forall j :: 0 <= j < i ==> products[j].id != productId)
    {
      Lookup(products, productId)
    }

    function GetAllProducts(): (r: seq<Product>)
      reads this
      ensures r == products
    {
      products
    }

    method AddProduct(product: Product) returns (added: Product)
      requires Valid()
      modifies this
      ensures added == product.(id := old(nextProductId))
      ensures products == old(products) + [added]
      ensures nextProductId == old(nextProductId) + 1
      ensures forall j :: 0 <= j < |old(products)| ==> old(products)[j].id != added.id
      ensures GetProductById(added.id) == Some(added)
      ensures Valid()
    {
      added := product.(id := nextProductId);
      nextProductId := nextProductId + 1;
      ghost var before := products;
      products := products + [added];
      assert products[|before|].id == added.id;
      var found := FindProduct(products, added.id);
      assert found.Some?;
      assert found.value == |before|;
    }

    method UpdateProductStock(productId: int, newStockLevel: int)
      modifies this
      ensures products == SetStock(old(products), productId, newStockLevel)
      ensures nextProductId == old(nextProductId)
      ensures old(Valid()) ==> Valid()
    {
      var found := FindProduct(products, productId);
      if found.Some? {
        products := products[found.value := products[found.value].(stockQuantity := newStockLevel)];
      }
    }
  }
}
