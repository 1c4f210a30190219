/**
 * The in-memory order store (AIPRTest/InMemoryOrderRepository.cs): a list of
 * orders and the counter that hands out order ids.
 */
module OrderRepository {
  import opened Wrappers
  import opened Models

  /** Position of the first order with id `id`, the one `FirstOrDefault` returns. */
  function FindOrder(os: seq<Order>, id: int): (r: Option<nat>)
    ensures r.Some? ==> r.value < |os| && os[r.value].id == id
    ensures r.Some? ==> forall j :: 0 <= j < r.value ==> os[j].id != id
    ensures r.None? <==> forall j :: 0 <= j < |os| ==> os[j].id != id
  {
    FindFirst(os, OrderId, id)
  }

  /** `GetOrderById` over an order list: the first match, or null. */
  function LookupOrder(os: seq<Order>, id: int): Option<Order> {
    match FindOrder(os, id)
    case None => None
    case Some(i) => Some(os[i])
  }

  /** The list after `UpdateOrderStatus(id, status)`. */
  function SetStatus(os: seq<Order>, id: int, status: string): seq<Order> {
    match FindOrder(os, id)
    case None => os
    case Some(i) => os[i := os[i].(status := status)]
  }

  /** Ids strictly increase along the list: the order of creation. */
  predicate IdsIncreasing(os: seq<Order>) {
    forall i, j :: 0 <= i < j < |os| ==> os[i].id < os[j].id
  }

  /** Two lists that carry the same ids in the same places. */
  predicate SameOrderIds(os: seq<Order>, qs: seq<Order>) {
    |os| == |qs| && forall j :: 0 <= j < |os| ==> os[j].id == qs[j].id
  }

  lemma {:induction false} SameOrderIdsSameFind(os: seq<Order>, qs: seq<Order>, x: int)
    requires SameOrderIds(os, qs)
    ensures FindOrder(os, x) == FindOrder(qs, x)
    decreases |os|
  {
    if |os| > 0 && os[0].id != x {
      SameOrderIdsSameFind(os[1..], qs[1..], x);
    }
  }

  /**
   * A status update overwrites the status of the order with that id, whatever the
   * old status was, and touches nothing else; an unknown id changes nothing.
   */
  lemma SetStatusEffect(os: seq<Order>, id: int, status: string)
    ensures SameOrderIds(os, SetStatus(os, id, status))
    ensures LookupOrder(os, id).None? ==> SetStatus(os, id, status) == os
    ensures LookupOrder(os, id).Some? ==>
      LookupOrder(SetStatus(os, id, status), id) == Some(LookupOrder(os, id).value.(status := status))
    ensures forall x :: x != id ==> LookupOrder(SetStatus(os, id, status), x) == LookupOrder(os, x)
  {
    var r := SetStatus(os, id, status);
    forall x ensures FindOrder(r, x) == FindOrder(os, x) {
      SameOrderIdsSameFind(r, os, x);
    }
    forall x | x != id ensures LookupOrder(r, x) == LookupOrder(os, x) {
      match FindOrder(os, x)
      case None =>
      case Some(k) =>
        assert os[k].id == x;
    }
  }

  /** With increasing ids, every stored order is the one its id finds. */
  lemma {:induction false} StoredOrderIsFound(os: seq<Order>, k: nat)
    requires IdsIncreasing(os) && k < |os|
    ensures LookupOrder(os, os[k].id) == Some(os[k])
  {
    var found := FindOrder(os, os[k].id);
    assert found.Some?;
    assert found.value == k;
  }

  class OrderStore {
    var orders: seq<Order>
    var nextOrderId: int

    /** Every id is below the counter and ids increase in creation order. */
    ghost predicate Valid()
      reads this
    {
      && 1 <= nextOrderId
      && (forall j :: 0 <= j < |orders| ==> orders[j].id < nextOrderId)
      && IdsIncreasing(orders)
    }

    constructor ()
      ensures orders == [] && nextOrderId == 1
      ensures Valid()
    {
      orders := [];
      nextOrderId := 1;
    }

    /** Stamps the order with the next id and the store's clock, and appends it. */
    method CreateOrder(order: Order, now: int) returns (created: Order)
      requires Valid()
      modifies this
      ensures created == order.(id := old(nextOrderId), orderDate := now)
      ensures orders == old(orders) + [created]
      ensures nextOrderId == old(nextOrderId) + 1
      ensures forall j :: 0 <= j < |old(orders)| ==> old(orders)[j].id < created.id
      ensures GetOrderById(created.id) == Some(created)
      ensures Valid()
    {
      created := order.(id := nextOrderId, orderDate := now);
      nextOrderId := nextOrderId + 1;
      orders := orders + [created];
      StoredOrderIsFound(orders, |orders| - 1);
    }

    function GetOrderById(orderId: int): (r: Option<Order>)
      reads this
      ensures r.None? <==> forall j :: 0 <= j < |orders| ==> orders[j].id != orderId
      ensures r.Some? ==> (r.value.id == orderId &&
        exists i :: 0 <= i < |orders| && orders[i] == r.value &&
          forall j :: 0 <= j < i ==> orders[j].id != orderId)
    {
      LookupOrder(orders, orderId)
    }

    /** Overwrites the status with no check of the transition. */
    method UpdateOrderStatus(orderId: int, newStatus: string) returns (updated: bool)
      modifies this
      ensures updated <==> old(GetOrderById(orderId)).Some?
      ensures orders == SetStatus(old(orders), orderId, newStatus)
      ensures nextOrderId == old(nextOrderId)
      ensures old(Valid()) ==> Valid()
    {
      var found := FindOrder(orders, orderId);
      if found.Some? {
        orders := orders[found.value := orders[found.value].(status := newStatus)];
        return true;
      }
      return false;
    }
  }
}
