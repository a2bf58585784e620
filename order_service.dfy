/** The business owner's view of orders: the orders holding at least one of
    the business's products, newest first, and the items of an order that
    belong to the business. The order repository is a map from order id to
    order, as the checkout in CartService stores them. */
module OrderService {
  import opened Seqs
  import opened CartService

  /** An order as the repository returns it, together with its id. */
  datatype StoredOrder = StoredOrder(id: int, order: Order)

  /** An item belongs to the business when its product does. */
  predicate OfBusiness(item: OrderItem, businessId: int) {
    item.product.businessId == businessId
  }

  /** itemsForBusiness: the order's items whose product belongs to the
      business, in the order's own item order. */
  function ItemsForBusiness(order: Order, businessId: int): (r: seq<OrderItem>)
    ensures |r| <= |order.items|
    ensures forall oi :: oi in r <==> oi in order.items && OfBusiness(oi, businessId)
  {
    var p := (oi: OrderItem) => OfBusiness(oi, businessId);
    forall oi ensures oi in Filter(order.items, p) <==> oi in order.items && p(oi) {
      FilterMembership(order.items, p, oi);
    }
    Filter(order.items, p)
  }

  /** The items kept are exactly the order's items of the business, and they
      keep the order's item order. */
  lemma ItemsForBusinessExact(order: Order, businessId: int)
    ensures forall oi :: oi in ItemsForBusiness(order, businessId) <==> oi in order.items && OfBusiness(oi, businessId)
    ensures IsSubsequence(ItemsForBusiness(order, businessId), order.items)
    ensures forall oi :: oi in order.items ==> OfBusiness(oi, businessId) ==> oi in ItemsForBusiness(order, businessId)
  {
    var p := (oi: OrderItem) => OfBusiness(oi, businessId);
    forall oi ensures oi in ItemsForBusiness(order, businessId) <==> oi in order.items && OfBusiness(oi, businessId) {
      FilterMembership(order.items, p, oi);
    }
    FilterIsSubsequence(order.items, p);
  }

  /** An order made only of the business's items is returned whole. */
  lemma ItemsForBusinessAll(order: Order, businessId: int)
    requires forall i :: 0 <= i < |order.items| ==> OfBusiness(order.items[i], businessId)
    ensures ItemsForBusiness(order, businessId) == order.items
  {
    FilterKeepsEverything(order.items, (oi: OrderItem) => OfBusiness(oi, businessId));
  }

  /** The ids findOrderIdsByBusinessId finds: the orders joined to at least
      one item of the business. */
  function MatchingIds(orders: map<int, Order>, businessId: int): (ids: set<int>)
    ensures forall id :: id in ids <==> id in orders && ItemsForBusiness(orders[id], businessId) != []
  {
    var ids := set id | id in orders && exists oi :: oi in orders[id].items && OfBusiness(oi, businessId);
    forall id | id in orders
      ensures id in ids <==> ItemsForBusiness(orders[id], businessId) != []
    {
      ItemsForBusinessExact(orders[id], businessId);
      if ItemsForBusiness(orders[id], businessId) != [] {
        var oi := ItemsForBusiness(orders[id], businessId)[0];
        assert oi in ItemsForBusiness(orders[id], businessId);
      }
    }
    ids
  }

  /** A faithful answer of findByIdInWithUserAndItems for the ids: every
      matched order once, with its stored content. */
  predicate FetchedFrom(orders: map<int, Order>, ids: set<int>, fetched: seq<StoredOrder>) {
    (forall i :: 0 <= i < |fetched| ==> fetched[i].id in ids && fetched[i].id in orders && orders[fetched[i].id] == fetched[i].order)
    && (forall i, j :: 0 <= i < j < |fetched| ==> fetched[i].id != fetched[j].id)
    && (forall id :: id in ids ==> exists i :: 0 <= i < |fetched| && fetched[i].id == id)
  }

  function CreatedAt(o: StoredOrder): int {
    o.order.createdAt
  }

  /** getOrdersByBusinessId: nothing when no order holds a product of the
      business; otherwise the fetched orders sorted by creation time, newest
      first (a stable sort: orders created at the same time keep the fetched
      order, so a fetch that is already newest first comes back unchanged).
      `fetched` is the repository's answer for the matched ids. */
  function GetOrdersByBusinessId(orders: map<int, Order>, businessId: int, fetched: seq<StoredOrder>): (r: seq<StoredOrder>)
    ensures MatchingIds(orders, businessId) == {} ==> r == []
    ensures MatchingIds(orders, businessId) != {} ==> multiset(r) == multiset(fetched)
    ensures SortedDesc(r, CreatedAt)
    ensures MatchingIds(orders, businessId) != {} && SortedDesc(fetched, CreatedAt) ==> r == fetched
  {
    if MatchingIds(orders, businessId) == {} then []
    else
      SortDescCorrect(fetched, CreatedAt);
      SortDescOfSorted(fetched, CreatedAt);
      SortDesc(fetched, CreatedAt)
  }

  /** Orders created at the same instant `at` come out in the order they
      were fetched. */
  lemma OrdersTiesKeepFetchedOrder(orders: map<int, Order>, businessId: int, fetched: seq<StoredOrder>, at: int)
    requires MatchingIds(orders, businessId) != {}
    ensures var sameTime := (o: StoredOrder) => CreatedAt(o) == at;
      Filter(GetOrdersByBusinessId(orders, businessId, fetched), sameTime) == Filter(fetched, sameTime)
  {
    SortDescStable(fetched, CreatedAt, (o: StoredOrder) => CreatedAt(o) == at, at);
  }

  /** With the repository's answer, the result holds exactly the orders that
      contain a product of the business, each once, newest first. */
  lemma OrdersByBusinessExact(orders: map<int, Order>, businessId: int, fetched: seq<StoredOrder>)
    requires FetchedFrom(orders, MatchingIds(orders, businessId), fetched)
    ensures var r := GetOrdersByBusinessId(orders, businessId, fetched);
      (forall o :: o in r ==> o.id in orders && o.order == orders[o.id] && ItemsForBusiness(o.order, businessId) != [])
      && (forall id :: id in orders && ItemsForBusiness(orders[id], businessId) != [] ==>
            exists o :: o in r && o.id == id)
      && (MatchingIds(orders, businessId) != {} ==> |r| == |fetched|)
  {
    var ids := MatchingIds(orders, businessId);
    var r := GetOrdersByBusinessId(orders, businessId, fetched);
    if ids != {} {
      forall o | o in r
        ensures o.id in orders && o.order == orders[o.id] && ItemsForBusiness(o.order, businessId) != []
      {
        assert o in multiset(fetched);
        var i :| 0 <= i < |fetched| && fetched[i] == o;
      }
      forall id | id in orders && ItemsForBusiness(orders[id], businessId) != []
        ensures exists o :: o in r && o.id == id
      {
        var i :| 0 <= i < |fetched| && fetched[i].id == id;
        assert fetched[i] in multiset(r);
      }
      assert |r| == |multiset(r)| == |multiset(fetched)| == |fetched|;
    }
  }
}
