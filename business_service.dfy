/** Saving and deleting businesses. Saving an update that carries no owner
    keeps the stored owner; deleting a business first deletes the bookings
    of its services and then the business, whose services and products go
    with it (they are owned by the business and cascade). Cart lines and
    order items refer to products and do not cascade, so a business one of
    whose products is still in a cart or an order cannot be deleted: the
    database refuses, and the whole transaction is undone. The tables are
    maps: businesses by id, services and products to their business's id,
    bookings to their service's id, cart lines and order items to their
    product's id. */
module BusinessService {
  import opened Common
  import opened Text

  /** A business: its name, its owner's user id when it has one, and the
      remaining columns, which the service only copies. */
  datatype Business = Business(name: string, ownerId: Option<int>, profile: string)

  const BusinessNotFoundPrefix := "Business not found: "

  /** The failure of a deletion that the database refuses because a cart
      line or an order item still refers to one of the business's products.
      The database's own message is not modelled; this text stands for it. */
  const ProductStillReferenced := "Product still referenced by a cart or an order"

  /** The business as saveBusiness stores it: an update (an id given) that
      carries no owner takes the owner of the stored business with that id,
      if there is one; anything else is stored as given. */
  function WithOwner(id: Option<int>, b: Business, stored: map<int, Business>): (r: Business)
    ensures r.name == b.name && r.profile == b.profile
    ensures b.ownerId.Some? ==> r == b
    ensures id.None? || id.value !in stored ==> r == b
    ensures id.Some? && id.value in stored && b.ownerId.None? ==> r.ownerId == stored[id.value].ownerId
  {
    if id.Some? && b.ownerId.None? && id.value in stored then b.(ownerId := stored[id.value].ownerId) else b
  }

  /** Saving the same owner-less update again keeps the owner it got the
      first time: the owner is never lost by repeated updates. */
  lemma WithOwnerStable(id: int, b: Business, stored: map<int, Business>)
    ensures var saved := WithOwner(Some(id), b, stored);
      WithOwner(Some(id), b, stored[id := saved]) == saved
      && WithOwner(Some(id), saved, stored[id := saved]) == saved
  {
  }

  // ---------------------------------------------------------------------------
  // The cascade of deleteBusiness

  /** A child table (services or products, mapped to their business) without
      the rows of one business. */
  function WithoutBusiness(rows: map<int, int>, businessId: int): (r: map<int, int>)
    ensures forall k :: k in r <==> k in rows && rows[k] != businessId
    ensures forall k :: k in r ==> r[k] == rows[k]
  {
    map k | k in rows && rows[k] != businessId :: rows[k]
  }

  /** findByServiceBusinessId: the booking's service belongs to the business. */
  predicate BookedAt(bookings: map<int, int>, services: map<int, int>, bookingId: int, businessId: int)
    requires bookingId in bookings
  {
    bookings[bookingId] in services && services[bookings[bookingId]] == businessId
  }

  /** The bookings left once those of the business's services are deleted. */
  function BookingsKept(bookings: map<int, int>, services: map<int, int>, businessId: int): (r: map<int, int>)
    ensures forall k :: k in r <==> k in bookings && !BookedAt(bookings, services, k, businessId)
    ensures forall k :: k in r ==> r[k] == bookings[k]
  {
    map k | k in bookings && !BookedAt(bookings, services, k, businessId) :: bookings[k]
  }

  /** The foreign keys hold: every service and product belongs to a stored
      business, every booking is for a stored service, and every cart line
      and order item is for a stored product. */
  predicate KeysResolve(businesses: map<int, Business>, services: map<int, int>, products: map<int, int>,
    bookings: map<int, int>, cartLines: map<int, int>, orderItems: map<int, int>)
  {
    (forall s :: s in services ==> services[s] in businesses)
    && (forall p :: p in products ==> products[p] in businesses)
    && (forall k :: k in bookings ==> bookings[k] in services)
    && (forall l :: l in cartLines ==> cartLines[l] in products)
    && (forall o :: o in orderItems ==> orderItems[o] in products)
  }

  /** Some row of `refs` (cart lines or order items) is for a product of the
      business. */
  predicate Refers(refs: map<int, int>, products: map<int, int>, businessId: int) {
    exists l :: l in refs && refs[l] in products && products[refs[l]] == businessId
  }

  /** A cart line or an order item is for a product of the business. */
  predicate ProductsInUse(products: map<int, int>, cartLines: map<int, int>, orderItems: map<int, int>, businessId: int) {
    Refers(cartLines, products, businessId) || Refers(orderItems, products, businessId)
  }

  /** The deletion order keeps the foreign keys: when no cart line or order
      item is for one of the business's products, deleting the bookings of
      its services and then the business with its services and products
      leaves no row pointing at something deleted. */
  lemma DeleteKeepsKeys(businesses: map<int, Business>, services: map<int, int>, products: map<int, int>,
    bookings: map<int, int>, cartLines: map<int, int>, orderItems: map<int, int>, id: int)
    requires KeysResolve(businesses, services, products, bookings, cartLines, orderItems)
    requires !ProductsInUse(products, cartLines, orderItems, id)
    ensures KeysResolve(businesses - {id}, WithoutBusiness(services, id), WithoutBusiness(products, id),
      BookingsKept(bookings, services, id), cartLines, orderItems)
  {
    var kept := BookingsKept(bookings, services, id);
    forall k | k in kept ensures kept[k] in WithoutBusiness(services, id) {
      assert !BookedAt(bookings, services, k, id);
    }
    forall l | l in cartLines ensures cartLines[l] in WithoutBusiness(products, id) {
      assert !(cartLines[l] in products && products[cartLines[l]] == id);
    }
    forall o | o in orderItems ensures orderItems[o] in WithoutBusiness(products, id) {
      assert !(orderItems[o] in products && products[orderItems[o]] == id);
    }
  }

  /** Removing only the business would break the keys whenever one of its
      services has a booking: this is why the bookings are deleted first. */
  lemma DeleteAloneBreaksKeys(businesses: map<int, Business>, services: map<int, int>, products: map<int, int>,
    bookings: map<int, int>, cartLines: map<int, int>, orderItems: map<int, int>, id: int, k: int)
    requires KeysResolve(businesses, services, products, bookings, cartLines, orderItems)
    requires k in bookings && BookedAt(bookings, services, k, id)
    ensures !KeysResolve(businesses - {id}, WithoutBusiness(services, id), WithoutBusiness(products, id),
      bookings, cartLines, orderItems)
  {
    assert bookings[k] !in WithoutBusiness(services, id);
  }

  /** Removing the business while a cart line or an order item is for one of
      its products would break the keys whichever bookings are deleted: this
      is the deletion the database refuses. */
  lemma DeleteInUseBreaksKeys(businesses: map<int, Business>, services: map<int, int>, products: map<int, int>,
    bookings: map<int, int>, cartLines: map<int, int>, orderItems: map<int, int>, id: int, keptBookings: map<int, int>)
    requires ProductsInUse(products, cartLines, orderItems, id)
    ensures !KeysResolve(businesses - {id}, WithoutBusiness(services, id), WithoutBusiness(products, id),
      keptBookings, cartLines, orderItems)
  {
    if Refers(cartLines, products, id) {
      var l :| l in cartLines && cartLines[l] in products && products[cartLines[l]] == id;
      assert cartLines[l] !in WithoutBusiness(products, id);
    } else {
      var o :| o in orderItems && orderItems[o] in products && products[orderItems[o]] == id;
      assert orderItems[o] !in WithoutBusiness(products, id);
    }
  }

  // ---------------------------------------------------------------------------
  // The service

  class Businesses {
    var businesses: map<int, Business>
    var services: map<int, int>
    var products: map<int, int>
    var bookings: map<int, int>
    var cartLines: map<int, int>
    var orderItems: map<int, int>
    /** The identity column's next value. */
    var nextId: int

    ghost predicate Valid()
      reads this
    {
      KeysResolve(businesses, services, products, bookings, cartLines, orderItems)
      && forall id :: id in businesses ==> id < nextId
    }

    constructor()
      ensures Valid()
      ensures businesses == map[] && services == map[] && products == map[] && bookings == map[]
      ensures cartLines == map[] && orderItems == map[]
    {
      businesses, services, products, bookings := map[], map[], map[], map[];
      cartLines, orderItems := map[], map[];
      nextId := 1;
    }

    /** saveBusiness: an update of a stored business replaces it, keeping the
        stored owner when the update has none; a business without an id, or
        with an id nothing is stored under, is inserted under a new id. */
    method SaveBusiness(id: Option<int>, b: Business) returns (savedId: int, saved: Business)
      requires Valid()
      modifies this`businesses, this`nextId
      ensures Valid()
      ensures saved == WithOwner(id, b, old(businesses))
      ensures businesses == old(businesses)[savedId := saved]
      ensures id.Some? && id.value in old(businesses) ==> savedId == id.value && nextId == old(nextId)
      ensures !(id.Some? && id.value in old(businesses)) ==>
        savedId == old(nextId) && savedId !in old(businesses) && nextId == old(nextId) + 1
    {
      saved := WithOwner(id, b, businesses);
      if id.Some? && id.value in businesses {
        savedId := id.value;
      } else {
        savedId := nextId;
        nextId := nextId + 1;
      }
      businesses := businesses[savedId := saved];
    }

    /** deleteBusiness: an unknown id fails with "Business not found: <id>"
        and changes nothing. When a cart line or an order item is for one of
        the business's products, the database refuses to delete the product
        and the transaction is undone: the call fails and changes nothing.
        Otherwise the bookings of the business's services are deleted, then
        the business with its services and products. Everything else, the
        cart lines and order items included, is left as it was. */
    method DeleteBusiness(id: int) returns (r: Result<()>)
      requires Valid()
      modifies this`businesses, this`services, this`products, this`bookings
      ensures Valid()
      ensures id !in old(businesses) ==>
        r == Err(BusinessNotFoundPrefix + IntToString(id))
        && businesses == old(businesses) && services == old(services)
        && products == old(products) && bookings == old(bookings)
      ensures id in old(businesses) && ProductsInUse(old(products), cartLines, orderItems, id) ==>
        r == Err(ProductStillReferenced)
        && businesses == old(businesses) && services == old(services)
        && products == old(products) && bookings == old(bookings)
      ensures id in old(businesses) && !ProductsInUse(old(products), cartLines, orderItems, id) ==>
        r == Ok(())
        && businesses == old(businesses) - {id}
        && services == WithoutBusiness(old(services), id)
        && products == WithoutBusiness(old(products), id)
        && bookings == BookingsKept(old(bookings), old(services), id)
    {
      if id !in businesses {
        return Err(BusinessNotFoundPrefix + IntToString(id));
      }
      if ProductsInUse(products, cartLines, orderItems, id) {
        return Err(ProductStillReferenced);
      }
      DeleteKeepsKeys(businesses, services, products, bookings, cartLines, orderItems, id);
      bookings := BookingsKept(bookings, services, id);
      businesses := businesses - {id};
      services := WithoutBusiness(services, id);
      products := WithoutBusiness(products, id);
      r := Ok(());
    }
  }
}
