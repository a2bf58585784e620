/** The server's shopping cart: add with merge, quantity update capped at
    stock, remove, the item count and checkout. Each user has at most one
    cart, a list of lines; the repositories are maps from id to record, and
    a method that fails changes nothing (every operation is one transaction). */
module CartService {
  import opened Common
  import opened Text

  /** A price is copied from product to order line and never computed with. */
  type Price = real

  datatype Product = Product(id: int, businessId: int, stock: Option<int>, price: Price)

  /** A cart line, holding the product it refers to. */
  datatype Line = Line(id: int, product: Product, quantity: int)

  /** The profile fields checkout looks at. */
  datatype Customer = Customer(address: Option<string>, phone: Option<string>)

  datatype OrderItem = OrderItem(product: Product, quantity: int, price: Price)
  datatype Order = Order(userId: int, items: seq<OrderItem>, createdAt: int)

  const QuantityNotPositive := "Quantity must be positive"
  const QuantityBelowOne := "Quantity must be at least 1"
  const UserNotFound := "User not found"
  const ProductNotFound := "Product not found"
  const CartItemNotFound := "Cart item not found"
  const AddressMissing := "Please set your address in your profile before placing an order."
  const PhoneMissing := "Please set your phone number in your profile before placing an order."
  const CartNotFound := "Cart not found"
  const CartEmpty := "Your cart is empty."

  // ---------------------------------------------------------------------------
  // Lines

  /** The sum of the line quantities. */
  function Total(lines: seq<Line>): int {
    if lines == [] then 0 else lines[0].quantity + Total(lines[1..])
  }

  lemma {:induction false} TotalConcat(a: seq<Line>, b: seq<Line>)
    ensures Total(a + b) == Total(a) + Total(b)
  {
    if a == [] {
      assert a + b == b;
    } else {
      TotalConcat(a[1..], b);
      assert (a + b)[1..] == a[1..] + b;
    }
  }

  /** Stream.filter(..).findFirst(): the index of the first line satisfying
      `p`, or -1 when there is none. */
  function FirstIndex(lines: seq<Line>, p: Line -> bool): (i: int)
    ensures -1 <= i < |lines|
    ensures i >= 0 ==> p(lines[i]) && forall j :: 0 <= j < i ==> !p(lines[j])
    ensures i == -1 <==> forall j :: 0 <= j < |lines| ==> !p(lines[j])
  {
    if lines == [] then -1
    else if p(lines[0]) then 0
    else
      var k := FirstIndex(lines[1..], p);
      if k == -1 then -1 else k + 1
  }

  /** No product has two lines. */
  predicate OneLinePerProduct(lines: seq<Line>) {
    forall i, j :: 0 <= i < j < |lines| ==> lines[i].product.id != lines[j].product.id
  }

  /** No two lines share an id, and every id is below `bound`. */
  predicate IdsBelow(lines: seq<Line>, bound: int) {
    (forall i, j :: 0 <= i < j < |lines| ==> lines[i].id != lines[j].id)
    && forall i :: 0 <= i < |lines| ==> lines[i].id < bound
  }

  /** addItem's change to the lines: add to the product's line if there is
      one, else append a new line with id `freshId`. */
  function MergeLine(lines: seq<Line>, product: Product, quantity: int, freshId: int): (r: seq<Line>)
    ensures Total(r) == Total(lines) + quantity
    ensures |r| == |lines| + 1 <==> forall j :: 0 <= j < |lines| ==> lines[j].product.id != product.id
    ensures |r| == |lines| || |r| == |lines| + 1
    ensures exists j :: 0 <= j < |r| && r[j].product.id == product.id
    ensures forall j :: 0 <= j < |lines| && lines[j].product.id != product.id ==> r[j] == lines[j]
  {
    var i := FirstIndex(lines, (l: Line) => l.product.id == product.id);
    if i >= 0 then
      var r := lines[i := lines[i].(quantity := lines[i].quantity + quantity)];
      assert r[i].product.id == product.id;
      TotalUpdate(lines, i, lines[i].quantity + quantity);
      r
    else
      var r := lines + [Line(freshId, product, quantity)];
      assert r[|lines|].product == product;
      TotalConcat(lines, [Line(freshId, product, quantity)]);
      assert Total([Line(freshId, product, quantity)]) == quantity;
      r
  }

  /** Merging adds exactly `quantity` to the total, keeps one line per
      product, and adds a line only for a product not yet in the cart;
      all other lines are unchanged. */
  lemma {:induction false} MergeLineProperties(lines: seq<Line>, product: Product, quantity: int, freshId: int)
    ensures var r := MergeLine(lines, product, quantity, freshId);
      Total(r) == Total(lines) + quantity
      && (OneLinePerProduct(lines) ==> OneLinePerProduct(r))
      && (IdsBelow(lines, freshId) ==> IdsBelow(r, freshId + 1))
      && (|r| == |lines| + 1 <==> forall j :: 0 <= j < |lines| ==> lines[j].product.id != product.id)
      && (|r| == |lines| || |r| == |lines| + 1)
      && forall j :: 0 <= j < |lines| && lines[j].product.id != product.id ==> r[j] == lines[j]
  {
    var i := FirstIndex(lines, (l: Line) => l.product.id == product.id);
    var r := MergeLine(lines, product, quantity, freshId);
    if i >= 0 {
      TotalUpdate(lines, i, lines[i].quantity + quantity);
    } else {
      TotalConcat(lines, [Line(freshId, product, quantity)]);
      assert Total([Line(freshId, product, quantity)]) == quantity;
    }
  }

  lemma TotalUpdate(lines: seq<Line>, i: int, q: int)
    requires 0 <= i < |lines|
    ensures Total(lines[i := lines[i].(quantity := q)]) == Total(lines) - lines[i].quantity + q
  {
    var r := lines[i := lines[i].(quantity := q)];
    assert lines == lines[..i] + [lines[i]] + lines[i + 1..];
    assert r == lines[..i] + [r[i]] + lines[i + 1..];
    TotalConcat(lines[..i] + [lines[i]], lines[i + 1..]);
    TotalConcat(lines[..i], [lines[i]]);
    TotalConcat(lines[..i] + [r[i]], lines[i + 1..]);
    TotalConcat(lines[..i], [r[i]]);
  }

  /** Changing one line's quantity keeps its id and product, so the lines
      keep one line per product and their distinct ids. */
  lemma SetQuantityKeepsKeys(lines: seq<Line>, i: int, q: int, bound: int)
    requires 0 <= i < |lines|
    ensures var r := lines[i := lines[i].(quantity := q)];
      (OneLinePerProduct(lines) ==> OneLinePerProduct(r)) && (IdsBelow(lines, bound) ==> IdsBelow(r, bound))
  {
    var r := lines[i := lines[i].(quantity := q)];
    assert forall j :: 0 <= j < |r| ==> r[j].id == lines[j].id && r[j].product == lines[j].product;
  }

  /** The quantity updateItemQuantity stores: the request, lowered to the
      stock when a stock is set and smaller. */
  function Capped(quantity: int, stock: Option<int>): (q: int)
    ensures q <= quantity && (stock.Some? ==> q <= stock.value)
    ensures q == quantity || (stock.Some? && q == stock.value)
  {
    if stock.Some? && quantity > stock.value then stock.value else quantity
  }

  /** removeItem's change to the lines: drop the first line with that id. */
  function RemoveLine(lines: seq<Line>, lineId: int): (r: seq<Line>)
    ensures |r| == |lines| || |r| == |lines| - 1
    ensures r == lines <==> forall j :: 0 <= j < |lines| ==> lines[j].id != lineId
  {
    var i := FirstIndex(lines, (l: Line) => l.id == lineId);
    if i >= 0 then lines[..i] + lines[i + 1..] else lines
  }

  /** Removing the line at index `i` keeps the lines before it in place and
      shifts the lines after it down by one. */
  lemma RemoveAt(lines: seq<Line>, i: int)
    requires 0 <= i < |lines|
    ensures var r := lines[..i] + lines[i + 1..];
      |r| == |lines| - 1
      && (forall j :: 0 <= j < i ==> r[j] == lines[j])
      && (forall j :: i <= j < |r| ==> r[j] == lines[j + 1])
      && Total(r) == Total(lines) - lines[i].quantity
  {
    assert lines == lines[..i] + [lines[i]] + lines[i + 1..];
    TotalConcat(lines[..i] + [lines[i]], lines[i + 1..]);
    TotalConcat(lines[..i], [lines[i]]);
    TotalConcat(lines[..i], lines[i + 1..]);
  }

  /** With distinct ids, removing leaves no line with that id, keeps the
      ids distinct and one line per product, and changes nothing when no
      line has that id. */
  lemma {:induction false} RemoveLineKeepsIds(lines: seq<Line>, lineId: int, bound: int)
    requires IdsBelow(lines, bound)
    ensures IdsBelow(RemoveLine(lines, lineId), bound)
    ensures OneLinePerProduct(lines) ==> OneLinePerProduct(RemoveLine(lines, lineId))
    ensures forall j :: 0 <= j < |RemoveLine(lines, lineId)| ==> RemoveLine(lines, lineId)[j].id != lineId
    ensures (forall j :: 0 <= j < |lines| ==> lines[j].id != lineId) ==> RemoveLine(lines, lineId) == lines
  {
    var i := FirstIndex(lines, (l: Line) => l.id == lineId);
    if i >= 0 {
      var r := lines[..i] + lines[i + 1..];
      RemoveAt(lines, i);
      forall a, b | 0 <= a < b < |r|
        ensures r[a].id != r[b].id
        ensures OneLinePerProduct(lines) ==> r[a].product.id != r[b].product.id
      {
        var a', b' := if a < i then a else a + 1, if b < i then b else b + 1;
        assert r[a] == lines[a'] && r[b] == lines[b'] && a' < b';
      }
      forall j | 0 <= j < |r| ensures r[j].id < bound && r[j].id != lineId {
        var j' := if j < i then j else j + 1;
        assert r[j] == lines[j'];
        assert j' != i ==> lines[j'].id != lines[i].id;
      }
    }
  }

  /** Removing keeps every other line, adds none, and lowers the total by
      the quantity of the removed line. */
  lemma {:induction false} RemoveLineKeepsOthers(lines: seq<Line>, lineId: int)
    ensures forall l :: l in lines && l.id != lineId ==> l in RemoveLine(lines, lineId)
    ensures forall l :: l in RemoveLine(lines, lineId) ==> l in lines
    ensures var i := FirstIndex(lines, (l: Line) => l.id == lineId);
      i >= 0 ==> Total(RemoveLine(lines, lineId)) == Total(lines) - lines[i].quantity
  {
    var i := FirstIndex(lines, (l: Line) => l.id == lineId);
    if i >= 0 {
      RemoveAt(lines, i);
      RemoveAtMembers(lines, i);
      forall l | l in lines && l.id != lineId ensures l in RemoveLine(lines, lineId) {
        var k :| 0 <= k < |lines| && lines[k] == l;
      }
    }
  }

  /** Removing the line at index `i` keeps every line at another index and
      adds none. */
  lemma RemoveAtMembers(lines: seq<Line>, i: int)
    requires 0 <= i < |lines|
    ensures var r := lines[..i] + lines[i + 1..];
      (forall k :: 0 <= k < |lines| && k != i ==> lines[k] in r)
      && forall l :: l in r ==> l in lines
  {
    var r := lines[..i] + lines[i + 1..];
    RemoveAt(lines, i);
    forall k | 0 <= k < |lines| && k != i ensures lines[k] in r {
      assert r[if k < i then k else k - 1] == lines[k];
    }
    forall l | l in r ensures l in lines {
      var k :| 0 <= k < |r| && r[k] == l;
      assert lines[if k < i then k else k + 1] == l;
    }
  }

  /** The order line checkout makes from a cart line: same product and
      quantity, the product's current price. */
  function ItemOf(l: Line): OrderItem {
    OrderItem(l.product, l.quantity, l.product.price)
  }

  function ItemsTotal(items: seq<OrderItem>): int {
    if items == [] then 0 else items[0].quantity + ItemsTotal(items[1..])
  }

  /** An order copied line by line from a cart holds the cart's item count. */
  lemma {:induction false} CopiedTotal(lines: seq<Line>, items: seq<OrderItem>)
    requires |items| == |lines| && forall k :: 0 <= k < |lines| ==> items[k] == ItemOf(lines[k])
    ensures ItemsTotal(items) == Total(lines)
  {
    if lines != [] {
      CopiedTotal(lines[1..], items[1..]);
    }
  }

  /** A profile field is missing when null or only whitespace. */
  predicate Missing(field: Option<string>) {
    field.None? || IsJavaBlank(field.value)
  }

  // ---------------------------------------------------------------------------
  // The service

  class Carts {
    var carts: map<int, seq<Line>>
    var products: map<int, Product>
    var users: map<int, Customer>
    var orders: map<int, Order>
    var nextLineId: int
    var nextOrderId: int

    ghost predicate Valid()
      reads this
    {
      (forall k :: k in products ==> products[k].id == k)
      && (forall u :: u in carts ==> OneLinePerProduct(carts[u]) && IdsBelow(carts[u], nextLineId))
      && forall o :: o in orders ==> o < nextOrderId
    }

    /** The product table maps each id to the product with that id, as
        findById does. */
    constructor(products: map<int, Product>, users: map<int, Customer>)
      requires forall k :: k in products ==> products[k].id == k
      ensures Valid()
      ensures carts == map[] && orders == map[] && this.products == products && this.users == users
    {
      carts, orders := map[], map[];
      this.products, this.users := products, users;
      nextLineId, nextOrderId := 1, 1;
    }

    /** The user's lines; a user without a cart has none. */
    function CartOf(userId: int): seq<Line>
      reads this
    {
      if userId in carts then carts[userId] else []
    }

    /** addItem. The quantity check comes first; then the user (whose cart is
        created if missing) and the product must exist. */
    method AddItem(userId: int, productId: int, quantity: int) returns (r: Result<seq<Line>>)
      requires Valid()
      modifies this`carts, this`nextLineId
      ensures Valid()
      ensures quantity <= 0 ==> r == Err(QuantityNotPositive)
      ensures quantity > 0 && userId !in users ==> r == Err(UserNotFound)
      ensures quantity > 0 && userId in users && productId !in products ==> r == Err(ProductNotFound)
      ensures quantity > 0 && userId in users && productId in products ==> r.Ok?
      ensures r.Err? ==> carts == old(carts)
      ensures r.Ok? ==> (
        quantity > 0 && userId in users && productId in products
        && r.value == MergeLine(old(CartOf(userId)), products[productId], quantity, old(nextLineId))
        && carts == old(carts)[userId := r.value]
        && Total(r.value) == Total(old(CartOf(userId))) + quantity)
    {
      if quantity <= 0 {
        return Err(QuantityNotPositive);
      }
      if userId !in users {
        return Err(UserNotFound);
      }
      if productId !in products {
        return Err(ProductNotFound);
      }
      var lines := CartOf(userId);
      MergeLineProperties(lines, products[productId], quantity, nextLineId);
      var merged := MergeLine(lines, products[productId], quantity, nextLineId);
      carts := carts[userId := merged];
      nextLineId := nextLineId + 1;
      r := Ok(merged);
    }

    /** updateItemQuantity: the line with that id in the user's cart gets the
        requested quantity, capped at its product's stock. */
    method UpdateItemQuantity(userId: int, lineId: int, quantity: int) returns (r: Result<seq<Line>>)
      requires Valid()
      modifies this`carts
      ensures Valid()
      ensures quantity < 1 ==> r == Err(QuantityBelowOne)
      ensures quantity >= 1 && userId !in users ==> r == Err(UserNotFound)
      ensures quantity >= 1 && userId in users && (forall l :: l in old(CartOf(userId)) ==> l.id != lineId) ==>
        r == Err(CartItemNotFound)
      ensures quantity >= 1 && userId in users && (exists l :: l in old(CartOf(userId)) && l.id == lineId) ==> r.Ok?
      ensures r.Err? ==> carts == old(carts)
      ensures r.Ok? ==> (
        quantity >= 1 && userId in users && carts == old(carts)[userId := r.value]
        && var lines := old(CartOf(userId));
        var i := FirstIndex(lines, (l: Line) => l.id == lineId);
        0 <= i && r.value == lines[i := lines[i].(quantity := Capped(quantity, lines[i].product.stock))])
    {
      if quantity < 1 {
        return Err(QuantityBelowOne);
      }
      if userId !in users {
        return Err(UserNotFound);
      }
      var lines := CartOf(userId);
      var i := FirstIndex(lines, (l: Line) => l.id == lineId);
      if i < 0 {
        return Err(CartItemNotFound);
      }
      var q := quantity;
      var maxStock := lines[i].product.stock;
      if maxStock.Some? && q > maxStock.value {
        q := maxStock.value;
      }
      var updated := lines[i := lines[i].(quantity := q)];
      SetQuantityKeepsKeys(lines, i, q, nextLineId);
      carts := carts[userId := updated];
      r := Ok(updated);
    }

    /** removeItem: the user's cart (created if missing) loses the line with
        that id; an id not in the cart changes nothing else. */
    method RemoveItem(userId: int, lineId: int) returns (r: Result<()>)
      requires Valid()
      modifies this`carts
      ensures Valid()
      ensures userId !in users ==> r == Err(UserNotFound) && carts == old(carts)
      ensures userId in users ==> r == Ok(()) && carts == old(carts)[userId := RemoveLine(old(CartOf(userId)), lineId)]
    {
      if userId !in users {
        return Err(UserNotFound);
      }
      var lines := CartOf(userId);
      RemoveLineKeepsIds(lines, lineId, nextLineId);
      carts := carts[userId := RemoveLine(lines, lineId)];
      r := Ok(());
    }

    /** getItemCount: the number of items in the user's cart, 0 without a cart. */
    function ItemCount(userId: int): (n: int)
      reads this
      ensures userId !in carts ==> n == 0
      ensures userId in carts && carts[userId] == [] ==> n == 0
      ensures userId in carts ==> n == Total(carts[userId])
    {
      if userId in carts then Total(carts[userId]) else 0
    }

    /** checkout: after the checks, in this order, an order is stored with one
        item per cart line, in cart order, and the cart is emptied.
        `noticeFails` says whether one of the purchase notices to the
        business owners throws: the catch around it does not save the
        transaction, which is rolled back (see RolledBack). */
    method Checkout(userId: int, now: int, noticeFails: bool) returns (r: Result<int>)
      requires Valid()
      modifies this`carts, this`orders, this`nextOrderId
      ensures Valid()
      ensures userId !in users ==> r == Err(UserNotFound)
      ensures userId in users && Missing(users[userId].address) ==> r == Err(AddressMissing)
      ensures userId in users && !Missing(users[userId].address) && Missing(users[userId].phone) ==>
        r == Err(PhoneMissing)
      ensures userId in users && !Missing(users[userId].address) && !Missing(users[userId].phone) ==>
        (userId !in old(carts) ==> r == Err(CartNotFound))
        && (userId in old(carts) && old(carts)[userId] == [] ==> r == Err(CartEmpty))
        && (userId in old(carts) && old(carts)[userId] != [] && noticeFails ==> r == Err(RolledBack))
        && (userId in old(carts) && old(carts)[userId] != [] && !noticeFails ==> r.Ok?)
      ensures r.Err? ==> carts == old(carts) && orders == old(orders)
      ensures r.Ok? ==> (
        userId in old(carts) && old(carts)[userId] != []
        && r.value !in old(orders) && r.value in orders && orders == old(orders)[r.value := orders[r.value]]
        && orders[r.value].userId == userId && orders[r.value].createdAt == now
        && |orders[r.value].items| == |old(carts)[userId]|
        && (forall k :: 0 <= k < |old(carts)[userId]| ==> orders[r.value].items[k] == ItemOf(old(carts)[userId][k]))
        && ItemsTotal(orders[r.value].items) == Total(old(carts)[userId])
        && carts == old(carts)[userId := []])
    {
      if userId !in users {
        return Err(UserNotFound);
      }
      if Missing(users[userId].address) {
        return Err(AddressMissing);
      }
      if Missing(users[userId].phone) {
        return Err(PhoneMissing);
      }
      if userId !in carts {
        return Err(CartNotFound);
      }
      var lines := carts[userId];
      if lines == [] {
        return Err(CartEmpty);
      }
      var items: seq<OrderItem> := [];
      var i := 0;
      while i < |lines|
        invariant 0 <= i <= |lines|
        invariant |items| == i
        invariant forall k :: 0 <= k < i ==> items[k] == ItemOf(lines[k])
      {
        items := items + [OrderItem(lines[i].product, lines[i].quantity, lines[i].product.price)];
        i := i + 1;
      }
      CopiedTotal(lines, items);
      if noticeFails {
        return Err(RolledBack);
      }
      var id := nextOrderId;
      orders := orders[id := Order(userId, items, now)];
      nextOrderId := nextOrderId + 1;
      carts := carts[userId := []];
      r := Ok(id);
    }
  }
}
