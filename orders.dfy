/** `controllers/orderController.js`: turning the client's cart into an order,
    one line at a time (stock decrement, running total, item snapshot), and
    the manager's status updates. */
module Orders {
  import opened Common
  import opened Entities
  import opened Store
  import opened Carts

  /** How a cart line's stock entry is looked up. The source asks for
      `s.label === item.size`, but a size entry has no `label` field
      (`models/Product.js:15` names it `size`), so that lookup never finds
      one; `BySize` is the lookup the schema supports. */
  datatype SizeLookup = ByLabel | BySize

  /** The index of the stock entry a lookup finds, or -1. */
  function EntryIndex(sizes: seq<SizeEntry>, size: string, lookup: SizeLookup): (k: int)
    ensures -1 <= k < |sizes|
    ensures lookup == ByLabel ==> k == -1
    ensures lookup == BySize && k >= 0 ==> sizes[k].size == size
  {
    match lookup
    case ByLabel => -1
    case BySize => SizeIndex(sizes, size)
  }

  /** `product.images?.[0] || ""`. */
  function FirstImage(images: seq<string>): string
  {
    if |images| > 0 then images[0] else ""
  }

  /** The outcome of one pass of the loop: a line whose product is gone is
      skipped, a line without enough stock ends the request, and any other
      line decrements its stock entry and yields an order item. */
  datatype LineStep = Skip | Reject | Take(products: map<Id, Product>, item: OrderItem)

  function StepLine(products: map<Id, Product>, line: CartItem, lookup: SizeLookup): (s: LineStep)
    ensures s.Skip? <==> line.productId !in products
    ensures s.Take? ==> s.item.quantity == line.quantity && s.item.size == line.size && s.item.productId == line.productId
  {
    if line.productId !in products then Skip
    else
      var p := products[line.productId];
      var k := EntryIndex(p.sizes, line.size, lookup);
      if k < 0 || p.sizes[k].stock < line.quantity then Reject
      else
        var entry := p.sizes[k].(stock := p.sizes[k].stock - line.quantity);
        Take(products[line.productId := p.(sizes := p.sizes[k := entry])],
             OrderItem(line.productId, p.name, FirstImage(p.images), line.size, line.quantity, p.price))
  }

  /** A taken line lowers exactly its own stock entry by its quantity and
      snapshots the product's name, first image and price; every other
      product and every other entry is untouched. */
  lemma TakeEffect(products: map<Id, Product>, line: CartItem, lookup: SizeLookup)
    requires StepLine(products, line, lookup).Take?
    ensures var s := StepLine(products, line, lookup);
      var p := products[line.productId];
      var k := EntryIndex(p.sizes, line.size, lookup);
      && 0 <= k < |p.sizes| && p.sizes[k].stock >= line.quantity
      && s.products.Keys == products.Keys
      && (forall q :: q in products && q != line.productId ==> s.products[q] == products[q])
      && s.products[line.productId] == p.(sizes := p.sizes[k := p.sizes[k].(stock := p.sizes[k].stock - line.quantity)])
      && s.item == OrderItem(line.productId, p.name, FirstImage(p.images), line.size, line.quantity, p.price)
  {
  }

  /** The result of the whole loop: the products as saved so far, the order
      items, the running total, and whether a line ended the request. */
  datatype Placement = Placement(products: map<Id, Product>, items: seq<OrderItem>, total: int, rejected: bool)

  /** Σ price × quantity. */
  function Total(items: seq<OrderItem>): int
  {
    if |items| == 0 then 0 else items[0].price * items[0].quantity + Total(items[1..])
  }

  /** The loop of `createOrder` over the cart lines, in order. */
  function Place(products: map<Id, Product>, lines: seq<CartItem>, lookup: SizeLookup): (r: Placement)
    ensures r.total == Total(r.items)
    ensures |r.items| <= |lines|
    ensures r.products.Keys == products.Keys
    decreases |lines|
  {
    if |lines| == 0 then Placement(products, [], 0, false)
    else match StepLine(products, lines[0], lookup)
      case Skip => Place(products, lines[1..], lookup)
      case Reject => Placement(products, [], 0, true)
      case Take(ps, item) =>
        var rest := Place(ps, lines[1..], lookup);
        assert ([item] + rest.items)[1..] == rest.items;
        Placement(rest.products, [item] + rest.items, item.price * item.quantity + rest.total, rest.rejected)
  }

  /** A successful placement has one item per line whose product exists, in
      cart order, with the line's size and quantity. */
  lemma {:induction false} PlacedItems(products: map<Id, Product>, lines: seq<CartItem>, lookup: SizeLookup)
    requires !Place(products, lines, lookup).rejected
    ensures var r := Place(products, lines, lookup);
      (forall j :: 0 <= j < |lines| && lines[j].productId in products ==>
         exists t :: 0 <= t < |r.items| && r.items[t].productId == lines[j].productId && r.items[t].size == lines[j].size
                     && r.items[t].quantity == lines[j].quantity)
    decreases |lines|
  {
    if |lines| > 0 {
      match StepLine(products, lines[0], lookup)
      case Skip =>
        PlacedItems(products, lines[1..], lookup);
        forall j | 0 <= j < |lines| && lines[j].productId in products
          ensures exists t :: 0 <= t < |Place(products, lines, lookup).items| && Place(products, lines, lookup).items[t].productId == lines[j].productId
                     && Place(products, lines, lookup).items[t].size == lines[j].size && Place(products, lines, lookup).items[t].quantity == lines[j].quantity
        {
          assert j != 0;
          assert lines[j] == lines[1..][j - 1];
        }
      case Take(ps, item) =>
        PlacedItems(ps, lines[1..], lookup);
        var r := Place(products, lines, lookup);
        var rest := Place(ps, lines[1..], lookup);
        assert r.items == [item] + rest.items;
        forall j | 0 <= j < |lines| && lines[j].productId in products
          ensures exists t :: 0 <= t < |r.items| && r.items[t].productId == lines[j].productId
                     && r.items[t].size == lines[j].size && r.items[t].quantity == lines[j].quantity
        {
          if j == 0 {
            assert r.items[0] == item;
          } else {
            assert lines[j] == lines[1..][j - 1];
            assert lines[j].productId in ps;
            var t :| 0 <= t < |rest.items| && rest.items[t].productId == lines[j].productId
                     && rest.items[t].size == lines[j].size && rest.items[t].quantity == lines[j].quantity;
            assert r.items[t + 1] == rest.items[t];
          }
        }
    }
  }

  /** As written, with the `label` lookup, any line whose product still
      exists ends the request with 400, and a cart whose products are all gone
      is placed as an empty order. */
  lemma {:induction false} LabelLookupRejects(products: map<Id, Product>, lines: seq<CartItem>)
    ensures (exists j :: 0 <= j < |lines| && lines[j].productId in products) ==> Place(products, lines, ByLabel).rejected
    ensures (forall j :: 0 <= j < |lines| ==> lines[j].productId !in products) ==>
      Place(products, lines, ByLabel) == Placement(products, [], 0, false)
    decreases |lines|
  {
    if |lines| > 0 {
      LabelLookupRejects(products, lines[1..]);
      if lines[0].productId !in products {
        assert forall j :: 1 <= j < |lines| ==> lines[j] == lines[1..][j - 1];
      }
    }
  }

  /** A line's stock entry exists and holds at least the line's quantity. */
  predicate InStock(products: map<Id, Product>, line: CartItem)
    requires line.productId in products
  {
    var sizes := products[line.productId].sizes;
    var k := SizeIndex(sizes, line.size);
    k >= 0 && sizes[k].stock >= line.quantity
  }

  /** With the `size` lookup, a cart of unique lines that are all in stock is
      placed without rejection: taking one line never spends the stock of
      another. */
  lemma {:induction false} InStockCartPlaced(products: map<Id, Product>, lines: seq<CartItem>)
    requires UniqueLines(lines)
    requires forall j :: 0 <= j < |lines| && lines[j].productId in products ==> InStock(products, lines[j])
    ensures !Place(products, lines, BySize).rejected
    decreases |lines|
  {
    if |lines| > 0 {
      var rest := lines[1..];
      assert UniqueLines(rest) by {
        assert forall i, j :: 0 <= i < j < |rest| ==> rest[i] == lines[i + 1] && rest[j] == lines[j + 1];
      }
      match StepLine(products, lines[0], BySize)
      case Skip =>
        assert forall j :: 0 <= j < |rest| ==> rest[j] == lines[j + 1];
        InStockCartPlaced(products, rest);
      case Take(ps, item) =>
        var p0 := lines[0].productId;
        var sizes := products[p0].sizes;
        var k := SizeIndex(sizes, lines[0].size);
        forall j | 0 <= j < |rest| && rest[j].productId in ps
          ensures InStock(ps, rest[j])
        {
          assert rest[j] == lines[j + 1];
          if rest[j].productId == p0 {
            assert rest[j].size != lines[0].size;
            var after := ps[p0].sizes;
            SizeIndexSameNames(sizes, after, rest[j].size);
          }
        }
        InStockCartPlaced(ps, rest);
      case Reject =>
        assert false;
    }
  }

  /** A placement preceded by items already taken and their total. */
  function After(items: seq<OrderItem>, total: int, rest: Placement): Placement
  {
    Placement(rest.products, items + rest.items, total + rest.total, rest.rejected)
  }

  /** One line of `Place`, seen from the items taken before it. */
  lemma PlaceStep(items: seq<OrderItem>, total: int, products: map<Id, Product>, lines: seq<CartItem>, lookup: SizeLookup)
    requires |lines| > 0
    ensures var st := StepLine(products, lines[0], lookup);
      && (st.Skip? ==> After(items, total, Place(products, lines, lookup)) == After(items, total, Place(products, lines[1..], lookup)))
      && (st.Reject? ==> After(items, total, Place(products, lines, lookup)) == Placement(products, items, total, true))
      && (st.Take? ==>
            After(items, total, Place(products, lines, lookup))
            == After(items + [st.item], total + st.item.price * st.item.quantity, Place(st.products, lines[1..], lookup)))
  {
    match StepLine(products, lines[0], lookup)
    case Skip =>
    case Reject =>
    case Take(ps, item) =>
      var rest := Place(ps, lines[1..], lookup);
      assert (items + [item]) + rest.items == items + ([item] + rest.items);
  }

  /** The state of the loop of `createOrder` before line `i`: what the whole
      cart places is what the lines from `i` on place after `items`. */
  predicate Placing(placed: Placement, items: seq<OrderItem>, total: int, products: map<Id, Product>,
                    lines: seq<CartItem>, i: int, lookup: SizeLookup)
  {
    0 <= i <= |lines| && placed == After(items, total, Place(products, lines[i..], lookup))
  }

  /** One pass of the loop keeps `Placing`, and a rejected line is where the
      whole placement stops. */
  lemma PlacingStep(placed: Placement, items: seq<OrderItem>, total: int, products: map<Id, Product>,
                    lines: seq<CartItem>, i: int, lookup: SizeLookup)
    requires Placing(placed, items, total, products, lines, i, lookup) && i < |lines|
    ensures var st := StepLine(products, lines[i], lookup);
      && (st.Skip? ==> Placing(placed, items, total, products, lines, i + 1, lookup))
      && (st.Reject? ==> placed == Placement(products, items, total, true))
      && (st.Take? ==> Placing(placed, items + [st.item], total + st.item.price * st.item.quantity, st.products,
                               lines, i + 1, lookup))
  {
    PlaceStep(items, total, products, lines[i..], lookup);
    assert lines[i..][1..] == lines[i + 1..];
  }

  /** The loop of `createOrder`: each taken line saves its product before the
      next line is looked at. */
  method PlaceLines(db: Db, lines: seq<CartItem>, lookup: SizeLookup)
    returns (items: seq<OrderItem>, total: int, rejected: bool)
    modifies db`products
    ensures var placed := Place(old(db.products), lines, lookup);
      db.products == placed.products && items == placed.items && total == placed.total && rejected == placed.rejected
  {
    ghost var placed := Place(db.products, lines, lookup);
    items, total := [], 0;
    var i := 0;
    assert lines[0..] == lines;
    while i < |lines|
      invariant Placing(placed, items, total, db.products, lines, i, lookup)
      decreases |lines| - i
    {
      PlacingStep(placed, items, total, db.products, lines, i, lookup);
      match StepLine(db.products, lines[i], lookup) {
        case Skip =>
        case Reject =>
          return items, total, true;
        case Take(ps, item) =>
          db.products := ps;
          items, total := items + [item], total + item.price * item.quantity;
      }
      i := i + 1;
    }
    assert lines[i..] == [];
    assert items + [] == items;
    rejected := false;
  }

  /** `createOrder`. Stock is saved line by line, so a rejected line leaves
      the decrements of the lines before it in place. `Order.create` rejects
      an empty client name or phone (both required), after the stock has
      moved. */
  method CreateOrder(db: Db, a: Actor, comment: Option<string>, lookup: SizeLookup, orderId: Id) returns (r: Result<Order>)
    requires db.Valid()
    requires orderId !in db.orders
    modifies db`products, db`orders, db`carts
    ensures db.Valid()
    ensures a.role != Client || CartOf(old(db.carts), a.id) == [] ==>
      r == Fail(if a.role != Client then Forbidden else BadRequest)
      && db.products == old(db.products) && db.orders == old(db.orders) && db.carts == old(db.carts)
    ensures a.role == Client && CartOf(old(db.carts), a.id) != [] ==>
      var placed := Place(old(db.products), old(db.carts)[a.id], lookup);
      && db.products == placed.products
      && (placed.rejected ==> r == Fail(BadRequest) && db.orders == old(db.orders) && db.carts == old(db.carts))
      && (!placed.rejected && (a.fullName == "" || a.phoneNumber == "") ==>
            r == Fail(ServerError) && db.orders == old(db.orders) && db.carts == old(db.carts))
      && (!placed.rejected && a.fullName != "" && a.phoneNumber != "" ==>
            && r == Ok(Order(a.id, a.fullName, a.phoneNumber, placed.items, placed.total, New, OrEmpty(comment), ""))
            && db.orders == old(db.orders)[orderId := r.value]
            && db.carts == old(db.carts)[a.id := []])
  {
    if a.role != Client {
      return Fail(Forbidden);
    }
    var lines := CartOf(db.carts, a.id);
    if lines == [] {
      return Fail(BadRequest);
    }
    var items, total, rejected := PlaceLines(db, lines, lookup);
    if rejected {
      return Fail(BadRequest);
    }
    if a.fullName == "" || a.phoneNumber == "" {
      return Fail(ServerError);
    }
    var order := Order(a.id, a.fullName, a.phoneNumber, items, total, New, OrEmpty(comment), "");
    db.orders := db.orders[orderId := order];
    db.carts := db.carts[a.id := []];
    r := Ok(order);
  }

  /** `getMyOrders`: only role `client`, and only the caller's orders. */
  function GetMyOrders(orders: map<Id, Order>, a: Actor): (r: Result<set<Id>>)
    ensures r.Ok? <==> a.role == Client
    ensures r.Ok? ==> forall id :: id in r.value <==> id in orders && orders[id].userId == a.id
  {
    if a.role != Client then Fail(Forbidden)
    else Ok(set id | id in orders && orders[id].userId == a.id)
  }

  /** The six statuses by name. */
  function ParseOrderStatus(s: string): Option<OrderStatus>
  {
    if s == "new" then Some(New)
    else if s == "contacted" then Some(Contacted)
    else if s == "paid" then Some(Paid)
    else if s == "delivering" then Some(Delivering)
    else if s == "completed" then Some(Completed)
    else if s == "canceled" then Some(Canceled)
    else None
  }

  /** `getAllOrders`: only role `manager`; a given status filters, and one
      outside the six matches nothing. */
  function GetAllOrders(orders: map<Id, Order>, a: Actor, status: Option<string>): (r: Result<set<Id>>)
    ensures r.Ok? <==> a.role == Manager
    ensures r.Ok? && !Given(status) ==> r.value == orders.Keys
    ensures r.Ok? && Given(status) ==>
      forall id :: id in r.value <==> id in orders && Some(orders[id].status) == ParseOrderStatus(status.value)
  {
    if a.role != Manager then Fail(Forbidden)
    else if !Given(status) then Ok(orders.Keys)
    else Ok(set id | id in orders && Some(orders[id].status) == ParseOrderStatus(status.value))
  }

  /** The order after `updateOrderStatus`: the status when one is given, the
      note whenever it is defined, even as "". */
  function UpdatedOrder(o: Order, status: Option<OrderStatus>, managerNote: Option<string>): Order
  {
    o.(status := if status.Some? then status.value else o.status,
       managerNote := if managerNote.Some? then managerNote.value else o.managerNote)
  }

  /** The checks and the update of `updateOrderStatus`. */
  function UpdateStatusOutcome(orders: map<Id, Order>, a: Actor, id: Id, status: Option<string>, managerNote: Option<string>)
    : (r: Result<Order>)
    ensures a.role != Manager ==> r == Fail(Forbidden)
    ensures a.role == Manager && Given(status) && ParseOrderStatus(status.value).None? ==> r == Fail(BadRequest)
    ensures a.role == Manager && (!Given(status) || ParseOrderStatus(status.value).Some?) ==> (r.Ok? <==> id in orders)
    ensures r.Ok? ==> id in orders
    ensures r.Ok? && Given(status) ==> Some(r.value.status) == ParseOrderStatus(status.value)
    ensures r.Ok? && !Given(status) ==> r.value.status == orders[id].status
    ensures r.Ok? ==> r.value.managerNote == (if managerNote.Some? then managerNote.value else orders[id].managerNote)
    ensures r.Ok? ==> r.value.items == orders[id].items && r.value.totalAmount == orders[id].totalAmount && r.value.userId == orders[id].userId
  {
    if a.role != Manager then Fail(Forbidden)
    else if Given(status) && ParseOrderStatus(status.value).None? then Fail(BadRequest)
    else if id !in orders then Fail(NotFound)
    else Ok(UpdatedOrder(orders[id], if Given(status) then ParseOrderStatus(status.value) else None, managerNote))
  }

  /** `updateOrderStatus`. */
  method UpdateOrderStatus(db: Db, a: Actor, id: Id, status: Option<string>, managerNote: Option<string>) returns (r: Result<Order>)
    requires db.Valid()
    modifies db`orders
    ensures db.Valid()
    ensures r == UpdateStatusOutcome(old(db.orders), a, id, status, managerNote)
    ensures db.orders == if r.Ok? then old(db.orders)[id := r.value] else old(db.orders)
  {
    r := UpdateStatusOutcome(db.orders, a, id, status, managerNote);
    if r.Ok? {
      db.orders := db.orders[id := r.value];
    }
  }
}
