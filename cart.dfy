/** `controllers/cartController.js`: each user's cart is a list of lines
    (product, size, quantity) edited in place: found by `findIndex`, merged,
    pushed, spliced and filtered. */
module Carts {
  import opened Common
  import opened Entities
  import opened Store

  /** `items.findIndex(…)` for a product and size: the first matching line, or -1. */
  function FindLine(items: seq<CartItem>, productId: Id, size: string): (i: int)
    ensures -1 <= i < |items|
    ensures i >= 0 ==> SameLine(items[i], productId, size) && forall j :: 0 <= j < i ==> !SameLine(items[j], productId, size)
    ensures i == -1 <==> forall j :: 0 <= j < |items| ==> !SameLine(items[j], productId, size)
  {
    if |items| == 0 then -1
    else if SameLine(items[0], productId, size) then 0
    else
      var k := FindLine(items[1..], productId, size);
      if k == -1 then -1 else k + 1
  }

  /** The quantity of a product in a size in the cart; 0 without a line. */
  function QuantityOf(items: seq<CartItem>, productId: Id, size: string): int
  {
    var i := FindLine(items, productId, size);
    if i >= 0 then items[i].quantity else 0
  }

  /** The list edit of `addToCart`: add to the matching line, or push a new one. */
  function AddLine(items: seq<CartItem>, productId: Id, size: string, quantity: int): seq<CartItem>
  {
    var i := FindLine(items, productId, size);
    if i >= 0 then items[i := items[i].(quantity := items[i].quantity + quantity)]
    else items + [CartItem(productId, size, quantity)]
  }

  /** Adding keeps one line per product and size, raises that line's quantity
      by exactly the amount added, and leaves every other line's quantity alone. */
  lemma {:induction false} AddLineEffect(items: seq<CartItem>, productId: Id, size: string, quantity: int, p: Id, s: string)
    requires UniqueLines(items)
    ensures UniqueLines(AddLine(items, productId, size, quantity))
    ensures QuantityOf(AddLine(items, productId, size, quantity), productId, size) == QuantityOf(items, productId, size) + quantity
    ensures (p != productId || s != size) ==> QuantityOf(AddLine(items, productId, size, quantity), p, s) == QuantityOf(items, p, s)
  {
    var r := AddLine(items, productId, size, quantity);
    var i := FindLine(items, productId, size);
    assert |r| == |items| || |r| == |items| + 1;
    assert forall j :: 0 <= j < |items| ==> r[j].productId == items[j].productId && r[j].size == items[j].size;
    if i >= 0 {
      FindLineSameKeys(items, r, productId, size);
      FindLineSameKeys(items, r, p, s);
    } else {
      assert r[|items|] == CartItem(productId, size, quantity);
      FindLineAppended(items, r, productId, size);
      FindLineAppended(items, r, p, s);
    }
  }

  /** Lines with the same keys in the same places are found at the same index. */
  lemma FindLineSameKeys(items: seq<CartItem>, r: seq<CartItem>, p: Id, s: string)
    requires |r| == |items|
    requires forall j :: 0 <= j < |items| ==> r[j].productId == items[j].productId && r[j].size == items[j].size
    ensures FindLine(r, p, s) == FindLine(items, p, s)
  {
    var a, b := FindLine(items, p, s), FindLine(r, p, s);
    if a >= 0 && b >= 0 {
      assert !(a < b) && !(b < a);
    }
  }

  /** Appending one line leaves the search for other keys, and for keys
      already present, unchanged; a key first present in the new line is found there. */
  lemma FindLineAppended(items: seq<CartItem>, r: seq<CartItem>, p: Id, s: string)
    requires |r| == |items| + 1
    requires forall j :: 0 <= j < |items| ==> r[j] == items[j] || (r[j].productId == items[j].productId && r[j].size == items[j].size)
    ensures FindLine(items, p, s) >= 0 ==> FindLine(r, p, s) == FindLine(items, p, s)
    ensures FindLine(items, p, s) == -1 ==>
      FindLine(r, p, s) == (if SameLine(r[|items|], p, s) then |items| else -1)
  {
    var a, b := FindLine(items, p, s), FindLine(r, p, s);
    if a >= 0 && b >= 0 {
      assert !(a < b) && !(b < a);
    }
  }

  /** `cart.items.filter(…)`: every line of that product and size removed,
      the rest kept in order. */
  function RemoveLines(items: seq<CartItem>, productId: Id, size: string): (r: seq<CartItem>)
    ensures |r| <= |items|
    ensures forall j :: 0 <= j < |r| ==> !SameLine(r[j], productId, size)
    ensures forall x :: x in r ==> x in items
  {
    if |items| == 0 then []
    else
      var rest := RemoveLines(items[1..], productId, size);
      if SameLine(items[0], productId, size) then rest else [items[0]] + rest
  }

  /** The filter works line by line: on a concatenation it filters each part. */
  lemma {:induction false} RemoveLinesAppend(a: seq<CartItem>, b: seq<CartItem>, productId: Id, size: string)
    ensures RemoveLines(a + b, productId, size) == RemoveLines(a, productId, size) + RemoveLines(b, productId, size)
    decreases |a|
  {
    if |a| > 0 {
      assert (a + b)[1..] == a[1..] + b;
      RemoveLinesAppend(a[1..], b, productId, size);
    } else {
      assert a + b == b;
    }
  }

  /** A list without a matching line is returned unchanged, so removing twice
      is removing once. */
  lemma {:induction false} RemoveLinesIdempotent(items: seq<CartItem>, productId: Id, size: string)
    ensures (forall j :: 0 <= j < |items| ==> !SameLine(items[j], productId, size)) ==> RemoveLines(items, productId, size) == items
    ensures RemoveLines(RemoveLines(items, productId, size), productId, size) == RemoveLines(items, productId, size)
  {
    NoMatchUnchanged(items, productId, size);
    NoMatchUnchanged(RemoveLines(items, productId, size), productId, size);
  }

  lemma {:induction false} NoMatchUnchanged(items: seq<CartItem>, productId: Id, size: string)
    ensures (forall j :: 0 <= j < |items| ==> !SameLine(items[j], productId, size)) ==> RemoveLines(items, productId, size) == items
  {
    if |items| > 0 {
      NoMatchUnchanged(items[1..], productId, size);
      assert [items[0]] + items[1..] == items;
    }
  }

  /** `splice(itemIndex, 1)`. */
  function DropLine(items: seq<CartItem>, i: nat): seq<CartItem>
    requires i < |items|
  {
    items[..i] + items[i + 1..]
  }

  /** With unique lines, splicing out the found line is the same as filtering
      the key out. */
  lemma {:induction false} DropIsRemove(items: seq<CartItem>, productId: Id, size: string)
    requires UniqueLines(items) && FindLine(items, productId, size) >= 0
    ensures DropLine(items, FindLine(items, productId, size)) == RemoveLines(items, productId, size)
  {
    var i := FindLine(items, productId, size);
    var pre, post := items[..i], items[i + 1..];
    assert items == pre + ([items[i]] + post);
    RemoveLinesAppend(pre, [items[i]] + post, productId, size);
    assert ([items[i]] + post)[1..] == post;
    assert forall j :: 0 <= j < |pre| ==> pre[j] == items[j];
    NoMatchUnchanged(pre, productId, size);
    assert forall j :: 0 <= j < |post| ==> post[j] == items[i + 1 + j];
    NoMatchUnchanged(post, productId, size);
  }

  /** Filtering keeps a cart valid: what remains is a sub-list. */
  lemma {:induction false} RemoveLinesValid(items: seq<CartItem>, productId: Id, size: string)
    requires CartValid(items)
    ensures CartValid(RemoveLines(items, productId, size))
  {
    if |items| > 0 {
      assert CartValid(items[1..]) by {
        assert forall i, j :: 0 <= i < j < |items| - 1 ==> items[1..][i] == items[i + 1] && items[1..][j] == items[j + 1];
      }
      RemoveLinesValid(items[1..], productId, size);
      var rest := RemoveLines(items[1..], productId, size);
      if !SameLine(items[0], productId, size) {
        var r := [items[0]] + rest;
        forall i, j | 0 <= i < j < |r|
          ensures !SameLine(r[j], r[i].productId, r[i].size)
        {
          if i == 0 {
            assert r[j] in items[1..];
          }
        }
      }
    }
  }

  /** `items[i].quantity = quantity`. */
  function SetQuantity(items: seq<CartItem>, i: nat, quantity: int): seq<CartItem>
    requires i < |items|
  {
    items[i := items[i].(quantity := quantity)]
  }

  /** The stock entry of a product in a size (`sizes.find(s => s.size === size)`). */
  function FindSize(sizes: seq<SizeEntry>, size: string): (e: Option<SizeEntry>)
    ensures e.Some? ==> e.value in sizes && e.value.size == size
    ensures e.None? <==> forall j :: 0 <= j < |sizes| ==> sizes[j].size != size
  {
    var i := SizeIndex(sizes, size);
    if i >= 0 then Some(sizes[i]) else None
  }

  /** The stock and product checks of `addToCart`. */
  function CheckAdd(products: map<Id, Product>, productId: Id, size: string, quantity: int): (r: Result<()>)
    ensures r.Ok? <==>
      productId in products && products[productId].isActive
      && FindSize(products[productId].sizes, size).Some? && FindSize(products[productId].sizes, size).value.stock >= quantity
    ensures r.Fail? ==> (r.code == NotFound <==> productId !in products || !products[productId].isActive)
  {
    if productId !in products || !products[productId].isActive then Fail(NotFound)
    else match FindSize(products[productId].sizes, size)
      case None => Fail(BadRequest)
      case Some(e) => if e.stock < quantity then Fail(BadRequest) else Ok(())
  }

  /** The cart a handler finds for the caller, or the empty one it creates. */
  function CartOf(carts: map<Id, seq<CartItem>>, userId: Id): seq<CartItem>
  {
    if userId in carts then carts[userId] else []
  }

  /** Merging keeps a valid cart valid exactly when the merged line's
      quantity stays at least 1; otherwise `save()` rejects it. */
  lemma {:induction false} AddLineValid(items: seq<CartItem>, productId: Id, size: string, quantity: int)
    requires CartValid(items)
    ensures CartValid(AddLine(items, productId, size, quantity)) <==> QuantityOf(items, productId, size) + quantity >= 1
  {
    AddLineEffect(items, productId, size, quantity, productId, size);
    var r := AddLine(items, productId, size, quantity);
    var i := FindLine(items, productId, size);
    if i >= 0 {
      assert SameLine(r[i], productId, size);
      assert forall j :: 0 <= j < |r| && j != i ==> r[j] == items[j];
    } else {
      assert SameLine(r[|items|], productId, size);
      assert forall j :: 0 <= j < |items| ==> r[j] == items[j];
    }
    var k := FindLine(r, productId, size);
    assert k >= 0 && r[k].quantity == QuantityOf(items, productId, size) + quantity;
  }

  /** The stock check looks at the requested quantity only: with a line
      already holding all the stock, adding the same amount again passes the
      check and leaves twice the stock in the cart. */
  lemma StockCheckIgnoresCart(products: map<Id, Product>, items: seq<CartItem>, productId: Id, size: string, stock: int)
    requires productId in products && products[productId].isActive
    requires FindSize(products[productId].sizes, size) == Some(SizeEntry(size, stock)) && stock > 0
    requires UniqueLines(items) && QuantityOf(items, productId, size) == stock
    ensures CheckAdd(products, productId, size, stock).Ok?
    ensures QuantityOf(AddLine(items, productId, size, stock), productId, size) == 2 * stock
  {
    AddLineEffect(items, productId, size, stock, productId, size);
  }

  /** `getCart`: the caller's cart, created empty when missing. */
  method GetCart(db: Db, a: Actor) returns (items: seq<CartItem>)
    requires db.Valid()
    modifies db`carts
    ensures db.Valid()
    ensures items == CartOf(old(db.carts), a.id)
    ensures db.carts == old(db.carts)[a.id := items]
  {
    items := CartOf(db.carts, a.id);
    db.carts := db.carts[a.id := items];
  }

  /** `addToCart`. The cart is created before the list edit, so it stays
      created when `save()` then rejects a quantity below 1 (500). */
  method AddToCart(db: Db, a: Actor, productId: Id, size: string, quantity: int) returns (r: Result<seq<CartItem>>)
    requires db.Valid()
    modifies db`carts
    ensures db.Valid()
    ensures var check := CheckAdd(db.products, productId, size, quantity);
      var cart := CartOf(old(db.carts), a.id);
      var merged := AddLine(cart, productId, size, quantity);
      && (check.Fail? ==> r == Fail(check.code) && db.carts == old(db.carts))
      && (check.Ok? && !CartValid(merged) ==> r == Fail(ServerError) && db.carts == old(db.carts)[a.id := cart])
      && (check.Ok? && CartValid(merged) ==> r == Ok(merged) && db.carts == old(db.carts)[a.id := merged])
  {
    var check := CheckAdd(db.products, productId, size, quantity);
    if check.Fail? {
      return Fail(check.code);
    }
    var cart := CartOf(db.carts, a.id);
    db.carts := db.carts[a.id := cart];
    var merged := AddLine(cart, productId, size, quantity);
    if !CartValid(merged) {
      return Fail(ServerError);
    }
    db.carts := db.carts[a.id := merged];
    r := Ok(merged);
  }

  /** What `updateCartItem` answers and saves, given the caller's cart. The
      product is not checked for being active here; a missing product or
      size makes `sizeData.stock` throw. */
  function UpdateOutcome(products: map<Id, Product>, cart: Option<seq<CartItem>>, productId: Id, size: string, quantity: int)
    : (r: Result<seq<CartItem>>)
    ensures cart.None? ==> r == Fail(NotFound)
    ensures cart.Some? && FindLine(cart.value, productId, size) == -1 ==> r == Fail(NotFound)
    ensures r.Ok? && quantity > 0 ==>
      productId in products && FindSize(products[productId].sizes, size).Some?
      && FindSize(products[productId].sizes, size).value.stock >= quantity
    ensures cart.Some? && FindLine(cart.value, productId, size) != -1 ==>
      && (quantity <= 0 ==> r == Ok(DropLine(cart.value, FindLine(cart.value, productId, size))))
      && (quantity > 0 && (productId !in products || FindSize(products[productId].sizes, size).None?) ==>
            r == Fail(ServerError))
      && (quantity > 0 && productId in products && FindSize(products[productId].sizes, size).Some? ==>
            && (r.Ok? <==> FindSize(products[productId].sizes, size).value.stock >= quantity)
            && (r.Fail? ==> r.code == BadRequest))
  {
    match cart
    case None => Fail(NotFound)
    case Some(items) =>
      var i := FindLine(items, productId, size);
      if i == -1 then Fail(NotFound)
      else if quantity <= 0 then Ok(DropLine(items, i))
      else if productId !in products then Fail(ServerError)
      else match FindSize(products[productId].sizes, size)
        case None => Fail(ServerError)
        case Some(e) => if e.stock < quantity then Fail(BadRequest) else Ok(SetQuantity(items, i, quantity))
  }

  /** A quantity of 0 or less removes the line; a positive one within stock
      becomes the line's exact quantity and no other line changes. Either way
      a valid cart stays valid. */
  lemma {:induction false} UpdateEffect(products: map<Id, Product>, items: seq<CartItem>, productId: Id, size: string, quantity: int,
                                        p: Id, s: string)
    requires CartValid(items)
    requires UpdateOutcome(products, Some(items), productId, size, quantity).Ok?
    ensures var u := UpdateOutcome(products, Some(items), productId, size, quantity).value;
      && CartValid(u)
      && (quantity <= 0 ==> u == RemoveLines(items, productId, size) && QuantityOf(u, productId, size) == 0)
      && (quantity > 0 ==> QuantityOf(u, productId, size) == quantity)
      && ((p != productId || s != size) ==> QuantityOf(u, p, s) == QuantityOf(items, p, s))
  {
    var i := FindLine(items, productId, size);
    var u := UpdateOutcome(products, Some(items), productId, size, quantity).value;
    if quantity <= 0 {
      DropIsRemove(items, productId, size);
      RemoveLinesValid(items, productId, size);
      assert FindLine(u, productId, size) == -1;
      if p != productId || s != size {
        RemoveKeepsOthers(items, productId, size, p, s);
      }
    } else {
      assert forall j :: 0 <= j < |items| ==> u[j].productId == items[j].productId && u[j].size == items[j].size;
      FindLineSameKeys(items, u, productId, size);
      FindLineSameKeys(items, u, p, s);
      assert forall j :: 0 <= j < |u| && j != i ==> u[j] == items[j];
    }
  }

  /** Filtering one key out leaves the quantity of every other key, when the
      lines are unique. */
  lemma {:induction false} RemoveKeepsOthers(items: seq<CartItem>, productId: Id, size: string, p: Id, s: string)
    requires (p != productId || s != size)
    ensures QuantityOf(RemoveLines(items, productId, size), p, s) == QuantityOf(items, p, s)
  {
    if |items| > 0 {
      RemoveKeepsOthers(items[1..], productId, size, p, s);
    }
  }

  /** `updateCartItem`. */
  method UpdateCartItem(db: Db, a: Actor, productId: Id, size: string, quantity: int) returns (r: Result<seq<CartItem>>)
    requires db.Valid()
    modifies db`carts
    ensures db.Valid()
    ensures var cart := if a.id in old(db.carts) then Some(old(db.carts)[a.id]) else None;
      && r == UpdateOutcome(db.products, cart, productId, size, quantity)
      && db.carts == (if r.Ok? then old(db.carts)[a.id := r.value] else old(db.carts))
  {
    var cart := if a.id in db.carts then Some(db.carts[a.id]) else None;
    r := UpdateOutcome(db.products, cart, productId, size, quantity);
    if r.Ok? {
      UpdateEffect(db.products, cart.value, productId, size, quantity, productId, size);
      db.carts := db.carts[a.id := r.value];
    }
  }

  /** `removeFromCart`: 404 without a cart; otherwise the filter, which also
      succeeds when nothing matches. */
  method RemoveFromCart(db: Db, a: Actor, productId: Id, size: string) returns (r: Result<seq<CartItem>>)
    requires db.Valid()
    modifies db`carts
    ensures db.Valid()
    ensures a.id !in old(db.carts) ==> r == Fail(NotFound) && db.carts == old(db.carts)
    ensures a.id in old(db.carts) ==>
      r == Ok(RemoveLines(old(db.carts)[a.id], productId, size)) && db.carts == old(db.carts)[a.id := r.value]
  {
    if a.id !in db.carts {
      return Fail(NotFound);
    }
    RemoveLinesValid(db.carts[a.id], productId, size);
    var items := RemoveLines(db.carts[a.id], productId, size);
    db.carts := db.carts[a.id := items];
    r := Ok(items);
  }

  /** `clearCart`. */
  method ClearCart(db: Db, a: Actor) returns (r: Result<seq<CartItem>>)
    requires db.Valid()
    modifies db`carts
    ensures db.Valid()
    ensures a.id !in old(db.carts) ==> r == Fail(NotFound) && db.carts == old(db.carts)
    ensures a.id in old(db.carts) ==> r == Ok([]) && db.carts == old(db.carts)[a.id := []]
  {
    if a.id !in db.carts {
      return Fail(NotFound);
    }
    db.carts := db.carts[a.id := []];
    r := Ok([]);
  }
}
