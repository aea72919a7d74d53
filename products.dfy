/** `controllers/productController.js`: the shop catalogue. Listing and
    fetching are open to every caller; creating needs admin or director;
    updating, soft deletion and stock changes need admin. */
module Products {
  import opened Common
  import opened Entities
  import opened Store
  import opened Carts

  /** The size names the product schema accepts for a stock entry. */
  const SizeNames: set<string> := {"XS", "S", "M", "L", "XL", "XXL", "OneSize"}

  /** `getAllProducts`: the active products, of one category when a
      category is given. */
  function ListProducts(products: map<Id, Product>, category: Option<string>): (r: set<Id>)
    ensures forall id :: id in r ==> id in products && products[id].isActive
    ensures Given(category) ==> forall id :: id in r ==> products[id].category == category.value
    ensures forall id :: id in products && products[id].isActive ==>
      (id in r <==> !Given(category) || products[id].category == category.value)
  {
    set id | id in products && products[id].isActive && (!Given(category) || products[id].category == category.value)
  }

  /** `getProductById`: any stored product, active or not. */
  function GetProductById(products: map<Id, Product>, id: Id): (r: Result<Product>)
    ensures r.Ok? <==> id in products
    ensures r.Ok? ==> r.value == products[id]
    ensures r.Fail? ==> r.code == NotFound
  {
    if id in products then Ok(products[id]) else Fail(NotFound)
  }

  /** The document `createProduct` asks `Product.create` for. `price` is
      `None` when `parseFloat` gives `NaN`; a missing or empty name or
      description, a category outside the enum or a `NaN` price fails schema
      validation (500). */
  function NewProduct(a: Actor, name: Option<string>, description: Option<string>, category: Option<string>,
                      price: Option<int>, uploaded: seq<string>): (r: Result<Product>)
    ensures r.Ok? <==>
      IsAdminOrDirector(a) && Given(name) && Given(description)
      && category.Some? && category.value in ProductCategories && price.Some?
    ensures !IsAdminOrDirector(a) ==> r == Fail(Forbidden)
    ensures IsAdminOrDirector(a) && r.Fail? ==> r.code == ServerError
    ensures r.Ok? ==> r.value.sizes == [] && r.value.isActive && r.value.images == uploaded
    ensures r.Ok? ==>
      r.value.name == name.value && r.value.description == description.value
      && r.value.category == category.value && r.value.price == price.value
  {
    if !IsAdminOrDirector(a) then Fail(Forbidden)
    else if !Given(name) || !Given(description) || category.None? || category.value !in ProductCategories || price.None? then
      Fail(ServerError)
    else Ok(Product(name.value, description.value, category.value, price.value, uploaded, [], true))
  }

  /** `createProduct`; `productId` is the id the database assigns. */
  method CreateProduct(db: Db, a: Actor, name: Option<string>, description: Option<string>, category: Option<string>,
                       price: Option<int>, uploaded: seq<string>, productId: Id) returns (r: Result<Product>)
    requires productId !in db.products
    modifies db`products
    ensures r == NewProduct(a, name, description, category, price, uploaded)
    ensures db.products == if r.Ok? then old(db.products)[productId := r.value] else old(db.products)
  {
    r := NewProduct(a, name, description, category, price, uploaded);
    if r.Ok? {
      db.products := db.products[productId := r.value];
    }
  }

  /** The fields of a `updateProduct` body; `None` is a field left out. */
  datatype ProductPatch = ProductPatch(
    name: Option<string>,
    description: Option<string>,
    category: Option<string>,
    price: Option<int>,
    images: Option<seq<string>>,
    sizes: Option<seq<SizeEntry>>,
    isActive: Option<bool>)

  /** What the update validators accept: a required string may not be set
      to "", the category and every size name must be in their enums. */
  predicate PatchValid(patch: ProductPatch)
  {
    && (patch.name.Some? ==> patch.name.value != "")
    && (patch.description.Some? ==> patch.description.value != "")
    && (patch.category.Some? ==> patch.category.value in ProductCategories)
    && (patch.sizes.Some? ==> forall j :: 0 <= j < |patch.sizes.value| ==> patch.sizes.value[j].size in SizeNames)
  }

  /** Every field the body names is replaced; the others are kept. */
  function Patched(p: Product, patch: ProductPatch): Product
  {
    Product(
      if patch.name.Some? then patch.name.value else p.name,
      if patch.description.Some? then patch.description.value else p.description,
      if patch.category.Some? then patch.category.value else p.category,
      if patch.price.Some? then patch.price.value else p.price,
      if patch.images.Some? then patch.images.value else p.images,
      if patch.sizes.Some? then patch.sizes.value else p.sizes,
      if patch.isActive.Some? then patch.isActive.value else p.isActive)
  }

  /** `updateProduct`: admin only; the validators run before the lookup, so
      an invalid body fails with 500 even for a missing product. */
  function UpdateOutcome(products: map<Id, Product>, a: Actor, id: Id, patch: ProductPatch): (r: Result<Product>)
    ensures r.Ok? <==> Includes(a.userType, Admin) && PatchValid(patch) && id in products
    ensures !Includes(a.userType, Admin) ==> r == Fail(Forbidden)
    ensures Includes(a.userType, Admin) && !PatchValid(patch) ==> r == Fail(ServerError)
    ensures r.Ok? ==> r.value == Patched(products[id], patch)
  {
    if !Includes(a.userType, Admin) then Fail(Forbidden)
    else if !PatchValid(patch) then Fail(ServerError)
    else if id !in products then Fail(NotFound)
    else Ok(Patched(products[id], patch))
  }

  /** An empty body changes nothing. */
  lemma EmptyPatchKeeps(p: Product)
    ensures Patched(p, ProductPatch(None, None, None, None, None, None, None)) == p
  {
  }

  method UpdateProduct(db: Db, a: Actor, id: Id, patch: ProductPatch) returns (r: Result<Product>)
    modifies db`products
    ensures r == UpdateOutcome(old(db.products), a, id, patch)
    ensures db.products == if r.Ok? then old(db.products)[id := r.value] else old(db.products)
  {
    r := UpdateOutcome(db.products, a, id, patch);
    if r.Ok? {
      db.products := db.products[id := r.value];
    }
  }

  /** `deleteProduct`: a soft delete, admin only. */
  method DeleteProduct(db: Db, a: Actor, id: Id) returns (r: Result<()>)
    modifies db`products
    ensures !Includes(a.userType, Admin) ==> r == Fail(Forbidden) && db.products == old(db.products)
    ensures Includes(a.userType, Admin) && id !in old(db.products) ==> r == Fail(NotFound) && db.products == old(db.products)
    ensures Includes(a.userType, Admin) && id in old(db.products) ==>
      r == Ok(()) && db.products == old(db.products)[id := old(db.products)[id].(isActive := false)]
  {
    if !Includes(a.userType, Admin) {
      return Fail(Forbidden);
    }
    if id !in db.products {
      return Fail(NotFound);
    }
    db.products := db.products[id := db.products[id].(isActive := false)];
    r := Ok(());
  }

  /** A deleted product leaves every listing and can no longer be put into a
      cart, while it can still be fetched by id; no other product's listing
      changes. */
  lemma {:induction false} DeletedHidden(products: map<Id, Product>, id: Id, category: Option<string>, size: string, quantity: int)
    requires id in products
    ensures var after := products[id := products[id].(isActive := false)];
      && id !in ListProducts(after, category)
      && CheckAdd(after, id, size, quantity) == Fail(NotFound)
      && GetProductById(after, id).Ok?
      && (forall other :: other != id ==> (other in ListProducts(after, category) <==> other in ListProducts(products, category)))
  {
    var after := products[id := products[id].(isActive := false)];
    forall other | other != id
      ensures other in ListProducts(after, category) <==> other in ListProducts(products, category)
    {
      if other in products {
        assert after[other] == products[other];
      }
    }
  }

  /** The product after its `k`-th stock entry is set to `stock`. */
  function WithStock(p: Product, k: nat, stock: int): Product
    requires k < |p.sizes|
  {
    p.(sizes := p.sizes[k := p.sizes[k].(stock := stock)])
  }

  /** `updateStock`. A stock the schema cannot cast to a number (or none at
      all) fails on save with 500. */
  method UpdateStock(db: Db, a: Actor, id: Id, size: string, stock: Option<int>) returns (r: Result<Product>)
    modifies db`products
    ensures !Includes(a.userType, Admin) ==> r == Fail(Forbidden)
    ensures Includes(a.userType, Admin) && id !in old(db.products) ==> r == Fail(NotFound)
    ensures Includes(a.userType, Admin) && id in old(db.products) ==>
      var p := old(db.products)[id];
      var k := SizeIndex(p.sizes, size);
      && (k == -1 ==> r == Fail(NotFound))
      && (k >= 0 && stock.None? ==> r == Fail(ServerError))
      && (k >= 0 && stock.Some? ==> r == Ok(WithStock(p, k, stock.value)))
    ensures db.products == if r.Ok? then old(db.products)[id := r.value] else old(db.products)
  {
    if !Includes(a.userType, Admin) {
      return Fail(Forbidden);
    }
    if id !in db.products {
      return Fail(NotFound);
    }
    var p := db.products[id];
    var k := SizeIndex(p.sizes, size);
    if k == -1 {
      return Fail(NotFound);
    }
    if stock.None? {
      return Fail(ServerError);
    }
    var updated := WithStock(p, k, stock.value);
    db.products := db.products[id := updated];
    r := Ok(updated);
  }

  /** Setting a size's stock changes that size's entry only: it now holds
      exactly `stock`, every other size finds the entry it found before, and
      `addToCart` then accepts that size up to the new stock. */
  lemma {:induction false} StockSetReadBack(products: map<Id, Product>, id: Id, size: string, stock: int, quantity: int)
    requires id in products && SizeIndex(products[id].sizes, size) >= 0
    ensures var p := products[id];
      var q := WithStock(p, SizeIndex(p.sizes, size), stock);
      && FindSize(q.sizes, size) == Some(SizeEntry(size, stock))
      && (forall other :: other != size ==> FindSize(q.sizes, other) == FindSize(p.sizes, other))
      && (p.isActive ==> (CheckAdd(products[id := q], id, size, quantity).Ok? <==> quantity <= stock))
  {
    var p := products[id];
    var k := SizeIndex(p.sizes, size);
    var q := WithStock(p, k, stock);
    forall other | true
      ensures SizeIndex(q.sizes, other) == SizeIndex(p.sizes, other)
    {
      SizeIndexSameNames(p.sizes, q.sizes, other);
    }
    forall other | other != size
      ensures FindSize(q.sizes, other) == FindSize(p.sizes, other)
    {
      var j := SizeIndex(p.sizes, other);
      if j >= 0 {
        assert j != k;
      }
    }
  }
}
