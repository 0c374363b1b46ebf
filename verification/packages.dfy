/**
 * The package routes (routes/packages.js): the public and admin listings of
 * one product's packages by price, lookup, create and update with the price
 * check, and the unguarded delete. Only the product, name, description,
 * price and enabled flag are written; the image, download and file-type
 * fields the admin pages send are dropped.
 */
module Packages {
  import opened Js
  import opened Ordering
  import opened Store
  import Orders

  const NotFoundError := "Package not found"
  const BadPrice := "Price must be a valid positive number"

  /** The body of a create or update request. `price` is the body value as
      `isNaN` sees it; `enabled` is the value after `Boolean(...)`. */
  datatype PackageInput = PackageInput(
    productId: Field<int>,
    name: Field<string>,
    description: Field<string>,
    price: Numeric,
    enabled: Option<bool>,
    imageUrl: Field<string>,
    downloadUrl: Field<string>,
    fileType: Field<string>)

  /** `isNaN(price) || price < 0` */
  predicate PriceRejected(price: Numeric)
    requires !price.Undefined?
  {
    price.NaN? || price.value < 0.0
  }

  /** `orderBy: { price: 'asc' }`, ties in id order. */
  predicate PriceOrder(a: Package, b: Package) {
    a.price < b.price || (a.price == b.price && a.id < b.id)
  }

  /** GET /product/:productId (only enabled packages) and
      GET /product/:productId/admin (all of them). */
  method List(c: Catalog, productId: int, enabledOnly: bool) returns (r: seq<Package>)
    requires Valid(c)
    ensures forall i :: 0 <= i < |r| ==> r[i].id in c.packages && r[i] == c.packages[r[i].id]
    ensures forall id :: (id in c.packages && c.packages[id].productId == productId
                          && (enabledOnly ==> c.packages[id].enabled))
                         <==> exists i :: 0 <= i < |r| && r[i].id == id
    ensures forall i, j :: 0 <= i < j < |r| ==> PriceOrder(r[i], r[j])
  {
    var keys := map id | id in c.packages && c.packages[id].productId == productId
                         && (enabledOnly ==> c.packages[id].enabled)
                      :: SortKey("", c.packages[id].price, id);
    var ids := OrderIds(keys);
    r := seq(|ids|, i requires 0 <= i < |ids| => c.packages[ids[i]]);
    forall id | id in c.packages && c.packages[id].productId == productId && (enabledOnly ==> c.packages[id].enabled)
      ensures exists i :: 0 <= i < |r| && r[i].id == id
    {
      assert id in keys && id in ids;
      var i :| 0 <= i < |ids| && ids[i] == id;
      assert r[i].id == id;
    }
    forall i, j | 0 <= i < j < |r| ensures PriceOrder(r[i], r[j]) {
      assert KeyLess(keys[ids[i]], keys[ids[j]]);
    }
  }

  /** GET /:id */
  function Get(c: Catalog, id: int): (r: Response<Package>)
    ensures id !in c.packages <==> r == Fail(404, NotFoundError)
    ensures r.Ok? ==> r.value == c.packages[id]
  {
    if id in c.packages then Ok(c.packages[id]) else Fail(404, NotFoundError)
  }

  /** POST / : the new package gets the fresh id `nextId`. An unknown product
      fails the foreign key and ends in 500. */
  function Create(c: Catalog, b: PackageInput, nextId: int): (r: Response<(Catalog, Package)>)
    requires Valid(c) && nextId !in c.packages
    ensures !TruthyInt(b.productId) || !TruthyText(b.name) || b.price.Undefined?
            ==> r == Fail(400, "Product ID, name, and price are required")
    ensures TruthyInt(b.productId) && TruthyText(b.name) && !b.price.Undefined? && PriceRejected(b.price)
            ==> r == Fail(400, BadPrice)
    ensures r.Ok? <==>
      && TruthyInt(b.productId) && TruthyText(b.name) && !b.price.Undefined? && !PriceRejected(b.price)
      && b.productId.value in c.products
    ensures r.Ok? ==>
      var (c', p) := r.value;
      && p == Package(nextId, b.productId.value, b.name.value, TextOrNull(b.description),
                      b.price.value, b.enabled.GetOr(true))
      && p.price >= 0.0
      && c' == c.(packages := c.packages[nextId := p])
      && Valid(c')
  {
    if !TruthyInt(b.productId) || !TruthyText(b.name) || b.price.Undefined? then
      Fail(400, "Product ID, name, and price are required")
    else if PriceRejected(b.price) then Fail(400, BadPrice)
    else if b.productId.value !in c.products then Fail(500, InternalError)
    else
      var p := Package(nextId, b.productId.value, b.name.value, TextOrNull(b.description),
                       b.price.value, b.enabled.GetOr(true));
      Ok((c.(packages := c.packages[nextId := p]), p))
  }

  /** PUT /:id : a falsy name keeps the stored one; a description left out
      keeps the stored one and a `null` clears it; a price or flag left out
      keeps the stored one. The product cannot be changed. */
  function Update(c: Catalog, id: int, b: PackageInput): (r: Response<(Catalog, Package)>)
    requires Valid(c)
    ensures id !in c.packages <==> r == Fail(404, NotFoundError)
    ensures id in c.packages && !b.price.Undefined? && PriceRejected(b.price) <==> r == Fail(400, BadPrice)
    ensures r.Ok? <==> id in c.packages && (b.price.Undefined? || !PriceRejected(b.price))
    ensures r.Ok? ==>
      var (c', p) := r.value;
      var e := c.packages[id];
      && p.id == id && p.productId == e.productId
      && p.name == (if TruthyText(b.name) then b.name.value else e.name)
      && p.description == (if b.description.Absent? then e.description else ValueOrNull(b.description))
      && p.price == (if b.price.Num? then b.price.value else e.price)
      && (b.price.Num? ==> p.price >= 0.0)
      && p.enabled == b.enabled.GetOr(e.enabled)
      && c' == c.(packages := c.packages[id := p])
      && Valid(c')
  {
    if id !in c.packages then Fail(404, NotFoundError)
    else if !b.price.Undefined? && PriceRejected(b.price) then Fail(400, BadPrice)
    else
      var e := c.packages[id];
      var p := Package(
        id, e.productId, TextOr(b.name, e.name), TextOrKeep(b.description, e.description),
        if b.price.Num? then b.price.value else e.price, b.enabled.GetOr(e.enabled));
      Ok((c.(packages := c.packages[id := p]), p))
  }

  /** DELETE /:id with the stored orders `t`: the handler checks nothing
      itself; an unknown id is reported as 404, and a package that an order
      names breaks the orders' foreign key, which is reported as 500. */
  function Delete(c: Catalog, t: Orders.OrderTable, id: int): (r: Response<Catalog>)
    requires Valid(c)
    ensures id !in c.packages <==> r == Fail(404, NotFoundError)
    ensures id in c.packages && Orders.OrdersPackage(t, id) <==> r == Fail(500, InternalError)
    ensures r.Ok? <==> id in c.packages && !Orders.OrdersPackage(t, id)
    ensures r.Ok? ==> r.value == c.(packages := c.packages - {id}) && Valid(r.value)
  {
    if id !in c.packages then Fail(404, NotFoundError)
    else if Orders.OrdersPackage(t, id) then Fail(500, InternalError)
    else Ok(c.(packages := c.packages - {id}))
  }

  /** The image, download and file-type fields of a request never reach the
      table: create and update give the same outcome whatever they hold. */
  lemma ExtraFieldsIgnored(c: Catalog, b: PackageInput, nextId: int, id: int,
                           imageUrl: Field<string>, downloadUrl: Field<string>, fileType: Field<string>)
    requires Valid(c) && nextId !in c.packages
    ensures var b' := b.(imageUrl := imageUrl, downloadUrl := downloadUrl, fileType := fileType);
            Create(c, b', nextId) == Create(c, b, nextId) && Update(c, id, b') == Update(c, id, b)
  {
  }

  /** When every stored price is non-negative, it stays so after any
      successful create or update. */
  lemma PricesStayNonNegative(c: Catalog, b: PackageInput, nextId: int, id: int)
    requires Valid(c) && nextId !in c.packages
    requires forall k :: k in c.packages ==> c.packages[k].price >= 0.0
    ensures Create(c, b, nextId).Ok? ==>
      var c' := Create(c, b, nextId).value.0;
      forall k :: k in c'.packages ==> c'.packages[k].price >= 0.0
    ensures Update(c, id, b).Ok? ==>
      var c' := Update(c, id, b).value.0;
      forall k :: k in c'.packages ==> c'.packages[k].price >= 0.0
  {
  }

  /** A created package is what a lookup of its id returns afterwards. */
  lemma CreateThenGet(c: Catalog, b: PackageInput, nextId: int)
    requires Valid(c) && nextId !in c.packages
    requires Create(c, b, nextId).Ok?
    ensures Get(Create(c, b, nextId).value.0, nextId) == Ok(Create(c, b, nextId).value.1)
  {
  }
}
