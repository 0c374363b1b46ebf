/**
 * The product routes (routes/products.js): the public, admin and
 * per-category listings by name, lookup, create with the `input_fields`
 * array check, update with fallbacks, and the delete that is refused while
 * packages still point at the product.
 */
module Products {
  import opened Js
  import opened Ordering
  import opened Store
  import Orders

  const NotFoundError := "Product not found"
  const DuplicateSlug := "Product with this slug already exists"
  const InvalidFields := "Invalid input_fields format"

  /** The body of a create or update request. `enabled` is the value after
      `Boolean(...)`, absent when the field was left out. */
  datatype ProductInput = ProductInput(
    categoryId: Field<int>,
    name: Field<string>,
    slug: Field<string>,
    description: Field<string>,
    imageUrl: Field<string>,
    serviceType: Field<string>,
    inputFields: Field<Json>,
    enabled: Option<bool>)

  /** `typeof v === 'string' ? JSON.parse(v) : v`, which must be an array;
      `parse` stands for `JSON.parse` and yields None where it throws. */
  function ParseInputFields(v: Json, parse: string -> Option<Json>): (r: Option<seq<Json>>)
    ensures v.JArray? ==> r == Some(v.items)
    ensures v.JString? ==> (r.Some? <==> parse(v.s).Some? && parse(v.s).value.JArray?)
    ensures v.JString? && r.Some? ==> r.value == parse(v.s).value.items
    ensures !v.JArray? && !v.JString? ==> r.None?
  {
    match v
    case JArray(items) => Some(items)
    case JString(s) =>
      (match parse(s)
       case Some(JArray(items)) => Some(items)
       case _ => None)
    case _ => None
  }

  /** Which products a listing keeps: the public listing only enabled ones,
      the admin listing all, the category listing the enabled ones of one
      category. */
  datatype Scope = Public | Admin | InCategory(categoryId: int)

  predicate InScope(s: Scope, p: Product) {
    match s
    case Public => p.enabled
    case Admin => true
    case InCategory(cid) => p.enabled && p.categoryId == cid
  }

  /** `orderBy: { name: 'asc' }`, ties in id order. */
  predicate NameOrder(a: Product, b: Product) {
    TextLess(a.name, b.name) || (a.name == b.name && a.id < b.id)
  }

  /** GET / , GET /admin and GET /category/:categoryId */
  method List(c: Catalog, s: Scope) returns (r: seq<ProductView>)
    requires Valid(c)
    ensures forall i :: 0 <= i < |r| ==>
      r[i].product.id in c.products && r[i] == ViewOf(c, c.products[r[i].product.id])
    ensures forall id :: id in c.products && InScope(s, c.products[id]) <==>
      exists i :: 0 <= i < |r| && r[i].product.id == id
    ensures forall i, j :: 0 <= i < j < |r| ==> NameOrder(r[i].product, r[j].product)
  {
    var keys := map id | id in c.products && InScope(s, c.products[id]) :: SortKey(c.products[id].name, 0.0, id);
    var ids := OrderIds(keys);
    r := seq(|ids|, i requires 0 <= i < |ids| => ViewOf(c, c.products[ids[i]]));
    forall id | id in c.products && InScope(s, c.products[id])
      ensures exists i :: 0 <= i < |r| && r[i].product.id == id
    {
      assert id in keys && id in ids;
      var i :| 0 <= i < |ids| && ids[i] == id;
      assert r[i].product.id == id;
    }
    forall i, j | 0 <= i < j < |r| ensures NameOrder(r[i].product, r[j].product) {
      assert KeyLess(keys[ids[i]], keys[ids[j]]);
    }
  }

  /** GET /:id */
  function Get(c: Catalog, id: int): (r: Response<ProductView>)
    requires Valid(c)
    ensures id !in c.products <==> r == Fail(404, NotFoundError)
    ensures r.Ok? ==> r.value.product == c.products[id]
    ensures r.Ok? ==> r.value.categoryName == c.categories[c.products[id].categoryId].name
    ensures r.Ok? ==> r.value == ViewOf(c, c.products[id])
    ensures r.Ok? ==> r.value.categorySlug == c.categories[c.products[id].categoryId].slug
  {
    if id in c.products then Ok(ViewOf(c, c.products[id])) else Fail(404, NotFoundError)
  }

  /** The fields create cannot do without. */
  predicate HasRequired(b: ProductInput) {
    TruthyInt(b.categoryId) && TruthyText(b.name) && TruthyText(b.slug)
    && TruthyText(b.serviceType) && TruthyJson(b.inputFields)
  }

  /** POST / : the new product gets the fresh id `nextId` and the creation
      time `now`. A duplicate slug is reported before an unknown category,
      which fails the foreign key and ends in 500. */
  function Create(c: Catalog, b: ProductInput, nextId: int, now: int, parse: string -> Option<Json>)
    : (r: Response<(Catalog, ProductView)>)
    requires Valid(c) && nextId !in c.products
    ensures !HasRequired(b) ==> r == Fail(400, "Missing required fields")
    ensures HasRequired(b) && ParseInputFields(b.inputFields.value, parse).None? ==> r == Fail(400, InvalidFields)
    ensures HasRequired(b) && ParseInputFields(b.inputFields.value, parse).Some? && ProductSlugUsed(c, b.slug.value, nextId)
            ==> r == Fail(400, DuplicateSlug)
    ensures r.Ok? <==>
      && HasRequired(b) && ParseInputFields(b.inputFields.value, parse).Some?
      && !ProductSlugUsed(c, b.slug.value, nextId) && b.categoryId.value in c.categories
    ensures r.Ok? ==>
      var (c', v) := r.value;
      var p := v.product;
      && p.id == nextId && p.createdAt == now
      && p.categoryId == b.categoryId.value && p.name == b.name.value && p.slug == b.slug.value
      && p.description == TextOrNull(b.description) && p.imageUrl == TextOrNull(b.imageUrl)
      && p.serviceType == b.serviceType.value
      && p.inputFields == ParseInputFields(b.inputFields.value, parse).value
      && p.enabled == b.enabled.GetOr(true)
      && c' == c.(products := c.products[nextId := p])
      && p.categoryId in c'.categories && v == ViewOf(c', p)
      && Valid(c')
  {
    if !HasRequired(b) then Fail(400, "Missing required fields")
    else
      match ParseInputFields(b.inputFields.value, parse)
      case None => Fail(400, InvalidFields)
      case Some(fields) =>
        if ProductSlugUsed(c, b.slug.value, nextId) then Fail(400, DuplicateSlug)
        else if b.categoryId.value !in c.categories then Fail(500, InternalError)
        else
          var p := Product(
            nextId, b.categoryId.value, b.name.value, b.slug.value,
            TextOrNull(b.description), TextOrNull(b.imageUrl), b.serviceType.value,
            fields, b.enabled.GetOr(true), now);
          var c' := c.(products := c.products[nextId := p]);
          Ok((c', ViewOf(c', p)))
  }

  /** PUT /:id : a falsy category, name, slug or service type keeps the stored
      one; a description or image left out keeps the stored one and a `null`
      clears it; `input_fields` is replaced only when it is sent, truthy and
      an array. */
  function Update(c: Catalog, id: int, b: ProductInput, parse: string -> Option<Json>)
    : (r: Response<(Catalog, ProductView)>)
    requires Valid(c)
    ensures id !in c.products ==> r == Fail(404, NotFoundError)
    ensures id in c.products && TruthyJson(b.inputFields) && ParseInputFields(b.inputFields.value, parse).None?
            ==> r == Fail(400, InvalidFields)
    ensures id in c.products && !(TruthyJson(b.inputFields) && ParseInputFields(b.inputFields.value, parse).None?) ==>
      var e := c.products[id];
      var slug := if TruthyText(b.slug) then b.slug.value else e.slug;
      var categoryId := if TruthyInt(b.categoryId) then b.categoryId.value else e.categoryId;
      && (ProductSlugUsed(c, slug, id) ==> r == Fail(400, DuplicateSlug))
      && (!ProductSlugUsed(c, slug, id) && categoryId !in c.categories ==> r == Fail(500, InternalError))
      && (r.Ok? <==> !ProductSlugUsed(c, slug, id) && categoryId in c.categories)
    ensures r.Fail? ==> r.status in {400, 404, 500}
    ensures r.Ok? ==>
      var (c', v) := r.value;
      var e := c.products[id];
      var p := v.product;
      && id in c.products
      && p.id == id && p.createdAt == e.createdAt
      && p.categoryId == (if TruthyInt(b.categoryId) then b.categoryId.value else e.categoryId)
      && p.name == (if TruthyText(b.name) then b.name.value else e.name)
      && p.slug == (if TruthyText(b.slug) then b.slug.value else e.slug)
      && p.description == (if b.description.Absent? then e.description else ValueOrNull(b.description))
      && p.imageUrl == (if b.imageUrl.Absent? then e.imageUrl else ValueOrNull(b.imageUrl))
      && p.serviceType == (if TruthyText(b.serviceType) then b.serviceType.value else e.serviceType)
      && p.inputFields == (if TruthyJson(b.inputFields) then ParseInputFields(b.inputFields.value, parse).value
                           else e.inputFields)
      && p.enabled == b.enabled.GetOr(e.enabled)
      && c' == c.(products := c.products[id := p])
      && p.categoryId in c'.categories && v == ViewOf(c', p)
      && Valid(c')
  {
    if id !in c.products then Fail(404, NotFoundError)
    else
      var e := c.products[id];
      var fields :=
        if TruthyJson(b.inputFields) then ParseInputFields(b.inputFields.value, parse) else Some(e.inputFields);
      if fields.None? then Fail(400, InvalidFields)
      else
        var p := Product(
          id,
          if TruthyInt(b.categoryId) then b.categoryId.value else e.categoryId,
          TextOr(b.name, e.name), TextOr(b.slug, e.slug),
          TextOrKeep(b.description, e.description), TextOrKeep(b.imageUrl, e.imageUrl),
          TextOr(b.serviceType, e.serviceType), fields.value, b.enabled.GetOr(e.enabled), e.createdAt);
        if ProductSlugUsed(c, p.slug, id) then Fail(400, DuplicateSlug)
        else if p.categoryId !in c.categories then Fail(500, InternalError)
        else
          var c' := c.(products := c.products[id := p]);
          Ok((c', ViewOf(c', p)))
  }

  /** DELETE /:id with the stored orders `t`: refused while any package has
      this product (checked before the product is looked up); a product that
      an order names breaks the orders' foreign key, which the handler reports
      as 500; otherwise only that row goes. */
  function Delete(c: Catalog, t: Orders.OrderTable, id: int): (r: Response<Catalog>)
    requires Valid(c)
    ensures HasPackages(c, id) <==> r == Fail(400, "Cannot delete product with existing packages")
    ensures !HasPackages(c, id) && id !in c.products <==> r == Fail(404, NotFoundError)
    ensures !HasPackages(c, id) && id in c.products && Orders.OrdersProduct(t, id) <==> r == Fail(500, InternalError)
    ensures r.Ok? <==> !HasPackages(c, id) && id in c.products && !Orders.OrdersProduct(t, id)
    ensures r.Ok? ==> r.value == c.(products := c.products - {id}) && id in c.products
    ensures r.Ok? ==> Valid(r.value)
  {
    if HasPackages(c, id) then Fail(400, "Cannot delete product with existing packages")
    else if id !in c.products then Fail(404, NotFoundError)
    else if Orders.OrdersProduct(t, id) then Fail(500, InternalError)
    else Ok(c.(products := c.products - {id}))
  }

  /** A created product is what a lookup of its id returns afterwards. */
  lemma CreateThenGet(c: Catalog, b: ProductInput, nextId: int, now: int, parse: string -> Option<Json>)
    requires Valid(c) && nextId !in c.products
    requires Create(c, b, nextId, now, parse).Ok?
    ensures var (c', v) := Create(c, b, nextId, now, parse).value;
            Get(c', nextId) == Ok(v)
  {
  }

  /** An update that sends nothing writes back the row as it was. */
  lemma UpdateWithEmptyBodyKeepsRow(c: Catalog, id: int, parse: string -> Option<Json>)
    requires Valid(c) && id in c.products
    ensures var nothing := ProductInput(Absent, Absent, Absent, Absent, Absent, Absent, Absent, None);
            Update(c, id, nothing, parse) == Ok((c, ViewOf(c, c.products[id])))
  {
    assert c.(products := c.products[id := c.products[id]]) == c;
  }
}
