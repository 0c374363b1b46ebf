/**
 * The order routes (routes/orders.js): checkout creates an order that
 * snapshots the product, category and package names and the package price
 * with status pending; the admin pages list, read and re-status orders.
 *
 * As written, the handler reads only `product_id`, `package_id` and
 * `user_data`: promo and discount fields in the body change nothing, and the
 * package is looked up by id and enabled flag alone, so a package of another
 * product is accepted.
 */
module Orders {
  import opened Js
  import opened Ordering
  import opened Store

  const NotFoundError := "Order not found"

  datatype OrderStatus = Pending | Processing | Completed | Cancelled

  function StatusName(s: OrderStatus): string {
    match s
    case Pending => "pending"
    case Processing => "processing"
    case Completed => "completed"
    case Cancelled => "cancelled"
  }

  /** `['pending', 'processing', 'completed', 'cancelled'].includes(status)` */
  function ParseStatus(s: string): (r: Option<OrderStatus>)
    ensures r.Some? ==> StatusName(r.value) == s
  {
    if s == "pending" then Some(Pending)
    else if s == "processing" then Some(Processing)
    else if s == "completed" then Some(Completed)
    else if s == "cancelled" then Some(Cancelled)
    else None
  }

  /** Parsing accepts exactly the four status names, each for its status. */
  lemma ParseStatusExact(s: string, st: OrderStatus)
    ensures ParseStatus(s) == Some(st) <==> s == StatusName(st)
  {
  }

  /** The `user_data` object: the customer's answers, as key/value entries in
      insertion order. */
  type UserData = seq<(string, string)>

  /** A stored order: a snapshot taken when it was placed. */
  datatype Order = Order(
    id: int,
    productId: int,
    packageId: int,
    productName: string,
    categoryName: string,
    packageName: string,
    price: real,
    userData: UserData,
    status: OrderStatus,
    createdAt: int)

  type OrderTable = map<int, Order>

  ghost predicate Valid(t: OrderTable) {
    forall id :: id in t ==> t[id].id == id
  }

  /** Some stored order names the product (`orders.product_id REFERENCES
      products(id)`). */
  predicate OrdersProduct(t: OrderTable, productId: int) {
    exists id | id in t :: t[id].productId == productId
  }

  /** Some stored order names the package (`orders.package_id REFERENCES
      packages(id)`). */
  predicate OrdersPackage(t: OrderTable, packageId: int) {
    exists id | id in t :: t[id].packageId == packageId
  }

  /** A checkout request body. Only the first three fields are read; the rest
      are what the checkout pages also send. */
  datatype OrderInput = OrderInput(
    productId: Field<int>,
    packageId: Field<int>,
    userData: Field<UserData>,
    paymentProof: Field<string>,
    promoCode: Field<string>,
    discountAmount: Numeric,
    finalPrice: Numeric)

  /** The three fields checkout cannot do without (an object is truthy even
      when it has no entries). */
  predicate HasRequired(b: OrderInput) {
    TruthyInt(b.productId) && TruthyInt(b.packageId) && b.userData.Given?
  }

  /** `findFirst({ where: { id, enabled: true } })` */
  predicate EnabledPackage(c: Catalog, id: int) {
    id in c.packages && c.packages[id].enabled
  }

  /** The lookups an order and a checkout link both start with: the three
      required fields, then the product by id, then an enabled package by id. */
  function Resolve(c: Catalog, b: OrderInput): (r: Response<(Product, Package)>)
    requires Store.Valid(c)
    ensures !HasRequired(b) ==> r == Fail(400, "Missing required fields")
    ensures HasRequired(b) && b.productId.value !in c.products ==> r == Fail(404, "Product not found")
    ensures HasRequired(b) && b.productId.value in c.products && !EnabledPackage(c, b.packageId.value)
            ==> r == Fail(404, "Package not found or disabled")
    ensures r.Ok? <==>
      HasRequired(b) && b.productId.value in c.products && EnabledPackage(c, b.packageId.value)
    ensures r.Ok? ==>
      && r.value == (c.products[b.productId.value], c.packages[b.packageId.value])
      && r.value.0.categoryId in c.categories
      && r.value.1.enabled
  {
    if !HasRequired(b) then Fail(400, "Missing required fields")
    else if b.productId.value !in c.products then Fail(404, "Product not found")
    else if !EnabledPackage(c, b.packageId.value) then Fail(404, "Package not found or disabled")
    else Ok((c.products[b.productId.value], c.packages[b.packageId.value]))
  }

  /** POST / : place an order with the fresh id `nextId` at time `now`. */
  function Create(c: Catalog, t: OrderTable, b: OrderInput, nextId: int, now: int)
    : (r: Response<(OrderTable, Order)>)
    requires Store.Valid(c) && Valid(t) && nextId !in t
    ensures r.Fail? <==> Resolve(c, b).Fail?
    ensures r.Fail? ==> r == Fail(Resolve(c, b).status, Resolve(c, b).error)
    ensures r.Ok? ==>
      var (t', o) := r.value;
      var product := c.products[b.productId.value];
      var pkg := c.packages[b.packageId.value];
      && o.id == nextId && o.createdAt == now
      && o.productId == product.id && o.packageId == pkg.id
      && o.productName == product.name
      && o.categoryName == c.categories[product.categoryId].name
      && o.packageName == pkg.name
      && o.price == pkg.price
      && o.userData == b.userData.value
      && o.status == Pending
      && t' == t[nextId := o] && Valid(t')
  {
    match Resolve(c, b)
    case Fail(status, error) => Fail(status, error)
    case Ok((product, pkg)) =>
      var o := Order(nextId, product.id, pkg.id, product.name, c.categories[product.categoryId].name,
                     pkg.name, pkg.price, b.userData.value, Pending, now);
      Ok((t[nextId := o], o))
  }

  /** The proof, promo code, discount and final price of a checkout body do
      not affect the order: the stored price is always the package price. */
  lemma PromoFieldsIgnored(c: Catalog, t: OrderTable, b: OrderInput, nextId: int, now: int,
                           proof: Field<string>, code: Field<string>, discount: Numeric, finalPrice: Numeric)
    requires Store.Valid(c) && Valid(t) && nextId !in t
    ensures var b' := b.(paymentProof := proof, promoCode := code, discountAmount := discount, finalPrice := finalPrice);
            Create(c, t, b', nextId, now) == Create(c, t, b, nextId, now)
  {
  }

  /** Any enabled package is accepted with any existing product, even one it
      does not belong to; the order then pairs that product's name with that
      package's name and price. */
  lemma ForeignPackageAccepted(c: Catalog, t: OrderTable, productId: int, packageId: int,
                               data: UserData, nextId: int, now: int)
    requires Store.Valid(c) && Valid(t) && nextId !in t
    requires productId != 0 && productId in c.products
    requires packageId != 0 && EnabledPackage(c, packageId)
    requires c.packages[packageId].productId != productId
    ensures var b := OrderInput(Given(productId), Given(packageId), Given(data), Absent, Absent, Undefined, Undefined);
            var r := Create(c, t, b, nextId, now);
            && r.Ok?
            && r.value.1.productName == c.products[productId].name
            && r.value.1.price == c.packages[packageId].price
  {
  }

  /** `transformOrder`: the JSON shape the admin pages read. */
  datatype OrderView = OrderView(
    id: int,
    productId: int,
    packageId: int,
    productName: string,
    categoryName: string,
    packageName: string,
    price: real,
    userData: UserData,
    status: string,
    createdAt: int)

  function ToView(o: Order): (v: OrderView)
    ensures ParseStatus(v.status) == Some(o.status)
    ensures v.id == o.id && v.price == o.price && v.createdAt == o.createdAt
    ensures v.productId == o.productId && v.packageId == o.packageId
    ensures v.productName == o.productName && v.categoryName == o.categoryName && v.packageName == o.packageName
    ensures v.userData == o.userData
  {
    OrderView(o.id, o.productId, o.packageId, o.productName, o.categoryName, o.packageName,
              o.price, o.userData, StatusName(o.status), o.createdAt)
  }

  /** GET /:id */
  function Get(t: OrderTable, id: int): (r: Response<OrderView>)
    ensures id !in t <==> r == Fail(404, NotFoundError)
    ensures r.Ok? ==> r.value == ToView(t[id])
  {
    if id in t then Ok(ToView(t[id])) else Fail(404, NotFoundError)
  }

  /** GET / : every order once, newest `createdAt` first. */
  method List(t: OrderTable) returns (r: seq<OrderView>)
    requires Valid(t)
    ensures forall i :: 0 <= i < |r| ==> r[i].id in t && r[i] == ToView(t[r[i].id])
    ensures forall id :: id in t <==> exists i :: 0 <= i < |r| && r[i].id == id
    ensures forall i, j :: 0 <= i < j < |r| ==> r[i].id != r[j].id && r[i].createdAt >= r[j].createdAt
  {
    var keys := map id | id in t :: NewestFirst(t[id].createdAt, id);
    var ids := OrderIds(keys);
    r := seq(|ids|, i requires 0 <= i < |ids| => ToView(t[ids[i]]));
    assert forall i :: 0 <= i < |r| ==> r[i].id == ids[i] && r[i].createdAt == t[ids[i]].createdAt;
    forall id | id in t ensures exists i :: 0 <= i < |r| && r[i].id == id {
      assert id in keys && id in ids;
      var i :| 0 <= i < |ids| && ids[i] == id;
      assert r[i].id == id;
    }
    forall i, j | 0 <= i < j < |r| ensures r[i].createdAt >= r[j].createdAt {
      NewestFirstOrder(t[ids[i]].createdAt, ids[i], t[ids[j]].createdAt, ids[j]);
    }
  }

  /** PUT /:id/status : the status must be one of the four names (checked
      before the order is looked up); only the status changes. */
  function UpdateStatus(t: OrderTable, id: int, status: Field<string>): (r: Response<(OrderTable, OrderView)>)
    requires Valid(t)
    ensures !status.Given? || ParseStatus(status.value).None? <==> r == Fail(400, "Invalid status")
    ensures status.Given? && ParseStatus(status.value).Some? && id !in t <==> r == Fail(404, NotFoundError)
    ensures r.Ok? ==>
      var (t', v) := r.value;
      && id in t
      && t' == t[id := t[id].(status := ParseStatus(status.value).value)]
      && v == ToView(t'[id])
      && v.status == status.value
      && Valid(t')
  {
    if !status.Given? || ParseStatus(status.value).None? then Fail(400, "Invalid status")
    else if id !in t then Fail(404, NotFoundError)
    else
      var o := t[id].(status := ParseStatus(status.value).value);
      Ok((t[id := o], ToView(o)))
  }

  /** There is no transition table: every status can follow every other. */
  lemma AnyTransitionAllowed(t: OrderTable, id: int, from: OrderStatus, to: OrderStatus)
    requires Valid(t) && id in t && t[id].status == from
    ensures UpdateStatus(t, id, Given(StatusName(to))).Ok?
    ensures UpdateStatus(t, id, Given(StatusName(to))).value.0[id].status == to
  {
    ParseStatusExact(StatusName(to), to);
  }
}
