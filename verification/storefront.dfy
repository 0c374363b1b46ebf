/**
 * The public storefront routes (routes/public.js): the homepage data, the
 * payment details, and the WhatsApp checkout link.
 *
 * As written, the checkout link handler reads `payment_proof`, which it never
 * declared (only `product_id`, `package_id` and `user_data` are taken from the
 * body), so every request that gets past the lookups ends in the catch-all
 * 500. `CheckoutUrl` is that handler; `CheckoutUrlIntended` takes the proof
 * from the body and builds the link, inserting every value as it is.
 */
module Storefront {
  import opened Js
  import opened Ordering
  import opened Store
  import opened Message
  import Settings
  import Orders
  import Categories

  /** How many products the homepage features. */
  const FeaturedCount := 6

  /** A category on the homepage with the number of its enabled products. */
  datatype CategorySummary = CategorySummary(category: Category, productCount: nat)

  /** The enabled products of one category. */
  function EnabledIn(c: Catalog, categoryId: int): set<int> {
    set id | id in c.products && c.products[id].categoryId == categoryId && c.products[id].enabled
  }

  /** Product `a` comes before `b` on the homepage: newer first, ties in id
      order. */
  predicate NewerFirst(a: Product, b: Product) {
    a.createdAt > b.createdAt || (a.createdAt == b.createdAt && a.id < b.id)
  }

  /** The homepage categories: every category by name with its count of
      enabled products. */
  method CategorySummaries(c: Catalog) returns (r: seq<CategorySummary>)
    requires Valid(c)
    ensures forall i :: 0 <= i < |r| ==>
      && r[i].category.id in c.categories
      && r[i].category == c.categories[r[i].category.id]
      && r[i].productCount == |EnabledIn(c, r[i].category.id)|
    ensures forall id :: id in c.categories <==> exists i :: 0 <= i < |r| && r[i].category.id == id
    ensures forall i, j :: 0 <= i < j < |r| ==> TextLess(r[i].category.name, r[j].category.name)
  {
    var all := Categories.List(c);
    r := seq(|all|, i requires 0 <= i < |all| => CategorySummary(all[i], |EnabledIn(c, all[i].id)|));
    forall id | id in c.categories ensures exists i :: 0 <= i < |r| && r[i].category.id == id {
      var i :| 0 <= i < |all| && all[i].id == id;
      assert r[i].category.id == id;
    }
  }

  /** The featured products: at most six enabled products, newest first; an
      enabled product is left out only when six newer ones are shown. */
  method Featured(c: Catalog) returns (r: seq<ProductView>)
    requires Valid(c)
    ensures |r| <= FeaturedCount
    ensures forall i :: 0 <= i < |r| ==>
      && r[i].product.id in c.products
      && r[i].product.enabled
      && r[i] == ViewOf(c, c.products[r[i].product.id])
    ensures forall i, j :: 0 <= i < j < |r| ==> NewerFirst(r[i].product, r[j].product)
    ensures forall id :: id in c.products && c.products[id].enabled
                         && (forall i :: 0 <= i < |r| ==> r[i].product.id != id) ==>
      && |r| == FeaturedCount
      && forall i :: 0 <= i < |r| ==> NewerFirst(r[i].product, c.products[id])
  {
    var keys := map id | id in c.products && c.products[id].enabled
                      :: NewestFirst(c.products[id].createdAt, id);
    var ids := OrderIds(keys);
    var n := if |ids| < FeaturedCount then |ids| else FeaturedCount;
    r := seq(n, i requires 0 <= i < n => ViewOf(c, c.products[ids[i]]));
    assert forall i :: 0 <= i < |r| ==> r[i].product == c.products[ids[i]] && r[i].product.id == ids[i];
    FeaturedNewestFirst(c, keys, ids, r);
  }

  /** The featured products listed in key order are newest first, and one
      left out is older than all six shown. */
  lemma FeaturedNewestFirst(c: Catalog, keys: map<int, SortKey>, ids: seq<int>, r: seq<ProductView>)
    requires Valid(c)
    requires forall id :: id in keys <==> id in c.products && c.products[id].enabled
    requires forall id :: id in keys ==> id in c.products && keys[id] == NewestFirst(c.products[id].createdAt, id)
    requires forall i :: 0 <= i < |ids| ==> ids[i] in keys
    requires forall x :: x in ids <==> x in keys
    requires forall i, j :: 0 <= i < j < |ids| ==> KeyLess(keys[ids[i]], keys[ids[j]])
    requires |r| == if |ids| < FeaturedCount then |ids| else FeaturedCount
    requires forall i :: 0 <= i < |r| ==>
      i < |ids| && ids[i] in c.products && r[i].product == c.products[ids[i]] && r[i].product.id == ids[i]
    ensures forall i, j :: 0 <= i < j < |r| ==> NewerFirst(r[i].product, r[j].product)
    ensures forall id :: id in c.products && c.products[id].enabled
                         && (forall i :: 0 <= i < |r| ==> r[i].product.id != id) ==>
      && |r| == FeaturedCount
      && forall i :: 0 <= i < |r| ==> NewerFirst(r[i].product, c.products[id])
  {
    forall i, j | 0 <= i < j < |r| ensures NewerFirst(r[i].product, r[j].product) {
      var a, b := r[i].product, r[j].product;
      assert KeyLess(NewestFirst(a.createdAt, a.id), NewestFirst(b.createdAt, b.id)) by {
        assert KeyLess(keys[ids[i]], keys[ids[j]]);
      }
      NewestFirstOrder(a.createdAt, a.id, b.createdAt, b.id);
    }
    forall id | id in c.products && c.products[id].enabled && (forall i :: 0 <= i < |r| ==> r[i].product.id != id)
      ensures |r| == FeaturedCount
      ensures forall i :: 0 <= i < |r| ==> NewerFirst(r[i].product, c.products[id])
    {
      assert forall i :: 0 <= i < |r| ==> ids[i] != id;
      LeftOutComesLater(keys, ids, |r|, id);
      forall i | 0 <= i < |r| ensures NewerFirst(r[i].product, c.products[id]) {
        var a, b := r[i].product, c.products[id];
        assert KeyLess(NewestFirst(a.createdAt, a.id), NewestFirst(b.createdAt, id)) by {
          assert KeyLess(keys[ids[i]], keys[id]);
        }
        NewestFirstOrder(a.createdAt, a.id, b.createdAt, id);
      }
    }
  }

  /** GET /homepage */
  method Homepage(c: Catalog) returns (categories: seq<CategorySummary>, featured: seq<ProductView>)
    requires Valid(c)
    ensures forall i :: 0 <= i < |categories| ==>
      && categories[i].category.id in c.categories
      && categories[i].category == c.categories[categories[i].category.id]
      && categories[i].productCount == |EnabledIn(c, categories[i].category.id)|
    ensures forall id :: id in c.categories <==> exists i :: 0 <= i < |categories| && categories[i].category.id == id
    ensures forall i, j :: 0 <= i < j < |categories| ==> TextLess(categories[i].category.name, categories[j].category.name)
    ensures |featured| <= FeaturedCount
    ensures forall i :: 0 <= i < |featured| ==>
      && featured[i].product.id in c.products
      && featured[i].product.enabled
      && featured[i] == ViewOf(c, c.products[featured[i].product.id])
    ensures forall i, j :: 0 <= i < j < |featured| ==> NewerFirst(featured[i].product, featured[j].product)
    ensures forall id :: id in c.products && c.products[id].enabled
                         && (forall i :: 0 <= i < |featured| ==> featured[i].product.id != id) ==>
      && |featured| == FeaturedCount
      && forall i :: 0 <= i < |featured| ==> NewerFirst(featured[i].product, c.products[id])
  {
    categories := CategorySummaries(c);
    featured := Featured(c);
  }

  /** `setting?.value || fallback`: the stored value, unless the key is
      missing or its value is empty. */
  function SettingOr(rows: seq<Settings.Setting>, key: string, fallback: string): (r: string)
    ensures !Settings.HasKey(rows, key) ==> r == fallback
    ensures Settings.Lookup(rows, key) == Some("") ==> r == fallback
    ensures Settings.HasKey(rows, key) && Settings.Lookup(rows, key).value != "" ==> r == Settings.Lookup(rows, key).value
  {
    match Settings.Lookup(rows, key)
    case None => fallback
    case Some(v) => if v == "" then fallback else v
  }

  /** The bank transfer details shown at checkout. */
  datatype PaymentInfo = PaymentInfo(bankName: string, accountNumber: string, accountName: string, qrCode: string)

  /** GET /payment-settings : the four payment settings, empty where unset. */
  function PaymentSettings(rows: seq<Settings.Setting>): (r: PaymentInfo)
    ensures !Settings.HasKey(rows, "payment_bank_name") ==> r.bankName == ""
    ensures !Settings.HasKey(rows, "payment_account_number") ==> r.accountNumber == ""
    ensures !Settings.HasKey(rows, "payment_account_name") ==> r.accountName == ""
    ensures !Settings.HasKey(rows, "payment_qr_code") ==> r.qrCode == ""
    ensures Settings.HasKey(rows, "payment_bank_name") ==> r.bankName == Settings.Lookup(rows, "payment_bank_name").value
    ensures Settings.HasKey(rows, "payment_account_number") ==> r.accountNumber == Settings.Lookup(rows, "payment_account_number").value
    ensures Settings.HasKey(rows, "payment_account_name") ==> r.accountName == Settings.Lookup(rows, "payment_account_name").value
    ensures Settings.HasKey(rows, "payment_qr_code") ==> r.qrCode == Settings.Lookup(rows, "payment_qr_code").value
  {
    PaymentInfo(
      SettingOr(rows, "payment_bank_name", ""),
      SettingOr(rows, "payment_account_number", ""),
      SettingOr(rows, "payment_account_name", ""),
      SettingOr(rows, "payment_qr_code", ""))
  }

  /** After the admin saves the bank name, the storefront shows the new name
      and the other three details as before. */
  lemma PaymentSettingsAfterPut(rows: seq<Settings.Setting>, name: string)
    requires Settings.UniqueKeys(rows)
    ensures var rows' := Settings.Put(rows, "payment_bank_name", Given(name)).value.0;
            var before := PaymentSettings(rows);
            PaymentSettings(rows') == before.(bankName := name)
  {
  }

  /** The line about the transfer proof: empty when none was sent. */
  function ProofText(proof: Field<string>): (r: string)
    ensures TruthyText(proof) ==> r == "*Bukti Pembayaran:* " + proof.value
    ensures !TruthyText(proof) ==> r == ""
  {
    if TruthyText(proof) then "*Bukti Pembayaran:* " + proof.value else ""
  }

  /** What the message says about an order; `price` is the package price in
      Indonesian number format (`formatIdr` stands for
      `toLocaleString('id-ID')`) and `orderTime` the formatted current time. */
  function CheckoutValues(c: Catalog, product: Product, pkg: Package, data: Orders.UserData,
                          proof: Field<string>, orderTime: string, formatIdr: real -> string): (v: MessageValues)
    requires product.categoryId in c.categories
    ensures v.productName == product.name && v.packageName == pkg.name
    ensures v.categoryName == c.categories[product.categoryId].name
    ensures v.price == formatIdr(pkg.price)
    ensures v.userData == FormatUserData(data)
    ensures v.paymentProof == ProofText(proof)
    ensures v.orderTime == orderTime
  {
    MessageValues(product.name, c.categories[product.categoryId].name, pkg.name, formatIdr(pkg.price),
                  FormatUserData(data), ProofText(proof), orderTime)
  }

  /** POST /checkout-url as written: the lookups answer 400 or 404 as for an
      order; past them the undeclared `payment_proof` throws and the answer is
      always 500. */
  function CheckoutUrl(c: Catalog, b: Orders.OrderInput): (r: Response<string>)
    requires Valid(c)
    ensures r.Fail?
    ensures Orders.Resolve(c, b).Fail? ==> r == Fail(Orders.Resolve(c, b).status, Orders.Resolve(c, b).error)
    ensures Orders.Resolve(c, b).Ok? ==> r == Fail(500, InternalError)
  {
    match Orders.Resolve(c, b)
    case Fail(status, error) => Fail(status, error)
    case Ok(_) => Fail(500, InternalError)
  }

  /** POST /checkout-url with the proof taken from the body: the link to the
      shop's WhatsApp number (setting `whatsapp_number`) with the rendered
      message (setting `checkout_message_template`). */
  function CheckoutUrlIntended(c: Catalog, rows: seq<Settings.Setting>, b: Orders.OrderInput,
                               orderTime: string, formatIdr: real -> string, encode: string -> string)
    : (r: Response<string>)
    requires Valid(c)
    ensures r.Fail? <==> Orders.Resolve(c, b).Fail?
    ensures r.Fail? ==> r == Fail(Orders.Resolve(c, b).status, Orders.Resolve(c, b).error)
    ensures r.Ok? ==>
      var (product, pkg) := Orders.Resolve(c, b).value;
      var number := SettingOr(rows, "whatsapp_number", DefaultNumber);
      var template := SettingOr(rows, "checkout_message_template", DefaultTemplate);
      var message := RenderLiteral(template, CheckoutValues(c, product, pkg, b.userData.value, b.paymentProof, orderTime, formatIdr));
      '?' !in number ==> SplitUrl(r.value) == Some((number, encode(message)))
  {
    match Orders.Resolve(c, b)
    case Fail(status, error) => Fail(status, error)
    case Ok((product, pkg)) =>
      var number := SettingOr(rows, "whatsapp_number", DefaultNumber);
      var template := SettingOr(rows, "checkout_message_template", DefaultTemplate);
      var message := RenderLiteral(template, CheckoutValues(c, product, pkg, b.userData.value, b.paymentProof, orderTime, formatIdr));
      if '?' in number then Ok(WhatsAppUrl(number, message, encode))
      else
        UrlRoundTrip(number, message, encode);
        Ok(WhatsAppUrl(number, message, encode))
  }

  /** Every request the as-written handler fails with 500 gets a link from
      the intended one, and the two agree on every other answer. */
  lemma IntendedDiffersOnlyWhereWrittenFails(c: Catalog, rows: seq<Settings.Setting>, b: Orders.OrderInput,
                                             orderTime: string, formatIdr: real -> string, encode: string -> string)
    requires Valid(c)
    ensures var intended := CheckoutUrlIntended(c, rows, b, orderTime, formatIdr, encode);
            CheckoutUrl(c, b) == Fail(500, InternalError) <==> intended.Ok?
    ensures var intended := CheckoutUrlIntended(c, rows, b, orderTime, formatIdr, encode);
            intended.Fail? ==> intended == CheckoutUrl(c, b)
  {
  }

  /** With no template stored and values free of `{`, the intended message is
      the default text with the product, category, package, price, answers,
      proof line and time at their places. */
  lemma IntendedDefaultMessage(c: Catalog, b: Orders.OrderInput, orderTime: string,
                               formatIdr: real -> string, encode: string -> string)
    requires Valid(c)
    requires Orders.Resolve(c, b).Ok?
    ensures var (product, pkg) := Orders.Resolve(c, b).value;
            var v := CheckoutValues(c, product, pkg, b.userData.value, b.paymentProof, orderTime, formatIdr);
            NoBrace(ValueList(v)) ==>
            CheckoutUrlIntended(c, [], b, orderTime, formatIdr, encode)
              == Ok(WhatsAppUrl(DefaultNumber, Fill(DefaultParts, ValueList(v)), encode))
  {
    var (product, pkg) := Orders.Resolve(c, b).value;
    var v := CheckoutValues(c, product, pkg, b.userData.value, b.paymentProof, orderTime, formatIdr);
    if NoBrace(ValueList(v)) {
      DefaultMessageLiteral(v);
    }
  }
}
