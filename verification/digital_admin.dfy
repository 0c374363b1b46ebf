/**
 * The digital-product admin page
 * (client/src/pages/admin/DigitalProductManagement.jsx): which fetched
 * products it lists, the type tabs over that list, and the body its dialog
 * sends, with the default checkout form for a new product.
 *
 * Like the game-product page it reads `service_type` and `category_id`,
 * which the routes never send: on what the routes send the list is decided
 * by category slug alone, the e-book and template tabs are always empty,
 * and an opened product cannot be saved until a category is picked again.
 */
module DigitalAdmin {
  import opened Js
  import opened Text
  import opened Lists
  import opened Store
  import opened InputFields
  import opened ProductKind
  import Products

  /** The products the page keeps from the admin listing, as written. */
  function ListedAsWritten(ps: seq<ProductJson>): (r: seq<ProductJson>)
    ensures forall i :: 0 <= i < |r| ==> r[i] in ps && AdminIsDigitalAsWritten(r[i])
    ensures forall i :: 0 <= i < |ps| && AdminIsDigitalAsWritten(ps[i]) ==> ps[i] in r
  {
    Filter(ps, AdminIsDigitalAsWritten)
  }

  /** The same, reading the service type the routes send. */
  function Listed(ps: seq<ProductJson>): (r: seq<ProductJson>)
    ensures forall i :: 0 <= i < |r| ==> r[i] in ps && AdminIsDigital(r[i])
    ensures forall i :: 0 <= i < |ps| && AdminIsDigital(ps[i]) ==> ps[i] in r
  {
    Filter(ps, AdminIsDigital)
  }

  /** On what the routes send, the list as written is the list of products
      whose category slug names a digital kind, whatever their service type. */
  lemma ListedAsWrittenBySlug(ps: seq<ProductJson>)
    requires forall i :: 0 <= i < |ps| ==> FromServer(ps[i])
    ensures ListedAsWritten(ps) == Filter(ps, AdminSlugIsDigital)
  {
    forall i | 0 <= i < |ps| ensures AdminIsDigitalAsWritten(ps[i]) == AdminSlugIsDigital(ps[i]) {
      AdminAsWrittenIgnoresServiceType(ps[i]);
    }
    FilterAgree(ps, AdminIsDigitalAsWritten, AdminSlugIsDigital);
  }

  /** Everything the list as written keeps, the corrected list keeps too. */
  lemma ListedAsWrittenWithinListed(ps: seq<ProductJson>)
    requires forall i :: 0 <= i < |ps| ==> FromServer(ps[i])
    ensures forall i :: 0 <= i < |ListedAsWritten(ps)| ==> ListedAsWritten(ps)[i] in Listed(ps)
  {
    var r := ListedAsWritten(ps);
    forall i | 0 <= i < |r| ensures r[i] in Listed(ps) {
      AdminAsWrittenIgnoresServiceType(r[i]);
      var k :| 0 <= k < |ps| && ps[k] == r[i];
    }
  }

  /** The tab test on a lower-cased service type: `all` and unknown tabs
      keep everything. */
  predicate InTab(tab: string, st: string) {
    if tab == "ebook" then Contains(st, "ebook") || Contains(st, "e-book")
    else if tab == "template" then Contains(st, "template")
    else true
  }

  /** `product.service_type?.toLowerCase() || ''` */
  function TabTypeAsWritten(p: ProductJson): string {
    Lower(FirstText(p.serviceTypeSnake, None))
  }

  /** `filteredProducts` as written. */
  function TabListAsWritten(ps: seq<ProductJson>, tab: string): (r: seq<ProductJson>)
    ensures forall i :: 0 <= i < |r| ==> r[i] in ps && InTab(tab, TabTypeAsWritten(r[i]))
    ensures forall i :: 0 <= i < |ps| && InTab(tab, TabTypeAsWritten(ps[i])) ==> ps[i] in r
  {
    Filter(ps, (p: ProductJson) => InTab(tab, TabTypeAsWritten(p)))
  }

  /** `filteredProducts` reading the service type the routes send. */
  function TabList(ps: seq<ProductJson>, tab: string): (r: seq<ProductJson>)
    ensures forall i :: 0 <= i < |r| ==> r[i] in ps && InTab(tab, ServiceType(r[i]))
    ensures forall i :: 0 <= i < |ps| && InTab(tab, ServiceType(ps[i])) ==> ps[i] in r
  {
    Filter(ps, (p: ProductJson) => InTab(tab, ServiceType(p)))
  }

  /** As written, the e-book and template tabs show nothing for products the
      routes send. */
  lemma TypeTabsEmptyAsWritten(ps: seq<ProductJson>, tab: string)
    requires forall i :: 0 <= i < |ps| ==> FromServer(ps[i])
    requires tab == "ebook" || tab == "template"
    ensures TabListAsWritten(ps, tab) == []
  {
    forall i | 0 <= i < |ps| ensures !InTab(tab, TabTypeAsWritten(ps[i])) {
      assert TabTypeAsWritten(ps[i]) == "";
    }
  }

  /** The `all` tab shows the whole list, and a type tab shows exactly the
      listed products of that type. */
  lemma TabListSelects(ps: seq<ProductJson>, tab: string)
    ensures tab == "all" ==> TabList(ps, tab) == ps
    ensures forall p :: p in TabList(ps, tab) <==> p in ps && InTab(tab, ServiceType(p))
  {
    if tab == "all" {
      FilterAll(ps, (p: ProductJson) => InTab(tab, ServiceType(p)));
    }
    forall p | p in ps && InTab(tab, ServiceType(p)) ensures p in TabList(ps, tab) {
      var k :| 0 <= k < |ps| && ps[k] == p;
    }
  }

  /** The dialog's form. `categoryId` is None for the select's empty value
      and for a missing key alike; `inputFields` is the JSON text of the
      checkout form. */
  datatype DigitalForm = DigitalForm(
    categoryId: Option<int>,
    name: string,
    slug: string,
    description: string,
    imageUrl: string,
    serviceType: Field<string>,
    inputFields: string,
    enabled: bool)

  /** The dialog for a new product, and after it is closed. */
  const BlankForm := DigitalForm(None, "", "", "", "", Given("E-Book"), "[]", true)

  /** `handleOpenModal(product)` as written, on a product as the routes send
      it: no `category_id`, no `service_type`, no `input_fields` (so `'[]'`)
      and `true === 1` false. */
  function OpenAsWritten(v: ProductView): (f: DigitalForm)
    ensures f.categoryId.None? && f.serviceType.Absent? && f.inputFields == "[]" && !f.enabled
    ensures f.name == v.product.name && f.slug == v.product.slug
  {
    DigitalForm(None, v.product.name, v.product.slug, v.product.description.GetOr(""), "", Absent, "[]", false)
  }

  /** `handleOpenModal(product)` reading the keys the routes send. */
  function Open(v: ProductView, stringify: Json -> string): (f: DigitalForm)
    ensures f.categoryId == Some(v.product.categoryId) && f.serviceType == Given(v.product.serviceType)
    ensures f.inputFields == stringify(JArray(v.product.inputFields)) && f.enabled == v.product.enabled
  {
    var p := v.product;
    DigitalForm(Some(p.categoryId), p.name, p.slug, p.description.GetOr(""), p.imageUrl.GetOr(""),
                Given(p.serviceType), stringify(JArray(p.inputFields)), p.enabled)
  }

  /** The checkout form a new digital product gets when none is given. */
  const DefaultFields: seq<InputField> := [
    InputField("email", "Email Address", "email", true, "your@email.com", "Download link will be sent to this email"),
    InputField("name", "Your Name", "text", false, "Your name", "")]

  const CategoryRequired := "Please select or create a category"

  datatype Submission = Refused(message: string) | Send(body: Products.ProductInput)

  /** `handleSubmit`: refused without a category; otherwise `currentData`,
      with the default checkout form in place of `'[]'`. A new product sends
      it to POST /products; an edit sends the part that differs from the
      opened form. */
  function Submit(f: DigitalForm, stringify: Json -> string): (r: Submission)
    ensures r.Refused? <==> f.categoryId.None?
    ensures r.Refused? ==> r.message == CategoryRequired
    ensures r.Send? ==> r.body.categoryId == Given(f.categoryId.value) && r.body.enabled == Some(f.enabled)
    ensures r.Send? ==>
      && r.body.name == Given(f.name) && r.body.slug == Given(f.slug)
      && r.body.description == Given(f.description) && r.body.imageUrl == Given(f.imageUrl)
      && r.body.serviceType == f.serviceType
    ensures r.Send? && f.inputFields == "[]" ==>
      r.body.inputFields == Given(JString(stringify(EncodeFields(DefaultFields))))
    ensures r.Send? && f.inputFields != "[]" ==> r.body.inputFields == Given(JString(f.inputFields))
  {
    match f.categoryId
    case None => Refused(CategoryRequired)
    case Some(cid) =>
      var fields := if f.inputFields == "[]" then stringify(EncodeFields(DefaultFields)) else f.inputFields;
      Send(Products.ProductInput(Given(cid), Given(f.name), Given(f.slug), Given(f.description),
                                 Given(f.imageUrl), f.serviceType, Given(JString(fields)), Some(f.enabled)))
  }

  /** As written, saving an opened product is always refused, however the
      form was changed, unless a category is picked again. */
  lemma EditRefusedAsWritten(v: ProductView, stringify: Json -> string)
    ensures Submit(OpenAsWritten(v), stringify) == Refused(CategoryRequired)
  {
  }

  /** Reading the keys the routes send, an opened product passes the check. */
  lemma EditPassesCheck(v: ProductView, stringify: Json -> string)
    ensures Submit(Open(v, stringify), stringify).Send?
  {
  }

  /** A new product left with no checkout form is stored with the default
      one, whose only required answer is the e-mail address. */
  lemma NewProductGetsDefaultFields(c: Catalog, f: DigitalForm, nextId: int, now: int,
                                    parse: string -> Option<Json>, stringify: Json -> string)
    requires Valid(c) && nextId !in c.products
    requires f.inputFields == "[]"
    requires stringify(EncodeFields(DefaultFields)) != ""
    requires parse(stringify(EncodeFields(DefaultFields))) == Some(EncodeFields(DefaultFields))
    requires Submit(f, stringify).Send?
    requires Products.Create(c, Submit(f, stringify).body, nextId, now, parse).Ok?
    ensures var p := Products.Create(c, Submit(f, stringify).body, nextId, now, parse).value.1.product;
            && DecodeItems(p.inputFields) == Some(DefaultFields)
            && (forall i :: 0 <= i < |DefaultFields| && DefaultFields[i].required ==> DefaultFields[i].name == "email")
            && p.enabled == f.enabled
  {
    FieldsRoundTrip(DefaultFields);
  }
}
