/**
 * The game-product admin page (client/src/pages/admin/ProductManagement.jsx):
 * the edit dialog's form, the rows of the checkout form it edits, and the
 * body it sends to POST /products or PUT /products/:id.
 *
 * The routes send products with camelCase keys (`categoryId`, `imageUrl`,
 * `serviceType`, `inputFields`, boolean `enabled`), while the dialog as
 * written reads `category_id`, `image_url`, `service_type`, `input_fields`
 * and compares `enabled === 1`. `OpenAsWritten` opens the dialog as written
 * and `Open` as it reads the keys the routes send.
 */
module ProductAdmin {
  import opened Js
  import opened Store
  import opened InputFields
  import Products

  /** The dialog's form; its keys are the request's (`category_id`, `name`,
      …). A key whose value is `undefined` is left out of the request
      (`Absent`). The blank form's `category_id: ''` is falsy to both routes,
      just like a left-out key, and is modelled as one. */
  datatype ProductForm = ProductForm(
    categoryId: Field<int>,
    name: string,
    slug: string,
    description: string,
    imageUrl: string,
    serviceType: Field<string>,
    enabled: bool)

  /** The form and the rows of the checkout form being edited. */
  datatype Editor = Editor(form: ProductForm, fields: seq<InputField>)

  /** The dialog for a new product, and after it is closed. */
  const BlankEditor := Editor(ProductForm(Absent, "", "", "", "", Given(""), true), [])

  /** `handleOpenModal(product)` as written, on a product as the routes
      send it: the snake_case keys are missing, so the category and service
      type are undefined, the image is empty, `JSON.parse('[]')` gives no
      rows, and `true === 1` is false. */
  function OpenAsWritten(v: ProductView): (e: Editor)
    ensures e.form.categoryId.Absent? && e.form.serviceType.Absent?
    ensures e.form.imageUrl == "" && e.fields == [] && !e.form.enabled
    ensures e.form.name == v.product.name && e.form.slug == v.product.slug
    ensures e.form.description == v.product.description.GetOr("")
  {
    Editor(ProductForm(Absent, v.product.name, v.product.slug, v.product.description.GetOr(""), "", Absent, false), [])
  }

  /** `handleOpenModal(product)` reading the keys the routes send. Stored rows
      that are not field descriptors open as no rows. */
  function Open(v: ProductView): (e: Editor)
    ensures e.form.categoryId == Given(v.product.categoryId) && e.form.serviceType == Given(v.product.serviceType)
    ensures e.form.enabled == v.product.enabled
    ensures DecodeItems(v.product.inputFields).Some? ==> e.fields == DecodeItems(v.product.inputFields).value
  {
    var p := v.product;
    Editor(ProductForm(Given(p.categoryId), p.name, p.slug, p.description.GetOr(""), p.imageUrl.GetOr(""),
                       Given(p.serviceType), p.enabled),
           DecodeItems(p.inputFields).GetOr([]))
  }

  /** `handleRemoveImage`: only the image is cleared. */
  function RemoveImage(e: Editor): (r: Editor)
    ensures r.form.imageUrl == "" && r.form.(imageUrl := e.form.imageUrl) == e.form && r.fields == e.fields
  {
    e.(form := e.form.(imageUrl := ""))
  }

  /** `handleSubmit`: `{ ...formData, input_fields: JSON.stringify(inputFields),
      enabled: formData.enabled ? 1 : 0 }`; `stringify` stands for
      `JSON.stringify`. The same body goes to create and to update. */
  function SubmitBody(e: Editor, stringify: Json -> string): (b: Products.ProductInput)
    ensures b.inputFields == Given(JString(stringify(EncodeFields(e.fields))))
    ensures b.enabled == Some(e.form.enabled)
    ensures b.categoryId == e.form.categoryId && b.serviceType == e.form.serviceType
    ensures b.name == Given(e.form.name) && b.slug == Given(e.form.slug)
    ensures b.description == Given(e.form.description) && b.imageUrl == Given(e.form.imageUrl)
  {
    var f := e.form;
    Products.ProductInput(f.categoryId, Given(f.name), Given(f.slug), Given(f.description), Given(f.imageUrl),
                          f.serviceType, Given(JString(stringify(EncodeFields(e.fields)))), Some(f.enabled))
  }

  /** `JSON.parse(JSON.stringify(j))` gives `j` back, and the text is not
      empty. */
  ghost predicate Reparses(parse: string -> Option<Json>, stringify: Json -> string, j: Json) {
    stringify(j) != "" && parse(stringify(j)) == Some(j)
  }

  /** A product created from the dialog reopens (reading the keys the routes
      send) with the very form and rows it was created from. */
  lemma CreatedProductReopens(c: Catalog, e: Editor, nextId: int, now: int,
                              parse: string -> Option<Json>, stringify: Json -> string)
    requires Valid(c) && nextId !in c.products
    requires Reparses(parse, stringify, EncodeFields(e.fields))
    requires Products.Create(c, SubmitBody(e, stringify), nextId, now, parse).Ok?
    ensures Open(Products.Create(c, SubmitBody(e, stringify), nextId, now, parse).value.1) == e
  {
    FieldsRoundTrip(e.fields);
  }

  /** As written, opening a product and saving it without touching anything
      disables it, empties its checkout form and clears its image; only the
      description's null becomes an empty text as well. */
  lemma SaveUnchangedAsWritten(c: Catalog, id: int, parse: string -> Option<Json>, stringify: Json -> string)
    requires Valid(c) && id in c.products
    requires Reparses(parse, stringify, EncodeFields([]))
    ensures var p := c.products[id];
            var r := Products.Update(c, id, SubmitBody(OpenAsWritten(ViewOf(c, p)), stringify), parse);
            && r.Ok?
            && r.value.1.product == p.(imageUrl := Some(""), description := Some(p.description.GetOr("")),
                                       inputFields := [], enabled := false)
  {
    var p := c.products[id];
    assert !ProductSlugUsed(c, p.slug, id);
    assert EncodeFields([]).items == [];
  }

  /** Reading the keys the routes send, saving without touching anything
      keeps the product; only a missing description or image becomes an
      empty text. */
  lemma SaveUnchangedKeepsProduct(c: Catalog, id: int, fields: seq<InputField>,
                                  parse: string -> Option<Json>, stringify: Json -> string)
    requires Valid(c) && id in c.products
    requires c.products[id].inputFields == EncodeFields(fields).items
    requires Reparses(parse, stringify, EncodeFields(fields))
    ensures var p := c.products[id];
            var r := Products.Update(c, id, SubmitBody(Open(ViewOf(c, p)), stringify), parse);
            && r.Ok?
            && r.value.1.product == p.(imageUrl := Some(p.imageUrl.GetOr("")),
                                       description := Some(p.description.GetOr("")))
  {
    var p := c.products[id];
    FieldsRoundTrip(fields);
    assert Open(ViewOf(c, p)).fields == fields;
    assert JArray(EncodeFields(fields).items) == EncodeFields(fields);
    assert !ProductSlugUsed(c, p.slug, id);
  }
}
