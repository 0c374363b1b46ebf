/**
 * The category routes (routes/categories.js): the listing by name, lookup,
 * create, update with fallbacks, and the delete that is refused while
 * products still point at the category.
 */
module Categories {
  import opened Js
  import opened Ordering
  import opened Store

  const NotFoundError := "Category not found"

  /** The body of a create or update request. */
  datatype CategoryInput = CategoryInput(
    name: Field<string>,
    slug: Field<string>,
    description: Field<string>,
    icon: Field<string>)

  /** GET / : every category once, in ascending name order (names are unique,
      so the order is strict). */
  method List(c: Catalog) returns (r: seq<Category>)
    requires Valid(c)
    ensures forall i :: 0 <= i < |r| ==> r[i].id in c.categories && r[i] == c.categories[r[i].id]
    ensures forall id :: id in c.categories <==> exists i :: 0 <= i < |r| && r[i].id == id
    ensures forall i, j :: 0 <= i < j < |r| ==> TextLess(r[i].name, r[j].name)
  {
    var keys := map id | id in c.categories :: SortKey(c.categories[id].name, 0.0, id);
    var ids := OrderIds(keys);
    r := seq(|ids|, i requires 0 <= i < |ids| => c.categories[ids[i]]);
    forall id | id in c.categories ensures exists i :: 0 <= i < |r| && r[i].id == id {
      assert id in keys && id in ids;
      var i :| 0 <= i < |ids| && ids[i] == id;
      assert r[i].id == id;
    }
    forall i, j | 0 <= i < j < |r| ensures TextLess(r[i].name, r[j].name) {
      assert KeyLess(keys[ids[i]], keys[ids[j]]);
    }
  }

  /** GET /:id */
  function Get(c: Catalog, id: int): (r: Response<Category>)
    ensures id !in c.categories <==> r == Fail(404, NotFoundError)
    ensures r.Ok? ==> r.value == c.categories[id]
  {
    if id in c.categories then Ok(c.categories[id]) else Fail(404, NotFoundError)
  }

  /** POST / : the new category gets the fresh id `nextId`; a name or slug
      that is already used violates the unique constraint. */
  function Create(c: Catalog, b: CategoryInput, nextId: int): (r: Response<(Catalog, Category)>)
    requires Valid(c) && nextId !in c.categories
    ensures !TruthyText(b.name) || !TruthyText(b.slug) ==> r == Fail(400, "Name and slug are required")
    ensures r.Ok? <==>
      && TruthyText(b.name) && TruthyText(b.slug)
      && !CategoryNameUsed(c, b.name.value, nextId) && !CategorySlugUsed(c, b.slug.value, nextId)
    ensures r.Fail? ==> r.status == 400
    ensures r.Ok? ==>
      var (c', cat) := r.value;
      && cat == Category(nextId, b.name.value, b.slug.value, ValueOrNull(b.description), ValueOrNull(b.icon))
      && c' == c.(categories := c.categories[nextId := cat])
      && Valid(c')
  {
    if !TruthyText(b.name) || !TruthyText(b.slug) then
      Fail(400, "Name and slug are required")
    else if CategoryNameUsed(c, b.name.value, nextId) || CategorySlugUsed(c, b.slug.value, nextId) then
      Fail(400, "Category with this name or slug already exists")
    else
      var cat := Category(nextId, b.name.value, b.slug.value, ValueOrNull(b.description), ValueOrNull(b.icon));
      Ok((c.(categories := c.categories[nextId := cat]), cat))
  }

  /** PUT /:id : an empty or missing name or slug keeps the stored one; a
      description or icon that is left out keeps the stored one and a `null`
      clears it. */
  function Update(c: Catalog, id: int, b: CategoryInput): (r: Response<(Catalog, Category)>)
    requires Valid(c)
    ensures id !in c.categories ==> r == Fail(404, NotFoundError)
    ensures r.Fail? ==> r.status in {400, 404}
    ensures r.Ok? ==>
      var (c', cat) := r.value;
      var e := c.categories[id];
      && id in c.categories
      && cat.id == id
      && cat.name == (if TruthyText(b.name) then b.name.value else e.name)
      && cat.slug == (if TruthyText(b.slug) then b.slug.value else e.slug)
      && cat.description == (if b.description.Absent? then e.description else ValueOrNull(b.description))
      && cat.icon == (if b.icon.Absent? then e.icon else ValueOrNull(b.icon))
      && c' == c.(categories := c.categories[id := cat])
      && Valid(c')
    ensures id in c.categories && r.Fail? ==>
      var name := TextOr(b.name, c.categories[id].name);
      var slug := TextOr(b.slug, c.categories[id].slug);
      CategoryNameUsed(c, name, id) || CategorySlugUsed(c, slug, id)
  {
    if id !in c.categories then Fail(404, NotFoundError)
    else
      var e := c.categories[id];
      var cat := Category(id, TextOr(b.name, e.name), TextOr(b.slug, e.slug),
                          TextOrKeep(b.description, e.description), TextOrKeep(b.icon, e.icon));
      if CategoryNameUsed(c, cat.name, id) || CategorySlugUsed(c, cat.slug, id) then
        Fail(400, "Category with this slug already exists")
      else
        Ok((c.(categories := c.categories[id := cat]), cat))
  }

  /** DELETE /:id : refused while any product has this category (checked
      before the category is looked up); otherwise only that row goes. */
  function Delete(c: Catalog, id: int): (r: Response<Catalog>)
    requires Valid(c)
    ensures HasProducts(c, id) <==> r == Fail(400, "Cannot delete category with existing products")
    ensures !HasProducts(c, id) && id !in c.categories <==> r == Fail(404, NotFoundError)
    ensures r.Ok? ==> r.value == c.(categories := c.categories - {id}) && id in c.categories
    ensures r.Ok? ==> Valid(r.value)
  {
    if HasProducts(c, id) then Fail(400, "Cannot delete category with existing products")
    else if id !in c.categories then Fail(404, NotFoundError)
    else Ok(c.(categories := c.categories - {id}))
  }

  /** A created category is what a lookup of its id returns afterwards. */
  lemma CreateThenGet(c: Catalog, b: CategoryInput, nextId: int)
    requires Valid(c) && nextId !in c.categories
    requires Create(c, b, nextId).Ok?
    ensures Get(Create(c, b, nextId).value.0, nextId) == Ok(Create(c, b, nextId).value.1)
  {
  }

  /** An update that sends no name, slug, description or icon writes back the
      row as it was. */
  lemma UpdateWithEmptyBodyKeepsRow(c: Catalog, id: int)
    requires Valid(c) && id in c.categories
    ensures Update(c, id, CategoryInput(Absent, Absent, Absent, Absent)) == Ok((c, c.categories[id]))
  {
    var e := c.categories[id];
    assert c.(categories := c.categories[id := e]) == c;
  }
}
