/**
 * The catalog tables shared by the category, product, package, order and
 * storefront routes: three tables keyed by id, with the constraints of the
 * SQLite schema in database/db.js — unique category names and slugs, unique
 * product slugs, and foreign keys from products to categories and from
 * packages to products.
 */
module Store {
  import opened Js

  datatype Category = Category(
    id: int,
    name: string,
    slug: string,
    description: Option<string>,
    icon: Option<string>)

  /** A product; `inputFields` is the JSON array of field descriptors the
      checkout form is built from. */
  datatype Product = Product(
    id: int,
    categoryId: int,
    name: string,
    slug: string,
    description: Option<string>,
    imageUrl: Option<string>,
    serviceType: string,
    inputFields: seq<Json>,
    enabled: bool,
    createdAt: int)

  datatype Package = Package(
    id: int,
    productId: int,
    name: string,
    description: Option<string>,
    price: real,
    enabled: bool)

  datatype Catalog = Catalog(
    categories: map<int, Category>,
    products: map<int, Product>,
    packages: map<int, Package>)

  /** Every row is stored under its own id. */
  ghost predicate KeysMatch(c: Catalog) {
    && (forall id :: id in c.categories ==> c.categories[id].id == id)
    && (forall id :: id in c.products ==> c.products[id].id == id)
    && (forall id :: id in c.packages ==> c.packages[id].id == id)
  }

  /** `categories.name UNIQUE` and `categories.slug UNIQUE`. */
  ghost predicate CategoriesUnique(c: Catalog) {
    forall a, b :: a in c.categories && b in c.categories && a != b ==>
      c.categories[a].name != c.categories[b].name && c.categories[a].slug != c.categories[b].slug
  }

  /** `products.slug UNIQUE`. */
  ghost predicate ProductSlugsUnique(c: Catalog) {
    forall a, b :: a in c.products && b in c.products && a != b ==>
      c.products[a].slug != c.products[b].slug
  }

  /** `products.category_id REFERENCES categories(id)`. */
  ghost predicate ProductsReferenceCategories(c: Catalog) {
    forall id :: id in c.products ==> c.products[id].categoryId in c.categories
  }

  /** `packages.product_id REFERENCES products(id)`. */
  ghost predicate PackagesReferenceProducts(c: Catalog) {
    forall id :: id in c.packages ==> c.packages[id].productId in c.products
  }

  ghost predicate Valid(c: Catalog) {
    && KeysMatch(c)
    && CategoriesUnique(c)
    && ProductSlugsUnique(c)
    && ProductsReferenceCategories(c)
    && PackagesReferenceProducts(c)
  }

  /** Some category other than `except` has this name. */
  predicate CategoryNameUsed(c: Catalog, name: string, except: int) {
    exists id | id in c.categories :: id != except && c.categories[id].name == name
  }

  /** Some category other than `except` has this slug. */
  predicate CategorySlugUsed(c: Catalog, slug: string, except: int) {
    exists id | id in c.categories :: id != except && c.categories[id].slug == slug
  }

  /** Some product other than `except` has this slug. */
  predicate ProductSlugUsed(c: Catalog, slug: string, except: int) {
    exists id | id in c.products :: id != except && c.products[id].slug == slug
  }

  /** `product.count({ where: { categoryId } }) > 0` */
  predicate HasProducts(c: Catalog, categoryId: int) {
    exists id | id in c.products :: c.products[id].categoryId == categoryId
  }

  /** `package.count({ where: { productId } }) > 0` */
  predicate HasPackages(c: Catalog, productId: int) {
    exists id | id in c.packages :: c.packages[id].productId == productId
  }

  /** A product as the product routes return it: its columns plus the
      `category_name` and `category_slug` of its category. */
  datatype ProductView = ProductView(product: Product, categoryName: string, categorySlug: string)

  function ViewOf(c: Catalog, p: Product): (v: ProductView)
    requires p.categoryId in c.categories
    ensures v.product == p
    ensures v.categoryName == c.categories[p.categoryId].name
    ensures v.categorySlug == c.categories[p.categoryId].slug
  {
    var cat := c.categories[p.categoryId];
    ProductView(p, cat.name, cat.slug)
  }
}
