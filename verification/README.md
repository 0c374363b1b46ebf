# Games-Twenti storefront — a Dafny model

Games-Twenti is a shop for game top-ups and digital products, such as
e-books and templates. An Express server keeps the catalog, orders,
promo codes and settings in a database. A React client shows the catalog
and checkout pages to customers, and admin pages to the shop owner.

This project models that core:

- **Server routes:**
  - the catalog routes (categories, products, packages), with their
    database constraints;
  - order placement and the order status;
  - the settings table;
  - the promo-code engine: validation, admin writes, usage counter;
  - the public homepage and payment-settings routes;
  - the WhatsApp checkout link.
- **Client pages:**
  - the catalog pages' filters and links;
  - the two checkout pages;
  - the admin pages' forms, lists, submit bodies and badges.

JavaScript's loose values are modelled explicitly:

- A request field is `Absent`, `Null` or `Given(value)` (`Js.Field`).
- A number input is `Undefined`, `NaN` or a number (`Js.Numeric`).
- Truthiness tests are predicates over both (`TruthyText`, `TruthyInt`, …).
- A route's answer is `Ok(value)` or `Fail(status, error)`.

Database tables are maps from id to row. The catalog is kept `Valid` by
the unique constraints and the category and product foreign keys of
`database/db.js`. Orders name their product and package by id, and
deleting a row an order names breaks that foreign key: the product and
package deletes take the order table to model this. Time, `JSON.parse`,
`JSON.stringify`, `encodeURIComponent`, `toLocaleString` and
`getImageUrl` are parameters. Money is `real`.

The product routes send rows with camelCase keys: `categoryId`,
`imageUrl`, `serviceType`, `inputFields` and a boolean `enabled`, plus
`category_name` and `category_slug`. Several pages read snake_case keys
from those rows instead. A page that does this is modelled twice: as
written (`…AsWritten`), and reading the keys that are actually sent. The
second version is the one the rest of the model uses (see Findings).

Modules follow the program's files:

- `Js`, `Text`, `Lists`, `Ordering`: JavaScript value semantics and
  generic helpers.
- `Store`: the catalog tables.
- `Categories`, `Products`, `Packages`, `Orders`, `Settings`, `Promo`,
  `Storefront`: one per route file.
- `Message`: the checkout message.
- `Slug`, `ProductKind`, `InputFields`, `Uploads`, `CheckoutForms`: logic
  shared by several pages.
- `CatalogPages`, `GameCheckout`, `DigitalCheckout`, `PromoAdmin`,
  `ProductAdmin`, `DigitalAdmin`, `PackageAdmin`, `CategoryAdmin`,
  `Dashboard`: the pages.

## Model

| member | source | states |
|---|---|---|
| Categories.List | routes/categories.js:8-18 | every category exactly once, in strictly ascending name order |
| Categories.Get | routes/categories.js:21-36 | the stored category for a known id; 404 "Category not found" otherwise |
| Categories.Create | routes/categories.js:39-59 | 400 without a name or slug; 400 when the name or slug is taken; otherwise the new row is added under the fresh id and the catalog stays valid |
| Categories.Update | routes/categories.js:62-90 | 404 for an unknown id; a falsy name or slug keeps the stored one; a left-out description or icon is kept and a `null` one cleared; it fails otherwise only when the resulting name or slug is taken; only that row changes |
| Categories.Delete | routes/categories.js:93-115 | refused with 400 while a product uses the category, even before the id is checked; 404 for an unknown id; otherwise exactly that row is removed |
| Categories.CreateThenGet | routes/categories.js:39-59 | a created category is what a later GET of its id returns |
| Categories.UpdateWithEmptyBodyKeepsRow | routes/categories.js:62-90 | an update with an empty body succeeds and leaves the row unchanged |
| Products.ParseInputFields | routes/products.js:130-139 | a string is parsed and must yield an array; a non-string must already be an array; anything else is refused |
| Products.List | routes/products.js:8-91 | the public, admin and per-category listings each return exactly the products in scope, once each, in name order |
| Products.Get | routes/products.js:94-119 | the product with its category's name and slug for a known id; 404 otherwise |
| Products.Create | routes/products.js:122-172 | 400 without category, name, slug, service type and input fields; 400 for input fields that are not an array; 400 for a taken slug; 500 for an unknown category; otherwise the row is stored with `enabled` defaulting to true |
| Products.Update | routes/products.js:175-230 | 404 for an unknown id; 400 for badly formed input fields; 400 when the resulting slug is another product's; 500 when the resulting category does not exist; it succeeds exactly when none of these holds; each column falls back to the stored value as the handler's `\|\|` or `!== undefined` says; input fields are replaced only when sent and valid; only that row changes |
| Products.Delete | routes/products.js:233-255 | refused with 400 while the product has packages; 404 for an unknown id; 500 when an order names the product (its foreign key, db.js:73); it succeeds exactly otherwise, and then exactly that row is removed |
| Products.CreateThenGet | routes/products.js:122-172 | a created product is what a later GET of its id returns |
| Products.UpdateWithEmptyBodyKeepsRow | routes/products.js:175-230 | an update with an empty body succeeds and leaves the row unchanged |
| Packages.List | routes/packages.js:8-42 | the product's packages, once each, in ascending price order; the public listing keeps only the enabled ones |
| Packages.Get | routes/packages.js:45-60 | the stored package for a known id; 404 otherwise |
| Packages.Create | routes/packages.js:63-90 | 400 without product, name or price; 400 for a NaN or negative price; 500 for an unknown product; otherwise stored with `enabled` defaulting to true |
| Packages.Update | routes/packages.js:93-122 | 404 for an unknown id; 400 for a bad price that was sent; fields left out keep the stored values; the product never changes; it succeeds exactly for a known id whose price is left out or acceptable |
| Packages.Delete | routes/packages.js:125-138 | no check in the handler; 404 for an unknown id; 500 when an order names the package (its foreign key, db.js:74); it succeeds exactly otherwise, and then exactly that row is removed |
| Packages.ExtraFieldsIgnored | routes/packages.js:65 | the image, download and file-type fields of a request never change the outcome of create or update |
| Packages.PricesStayNonNegative | routes/packages.js:71-73 | every stored price stays non-negative after any successful create or update |
| Packages.CreateThenGet | routes/packages.js:63-90 | a created package is what a later GET of its id returns |
| Settings.Lookup | routes/settings.js:25-40 | the value of the row with the key, or none when no row has it |
| Settings.ToObject | routes/settings.js:8-22 | the folded object holds exactly the stored keys |
| Settings.ToObjectAgreesWithLookup | routes/settings.js:12-15 | with unique keys, the object maps every stored key to the value a single lookup returns |
| Settings.ToObjectSize | routes/settings.js:12-15 | with unique keys, the object has one entry per row |
| Settings.Get | routes/settings.js:25-40 | the row with the key; 404 when there is none |
| Settings.Upsert | routes/settings.js:52-58 | the key afterwards holds the new value, and every other key keeps its value |
| Settings.UpsertKeepsUnique | routes/settings.js:52-58 | upserting keeps the keys unique |
| Settings.Put | routes/settings.js:43-63 | 400 when the value is left out; 500 for a null value; otherwise an upsert |
| Settings.PutThenGetAll | routes/settings.js:43-63 | after a PUT the settings object is the old one with that key set |
| Settings.PutIdempotent | routes/settings.js:43-63 | putting the same value twice leaves the same rows as putting it once |
| Settings.UpsertExisting | routes/settings.js:52-58 | upserting the value a key already holds changes nothing |
| Promo.FindByCode | routes/promo.js:33-35 | finds the row with the code exactly when such a row exists |
| Promo.Discount | routes/promo.js:67-85 | the discount never exceeds the price; it is the uncapped amount whenever that fits |
| Promo.Judge | routes/promo.js:41-96 | a found code is accepted exactly when it is enabled, started, not ended, not used up and the minimum is met; the quote satisfies final = price − discount ≥ 0 |
| Promo.Validate | routes/promo.js:25-101 | 400 without a code; not found unless the upper-cased code is stored; otherwise the stored row is judged at the coerced price |
| Promo.JudgeIsFirstFailure | routes/promo.js:41-65 | the first failing check decides, in the order enabled, start date, end date, usage, minimum purchase |
| Promo.DateWindowInclusive | routes/promo.js:46-52 | the date window is inclusive at both ends |
| Promo.ValidateAfterReplace | routes/promo.js:33-39 | replacing a row changes the validation of that row's code only |
| Promo.SameJudgeSameValidate | routes/promo.js:33-39 | two rows for the same code that judge the price alike answer every validation alike |
| Promo.ZeroLimitMeansUnset | routes/promo.js:55 | a usage limit of 0 behaves like no limit |
| Promo.ZeroMinimumMeansUnset | routes/promo.js:60 | a minimum purchase of 0 behaves like no minimum |
| Promo.ZeroCapMeansUnset | routes/promo.js:71 | a discount cap of 0 behaves like no cap |
| Promo.QuoteBounds | routes/promo.js:67-96 | with non-negative price, value and cap, both the discount and the final price lie between 0 and the price |
| Promo.DiscountFormula | routes/promo.js:67-85 | a percentage of at most 100 takes min(price·value/100, cap); a fixed promo takes min(value, price) |
| Promo.NegativeCapRaisesPrice | routes/promo.js:71-73 | a negative cap is honoured, so the final price exceeds the original |
| Promo.ExampleCappedPercentage | routes/promo.js:67-96 | 10% capped at 5000 on 100000, with a lower-case code, gives 5000 off and 95000 to pay |
| Promo.ExampleClampedFixed | routes/promo.js:80-85 | a fixed 20000 off a 15000 price is clamped to 15000 |
| Promo.Create | routes/promo.js:135-179 | 400 without code, type and value; 400 for an unknown type; 400 for a taken code; otherwise stored upper-cased, unused, falsy optionals as null, enabled unless false |
| Promo.Update | routes/promo.js:182-226 | 404 for an unknown id; 400 for a sent code whose upper case differs from the stored one and is taken; it succeeds exactly otherwise; a falsy code or type keeps the stored one; a sent `discount_value` replaces the stored one; an optional column left out keeps its value; a sent minimum, cap or limit that is `null` or 0 clears it, and any other replaces it; a sent date replaces it and a sent `null` clears it; usage count and creation time are kept |
| Promo.RecodeKeepsValid | routes/promo.js:195-201 | replacing a row keeps codes unique when the new code is the old one or is free |
| Promo.Patch | routes/promo.js:229-273 | 404 for an unknown id; 500 for a null code; 400 for a changed code that is taken; 400 when no field is present; 500 for a null type; it succeeds exactly when none of these holds, writing only the fields present in the body |
| Promo.PatchIdempotent | routes/promo.js:229-273 | re-sending a successful PATCH body changes nothing more |
| Promo.PatchKeepsOtherRows | routes/promo.js:229-273 | a PATCH leaves every other row untouched |
| Promo.Delete | routes/promo.js:276-292 | removes exactly that row; 404 for an unknown id |
| Promo.IncrementUsage | routes/promo.js:295-304 | adds one to the usage of the row with the upper-cased code; an unknown code leaves the table unchanged |
| Promo.IncrementReachesLimit | routes/promo.js:55-57 | once the use that reaches the limit is counted, validation refuses the code with "usage limit reached" |
| Promo.ToView | routes/promo.js:8-22 | id, code, type and value are copied; a minimum or cap is shown exactly when it is set and non-zero, and then as stored; limit, usage count, dates and status are copied |
| Promo.Get | routes/promo.js:117-132 | the transformed row for a known id; 404 otherwise |
| Promo.List | routes/promo.js:104-114 | every code once, newest first |
| Orders.ParseStatus | routes/orders.js:117-120 | exactly the four status names parse, each to its status |
| Orders.ParseStatusExact | routes/orders.js:117-120 | parsing accepts a name if and only if it is the name of a status |
| Orders.Resolve | routes/orders.js:26-56 | 400 without product, package or answers; 404 for an unknown product; 404 for an unknown or disabled package |
| Orders.Create | routes/orders.js:22-77 | on success the order snapshots the product, category and package names and the package price, with status pending |
| Orders.PromoFieldsIgnored | routes/orders.js:24-25 | the proof, promo code, discount and final price of a body do not change the order; the stored price is always the package price |
| Orders.ForeignPackageAccepted | routes/orders.js:47-56 | an enabled package of another product is accepted and paired with the requested product |
| Orders.ToView | routes/orders.js:8-19 | id, product and package ids, the snapshot names, price, answers and creation time are copied; the status is sent by a name that parses back to the stored status |
| Orders.Get | routes/orders.js:94-109 | the view of a known order; 404 otherwise |
| Orders.List | routes/orders.js:80-91 | every order once, newest first |
| Orders.UpdateStatus | routes/orders.js:112-137 | 400 for an unknown status, before the id is checked; 404 for an unknown id; otherwise only the status changes |
| Orders.AnyTransitionAllowed | routes/orders.js:127-130 | every status can follow every other |
| Storefront.CategorySummaries | routes/public.js:10-24 | every category once, by name, each with the count of its enabled products |
| Storefront.Featured | routes/public.js:27-43 | at most six enabled products, newest first; an enabled product is missing only when six newer ones are shown |
| Storefront.FeaturedNewestFirst | routes/public.js:27-36 | the first six of the enabled products in newest-first order are newest first, and any enabled product left out is older than each of them |
| Ordering.NewestFirstOrder | routes/orders.js:82-84 | a row listed before another by `orderBy: { createdAt: 'desc' }` is at least as new; among equal times the model breaks the tie by id |
| Ordering.LeftOutComesLater | routes/public.js:34-35 | a row that `take` leaves out of an ordered listing comes after every row kept |
| Storefront.Homepage | routes/public.js:7-53 | the category summaries (every category once, by name, each with its count of enabled products) and the featured products (at most six enabled ones, newest first, and one left out only when six newer ones are shown) |
| Storefront.SettingOr | routes/public.js:120 | the stored value, or the fallback when the key is missing or its value is empty |
| Storefront.PaymentSettings | routes/public.js:56-73 | the four payment settings, each the stored value where the key is present and empty where it is not |
| Storefront.PaymentSettingsAfterPut | routes/public.js:56-73 | after the bank name is saved, the storefront shows the new name and the other three details unchanged |
| Storefront.ProofText | routes/public.js:136-139 | an empty line without a proof; otherwise the proof line |
| Storefront.CheckoutValues | routes/public.js:142-150 | the message values are the product, category and package names, the formatted price, the answers, the proof line and the time |
| Storefront.CheckoutUrl | routes/public.js:76-161 | as written: the lookups give 400 or 404; every request that passes them gives 500 |
| Storefront.CheckoutUrlIntended | routes/public.js:76-161 | with the proof taken from the body: the order lookups' errors unchanged; otherwise a `wa.me` link to the configured number (default 6281234567890) carrying the message, with each value inserted literally into the template (also the fix for routes/public.js:143-150) |
| Storefront.IntendedDiffersOnlyWhereWrittenFails | routes/public.js:137 | the corrected handler answers differently only where the one as written answers 500 |
| Storefront.IntendedDefaultMessage | routes/public.js:121-122 | with no stored template, the message is the default text with each value at its place |
| Message.ValueList | routes/public.js:144-150 | the values follow the placeholders' order |
| Message.ReplaceEach | routes/public.js:143-150 | each pattern replaces only its first occurrence, with `replace`'s `$` patterns |
| Message.ReplaceEachLiteral | routes/public.js:143-150 | each pattern's first occurrence is replaced by the value exactly as it is |
| Message.Render | routes/public.js:143-150 | the message as the handler builds it |
| Message.RenderLiteral | routes/public.js:143-150 | the message with every value inserted literally |
| Message.ReplaceEachFill | routes/public.js:143-150 | on a template of brace-free parts, each placeholder receives its value's expansion |
| Message.ReplaceEachLiteralFill | routes/public.js:143-150 | on a template of brace-free parts, the literal chain puts each value at its placeholder |
| Message.ReplaceEachAgreesWithLiteral | routes/public.js:143-150 | without `$` in the values, the two chains agree |
| Message.DefaultMessage | routes/public.js:121-150 | with the default template, values without `{` and `$` appear unchanged, each at its place |
| Message.DefaultMessageLiteral | routes/public.js:121-150 | with the default template, the literal rendering places every brace-free value, `$` included |
| Message.RenderAgreesWithLiteral | routes/public.js:143-150 | without `$` in any value, both renderings agree on every template |
| Message.FormatUserData | routes/public.js:125-127 | one `*key:* value` line per answer, joined by line breaks |
| Message.FormatUserDataLines | routes/public.js:125-127 | with no line break in the answers, splitting the text gives back one line per entry, in order |
| Message.SplitUrl | routes/public.js:154 | reads the number and encoded text back out of a link |
| Message.UrlRoundTrip | routes/public.js:153-154 | the link gives back the number and the encoded message when the number has no `?` |
| Message.DoubledDollarCollapses | routes/public.js:148 | an answer `US$$5` reaches the message as `US$5`, while the literal rendering keeps `US$$5` |
| Slug.KeepAllowed | client/src/pages/admin/DigitalProductManagement.jsx:228 | the result is the name with every character other than a lower-case letter, digit, white space or `-` removed, the rest kept in order (`Lists.Filter` with `Kept`) |
| Slug.DashSpacesSplits | client/src/pages/admin/DigitalProductManagement.jsx:229 | cutting the text anywhere but inside a run of white space, the pieces are transformed independently and joined; with `DashSpacesRun` and the identity on space-free text this says each run becomes one `-` and everything else is kept in order |
| Slug.DashSpacesRun | client/src/pages/admin/DigitalProductManagement.jsx:229 | a whole run of white space becomes exactly one `-` |
| Slug.CollapseSplits | client/src/pages/admin/DigitalProductManagement.jsx:230 | cutting the text anywhere but inside a run of `-`, the pieces are transformed independently and joined; with `CollapseRun` and the identity on text without `--` this says each run of `-` becomes one `-` and everything else is kept in order |
| Slug.CollapseRun | client/src/pages/admin/DigitalProductManagement.jsx:230 | a whole run of `-` becomes exactly one `-` |
| Slug.GenerateSlug | client/src/pages/admin/DigitalProductManagement.jsx:225-232 | the slug consists of slug characters only and has no `--` |
| Slug.TrimRemovesNothing | client/src/pages/admin/DigitalProductManagement.jsx:231 | the final trim is a no-op |
| Slug.SlugFixedPoint | client/src/pages/admin/DigitalProductManagement.jsx:225-232 | a text of slug characters without `--` is its own slug |
| Slug.GenerateSlugIdempotent | client/src/pages/admin/DigitalProductManagement.jsx:225-232 | making a slug of a slug changes nothing |
| Slug.PaddedNameKeepsDashes | client/src/pages/admin/DigitalProductManagement.jsx:225-232 | `" a "` gives `"-a-"`: dashes at the ends survive |
| Slug.NameChange | client/src/pages/admin/DigitalProductManagement.jsx:234-240 | a new product's slug follows the name; an edited product's slug stays |
| ProductKind.FromView | routes/products.js:20-29 | the JSON of a product carries `serviceType` and the category slug, never `service_type` |
| ProductKind.FirstText | client/src/pages/ProductCatalog.jsx:23 | the first non-empty of two optional texts, or empty |
| ProductKind.AdminAsWrittenIgnoresServiceType | client/src/pages/admin/DigitalProductManagement.jsx:70-78 | on what the routes send, the admin filter as written decides by category slug alone |
| ProductKind.AdminAsWrittenHidesEBook | client/src/pages/admin/DigitalProductManagement.jsx:70-78 | an e-book under a neutral category is hidden as written and shown when corrected |
| ProductKind.HyphenatedEBook | client/src/pages/ProductCatalog.jsx:23 | deleting the dashes turns `e-book` into `ebook` |
| ProductKind.PackagePageImpliesCatalog | client/src/pages/admin/PackageManagement.jsx:7-16 | what the package page calls digital, the catalogs call digital |
| ProductKind.AdminImpliesCatalog | client/src/pages/admin/DigitalProductManagement.jsx:70-78 | what the corrected admin filter keeps, the catalogs call digital |
| ProductKind.CatalogWiderThanAdmin | client/src/pages/ProductCatalog.jsx:22-33 | a category slug `e-book` is digital to the catalogs only |
| ProductKind.FirstKind | client/src/pages/DigitalProductCatalog.jsx:85-92 | the first type, in the order tried, whose words the service type mentions; else `digital-product` |
| ProductKind.CatalogType | client/src/pages/DigitalProductCatalog.jsx:85-92 | the catalog's type is the first type whose words the service type mentions |
| ProductKind.DetailTypeAsWritten | client/src/pages/DigitalProductDetail.jsx:99-106 | as written, the detail page's type depends only on `service_type` |
| ProductKind.DetailType | client/src/pages/DigitalProductDetail.jsx:99-106 | reading the sent key, the type is the first match with e-books spelt `ebook` only |
| ProductKind.TypeOfIsFirstKind | client/src/pages/DigitalProductCatalog.jsx:85-92 | the one-by-one tests agree with the first-match reading |
| ProductKind.DetailAsWrittenIsAlwaysGeneric | client/src/pages/DigitalProductDetail.jsx:99-106 | every product the routes send shows as a generic digital product |
| ProductKind.DetailAgreesWithCatalog | client/src/pages/DigitalProductDetail.jsx:99-106 | the corrected detail type agrees with the catalog except for service types spelling only `e-book` |
| ProductKind.DetailMissesHyphenatedEBook | client/src/pages/DigitalProductDetail.jsx:101 | an `E-Book` is an e-book to the catalog and generic to the detail page |
| CatalogPages.EmptySearchMatchesAll | client/src/pages/ProductCatalog.jsx:115-118 | an empty search box hides nothing |
| CatalogPages.SearchIgnoresCase | client/src/pages/ProductCatalog.jsx:115-118 | the search does not depend on the case of ASCII letters in the query |
| CatalogPages.CatalogList | client/src/pages/ProductCatalog.jsx:115-126 | keeps exactly the products that match the search and the type filter |
| CatalogPages.GameDigitalPartition | client/src/pages/ProductCatalog.jsx:115-126 | the game and digital lists split the 'all' list: disjoint, covering, lengths adding up |
| CatalogPages.ProductLink | client/src/pages/ProductCatalog.jsx:129-131 | digital products link to `/digital/<id>`, all others to `/products/<id>` |
| CatalogPages.LinkIdentifiesProduct | client/src/pages/ProductCatalog.jsx:129-131 | two products share a link only with the same id and kind |
| CatalogPages.InitialFilter | client/src/pages/ProductCatalog.jsx:50 | the `type` parameter, or 'all' when it is missing or empty |
| CatalogPages.SetTypeFilter | client/src/pages/ProductCatalog.jsx:104-112 | 'all' deletes the `type` parameter; another filter sets it; no other parameter changes |
| CatalogPages.FilterSurvivesReload | client/src/pages/DigitalProductCatalog.jsx:110-118 | reloading restores the chosen filter |
| CatalogPages.DigitalProducts | client/src/pages/DigitalProductCatalog.jsx:62-74 | keeps exactly the products the catalogs call digital |
| CatalogPages.DigitalList | client/src/pages/DigitalProductCatalog.jsx:100-108 | keeps, in order, exactly the listed products that match the search and, unless the filter is `all`, whose type contains the filter word |
| CatalogPages.FilterButtonSelectsType | client/src/pages/DigitalProductCatalog.jsx:100-108 | each filter button keeps exactly the search matches of its own type |
| CatalogPages.ServiceTypeDisplay | client/src/pages/DigitalProductCatalog.jsx:95-97 | the service type, or 'Digital' when there is none |
| InputFields.AddField | client/src/pages/admin/ProductManagement.jsx:146-148 | one blank text field row is added at the end |
| InputFields.UpdateField | client/src/pages/admin/ProductManagement.jsx:150-154 | the row at the index becomes the new row; no other row changes |
| InputFields.RemoveField | client/src/pages/admin/ProductManagement.jsx:156-158 | the row at the index goes; the others keep their order |
| InputFields.RemoveUndoesAdd | client/src/pages/admin/ProductManagement.jsx:146-158 | removing the row just added gives the list back |
| InputFields.UpdateLaws | client/src/pages/admin/ProductManagement.jsx:150-154 | updating to the current row changes nothing; of two updates only the second counts |
| InputFields.FromJson | client/src/pages/admin/ProductManagement.jsx:51 | a row is read back only when every member has its type |
| InputFields.RowRoundTrip | client/src/pages/admin/ProductManagement.jsx:166 | encoding then decoding a row gives it back |
| InputFields.EncodeFields | client/src/pages/admin/ProductManagement.jsx:166 | one JSON object per row, in order |
| InputFields.DecodeItems | client/src/pages/admin/ProductManagement.jsx:51 | reads every element as a row, or fails |
| InputFields.FieldsRoundTrip | client/src/pages/admin/ProductManagement.jsx:51-166 | encoding then decoding the whole list gives it back |
| Uploads.SizeError | client/src/pages/admin/ProductManagement.jsx:114-117 | a file over 5 MB is refused with the size message |
| Uploads.FileError | client/src/pages/admin/ProductManagement.jsx:114-123 | the size check decides first, then the type check |
| Uploads.ProductImageError | client/src/pages/admin/ProductManagement.jsx:110-123 | a product image must be at most 5 MB and JPEG, PNG, GIF or WebP |
| Uploads.CategoryIconError | client/src/pages/admin/CategoryManagement.jsx:79-93 | a category icon may also be SVG |
| Uploads.IconCheckIsWider | client/src/pages/admin/CategoryManagement.jsx:79-93 | every accepted product image is an accepted icon; SVG only as an icon |
| Uploads.SizeDecidesAcceptedTypes | client/src/pages/admin/ProductManagement.jsx:114-123 | for an accepted type, the size alone decides |
| CheckoutForms.FormGet | client/src/pages/ProductDetail.jsx:72-77 | the answer stored under a key |
| CheckoutForms.FormSet | client/src/pages/ProductDetail.jsx:72-77 | the key reads as the new value; every other key reads as before |
| CheckoutForms.FormSetPlaces | client/src/pages/ProductDetail.jsx:72-77 | an existing key keeps its place, a new key goes at the end |
| CheckoutForms.FormSetKeepsUnique | client/src/pages/ProductDetail.jsx:72-77 | setting a key never makes two entries with the same key |
| CheckoutForms.FormSetAppends | client/src/pages/ProductDetail.jsx:72-77 | a key the form lacks is added after every existing entry |
| CheckoutForms.FormSetInPlace | client/src/pages/ProductDetail.jsx:72-77 | a key the form holds is overwritten where it stands; every other entry is unchanged |
| CheckoutForms.InitialFormData | client/src/pages/ProductDetail.jsx:40-56 | one empty answer per declared field |
| CheckoutForms.InitialAnswersEmpty | client/src/pages/ProductDetail.jsx:40-56 | every declared field starts empty |
| CheckoutForms.InitialKeysDeclared | client/src/pages/ProductDetail.jsx:40-56 | the starting form has no undeclared key |
| CheckoutForms.FirstPackage | client/src/pages/ProductDetail.jsx:58-70 | the first package is selected, or none for an empty list |
| CheckoutForms.FindPackage | client/src/pages/ProductDetail.jsx:96-105 | the package with the selected id, when one is listed |
| CheckoutForms.FirstPackageFound | client/src/pages/ProductDetail.jsx:58-70 | the first package of a non-empty list is selected and found |
| CheckoutForms.ValidateGame | client/src/pages/ProductDetail.jsx:79-94 | a package must be chosen first; then the first required field left empty is named |
| CheckoutForms.FirstMissing | client/src/pages/ProductDetail.jsx:84-90 | the first required field without an answer |
| CheckoutForms.FreshFormNeedsRequired | client/src/pages/ProductDetail.jsx:79-94 | on the starting form, the check passes exactly when no field is required |
| CheckoutForms.AnswerFillsField | client/src/pages/ProductDetail.jsx:72-94 | answering a field stops it being missing and changes nothing for other names |
| CheckoutForms.EmailCheckIsPattern | client/src/pages/DigitalProductDetail.jsx:133-136 | the computed e-mail check accepts exactly the strings the pattern matches |
| CheckoutForms.EmailCheckSound | client/src/pages/DigitalProductDetail.jsx:133-136 | every address the computed check accepts matches the pattern |
| CheckoutForms.EmailCheckComplete | client/src/pages/DigitalProductDetail.jsx:133-136 | every address matching the pattern passes the computed check |
| CheckoutForms.ValidateDigital | client/src/pages/DigitalProductDetail.jsx:125-139 | package, then a non-empty e-mail, then its shape; the first failure decides |
| CheckoutForms.ErrorOr | client/src/pages/ProductDetail.jsx:130 | the server's error text, or the page's fallback when it is empty |
| CheckoutForms.UploadProof | client/src/pages/ProductDetail.jsx:107-136 | an over-size file is refused before sending; otherwise the upload's URL and preview, or its error |
| GameCheckout.Load | client/src/pages/ProductDetail.jsx:40-70 | the first package is selected and every declared field has an empty answer |
| GameCheckout.Input | client/src/pages/ProductDetail.jsx:72-77 | only that answer changes |
| GameCheckout.Proceed | client/src/pages/ProductDetail.jsx:96-105 | the payment step opens only when the form passes; otherwise the first failure is shown |
| GameCheckout.Upload | client/src/pages/ProductDetail.jsx:107-136 | the proof state after an upload, as `UploadProof` decides |
| GameCheckout.RemoveProof | client/src/pages/ProductDetail.jsx:138-141 | the proof and its preview are cleared; nothing else changes |
| GameCheckout.Close | client/src/pages/ProductDetail.jsx:185-190 | the step closes and the proof and error clear; the package and answers stay |
| GameCheckout.CloseLaws | client/src/pages/ProductDetail.jsx:138-190 | closing twice is closing once; removing the proof first changes nothing |
| GameCheckout.Payload | client/src/pages/ProductDetail.jsx:161-166 | product, package (null when none), answers and proof, and nothing else |
| GameCheckout.AfterOrder | client/src/pages/ProductDetail.jsx:168-182 | a failed order shows its error; otherwise the link request decides between redirect and error |
| GameCheckout.Confirm | client/src/pages/ProductDetail.jsx:151-183 | as written, an accepted order is stored and the page then shows the link request's error |
| GameCheckout.ConfirmIntended | client/src/pages/ProductDetail.jsx:151-183 | with the corrected link handler, an accepted order leads to the WhatsApp link |
| GameCheckout.RetryStoresSecondOrder | client/src/pages/ProductDetail.jsx:151-183 | as written, confirming again after the error stores a second identical order |
| DigitalCheckout.Load | client/src/pages/DigitalProductDetail.jsx:84-96 | the first package is selected; no promo, proof or error |
| DigitalCheckout.UserData | client/src/pages/DigitalProductDetail.jsx:29-32 | the answers sent are exactly the e-mail and the name |
| DigitalCheckout.Proceed | client/src/pages/DigitalProductDetail.jsx:141-147 | the payment step opens only when the check passes |
| DigitalCheckout.ProceedNeedsEmail | client/src/pages/DigitalProductDetail.jsx:125-147 | only an address of the required shape opens the payment step |
| DigitalCheckout.Upload | client/src/pages/DigitalProductDetail.jsx:149-176 | the proof state after an upload, as `UploadProof` decides |
| DigitalCheckout.ApplyPromo | client/src/pages/DigitalProductDetail.jsx:192-214 | a blank code is refused on the page; without a package nothing happens; otherwise an accepted code's quote is applied and the error cleared, and a rejected code clears the promo and shows the server's message, or `Kode promo tidak valid` when it is empty |
| DigitalCheckout.BlankCodeSendsNothing | client/src/pages/DigitalProductDetail.jsx:193-196 | a blank code never consults the promo table |
| DigitalCheckout.RemovePromo | client/src/pages/DigitalProductDetail.jsx:216-220 | the promo, its code and its error are cleared; nothing else changes |
| DigitalCheckout.Close | client/src/pages/DigitalProductDetail.jsx:259-272 | everything `RemovePromo` clears, plus the step, the proof, the error and the order |
| DigitalCheckout.CloseLaws | client/src/pages/DigitalProductDetail.jsx:216-272 | closing subsumes removing the promo; closing twice is closing once |
| DigitalCheckout.FinalPrice | client/src/pages/DigitalProductDetail.jsx:275-280 | 0 without a found package; else the promo's final price when one is applied; else the package price |
| DigitalCheckout.AppliedPriceWithinPackagePrice | client/src/pages/DigitalProductDetail.jsx:192-280 | right after a promo is applied, the shown price lies between 0 and the package price |
| DigitalCheckout.Payload | client/src/pages/DigitalProductDetail.jsx:233-245 | product, package, answers and proof, plus the promo's fields exactly when one is applied |
| DigitalCheckout.Confirm | client/src/pages/DigitalProductDetail.jsx:222-257 | nothing is sent without a proof; a created order is shown; a refused one leaves the page as it was but for the server's error, or `Failed to process checkout` when it is empty |
| DigitalCheckout.PromoDoesNotReachOrder | client/src/pages/DigitalProductDetail.jsx:222-257 | an applied promo leaves the stored and shown order unchanged, at the package price |
| PromoAdmin.ActiveMeansRedeemable | client/src/pages/admin/PromoManagement.jsx:175-182 | the page calls a code active exactly when validation accepts it at a price meeting its minimum |
| PromoAdmin.UsageFlagMatchesValidation | client/src/pages/admin/PromoManagement.jsx:260 | the red usage count is exactly the validation's usage refusal |
| PromoAdmin.StatusLabel | client/src/pages/admin/PromoManagement.jsx:280-282 | 'Active' exactly when active; 'Disabled' exactly when disabled; 'Expired/Full' otherwise |
| PromoAdmin.ToggleBody | client/src/pages/admin/PromoManagement.jsx:157-164 | the body holds only the negated flag |
| PromoAdmin.ToggleFlipsOnlyEnabled | client/src/pages/admin/PromoManagement.jsx:157-164 | toggling flips the flag of that code and nothing else |
| PromoAdmin.ToggleTwice | client/src/pages/admin/PromoManagement.jsx:157-164 | toggling twice gives the table back |
| PromoAdmin.NumberOrNull | client/src/pages/admin/PromoManagement.jsx:106-108 | an empty optional input is sent as null; a given one as its number |
| PromoAdmin.Submit | client/src/pages/admin/PromoManagement.jsx:93-112 | refused exactly without a code or value; otherwise the code is upper-cased, the value and type sent as entered, each filled optional sent as its value and each empty one as null |
| PromoAdmin.SubmittedFormIsStored | client/src/pages/admin/PromoManagement.jsx:93-142 | a new code from an accepted form is stored with the form's values, and its status is read from the form |
| PromoAdmin.BlankFormRefused | client/src/pages/admin/PromoManagement.jsx:97-100 | the blank form is refused |
| ProductAdmin.OpenAsWritten | client/src/pages/admin/ProductManagement.jsx:48-70 | as written, an opened product has no category, service type, image or rows, and is unticked |
| ProductAdmin.Open | client/src/pages/admin/ProductManagement.jsx:48-70 | reading the sent keys, the dialog holds the product's category, type, flag and rows |
| ProductAdmin.RemoveImage | client/src/pages/admin/ProductManagement.jsx:141-144 | only the image is cleared |
| ProductAdmin.SubmitBody | client/src/pages/admin/ProductManagement.jsx:160-181 | the form's fields, the rows as JSON text and the flag |
| ProductAdmin.CreatedProductReopens | client/src/pages/admin/ProductManagement.jsx:48-181 | a created product reopens with the form and rows it was created from |
| ProductAdmin.SaveUnchangedAsWritten | client/src/pages/admin/ProductManagement.jsx:48-181 | as written, saving an untouched product disables it, empties its rows and clears its image |
| ProductAdmin.SaveUnchangedKeepsProduct | client/src/pages/admin/ProductManagement.jsx:48-181 | reading the sent keys, saving untouched keeps the product, except that a null image or description becomes empty |
| DigitalAdmin.ListedAsWritten | client/src/pages/admin/DigitalProductManagement.jsx:70-78 | keeps exactly the products the filter as written calls digital |
| DigitalAdmin.Listed | client/src/pages/admin/DigitalProductManagement.jsx:70-78 | keeps exactly the products the corrected filter calls digital |
| DigitalAdmin.ListedAsWrittenBySlug | client/src/pages/admin/DigitalProductManagement.jsx:70-78 | on server data, the list as written is the list by category slug |
| DigitalAdmin.ListedAsWrittenWithinListed | client/src/pages/admin/DigitalProductManagement.jsx:70-78 | the list as written is contained in the corrected one |
| DigitalAdmin.TabListAsWritten | client/src/pages/admin/DigitalProductManagement.jsx:99-105 | keeps exactly the listed products whose `service_type` (as read by the page) fits the tab |
| DigitalAdmin.TabList | client/src/pages/admin/DigitalProductManagement.jsx:99-105 | keeps exactly the listed products whose service type fits the tab |
| DigitalAdmin.TypeTabsEmptyAsWritten | client/src/pages/admin/DigitalProductManagement.jsx:99-105 | as written, the e-book and template tabs are empty on server data |
| DigitalAdmin.TabListSelects | client/src/pages/admin/DigitalProductManagement.jsx:99-105 | the 'all' tab shows everything; a tab shows exactly the products of its type |
| DigitalAdmin.OpenAsWritten | client/src/pages/admin/DigitalProductManagement.jsx:125-137 | as written, an opened product has no category, no service type and no rows, and is unticked |
| DigitalAdmin.Open | client/src/pages/admin/DigitalProductManagement.jsx:125-137 | reading the sent keys, the form holds the product's category, type, rows and flag |
| DigitalAdmin.Submit | client/src/pages/admin/DigitalProductManagement.jsx:289-332 | refused exactly when no category is chosen; otherwise name, slug, description, image, type, category and status are sent as in the form, and an empty checkout form is replaced by the default one |
| DigitalAdmin.EditRefusedAsWritten | client/src/pages/admin/DigitalProductManagement.jsx:129-297 | as written, saving an opened product is always refused |
| DigitalAdmin.EditPassesCheck | client/src/pages/admin/DigitalProductManagement.jsx:289-297 | reading the sent keys, an opened product passes the category check |
| DigitalAdmin.NewProductGetsDefaultFields | client/src/pages/admin/DigitalProductManagement.jsx:298-306 | a new product without a checkout form is stored with the default one, whose only required field is the e-mail |
| PackageAdmin.OpenAsWritten | client/src/pages/admin/PackageManagement.jsx:72-105 | as written, every opened package is unticked |
| PackageAdmin.Open | client/src/pages/admin/PackageManagement.jsx:72-105 | reading the sent flag, the dialog shows the package's name, description, price and flag |
| PackageAdmin.CreateBody | client/src/pages/admin/PackageManagement.jsx:148-186 | the form with the page's product id, parsed price and flag |
| PackageAdmin.CreatedPackageReopens | client/src/pages/admin/PackageManagement.jsx:72-186 | a valid new package is created and reopens with its form, minus the inputs not stored; as written, it reopens unticked |
| CategoryAdmin.ModeOf | client/src/pages/admin/CategoryManagement.jsx:46-57 | `/uploads` paths open as upload, `http` addresses as link, anything else as emoji |
| CategoryAdmin.Open | client/src/pages/admin/CategoryManagement.jsx:33-67 | the category's fields in the mode its icon calls for, with a preview exactly for non-emoji icons |
| CategoryAdmin.Close | client/src/pages/admin/CategoryManagement.jsx:69-77 | closed, blank, emoji mode, no preview, no error |
| CategoryAdmin.RemoveIcon | client/src/pages/admin/CategoryManagement.jsx:108-111 | only the icon and its preview are cleared |
| CategoryAdmin.UploadIcon | client/src/pages/admin/CategoryManagement.jsx:79-106 | a rejected file shows its error; an upload sets the icon and preview; a failure shows the server's error or the fallback |
| CategoryAdmin.CloseLaws | client/src/pages/admin/CategoryManagement.jsx:69-111 | closing twice is closing once; removing the icon first or twice changes nothing more |
| CategoryAdmin.CreateBody | client/src/pages/admin/CategoryManagement.jsx:113-137 | the body is the form as it stands |
| CategoryAdmin.CreatedCategoryReopens | client/src/pages/admin/CategoryManagement.jsx:33-137 | a created category reopens with its form, in its icon's mode |
| CategoryAdmin.UploadedIconReopensAsUpload | routes/upload.js:56 | an uploaded icon's path opens in upload mode with its preview |
| Dashboard.Counters | client/src/pages/admin/AdminDashboard.jsx:31-36 | three list lengths and the number of pending orders |
| Dashboard.PendingWithinOrders | client/src/pages/admin/AdminDashboard.jsx:35 | the pending and non-pending orders add up to all orders |
| Dashboard.Recent | client/src/pages/admin/AdminDashboard.jsx:38 | the first five orders, or all of them when there are fewer |
| Dashboard.RecentAreNewest | client/src/pages/admin/AdminDashboard.jsx:38 | on the newest-first listing, no order left out is newer than one shown |
| Dashboard.Badge | client/src/pages/admin/AdminDashboard.jsx:54-62 | each known status gets its badge; an unknown status looks like processing |
| Dashboard.BadgeOfStoredStatus | client/src/pages/admin/AdminDashboard.jsx:54-62 | on stored statuses the badge is injective |

## Left out

- **Infrastructure:**
  - I/O, the HTTP layer, authentication, multer's file storage and
    e-mail sending (`services/email.js`).
  - The server wiring in `server.js`. The promo and upload routers are
    modelled as if mounted, though `server.js` does not mount them.
- **Missing client wrappers:** the calls the pages make through
  `client/src/utils/api.js` to `validatePromoCode`,
  `uploadPaymentProof`, `getPaymentSettings`, `getImageUrl`,
  `getChangedFields` and the `patch…` helpers. Their definitions in
  `client/src/utils/api.js` are not modelled. The routes they target
  are modelled, and `getImageUrl` is a parameter.
- **Edit saves through `getChangedFields`:** the edit submissions of the
  promo, package, digital-product and category pages.
  - `getChangedFields` is not part of this model.
  - The packages route has no PATCH at all.
  - Only creation, and the product page's full-body update, are
    modelled.
- **Promo usage counter:**
  - `incrementPromoUsage` is never called by the order route. It is
    modelled on its own.
  - Its read-then-increment race is not modelled.
- **JavaScript built-ins:**
  - Unicode case mapping: `Text.Lower` and `Text.Upper` map ASCII
    letters only.
  - Floating-point rounding: money is `real`.
  - Date parsing and formatting, `toLocaleString`, `JSON.parse`,
    `JSON.stringify` and `encodeURIComponent` are parameters or
    pre-parsed values.
  - Route ids are taken as parsed integers. A non-numeric id (NaN) is
    not modelled.
- **Page details:**
  - File-reader preview timing, and the handlers' early return when no
    file is chosen.
  - The image-mode toggles of the product and package dialogs.
  - The `Settings.jsx` page, `OrderHistory.jsx`, the login page and
    `Home.jsx` rendering.
  - Category creation and the service-type auto-selection of the
    digital-product dialog (`handleCreateCategory`,
    `handleServiceTypeChange`).
- InputFields.UpdateField: requires an index inside the list. The page
  only calls it for rows it renders. An out-of-range index would leave
  holes in a JavaScript array.
- Dashboard.Badge: a status named like an `Object.prototype` member
  (`constructor`, `toString`, …) makes `badges[status]` an inherited
  function in JavaScript. The model gives it `badge-info`. Stored
  statuses are never such names.
- PromoAdmin.Submit: number inputs are options of parsed numbers. A
  non-numeric text in a number input cannot reach the handler, because
  the browser blocks it.
- PackageAdmin.CreateBody: the price is a parsed, non-negative real. The
  input is `required` with `min="0"`, so an empty or negative price
  never reaches the handler.
- CheckoutForms.FormSetPlaces: JavaScript lists an object's
  integer-like keys (`"0"`, `"12"`) first, in ascending numeric order,
  whatever the order they were added in. The model keeps the order of
  insertion for every key. The two agree only when no field name is a
  canonical array index.
- CheckoutForms.FormSetAppends: the same holds. A new integer-like key
  goes before the other keys, not after them.
- Message.FormatUserData: `Object.entries` follows the same key order,
  so with integer-like field names the lines come in a different order
  than the model's.
- Packages.Create: `isNaN(price)` coerces with `Number`, but the row
  stores `parseFloat(price)`. The model has one `Js.Numeric` for both.
  So `""`, `null` and `true` pass `isNaN` in the source and store NaN,
  and `"0x10"` passes as 16 and stores 0. The model reads each of these
  as one number for both steps.
- Packages.Update: the same conflation of `Number` and `parseFloat` for
  a sent price.
- Promo.Create: only an undefined `discount_value` is refused. A `null`
  or empty one passes, and `parseFloat` stores NaN. The model's
  `discountValue` is an option of a number, so these inputs are not
  represented.
- Promo.Update: dates are pre-parsed timestamps. A sent empty date text,
  which the route stores as null, is not represented.
- Promo.ToView: `created_at` and `updated_at` of `transformPromo` are
  not part of the view. The row has no update time.
- Promo.Validate: the answer's `valid: true` and its `message` text are
  not part of the quote.
- Ordering.NewestFirstOrder: the queries' `orderBy` gives no
  tie-break, and the text collation depends on the database provider
  named by `DATABASE_URL`. The id tie-break and the binary collation of
  `Ordering.TextLess` are the model's choice, so the order among equal
  keys is not the source's promise.

## Findings

| source | as written | input that shows it | evidently intended | confidence | as-written member | corrected member |
|---|---|---|---|---|---|---|
| routes/public.js:137 | `payment_proof` is read without being declared (only `product_id`, `package_id` and `user_data` are destructured), so a ReferenceError ends every request that passes the lookups in 500 | any body with a stored product and an enabled package | the proof is read from the body, and the link is returned | not executed | Storefront.CheckoutUrl | Storefront.CheckoutUrlIntended |
| routes/public.js:143-150 | values go into `String.replace` as replacement patterns, so `$$`, `$&` and similar in answers or names are expanded | the answer `US$$5` to `Catatan` is rendered as `US$5` | each value is inserted literally | not executed | Message.DoubledDollarCollapses | Message.DefaultMessageLiteral |
| client/src/pages/admin/DigitalProductManagement.jsx:70-78 | the digital filter reads `service_type`, which the routes never send, so only the category slug decides | an `E-Book` product under the category slug `novels` is not listed | the filter reads `serviceType` | not executed | DigitalAdmin.ListedAsWrittenBySlug | DigitalAdmin.Listed |
| client/src/pages/admin/DigitalProductManagement.jsx:99-105 | the tabs read `service_type`, so the e-book and template tabs are always empty | any product the routes send, on the e-book tab | the tabs read `serviceType` | not executed | DigitalAdmin.TypeTabsEmptyAsWritten | DigitalAdmin.TabListSelects |
| client/src/pages/DigitalProductDetail.jsx:99-106 | the type is read from `service_type`, so every product shows as a generic digital product | a product with service type `E-Book` | the type of the catalog page | not executed | ProductKind.DetailAsWrittenIsAlwaysGeneric | ProductKind.DetailAgreesWithCatalog |
| client/src/pages/admin/DigitalProductManagement.jsx:129 | an opened product's `category_id` is undefined, and the submit check refuses it | open any product and press save | the category is read from `categoryId` | not executed | DigitalAdmin.EditRefusedAsWritten | DigitalAdmin.EditPassesCheck |
| client/src/pages/admin/PackageManagement.jsx:82 | `pkg.enabled === 1` is false for the boolean the routes send | open an enabled package | the checkbox shows the stored flag | not executed | PackageAdmin.OpenAsWritten | PackageAdmin.CreatedPackageReopens |
| client/src/pages/admin/ProductManagement.jsx:51-60 | the dialog reads snake_case keys and `enabled === 1`, so saving an untouched product disables it, empties its checkout form and clears its image | open an enabled product with fields and an image, then save | the product is kept as it was | not executed | ProductAdmin.SaveUnchangedAsWritten | ProductAdmin.SaveUnchangedKeepsProduct |
| client/src/pages/ProductDetail.jsx:151-183 | with the link handler as written, a confirmed order is stored and the page shows an error; confirming again stores a second order | confirm, then confirm again | one order, then the WhatsApp link | not executed | GameCheckout.RetryStoresSecondOrder | GameCheckout.ConfirmIntended |
