/**
 * How the client pages tell digital products (e-books, templates) from game
 * top-ups, and which product type they show. Each page has its own test:
 *
 *  - the two catalogs (client/src/pages/ProductCatalog.jsx and
 *    DigitalProductCatalog.jsx) lower-case and delete `-` from the service
 *    type and the category slug, then look for ebook, template or digital;
 *  - the package admin page (admin/PackageManagement.jsx) looks only at the
 *    lower-cased service type, for ebook, e-book, template or digital;
 *  - the digital product admin page (admin/DigitalProductManagement.jsx)
 *    looks at `service_type` and at the raw category slug.
 *
 * The product routes send the product's columns under their Prisma names,
 * so the service type arrives as `serviceType`. The pages that read only
 * `service_type` (the digital product admin page and the digital product
 * detail page) therefore never see a service type: as written they classify
 * by category slug alone, or not at all. The corrected versions read
 * `serviceType || service_type`, as the catalogs do.
 */
module ProductKind {
  import opened Js
  import opened Text
  import opened Store

  /** A product as the pages hold it after `JSON.parse`: `serviceType` is
      the field the routes send, `serviceTypeSnake` the `service_type` field
      some pages read instead. `None` is a field the object does not have. */
  datatype ProductJson = ProductJson(
    id: int,
    name: string,
    description: Option<string>,
    serviceType: Option<string>,
    serviceTypeSnake: Option<string>,
    categorySlug: Option<string>)

  /** The JSON a product route sends for a product row: `...p`, plus
      `category_slug`. */
  function FromView(v: ProductView): (p: ProductJson)
    ensures FromServer(p)
    ensures p.id == v.product.id && p.name == v.product.name && p.description == v.product.description
    ensures p.serviceType == Some(v.product.serviceType) && p.categorySlug == Some(v.categorySlug)
  {
    ProductJson(v.product.id, v.product.name, v.product.description,
                Some(v.product.serviceType), None, Some(v.categorySlug))
  }

  /** What the routes send: `serviceType`, never `service_type`. */
  predicate FromServer(p: ProductJson) {
    p.serviceType.Some? && p.serviceTypeSnake.None?
  }

  /** `a || b || ''` over two optional string fields: the first non-empty one. */
  function FirstText(a: Option<string>, b: Option<string>): (r: string)
    ensures r != "" ==> (a.Some? && r == a.value) || (b.Some? && r == b.value)
    ensures a.Some? && a.value != "" ==> r == a.value
    ensures (a.None? || a.value == "") && b.Some? ==> r == b.value
  {
    if a.Some? && a.value != "" then a.value
    else if b.Some? then b.value
    else ""
  }

  /** The words that make a hyphen-stripped text digital. */
  predicate MentionsDigital(s: string) {
    Contains(s, "ebook") || Contains(s, "template") || Contains(s, "digital")
  }

  /** The lower-cased service type the catalogs look at. */
  function ServiceType(p: ProductJson): string {
    Lower(FirstText(p.serviceType, p.serviceTypeSnake))
  }

  /** `isDigitalProduct` of ProductCatalog.jsx, and the filter of the fetched
      list in DigitalProductCatalog.jsx. */
  predicate CatalogIsDigital(p: ProductJson) {
    var st := RemoveChar(ServiceType(p), '-');
    var cs := RemoveChar(Lower(FirstText(p.categorySlug, None)), '-');
    MentionsDigital(st) || MentionsDigital(cs)
  }

  /** `isDigitalProduct` of PackageManagement.jsx: false without a product;
      no hyphen stripping and no category slug. */
  predicate PackagePageIsDigital(p: Option<ProductJson>) {
    p.Some? &&
      var st := Lower(FirstText(p.value.serviceType, p.value.serviceTypeSnake));
      Contains(st, "ebook") || Contains(st, "e-book") || Contains(st, "template") || Contains(st, "digital")
  }

  /** The digital filter of DigitalProductManagement.jsx as written: the
      service type is read as `service_type`, the slug is not lower-cased. */
  predicate AdminIsDigitalAsWritten(p: ProductJson) {
    var st := Lower(FirstText(p.serviceTypeSnake, None));
    var cs := FirstText(p.categorySlug, None);
    Contains(st, "ebook") || Contains(st, "e-book") || Contains(st, "template") || Contains(st, "digital")
    || Contains(cs, "ebook") || Contains(cs, "template") || Contains(cs, "digital")
  }

  /** The same filter reading the service type the routes send. */
  predicate AdminIsDigital(p: ProductJson) {
    PackagePageIsDigital(Some(p)) || AdminSlugIsDigital(p)
  }

  predicate AdminSlugIsDigital(p: ProductJson) {
    var cs := FirstText(p.categorySlug, None);
    Contains(cs, "ebook") || Contains(cs, "template") || Contains(cs, "digital")
  }

  /** On what the routes send, the digital admin page decides by category
      slug alone. */
  lemma AdminAsWrittenIgnoresServiceType(p: ProductJson)
    requires FromServer(p)
    ensures AdminIsDigitalAsWritten(p) <==> AdminSlugIsDigital(p)
  {
    assert Lower(FirstText(p.serviceTypeSnake, None)) == "";
  }

  /** An e-book filed under a category whose slug says nothing is hidden by
      the page as written and shown by the corrected test. */
  lemma AdminAsWrittenHidesEBook()
    ensures var p := ProductJson(1, "Novel", None, Some("ebook"), None, Some("books"));
            FromServer(p) && !AdminIsDigitalAsWritten(p) && AdminIsDigital(p)
  {
    var p := ProductJson(1, "Novel", None, Some("ebook"), None, Some("books"));
    AdminAsWrittenIgnoresServiceType(p);
    BooksSlugNotAdmin(p);
    EBookIsPackageDigital(p);
  }

  lemma BooksSlugNotAdmin(p: ProductJson)
    requires p.categorySlug == Some("books")
    ensures !AdminSlugIsDigital(p)
  {
    NotContainsChar("books", "ebook", 0);
    NotContainsChar("books", "template", 0);
    NotContainsChar("books", "digital", 0);
  }

  lemma EBookIsPackageDigital(p: ProductJson)
    requires p.serviceType == Some("ebook")
    ensures PackagePageIsDigital(Some(p))
  {
    LowerKeeps("ebook");
    ContainsSelf("ebook");
  }

  /** A word with no `-` that occurs in `s` still occurs after deleting
      every `-`. */
  lemma ContainsAfterDashes(s: string, w: string)
    requires '-' !in w
    requires Contains(s, w)
    ensures Contains(RemoveChar(s, '-'), w)
  {
    ContainsRemoveChar(s, w, '-');
    RemoveCharAbsent(w, '-');
  }

  /** Deleting every `-` turns an "e-book" into an "ebook". */
  lemma HyphenatedEBook(s: string)
    requires Contains(s, "e-book")
    ensures Contains(RemoveChar(s, '-'), "ebook")
  {
    ContainsRemoveChar(s, "e-book", '-');
    EBookWithoutDash();
  }

  lemma EBookWithoutDash()
    ensures RemoveChar("e-book", '-') == "ebook"
  {
    RemoveCharBetween("e", "book", '-');
    assert "e" + ['-'] + "book" == "e-book";
    assert "e" + "book" == "ebook";
  }

  lemma HyphenNotEBook()
    ensures !Contains("e-book", "ebook")
  {
    assert "e-book"[0..5][1] != "ebook"[1];
    assert "e-book"[1..6][0] != "ebook"[0];
  }

  /** Every product the package page calls digital the catalogs call digital
      too (they read "e-book" as "ebook"). */
  lemma PackagePageImpliesCatalog(p: ProductJson)
    requires PackagePageIsDigital(Some(p))
    ensures CatalogIsDigital(p)
  {
    var st := ServiceType(p);
    var stripped := RemoveChar(st, '-');
    assert MentionsDigital(stripped) by {
      if Contains(st, "e-book") {
        HyphenatedEBook(st);
      } else if Contains(st, "ebook") {
        ContainsAfterDashes(st, "ebook");
      } else if Contains(st, "template") {
        ContainsAfterDashes(st, "template");
      } else {
        ContainsAfterDashes(st, "digital");
      }
    }
  }

  /** Every product the (corrected) digital admin page shows is a digital
      product of the catalogs. */
  lemma AdminImpliesCatalog(p: ProductJson)
    requires AdminIsDigital(p)
    ensures CatalogIsDigital(p)
  {
    if PackagePageIsDigital(Some(p)) {
      PackagePageImpliesCatalog(p);
    } else {
      var cs := FirstText(p.categorySlug, None);
      var stripped := RemoveChar(Lower(cs), '-');
      assert MentionsDigital(stripped) by {
        if Contains(cs, "ebook") {
          WordSurvivesCatalog(cs, "ebook");
        } else if Contains(cs, "template") {
          WordSurvivesCatalog(cs, "template");
        } else {
          WordSurvivesCatalog(cs, "digital");
        }
      }
    }
  }

  /** A lower-case word without `-` survives the catalogs' lower-casing and
      `-` deletion. */
  lemma WordSurvivesCatalog(s: string, w: string)
    requires '-' !in w && forall k :: 0 <= k < |w| ==> !IsUpperAscii(w[k])
    requires Contains(s, w)
    ensures Contains(RemoveChar(Lower(s), '-'), w)
  {
    ContainsLower(s, w);
    ContainsAfterDashes(Lower(s), w);
  }

  /** The converse fails: a category slug "e-book" is digital to the catalogs
      only. */
  lemma CatalogWiderThanAdmin()
    ensures var p := ProductJson(1, "Novel", None, Some("pdf"), None, Some("e-book"));
            CatalogIsDigital(p) && !AdminIsDigital(p)
  {
    var p := ProductJson(1, "Novel", None, Some("pdf"), None, Some("e-book"));
    HyphenatedSlugIsDigital(p);
    PdfIsNotDigital(p);
    HyphenatedSlugIsNotAdmin(p);
  }

  lemma HyphenatedSlugIsDigital(p: ProductJson)
    requires p.categorySlug == Some("e-book")
    ensures CatalogIsDigital(p)
  {
    LowerKeeps("e-book");
    ContainsSelf("e-book");
    HyphenatedEBook("e-book");
  }

  lemma PdfIsNotDigital(p: ProductJson)
    requires p.serviceType == Some("pdf")
    ensures !PackagePageIsDigital(Some(p))
  {
    LowerKeeps("pdf");
    NotContainsChar("pdf", "ebook", 0);
    NotContainsChar("pdf", "e-book", 0);
    NotContainsChar("pdf", "template", 0);
    NotContainsChar("pdf", "digital", 1);
  }

  lemma HyphenatedSlugIsNotAdmin(p: ProductJson)
    requires p.categorySlug == Some("e-book")
    ensures !AdminSlugIsDigital(p)
  {
    HyphenNotEBook();
    NotContainsChar("e-book", "template", 0);
    NotContainsChar("e-book", "digital", 0);
  }

  /** The product types of the digital pages, in the order they are tried. */
  datatype Kind = EBook | Spreadsheet | WordPress | Template | DigitalProduct

  function KindName(k: Kind): string {
    match k
    case EBook => "ebook"
    case Spreadsheet => "template-spreadsheet"
    case WordPress => "template-wordpress"
    case Template => "template"
    case DigitalProduct => "digital-product"
  }

  /** The words that select each type. The e-book words differ per page. */
  function Words(k: Kind, eBookWords: seq<string>): seq<string> {
    match k
    case EBook => eBookWords
    case Spreadsheet => ["spreadsheet", "excel", "sheet"]
    case WordPress => ["wordpress", "theme"]
    case Template => ["template"]
    case DigitalProduct => []
  }

  predicate MentionsAny(st: string, words: seq<string>) {
    exists i | 0 <= i < |words| :: Contains(st, words[i])
  }

  const TriedKinds: seq<Kind> := [EBook, Spreadsheet, WordPress, Template]

  /** The reference reading: the first type, in the order tried, whose words
      the service type mentions; `digital-product` when none does. */
  function FirstKind(st: string, kinds: seq<Kind>, eBookWords: seq<string>): (k: Kind)
    ensures k == DigitalProduct || k in kinds
  {
    if |kinds| == 0 then DigitalProduct
    else if MentionsAny(st, Words(kinds[0], eBookWords)) then kinds[0]
    else FirstKind(st, kinds[1..], eBookWords)
  }

  /** The one-by-one tests of `getProductType`, given the e-book test. */
  function TypeOf(st: string, eBook: bool): Kind {
    if eBook then EBook
    else if Contains(st, "spreadsheet") || Contains(st, "excel") || Contains(st, "sheet") then Spreadsheet
    else if Contains(st, "wordpress") || Contains(st, "theme") then WordPress
    else if Contains(st, "template") then Template
    else DigitalProduct
  }

  /** `getProductType` of DigitalProductCatalog.jsx. */
  function CatalogType(p: ProductJson): (k: Kind)
    ensures k == FirstKind(ServiceType(p), TriedKinds, ["ebook", "e-book"])
  {
    var st := ServiceType(p);
    TypeOfIsFirstKind(st, ["ebook", "e-book"]);
    TypeOf(st, Contains(st, "ebook") || Contains(st, "e-book"))
  }

  /** `getProductType` of DigitalProductDetail.jsx as written: it reads
      `product?.service_type` and knows only "ebook" for e-books. */
  function DetailTypeAsWritten(p: Option<ProductJson>): (k: Kind)
    ensures p.Some? ==> k == FirstKind(Lower(FirstText(p.value.serviceTypeSnake, None)), TriedKinds, ["ebook"])
    ensures p.None? ==> k == DigitalProduct
  {
    var st := if p.Some? then Lower(FirstText(p.value.serviceTypeSnake, None)) else "";
    TypeOfIsFirstKind(st, ["ebook"]);
    TypeOf(st, Contains(st, "ebook"))
  }

  /** The same reading `serviceType || service_type`. */
  function DetailType(p: Option<ProductJson>): (k: Kind)
    ensures p.Some? ==> k == FirstKind(ServiceType(p.value), TriedKinds, ["ebook"])
    ensures p.None? ==> k == DigitalProduct
  {
    var st := if p.Some? then ServiceType(p.value) else "";
    TypeOfIsFirstKind(st, ["ebook"]);
    TypeOf(st, Contains(st, "ebook"))
  }

  lemma TypeOfIsFirstKind(st: string, eBookWords: seq<string>)
    ensures TypeOf(st, MentionsAny(st, eBookWords)) == FirstKind(st, TriedKinds, eBookWords)
    ensures eBookWords == ["ebook", "e-book"] ==>
      MentionsAny(st, eBookWords) == (Contains(st, "ebook") || Contains(st, "e-book"))
    ensures eBookWords == ["ebook"] ==> MentionsAny(st, eBookWords) == Contains(st, "ebook")
  {
    var w1 := Words(Spreadsheet, eBookWords);
    var w2 := Words(WordPress, eBookWords);
    var w3 := Words(Template, eBookWords);
    assert MentionsAny(st, w1) == (Contains(st, w1[0]) || Contains(st, w1[1]) || Contains(st, w1[2]));
    assert MentionsAny(st, w2) == (Contains(st, w2[0]) || Contains(st, w2[1]));
    assert MentionsAny(st, w3) == Contains(st, w3[0]);
    if eBookWords == ["ebook", "e-book"] {
      assert MentionsAny(st, eBookWords) == (Contains(st, eBookWords[0]) || Contains(st, eBookWords[1]));
    }
    if eBookWords == ["ebook"] {
      assert MentionsAny(st, eBookWords) == Contains(st, eBookWords[0]);
    }
    var k3 := FirstKind(st, [Template], eBookWords);
    assert [Template][1..] == [];
    assert k3 == if MentionsAny(st, w3) then Template else DigitalProduct;
    var k2 := FirstKind(st, [WordPress, Template], eBookWords);
    assert [WordPress, Template][1..] == [Template];
    assert k2 == if MentionsAny(st, w2) then WordPress else k3;
    var k1 := FirstKind(st, [Spreadsheet, WordPress, Template], eBookWords);
    assert [Spreadsheet, WordPress, Template][1..] == [WordPress, Template];
    assert k1 == if MentionsAny(st, w1) then Spreadsheet else k2;
    assert TriedKinds[1..] == [Spreadsheet, WordPress, Template];
    assert FirstKind(st, TriedKinds, eBookWords) == if MentionsAny(st, eBookWords) then EBook else k1;
  }

  /** What the routes send never reaches the detail page's type test: every
      product shows as a generic digital product. */
  lemma DetailAsWrittenIsAlwaysGeneric(p: ProductJson)
    requires FromServer(p)
    ensures DetailTypeAsWritten(Some(p)) == DigitalProduct
  {
    assert Lower(FirstText(p.serviceTypeSnake, None)) == "";
    NotContainsChar("", "spreadsheet", 0);
    NotContainsChar("", "excel", 0);
    NotContainsChar("", "sheet", 0);
    NotContainsChar("", "wordpress", 0);
    NotContainsChar("", "theme", 0);
    NotContainsChar("", "template", 0);
    NotContainsChar("", "ebook", 0);
  }

  /** Reading the right field, the detail page agrees with the catalog except
      for service types that spell "e-book" and never "ebook". */
  lemma DetailAgreesWithCatalog(p: ProductJson)
    requires !Contains(ServiceType(p), "e-book") || Contains(ServiceType(p), "ebook")
    ensures DetailType(Some(p)) == CatalogType(p)
  {
    var st := ServiceType(p);
    TypeOfIsFirstKind(st, ["ebook"]);
    TypeOfIsFirstKind(st, ["ebook", "e-book"]);
  }

  /** ... and such a service type is an e-book to the catalog, a generic
      digital product to the detail page. */
  lemma DetailMissesHyphenatedEBook()
    ensures var p := ProductJson(1, "Novel", None, Some("e-book"), None, Some("books"));
            CatalogType(p) == EBook && DetailType(Some(p)) == DigitalProduct
  {
    var p := ProductJson(1, "Novel", None, Some("e-book"), None, Some("books"));
    HyphenatedEBookType(p);
    HyphenatedEBookDetail(p);
  }

  lemma HyphenatedEBookType(p: ProductJson)
    requires p.serviceType == Some("e-book")
    ensures CatalogType(p) == EBook
  {
    LowerKeeps("e-book");
    ContainsSelf("e-book");
  }

  lemma HyphenatedEBookDetail(p: ProductJson)
    requires p.serviceType == Some("e-book")
    ensures DetailType(Some(p)) == DigitalProduct
  {
    var st := "e-book";
    LowerKeeps(st);
    HyphenNotEBook();
    assert DetailType(Some(p)) == TypeOf(st, false);
    HyphenatedEBookNoOtherType();
  }

  lemma HyphenatedEBookNoOtherType()
    ensures TypeOf("e-book", false) == DigitalProduct
  {
    var st := "e-book";
    NotContainsChar(st, "spreadsheet", 0);
    NotContainsChar(st, "excel", 1);
    NotContainsChar(st, "sheet", 0);
    NotContainsChar(st, "wordpress", 0);
    NotContainsChar(st, "theme", 0);
    NotContainsChar(st, "template", 0);
  }
}
