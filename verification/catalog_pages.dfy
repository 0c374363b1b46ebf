/**
 * The storefront's two catalog pages (client/src/pages/ProductCatalog.jsx
 * and DigitalProductCatalog.jsx): a free-text search over name and
 * description, a product-type filter kept in the `type` query parameter,
 * and the link each product card points to.
 */
module CatalogPages {
  import opened Js
  import opened Text
  import opened Lists
  import opened ProductKind

  /** `name.toLowerCase().includes(q.toLowerCase()) ||
      description?.toLowerCase().includes(q.toLowerCase())` */
  predicate MatchesSearch(p: ProductJson, q: string) {
    Contains(Lower(p.name), Lower(q))
    || (p.description.Some? && Contains(Lower(p.description.value), Lower(q)))
  }

  /** An empty search box hides nothing. */
  lemma EmptySearchMatchesAll(p: ProductJson)
    ensures MatchesSearch(p, "")
  {
    assert OccursAt(Lower(p.name), "", 0);
  }

  /** The search ignores the case of ASCII letters in the query. */
  lemma SearchIgnoresCase(p: ProductJson, q: string)
    ensures MatchesSearch(p, Upper(q)) <==> MatchesSearch(p, q)
  {
    assert Lower(Upper(q)) == Lower(q) by {
      forall i | 0 <= i < |q| ensures Lower(Upper(q))[i] == Lower(q)[i] {
        var c := q[i];
        if IsUpperAscii(c) {
          assert UpperChar(c) == c;
        } else if IsLowerAscii(c) {
          assert LowerChar(UpperChar(c)) == c;
        }
      }
    }
  }

  /** The test of one product on ProductCatalog.jsx: 'all' and unknown
      filters keep every search match, 'game' only the non-digital ones,
      'digital' only the digital ones. */
  predicate CatalogKeep(q: string, filter: string, p: ProductJson) {
    var m := MatchesSearch(p, q);
    if filter == "all" then m
    else if filter == "game" then m && !CatalogIsDigital(p)
    else if filter == "digital" then m && CatalogIsDigital(p)
    else m
  }

  /** `filteredProducts` of ProductCatalog.jsx. */
  function CatalogList(ps: seq<ProductJson>, q: string, filter: string): (r: seq<ProductJson>)
    ensures SubList(r, ps)
    ensures forall i :: 0 <= i < |r| ==> MatchesSearch(r[i], q)
    ensures filter == "game" ==> forall i :: 0 <= i < |r| ==> !CatalogIsDigital(r[i])
    ensures filter == "digital" ==> forall i :: 0 <= i < |r| ==> CatalogIsDigital(r[i])
    ensures filter != "game" && filter != "digital" ==>
      forall i :: 0 <= i < |ps| && MatchesSearch(ps[i], q) ==> ps[i] in r
  {
    Filter(ps, p => CatalogKeep(q, filter, p))
  }

  /** The 'game' and 'digital' lists split the 'all' list: no product is in
      both, every product of 'all' is in one, and their lengths add up. */
  lemma GameDigitalPartition(ps: seq<ProductJson>, q: string)
    ensures var all, game, digital := CatalogList(ps, q, "all"), CatalogList(ps, q, "game"), CatalogList(ps, q, "digital");
      && |game| + |digital| == |all|
      && (forall i :: 0 <= i < |game| ==> game[i] !in digital)
      && (forall i :: 0 <= i < |all| ==> all[i] in game || all[i] in digital)
  {
    var all, game, digital := CatalogList(ps, q, "all"), CatalogList(ps, q, "game"), CatalogList(ps, q, "digital");
    CountSplit(ps, p => CatalogKeep(q, "all", p), p => CatalogKeep(q, "game", p), p => CatalogKeep(q, "digital", p));
    forall i | 0 <= i < |all| ensures all[i] in game || all[i] in digital {
      var p := all[i];
      assert p in ps && CatalogKeep(q, "all", p);
      var j :| 0 <= j < |ps| && ps[j] == p;
      assert CatalogKeep(q, "game", ps[j]) || CatalogKeep(q, "digital", ps[j]);
    }
  }

  /** `getProductLink` */
  function ProductLink(p: ProductJson): (r: string)
    ensures StartsWith(r, "/digital/") <==> CatalogIsDigital(p)
    ensures StartsWith(r, "/products/") <==> !CatalogIsDigital(p)
    ensures CatalogIsDigital(p) ==> r[|"/digital/"|..] == IntText(p.id)
    ensures !CatalogIsDigital(p) ==> r[|"/products/"|..] == IntText(p.id)
  {
    var prefix := if CatalogIsDigital(p) then "/digital/" else "/products/";
    var r := prefix + IntText(p.id);
    assert r[..|prefix|] == prefix;
    assert "/digital/"[1] != "/products/"[1];
    r
  }

  /** Two products get the same link only when they have the same id and
      the same kind. */
  lemma LinkIdentifiesProduct(p1: ProductJson, p2: ProductJson)
    requires ProductLink(p1) == ProductLink(p2)
    ensures p1.id == p2.id
    ensures CatalogIsDigital(p1) <==> CatalogIsDigital(p2)
  {
    var l := ProductLink(p1);
    if CatalogIsDigital(p1) {
      assert IntText(p1.id) == l[|"/digital/"|..] == IntText(p2.id);
    } else {
      assert IntText(p1.id) == l[|"/products/"|..] == IntText(p2.id);
    }
    IntTextInjective(p1.id, p2.id);
  }

  /** The query string as key/value pairs. */
  type Params = map<string, string>

  /** `useState(searchParams.get('type') || 'all')` */
  function InitialFilter(params: Params): (f: string)
    ensures f != ""
    ensures "type" !in params ==> f == "all"
  {
    if "type" in params && params["type"] != "" then params["type"] else "all"
  }

  /** `handleTypeFilterChange` / `handleFilterChange`: 'all' deletes the
      `type` parameter, any other filter sets it; no other parameter changes. */
  function SetTypeFilter(params: Params, filter: string): (r: Params)
    ensures filter == "all" ==> "type" !in r
    ensures filter != "all" ==> "type" in r && r["type"] == filter
    ensures forall k :: k != "type" ==> (k in r <==> k in params) && (k in r ==> r[k] == params[k])
  {
    if filter == "all" then params - {"type"} else params["type" := filter]
  }

  /** Reloading the page restores the filter the parameter was set to. */
  lemma FilterSurvivesReload(params: Params, filter: string)
    requires filter != ""
    ensures InitialFilter(SetTypeFilter(params, filter)) == filter
  {
  }

  /** The fetch filter of DigitalProductCatalog.jsx. */
  function DigitalProducts(ps: seq<ProductJson>): (r: seq<ProductJson>)
    ensures SubList(r, ps)
    ensures forall i :: 0 <= i < |r| ==> CatalogIsDigital(r[i])
    ensures forall i :: 0 <= i < |ps| && CatalogIsDigital(ps[i]) ==> ps[i] in r
  {
    Filter(ps, CatalogIsDigital)
  }

  /** `activeFilter.replace('template-', '')` */
  function FilterWord(filter: string): string {
    ReplaceFirst(filter, "template-", "")
  }

  /** The test of one product on DigitalProductCatalog.jsx. */
  predicate DigitalKeep(q: string, filter: string, p: ProductJson) {
    MatchesSearch(p, q) && (filter == "all" || Contains(KindName(CatalogType(p)), FilterWord(filter)))
  }

  /** `filteredProducts` of DigitalProductCatalog.jsx. */
  function DigitalList(ps: seq<ProductJson>, q: string, filter: string): (r: seq<ProductJson>)
    ensures SubList(r, ps)
    ensures forall i :: 0 <= i < |r| ==> MatchesSearch(r[i], q)
    ensures filter == "all" ==> forall i :: 0 <= i < |ps| && MatchesSearch(ps[i], q) ==> ps[i] in r
    ensures forall i :: 0 <= i < |ps| ==>
      (ps[i] in r <==> MatchesSearch(ps[i], q)
                       && (filter == "all" || Contains(KindName(CatalogType(ps[i])), FilterWord(filter))))
  {
    Filter(ps, p => DigitalKeep(q, filter, p))
  }

  /** The filter buttons' ids, each naming one product type. */
  const FilterIds: seq<Kind> := [EBook, Spreadsheet, WordPress]

  lemma FilterWordOfId(k: Kind)
    requires k in FilterIds
    ensures FilterWord(KindName(k)) == (if k == EBook then "ebook" else if k == Spreadsheet then "spreadsheet" else "wordpress")
  {
    if k == EBook {
      NotContainsChar("ebook", "template-", 0);
    } else if k == Spreadsheet {
      FilterWordDropsPrefix("spreadsheet");
    } else {
      FilterWordDropsPrefix("wordpress");
    }
  }

  /** The filter word of `template-<w>` is `w`. */
  lemma FilterWordDropsPrefix(w: string)
    ensures FilterWord("template-" + w) == w
  {
    ReplaceFirstAfterPrefix("", "template-", w, "");
    assert "" + "template-" + w == "template-" + w;
  }

  /** The word of each filter button occurs in its own type's name only. */
  lemma WordInKindName(k: Kind, j: Kind)
    requires k in FilterIds
    ensures Contains(KindName(j), FilterWord(KindName(k))) <==> j == k
  {
    FilterWordOfId(k);
    if k == EBook {
      EBookWordIn(j);
    } else if k == Spreadsheet {
      SpreadsheetWordIn(j);
    } else {
      WordPressWordIn(j);
    }
  }

  lemma EBookWordIn(j: Kind)
    ensures Contains(KindName(j), "ebook") <==> j == EBook
  {
    if j == EBook {
      ContainsIn("", "ebook", "");
      assert "" + "ebook" + "" == "ebook";
    } else {
      NotContainsChar(KindName(j), "ebook", 1);
    }
  }

  lemma SpreadsheetWordIn(j: Kind)
    ensures Contains(KindName(j), "spreadsheet") <==> j == Spreadsheet
  {
    if j == Spreadsheet {
      ContainsIn("template-", "spreadsheet", "");
      assert "template-" + "spreadsheet" + "" == "template-spreadsheet";
    } else {
      NotContainsChar(KindName(j), "spreadsheet", 7);
    }
  }

  lemma WordPressWordIn(j: Kind)
    ensures Contains(KindName(j), "wordpress") <==> j == WordPress
  {
    if j == WordPress {
      ContainsIn("template-", "wordpress", "");
      assert "template-" + "wordpress" + "" == "template-wordpress";
    } else {
      NotContainsChar(KindName(j), "wordpress", 0);
    }
  }

  /** Each filter button keeps exactly the search matches of its type. */
  lemma FilterButtonSelectsType(q: string, k: Kind, p: ProductJson)
    requires k in FilterIds
    ensures DigitalKeep(q, KindName(k), p) <==> MatchesSearch(p, q) && CatalogType(p) == k
  {
    WordInKindName(k, CatalogType(p));
  }

  /** `getServiceTypeDisplay`: the service type, or 'Digital' when there is
      none. */
  function ServiceTypeDisplay(p: ProductJson): (r: string)
    ensures r != ""
    ensures p.serviceType.Some? && p.serviceType.value != "" ==> r == p.serviceType.value
    ensures ((p.serviceType.None? || p.serviceType.value == "") && p.serviceTypeSnake.Some?
             && p.serviceTypeSnake.value != "") ==> r == p.serviceTypeSnake.value
    ensures FirstText(p.serviceType, p.serviceTypeSnake) == "" ==> r == "Digital"
    ensures FirstText(p.serviceType, p.serviceTypeSnake) != "" ==> r == FirstText(p.serviceType, p.serviceTypeSnake)
  {
    var t := FirstText(p.serviceType, p.serviceTypeSnake);
    if t != "" then t else "Digital"
  }
}
