/** The sitemap index and its pages over a fixed catalog. */
module Sitemap {
  import opened Wrappers
  import opened Uuids
  import opened Orders
  import opened CatalogTables
  import opened CatalogSaveSpec
  import opened CatalogQuery
  import opened CatalogPages
  import opened CatalogPublic
  import opened Decimals
  import opened FilterParsing
  import opened Utf8

  const PAGE_SIZE: nat := 48
  const STATIC_PATHS: seq<string> := ["/ru/", "/ro/", "/ru/catalog/", "/ro/catalog/"]

  /** How many pages the index lists: enough for every product, and one even for none. */
  function IndexPages(total: nat): (n: nat)
    ensures n >= 1
  {
    var pages := PageCount(total, PAGE_SIZE);
    if pages < 1 then 1 else pages
  }

  function ProductPath(locale: string, slug: string): string
  {
    "/" + locale + "/catalog/" + slug + "/"
  }

  /** Two paths per product, in the order of the products. */
  function ProductPaths(slugs: seq<string>): (r: seq<string>)
    ensures |r| == 2 * |slugs|
  {
    if slugs == [] then []
    else
      var last := slugs[|slugs| - 1];
      ProductPaths(slugs[..|slugs| - 1]) + [ProductPath("ru", last), ProductPath("ro", last)]
  }

  function LocaleAt(i: nat): string { if i % 2 == 0 then "ru" else "ro" }

  lemma {:induction false} PathAt(slugs: seq<string>, i: nat)
    requires i < 2 * |slugs|
    ensures ProductPaths(slugs)[i] == ProductPath(LocaleAt(i), slugs[i / 2])
  {
    if i < 2 * (|slugs| - 1) { PathAt(slugs[..|slugs| - 1], i); }
  }

  function PagePaths(page: nat, slugs: seq<string>): seq<string>
  {
    if page == 1 then STATIC_PATHS + ProductPaths(slugs) else ProductPaths(slugs)
  }

  /** GET /sitemaps/[page].xml with what the API answered for that page. None is a 404. */
  method SitemapPage(page: int, total: nat, slugs: seq<string>) returns (r: Option<seq<string>>)
    ensures r.Some? <==> 1 <= page <= MAX_PAGE && page <= IndexPages(total)
    ensures r.Some? ==> r.value == PagePaths(page, slugs)
  {
    if page < 1 || page > MAX_PAGE { return None; }
    if page > IndexPages(total) { return None; }
    var paths: seq<string> := [];
    var i := 0;
    while i < |slugs|
      invariant 0 <= i <= |slugs|
      invariant paths == ProductPaths(slugs[..i])
    {
      var locales := ["ru", "ro"];
      paths := paths + [ProductPath(locales[0], slugs[i]), ProductPath(locales[1], slugs[i])];
      assert slugs[..i + 1][..i] == slugs[..i];
      i := i + 1;
    }
    assert slugs[..i] == slugs;
    if page == 1 { paths := STATIC_PATHS + paths; }
    r := Some(paths);
  }

  // The whole sitemap.

  function Slugs(t: Tables, ps: seq<Uuid>): (r: seq<string>)
    requires forall p :: p in ps ==> p in t.products
    ensures |r| == |ps|
  {
    seq(|ps|, i requires 0 <= i < |ps| => assert ps[i] in ps; t.products[ps[i]].slug)
  }

  /** What the API lists for the sitemap. */
  const FEED: Filter := Unfiltered("ru", "newest", 1, PAGE_SIZE)

  /** What the sitemap asks the API for page `k`. */
  function FeedRequest(k: nat): Parameters { map["page" := Printed(k), "limit" := "48"] }

  /** The API accepts the request of every page the sitemap may list, and understands it. */
  lemma FeedRequestIsUnderstood(k: nat)
    requires 1 <= k <= MAX_PAGE
    ensures TextsOk(FeedRequest(k)) && NumbersOk(FeedRequest(k)) && FilterOf(FeedRequest(k)) == FEED.(page := k)
  {
    var q := FeedRequest(k);
    assert Printed(48) == "48";
    assert Decimal("48") == 48 by { assert Decimal(Printed(48)) == 48; }
    assert Parameter(q, "page") == Printed(k) && Parameter(q, "limit") == "48";
    assert Parameter(q, "locale") == "" && Parameter(q, "q") == "" && Encode("") == [];
  }

  lemma ListedIsKnown(t: Tables, coll: Collation, m: Matcher, k: nat)
    requires coll.Valid() && k >= 1
    ensures forall p :: p in Page(t, coll, FEED.(page := k), false, m) ==> p in t.products
  {
    var f := FEED.(page := k);
    var s := Listing(t, coll, f, false, m);
    SliceWithin(s, Offset(k, f.limit), f.limit);
  }

  lemma SliceWithin<T>(s: seq<T>, offset: nat, limit: nat)
    ensures forall x :: x in Slice(s, offset, limit) ==> x in s
  {
  }

  ghost function Feed(t: Tables, coll: Collation, m: Matcher, k: nat): (ps: seq<Uuid>)
    requires coll.Valid() && k >= 1
    ensures forall p :: p in ps ==> p in t.products
  {
    ListedIsKnown(t, coll, m, k);
    Page(t, coll, FEED.(page := k), false, m)
  }

  /** The entries of the first `n` pages of the index, one page after the other. */
  ghost function Entries(t: Tables, coll: Collation, m: Matcher, n: nat): seq<string>
    requires coll.Valid()
  {
    if n == 0 then [] else Entries(t, coll, m, n - 1) + PagePaths(n, Slugs(t, Feed(t, coll, m, n)))
  }

  lemma {:induction false} ProductPathsConcat(a: seq<string>, b: seq<string>)
    ensures ProductPaths(a + b) == ProductPaths(a) + ProductPaths(b)
  {
    if b == [] {
      assert a + b == a;
    } else {
      ProductPathsConcat(a, b[..|b| - 1]);
      assert (a + b)[..|a + b| - 1] == a + b[..|b| - 1];
    }
  }

  lemma SlugsConcat(t: Tables, a: seq<Uuid>, b: seq<Uuid>)
    requires forall p :: p in a + b ==> p in t.products
    ensures (forall p :: p in a ==> p in t.products) && (forall p :: p in b ==> p in t.products)
    ensures Slugs(t, a + b) == Slugs(t, a) + Slugs(t, b)
  {
    assert forall p :: p in a ==> p in a + b;
    assert forall p :: p in b ==> p in a + b;
  }

  lemma {:induction false} PagesAreKnown(t: Tables, coll: Collation, m: Matcher, n: nat)
    requires coll.Valid()
    ensures forall p :: p in Pages(t, coll, FEED, false, m, n) ==> p in t.products
  {
    hide Listing, Page, Slice, Offset;
    if n > 0 {
      PagesAreKnown(t, coll, m, n - 1);
      ListedIsKnown(t, coll, m, n);
    }
  }

  /** What the first `n` pages of the index should say about the products `ps`. */
  function Heading(n: nat, t: Tables, ps: seq<Uuid>): seq<string>
    requires forall p :: p in ps ==> p in t.products
  {
    (if n == 0 then [] else STATIC_PATHS) + ProductPaths(Slugs(t, ps))
  }

  lemma OneMorePage(n: nat, t: Tables, before: seq<Uuid>, page: seq<Uuid>)
    requires n >= 1 && (n == 1 ==> before == [])
    requires (forall p :: p in before ==> p in t.products) && (forall p :: p in page ==> p in t.products)
    ensures forall p :: p in before + page ==> p in t.products
    ensures Heading(n - 1, t, before) + PagePaths(n, Slugs(t, page)) == Heading(n, t, before + page)
  {
    hide ProductPaths, Slugs;
    assert forall p :: p in before + page ==> p in t.products;
    SlugsConcat(t, before, page);
    ProductPathsConcat(Slugs(t, before), Slugs(t, page));
  }

  lemma {:induction false} EntriesArePaths(t: Tables, coll: Collation, m: Matcher, n: nat)
    requires coll.Valid() && forall p :: p in Pages(t, coll, FEED, false, m, n) ==> p in t.products
    ensures Entries(t, coll, m, n) == Heading(n, t, Pages(t, coll, FEED, false, m, n))
  {
    hide Listing, Page, Slice, Offset, PagePaths;
    if n > 0 {
      PagesAreKnown(t, coll, m, n - 1);
      EntriesArePaths(t, coll, m, n - 1);
      OneMorePage(n, t, Pages(t, coll, FEED, false, m, n - 1), Feed(t, coll, m, n));
    }
  }

  lemma PathIsInjective(l: string, a: string, k: string, b: string)
    requires l in LOCALES && k in LOCALES && ProductPath(l, a) == ProductPath(k, b)
    ensures l == k && a == b
  {
    var x, y := ProductPath(l, a), ProductPath(k, b);
    assert x[2] == l[1] && y[2] == k[1];
    assert x[12..|x| - 1] == a && y[12..|y| - 1] == b;
  }

  lemma PathsDistinct(slugs: seq<string>)
    requires Distinct(slugs)
    ensures Distinct(ProductPaths(slugs))
  {
    var r := ProductPaths(slugs);
    forall i, j | 0 <= i < j < |r| ensures r[i] != r[j] {
      PathAt(slugs, i);
      PathAt(slugs, j);
      if r[i] == r[j] { PathIsInjective(LocaleAt(i), slugs[i / 2], LocaleAt(j), slugs[j / 2]); }
    }
  }

  lemma PathLength(l: string, slug: string)
    requires l in LOCALES
    ensures |ProductPath(l, slug)| == 13 + |slug|
  {
  }

  lemma StaticPathsApart(slugs: seq<string>, i: nat, j: nat)
    requires i < |ProductPaths(slugs)| && j < 4 && forall k :: 0 <= k < |slugs| ==> slugs[k] != ""
    ensures ProductPaths(slugs)[i] != STATIC_PATHS[j]
  {
    PathAt(slugs, i);
    PathLength(LocaleAt(i), slugs[i / 2]);
    assert |STATIC_PATHS[j]| <= 12;
  }

  lemma StaticPathsDistinct()
    ensures Distinct(STATIC_PATHS)
  {
    assert "/ru/"[2] != "/ro/"[2] && "/ru/catalog/"[2] != "/ro/catalog/"[2];
  }

  /** Within the page cap the listed pages are all served, and together they hold the four static paths
      and one path per locale for every active product: 2 * total + 4 paths, none of them twice. */
  lemma SitemapIsComplete(t: Tables, coll: Collation, m: Matcher)
    requires coll.Valid() && UniqueSlugs(t.products) && PageCount(Total(t, FEED, false, m), PAGE_SIZE) <= MAX_PAGE
    requires forall p :: p in t.products ==> t.products[p].slug != ""
    ensures var n := IndexPages(Total(t, FEED, false, m));
      var ps := Listing(t, coll, FEED, false, m);
      && n <= MAX_PAGE
      && Entries(t, coll, m, n) == STATIC_PATHS + ProductPaths(Slugs(t, ps))
      && |Entries(t, coll, m, n)| == 2 * Total(t, FEED, false, m) + 4
      && Distinct(Entries(t, coll, m, n))
  {
    var total := Total(t, FEED, false, m);
    var n, ps := IndexPages(total), Listing(t, coll, FEED, false, m);
    PagesAreSlices(t, coll, FEED, false, m, n);
    EnoughSlices(ps, PAGE_SIZE, n);
    PagesAreKnown(t, coll, m, n);
    EntriesArePaths(t, coll, m, n);
    SitemapHasNoRepeats(t, ps);
  }

  lemma SitemapHasNoRepeats(t: Tables, ps: seq<Uuid>)
    requires Distinct(ps) && UniqueSlugs(t.products) && forall p :: p in ps ==> p in t.products
    requires forall p :: p in t.products ==> t.products[p].slug != ""
    ensures Distinct(STATIC_PATHS + ProductPaths(Slugs(t, ps)))
  {
    var slugs := Slugs(t, ps);
    assert forall i :: 0 <= i < |ps| ==> ps[i] in ps;
    assert Distinct(slugs);
    PathsDistinct(slugs);
    StaticPathsDistinct();
    forall i: nat, j: nat | i < |ProductPaths(slugs)| && j < 4 ensures ProductPaths(slugs)[i] != STATIC_PATHS[j] {
      StaticPathsApart(slugs, i, j);
    }
  }

  lemma PathListed(slugs: seq<string>, l: string, slug: string)
    requires l in LOCALES
    ensures ProductPath(l, slug) in ProductPaths(slugs) <==> slug in slugs
  {
    var r := ProductPaths(slugs);
    if k :| 0 <= k < |r| && r[k] == ProductPath(l, slug) {
      PathAt(slugs, k);
      PathIsInjective(l, slug, LocaleAt(k), slugs[k / 2]);
    }
    if j :| 0 <= j < |slugs| && slugs[j] == slug {
      var k := if l == "ru" then 2 * j else 2 * j + 1;
      PathAt(slugs, k);
      assert r[k] == ProductPath(l, slug);
    }
  }

  lemma NotStatic(l: string, slug: string)
    requires l in LOCALES && slug != ""
    ensures ProductPath(l, slug) !in STATIC_PATHS
  {
    PathLength(l, slug);
    assert forall j :: 0 <= j < 4 ==> |STATIC_PATHS[j]| <= 12;
  }

  lemma SlugListed(t: Tables, ps: seq<Uuid>, p: Uuid)
    requires UniqueSlugs(t.products) && p in t.products && forall q :: q in ps ==> q in t.products
    ensures t.products[p].slug in Slugs(t, ps) <==> p in ps
  {
    var slugs := Slugs(t, ps);
    if k :| 0 <= k < |slugs| && slugs[k] == t.products[p].slug { assert ps[k] in ps; }
    if k :| 0 <= k < |ps| && ps[k] == p { assert slugs[k] == t.products[p].slug; }
  }

  /** The product is active and some variant of it is available. */
  ghost predicate Sold(t: Tables, p: Uuid)
  {
    && p in t.products && t.products[p].status == "active"
    && exists v :: v in t.variants && t.variants[v].product == p && t.variants[v].active
  }

  function RussianAddress(slug: string): string { "/ru/catalog/" + slug + "/" }

  function RomanianAddress(slug: string): string { "/ro/catalog/" + slug + "/" }

  ghost predicate ProductAddress(t: Tables, x: string)
  {
    exists p :: Sold(t, p) && (x == RussianAddress(t.products[p].slug) || x == RomanianAddress(t.products[p].slug))
  }

  lemma AddressOfPath(slug: string)
    ensures ProductPath("ru", slug) == RussianAddress(slug)
    ensures ProductPath("ro", slug) == RomanianAddress(slug)
  {
    assert "/" + "ru" + "/catalog/" == "/ru/catalog/" && "/" + "ro" + "/catalog/" == "/ro/catalog/";
  }

  lemma PathIsAddress(t: Tables, ps: seq<Uuid>, x: string)
    requires (forall p :: p in ps ==> p in t.products) && forall p :: p in ps ==> Sold(t, p)
    requires x in ProductPaths(Slugs(t, ps))
    ensures ProductAddress(t, x)
  {
    var slugs := Slugs(t, ps);
    var i :| 0 <= i < |ProductPaths(slugs)| && ProductPaths(slugs)[i] == x;
    PathAt(slugs, i);
    AddressOfPath(slugs[i / 2]);
    hide ProductPaths, ProductPath, RussianAddress, RomanianAddress;
    assert ps[i / 2] in ps;
  }

  lemma AddressIsPath(t: Tables, ps: seq<Uuid>, p: Uuid)
    requires (forall q :: q in ps ==> q in t.products) && p in ps
    ensures RussianAddress(t.products[p].slug) in ProductPaths(Slugs(t, ps))
    ensures RomanianAddress(t.products[p].slug) in ProductPaths(Slugs(t, ps))
  {
    var slugs, slug := Slugs(t, ps), t.products[p].slug;
    var j :| 0 <= j < |ps| && ps[j] == p;
    assert slugs[j] == slug;
    PathListed(slugs, "ru", slug);
    PathListed(slugs, "ro", slug);
    AddressOfPath(slug);
  }

  lemma PathsAreAddresses(t: Tables, ps: seq<Uuid>, x: string)
    requires forall p :: p in ps <==> Sold(t, p)
    ensures forall p :: p in ps ==> p in t.products
    ensures x in ProductPaths(Slugs(t, ps)) <==> ProductAddress(t, x)
  {
    assert forall p :: p in ps ==> p in t.products;
    hide Sold, ProductPaths, Slugs, RussianAddress, RomanianAddress;
    if x in ProductPaths(Slugs(t, ps)) { PathIsAddress(t, ps, x); }
    if p :| Sold(t, p) && (x == RussianAddress(t.products[p].slug) || x == RomanianAddress(t.products[p].slug)) {
      AddressIsPath(t, ps, p);
    }
  }

  lemma FeedIsSold(t: Tables, m: Matcher, p: Uuid)
    requires Presentable(t)
    ensures Matches(t, FEED, false, m, p) <==> Sold(t, p)
  {
    UnfilteredIsOnShow(t, FEED, m, p);
    hide Matches, Presentable;
  }

  /** What the listed pages hold, address by address: the four static ones, and for each active product with an
      available variant its page in both languages. */
  lemma SitemapEntriesExactly(t: Tables, coll: Collation, m: Matcher, x: string)
    requires Presentable(t) && coll.Valid() && UniqueSlugs(t.products)
    requires PageCount(Total(t, FEED, false, m), PAGE_SIZE) <= MAX_PAGE
    requires forall q :: q in t.products ==> t.products[q].slug != ""
    ensures x in Entries(t, coll, m, IndexPages(Total(t, FEED, false, m))) <==>
      x in ["/ru/", "/ro/", "/ru/catalog/", "/ro/catalog/"] || ProductAddress(t, x)
  {
    SitemapIsComplete(t, coll, m);
    forall p { FeedIsSold(t, m, p); }
    PathsAreAddresses(t, Listing(t, coll, FEED, false, m), x);
    hide Presentable, Matches, Sold, ProductAddress, ProductPaths, Slugs, UniqueSlugs;
  }

  /** How many pages that is: one at least, and no empty one after it. */
  lemma IndexPagesExactly(total: nat)
    ensures var n := IndexPages(total); total <= 48 * n && (n == 1 || 48 * (n - 1) < total)
  {
    PagesAreNeeded(total, 48);
  }

  /** In either locale a product's path is in the sitemap exactly when its slug is publicly findable. */
  lemma SitemapListsFindable(t: Tables, coll: Collation, m: Matcher, p: Uuid, l: string)
    requires Presentable(t) && coll.Valid() && UniqueSlugs(t.products) && p in t.products && l in LOCALES
    requires PageCount(Total(t, FEED, false, m), PAGE_SIZE) <= MAX_PAGE
    requires forall q :: q in t.products ==> t.products[q].slug != ""
    ensures ProductPath(l, t.products[p].slug) in Entries(t, coll, m, IndexPages(Total(t, FEED, false, m))) <==>
            FoundPublicly(t, t.products[p].slug, p)
  {
    SitemapIsComplete(t, coll, m);
    var ps := Listing(t, coll, FEED, false, m);
    FoundIffMatches(t, FEED, m, p);
    SlugListed(t, ps, p);
    PathListed(Slugs(t, ps), l, t.products[p].slug);
    NotStatic(l, t.products[p].slug);
  }
}
