/** What the public API shows: available variants, products found by slug, the unfiltered list. */
module CatalogPublic {
  import opened Uuids
  import opened Utf8
  import opened CatalogTables
  import opened CatalogSaveSpec
  import opened CatalogRuns
  import opened CatalogOffers
  import opened CatalogQuery
  import opened CatalogPages

  function Available(vs: seq<VariantDoc>): seq<VariantDoc>
  {
    if vs == [] then []
    else
      var rest := Available(vs[..|vs| - 1]);
      if vs[|vs| - 1].active then rest + [vs[|vs| - 1]] else rest
  }

  lemma {:induction false} AvailableMeans(vs: seq<VariantDoc>, v: VariantDoc)
    ensures v in Available(vs) <==> v in vs && v.active
  {
    if vs != [] {
      var last := |vs| - 1;
      AvailableMeans(vs[..last], v);
      assert vs == vs[..last] + [vs[last]];
    }
  }

  /** `publicDocument`: the variants are replaced by the available ones, in the same order. */
  method PublicDocument(product: Document) returns (r: Document)
    ensures r == product.(variants := Available(product.variants))
  {
    var variants: seq<VariantDoc> := [];
    var i := 0;
    while i < |product.variants|
      invariant 0 <= i <= |product.variants|
      invariant variants == Available(product.variants[..i])
    {
      assert product.variants[..i + 1][..i] == product.variants[..i];
      if product.variants[i].active { variants := variants + [product.variants[i]]; }
      i := i + 1;
    }
    assert product.variants[..i] == product.variants;
    r := product.(variants := variants);
  }

  const MAX_KEY: nat := 160

  /** What `Service::find` returns to the public for a key: the guard on the key, then the WHERE clause. */
  ghost predicate FoundPublicly(t: Tables, key: string, p: Uuid)
  {
    && 1 <= |Encode(key)| <= MAX_KEY
    && p in t.products && t.products[p].slug == key && t.products[p].status == "active" && HasAvailable(t.variants, p)
  }

  /** A key is found exactly when it has 1 to 160 bytes and is the slug of an active product with an available
      variant. */
  lemma FoundExactly(t: Tables, key: string, p: Uuid)
    ensures FoundPublicly(t, key, p) <==>
      && key != "" && |Encode(key)| <= 160
      && p in t.products && t.products[p].slug == key && t.products[p].status == "active"
      && exists v :: v in t.variants && t.variants[v].product == p && t.variants[v].active
  {
    EncodeStartsWithLead(key);
  }

  /** And never two products. */
  lemma FoundOnce(t: Tables, key: string, p: Uuid, q: Uuid)
    requires UniqueSlugs(t.products) && FoundPublicly(t, key, p) && FoundPublicly(t, key, q)
    ensures p == q
  {
    FoundExactly(t, key, p);
    FoundExactly(t, key, q);
  }

  lemma ShownHasAvailable(t: Tables, p: Uuid, f: Filter, m: Matcher)
    requires Matches(t, f, false, m, p) || (p in t.products && FoundPublicly(t, t.products[p].slug, p))
    ensures HasAvailable(t.variants, p)
  {
  }

  /** Whatever the public list or the public lookup returns has at least one variant to show. */
  lemma PublicDocumentsHaveVariants(t: Tables, coll: Collation, p: Uuid, f: Filter, m: Matcher)
    requires coll.Valid() && Projectable(t, p)
    requires Matches(t, f, false, m, p) || FoundPublicly(t, t.products[p].slug, p)
    ensures Available(DocumentOf(t, coll, p).variants) != []
  {
    ShownHasAvailable(t, p, f, m);
    hide Matches, FoundPublicly, Available;
    var v :| v in t.variants && t.variants[v].product == p && t.variants[v].active;
    var order := VariantOrder(t, coll, p);
    assert v in SkusOf(t, p) && v in order;
    var i :| 0 <= i < |order| && order[i] == v;
    var docs := DocumentOf(t, coll, p).variants;
    assert docs[i] == VariantDocOf(t, v) && docs[i] in docs;
    AvailableMeans(docs, docs[i]);
  }

  /** No search text, no category, no brand, the default price range. */
  function Unfiltered(locale: string, sort: string, page: nat, limit: nat): Filter
  {
    Filter(locale, "", "", "", sort, page, limit, 0, MAX_PRICE)
  }

  ghost predicate IsUnfiltered(f: Filter)
  {
    f == Unfiltered(f.locale, f.sort, f.page, f.limit) && f.locale in LOCALES
  }

  // Every run leaves products that can be shown.

  /** Both translations, prices in the default range, a slug that can be looked up. */
  ghost predicate PresentableProduct(t: Tables, p: Uuid)
    requires p in t.products
  {
    && TranslationsOf(t, p).Keys == LOCALES
    && (forall v :: Owns(t, p, v) ==> 0 <= t.variants[v].price <= MAX_PRICE)
    && 1 <= |Encode(t.products[p].slug)| <= MAX_KEY
  }

  ghost predicate Presentable(t: Tables)
  {
    forall p :: p in t.products ==> PresentableProduct(t, p)
  }

  /** A slug has as many bytes as characters. */
  lemma SlugBytes(slug: string)
    requires SlugPattern(slug)
    ensures |Encode(slug)| == |slug|
  {
    AsciiBytes(slug);
  }

  lemma CompleteIsPresentable(t: Tables, p: Uuid)
    requires p in t.products && ProductComplete(t, p) && ProductChecks(t.products[p])
    requires VariantsSound(t.variants, t.products.Keys)
    ensures PresentableProduct(t, p)
  {
    SlugBytes(t.products[p].slug);
  }

  lemma InvIsPresentable(t: Tables)
    requires Inv(t)
    ensures Presentable(t)
  {
    forall p | p in t.products ensures PresentableProduct(t, p) {
      assert ProductComplete(t, p) && ProductChecks(t.products[p]);
      CompleteIsPresentable(t, p);
    }
  }

  // What is on show.

  function ActiveProducts(t: Tables): set<Uuid>
  {
    set p | p in t.products && t.products[p].status == "active"
  }

  /** The active products with an available variant. */
  ghost function OnShow(t: Tables): set<Uuid>
  {
    set p | p in t.products && t.products[p].status == "active" && HasAvailable(t.variants, p)
  }

  lemma UnfilteredIsOnShow(t: Tables, f: Filter, m: Matcher, p: Uuid)
    requires Presentable(t) && IsUnfiltered(f)
    ensures Matches(t, f, false, m, p) <==> p in OnShow(t)
  {
    if p in OnShow(t) {
      assert PresentableProduct(t, p) && f.locale in TranslationsOf(t, p);
      assert (p, f.locale) in t.translations;
      var v :| v in t.variants && t.variants[v].product == p && t.variants[v].active;
      assert Owns(t, p, v) && VariantSelected(t, f, false, p, v);
    }
  }

  lemma SubsetOfSameSize(a: set<Uuid>, b: set<Uuid>)
    requires a <= b
    ensures |a| == |b| <==> a == b
  {
    assert |b - a| == |b| - |a|;
    if |a| == |b| { assert b - a == {}; }
  }

  lemma OfferedMeansAllOnShow(t: Tables)
    ensures Offered(t) <==> OnShow(t) == ActiveProducts(t)
  {
    if OnShow(t) == ActiveProducts(t) {
      forall p | p in t.products ensures OnSale(t.variants, p, t.products[p].status) {
        assert p in ActiveProducts(t) ==> p in OnShow(t);
      }
    } else {
      var p :| p in ActiveProducts(t) && p !in OnShow(t);
      assert !OnSale(t.variants, p, t.products[p].status);
    }
  }

  /** In both locales the unfiltered public total counts what is on show, and that is the number of active
      products exactly when every one of them has an available variant. */
  lemma PublicTotal(t: Tables, f: Filter, m: Matcher)
    requires Presentable(t) && IsUnfiltered(f)
    ensures Total(t, f, false, m) == |OnShow(t)|
    ensures Total(t, f, false, m) == |ActiveProducts(t)| <==> Offered(t)
  {
    hide Presentable, IsUnfiltered, Matches, Filtered, Offered, HasAvailable;
    TotalCountsMatches(t, f, false, m);
    forall p ensures p in MatchSet(t, f, false, m) <==> p in OnShow(t) { UnfilteredIsOnShow(t, f, m, p); }
    assert MatchSet(t, f, false, m) == OnShow(t);
    OfferedMeansAllOnShow(t);
    SubsetOfSameSize(OnShow(t), ActiveProducts(t));
  }

  /** A slug is found publicly exactly when a product on show carries it. */
  lemma FoundIffOnShow(t: Tables, key: string, p: Uuid)
    requires Presentable(t)
    ensures FoundPublicly(t, key, p) <==> p in OnShow(t) && t.products[p].slug == key
  {
    if p in OnShow(t) { assert PresentableProduct(t, p); }
  }

  lemma FoundIffMatches(t: Tables, f: Filter, m: Matcher, p: Uuid)
    requires Presentable(t) && p in t.products && IsUnfiltered(f)
    ensures FoundPublicly(t, t.products[p].slug, p) <==> Matches(t, f, false, m, p)
  {
    FoundIffOnShow(t, t.products[p].slug, p);
    UnfilteredIsOnShow(t, f, m, p);
  }

  /** Within the page cap, a product is found by its slug exactly when it is on some page of the
      unfiltered public list. */
  lemma FoundIffListed(t: Tables, coll: Collation, f: Filter, m: Matcher, p: Uuid)
    requires Presentable(t) && coll.Valid() && p in t.products && IsUnfiltered(f) && f.limit >= 1
    requires PageCount(Total(t, f, false, m), f.limit) <= MAX_PAGE
    ensures FoundPublicly(t, t.products[p].slug, p) <==> ListedWithin(t, coll, f, false, m, MAX_PAGE, p)
  {
    FoundIffMatches(t, f, m, p);
    ListedIffMatches(t, coll, f, false, m, MAX_PAGE, p);
  }

  /** Publication over every run from the empty tables: products stay presentable, and as long as the drafts
      carried out stay on sale every active product is on show. */
  lemma RunKeepsPublication(r: References, ops: seq<Op>)
    requires RefsCanonical(r) && RunOk(Empty(r), ops)
    ensures Presentable(After(Empty(r), ops))
    ensures AllStayOnSale(Empty(r), ops) ==> OnShow(After(Empty(r), ops)) == ActiveProducts(After(Empty(r), ops))
  {
    EmptyIsFine(r);
    RunKeepsInv(Empty(r), ops);
    InvIsPresentable(After(Empty(r), ops));
    EmptyIsOffered(r);
    RunKeepsOffersExactly(Empty(r), ops);
    OfferedMeansAllOnShow(After(Empty(r), ops));
  }
}
