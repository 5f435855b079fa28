/** Reading a product, turning the document into a draft and saving it unedited. */
module CatalogRoundTrip {
  import opened Wrappers
  import opened Uuids
  import opened Orders
  import opened CatalogTables
  import opened DraftValidation
  import opened CatalogSaveSpec
  import opened CatalogSaveProofs
  import opened CatalogSaveTheorems
  import opened CatalogRuns
  import opened CatalogOffers

  function VariantDraftOf(v: VariantDoc): VariantDraft
  {
    VariantDraft(Some(v.id), v.sku, v.name, v.priceMinor, v.active, v.attributes)
  }

  function VariantDrafts(vs: seq<VariantDoc>): (r: seq<VariantDraft>)
    ensures |r| == |vs| && forall i :: 0 <= i < |vs| ==> r[i] == VariantDraftOf(vs[i])
  {
    seq(|vs|, i requires 0 <= i < |vs| => VariantDraftOf(vs[i]))
  }

  function ImageIds(images: seq<ImageDoc>): (r: seq<Uuid>)
    ensures |r| == |images| && forall i :: 0 <= i < |images| ==> r[i] == images[i].id
  {
    seq(|images|, i requires 0 <= i < |images| => images[i].id)
  }

  /** `draftOf` of the admin application. */
  function DraftOf(doc: Document): Draft
    requires "ru" in doc.translations && "ro" in doc.translations
  {
    Draft(doc.slug, doc.status, doc.brandId, doc.categoryIds,
          ImageIds(doc.images),
          map["ru" := doc.translations["ru"], "ro" := doc.translations["ro"]],
          VariantDrafts(doc.variants))
  }

  /** What it takes to read the document and to start an edit. */
  ghost predicate Source(t: Tables, coll: Collation, p: Uuid)
  {
    coll.Valid() && Projectable(t, p) && TranslationsOf(t, p).Keys == LOCALES
  }

  lemma InvIsSource(t: Tables, coll: Collation, p: Uuid)
    requires Inv(t) && coll.Valid() && p in t.products
    ensures Source(t, coll, p) && ProductComplete(t, p) && ProductChecks(t.products[p])
  {
    SchemaIsProjectable(t, p);
    assert ProductComplete(t, p);
  }

  /** The draft an editor starts from. */
  function EditorDraft(t: Tables, coll: Collation, p: Uuid): Draft
    requires Source(t, coll, p)
  {
    DraftOf(DocumentOf(t, coll, p))
  }

  // The lists of the draft are the rows of the product.

  lemma EditorFields(t: Tables, coll: Collation, p: Uuid)
    requires Source(t, coll, p)
    ensures var d := EditorDraft(t, coll, p);
      && d.slug == t.products[p].slug && d.status == t.products[p].status && d.brandId == t.products[p].brand
      && d.translations == TranslationsOf(t, p)
      && d.categoryIds == CategoryOrder(t, coll, p) && d.mediaIds == ImageOrder(t, p)
  {
    LocalesRebuilt(TranslationsOf(t, p));
    ImageIdsOfDocs(ImageOrder(t, p));
  }

  lemma LocalesRebuilt(m: map<string, Translation>)
    requires m.Keys == LOCALES
    ensures map["ru" := m["ru"], "ro" := m["ro"]] == m
  {
  }

  lemma ImageIdsOfDocs(ms: seq<Uuid>)
    ensures ImageIds(ImageDocs(ms)) == ms
  {
  }

  lemma EditorVariants(t: Tables, coll: Collation, p: Uuid)
    requires Source(t, coll, p)
    ensures var vs, order := EditorDraft(t, coll, p).variants, VariantOrder(t, coll, p);
      |vs| == |order| && forall i :: 0 <= i < |vs| ==> vs[i] == VariantDraftOf(VariantDocOf(t, order[i]))
  {
  }

  lemma VariantOrderFacts(t: Tables, coll: Collation, p: Uuid)
    requires coll.Valid() && Projectable(t, p)
    ensures var vs := VariantOrder(t, coll, p);
      Distinct(vs) && |vs| == |VariantsOf(t, p)| && forall v :: v in vs <==> Owns(t, p, v)
  {
    hide VariantOrder;
    var vs := VariantOrder(t, coll, p);
    assert Range(vs) == VariantsOf(t, p).Keys;
    DistinctCount(vs);
  }

  /** The i-th image of the document stands on position i. */
  lemma ImageOrderFacts(t: Tables, p: Uuid)
    requires Projectable(t, p) && ImagesComplete(PositionsOf(t, p))
    ensures var ms := ImageOrder(t, p);
      forall i :: 0 <= i < |ms| ==> ms[i] in PositionsOf(t, p) && PositionsOf(t, p)[ms[i]] == i
  {
    OrderIsPosition(PositionsOf(t, p), ImageOrder(t, p));
  }

  lemma OrderIsPosition(m: map<Uuid, int>, ms: seq<Uuid>)
    requires Injective(m) && ms == Enumerate(m, IntLeq) && forall x :: x in m ==> 0 <= m[x] < |m|
    ensures forall i :: 0 <= i < |ms| ==> ms[i] in m && m[ms[i]] == i
  {
    hide Enumerate;
    EnumerateLists(m, IntLeq);
    assert forall i :: 0 <= i < |ms| ==> ms[i] in ms;
    var at := seq(|ms|, i requires 0 <= i < |ms| => m[ms[i]]);
    forall i, j | 0 <= i < j < |at| ensures at[i] < at[j] { assert IntLeq(m[ms[i]], m[ms[j]]) && ms[i] != ms[j]; }
    StrictlyRising(at);
    assert forall i :: 0 <= i < |ms| ==> at[i] == m[ms[i]];
  }

  /** n strictly rising numbers of 0 .. n-1 are 0 .. n-1. */
  lemma StrictlyRising(s: seq<int>)
    requires forall i, j :: 0 <= i < j < |s| ==> s[i] < s[j]
    requires forall i :: 0 <= i < |s| ==> 0 <= s[i] < |s|
    ensures forall i :: 0 <= i < |s| ==> s[i] == i
  {
    forall i | 0 <= i < |s| ensures s[i] == i {
      AtLeast(s, i);
      AtMost(s, i);
    }
  }

  lemma {:induction false} AtLeast(s: seq<int>, i: nat)
    requires forall i, j :: 0 <= i < j < |s| ==> s[i] < s[j]
    requires i < |s| && forall i :: 0 <= i < |s| ==> 0 <= s[i]
    ensures i <= s[i]
  {
    if i > 0 { AtLeast(s, i - 1); }
  }

  lemma {:induction false} AtMost(s: seq<int>, i: nat)
    requires forall i, j :: 0 <= i < j < |s| ==> s[i] < s[j]
    requires i < |s| && forall i :: 0 <= i < |s| ==> s[i] < |s|
    ensures s[i] <= i
    decreases |s| - i
  {
    if i + 1 < |s| { AtMost(s, i + 1); }
  }

  // Validation.

  lemma CanonicalListOk(ids: seq<string>, min: nat, max: nat, known: set<Uuid>)
    requires Distinct(ids) && min <= |ids| <= max && (forall x :: x in ids <==> x in known)
    requires forall x :: x in known ==> Canonical(x)
    ensures IdsOk(ids, min, max) && !RepeatedValue(ids) && CanonSet(ids) == known
  {
    assert forall i :: 0 <= i < |ids| ==> ids[i] in ids;
    assert forall i :: 0 <= i < |ids| ==> IsUuid(ids[i]) && Canon(ids[i]) == ids[i];
    forall x ensures x in CanonSet(ids) <==> x in ids {
      if x in ids {
        var i :| 0 <= i < |ids| && ids[i] == x;
        assert Canon(ids[i]) == x;
      }
    }
  }

  lemma EditorLinksOk(t: Tables, coll: Collation, p: Uuid)
    requires Source(t, coll, p) && CategoriesComplete(CategoriesOf(t, p)) && ImagesComplete(PositionsOf(t, p))
    ensures var d := EditorDraft(t, coll, p);
      && IdsOk(d.categoryIds, 1, 10) && !RepeatedValue(d.categoryIds) && CanonSet(d.categoryIds) == CategoriesOf(t, p)
      && IdsOk(d.mediaIds, 0, 10) && !RepeatedValue(d.mediaIds) && CanonSet(d.mediaIds) == PositionsOf(t, p).Keys
  {
    EditorFields(t, coll, p);
    CanonicalListOk(CategoryOrder(t, coll, p), 1, 10, CategoriesOf(t, p));
    CanonicalListOk(ImageOrder(t, p), 0, 10, PositionsOf(t, p).Keys);
  }

  ghost predicate VariantRowsFine(t: Tables)
  {
    VariantsComplete(t.variants, t.attributeValues) && forall v :: v in t.variants ==> VariantChecks(t.variants[v])
  }

  lemma DocVariantOk(t: Tables, v: Uuid)
    requires VariantRowsFine(t) && v in t.variants
    ensures Canonical(v)
    ensures var d := VariantDraftOf(VariantDocOf(t, v));
      VariantOk(d) && d.id == Some(v) && d.attributes == AttributesOf(t, v)
      && VariantRow(t.variants[v].product, d.sku, d.name, d.priceMinor, d.active) == t.variants[v]
  {
    assert VariantComplete(v, t.variants[v], AttributesOf(t, v));
  }

  lemma EditorPairApart(t: Tables, p: Uuid, v: Uuid, w: Uuid)
    requires VariantRowsFine(t) && Injective(SkusOf(t, p)) && v != w
    requires v in t.variants && w in t.variants && t.variants[v].product == p && t.variants[w].product == p
    ensures var a, b := VariantDraftOf(VariantDocOf(t, v)), VariantDraftOf(VariantDocOf(t, w));
      Apart(a, b) && a.id == Some(v) && b.id == Some(w) && Canon(v) == v && Canon(w) == w
  {
    DocVariantOk(t, v);
    DocVariantOk(t, w);
    assert SkusOf(t, p)[v] == t.variants[v].sku && SkusOf(t, p)[w] == t.variants[w].sku;
  }

  lemma EditorVariantsDistinct(t: Tables, coll: Collation, p: Uuid)
    requires Source(t, coll, p) && VariantRowsFine(t)
    ensures VariantsDistinct(EditorDraft(t, coll, p).variants) && DistinctIds(EditorDraft(t, coll, p))
  {
    EditorVariants(t, coll, p);
    var vs, order := EditorDraft(t, coll, p).variants, VariantOrder(t, coll, p);
    forall i, j | 0 <= i < j < |vs|
      ensures Apart(vs[i], vs[j]) && vs[i].id.Some? && vs[j].id.Some? && Canon(vs[i].id.value) != Canon(vs[j].id.value)
    {
      EditorPairApart(t, p, order[i], order[j]);
    }
  }

  lemma EditorVariantsOk(t: Tables, coll: Collation, p: Uuid)
    requires Source(t, coll, p) && VariantRowsFine(t)
    ensures var vs := EditorDraft(t, coll, p).variants;
      |vs| == |VariantsOf(t, p)| && forall i :: 0 <= i < |vs| ==> VariantOk(vs[i])
  {
    EditorVariants(t, coll, p);
    VariantOrderFacts(t, coll, p);
    var vs, order := EditorDraft(t, coll, p).variants, VariantOrder(t, coll, p);
    forall i | 0 <= i < |vs| ensures VariantOk(vs[i]) { DocVariantOk(t, order[i]); }
  }

  lemma EditorVariantFor(t: Tables, coll: Collation, p: Uuid, v: Uuid) returns (i: nat)
    requires Source(t, coll, p) && Owns(t, p, v)
    ensures i < |EditorDraft(t, coll, p).variants| && EditorDraft(t, coll, p).variants[i].active == t.variants[v].active
  {
    EditorVariants(t, coll, p);
    VariantOrderFacts(t, coll, p);
    i :| 0 <= i < |VariantOrder(t, coll, p)| && VariantOrder(t, coll, p)[i] == v;
  }

  lemma EditorHasVariants(t: Tables, coll: Collation, p: Uuid)
    requires Source(t, coll, p) && HasVariant(t.variants, p)
    ensures EditorDraft(t, coll, p).variants != []
  {
    var v :| v in t.variants && t.variants[v].product == p;
    var i := EditorVariantFor(t, coll, p, v);
  }

  lemma EditorIsAvailable(t: Tables, coll: Collation, p: Uuid)
    requires Source(t, coll, p)
    ensures SomeActive(EditorDraft(t, coll, p).variants) <==> HasAvailable(t.variants, p)
  {
    EditorVariants(t, coll, p);
    VariantOrderFacts(t, coll, p);
    var vs, order := EditorDraft(t, coll, p).variants, VariantOrder(t, coll, p);
    if v :| v in t.variants && t.variants[v].product == p && t.variants[v].active {
      var i := EditorVariantFor(t, coll, p, v);
    }
    if i :| 0 <= i < |vs| && vs[i].active { assert order[i] in order && Owns(t, p, order[i]); }
  }

  lemma EditorHeadOk(t: Tables, coll: Collation, p: Uuid)
    requires Source(t, coll, p) && RowComplete(p, t.products[p]) && ProductChecks(t.products[p])
    requires TranslationsComplete(TranslationsOf(t, p))
    ensures var d := EditorDraft(t, coll, p);
      && TextOk(d.slug, 1, 160) && SlugPattern(d.slug) && d.status in STATUSES && BrandOk(d.brandId)
      && d.translations.Keys == LOCALES && forall l :: l in d.translations ==> TranslationOk(d.translations[l])
  {
    EditorFields(t, coll, p);
  }

  /** An unedited draft passes validation exactly when the product has at most fifty variants, counting
      those retired earlier, and an available one if it is active. */
  lemma EditorDraftOk(t: Tables, coll: Collation, p: Uuid)
    requires Source(t, coll, p) && VariantRowsFine(t) && ProductComplete(t, p) && ProductChecks(t.products[p])
    ensures DraftOk(EditorDraft(t, coll, p)) <==>
      |VariantsOf(t, p)| <= 50 && OnSale(t.variants, p, t.products[p].status)
  {
    hide Source, EditorDraft, VariantOk, TextOk, TranslationOk, VariantsOf, HasAvailable;
    EditorHeadOk(t, coll, p);
    EditorLinksOk(t, coll, p);
    EditorVariantsOk(t, coll, p);
    EditorHasVariants(t, coll, p);
    EditorIsAvailable(t, coll, p);
    EditorVariantsDistinct(t, coll, p);
    EditorStatus(t, coll, p);
  }

  lemma EditorStatus(t: Tables, coll: Collation, p: Uuid)
    requires Source(t, coll, p)
    ensures EditorDraft(t, coll, p).status == t.products[p].status
  {
    EditorFields(t, coll, p);
  }

  // Saving it back.

  /** The call puts the editor's draft back on the product it came from. */
  ghost predicate Unedited(t: Tables, coll: Collation, c: Call)
  {
    && Wanted(c) && c.target.Some? && Source(t, coll, c.target.value) && c.draft == EditorDraft(t, coll, c.target.value)
  }

  /** Every row of the product is named, and named with what it holds. */
  ghost predicate NamesEachAsIs(t: Tables, c: Call)
    requires Wanted(c)
  {
    && (forall i :: 0 <= i < |c.draft.variants| ==> AsIs(t, c, i))
    && (forall v :: Owns(t, Key(c), v) ==> v in Named(c, |c.draft.variants|))
  }

  ghost predicate AsIs(t: Tables, c: Call, i: nat)
    requires Wanted(c) && i < |c.draft.variants|
  {
    var v := VariantKey(c, i);
    Owns(t, Key(c), v) && VariantRowOf(c, i) == t.variants[v] && c.draft.variants[i].attributes == AttributesOf(t, v)
  }

  lemma UneditedNames(t: Tables, coll: Collation, c: Call)
    requires Unedited(t, coll, c) && VariantRowsFine(t)
    ensures NamesEachAsIs(t, c)
  {
    var p, n := Key(c), |c.draft.variants|;
    EditorVariants(t, coll, p);
    VariantOrderFacts(t, coll, p);
    var order := VariantOrder(t, coll, p);
    forall i | 0 <= i < n ensures VariantKey(c, i) == order[i] && AsIs(t, c, i) { DocVariantOk(t, order[i]); }
    forall v | Owns(t, p, v) ensures v in Named(c, n) {
      var i :| 0 <= i < |order| && order[i] == v;
      assert VariantKey(c, i) == v;
    }
  }

  lemma AsIsKeepsVariants(t: Tables, c: Call)
    requires Wanted(c) && NamesEachAsIs(t, c)
    ensures VariantsSwept(t, c) == t.variants
  {
    var n := |c.draft.variants|;
    var after := VariantsSwept(t, c);
    forall v ensures v in after <==> v in t.variants {
      if v in Named(c, n) {
        var i :| 0 <= i < n && VariantKey(c, i) == v;
        assert AsIs(t, c, i);
      }
    }
    forall v | v in after ensures after[v] == t.variants[v] {
      WrittenOrUntouched(t, c, v);
      LastNamingIsNamed(c, n, v);
      var j := LastNaming(c, n, v);
      if j >= 0 { assert AsIs(t, c, j); }
    }
  }

  lemma AsIsKeepsAttribute(t: Tables, c: Call, k: (Uuid, string))
    requires Wanted(c) && NamesEachAsIs(t, c)
    ensures k in AttributesAfter(t, c, |c.draft.variants|) <==> k in t.attributeValues
    ensures k in t.attributeValues ==> AttributesAfter(t, c, |c.draft.variants|)[k] == t.attributeValues[k]
  {
    var n := |c.draft.variants|;
    AttributeKeys(t, c, n, k);
    if k in AttributesAfter(t, c, n) { AttributeValue(t, c, n, k); }
    var j := LastNaming(c, n, k.0);
    if j >= 0 {
      assert AsIs(t, c, j);
      InCodes(t.attributeValues, k.0, k.1);
    }
  }

  lemma AsIsKeepsAttributes(t: Tables, c: Call)
    requires Wanted(c) && NamesEachAsIs(t, c)
    ensures AttributesAfter(t, c, |c.draft.variants|) == t.attributeValues
  {
    forall k { AsIsKeepsAttribute(t, c, k); }
  }

  lemma SameCategories(links: set<(Uuid, Uuid)>, p: Uuid, ids: seq<string>)
    requires CanonSet(ids) == CategoriesIn(links, p)
    ensures CategoriesAfter(links, p, ids) == links
  {
    forall r: (Uuid, Uuid) ensures r in CategoriesAfter(links, p, ids) <==> r in links {
      if r.0 == p {
        assert r == (p, r.1);
        assert r.1 in CategoriesIn(links, p) <==> r in links;
      }
    }
  }

  lemma SameTranslations(rows: map<(Uuid, string), Translation>, p: Uuid)
    ensures TranslationsAfter(rows, p, TranslationsIn(rows, p)) == rows
  {
    var after := TranslationsAfter(rows, p, TranslationsIn(rows, p));
    forall k: (Uuid, string)
      ensures k in after <==> k in rows
      ensures k in rows ==> after[k] == rows[k]
    {
      if k.0 == p {
        assert k == (p, k.1);
        assert k.1 in LocalesIn(rows, p) <==> k in rows;
      }
    }
  }

  lemma SameImages(rows: map<(Uuid, Uuid), int>, p: Uuid, ids: seq<string>)
    requires CanonSet(ids) == MediaIn(rows, p)
    requires forall m :: m in CanonSet(ids) ==> PositionIn(ids, m) == rows[(p, m)]
    ensures ImagesAfter(rows, p, ids) == rows
  {
    var after := ImagesAfter(rows, p, ids);
    forall k: (Uuid, Uuid)
      ensures k in after <==> k in rows
      ensures k in rows ==> after[k] == rows[k]
    {
      if k.0 == p {
        assert k == (p, k.1);
        assert k.1 in MediaIn(rows, p) <==> k in rows;
      }
    }
  }

  lemma PositionsOfListing(rows: map<(Uuid, Uuid), int>, p: Uuid, ids: seq<Uuid>)
    requires forall x :: x in ids <==> x in PositionsIn(rows, p)
    requires forall x :: x in ids ==> Canon(x) == x
    requires forall i :: 0 <= i < |ids| ==> ids[i] in PositionsIn(rows, p) && PositionsIn(rows, p)[ids[i]] == i
    ensures CanonSet(ids) == MediaIn(rows, p)
    ensures forall m :: m in CanonSet(ids) ==> PositionIn(ids, m) == rows[(p, m)]
  {
    assert forall i :: 0 <= i < |ids| ==> ids[i] in ids && Canon(ids[i]) == ids[i];
    forall m ensures m in CanonSet(ids) <==> m in MediaIn(rows, p) {
      if m in ids { var i :| 0 <= i < |ids| && ids[i] == m; assert Canon(ids[i]) == m; }
    }
    forall m | m in CanonSet(ids) ensures PositionIn(ids, m) == rows[(p, m)] {
      var i := PositionIn(ids, m);
      assert ids[i] == m && PositionsIn(rows, p)[m] == i;
    }
  }

  lemma EditorImagePositions(t: Tables, coll: Collation, p: Uuid)
    requires Source(t, coll, p) && ImagesComplete(PositionsOf(t, p))
    ensures var ids := EditorDraft(t, coll, p).mediaIds;
      CanonSet(ids) == MediaIn(t.images, p) && forall m :: m in CanonSet(ids) ==> PositionIn(ids, m) == t.images[(p, m)]
  {
    EditorFields(t, coll, p);
    ImageOrderFacts(t, p);
    PositionsOfListing(t.images, p, ImageOrder(t, p));
  }

  lemma UneditedKeepsVariants(t: Tables, coll: Collation, c: Call)
    requires Unedited(t, coll, c) && VariantRowsFine(t)
    ensures VariantsSwept(t, c) == t.variants && AttributesAfter(t, c, |c.draft.variants|) == t.attributeValues
  {
    UneditedNames(t, coll, c);
    AsIsKeepsVariants(t, c);
    AsIsKeepsAttributes(t, c);
  }

  lemma UneditedKeepsCategories(t: Tables, coll: Collation, c: Call)
    requires Unedited(t, coll, c) && CategoriesComplete(CategoriesOf(t, Key(c)))
    requires ImagesComplete(PositionsOf(t, Key(c)))
    ensures CategoriesAfter(t.productCategories, Key(c), c.draft.categoryIds) == t.productCategories
  {
    EditorLinksOk(t, coll, Key(c));
    SameCategories(t.productCategories, Key(c), c.draft.categoryIds);
  }

  lemma UneditedKeepsImages(t: Tables, coll: Collation, c: Call)
    requires Unedited(t, coll, c) && ImagesComplete(PositionsOf(t, Key(c)))
    ensures ImagesAfter(t.images, Key(c), c.draft.mediaIds) == t.images
  {
    EditorImagePositions(t, coll, Key(c));
    SameImages(t.images, Key(c), c.draft.mediaIds);
  }

  lemma UneditedKeepsTranslations(t: Tables, coll: Collation, c: Call)
    requires Unedited(t, coll, c)
    ensures TranslationsAfter(t.translations, Key(c), c.draft.translations) == t.translations
  {
    EditorFields(t, coll, Key(c));
    SameTranslations(t.translations, Key(c));
  }

  // Nothing objects.

  lemma UneditedVariantsPass(t: Tables, coll: Collation, c: Call, i: nat)
    requires Unedited(t, coll, c) && VariantRowsFine(t) && OracleFresh(t, c) && UniqueSkus(t.variants)
    requires i < |c.draft.variants|
    requires ValuesSound(t.attributeValues, t.variants.Keys, t.refs)
    ensures !UnknownInVariant(t, c, i) && !SkuHeld(t, c, i)
  {
    UneditedNames(t, coll, c);
    EditorVariantsDistinct(t, coll, Key(c));
    SkuHeldExactly(t, c, i);
    assert AsIs(t, c, i);
    var v := VariantKey(c, i);
    forall a | a in AttributesOf(t, v) ensures a in t.refs.attributes { assert (v, a) in t.attributeValues; }
  }

  lemma UneditedReferencesKnown(t: Tables, p: Uuid)
    requires LinksSound(t.productCategories, t.products.Keys, t.refs) && ImagesSound(t.images, t.products.Keys, t.refs)
    ensures CategoriesOf(t, p) <= t.refs.categories && PositionsOf(t, p).Keys <= t.refs.media
  {
    forall x | x in CategoriesOf(t, p) ensures x in t.refs.categories { assert (p, x) in t.productCategories; }
    forall x | x in PositionsOf(t, p) ensures x in t.refs.media { assert (p, x) in t.images; }
  }

  lemma UneditedTarget(t: Tables, coll: Collation, c: Call)
    requires Unedited(t, coll, c)
    ensures Wanted(c) && c.target.Some? && coll.Valid() && Key(c) == c.target.value && Key(c) in t.products
    ensures Source(t, coll, Key(c)) && c.draft == EditorDraft(t, coll, Key(c))
  {
  }

  lemma UneditedHasNoObjection(t: Tables, coll: Collation, c: Call)
    requires Unedited(t, coll, c) && VariantRowsFine(t) && OracleFresh(t, c) && Schema(t) && ProductComplete(t, Key(c))
    requires c.actor in t.refs.users
    ensures !UnknownReference(t, c) && !UniqueClash(t, c)
  {
    hide EditorDraft, VariantRowsFine, OracleFresh, Source, UnknownInVariant, SkuHeld, CanonSet, Canon, IsUuid;
    hide CategoriesOf, PositionsOf, TranslationsOf, CategoryOrder, ImageOrder, CategoriesComplete, ImagesComplete;
    hide VariantsSound, TranslationsSound, Unedited;
    UneditedTarget(t, coll, c);
    var p := Key(c);
    EditorFields(t, coll, p);
    EditorLinksOk(t, coll, p);
    UneditedReferencesKnown(t, p);
    forall i | 0 <= i < |c.draft.variants| ensures !UnknownInVariant(t, c, i) && !SkuHeld(t, c, i) {
      UneditedVariantsPass(t, coll, c, i);
    }
    assert !SlugTaken(t, p, c.draft.slug);
    assert ProductChecks(t.products[p]) && (t.products[p].brand.Some? ==> t.products[p].brand.value in t.refs.brands);
  }

  /** The document as it was read goes back at the current revision. */
  ghost predicate SendsBack(t: Tables, coll: Collation, c: Call)
  {
    && Inv(t) && OracleFresh(t, c) && Unedited(t, coll, c)
    && c.expected == Some(t.products[c.target.value].revision)
  }

  /** What the caller can see beforehand: room in the draft, room in the revision column, a known user,
      and, for an active product, something to sell. */
  ghost predicate Returnable(t: Tables, p: Uuid, actor: Uuid)
    requires p in t.products
  {
    && |VariantsOf(t, p)| <= 50 && t.products[p].revision < MAX_REVISION && actor in t.refs.users
    && OnSale(t.variants, p, t.products[p].status)
  }

  lemma InvIsFine(t: Tables)
    requires Inv(t)
    ensures VariantRowsFine(t) && Schema(t)
  {
  }

  lemma SaveBackDraftExactly(t: Tables, coll: Collation, c: Call)
    requires SendsBack(t, coll, c)
    ensures DraftOk(c.draft) <==> |VariantsOf(t, Key(c))| <= 50 && OnSale(t.variants, Key(c), t.products[Key(c)].status)
  {
    hide Inv, EditorDraft, DraftOk, OnSale, VariantsOf, OracleFresh, TotalOrder;
    hide ProductComplete, ProductChecks, VariantRowsFine;
    InvIsSource(t, coll, Key(c));
    InvIsFine(t);
    EditorDraftOk(t, coll, Key(c));
  }

  lemma SaveBackHasNoObjection(t: Tables, coll: Collation, c: Call)
    requires SendsBack(t, coll, c) && c.actor in t.refs.users
    ensures !UnknownReference(t, c) && !UniqueClash(t, c)
  {
    hide Inv, Source, EditorDraft, OracleFresh, VariantRowsFine, ProductComplete, ProductChecks, Schema;
    hide UnknownReference, UniqueClash, Unedited;
    UneditedTarget(t, coll, c);
    InvIsSource(t, coll, Key(c));
    InvIsFine(t);
    UneditedHasNoObjection(t, coll, c);
  }

  /** It addresses an existing product at its current revision. */
  ghost predicate OnTarget(t: Tables, c: Call)
  {
    && Wanted(c) && c.target.Some? && c.target.value in t.products
    && c.expected == Some(t.products[c.target.value].revision) && 1 <= c.expected.value <= MAX_REVISION
  }

  lemma SaveBackIsOnTarget(t: Tables, coll: Collation, c: Call)
    requires SendsBack(t, coll, c)
    ensures OnTarget(t, c)
  {
    InvIsSource(t, coll, Key(c));
  }

  lemma UnobjectionableIsCarried(t: Tables, c: Call)
    requires OnTarget(t, c) && DraftOk(c.draft) && !UnknownReference(t, c) && !UniqueClash(t, c)
    ensures Carried(t, c) <==> t.products[Key(c)].revision < MAX_REVISION
  {
    ValidDraftVerdict(t, c);
  }

  lemma CarriedMeansKnownUser(t: Tables, c: Call)
    requires Wanted(c) && Carried(t, c)
    ensures DraftOk(c.draft) && c.actor in t.refs.users
  {
    AcceptedMeans(t, c);
  }

  /** Saving the document back as it was read succeeds, the row by row SKU checks included, exactly when the
      product is returnable. */
  lemma SaveBackExactly(t: Tables, coll: Collation, c: Call)
    requires SendsBack(t, coll, c)
    ensures Carried(t, c) <==> Returnable(t, Key(c), c.actor)
  {
    hide Inv, Source, OracleFresh, Verdict, DraftOk, Unedited, UnknownReference, UniqueClash, OnSale, VariantsOf;
    SaveBackDraftExactly(t, coll, c);
    SaveBackIsOnTarget(t, coll, c);
    if c.actor in t.refs.users && DraftOk(c.draft) {
      SaveBackHasNoObjection(t, coll, c);
      UnobjectionableIsCarried(t, c);
    } else if Carried(t, c) {
      CarriedMeansKnownUser(t, c);
    }
  }

  lemma BrandIsKept(brand: Option<Uuid>)
    requires brand.Some? ==> Canonical(brand.value)
    ensures brand.Some? ==> Canon(brand.value) == brand.value
  {
  }

  lemma UneditedRow(t: Tables, coll: Collation, c: Call)
    requires Unedited(t, coll, c) && RowComplete(Key(c), t.products[Key(c)])
    ensures ProductRowAfter(t, c) == t.products[Key(c)].(revision := t.products[Key(c)].revision + 1)
  {
    hide EditorDraft, Source, Unedited, Canonical, Canon, TextOk, CategoryOrder, ImageOrder, TranslationsOf;
    UneditedTarget(t, coll, c);
    EditorFields(t, coll, Key(c));
    BrandIsKept(t.products[Key(c)].brand);
  }

  /** The two states differ in the product's revision, by one, and in the audit log. */
  ghost predicate RevisionOnly(a: Tables, b: Tables, p: Uuid)
    requires p in a.products
  {
    b == a.(products := a.products[p := a.products[p].(revision := a.products[p].revision + 1)], audit := b.audit)
  }

  lemma RevisionOnlyRoundTrip(a: Tables, b: Tables, coll: Collation, p: Uuid)
    requires coll.Valid() && Projectable(a, p) && RevisionOnly(a, b, p)
    ensures Projectable(b, p)
    ensures DocumentOf(b, coll, p) == DocumentOf(a, coll, p).(revision := DocumentOf(a, coll, p).revision + 1)
  {
    SameTablesSameDocument(a, b, coll, p);
  }

  lemma SameTablesSameDocument(a: Tables, b: Tables, coll: Collation, p: Uuid)
    requires coll.Valid() && Projectable(a, p) && p in b.products
    requires b.products[p] == a.products[p].(revision := b.products[p].revision)
    requires b.productCategories == a.productCategories && b.translations == a.translations && b.variants == a.variants
    requires b.attributeValues == a.attributeValues && b.images == a.images
    ensures Projectable(b, p)
    ensures DocumentOf(b, coll, p) == DocumentOf(a, coll, p).(revision := b.products[p].revision)
  {
    var vs := VariantOrder(a, coll, p);
    assert VariantOrder(b, coll, p) == vs;
    assert VariantDocs(b, vs) == VariantDocs(a, vs);
  }

  /** Apart from the revision and one audit row, it changes no table. */
  lemma SaveBackChangesRevisionOnly(t: Tables, coll: Collation, c: Call)
    requires SendsBack(t, coll, c)
    ensures var p, row := Key(c), t.products[Key(c)];
      Replaced(t, c) == t.(products := t.products[p := row.(revision := row.revision + 1)],
                           audit := t.audit + [AuditEntry(c, Some(row.revision), row.revision + 1)])
  {
    hide Inv, Source, EditorDraft, OracleFresh, VariantRowsFine, ProductChecks, Schema, HasVariant;
    hide RowComplete, CategoriesComplete, TranslationsComplete, ImagesComplete;
    hide VariantsSwept, AttributesAfter, CategoriesAfter, TranslationsAfter, ImagesAfter, ProductRowAfter, Unedited;
    UneditedTarget(t, coll, c);
    InvIsSource(t, coll, Key(c));
    InvIsFine(t);
    UneditedKeepsVariants(t, coll, c);
    UneditedKeepsCategories(t, coll, c);
    UneditedKeepsImages(t, coll, c);
    UneditedKeepsTranslations(t, coll, c);
    UneditedRow(t, coll, c);
  }

  lemma SaveBackIsRevisionOnly(t: Tables, coll: Collation, c: Call)
    requires SendsBack(t, coll, c)
    ensures Projectable(t, Key(c)) && coll.Valid() && RevisionOnly(t, Replaced(t, c), Key(c))
  {
    SaveBackChangesRevisionOnly(t, coll, c);
  }

  ghost predicate SameDocumentLater(a: Tables, b: Tables, coll: Collation, p: Uuid)
  {
    && coll.Valid() && Projectable(a, p) && Projectable(b, p)
    && DocumentOf(b, coll, p) == DocumentOf(a, coll, p).(revision := DocumentOf(a, coll, p).revision + 1)
  }

  /** Read, save, read again: the save succeeds exactly when the product is returnable, and then the document
      is the same, one revision later. */
  lemma RoundTrip(t: Tables, coll: Collation, c: Call)
    requires SendsBack(t, coll, c)
    ensures Carried(t, c) <==> Returnable(t, Key(c), c.actor)
    ensures Carried(t, c) ==> SameDocumentLater(t, Replaced(t, c), coll, Key(c))
  {
    SaveBackExactly(t, coll, c);
    SaveBackIsRevisionOnly(t, coll, c);
    RevisionOnlyRoundTrip(t, Replaced(t, c), coll, Key(c));
  }
}
