/** `catalog_save` row by row: what each table holds afterwards, and when the call is carried out at all,
    said of the rows themselves. */
module CatalogRows {
  import opened Wrappers
  import opened Uuids
  import opened CatalogTables
  import opened CatalogSaveSpec
  import opened CatalogSaveProofs
  import opened CatalogSaveTheorems

  /** The saved product: the target, or the first key drawn. */
  function Saved(c: Call): Uuid
    requires Wanted(c)
  {
    if c.target.None? then c.minted[0] else c.target.value
  }

  /** The i-th draft variant is about row `v`: it names it, or it names none and drew its key. */
  predicate Names(c: Call, i: nat, v: Uuid)
    requires Wanted(c) && i < |c.draft.variants|
  {
    if c.draft.variants[i].id.None? then c.minted[i + 1] == v else Canon(c.draft.variants[i].id.value) == v
  }

  /** Of the first `n` draft variants the i-th is the last one about row `v`. */
  ghost predicate LastOf(c: Call, i: nat, n: nat, v: Uuid)
    requires Wanted(c) && n <= |c.draft.variants|
  {
    i < n && Names(c, i, v) && forall j: nat :: i < j < n ==> !Names(c, j, v)
  }

  lemma SavedIsKey(c: Call)
    requires Wanted(c)
    ensures Saved(c) == Key(c)
  {
  }

  lemma LastOfIsLastNaming(c: Call, n: nat, v: Uuid)
    requires Wanted(c) && n <= |c.draft.variants|
    ensures forall i: nat :: LastOf(c, i, n, v) <==> LastNaming(c, n, v) == i
    ensures LastNaming(c, n, v) < 0 <==> forall i: nat :: i < n ==> !Names(c, i, v)
  {
    var j := LastNaming(c, n, v);
    forall k: nat | j < k < n ensures !Names(c, k, v) { LastNamingIsLast(c, n, v, k); }
    if j >= 0 { assert VariantKey(c, j) == v && Names(c, j, v) && LastOf(c, j, n, v); }
  }

  // What is stored.

  lemma TablesOfReplaced(t: Tables, c: Call)
    requires Wanted(c) && Verdict(t, c).None?
    ensures c.target.Some? ==> c.target.value in t.products
    ensures Replaced(t, c).variants == VariantsSwept(t, c)
    ensures Replaced(t, c).attributeValues == AttributesAfter(t, c, |c.draft.variants|)
    ensures Replaced(t, c).images == ImagesAfter(t.images, Key(c), c.draft.mediaIds)
  {
    AcceptedTarget(t, c);
    hide VariantsSwept, AttributesAfter, CategoriesAfter, TranslationsAfter, ImagesAfter, ProductRowAfter, Verdict;
  }

  lemma InCanonSetMeans(ids: seq<string>, x: Uuid)
    ensures x in CanonSet(ids) <==> exists i :: 0 <= i < |ids| && Canon(ids[i]) == x
  {
    hide Canon;
  }

  lemma AcceptedTarget(t: Tables, c: Call)
    requires Wanted(c) && Verdict(t, c).None?
    ensures c.target.Some? ==> c.target.value in t.products
  {
  }

  /** One product row is written; a new one starts at revision 1, an old one goes on by one. */
  lemma ProductRowStored(t: Tables, c: Call)
    requires Wanted(c) && Verdict(t, c).None?
    ensures c.target.Some? ==> c.target.value in t.products
    ensures var p, after := Saved(c), Replaced(t, c).products;
      && (forall q :: q in after <==> q in t.products || q == p)
      && (forall q :: q in t.products && q != p ==> after[q] == t.products[q])
      && after[p].slug == c.draft.slug && after[p].status == c.draft.status
      && after[p].brand == (if c.draft.brandId.Some? then Some(Canon(c.draft.brandId.value)) else None)
      && after[p].revision == (if c.target.None? then 1 else t.products[p].revision + 1)
      && after[p].createdAt == (if c.target.None? then c.now else t.products[p].createdAt)
      && Replaced(t, c).refs == t.refs
  {
    hide VariantsSwept, AttributesAfter, CategoriesAfter, TranslationsAfter, ImagesAfter;
  }

  /** The product's categories are the draft's, nobody else's change. */
  lemma CategoryRowsStored(t: Tables, c: Call, p: Uuid, x: Uuid)
    requires Wanted(c) && Verdict(t, c).None?
    ensures c.target.Some? ==> c.target.value in t.products
    ensures (p, x) in Replaced(t, c).productCategories <==>
      if p == Saved(c) then exists i :: 0 <= i < |c.draft.categoryIds| && Canon(c.draft.categoryIds[i]) == x
      else (p, x) in t.productCategories
  {
    hide VariantsSwept, AttributesAfter, TranslationsAfter, ImagesAfter, ProductRowAfter, Canon;
  }

  lemma TranslationRowsStored(t: Tables, c: Call, p: Uuid, l: string)
    requires Wanted(c) && Verdict(t, c).None?
    ensures c.target.Some? ==> c.target.value in t.products
    ensures var after := Replaced(t, c).translations;
      if p == Saved(c) then
        && ((p, l) in after <==> l in c.draft.translations)
        && ((p, l) in after ==> after[(p, l)] == c.draft.translations[l])
      else
        && ((p, l) in after <==> (p, l) in t.translations)
        && ((p, l) in after ==> after[(p, l)] == t.translations[(p, l)])
  {
    TranslationAt(t.translations, Key(c), c.draft.translations, (p, l));
    hide VariantsSwept, AttributesAfter, CategoriesAfter, TranslationsAfter, ImagesAfter, ProductRowAfter;
  }

  lemma ImagePositionIs(t: Tables, c: Call, x: Uuid)
    requires Wanted(c) && Verdict(t, c).None?
    ensures var ids := c.draft.mediaIds;
      forall i :: 0 <= i < |ids| && Canon(ids[i]) == x ==> x in CanonSet(ids) && PositionIn(ids, x) == i
  {
    ImagePositionsStored(t, c);
  }

  lemma ImageKeyStored(before: map<(Uuid, Uuid), int>, pid: Uuid, ids: seq<string>, p: Uuid, x: Uuid)
    requires forall i :: 0 <= i < |ids| && Canon(ids[i]) == x ==> x in CanonSet(ids) && PositionIn(ids, x) == i
    ensures var after := ImagesAfter(before, pid, ids);
      if p == pid then
        && ((p, x) in after <==> exists i :: 0 <= i < |ids| && Canon(ids[i]) == x)
        && (forall i :: 0 <= i < |ids| && Canon(ids[i]) == x ==> after[(p, x)] == i)
      else
        && ((p, x) in after <==> (p, x) in before)
        && ((p, x) in after ==> after[(p, x)] == before[(p, x)])
  {
    ImageAt(before, pid, ids, (p, x));
    InCanonSetMeans(ids, x);
    hide *;
  }

  /** The i-th image of the draft stands on position i. */
  lemma ImageRowsStored(t: Tables, c: Call, p: Uuid, x: Uuid)
    requires Wanted(c) && Verdict(t, c).None?
    ensures c.target.Some? ==> c.target.value in t.products
    ensures var after := Replaced(t, c).images;
      if p == Saved(c) then
        && ((p, x) in after <==> exists i :: 0 <= i < |c.draft.mediaIds| && Canon(c.draft.mediaIds[i]) == x)
        && (forall i :: 0 <= i < |c.draft.mediaIds| && Canon(c.draft.mediaIds[i]) == x ==> after[(p, x)] == i)
      else
        && ((p, x) in after <==> (p, x) in t.images)
        && ((p, x) in after ==> after[(p, x)] == t.images[(p, x)])
  {
    TablesOfReplaced(t, c);
    ImagePositionIs(t, c, x);
    ImageKeyStored(t.images, Key(c), c.draft.mediaIds, p, x);
    SavedIsKey(c);
    hide *;
  }

  ghost predicate AttributesAre(values: map<(Uuid, string), string>, v: Uuid, m: map<string, string>)
  {
    forall a :: ((v, a) in values <==> a in m) && (a in m ==> values[(v, a)] == m[a])
  }

  ghost predicate SameAttributes(a: map<(Uuid, string), string>, b: map<(Uuid, string), string>, v: Uuid)
  {
    forall x :: ((v, x) in a <==> (v, x) in b) && ((v, x) in a ==> a[(v, x)] == b[(v, x)])
  }

  lemma SweptRowIs(t: Tables, c: Call, v: Uuid)
    requires Wanted(c)
    ensures var j, w := LastNaming(c, |c.draft.variants|, v), VariantsSwept(t, c);
      && (v in w <==> v in t.variants || j >= 0)
      && (j >= 0 ==>
           var d := c.draft.variants[j];
           w[v] == VariantRow(Key(c), d.sku, d.name, d.priceMinor, d.active))
      && (j < 0 && v in t.variants ==>
           var row := t.variants[v];
           w[v] == VariantRow(row.product, row.sku, row.name, row.price, row.active && row.product != Key(c)))
  {
    LastNamingIsNamed(c, |c.draft.variants|, v);
    if v in VariantsSwept(t, c) { WrittenOrUntouched(t, c, v); }
  }

  lemma SweptAttributesAre(t: Tables, c: Call, v: Uuid)
    requires Wanted(c)
    ensures var n, after := |c.draft.variants|, AttributesAfter(t, c, |c.draft.variants|);
      var j := LastNaming(c, n, v);
      && (j >= 0 ==> AttributesAre(after, v, c.draft.variants[j].attributes))
      && (j < 0 ==> SameAttributes(after, t.attributeValues, v))
  {
    hide AttributesAfter, LastNaming;
    forall a
      ensures var n, after := |c.draft.variants|, AttributesAfter(t, c, |c.draft.variants|);
        var j := LastNaming(c, n, v);
        && ((v, a) in after <==> if j >= 0 then a in c.draft.variants[j].attributes else (v, a) in t.attributeValues)
        && ((v, a) in after ==> after[(v, a)] == if j >= 0 then c.draft.variants[j].attributes[a]
             else t.attributeValues[(v, a)])
    {
      AttributeCodeStored(t, c, v, a);
      InCodes(t.attributeValues, v, a);
    }
  }

  /** A variant row is written by the last draft variant about it, field by field; one of the product that no
      draft variant is about becomes inactive and keeps the rest; any other stays as it is. */
  lemma VariantRowsStored(t: Tables, c: Call, v: Uuid)
    requires Wanted(c) && Verdict(t, c).None?
    ensures c.target.Some? ==> c.target.value in t.products
    ensures var n, after := |c.draft.variants|, Replaced(t, c);
      && (v in after.variants <==> v in t.variants || exists i: nat :: i < n && Names(c, i, v))
      && (forall i: nat :: LastOf(c, i, n, v) ==>
           var d := c.draft.variants[i];
           && v in after.variants
           && after.variants[v] == VariantRow(Saved(c), d.sku, d.name, d.priceMinor, d.active)
           && AttributesAre(after.attributeValues, v, d.attributes))
      && ((forall i: nat :: i < n ==> !Names(c, i, v)) ==>
           && SameAttributes(after.attributeValues, t.attributeValues, v)
           && (v in t.variants ==>
             var row := t.variants[v];
             after.variants[v] ==
               VariantRow(row.product, row.sku, row.name, row.price, row.active && row.product != Saved(c))))
  {
    var n := |c.draft.variants|;
    TablesOfReplaced(t, c);
    LastOfIsLastNaming(c, n, v);
    SweptRowIs(t, c, v);
    SweptAttributesAre(t, c, v);
    hide *;
    SavedIsKey(c);
  }

  /** One audit row more: who, in which request, what was done to which product, and over which revision. */
  lemma AuditRowStored(t: Tables, c: Call)
    requires Wanted(c) && Verdict(t, c).None?
    ensures c.target.Some? ==> c.target.value in t.products
    ensures var p, after := Saved(c), Replaced(t, c);
      && |after.audit| == |t.audit| + 1 && after.audit[..|t.audit|] == t.audit
      && var row := after.audit[|t.audit|];
         && row.actor == c.actor && row.request == c.request && row.entity == p && row.status == c.draft.status
         && row.action == (if c.target.None? then "product.created" else "product.updated")
         && row.oldRevision == (if c.target.None? then None else Some(t.products[p].revision))
         && row.newRevision == after.products[p].revision
  {
    hide VariantsSwept, AttributesAfter, CategoriesAfter, TranslationsAfter, ImagesAfter;
  }

  // When it is carried out.

  ghost predicate TargetFits(t: Tables, c: Call)
  {
    c.target.Some? ==>
      && c.target.value in t.products && c.expected == Some(t.products[c.target.value].revision)
      && t.products[c.target.value].revision != 2147483647
  }

  ghost predicate ProductFits(t: Tables, c: Call)
    requires Wanted(c)
  {
    var d := c.draft;
    && SlugPattern(d.slug) && d.status in {"draft", "active", "archived"}
    && (d.brandId.Some? ==> IsUuid(d.brandId.value) && Canon(d.brandId.value) in t.refs.brands)
    && forall q :: q in t.products && q != Saved(c) ==> t.products[q].slug != d.slug
  }

  /** References that resolve, each given once, and no more than there is room for. */
  ghost predicate LinksFit(ids: seq<string>, most: nat, known: set<Uuid>)
  {
    && |ids| <= most
    && (forall i :: 0 <= i < |ids| ==> IsUuid(ids[i]) && Canon(ids[i]) in known)
    && (forall i, j :: 0 <= i < j < |ids| ==> Canon(ids[i]) != Canon(ids[j]))
  }

  ghost predicate TranslationFits(l: string, x: Translation)
  {
    (l == "ru" || l == "ro") && 1 <= |x.name| <= 200 && |x.description| <= 20000 && |x.seoTitle| <= 200
    && |x.seoDescription| <= 500
  }

  ghost predicate StillAsItWas(t: Tables, c: Call, i: nat, v: Uuid)
    requires Wanted(c) && i < |c.draft.variants|
  {
    v in t.variants && forall j: nat :: j < i ==> !Names(c, j, v)
  }

  /** No row but its own holds the SKU when the i-th draft variant is written: neither one written before it
      in this call nor one that is still as it was. */
  ghost predicate SkuFits(t: Tables, c: Call, i: nat)
    requires Wanted(c) && i < |c.draft.variants|
  {
    forall v :: !Names(c, i, v) ==>
      && (forall j: nat :: LastOf(c, j, i, v) ==> c.draft.variants[j].sku != c.draft.variants[i].sku)
      && (StillAsItWas(t, c, i, v) ==> t.variants[v].sku != c.draft.variants[i].sku)
  }

  ghost predicate VariantFits(t: Tables, c: Call, i: nat)
    requires Wanted(c) && i < |c.draft.variants|
  {
    var d := c.draft.variants[i];
    && 1 <= |d.sku| <= 64 && 1 <= |d.name| <= 160 && 0 <= d.priceMinor <= 100000000
    && (d.id.Some? ==>
         IsUuid(d.id.value) && Canon(d.id.value) in t.variants && t.variants[Canon(d.id.value)].product == Saved(c))
    && SkuFits(t, c, i)
    && forall a :: a in d.attributes ==> |d.attributes[a]| <= 300 && a in t.refs.attributes
  }

  /** What a call must be for `catalog_save` to carry it out, whatever validation has looked at. */
  ghost predicate Fits(t: Tables, c: Call)
    requires Wanted(c)
  {
    && TargetFits(t, c) && ProductFits(t, c)
    && LinksFit(c.draft.categoryIds, |c.draft.categoryIds|, t.refs.categories)
    && LinksFit(c.draft.mediaIds, 10, t.refs.media)
    && (forall l :: l in c.draft.translations ==> TranslationFits(l, c.draft.translations[l]))
    && (forall i :: 0 <= i < |c.draft.variants| ==> VariantFits(t, c, i))
    && c.actor in t.refs.users
  }

  ghost predicate RowFits(ids: seq<string>, most: nat, k: nat)
    requires k < |ids|
  {
    IsUuid(ids[k]) && k < most && forall j :: 0 <= j < k ==> Canon(ids[j]) != Canon(ids[k])
  }

  lemma RowFitsNext(ids: seq<string>, most: nat, i: nat)
    requires i < |ids|
    ensures RowFailure(ids, most, i).None? <==> RowFits(ids, most, i) && RowFailure(ids, most, i + 1).None?
  {
    hide IsUuid, Canon;
  }

  lemma {:induction false} RowsFit(ids: seq<string>, most: nat, i: nat)
    requires i <= |ids|
    ensures RowFailure(ids, most, i).None? <==> forall k :: i <= k < |ids| ==> RowFits(ids, most, k)
    decreases |ids| - i
  {
    hide RowFits;
    if i < |ids| {
      RowFitsNext(ids, most, i);
      RowsFit(ids, most, i + 1);
    }
  }

  lemma LinksFitExactly(ids: seq<string>, most: nat, known: set<Uuid>)
    ensures LinkFailure(ids, most, known).None? <==> LinksFit(ids, most, known)
  {
    hide IsUuid, Canon, RowFailure;
    RowsFit(ids, most, 0);
    forall x { InCanonSetMeans(ids, x); }
    if LinksFit(ids, most, known) {
      assert CanonSet(ids) <= known;
      assert forall k: nat :: k < |ids| ==> RowFits(ids, most, k);
    }
    if LinkFailure(ids, most, known).None? {
      LinkFailureNone(ids, most, known);
      if |ids| > 0 { assert RowFits(ids, most, |ids| - 1); }
    }
  }

  lemma SkuFitsExactly(t: Tables, c: Call, i: nat)
    requires Wanted(c) && i < |c.draft.variants|
    ensures SkuHeld(t, c, i) <==> !SkuFits(t, c, i)
  {
    hide LastNaming, VariantsAfter, Canon;
    forall v
      ensures v == VariantKey(c, i) <==> Names(c, i, v)
      ensures var m := VariantsAfter(t, c, i);
        v in m && m[v].sku == c.draft.variants[i].sku <==>
          || (exists j: nat :: LastOf(c, j, i, v) && c.draft.variants[j].sku == c.draft.variants[i].sku)
          || (StillAsItWas(t, c, i, v) && t.variants[v].sku == c.draft.variants[i].sku)
    {
      hide Names, LastOf;
      RowInLoop(t, c, i, v);
      OwnKey(c, i, v);
    }
    hide Names, LastOf, VariantKey;
  }

  lemma OwnKey(c: Call, i: nat, v: Uuid)
    requires Wanted(c) && i < |c.draft.variants|
    ensures v == VariantKey(c, i) <==> Names(c, i, v)
  {
  }

  lemma RowInLoop(t: Tables, c: Call, i: nat, v: Uuid)
    requires Wanted(c) && i < |c.draft.variants|
    ensures var m := VariantsAfter(t, c, i);
      v in m && m[v].sku == c.draft.variants[i].sku <==>
        || (exists j: nat :: LastOf(c, j, i, v) && c.draft.variants[j].sku == c.draft.variants[i].sku)
        || (StillAsItWas(t, c, i, v) && t.variants[v].sku == c.draft.variants[i].sku)
  {
    VariantAt(t, c, i, v);
    LastOfIsLastNaming(c, i, v);
    var j := LastNaming(c, i, v);
    hide VariantsAfter, LastNaming, Names, LastOf;
    if j >= 0 { assert LastOf(c, j, i, v); }
  }

  lemma VariantFitsExactly(t: Tables, c: Call, i: nat)
    requires Wanted(c) && i < |c.draft.variants|
    ensures VariantFailure(t, c, i).None? <==> VariantFits(t, c, i)
  {
    hide SkuHeld, SkuFits, IsUuid, Canon;
    SkuFitsExactly(t, c, i);
    SavedIsKey(c);
  }

  lemma ProductFitsExactly(t: Tables, c: Call)
    requires Wanted(c) && TargetFailure(t, c).None?
    ensures ProductFailure(t, c).None? && TargetFailure(t, c).None? <==> TargetFits(t, c) && ProductFits(t, c)
  {
    hide IsUuid, Canon, SlugPattern;
    SavedIsKey(c);
  }

  /** The call is carried out exactly when everything it says fits the rows that are there. */
  lemma AcceptedExactly(t: Tables, c: Call)
    requires Wanted(c)
    ensures Verdict(t, c).None? <==> Fits(t, c)
  {
    hide ProductFailure, LinkFailure, VariantFailure, ProductFits, LinksFit, VariantFits, TranslationFits;
    if TargetFailure(t, c).None? {
      ProductFitsExactly(t, c);
      LinksFitExactly(c.draft.categoryIds, |c.draft.categoryIds|, t.refs.categories);
      LinksFitExactly(c.draft.mediaIds, 10, t.refs.media);
      VariantsFailureIsFirst(t, c, 0);
      forall i | 0 <= i < |c.draft.variants| ensures VariantFailure(t, c, i).None? <==> VariantFits(t, c, i) {
        VariantFitsExactly(t, c, i);
      }
      forall l | l in c.draft.translations
        ensures TranslationChecks(l, c.draft.translations[l]) <==> TranslationFits(l, c.draft.translations[l])
      {
        TranslationFitsExactly(l, c.draft.translations[l]);
      }
    }
  }

  lemma TranslationFitsExactly(l: string, x: Translation)
    ensures TranslationChecks(l, x) <==> TranslationFits(l, x)
  {
  }
}
