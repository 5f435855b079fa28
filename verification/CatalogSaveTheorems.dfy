/** What an accepted save means for the product, for its variants and for everybody else. */
module CatalogSaveTheorems {
  import opened Wrappers
  import opened Uuids
  import opened CatalogTables
  import opened DraftValidation
  import opened CatalogSaveSpec
  import opened CatalogSaveProofs

  // The rows of one product or variant after the call, table by table.

  lemma CategoriesStored(before: set<(Uuid, Uuid)>, pid: Uuid, ids: seq<string>, q: Uuid)
    ensures CategoriesIn(CategoriesAfter(before, pid, ids), q) == if q == pid then CanonSet(ids)
      else CategoriesIn(before, q)
  {
    var after := CategoriesAfter(before, pid, ids);
    forall x ensures x in CategoriesIn(after, q) <==> x in if q == pid then CanonSet(ids) else CategoriesIn(before, q) {
      assert x in CategoriesIn(after, q) <==> (q, x) in after;
      assert x in CategoriesIn(before, q) <==> (q, x) in before;
    }
  }

  lemma TranslationAt(before: map<(Uuid, string), Translation>, pid: Uuid, x: map<string, Translation>,
          k: (Uuid, string))
    ensures var after := TranslationsAfter(before, pid, x);
      && (k in after <==> if k.0 == pid then k.1 in x else k in before)
      && (k in after ==> after[k] == if k.0 == pid then x[k.1] else before[k])
  {
  }

  lemma TranslationsStored(before: map<(Uuid, string), Translation>, pid: Uuid, x: map<string, Translation>, q: Uuid)
    ensures TranslationsIn(TranslationsAfter(before, pid, x), q) == if q == pid then x else TranslationsIn(before, q)
  {
    forall l { TranslationAt(before, pid, x, (q, l)); }
    hide TranslationsAfter;
    var after := TranslationsAfter(before, pid, x);
    var want := if q == pid then x else TranslationsIn(before, q);
    forall l ensures l in LocalesIn(after, q) <==> l in want {
      assert l in LocalesIn(after, q) <==> (q, l) in after;
      assert l in LocalesIn(before, q) <==> (q, l) in before;
    }
  }

  lemma ImagesStored(before: map<(Uuid, Uuid), int>, pid: Uuid, ids: seq<string>, q: Uuid)
    ensures var after := ImagesAfter(before, pid, ids);
      && (q != pid ==> PositionsIn(after, q) == PositionsIn(before, q))
      && (q == pid ==> PositionsIn(after, q) == map m | m in CanonSet(ids) :: PositionIn(ids, m))
  {
    forall m { ImageAt(before, pid, ids, (q, m)); }
    hide Canon, CanonSet, PositionIn, ImagesAfter;
    var after := ImagesAfter(before, pid, ids);
    forall m ensures m in MediaIn(after, q) <==> m in if q == pid then CanonSet(ids) else MediaIn(before, q) {
      assert m in MediaIn(after, q) <==> (q, m) in after;
      assert m in MediaIn(before, q) <==> (q, m) in before;
    }
  }

  lemma AttributesStored(t: Tables, c: Call, v: Uuid)
    requires Wanted(c)
    ensures var n := |c.draft.variants|;
      var j := LastNaming(c, n, v);
      AttributesIn(AttributesAfter(t, c, n), v) == if j >= 0 then c.draft.variants[j].attributes
        else AttributesIn(t.attributeValues, v)
  {
    var n := |c.draft.variants|;
    var j := LastNaming(c, n, v);
    var after := AttributesAfter(t, c, n);
    var want := if j >= 0 then c.draft.variants[j].attributes else AttributesIn(t.attributeValues, v);
    forall a ensures a in CodesIn(after, v) <==> a in want { AttributeCodeStored(t, c, v, a); }
    forall a | a in want ensures after[(v, a)] == want[a] { AttributeCodeStored(t, c, v, a); }
  }

  lemma AttributeCodeStored(t: Tables, c: Call, v: Uuid, a: string)
    requires Wanted(c)
    ensures var n := |c.draft.variants|;
      var j := LastNaming(c, n, v);
      var after := AttributesAfter(t, c, n);
      && (a in CodesIn(after, v) <==> (v, a) in after)
      && ((v, a) in after <==> if j >= 0 then a in c.draft.variants[j].attributes
           else a in CodesIn(t.attributeValues, v))
      && ((v, a) in after ==> after[(v, a)] == if j >= 0 then c.draft.variants[j].attributes[a]
           else t.attributeValues[(v, a)])
  {
    var n := |c.draft.variants|;
    var after := AttributesAfter(t, c, n);
    AttributeKeys(t, c, n, (v, a));
    if (v, a) in after { AttributeValue(t, c, n, (v, a)); }
    InCodes(after, v, a);
    InCodes(t.attributeValues, v, a);
  }

  lemma InCodes(rows: map<(Uuid, string), string>, v: Uuid, a: string)
    ensures a in CodesIn(rows, v) <==> (v, a) in rows
  {
  }

  /** The draft's own fields, categories, translations and image order are the product's afterwards. */
  lemma DraftContentsStored(t: Tables, c: Call)
    requires Wanted(c) && Verdict(t, c).None?
    ensures var after, d := Replaced(t, c), c.draft;
      && after.products[Key(c)].slug == d.slug && after.products[Key(c)].status == d.status
      && after.products[Key(c)].brand == BrandKey(d)
      && CategoriesOf(after, Key(c)) == CanonSet(d.categoryIds)
      && TranslationsOf(after, Key(c)) == d.translations
      && PositionsOf(after, Key(c)).Keys == CanonSet(d.mediaIds)
      && (forall i :: 0 <= i < |d.mediaIds| ==> PositionsOf(after, Key(c))[Canon(d.mediaIds[i])] == i)
  {
    hide Verdict, CanonSet, Canon, CategoriesAfter, TranslationsAfter, ImagesAfter, CategoriesIn, TranslationsIn;
    hide PositionsIn, VariantsSwept, AttributesAfter, PositionIn;
    var d, pid := c.draft, Key(c);
    CategoriesStored(t.productCategories, pid, d.categoryIds, pid);
    TranslationsStored(t.translations, pid, d.translations, pid);
    ImagesStored(t.images, pid, d.mediaIds, pid);
    ImagePositionsStored(t, c);
  }

  lemma ImagePositionsStored(t: Tables, c: Call)
    requires Wanted(c) && Verdict(t, c).None?
    ensures forall i :: 0 <= i < |c.draft.mediaIds| ==>
      Canon(c.draft.mediaIds[i]) in CanonSet(c.draft.mediaIds)
        && PositionIn(c.draft.mediaIds, Canon(c.draft.mediaIds[i])) == i
  {
    AcceptedMeans(t, c);
    var ids := c.draft.mediaIds;
    LinkFailureNone(ids, 10, t.refs.media);
    forall i | 0 <= i < |ids| ensures Canon(ids[i]) in CanonSet(ids) && PositionIn(ids, Canon(ids[i])) == i {
      PositionOfEach(ids, i);
    }
  }

  /** Nothing that belongs to another product changes. */
  lemma OtherProductsUntouched(t: Tables, c: Call, q: Uuid)
    requires OracleFresh(t, c) && Verdict(t, c).None? && q != Key(c)
    ensures var after := Replaced(t, c);
      && (q in after.products <==> q in t.products)
      && (q in t.products ==> after.products[q] == t.products[q])
      && CategoriesOf(after, q) == CategoriesOf(t, q) && TranslationsOf(after, q) == TranslationsOf(t, q)
      && PositionsOf(after, q) == PositionsOf(t, q) && VariantsOf(after, q) == VariantsOf(t, q)
      && (forall v :: v in VariantsOf(t, q) ==> AttributesOf(after, v) == AttributesOf(t, v))
  {
    CategoriesStored(t.productCategories, Key(c), c.draft.categoryIds, q);
    TranslationsStored(t.translations, Key(c), c.draft.translations, q);
    ImagesStored(t.images, Key(c), c.draft.mediaIds, q);
    OtherVariantsUntouched(t, c, q);
  }

  lemma OtherVariantsUntouched(t: Tables, c: Call, q: Uuid)
    requires OracleFresh(t, c) && Verdict(t, c).None? && q != Key(c)
    ensures VariantsIn(VariantsSwept(t, c), q) == VariantsIn(t.variants, q)
    ensures forall v :: v in VariantsIn(t.variants, q) ==>
      AttributesIn(AttributesAfter(t, c, |c.draft.variants|), v) == AttributesIn(t.attributeValues, v)
  {
    hide Verdict, VariantsSwept, AttributesAfter, AttributesIn;
    forall v
      ensures v in VariantsIn(VariantsSwept(t, c), q) <==> v in VariantsIn(t.variants, q)
      ensures v in VariantsIn(t.variants, q) ==> VariantsSwept(t, c)[v] == t.variants[v]
      ensures v in VariantsIn(t.variants, q) ==>
        AttributesIn(AttributesAfter(t, c, |c.draft.variants|), v) == AttributesIn(t.attributeValues, v)
    {
      ForeignVariant(t, c, q, v);
      AttributesStored(t, c, v);
    }
  }

  /** A variant of another product is never named by an accepted call. */
  lemma ForeignVariant(t: Tables, c: Call, q: Uuid, v: Uuid)
    requires OracleFresh(t, c) && Verdict(t, c).None? && q != Key(c)
    ensures v in VariantsIn(VariantsSwept(t, c), q) <==> v in VariantsIn(t.variants, q)
    ensures v in VariantsIn(t.variants, q) ==>
      LastNaming(c, |c.draft.variants|, v) < 0 && VariantsSwept(t, c)[v] == t.variants[v]
  {
    AcceptedMeans(t, c);
    var n := |c.draft.variants|;
    LastNamingIsNamed(c, n, v);
    var j := LastNaming(c, n, v);
    if j >= 0 {
      NamedIsOwnedOrMinted(t, c, n, j);
      if c.draft.variants[j].id.None? { assert c.minted[j + 1] in c.minted; }
      assert v !in VariantsIn(t.variants, q);
    }
    if v in VariantsSwept(t, c) { WrittenOrUntouched(t, c, v); }
  }

  /** A named row carries the fields and attributes of the last draft variant that names it. */
  lemma NamedVariantStored(t: Tables, c: Call, v: Uuid)
    requires Wanted(c) && (c.target.Some? ==> c.target.value in t.products) && v in Named(c, |c.draft.variants|)
    ensures var j := LastNaming(c, |c.draft.variants|, v);
      j >= 0 && v in Replaced(t, c).variants && Replaced(t, c).variants[v] == VariantRowOf(c, j)
      && AttributesOf(Replaced(t, c), v) == c.draft.variants[j].attributes
  {
    LastNamingIsNamed(c, |c.draft.variants|, v);
    WrittenOrUntouched(t, c, v);
    AttributesStored(t, c, v);
  }

  /** Distinct as uuid values, not only as spellings. A caller can check it by lower-casing the ids. */
  ghost predicate DistinctIds(d: Draft)
  {
    forall i, j :: 0 <= i < j < |d.variants| && d.variants[i].id.Some? && d.variants[j].id.Some? ==>
      Canon(d.variants[i].id.value) != Canon(d.variants[j].id.value)
  }

  lemma DistinctIdsNameOnce(t: Tables, c: Call, i: nat)
    requires OracleFresh(t, c) && DistinctIds(c.draft) && i < |c.draft.variants|
    ensures LastNaming(c, |c.draft.variants|, VariantKey(c, i)) == i
  {
    var n := |c.draft.variants|;
    var j := LastNaming(c, n, VariantKey(c, i));
    assert VariantKey(c, i) in Named(c, n);
    LastNamingIsNamed(c, n, VariantKey(c, i));
    assert VariantKey(c, j) == VariantKey(c, i);
    KeysApart(t, c, i, j);
  }

  lemma KeysApart(t: Tables, c: Call, i: nat, j: nat)
    requires OracleFresh(t, c) && DistinctIds(c.draft) && i < |c.draft.variants| && j < |c.draft.variants|
    requires VariantKey(c, i) == VariantKey(c, j)
    ensures i == j
  {
    assert c.minted[i + 1] in c.minted && c.minted[j + 1] in c.minted;
  }

  /** With ids distinct as values, every draft variant is stored as it stands. */
  lemma EachDraftVariantStored(t: Tables, c: Call, i: nat)
    requires OracleFresh(t, c) && Schema(t) && Verdict(t, c).None? && DistinctIds(c.draft) && i < |c.draft.variants|
    ensures var v := VariantKey(c, i);
      && v in Replaced(t, c).variants && Replaced(t, c).variants[v] == VariantRowOf(c, i)
      && AttributesOf(Replaced(t, c), v) == c.draft.variants[i].attributes
  {
    assert VariantKey(c, i) in Named(c, |c.draft.variants|);
    DistinctIdsNameOnce(t, c, i);
    NamedVariantStored(t, c, VariantKey(c, i));
  }

  /** Variants the draft does not name keep id, SKU, name, price and attributes, and become inactive. */
  lemma UnnamedVariantsRetired(t: Tables, c: Call, v: Uuid)
    requires OracleFresh(t, c) && Verdict(t, c).None?
    requires Owns(t, Key(c), v) && v !in Named(c, |c.draft.variants|)
    ensures v in Replaced(t, c).variants && Replaced(t, c).variants[v] == t.variants[v].(active := false)
    ensures AttributesOf(Replaced(t, c), v) == AttributesOf(t, v)
  {
    LastNamingIsNamed(c, |c.draft.variants|, v);
    WrittenOrUntouched(t, c, v);
    AttributesStored(t, c, v);
  }

  /** No variant id ever disappears or changes product, and new ids belong to the saved product. */
  lemma VariantIdentityKept(t: Tables, c: Call, v: Uuid)
    requires OracleFresh(t, c) && Verdict(t, c).None?
    ensures v in t.variants ==>
      v in Replaced(t, c).variants && Replaced(t, c).variants[v].product == t.variants[v].product
    ensures v in Replaced(t, c).variants && v !in t.variants ==>
      Replaced(t, c).variants[v].product == Key(c) && v in c.minted
  {
    AcceptedMeans(t, c);
    var n := |c.draft.variants|;
    if v in VariantsSwept(t, c) {
      WrittenOrUntouched(t, c, v);
      var j := LastNaming(c, n, v);
      if j >= 0 {
        NamedIsOwnedOrMinted(t, c, n, j);
        if c.draft.variants[j].id.None? { assert c.minted[j + 1] in c.minted; }
      }
    }
  }

  // SKUs are checked row by row.

  /** In the middle of the loop a SKU is held exactly by a row that is not rewritten yet. */
  lemma SkuHeldExactly(t: Tables, c: Call, i: nat)
    requires OracleFresh(t, c) && i < |c.draft.variants| && VariantsDistinct(c.draft.variants)
    ensures SkuHeld(t, c, i) <==>
      exists v ::
        v in t.variants && v != VariantKey(c, i) && v !in Named(c, i) && t.variants[v].sku == c.draft.variants[i].sku
  {
    var m := VariantsAfter(t, c, i);
    forall v ensures v in Named(c, i) <==> LastNaming(c, i, v) >= 0 { LastNamingIsNamed(c, i, v); }
    if v :| v in m && v != VariantKey(c, i) && m[v].sku == c.draft.variants[i].sku {
      var j := LastNaming(c, i, v);
      assert j >= 0 ==> Apart(c.draft.variants[j], c.draft.variants[i]);
    }
    var key, sku := VariantKey(c, i), c.draft.variants[i].sku;
    if v :| v in t.variants && v != key && v !in Named(c, i) && t.variants[v].sku == sku {
      assert m[v] == t.variants[v];
    }
  }

  lemma AcceptedTakesNoHeldSku(t: Tables, c: Call, i: nat)
    requires Wanted(c) && i < |c.draft.variants|
    ensures Verdict(t, c).None? ==> !SkuHeld(t, c, i)
  {
    if Verdict(t, c).None? {
      AcceptedMeans(t, c);
      assert VariantFailure(t, c, i).None?;
    }
  }

  /** Taking over the SKU of a row that the loop has not reached, or never reaches, is refused:
      two variants cannot exchange SKUs and a deactivated variant's SKU cannot be reused. */
  lemma HeldSkuIsRefused(t: Tables, c: Call, i: nat, v: Uuid)
    requires OracleFresh(t, c) && i < |c.draft.variants|
    requires v in t.variants && v != VariantKey(c, i) && v !in Named(c, i)
    requires t.variants[v].sku == c.draft.variants[i].sku
    ensures Verdict(t, c).Some?
  {
    LastNamingIsNamed(c, i, v);
    assert VariantsAfter(t, c, i)[v] == t.variants[v];
    assert SkuHeld(t, c, i);
    AcceptedTakesNoHeldSku(t, c, i);
  }

  lemma SwapOfSkusIsRefused(t: Tables, c: Call, i: nat, j: nat)
    requires OracleFresh(t, c) && i < j < |c.draft.variants| && DistinctIds(c.draft)
    requires VariantKey(c, i) in t.variants && VariantKey(c, j) in t.variants
    requires c.draft.variants[i].sku == t.variants[VariantKey(c, j)].sku
    requires c.draft.variants[j].sku == t.variants[VariantKey(c, i)].sku
    ensures Verdict(t, c).Some?
  {
    if VariantKey(c, j) in Named(c, i + 1) {
      var k :| 0 <= k < i + 1 && VariantKey(c, k) == VariantKey(c, j);
      KeysApart(t, c, k, j);
    }
    assert VariantKey(c, i) in Named(c, i + 1);
    NamedStep(c, i);
    HeldSkuIsRefused(t, c, i, VariantKey(c, j));
  }

  // Refusals of drafts that passed validation.

  ghost predicate UnknownReference(t: Tables, c: Call)
    requires Wanted(c)
  {
    || (c.draft.brandId.Some? && Canon(c.draft.brandId.value) !in t.refs.brands)
    || !(CanonSet(c.draft.categoryIds) <= t.refs.categories)
    || !(CanonSet(c.draft.mediaIds) <= t.refs.media)
    || (exists i :: 0 <= i < |c.draft.variants| && UnknownInVariant(t, c, i))
    || c.actor !in t.refs.users
  }

  ghost predicate UnknownInVariant(t: Tables, c: Call, i: nat)
    requires Wanted(c) && i < |c.draft.variants|
  {
    (c.draft.variants[i].id.Some? && !Owns(t, Key(c), VariantKey(c, i)))
      || !(c.draft.variants[i].attributes.Keys <= t.refs.attributes)
  }

  ghost predicate RepeatedValue(ids: seq<string>)
  {
    exists i, j :: 0 <= i < j < |ids| && Canon(ids[i]) == Canon(ids[j])
  }

  ghost predicate UniqueClash(t: Tables, c: Call)
    requires Wanted(c)
  {
    || SlugTaken(t, Key(c), c.draft.slug)
    || RepeatedValue(c.draft.categoryIds) || RepeatedValue(c.draft.mediaIds)
    || (exists i :: 0 <= i < |c.draft.variants| && SkuHeld(t, c, i))
  }

  lemma {:induction false} RowsOfValidIds(ids: seq<string>, positions: nat, i: nat)
    requires i <= |ids| <= positions && forall k :: 0 <= k < |ids| ==> IsUuid(ids[k])
    ensures RowFailure(ids, positions, i).None? <==>
      forall j, k :: 0 <= j < k < |ids| && i <= k ==> Canon(ids[j]) != Canon(ids[k])
    ensures RowFailure(ids, positions, i).Some? ==> RowFailure(ids, positions, i) == Some(DuplicateSlugOrSku)
    decreases |ids| - i
  {
    if i < |ids| { RowsOfValidIds(ids, positions, i + 1); }
  }

  lemma LinksOfValidIds(ids: seq<string>, positions: nat, known: set<Uuid>)
    requires |ids| <= positions && forall k :: 0 <= k < |ids| ==> IsUuid(ids[k])
    ensures LinkFailure(ids, positions, known) ==
      if RepeatedValue(ids) then Some(DuplicateSlugOrSku) else if CanonSet(ids) <= known then None
        else Some(InvalidReference)
  {
    RowsOfValidIds(ids, positions, 0);
    if RowFailure(ids, positions, 0).None? { assert !RepeatedValue(ids); }
  }

  lemma ValidVariantVerdict(t: Tables, c: Call, i: nat)
    requires Wanted(c) && i < |c.draft.variants| && VariantOk(c.draft.variants[i])
    ensures VariantFailure(t, c, i) == None <==> !UnknownInVariant(t, c, i) && !SkuHeld(t, c, i)
    ensures VariantFailure(t, c, i) == Some(InvalidReference) ==> UnknownInVariant(t, c, i)
    ensures VariantFailure(t, c, i) == Some(DuplicateSlugOrSku) ==> SkuHeld(t, c, i)
    ensures VariantFailure(t, c, i) in {None, Some(InvalidReference), Some(DuplicateSlugOrSku)}
  {
    var m := c.draft.variants[i].attributes;
    assert AttributesStorable(t, m) <==> m.Keys <= t.refs.attributes by {
      assert forall a :: a in m ==> |m[a]| <= 300;
    }
  }

  lemma {:induction false} ValidVariantsVerdict(t: Tables, c: Call, i: nat)
    requires Wanted(c) && i <= |c.draft.variants|
    requires forall k :: 0 <= k < |c.draft.variants| ==> VariantOk(c.draft.variants[k])
    ensures var f := VariantsFailure(t, c, i);
      && (f.None? <==> forall k :: i <= k < |c.draft.variants| ==> !UnknownInVariant(t, c, k) && !SkuHeld(t, c, k))
      && (f == Some(InvalidReference) ==> exists k :: i <= k < |c.draft.variants| && UnknownInVariant(t, c, k))
      && (f == Some(DuplicateSlugOrSku) ==> exists k :: i <= k < |c.draft.variants| && SkuHeld(t, c, k))
      && f in {None, Some(InvalidReference), Some(DuplicateSlugOrSku)}
    decreases |c.draft.variants| - i
  {
    hide VariantFailure, UnknownInVariant, SkuHeld, VariantOk;
    if i < |c.draft.variants| {
      ValidVariantVerdict(t, c, i);
      ValidVariantsVerdict(t, c, i + 1);
    }
  }

  lemma ValidHeadVerdict(t: Tables, c: Call)
    requires Wanted(c) && DraftOk(c.draft) && TargetFailure(t, c).None? && !AtMaxRevision(t, c)
    ensures HeadFailure(t, c).None? <==>
      && !SlugTaken(t, Key(c), c.draft.slug) && !RepeatedValue(c.draft.categoryIds)
      && (c.draft.brandId.Some? ==> Canon(c.draft.brandId.value) in t.refs.brands)
      && CanonSet(c.draft.categoryIds) <= t.refs.categories
    ensures HeadFailure(t, c) == Some(InvalidReference) ==> UnknownReference(t, c)
    ensures HeadFailure(t, c) == Some(DuplicateSlugOrSku) ==> UniqueClash(t, c)
    ensures HeadFailure(t, c) in {None, Some(InvalidReference), Some(DuplicateSlugOrSku)}
  {
    var ids := c.draft.categoryIds;
    LinksOfValidIds(ids, |ids|, t.refs.categories);
    assert TranslationFailure(c).None?;
  }

  lemma ValidTailVerdict(t: Tables, c: Call)
    requires Wanted(c) && DraftOk(c.draft)
    ensures TailFailure(t, c).None? <==>
      && (forall i :: 0 <= i < |c.draft.variants| ==> !UnknownInVariant(t, c, i) && !SkuHeld(t, c, i))
      && !RepeatedValue(c.draft.mediaIds) && CanonSet(c.draft.mediaIds) <= t.refs.media && c.actor in t.refs.users
    ensures TailFailure(t, c) == Some(InvalidReference) ==> UnknownReference(t, c)
    ensures TailFailure(t, c) == Some(DuplicateSlugOrSku) ==> UniqueClash(t, c)
    ensures TailFailure(t, c) in {None, Some(InvalidReference), Some(DuplicateSlugOrSku)}
  {
    ValidVariantsVerdict(t, c, 0);
    LinksOfValidIds(c.draft.mediaIds, 10, t.refs.media);
  }

  /** The revision column is full: the next UPDATE overflows, and 22003 is not among the caught errors. */
  ghost predicate AtMaxRevision(t: Tables, c: Call)
  {
    c.target.Some? && c.target.value in t.products && t.products[c.target.value].revision == MAX_REVISION
  }

  /** Then a validated draft is always aborted, before anything else is looked at. */
  lemma AtMaxRevisionAborts(t: Tables, c: Call)
    requires Wanted(c) && DraftOk(c.draft) && TargetFailure(t, c).None? && AtMaxRevision(t, c)
    ensures Verdict(t, c) == Some(Aborted)
  {
  }

  /** A validated draft never trips a CHECK or a cast: it is carried out exactly when the revision can grow,
      nothing it refers to is missing and nothing it must own is taken, and each refusal means what it says. */
  lemma ValidDraftVerdict(t: Tables, c: Call)
    requires Wanted(c) && DraftOk(c.draft) && TargetFailure(t, c).None?
    ensures Verdict(t, c).None? <==> !AtMaxRevision(t, c) && !UnknownReference(t, c) && !UniqueClash(t, c)
    ensures Verdict(t, c) == Some(Aborted) <==> AtMaxRevision(t, c)
    ensures Verdict(t, c) == Some(InvalidReference) ==> UnknownReference(t, c)
    ensures Verdict(t, c) == Some(DuplicateSlugOrSku) ==> UniqueClash(t, c)
    ensures Verdict(t, c) in {None, Some(Aborted), Some(InvalidReference), Some(DuplicateSlugOrSku)}
  {
    if AtMaxRevision(t, c) {
      AtMaxRevisionAborts(t, c);
    } else {
      ValidHeadVerdict(t, c);
      ValidTailVerdict(t, c);
    }
  }
}
