/** A small shop to build concrete runs in: one user, one category, one product, plain drafts. */
module CatalogExamples {
  import opened Wrappers
  import opened Uuids
  import opened Utf8
  import opened CatalogTables
  import opened DraftValidation
  import opened CatalogSaveSpec
  import opened CatalogSaveTheorems
  import opened CatalogRuns

  datatype Stage = Stage(user: Uuid, category: Uuid, product: Uuid)

  function Shop(g: Stage): References { References({g.user}, {}, {g.category}, {}, {}) }

  function Plain(id: Option<string>, sku: string, active: bool): VariantDraft
  {
    VariantDraft(id, sku, "n", 1, active, map[])
  }

  function DraftWith(g: Stage, variants: seq<VariantDraft>): Draft
  {
    var text := Translation("n", "", "", "");
    Draft("a", "active", None, [g.category], [], map["ru" := text, "ro" := text], variants)
  }

  /** Creates the product with one available variant. */
  function Creation(g: Stage, variant: Uuid, sku: string): Call
  {
    Call(DraftWith(g, [Plain(None, sku, true)]), g.user, g.user, None, None, 0, [g.product, variant])
  }

  lemma PlainIsOk(v: VariantDraft)
    requires TextOk(v.sku, 1, 64) && v.name == "n" && v.priceMinor == 1 && v.attributes == map[]
    requires v.id.Some? ==> IsUuid(v.id.value)
    ensures VariantOk(v)
  {
    assert !BlankChar(v.name[0]);
  }

  lemma DraftWithIsOk(g: Stage, variants: seq<VariantDraft>)
    requires IsUuid(g.category) && 1 <= |variants| <= 50 && variants[0].active
    requires forall i :: 0 <= i < |variants| ==> VariantOk(variants[i])
    requires VariantsDistinct(variants)
    ensures DraftOk(DraftWith(g, variants))
  {
    assert DraftWith(g, variants).translations.Keys == LOCALES;
    assert !BlankChar("n"[0]) && !BlankChar("a"[0]);
  }

  lemma CanonSetOfOne(k: string)
    ensures CanonSet([k]) == {Canon(k)} && CanonSet([]) == {}
  {
    forall x | x in CanonSet([k]) ensures x == Canon(k) { }
    assert Canon([k][0]) in CanonSet([k]);
  }

  /** What a plain draft needs of the tables; the SKUs are looked at one by one. */
  lemma PlainDraftIsCarried(t: Tables, g: Stage, c: Call)
    requires t.refs == Shop(g) && c.draft == DraftWith(g, c.draft.variants) && DraftOk(c.draft) && c.actor == g.user
    requires Wanted(c) && TargetFailure(t, c).None? && !AtMaxRevision(t, c)
    requires Canonical(g.category) && !SlugTaken(t, Key(c), "a")
    requires forall i :: 0 <= i < |c.draft.variants| ==> c.draft.variants[i].attributes == map[] && !SkuHeld(t, c, i)
    requires forall i :: 0 <= i < |c.draft.variants| && c.draft.variants[i].id.Some? ==>
      Owns(t, Key(c), VariantKey(c, i))
    ensures Verdict(t, c).None?
  {
    CanonSetOfOne(g.category);
    forall i | 0 <= i < |c.draft.variants| ensures !UnknownInVariant(t, c, i) { }
    ValidDraftVerdict(t, c);
  }

  lemma FieldsOfReplaced(t: Tables, c: Call)
    requires Wanted(c) && (c.target.Some? ==> c.target.value in t.products)
    ensures Replaced(t, c).products == t.products[Key(c) := ProductRowAfter(t, c)]
    ensures Replaced(t, c).variants == VariantsSwept(t, c) && Replaced(t, c).refs == t.refs
  {
    hide VariantsSwept, ProductRowAfter, CategoriesAfter, TranslationsAfter, AttributesAfter, ImagesAfter;
  }

  // The creation.

  lemma CreationIsCarried(g: Stage, variant: Uuid, sku: string)
    requires Canonical(g.category) && Canonical(g.product) && Canonical(variant) && g.product != variant
    requires TextOk(sku, 1, 64)
    ensures OracleFresh(Empty(Shop(g)), Creation(g, variant, sku)) && Carried(Empty(Shop(g)), Creation(g, variant, sku))
  {
    var t, c := Empty(Shop(g)), Creation(g, variant, sku);
    PlainIsOk(c.draft.variants[0]);
    DraftWithIsOk(g, c.draft.variants);
    assert !SkuHeld(t, c, 0) by {
      assert Named(c, 0) == {};
    }
    PlainDraftIsCarried(t, g, c);
  }

  lemma CreationNames(g: Stage, variant: Uuid, sku: string)
    ensures Named(Creation(g, variant, sku), 1) == {variant} && LastNaming(Creation(g, variant, sku), 1, variant) == 0
    ensures VariantRowOf(Creation(g, variant, sku), 0) == VariantRow(g.product, sku, "n", 1, true)
  {
    assert VariantKey(Creation(g, variant, sku), 0) == variant;
  }

  lemma CreationWritesVariant(g: Stage, variant: Uuid, sku: string)
    ensures VariantsSwept(Empty(Shop(g)), Creation(g, variant, sku)) ==
      map[variant := VariantRow(g.product, sku, "n", 1, true)]
  {
    CreationNames(g, variant, sku);
    var t, c := Empty(Shop(g)), Creation(g, variant, sku);
    var m := VariantsAfter(t, c, 1);
    assert m.Keys == {variant};
    assert m[variant] == VariantRow(g.product, sku, "n", 1, true);
  }

  lemma CreationRow(g: Stage, variant: Uuid, sku: string)
    ensures ProductRowAfter(Empty(Shop(g)), Creation(g, variant, sku)) == ProductRow("a", None, "active", 1, 0)
  {
  }

  lemma CreationWrites(g: Stage, variant: Uuid, sku: string)
    ensures var t := Replaced(Empty(Shop(g)), Creation(g, variant, sku));
      && t.products == map[g.product := ProductRow("a", None, "active", 1, 0)] && t.refs == Shop(g)
      && t.variants == map[variant := VariantRow(g.product, sku, "n", 1, true)]
  {
    hide Replaced, VariantsSwept, ProductRowAfter;
    CreationWritesVariant(g, variant, sku);
    CreationRow(g, variant, sku);
    FieldsOfReplaced(Empty(Shop(g)), Creation(g, variant, sku));
  }
}
