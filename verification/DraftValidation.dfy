/** `validateDraft`: the gate every save passes before it reaches the database. */
module DraftValidation {
  import opened Wrappers
  import opened Uuids
  import opened Utf8
  import opened CatalogTables

  /** A product draft whose JSON members have the declared types. Ids are raw spellings. */
  datatype VariantDraft = VariantDraft(id: Option<string>, sku: string, name: string, priceMinor: int, active: bool,
                                       attributes: map<string, string>)

  datatype Draft = Draft(slug: string, status: string, brandId: Option<string>, categoryIds: seq<string>,
                         mediaIds: seq<string>, translations: map<string, Translation>, variants: seq<VariantDraft>)

  /** Between `min` and `max` code points and, when required at all, not only blanks. */
  predicate TextOk(s: string, min: nat, max: nat)
  {
    min <= |s| <= max && (min > 0 ==> !AllBlank(s))
  }

  predicate IdsOk(ids: seq<string>, min: nat, max: nat)
  {
    && min <= |ids| <= max
    && (forall i :: 0 <= i < |ids| ==> IsUuid(ids[i]))
    && (forall i, j :: 0 <= i < j < |ids| ==> ids[i] != ids[j])
  }

  predicate TranslationOk(x: Translation)
  {
    TextOk(x.name, 1, 200) && TextOk(x.description, 0, 20000) && TextOk(x.seoTitle, 0, 200)
      && TextOk(x.seoDescription, 0, 500)
  }

  predicate AttributesOk(m: map<string, string>)
  {
    |m| <= 30 && forall k :: k in m ==> TextOk(m[k], 1, 300)
  }

  predicate VariantOk(v: VariantDraft)
  {
    && TextOk(v.sku, 1, 64) && TextOk(v.name, 1, 160)
    && (v.id.Some? ==> IsUuid(v.id.value))
    && 0 <= v.priceMinor <= MAX_PRICE
    && AttributesOk(v.attributes)
  }

  /** Two variants of one draft may share neither the SKU nor the spelling of an id. */
  predicate Apart(a: VariantDraft, b: VariantDraft)
  {
    a.sku != b.sku && (a.id.Some? ==> a.id != b.id)
  }

  predicate VariantsDistinct(vs: seq<VariantDraft>)
  {
    forall i, j :: 0 <= i < j < |vs| ==> Apart(vs[i], vs[j])
  }

  predicate BrandOk(brand: Option<string>) { brand.Some? ==> IsUuid(brand.value) }

  predicate SomeActive(vs: seq<VariantDraft>) { exists i :: 0 <= i < |vs| && vs[i].active }

  /** The drafts a save accepts, stated without the order of the checks. */
  predicate DraftOk(d: Draft)
  {
    && TextOk(d.slug, 1, 160) && SlugPattern(d.slug)
    && d.status in STATUSES
    && BrandOk(d.brandId)
    && IdsOk(d.categoryIds, 1, 10) && IdsOk(d.mediaIds, 0, 10)
    && d.translations.Keys == LOCALES
    && (forall l :: l in d.translations ==> TranslationOk(d.translations[l]))
    && 1 <= |d.variants| <= 50
    && (forall i :: 0 <= i < |d.variants| ==> VariantOk(d.variants[i]))
    && VariantsDistinct(d.variants)
    && (d.status == "active" ==> SomeActive(d.variants))
  }

  /** `text`: counts bytes, and is right about code points. */
  method Text(value: string, min: nat, max: nat) returns (ok: bool)
    ensures ok <==> TextOk(value, min, max)
    ensures ok <==> min <= |value| <= max && (min == 0 || exists i :: 0 <= i < |value| && value[i] !in " \t\r\n")
  {
    var raw := Encode(value);
    var count, i := 0, 0;
    var visible := false;
    while i < |raw|
      invariant 0 <= i <= |raw|
      invariant count == Leads(raw[..i])
      invariant visible <==> exists k :: 0 <= k < i && !Blank(raw[k])
    {
      if !Continuation(raw[i]) { count := count + 1; }
      if !Blank(raw[i]) { visible := true; }
      LeadsConcat(raw[..i], [raw[i]]);
      assert raw[..i + 1] == raw[..i] + [raw[i]];
      i := i + 1;
    }
    assert raw[..i] == raw;
    LeadsCountCodePoints(value);
    BlankBytesAreBlankChars(value);
    ok := min <= count <= max && (min == 0 || visible);
  }

  /** `ids`: a set of the byte strings seen so far decides duplicates. */
  method Ids(ids: seq<string>, min: nat, max: nat) returns (ok: bool)
    ensures ok <==> IdsOk(ids, min, max)
  {
    hide Encode, IsUuid;
    if |ids| < min || |ids| > max { return false; }
    var unique: set<seq<Byte>> := {};
    var i := 0;
    while i < |ids|
      invariant 0 <= i <= |ids|
      invariant forall k :: 0 <= k < i ==> IsUuid(ids[k])
      invariant forall k :: 0 <= k < i ==> Encode(ids[k]) in unique
      invariant forall b :: b in unique ==> exists k :: 0 <= k < i && Encode(ids[k]) == b
      invariant forall k, l :: 0 <= k < l < i ==> ids[k] != ids[l]
    {
      if !IsUuid(ids[i]) { return false; }
      if Encode(ids[i]) in unique {
        var k :| 0 <= k < i && Encode(ids[k]) == Encode(ids[i]);
        EncodeIsInjective(ids[k], ids[i]);
        return false;
      }
      unique := unique + {Encode(ids[i])};
      i := i + 1;
    }
    ok := true;
  }

  method Attributes(m: map<string, string>) returns (ok: bool)
    ensures ok <==> AttributesOk(m)
  {
    if |m| > 30 { return false; }
    var names := m.Keys;
    while names != {}
      invariant names <= m.Keys
      invariant forall k :: k in m.Keys - names ==> TextOk(m[k], 1, 300)
      decreases |names|
    {
      var k :| k in names;
      ok := Text(m[k], 1, 300);
      if !ok { return; }
      names := names - {k};
    }
    ok := true;
  }

  method TranslationTexts(x: Translation) returns (ok: bool)
    ensures ok <==> TranslationOk(x)
  {
    ok := Text(x.name, 1, 200);
    if !ok { return; }
    ok := Text(x.description, 0, 20000);
    if !ok { return; }
    ok := Text(x.seoTitle, 0, 200);
    if !ok { return; }
    ok := Text(x.seoDescription, 0, 500);
  }

  method Variant(v: VariantDraft) returns (ok: bool)
    ensures ok <==> VariantOk(v)
  {
    ok := Text(v.sku, 1, 64);
    if !ok { return; }
    ok := Text(v.name, 1, 160);
    if !ok { return; }
    if v.id.Some? && !IsUuid(v.id.value) { return false; }
    if v.priceMinor < 0 || v.priceMinor > MAX_PRICE { return false; }
    ok := Attributes(v.attributes);
  }

  function SkusBefore(vs: seq<VariantDraft>, n: nat): set<string>
    requires n <= |vs|
  {
    set k | 0 <= k < n :: vs[k].sku
  }

  function IdsBefore(vs: seq<VariantDraft>, n: nat): set<string>
    requires n <= |vs|
  {
    set k | 0 <= k < n && vs[k].id.Some? :: vs[k].id.value
  }

  /** The first `n` variants pass the checks the loop makes one by one. */
  predicate Passed(vs: seq<VariantDraft>, n: nat)
    requires n <= |vs|
  {
    n == 0 || (Passed(vs, n - 1) && VariantOk(vs[n - 1]) && NewNames(vs, n - 1))
  }

  predicate NewNames(vs: seq<VariantDraft>, i: nat)
    requires i < |vs|
  {
    vs[i].sku !in SkusBefore(vs, i) && (vs[i].id.Some? ==> vs[i].id.value !in IdsBefore(vs, i))
  }

  lemma {:induction false} PassedMeans(vs: seq<VariantDraft>, n: nat)
    requires n <= |vs|
    ensures Passed(vs, n) <==> (forall i :: 0 <= i < n ==> VariantOk(vs[i])) &&
                               (forall i, j :: 0 <= i < j < n ==> Apart(vs[i], vs[j]))
  {
    hide VariantOk;
    if n > 0 {
      PassedMeans(vs, n - 1);
      assert NewNames(vs, n - 1) <==> forall k :: 0 <= k < n - 1 ==> Apart(vs[k], vs[n - 1]);
    }
  }

  lemma {:induction false} PassedIsPrefixClosed(vs: seq<VariantDraft>, i: nat, n: nat)
    requires i <= n <= |vs| && Passed(vs, n)
    ensures Passed(vs, i)
  {
    if i < n { PassedIsPrefixClosed(vs, i, n - 1); }
  }

  /** The variant loop: two sets of texts already seen and the availability flag. */
  method Variants(vs: seq<VariantDraft>) returns (ok: bool, active: bool)
    ensures ok <==> (forall i :: 0 <= i < |vs| ==> VariantOk(vs[i])) && VariantsDistinct(vs)
    ensures ok ==> (active <==> SomeActive(vs))
  {
    PassedMeans(vs, |vs|);
    ok, active := VariantLoop(vs);
  }

  method VariantLoop(vs: seq<VariantDraft>) returns (ok: bool, active: bool)
    ensures ok <==> Passed(vs, |vs|)
    ensures ok ==> (active <==> SomeActive(vs))
  {
    hide VariantOk;
    var skus: set<string>, named: set<string> := {}, {};
    active := false;
    var i := 0;
    while i < |vs|
      invariant 0 <= i <= |vs|
      invariant Passed(vs, i)
      invariant skus == SkusBefore(vs, i) && named == IdsBefore(vs, i)
      invariant active <==> exists k :: 0 <= k < i && vs[k].active
    {
      var v := vs[i];
      ok := Variant(v);
      if !ok || v.sku in skus || (v.id.Some? && v.id.value in named) {
        if Passed(vs, |vs|) { PassedIsPrefixClosed(vs, i + 1, |vs|); }
        return false, active;
      }
      skus := skus + {v.sku};
      if v.id.Some? { named := named + {v.id.value}; }
      active := active || v.active;
      i := i + 1;
    }
    ok := true;
  }

  /** `validateDraft`: true when it returns, false when it throws VALIDATION_FAILED. */
  method ValidateDraft(d: Draft) returns (ok: bool)
    ensures ok <==> DraftOk(d)
  {
    ok := Text(d.slug, 1, 160);
    if !ok { return; }
    if !SlugPattern(d.slug) { return false; }
    if d.status != "draft" && d.status != "active" && d.status != "archived" { return false; }
    if d.brandId.Some? && !IsUuid(d.brandId.value) { return false; }
    ok := Ids(d.categoryIds, 1, 10);
    if !ok { return; }
    ok := Ids(d.mediaIds, 0, 10);
    if !ok { return; }
    assert |LOCALES| == 2;
    if |d.translations| != 2 { return false; }
    var locales := ["ru", "ro"];
    var i := 0;
    while i < 2
      invariant 0 <= i <= 2
      invariant forall k :: 0 <= k < i ==> locales[k] in d.translations && TranslationOk(d.translations[locales[k]])
    {
      if locales[i] !in d.translations { return false; }
      ok := TranslationTexts(d.translations[locales[i]]);
      if !ok { return; }
      i := i + 1;
    }
    assert locales[0] in d.translations && locales[1] in d.translations;
    BothLocales(d.translations);
    if d.variants == [] || |d.variants| > 50 { return false; }
    var active;
    ok, active := Variants(d.variants);
    if !ok { return; }
    if d.status == "active" && !active { return false; }
    ok := true;
  }

  lemma BothLocales(m: map<string, Translation>)
    requires |m| == 2 && "ru" in m && "ro" in m
    ensures m.Keys == LOCALES
  {
    assert |m.Keys - {"ru", "ro"}| == |m.Keys| - |{"ru", "ro"}|;
  }

}
