/** What one `catalog_save` is worth to its callers: a verdict that depends on the tables
    before the call only, and one atomic replacement when there is nothing to object to. */
module CatalogSaveSpec {
  import opened Wrappers
  import opened Uuids
  import opened Orders
  import opened CatalogTables
  import opened DraftValidation

  /** `Aborted` stands for an SQLSTATE the procedure does not catch (22003, a number out of range). */
  datatype Failure = NotFound | RevisionConflict | DuplicateSlugOrSku | InvalidReference | Aborted

  /** One call. `minted` is what `gen_random_uuid` returns: first the product key, then one key
      for each variant without an id; results that are not asked for are simply unused. */
  datatype Call = Call(draft: Draft, actor: Uuid, request: Uuid, target: Option<Uuid>, expected: Option<int>,
                       now: int, minted: seq<Uuid>)

  /** The oracle's promise: new values, unknown to the tables and to the request. */
  ghost predicate OracleFresh(t: Tables, c: Call)
  {
    && |c.minted| == |c.draft.variants| + 1
    && Distinct(c.minted)
    && (forall k :: k in c.minted ==> Canonical(k) && k !in t.products && k !in t.variants)
    && (forall i :: 0 <= i < |c.draft.variants| && c.draft.variants[i].id.Some? ==>
         Canon(c.draft.variants[i].id.value) !in c.minted)
  }

  ghost predicate Wanted(c: Call) { |c.minted| == |c.draft.variants| + 1 }

  function Key(c: Call): Uuid
    requires Wanted(c)
  {
    if c.target.Some? then c.target.value else c.minted[0]
  }

  /** The row the i-th draft variant is written to. */
  function VariantKey(c: Call, i: nat): Uuid
    requires Wanted(c) && i < |c.draft.variants|
  {
    if c.draft.variants[i].id.Some? then Canon(c.draft.variants[i].id.value) else c.minted[i + 1]
  }

  function VariantRowOf(c: Call, i: nat): VariantRow
    requires Wanted(c) && i < |c.draft.variants|
  {
    var d := c.draft.variants[i];
    VariantRow(Key(c), d.sku, d.name, d.priceMinor, d.active)
  }

  /** The last of the first `n` draft variants that names row `v`, or -1. */
  function LastNaming(c: Call, n: nat, v: Uuid): (j: int)
    requires Wanted(c) && n <= |c.draft.variants|
    ensures -1 <= j < n
    ensures j >= 0 ==> VariantKey(c, j) == v
  {
    if n == 0 then -1
    else if VariantKey(c, n - 1) == v then n - 1
    else LastNaming(c, n - 1, v)
  }

  function Named(c: Call, n: nat): set<Uuid>
    requires Wanted(c) && n <= |c.draft.variants|
  {
    set i | 0 <= i < n :: VariantKey(c, i)
  }

  lemma {:induction false} LastNamingIsLast(c: Call, n: nat, v: Uuid, k: nat)
    requires Wanted(c) && n <= |c.draft.variants|
    requires LastNaming(c, n, v) < k < n
    ensures VariantKey(c, k) != v
  {
    if k < n - 1 { LastNamingIsLast(c, n - 1, v, k); }
  }

  lemma LastNamingIsNamed(c: Call, n: nat, v: Uuid)
    requires Wanted(c) && n <= |c.draft.variants|
    ensures LastNaming(c, n, v) >= 0 <==> v in Named(c, n)
  {
    if v in Named(c, n) {
      var i :| 0 <= i < n && VariantKey(c, i) == v;
      if LastNaming(c, n, v) < 0 { LastNamingIsLast(c, n, v, i); }
    }
  }

  /** The variant table once the first `n` draft variants are written. */
  function VariantsAfter(t: Tables, c: Call, n: nat): map<Uuid, VariantRow>
    requires Wanted(c) && n <= |c.draft.variants|
  {
    map v | v in t.variants.Keys + Named(c, n) ::
      LastNamingIsNamed(c, n, v);
      var j := LastNaming(c, n, v);
      if j >= 0 then VariantRowOf(c, j) else t.variants[v]
  }

  function NamedAttributes(c: Call, n: nat): set<(Uuid, string)>
    requires Wanted(c) && n <= |c.draft.variants|
  {
    set i, a | 0 <= i < n && a in c.draft.variants[i].attributes && LastNaming(c, n, VariantKey(c, i)) == i ::
      (VariantKey(c, i), a)
  }

  function KeptAttributes(t: Tables, c: Call, n: nat): set<(Uuid, string)>
    requires Wanted(c) && n <= |c.draft.variants|
  {
    set k | k in t.attributeValues && LastNaming(c, n, k.0) < 0
  }

  /** The attribute table once the first `n` draft variants are written. */
  function AttributesAfter(t: Tables, c: Call, n: nat): map<(Uuid, string), string>
    requires Wanted(c) && n <= |c.draft.variants|
  {
    map k | k in KeptAttributes(t, c, n) + NamedAttributes(c, n) ::
      var j := LastNaming(c, n, k.0);
      if j >= 0 then c.draft.variants[j].attributes[k.1] else t.attributeValues[k]
  }

  // The verdict.

  function BrandKey(d: Draft): Option<Uuid>
  {
    if d.brandId.Some? then Some(Canon(d.brandId.value)) else None
  }

  predicate SlugTaken(t: Tables, pid: Uuid, slug: string)
  {
    exists q :: q in t.products && q != pid && t.products[q].slug == slug
  }

  function ProductFailure(t: Tables, c: Call): Option<Failure>
    requires Wanted(c) && (c.target.Some? ==> c.target.value in t.products)
  {
    var d := c.draft;
    if !BrandOk(d.brandId) then Some(InvalidReference)
    else if c.target.Some? && t.products[c.target.value].revision == MAX_REVISION then Some(Aborted)
    else if !SlugPattern(d.slug) || d.status !in STATUSES then Some(InvalidReference)
    else if SlugTaken(t, Key(c), d.slug) then Some(DuplicateSlugOrSku)
    else if d.brandId.Some? && Canon(d.brandId.value) !in t.refs.brands then Some(InvalidReference)
    else None
  }

  /** Rows go in one after the other; the first one that is malformed, out of positions or repeated decides. */
  function RowFailure(ids: seq<string>, positions: nat, i: nat): Option<Failure>
    requires i <= |ids|
    decreases |ids| - i
  {
    if i == |ids| then None
    else if !IsUuid(ids[i]) || i >= positions then Some(InvalidReference)
    else if exists j :: 0 <= j < i && Canon(ids[j]) == Canon(ids[i]) then Some(DuplicateSlugOrSku)
    else RowFailure(ids, positions, i + 1)
  }

  function CanonSet(ids: seq<string>): set<Uuid>
  {
    set i | 0 <= i < |ids| :: Canon(ids[i])
  }

  function LinkFailure(ids: seq<string>, positions: nat, known: set<Uuid>): Option<Failure>
  {
    var f := RowFailure(ids, positions, 0);
    if f.Some? then f
    else if !(CanonSet(ids) <= known) then Some(InvalidReference)
    else None
  }

  function TranslationFailure(c: Call): Option<Failure>
  {
    if forall l :: l in c.draft.translations ==> TranslationChecks(l, c.draft.translations[l]) then None
      else Some(InvalidReference)
  }

  predicate Owns(t: Tables, pid: Uuid, v: Uuid) { v in t.variants && t.variants[v].product == pid }

  /** `sku` is unique at every moment, so an earlier row of the same draft and any row not yet rewritten count. */
  predicate SkuHeld(t: Tables, c: Call, i: nat)
    requires Wanted(c) && i < |c.draft.variants|
  {
    exists v :: v in VariantsAfter(t, c, i) && v != VariantKey(c, i)
      && VariantsAfter(t, c, i)[v].sku == c.draft.variants[i].sku
  }

  predicate AttributesStorable(t: Tables, m: map<string, string>)
  {
    forall a :: a in m ==> |m[a]| <= 300 && a in t.refs.attributes
  }

  function UpsertFailure(t: Tables, c: Call, i: nat): Option<Failure>
    requires Wanted(c) && i < |c.draft.variants|
  {
    var d := c.draft.variants[i];
    if d.id.Some? && (!IsUuid(d.id.value) || !Owns(t, Key(c), VariantKey(c, i))) then Some(InvalidReference)
    else if !(-0x8000_0000_0000_0000 <= d.priceMinor < 0x8000_0000_0000_0000) then Some(Aborted)
    else if !VariantChecks(VariantRowOf(c, i)) then Some(InvalidReference)
    else if SkuHeld(t, c, i) then Some(DuplicateSlugOrSku)
    else None
  }

  function VariantFailure(t: Tables, c: Call, i: nat): Option<Failure>
    requires Wanted(c) && i < |c.draft.variants|
  {
    var f := UpsertFailure(t, c, i);
    if f.Some? then f
    else if !AttributesStorable(t, c.draft.variants[i].attributes) then Some(InvalidReference)
    else None
  }

  function VariantsFailure(t: Tables, c: Call, i: nat): Option<Failure>
    requires Wanted(c) && i <= |c.draft.variants|
    decreases |c.draft.variants| - i
  {
    if i == |c.draft.variants| then None
    else
      var f := VariantFailure(t, c, i);
      if f.Some? then f else VariantsFailure(t, c, i + 1)
  }

  function TargetFailure(t: Tables, c: Call): Option<Failure>
  {
    if c.target.None? then None
    else if c.target.value !in t.products then Some(NotFound)
    else if c.expected != Some(t.products[c.target.value].revision) then Some(RevisionConflict)
    else None
  }

  /** `products`, `product_categories`, `product_translations`. */
  function HeadFailure(t: Tables, c: Call): Option<Failure>
    requires Wanted(c) && (c.target.Some? ==> c.target.value in t.products)
  {
    var f := ProductFailure(t, c);
    if f.Some? then f else
    var f := LinkFailure(c.draft.categoryIds, |c.draft.categoryIds|, t.refs.categories);
    if f.Some? then f else TranslationFailure(c)
  }

  /** `product_variants` with their attributes, `product_images`, `audit_logs`. */
  function TailFailure(t: Tables, c: Call): Option<Failure>
    requires Wanted(c)
  {
    var f := VariantsFailure(t, c, 0);
    if f.Some? then f else
    var f := LinkFailure(c.draft.mediaIds, 10, t.refs.media);
    if f.Some? then f else
    if c.actor !in t.refs.users then Some(InvalidReference) else None
  }

  /** The first objection, or None when the call is carried out. */
  function Verdict(t: Tables, c: Call): Option<Failure>
    requires Wanted(c)
  {
    var f := TargetFailure(t, c);
    if f.Some? then f else
    var f := HeadFailure(t, c);
    if f.Some? then f else TailFailure(t, c)
  }

  // The replacement.

  function ProductRowAfter(t: Tables, c: Call): ProductRow
    requires Wanted(c) && (c.target.Some? ==> c.target.value in t.products)
  {
    var d := c.draft;
    if c.target.Some? then
      var p := t.products[c.target.value];
      ProductRow(d.slug, BrandKey(d), d.status, p.revision + 1, p.createdAt)
    else
      ProductRow(d.slug, BrandKey(d), d.status, 1, c.now)
  }

  function CategoriesAfter(before: set<(Uuid, Uuid)>, pid: Uuid, ids: seq<string>): set<(Uuid, Uuid)>
  {
    (set r | r in before && r.0 != pid) + (set k | k in CanonSet(ids) :: (pid, k))
  }

  function TranslationsAfter(before: map<(Uuid, string), Translation>, pid: Uuid,
          x: map<string, Translation>): map<(Uuid, string), Translation>
  {
    (map k | k in before && k.0 != pid :: before[k]) + (map l | l in x :: (pid, l) := x[l])
  }

  /** Unnamed variants of the product keep everything but their availability. */
  function VariantsSwept(t: Tables, c: Call): map<Uuid, VariantRow>
    requires Wanted(c)
  {
    var n := |c.draft.variants|;
    var m := VariantsAfter(t, c, n);
    map v | v in m :: if m[v].product == Key(c) && v !in Named(c, n) then m[v].(active := false) else m[v]
  }

  /** The position of a media id in the draft: where it stands in the list. */
  function PositionIn(ids: seq<string>, m: Uuid): (i: int)
    requires m in CanonSet(ids)
    ensures 0 <= i < |ids| && Canon(ids[i]) == m
  {
    if Canon(ids[|ids| - 1]) == m then |ids| - 1
    else
      assert CanonSet(ids) <= CanonSet(ids[..|ids| - 1]) + {Canon(ids[|ids| - 1])} by { CanonSetSplit(ids); }
      PositionIn(ids[..|ids| - 1], m)
  }

  lemma CanonSetSplit(ids: seq<string>)
    requires ids != []
    ensures CanonSet(ids) == CanonSet(ids[..|ids| - 1]) + {Canon(ids[|ids| - 1])}
  {
    var r := ids[..|ids| - 1];
    forall k | k in CanonSet(ids) ensures k in CanonSet(r) + {Canon(ids[|ids| - 1])} {
      var i :| 0 <= i < |ids| && Canon(ids[i]) == k;
      if i < |r| { assert r[i] == ids[i]; }
    }
    forall k | k in CanonSet(r) ensures k in CanonSet(ids) {
      var i :| 0 <= i < |r| && Canon(r[i]) == k;
      assert ids[i] == r[i];
    }
  }

  function ImagesAfter(before: map<(Uuid, Uuid), int>, pid: Uuid, ids: seq<string>): map<(Uuid, Uuid), int>
  {
    (map k | k in before && k.0 != pid :: before[k]) + (map m | m in CanonSet(ids) :: (pid, m) := PositionIn(ids, m))
  }

  function AuditEntry(c: Call, previous: Option<int>, now: int): AuditRow
    requires Wanted(c)
  {
    AuditRow(c.actor, if c.target.None? then "product.created" else "product.updated", Key(c), c.request,
             previous, now, c.draft.status)
  }

  function RevisionBefore(t: Tables, c: Call): Option<int>
    requires c.target.Some? ==> c.target.value in t.products
  {
    if c.target.Some? then Some(t.products[c.target.value].revision) else None
  }

  function Replaced(t: Tables, c: Call): Tables
    requires Wanted(c) && (c.target.Some? ==> c.target.value in t.products)
  {
    var pid := Key(c);
    var n := |c.draft.variants|;
    Tables(t.products[pid := ProductRowAfter(t, c)],
           CategoriesAfter(t.productCategories, pid, c.draft.categoryIds),
           TranslationsAfter(t.translations, pid, c.draft.translations),
           VariantsSwept(t, c),
           AttributesAfter(t, c, n),
           ImagesAfter(t.images, pid, c.draft.mediaIds),
           t.audit + [AuditEntry(c, RevisionBefore(t, c), ProductRowAfter(t, c).revision)],
           t.refs)
  }

  // What the tables promise by themselves.

  ghost predicate Schema(t: Tables)
  {
    && UniqueSlugs(t.products) && UniqueSkus(t.variants) && UniquePositions(t.images)
    && ProductsSound(t.products, t.refs)
    && LinksSound(t.productCategories, t.products.Keys, t.refs)
    && TranslationsSound(t.translations, t.products.Keys)
    && VariantsSound(t.variants, t.products.Keys)
    && ValuesSound(t.attributeValues, t.variants.Keys, t.refs)
    && ImagesSound(t.images, t.products.Keys, t.refs)
    && (forall i :: 0 <= i < |t.audit| ==> t.audit[i].actor in t.refs.users)
  }

  ghost predicate UniqueSlugs(m: map<Uuid, ProductRow>)
  {
    forall p, q :: p in m && q in m && m[p].slug == m[q].slug ==> p == q
  }

  ghost predicate UniqueSkus(m: map<Uuid, VariantRow>)
  {
    forall v, w :: v in m && w in m && m[v].sku == m[w].sku ==> v == w
  }

  ghost predicate UniquePositions(m: map<(Uuid, Uuid), int>)
  {
    forall j, k :: j in m && k in m && j.0 == k.0 && m[j] == m[k] ==> j == k
  }

  ghost predicate ProductsSound(m: map<Uuid, ProductRow>, refs: References)
  {
    forall p :: p in m ==> ProductChecks(m[p]) && (m[p].brand.Some? ==> m[p].brand.value in refs.brands)
  }

  ghost predicate LinksSound(s: set<(Uuid, Uuid)>, products: set<Uuid>, refs: References)
  {
    forall r :: r in s ==> r.0 in products && r.1 in refs.categories
  }

  ghost predicate TranslationsSound(m: map<(Uuid, string), Translation>, products: set<Uuid>)
  {
    forall k :: k in m ==> k.0 in products && TranslationChecks(k.1, m[k])
  }

  ghost predicate VariantsSound(m: map<Uuid, VariantRow>, products: set<Uuid>)
  {
    forall v :: v in m ==> m[v].product in products && VariantChecks(m[v])
  }

  ghost predicate ValuesSound(m: map<(Uuid, string), string>, variants: set<Uuid>, refs: References)
  {
    forall k :: k in m ==> k.0 in variants && k.1 in refs.attributes && |m[k]| <= 300
  }

  ghost predicate ImagesSound(m: map<(Uuid, Uuid), int>, products: set<Uuid>, refs: References)
  {
    forall k :: k in m ==> k.0 in products && k.1 in refs.media && 0 <= m[k] <= 9
  }

  lemma SchemaIsProjectable(t: Tables, pid: Uuid)
    requires UniqueSkus(t.variants) && UniquePositions(t.images) && pid in t.products
    ensures Projectable(t, pid)
  {
    var m := PositionsOf(t, pid);
    forall a, b | a in m && b in m && m[a] == m[b] ensures a == b {
      assert (pid, a) in t.images && (pid, b) in t.images;
    }
  }
}
