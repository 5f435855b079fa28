/** Every sequence of saves through `Service::save`, with references added in between. */
module CatalogRuns {
  import opened Wrappers
  import opened Uuids
  import opened CatalogTables
  import opened DraftValidation
  import opened CatalogSaveSpec
  import opened CatalogSaveProofs
  import opened CatalogSaveTheorems

  // What every reachable product looks like.

  ghost predicate VariantComplete(v: Uuid, row: VariantRow, attributes: map<string, string>)
  {
    Canonical(v) && TextOk(row.sku, 1, 64) && TextOk(row.name, 1, 160) && AttributesOk(attributes)
  }

  ghost predicate VariantsComplete(variants: map<Uuid, VariantRow>, values: map<(Uuid, string), string>)
  {
    forall v :: v in variants ==> VariantComplete(v, variants[v], AttributesIn(values, v))
  }

  ghost predicate RowComplete(p: Uuid, row: ProductRow)
  {
    Canonical(p) && TextOk(row.slug, 1, 160) && (row.brand.Some? ==> Canonical(row.brand.value))
      && row.revision <= MAX_REVISION
  }

  ghost predicate CategoriesComplete(s: set<Uuid>)
  {
    1 <= |s| <= 10 && forall c :: c in s ==> Canonical(c)
  }

  ghost predicate TranslationsComplete(m: map<string, Translation>)
  {
    m.Keys == LOCALES && forall l :: l in m ==> TranslationOk(m[l])
  }

  /** At most ten images on the positions 0, 1, 2, ... */
  ghost predicate ImagesComplete(m: map<Uuid, int>)
  {
    |m| <= 10 && forall x :: x in m ==> Canonical(x) && 0 <= m[x] < |m|
  }

  ghost predicate HasVariant(variants: map<Uuid, VariantRow>, p: Uuid)
  {
    exists v :: v in variants && variants[v].product == p
  }

  ghost predicate ProductComplete(t: Tables, p: Uuid)
    requires p in t.products
  {
    && RowComplete(p, t.products[p])
    && CategoriesComplete(CategoriesOf(t, p))
    && TranslationsComplete(TranslationsOf(t, p))
    && ImagesComplete(PositionsOf(t, p))
    && HasVariant(t.variants, p)
  }

  ghost predicate RefsCanonical(r: References)
  {
    && (forall k :: k in r.brands ==> Canonical(k))
    && (forall k :: k in r.categories ==> Canonical(k))
    && (forall k :: k in r.media ==> Canonical(k))
  }

  function AuditOf(a: seq<AuditRow>, p: Uuid): seq<AuditRow>
  {
    if a == [] then []
    else
      var rest := AuditOf(a[..|a| - 1], p);
      if a[|a| - 1].entity == p then rest + [a[|a| - 1]] else rest
  }

  /** Revisions 1, 2, 3, ... each written over the one before; the first row tells of a creation, the others of
      updates. */
  ghost predicate Chain(s: seq<AuditRow>)
  {
    forall k :: 0 <= k < |s| ==>
      && s[k].newRevision == k + 1 && s[k].oldRevision == (if k == 0 then None else Some(k))
      && s[k].action == (if k == 0 then "product.created" else "product.updated")
  }

  ghost predicate HistoryOf(t: Tables, p: Uuid)
  {
    Chain(AuditOf(t.audit, p)) && |AuditOf(t.audit, p)| == if p in t.products then t.products[p].revision else 0
  }

  /** The audit log tells each product's whole story. */
  ghost predicate History(t: Tables)
  {
    forall p: Uuid :: HistoryOf(t, p)
  }

  ghost predicate Inv(t: Tables)
  {
    && Schema(t) && RefsCanonical(t.refs) && History(t)
    && VariantsComplete(t.variants, t.attributeValues) && ProductsComplete(t)
  }

  ghost predicate ProductsComplete(t: Tables)
  {
    forall p :: p in t.products ==> ProductComplete(t, p)
  }

  // One step.

  datatype Op = Save(call: Call) | AddReferences(refs: References)

  /** `Service::save`: validation, the revision check on updates, then the database. */
  predicate Carried(t: Tables, c: Call)
    requires Wanted(c)
  {
    DraftOk(c.draft) && (c.target.Some? ==> c.expected.Some? && c.expected.value >= 1) && Verdict(t, c).None?
  }

  ghost predicate RefsGrow(a: References, b: References)
  {
    a.users <= b.users && a.brands <= b.brands && a.categories <= b.categories && a.attributes <= b.attributes
      && a.media <= b.media
  }

  ghost predicate Admissible(t: Tables, op: Op)
  {
    match op
    case Save(c) => OracleFresh(t, c)
    case AddReferences(r) => RefsGrow(t.refs, r) && RefsCanonical(r)
  }

  function Step(t: Tables, op: Op): Tables
    requires op.Save? ==> Wanted(op.call)
  {
    match op
    case Save(c) => if Carried(t, c) then Replaced(t, c) else t
    case AddReferences(r) => t.(refs := r)
  }

  /** Nothing is written of a draft that fails validation, of an update without a positive revision, or of a call
      the database refuses. */
  lemma RefusedChangesNothing(t: Tables, c: Call)
    requires Wanted(c)
    ensures !DraftOk(c.draft) || Verdict(t, c).Some? ==> Step(t, Save(c)) == t
    ensures c.target.Some? && (c.expected.None? || c.expected.value <= 0) ==> Step(t, Save(c)) == t
    ensures DraftOk(c.draft) && Verdict(t, c).None? && (c.target.Some? ==> c.expected.Some? && c.expected.value > 0) ==>
      Step(t, Save(c)) == Replaced(t, c)
  {
  }

  // The saved product.

  lemma {:induction false} CanonSetSize(ids: seq<string>)
    requires forall j, k :: 0 <= j < k < |ids| ==> Canon(ids[j]) != Canon(ids[k])
    ensures |CanonSet(ids)| == |ids|
  {
    if ids != [] {
      var last := |ids| - 1;
      CanonSetSize(ids[..last]);
      CanonSetSplit(ids);
      assert Canon(ids[last]) !in CanonSet(ids[..last]);
    }
  }

  lemma CanonSetIsCanonical(ids: seq<string>)
    requires forall k :: 0 <= k < |ids| ==> IsUuid(ids[k])
    ensures forall x :: x in CanonSet(ids) ==> Canonical(x)
  {
    forall k | 0 <= k < |ids| ensures Canonical(Canon(ids[k])) { CanonIsCanonical(ids[k]); }
  }

  lemma SavedLinksComplete(ids: seq<string>, positions: nat, known: set<Uuid>)
    requires LinkFailure(ids, positions, known).None?
    ensures |CanonSet(ids)| == |ids| && forall x :: x in CanonSet(ids) ==> Canonical(x)
  {
    LinkFailureNone(ids, positions, known);
    CanonSetSize(ids);
    CanonSetIsCanonical(ids);
  }

  lemma SavedImagesComplete(t: Tables, c: Call)
    requires Wanted(c) && DraftOk(c.draft) && Verdict(t, c).None?
    ensures ImagesComplete(PositionsOf(Replaced(t, c), Key(c)))
  {
    AcceptedMeans(t, c);
    var ids := c.draft.mediaIds;
    SavedLinksComplete(ids, 10, t.refs.media);
    ImagesStored(t.images, Key(c), ids, Key(c));
    var m := PositionsOf(Replaced(t, c), Key(c));
    assert m.Keys == CanonSet(ids);
  }

  lemma SavedRowComplete(t: Tables, c: Call)
    requires OracleFresh(t, c) && DraftOk(c.draft) && Verdict(t, c).None?
    requires forall p :: p in t.products ==> RowComplete(p, t.products[p])
    ensures RowComplete(Key(c), Replaced(t, c).products[Key(c)])
  {
    AcceptedMeans(t, c);
    if c.draft.brandId.Some? { CanonIsCanonical(c.draft.brandId.value); }
    if c.target.None? { assert c.minted[0] in c.minted; }
  }

  lemma SavedVariantComplete(t: Tables, c: Call, v: Uuid)
    requires OracleFresh(t, c) && DraftOk(c.draft) && Verdict(t, c).None?
    requires VariantsComplete(t.variants, t.attributeValues) && v in VariantsSwept(t, c)
    ensures VariantComplete(v, VariantsSwept(t, c)[v], AttributesIn(AttributesAfter(t, c, |c.draft.variants|), v))
  {
    WrittenOrUntouched(t, c, v);
    AttributesStored(t, c, v);
    var j := LastNaming(c, |c.draft.variants|, v);
    if j >= 0 {
      assert VariantOk(c.draft.variants[j]);
      if c.draft.variants[j].id.Some? {
        CanonIsCanonical(c.draft.variants[j].id.value);
      } else {
        assert c.minted[j + 1] in c.minted;
      }
    } else {
      assert VariantComplete(v, t.variants[v], AttributesIn(t.attributeValues, v));
    }
  }

  lemma SavedHasVariant(t: Tables, c: Call)
    requires OracleFresh(t, c) && DraftOk(c.draft) && Verdict(t, c).None?
    ensures HasVariant(VariantsSwept(t, c), Key(c))
  {
    var v := VariantKey(c, 0);
    assert v in Named(c, |c.draft.variants|);
    LastNamingIsNamed(c, |c.draft.variants|, v);
    WrittenOrUntouched(t, c, v);
    assert VariantsSwept(t, c)[v].product == Key(c);
  }

  lemma SavedProductComplete(t: Tables, c: Call)
    requires Inv(t) && OracleFresh(t, c) && Carried(t, c)
    ensures ProductComplete(Replaced(t, c), Key(c))
  {
    AcceptedMeans(t, c);
    SavedRowComplete(t, c);
    DraftContentsStored(t, c);
    SavedLinksComplete(c.draft.categoryIds, |c.draft.categoryIds|, t.refs.categories);
    SavedImagesComplete(t, c);
    SavedHasVariant(t, c);
  }

  lemma OtherProductStaysComplete(t: Tables, c: Call, q: Uuid)
    requires OracleFresh(t, c) && Verdict(t, c).None? && q in t.products && q != Key(c) && ProductComplete(t, q)
    ensures ProductComplete(Replaced(t, c), q)
  {
    OtherProductsUntouched(t, c, q);
    var before, after := VariantsOf(t, q), VariantsOf(Replaced(t, c), q);
    if v :| v in t.variants && t.variants[v].product == q {
      assert v in before && v in after;
    }
  }

  lemma AuditAppend(a: seq<AuditRow>, row: AuditRow, p: Uuid)
    ensures AuditOf(a + [row], p) == if row.entity == p then AuditOf(a, p) + [row] else AuditOf(a, p)
  {
    assert (a + [row])[..|a|] == a;
  }

  lemma ChainGrows(s: seq<AuditRow>, row: AuditRow)
    requires Chain(s) && row.newRevision == |s| + 1 && row.oldRevision == (if s == [] then None else Some(|s|))
    requires row.action == if s == [] then "product.created" else "product.updated"
    ensures Chain(s + [row])
  {
  }

  lemma HistoryContinuesAt(t: Tables, c: Call, p: Uuid)
    requires Wanted(c) && (c.target.None? ==> c.minted[0] !in t.products) && TargetFailure(t, c).None?
    requires HistoryOf(t, p)
    requires c.target.Some? ==> 0 < t.products[c.target.value].revision
    ensures HistoryOf(Replaced(t, c), p)
  {
    var row := AuditEntry(c, RevisionBefore(t, c), ProductRowAfter(t, c).revision);
    AuditAppend(t.audit, row, p);
    if p == Key(c) { ChainGrows(AuditOf(t.audit, p), row); }
  }

  lemma HistoryContinues(t: Tables, c: Call)
    requires OracleFresh(t, c) && Verdict(t, c).None? && History(t) && ProductsSound(t.products, t.refs)
    ensures History(Replaced(t, c))
  {
    assert c.minted[0] in c.minted;
    AcceptedMeans(t, c);
    forall p: Uuid ensures HistoryOf(Replaced(t, c), p) {
      assert HistoryOf(t, p);
      HistoryContinuesAt(t, c, p);
    }
  }

  lemma VariantsStayComplete(t: Tables, c: Call)
    requires OracleFresh(t, c) && DraftOk(c.draft) && Verdict(t, c).None?
    requires VariantsComplete(t.variants, t.attributeValues)
    ensures VariantsComplete(VariantsSwept(t, c), AttributesAfter(t, c, |c.draft.variants|))
  {
    var after := VariantsSwept(t, c);
    forall v | v in after
      ensures VariantComplete(v, after[v], AttributesIn(AttributesAfter(t, c, |c.draft.variants|), v))
    {
      SavedVariantComplete(t, c, v);
    }
  }

  lemma ProductsStayComplete(t: Tables, c: Call, p: Uuid)
    requires Inv(t) && OracleFresh(t, c) && Carried(t, c) && p in Replaced(t, c).products
    ensures ProductComplete(Replaced(t, c), p)
  {
    if p == Key(c) { SavedProductComplete(t, c); } else { OtherProductStaysComplete(t, c, p); }
  }

  /** One accepted save keeps the invariant. */
  lemma SaveKeepsInv(t: Tables, c: Call)
    requires Inv(t) && OracleFresh(t, c) && Carried(t, c)
    ensures Inv(Replaced(t, c))
  {
    ReplacedKeepsSchema(t, c);
    HistoryContinues(t, c);
    VariantsStayComplete(t, c);
    forall p | p in Replaced(t, c).products { ProductsStayComplete(t, c, p); }
  }

  lemma ReferencesKeepSchema(t: Tables, r: References)
    requires Schema(t) && RefsGrow(t.refs, r)
    ensures Schema(t.(refs := r))
  {
  }

  lemma ReferencesKeepProducts(t: Tables, r: References)
    requires ProductsComplete(t)
    ensures ProductsComplete(t.(refs := r))
  {
    forall p | p in t.products ensures ProductComplete(t.(refs := r), p) { assert ProductComplete(t, p); }
  }

  lemma ReferencesKeepHistory(t: Tables, r: References)
    requires History(t)
    ensures History(t.(refs := r))
  {
    forall p: Uuid ensures HistoryOf(t.(refs := r), p) { assert HistoryOf(t, p); }
  }

  lemma ReferencesKeepInv(t: Tables, r: References)
    requires Inv(t) && RefsGrow(t.refs, r) && RefsCanonical(r)
    ensures Inv(t.(refs := r))
  {
    ReferencesKeepSchema(t, r);
    ReferencesKeepHistory(t, r);
    ReferencesKeepProducts(t, r);
  }

  // Whole runs.

  ghost predicate RunOk(t: Tables, ops: seq<Op>)
    decreases |ops|
  {
    ops == [] || (Admissible(t, ops[0]) && RunOk(Step(t, ops[0]), ops[1..]))
  }

  ghost function After(t: Tables, ops: seq<Op>): Tables
    requires RunOk(t, ops)
    decreases |ops|
  {
    if ops == [] then t else After(Step(t, ops[0]), ops[1..])
  }

  function Empty(r: References): Tables
  {
    Tables(map[], {}, map[], map[], map[], map[], [], r)
  }

  lemma StepKeepsInv(t: Tables, op: Op)
    requires Inv(t) && Admissible(t, op)
    ensures Inv(Step(t, op))
  {
    match op
    case Save(c) => if Carried(t, c) { SaveKeepsInv(t, c); }
    case AddReferences(r) => ReferencesKeepInv(t, r);
  }

  /** In every run of accepted saves every product stays complete: both translations, one to ten
      categories, images on the positions 0, 1, 2, ..., prices in range, a variant, its whole history. */
  lemma {:induction false} RunKeepsInv(t: Tables, ops: seq<Op>)
    requires Inv(t) && RunOk(t, ops)
    ensures Inv(After(t, ops))
    decreases |ops|
  {
    if ops != [] {
      StepKeepsInv(t, ops[0]);
      RunKeepsInv(Step(t, ops[0]), ops[1..]);
    }
  }

  lemma EmptyIsFine(r: References)
    requires RefsCanonical(r)
    ensures Inv(Empty(r))
  {
  }

  // Nothing is lost.

  lemma RevisionNeverFalls(t: Tables, op: Op, p: Uuid)
    requires Admissible(t, op) && p in t.products
    ensures p in Step(t, op).products && t.products[p].revision <= Step(t, op).products[p].revision
  {
  }

  lemma {:induction false} RevisionsNeverFall(t: Tables, ops: seq<Op>, p: Uuid)
    requires RunOk(t, ops) && p in t.products
    ensures p in After(t, ops).products && t.products[p].revision <= After(t, ops).products[p].revision
    decreases |ops|
  {
    if ops != [] {
      RevisionNeverFalls(t, ops[0], p);
      RevisionsNeverFall(Step(t, ops[0]), ops[1..], p);
    }
  }

  /** Variant ids are forever: no run removes one or moves it to another product. */
  lemma {:induction false} VariantsNeverVanish(t: Tables, ops: seq<Op>, v: Uuid)
    requires RunOk(t, ops) && v in t.variants
    ensures v in After(t, ops).variants && After(t, ops).variants[v].product == t.variants[v].product
    decreases |ops|
  {
    if ops != [] {
      if ops[0].Save? && Carried(t, ops[0].call) { VariantIdentityKept(t, ops[0].call, v); }
      VariantsNeverVanish(Step(t, ops[0]), ops[1..], v);
    }
  }

  ghost predicate CommitsUpdate(t: Tables, op: Op, p: Uuid, expected: int)
  {
    op.Save? && Wanted(op.call) && op.call.target == Some(p) && op.call.expected == Some(expected)
      && Carried(t, op.call)
  }

  /** Of all updates of a product sent with the same expected revision at most one commits: after the
      first, no later one in the run does. */
  lemma {:induction false} ExpectedRevisionIsSpent(t: Tables, ops: seq<Op>, p: Uuid, expected: int, later: Op)
    requires ops != [] && RunOk(t, ops) && CommitsUpdate(t, ops[0], p, expected)
    ensures !CommitsUpdate(After(t, ops), later, p, expected)
  {
    var next := Step(t, ops[0]);
    AcceptedMeans(t, ops[0].call);
    assert next.products[p].revision == expected + 1;
    RevisionsNeverFall(next, ops[1..], p);
    if later.Save? && Wanted(later.call) && Verdict(After(t, ops), later.call).None? {
      AcceptedMeans(After(t, ops), later.call);
    }
  }
}
