/** When an active product keeps an available variant: the one promise of validation that the
    spelling of variant ids can break, with the exact condition on the drafts. */
module CatalogOffers {
  import opened Uuids
  import opened CatalogTables
  import opened DraftValidation
  import opened CatalogSaveSpec
  import opened CatalogSaveProofs
  import opened CatalogSaveTheorems
  import opened CatalogRuns

  // One save.

  /** A later variant of the draft names the same row as the i-th. */
  ghost predicate Overridden(d: Draft, i: nat)
    requires i < |d.variants|
  {
    && d.variants[i].id.Some?
    && exists j :: i < j < |d.variants| && SameRow(d, i, j)
  }

  ghost predicate SameRow(d: Draft, i: nat, j: nat)
    requires i < |d.variants| && j < |d.variants| && d.variants[i].id.Some?
  {
    d.variants[j].id.Some? && Canon(d.variants[j].id.value) == Canon(d.variants[i].id.value)
  }

  ghost predicate HasAvailable(variants: map<Uuid, VariantRow>, p: Uuid)
  {
    exists v :: v in variants && variants[v].product == p && variants[v].active
  }

  ghost predicate AvailableAfter(t: Tables, c: Call)
    requires Wanted(c)
  {
    HasAvailable(VariantsSwept(t, c), Key(c))
  }

  lemma LastUnlessOverridden(t: Tables, c: Call, i: nat)
    requires OracleFresh(t, c) && i < |c.draft.variants|
    ensures LastNaming(c, |c.draft.variants|, VariantKey(c, i)) == i <==> !Overridden(c.draft, i)
  {
    var n, v := |c.draft.variants|, VariantKey(c, i);
    var j := LastNaming(c, n, v);
    assert v in Named(c, n);
    LastNamingIsNamed(c, n, v);
    assert c.minted[i + 1] in c.minted && c.minted[j + 1] in c.minted;
    if j < i { LastNamingIsLast(c, n, v, i); }
    if i < j { assert SameRow(c.draft, i, j); }
    if Overridden(c.draft, i) {
      var k :| i < k < n && SameRow(c.draft, i, k);
      if j == i { LastNamingIsLast(c, n, v, k); }
    }
  }

  ghost predicate SomeLastAvailable(c: Call)
    requires Wanted(c)
  {
    exists i :: 0 <= i < |c.draft.variants| && c.draft.variants[i].active
                && LastNaming(c, |c.draft.variants|, VariantKey(c, i)) == i
  }

  /** The product ends with an available variant exactly when some available draft variant is the
      last one to name its row. */
  lemma AvailableExactly(t: Tables, c: Call)
    requires OracleFresh(t, c) && Verdict(t, c).None?
    ensures AvailableAfter(t, c) <==> SomeLastAvailable(c)
  {
    var n, w := |c.draft.variants|, VariantsSwept(t, c);
    if v :| v in w && w[v].product == Key(c) && w[v].active {
      WrittenOrUntouched(t, c, v);
      var j := LastNaming(c, n, v);
      assert VariantKey(c, j) == v;
    }
    if i :| 0 <= i < n && c.draft.variants[i].active && LastNaming(c, n, VariantKey(c, i)) == i {
      var v := VariantKey(c, i);
      assert v in Named(c, n);
      WrittenOrUntouched(t, c, v);
      assert w[v].product == Key(c) && w[v].active;
    }
  }

  ghost predicate SomeAvailableStays(d: Draft)
  {
    exists i :: 0 <= i < |d.variants| && d.variants[i].active && !Overridden(d, i)
  }

  /** An accepted save leaves an available variant exactly when some available draft variant is not
      overridden by a later spelling of its id: the check `validateDraft` would have to make. */
  lemma AvailableUnlessOverridden(t: Tables, c: Call)
    requires OracleFresh(t, c) && Verdict(t, c).None?
    ensures AvailableAfter(t, c) <==> SomeAvailableStays(c.draft)
  {
    hide Verdict, LastNaming, Overridden, AvailableAfter;
    AvailableExactly(t, c);
    forall i | 0 <= i < |c.draft.variants|
      ensures LastNaming(c, |c.draft.variants|, VariantKey(c, i)) == i <==> !Overridden(c.draft, i)
    {
      LastUnlessOverridden(t, c, i);
    }
  }

  // All products.

  ghost predicate OnSale(variants: map<Uuid, VariantRow>, p: Uuid, status: string)
  {
    status == "active" ==> HasAvailable(variants, p)
  }

  /** Every active product has an available variant. */
  ghost predicate Offered(t: Tables)
  {
    forall p :: p in t.products ==> OnSale(t.variants, p, t.products[p].status)
  }

  /** What a caller can check on the draft before sending it. */
  ghost predicate StaysOnSale(d: Draft)
  {
    d.status == "active" ==> SomeAvailableStays(d)
  }

  /** A validated draft whose ids are distinct as uuid values meets the condition. */
  lemma DistinctIdsStayOnSale(d: Draft)
    requires DraftOk(d) && DistinctIds(d)
    ensures StaysOnSale(d)
  {
    if d.status == "active" {
      var i :| 0 <= i < |d.variants| && d.variants[i].active;
      if d.variants[i].id.Some? { assert forall j :: i < j < |d.variants| ==> !SameRow(d, i, j); }
      assert !Overridden(d, i);
    }
  }

  lemma OtherStaysOnSale(t: Tables, c: Call, q: Uuid)
    requires OracleFresh(t, c) && Verdict(t, c).None? && q != Key(c)
    ensures HasAvailable(VariantsSwept(t, c), q) <==> HasAvailable(t.variants, q)
  {
    hide Verdict;
    OtherVariantsUntouched(t, c, q);
    var before, after := VariantsIn(t.variants, q), VariantsIn(VariantsSwept(t, c), q);
    if v :| v in t.variants && t.variants[v].product == q && t.variants[v].active { assert v in before && v in after; }
    if v :| v in VariantsSwept(t, c) && VariantsSwept(t, c)[v].product == q && VariantsSwept(t, c)[v].active {
      assert v in after && v in before;
    }
  }

  lemma SavedRowIs(t: Tables, c: Call)
    requires OracleFresh(t, c) && Verdict(t, c).None?
    ensures Wanted(c) && (c.target.Some? ==> c.target.value in t.products)
    ensures var after := Replaced(t, c);
      && Key(c) in after.products && after.products[Key(c)].status == c.draft.status
           && after.variants == VariantsSwept(t, c)
      && forall q :: q in after.products && q != Key(c) ==> q in t.products && after.products[q] == t.products[q]
    ensures forall q :: q in t.products ==> q in Replaced(t, c).products
  {
  }

  /** One save keeps every active product on sale exactly when its draft meets the condition. */
  lemma SaveKeepsOffersExactly(t: Tables, c: Call)
    requires OracleFresh(t, c) && Verdict(t, c).None? && Offered(t)
    ensures Offered(Replaced(t, c)) <==> StaysOnSale(c.draft)
  {
    hide Verdict, Replaced, VariantsSwept, HasAvailable, SomeAvailableStays;
    SavedRowIs(t, c);
    AvailableUnlessOverridden(t, c);
    var after := Replaced(t, c);
    forall q | q in after.products && q != Key(c) ensures OnSale(after.variants, q, after.products[q].status) {
      OtherStaysOnSale(t, c, q);
      assert OnSale(t.variants, q, t.products[q].status);
    }
  }

  // Whole runs.

  ghost predicate CarriesOut(t: Tables, op: Op)
  {
    op.Save? && Wanted(op.call) && Carried(t, op.call)
  }

  /** Every draft the run carries out meets the condition. */
  ghost predicate AllStayOnSale(t: Tables, ops: seq<Op>)
    requires RunOk(t, ops)
    decreases |ops|
  {
    ops == [] ||
    ((CarriesOut(t, ops[0]) ==> StaysOnSale(ops[0].call.draft)) && AllStayOnSale(Step(t, ops[0]), ops[1..]))
  }

  /** At no moment of the run is an active product without an available variant. */
  ghost predicate OfferedThroughout(t: Tables, ops: seq<Op>)
    requires RunOk(t, ops)
    decreases |ops|
  {
    Offered(t) && (ops == [] || OfferedThroughout(Step(t, ops[0]), ops[1..]))
  }

  lemma StepKeepsOffersExactly(t: Tables, op: Op)
    requires Admissible(t, op) && Offered(t)
    ensures Offered(Step(t, op)) <==> (CarriesOut(t, op) ==> StaysOnSale(op.call.draft))
  {
    hide Verdict, Replaced, StaysOnSale;
    if CarriesOut(t, op) { SaveKeepsOffersExactly(t, op.call); }
  }

  /** A run keeps every active product on sale all the way exactly when every draft it carries out
      meets the condition. */
  lemma {:induction false} RunKeepsOffersExactly(t: Tables, ops: seq<Op>)
    requires RunOk(t, ops) && Offered(t)
    ensures OfferedThroughout(t, ops) <==> AllStayOnSale(t, ops)
    ensures AllStayOnSale(t, ops) ==> Offered(After(t, ops))
    decreases |ops|
  {
    hide Offered, StaysOnSale, Step;
    if ops != [] {
      StepKeepsOffersExactly(t, ops[0]);
      if Offered(Step(t, ops[0])) { RunKeepsOffersExactly(Step(t, ops[0]), ops[1..]); }
    }
  }

  lemma EmptyIsOffered(r: References)
    ensures Offered(Empty(r))
  {
  }
}
