/** Two accepted saves of different products commute: what one session wrote under its row lock is
    still right after another session has committed. */
module SaveCommutes {
  import opened Wrappers
  import opened Uuids
  import opened CatalogTables
  import opened CatalogSaveSpec
  import opened CatalogSaveProofs
  import opened CatalogSaveTheorems

  /** `u` and `t` hold the same rows of product `pid`. */
  ghost predicate Agree(t: Tables, u: Tables, pid: Uuid)
  {
    && (pid in t.products <==> pid in u.products)
    && (pid in t.products ==> t.products[pid] == u.products[pid])
    && VariantsIn(t.variants, pid) == VariantsIn(u.variants, pid)
    && (forall v :: v in VariantsIn(t.variants, pid) ==>
         AttributesIn(t.attributeValues, v) == AttributesIn(u.attributeValues, v))
  }

  // Commit: the rows of `pid` as the session sees them replace the committed ones.

  function InstallLinks(s: set<(Uuid, Uuid)>, view: set<(Uuid, Uuid)>, pid: Uuid): set<(Uuid, Uuid)>
  {
    (set r | r in s && r.0 != pid) + (set r | r in view && r.0 == pid)
  }

  function InstallKeyed<K(==), V>(m: map<(Uuid, K), V>, view: map<(Uuid, K), V>, pid: Uuid): map<(Uuid, K), V>
  {
    (map k | k in m && k.0 != pid :: m[k]) + (map k | k in view && k.0 == pid :: view[k])
  }

  function InstallVariants(m: map<Uuid, VariantRow>, view: map<Uuid, VariantRow>, pid: Uuid): map<Uuid, VariantRow>
  {
    (map v | v in m && m[v].product != pid :: m[v]) + VariantsIn(view, pid)
  }

  function InstallValues(m: map<(Uuid, string), string>, view: map<(Uuid, string), string>,
          own: set<Uuid>): map<(Uuid, string), string>
  {
    (map k | k in m && k.0 !in own :: m[k]) + (map k | k in view && k.0 in own :: view[k])
  }

  function Install(t: Tables, view: Tables, pid: Uuid): Tables
    requires pid in view.products && view.audit != []
  {
    Tables(t.products[pid := view.products[pid]],
           InstallLinks(t.productCategories, view.productCategories, pid),
           InstallKeyed(t.translations, view.translations, pid),
           InstallVariants(t.variants, view.variants, pid),
           InstallValues(t.attributeValues, view.attributeValues, VariantsIn(view.variants, pid).Keys),
           InstallKeyed(t.images, view.images, pid),
           t.audit + [view.audit[|view.audit| - 1]],
           t.refs)
  }

  lemma OwnedAlike(t: Tables, u: Tables, pid: Uuid, v: Uuid)
    requires Agree(t, u, pid)
    ensures Owns(t, pid, v) <==> Owns(u, pid, v)
    ensures Owns(t, pid, v) ==> t.variants[v] == u.variants[v]
  {
    assert v in VariantsIn(t.variants, pid) <==> v in VariantsIn(u.variants, pid);
    if v in VariantsIn(t.variants, pid) { assert VariantsIn(t.variants, pid)[v] == VariantsIn(u.variants, pid)[v]; }
  }

  lemma SweptRow(t: Tables, c: Call, v: Uuid)
    requires Wanted(c)
    ensures var j := LastNaming(c, |c.draft.variants|, v);
      && (v in VariantsSwept(t, c) <==> j >= 0 || v in t.variants)
      && (v in VariantsSwept(t, c) ==>
            VariantsSwept(t, c)[v] == if j >= 0 then VariantRowOf(c, j)
                                      else if Owns(t, Key(c), v) then t.variants[v].(active := false)
                                      else t.variants[v])
  {
    LastNamingIsNamed(c, |c.draft.variants|, v);
    if v in VariantsSwept(t, c) { WrittenOrUntouched(t, c, v); }
  }

  lemma VariantInstalled(t: Tables, u: Tables, c: Call, v: Uuid)
    requires Wanted(c) && Agree(t, u, Key(c))
    ensures var m := InstallVariants(u.variants, VariantsSwept(t, c), Key(c));
      && (v in m <==> v in VariantsSwept(u, c)) && (v in m ==> m[v] == VariantsSwept(u, c)[v])
  {
    SweptRow(t, c, v);
    SweptRow(u, c, v);
    OwnedAlike(t, u, Key(c), v);
  }

  lemma VariantsInstalled(t: Tables, u: Tables, c: Call)
    requires Wanted(c) && Agree(t, u, Key(c))
    ensures InstallVariants(u.variants, VariantsSwept(t, c), Key(c)) == VariantsSwept(u, c)
  {
    forall v { VariantInstalled(t, u, c, v); }
  }

  lemma SameValue(m: map<(Uuid, string), string>, w: map<(Uuid, string), string>, k: (Uuid, string))
    requires AttributesIn(m, k.0) == AttributesIn(w, k.0)
    ensures (k in m <==> k in w) && (k in m ==> m[k] == w[k])
  {
    InCodes(m, k.0, k.1);
    InCodes(w, k.0, k.1);
    assert k == (k.0, k.1) && (k.1 in AttributesIn(m, k.0) <==> k.1 in AttributesIn(w, k.0));
    if k in m { assert AttributesIn(m, k.0)[k.1] == AttributesIn(w, k.0)[k.1]; }
  }

  lemma OwnedAfter(t: Tables, c: Call, v: Uuid)
    requires Wanted(c)
    ensures v in VariantsIn(VariantsSwept(t, c), Key(c)) <==>
      LastNaming(c, |c.draft.variants|, v) >= 0 || Owns(t, Key(c), v)
  {
    SweptRow(t, c, v);
  }

  lemma ValueAfter(t: Tables, c: Call, k: (Uuid, string))
    requires Wanted(c)
    ensures var n := |c.draft.variants|;
      var j := LastNaming(c, n, k.0);
      var m := AttributesAfter(t, c, n);
      && (k in m <==> if j >= 0 then k.1 in c.draft.variants[j].attributes else k in t.attributeValues)
      && (k in m ==> m[k] == if j >= 0 then c.draft.variants[j].attributes[k.1] else t.attributeValues[k])
  {
    AttributeKeys(t, c, |c.draft.variants|, k);
    if k in AttributesAfter(t, c, |c.draft.variants|) { AttributeValue(t, c, |c.draft.variants|, k); }
  }

  lemma OwnedIsIn(m: map<Uuid, VariantRow>, pid: Uuid, v: Uuid)
    requires v in m && m[v].product == pid
    ensures v in VariantsIn(m, pid)
  {
  }

  lemma ValueInstalled(t: Tables, u: Tables, c: Call, k: (Uuid, string))
    requires Wanted(c) && Agree(t, u, Key(c))
    ensures var n := |c.draft.variants|;
      var m := InstallValues(u.attributeValues, AttributesAfter(t, c, n), VariantsIn(VariantsSwept(t, c), Key(c)).Keys);
      && (k in m <==> k in AttributesAfter(u, c, n)) && (k in m ==> m[k] == AttributesAfter(u, c, n)[k])
  {
    hide VariantsSwept, AttributesAfter, LastNaming, VariantsIn;
    OwnedAfter(t, c, k.0);
    ValueAfter(t, c, k);
    ValueAfter(u, c, k);
    OwnedAlike(t, u, Key(c), k.0);
    if Owns(t, Key(c), k.0) {
      OwnedIsIn(t.variants, Key(c), k.0);
      SameValue(t.attributeValues, u.attributeValues, k);
    }
  }

  lemma ValuesInstalled(t: Tables, u: Tables, c: Call)
    requires Wanted(c) && Agree(t, u, Key(c))
    ensures var n := |c.draft.variants|;
      InstallValues(u.attributeValues, AttributesAfter(t, c, n), VariantsIn(VariantsSwept(t, c), Key(c)).Keys) ==
        AttributesAfter(u, c, n)
  {
    forall k { ValueInstalled(t, u, c, k); }
  }

  lemma LinksInstalled(s: set<(Uuid, Uuid)>, w: set<(Uuid, Uuid)>, pid: Uuid, ids: seq<string>)
    ensures InstallLinks(w, CategoriesAfter(s, pid, ids), pid) == CategoriesAfter(w, pid, ids)
  {
  }

  lemma TranslationsInstalled(s: map<(Uuid, string), Translation>, w: map<(Uuid, string), Translation>, pid: Uuid,
          x: map<string, Translation>)
    ensures InstallKeyed(w, TranslationsAfter(s, pid, x), pid) == TranslationsAfter(w, pid, x)
  {
  }

  lemma ImagesInstalled(s: map<(Uuid, Uuid), int>, w: map<(Uuid, Uuid), int>, pid: Uuid, ids: seq<string>)
    ensures InstallKeyed(w, ImagesAfter(s, pid, ids), pid) == ImagesAfter(w, pid, ids)
  {
  }

  lemma ProductInstalled(t: Tables, u: Tables, c: Call)
    requires Wanted(c) && Agree(t, u, Key(c)) && (c.target.Some? ==> c.target.value in t.products)
    ensures ProductRowAfter(t, c) == ProductRowAfter(u, c) && RevisionBefore(t, c) == RevisionBefore(u, c)
  {
  }

  /** What a session wrote over `t` is, on commit into `u`, one atomic replacement of `u`. */
  lemma InstallIsReplaced(t: Tables, u: Tables, c: Call)
    requires Wanted(c) && Agree(t, u, Key(c)) && (c.target.Some? ==> c.target.value in t.products)
    ensures Install(u, Replaced(t, c), Key(c)) == Replaced(u, c)
  {
    hide CategoriesAfter, TranslationsAfter, ImagesAfter, VariantsSwept, AttributesAfter, ProductRowAfter;
    hide InstallLinks, InstallKeyed, InstallVariants, InstallValues, VariantsIn, RevisionBefore;
    var view, after := Replaced(t, c), Replaced(u, c);
    ProductInstalled(t, u, c);
    VariantsInstalled(t, u, c);
    ValuesInstalled(t, u, c);
    assert view.variants == VariantsSwept(t, c) && view.attributeValues == AttributesAfter(t, c, |c.draft.variants|);
    LinksInstalled(t.productCategories, u.productCategories, Key(c), c.draft.categoryIds);
    TranslationsInstalled(t.translations, u.translations, Key(c), c.draft.translations);
    ImagesInstalled(t.images, u.images, Key(c), c.draft.mediaIds);
  }

  // The verdict of one save after another.

  /** The i-th SKU of `c` is none of `b`: a unique index would make the later session wait. */
  ghost predicate SkuApart(c: Call, i: nat, b: Call)
    requires i < |c.draft.variants|
  {
    forall j :: 0 <= j < |b.draft.variants| ==> b.draft.variants[j].sku != c.draft.variants[i].sku
  }

  lemma CommitAgrees(t: Tables, b: Call, pid: Uuid)
    requires OracleFresh(t, b) && Verdict(t, b).None? && pid != Key(b)
    ensures Agree(t, Replaced(t, b), pid)
  {
    OtherProductsUntouched(t, b, pid);
  }

  lemma SkuFreeAfterCommit(t: Tables, b: Call, c: Call, i: nat)
    requires OracleFresh(t, b) && Verdict(t, b).None? && Wanted(c) && i < |c.draft.variants| && SkuApart(c, i, b)
    requires !SkuHeld(t, c, i)
    ensures !SkuHeld(Replaced(t, b), c, i)
  {
    var u := Replaced(t, b);
    var m := VariantsAfter(u, c, i);
    forall v | v in m && v != VariantKey(c, i) ensures m[v].sku != c.draft.variants[i].sku {
      LastNamingIsNamed(c, i, v);
      if LastNaming(c, i, v) >= 0 {
        assert VariantsAfter(t, c, i)[v] == m[v];
      } else {
        SweptRow(t, b, v);
        var j := LastNaming(b, |b.draft.variants|, v);
        if j < 0 { assert VariantsAfter(t, c, i)[v].sku == m[v].sku; }
      }
    }
  }

  lemma VariantPassesIn(t: Tables, u: Tables, c: Call, i: nat)
    requires Wanted(c) && i < |c.draft.variants| && VariantFailure(t, c, i).None?
    requires Owns(t, Key(c), VariantKey(c, i)) ==> Owns(u, Key(c), VariantKey(c, i))
    requires u.refs == t.refs && !SkuHeld(u, c, i)
    ensures VariantFailure(u, c, i).None?
  {
  }

  lemma CarriedOut(t: Tables, b: Call)
    requires OracleFresh(t, b) && Verdict(t, b).None?
    ensures Wanted(b) && (b.target.Some? ==> b.target.value in t.products)
  {
  }

  lemma SkuFreeIfPassed(t: Tables, c: Call, i: nat)
    requires Wanted(c) && i < |c.draft.variants| && VariantFailure(t, c, i).None?
    ensures !SkuHeld(t, c, i)
  {
    hide SkuHeld;
  }

  lemma VariantPassesAfterCommit(t: Tables, b: Call, c: Call, i: nat)
    requires OracleFresh(t, b) && Verdict(t, b).None? && Wanted(c) && Key(c) != Key(b)
    requires i < |c.draft.variants| && SkuApart(c, i, b)
    requires VariantFailure(t, c, i).None?
    ensures VariantFailure(Replaced(t, b), c, i).None?
  {
    hide Verdict, SkuApart, OracleFresh, VariantFailure, Agree;
    CarriedOut(t, b);
    var u := Replaced(t, b);
    SkuFreeIfPassed(t, c, i);
    SkuFreeAfterCommit(t, b, c, i);
    CommitAgrees(t, b, Key(c));
    OwnedAlike(t, u, Key(c), VariantKey(c, i));
    VariantPassesIn(t, u, c, i);
  }

  lemma SlugFreeAfterCommit(t: Tables, b: Call, c: Call)
    requires OracleFresh(t, b) && Verdict(t, b).None? && Wanted(c) && c.draft.slug != b.draft.slug
    requires !SlugTaken(t, Key(c), c.draft.slug)
    ensures !SlugTaken(Replaced(t, b), Key(c), c.draft.slug)
  {
    var u := Replaced(t, b);
    forall q | q in u.products && q != Key(c) ensures u.products[q].slug != c.draft.slug {
      if q != Key(b) { OtherProductsUntouched(t, b, q); }
    }
  }

  // Statement by statement.

  /** The statements of one call: product, categories, translations, each variant with its attributes,
      images (after the sweep, which cannot fail), audit row. */
  function Statements(c: Call): nat { |c.draft.variants| + 5 }

  /** The objection of the k-th statement, looked at on its own snapshot. */
  function StatementFailure(t: Tables, c: Call, k: nat): Option<Failure>
    requires Wanted(c) && k < Statements(c) && (c.target.Some? ==> c.target.value in t.products)
  {
    var n := |c.draft.variants|;
    if k == 0 then ProductFailure(t, c)
    else if k == 1 then LinkFailure(c.draft.categoryIds, |c.draft.categoryIds|, t.refs.categories)
    else if k == 2 then TranslationFailure(c)
    else if k < n + 3 then VariantFailure(t, c, k - 3)
    else if k == n + 3 then LinkFailure(c.draft.mediaIds, 10, t.refs.media)
    else if c.actor !in t.refs.users then Some(InvalidReference)
    else None
  }

  ghost predicate StatementsPass(t: Tables, c: Call, k: nat)
    requires Wanted(c) && k <= Statements(c) && (c.target.Some? ==> c.target.value in t.products)
  {
    forall j :: 0 <= j < k ==> StatementFailure(t, c, j).None?
  }

  /** The whole verdict is the target's and the statements'. */
  lemma VerdictByStatements(t: Tables, c: Call)
    requires Wanted(c) && TargetFailure(t, c).None?
    ensures Verdict(t, c).None? <==> StatementsPass(t, c, Statements(c))
  {
    hide ProductFailure, LinkFailure, TranslationFailure, VariantFailure;
    var n := |c.draft.variants|;
    VariantsFailureIsFirst(t, c, 0);
    if StatementsPass(t, c, n + 5) {
      assert StatementFailure(t, c, 0).None? && StatementFailure(t, c, 1).None? && StatementFailure(t, c, 2).None?;
      assert StatementFailure(t, c, n + 3).None? && StatementFailure(t, c, n + 4).None?;
      forall i | 0 <= i < n ensures VariantFailure(t, c, i).None? { assert StatementFailure(t, c, i + 3).None?; }
    }
  }

  lemma {:induction false} FirstBadVariant(t: Tables, c: Call, i: nat, k: nat)
    requires Wanted(c) && i <= k < |c.draft.variants| && VariantFailure(t, c, k).Some?
    requires forall j :: i <= j < k ==> VariantFailure(t, c, j).None?
    ensures VariantsFailure(t, c, i) == VariantFailure(t, c, k)
    decreases k - i
  {
    hide VariantFailure;
    if i < k { FirstBadVariant(t, c, i + 1, k); }
  }

  /** The first statement that objects decides the verdict. */
  lemma FirstObjectionDecides(t: Tables, c: Call, k: nat)
    requires Wanted(c) && TargetFailure(t, c).None? && k < Statements(c)
    requires StatementsPass(t, c, k) && StatementFailure(t, c, k).Some?
    ensures Verdict(t, c) == StatementFailure(t, c, k)
  {
    hide ProductFailure, LinkFailure, TranslationFailure, VariantFailure;
    var n := |c.draft.variants|;
    if k > 0 { assert StatementFailure(t, c, 0).None?; }
    if k > 1 { assert StatementFailure(t, c, 1).None?; }
    if k > 2 { assert StatementFailure(t, c, 2).None?; }
    forall i | 0 <= i < n && i + 3 < k ensures VariantFailure(t, c, i).None? {
      assert StatementFailure(t, c, i + 3).None?;
    }
    if 3 <= k < n + 3 { FirstBadVariant(t, c, 0, k - 3); }
    if n + 3 <= k { VariantsFailureIsFirst(t, c, 0); }
    if n + 3 < k { assert StatementFailure(t, c, n + 3).None?; }
  }

  /** What the k-th statement of `c` wants is not what `b` wrote. */
  ghost predicate StatementApart(c: Call, k: nat, b: Call)
  {
    && (k == 0 ==> c.draft.slug != b.draft.slug)
    && (3 <= k < |c.draft.variants| + 3 ==> SkuApart(c, k - 3, b))
  }

  lemma TargetAfterCommit(t: Tables, b: Call, c: Call)
    requires OracleFresh(t, b) && Verdict(t, b).None? && (c.target.Some? ==> c.target.value in t.products)
    ensures Replaced(t, b).refs == t.refs && (c.target.Some? ==> c.target.value in Replaced(t, b).products)
  {
  }

  lemma ProductPassesIn(t: Tables, u: Tables, c: Call)
    requires Wanted(c) && (c.target.Some? ==> c.target.value in t.products && c.target.value in u.products)
    requires c.target.Some? ==> t.products[c.target.value] == u.products[c.target.value]
    requires u.refs == t.refs && !SlugTaken(u, Key(c), c.draft.slug) && ProductFailure(t, c).None?
    ensures ProductFailure(u, c).None?
  {
    hide SlugTaken;
  }

  lemma ProductPassesAfterCommit(t: Tables, b: Call, c: Call)
    requires OracleFresh(t, b) && Verdict(t, b).None? && Wanted(c) && Key(c) != Key(b) && c.draft.slug != b.draft.slug
    requires (c.target.Some? ==> c.target.value in t.products) && ProductFailure(t, c).None?
    ensures c.target.Some? ==> c.target.value in Replaced(t, b).products
    ensures ProductFailure(Replaced(t, b), c).None?
  {
    hide Verdict, OracleFresh, Replaced, SlugTaken;
    CarriedOut(t, b);
    TargetAfterCommit(t, b, c);
    CommitAgrees(t, b, Key(c));
    SlugFreeAfterCommit(t, b, c);
    ProductPassesIn(t, Replaced(t, b), c);
  }

  /** A statement that passed would pass again after another session has committed a save of another product. */
  lemma StatementAfterCommit(t: Tables, b: Call, c: Call, k: nat)
    requires OracleFresh(t, b) && Verdict(t, b).None? && Wanted(c) && Key(c) != Key(b)
    requires k < Statements(c) && (c.target.Some? ==> c.target.value in t.products) && StatementApart(c, k, b)
    requires StatementFailure(t, c, k).None?
    ensures c.target.Some? ==> c.target.value in Replaced(t, b).products
    ensures StatementFailure(Replaced(t, b), c, k).None?
  {
    hide Verdict, OracleFresh, Replaced, ProductFailure, VariantFailure, LinkFailure, TranslationFailure, SkuApart;
    CarriedOut(t, b);
    TargetAfterCommit(t, b, c);
    if k == 0 {
      ProductPassesAfterCommit(t, b, c);
    } else if 3 <= k < |c.draft.variants| + 3 {
      VariantPassesAfterCommit(t, b, c, k - 3);
    }
  }

  lemma FreshAfterCommit(t: Tables, b: Call, c: Call)
    requires OracleFresh(t, b) && Verdict(t, b).None? && OracleFresh(t, c)
    requires forall k :: k in c.minted ==> k !in b.minted
    ensures OracleFresh(Replaced(t, b), c)
  {
    AcceptedMeans(t, b);
    forall k | k in c.minted ensures k !in Replaced(t, b).products && k !in Replaced(t, b).variants {
      VariantIdentityKept(t, b, k);
      assert b.minted[0] in b.minted;
    }
  }
}
