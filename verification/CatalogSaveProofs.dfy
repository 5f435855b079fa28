/** Facts about the replacement that the procedure's proof and the theorems share. */
module CatalogSaveProofs {
  import opened Uuids
  import opened CatalogTables
  import opened CatalogSaveSpec

  lemma CanonSetPrefix(ids: seq<string>, i: nat)
    requires i < |ids|
    ensures CanonSet(ids[..i + 1]) == CanonSet(ids[..i]) + {Canon(ids[i])}
  {
    assert ids[..i + 1][..i] == ids[..i];
    CanonSetSplit(ids[..i + 1]);
  }

  lemma SeenEarlier(ids: seq<string>, i: nat)
    requires i < |ids|
    ensures Canon(ids[i]) in CanonSet(ids[..i]) <==> exists j :: 0 <= j < i && Canon(ids[j]) == Canon(ids[i])
  {
    if j :| 0 <= j < i && Canon(ids[j]) == Canon(ids[i]) { assert ids[..i][j] == ids[j]; }
  }

  lemma PositionsPrefix(ids: seq<string>, i: nat)
    requires i < |ids|
    ensures CanonSet(ids[..i + 1]) == CanonSet(ids[..i]) + {Canon(ids[i])}
    ensures PositionIn(ids[..i + 1], Canon(ids[i])) == i
    ensures forall m :: m in CanonSet(ids[..i]) && m != Canon(ids[i]) ==>
      PositionIn(ids[..i + 1], m) == PositionIn(ids[..i], m)
  {
    CanonSetPrefix(ids, i);
    assert ids[..i + 1][..i] == ids[..i];
  }

  function ImagesWritten(kept: map<(Uuid, Uuid), int>, pid: Uuid, ids: seq<string>): map<(Uuid, Uuid), int>
  {
    kept + (map m | m in CanonSet(ids) :: (pid, m) := PositionIn(ids, m))
  }

  lemma ImagesWrittenStep(kept: map<(Uuid, Uuid), int>, pid: Uuid, ids: seq<string>, i: nat)
    requires i < |ids|
    ensures ImagesWritten(kept, pid, ids[..i])[(pid, Canon(ids[i])) := i] == ImagesWritten(kept, pid, ids[..i + 1])
  {
    hide Canon, CanonSet, PositionIn, ImagesWritten;
    var a, b := ImagesWritten(kept, pid, ids[..i])[(pid, Canon(ids[i])) := i], ImagesWritten(kept, pid, ids[..i + 1]);
    forall k ensures k in a <==> k in b { ImagesStepAt(kept, pid, ids, i, k); }
    forall k | k in a ensures a[k] == b[k] { ImagesStepAt(kept, pid, ids, i, k); }
  }

  lemma ImagesStepAt(kept: map<(Uuid, Uuid), int>, pid: Uuid, ids: seq<string>, i: nat, k: (Uuid, Uuid))
    requires i < |ids|
    ensures var a, b := ImagesWritten(kept, pid, ids[..i])[(pid, Canon(ids[i])) := i],
      ImagesWritten(kept, pid, ids[..i + 1]);
      (k in a <==> k in b) && (k in a ==> a[k] == b[k])
  {
    hide Canon, CanonSet, PositionIn;
    PositionsPrefix(ids, i);
    if k.0 == pid { assert k == (pid, k.1); }
  }

  lemma ImagesWrittenKeys(kept: map<(Uuid, Uuid), int>, pid: Uuid, ids: seq<string>)
    requires forall k :: k in kept ==> k.0 != pid
    ensures forall m :: (pid, m) in ImagesWritten(kept, pid, ids) <==> m in CanonSet(ids)
  {
  }

  lemma UnknownImage(kept: map<(Uuid, Uuid), int>, pid: Uuid, ids: seq<string>, known: set<Uuid>)
    requires forall k :: k in kept ==> k.0 != pid
    ensures (exists k :: k in ImagesWritten(kept, pid, ids) && k.0 == pid && k.1 !in known) <==>
      !(CanonSet(ids) <= known)
  {
    hide Canon, CanonSet, PositionIn;
    ImagesWrittenKeys(kept, pid, ids);
    if m :| m in CanonSet(ids) && m !in known { assert (pid, m) in ImagesWritten(kept, pid, ids); }
  }

  lemma WrittenIsAfter(before: map<(Uuid, Uuid), int>, pid: Uuid, ids: seq<string>)
    ensures ImagesWritten(map k | k in before && k.0 != pid :: before[k], pid, ids) == ImagesAfter(before, pid, ids)
  {
    hide Canon, CanonSet, PositionIn;
  }

  /** The array of retained keys holds what the loop named, so the sweep is the declarative one. */
  lemma SweepIsDeclared(t: Tables, c: Call, retained: seq<Uuid>)
    requires Wanted(c) && |retained| == |c.draft.variants|
    requires forall k :: 0 <= k < |retained| ==> retained[k] == VariantKey(c, k)
    ensures Sweep(VariantsAfter(t, c, |c.draft.variants|), Key(c), retained) == VariantsSwept(t, c)
  {
    assert forall v :: v in retained <==> v in Named(c, |c.draft.variants|);
  }

  function Sweep(m: map<Uuid, VariantRow>, pid: Uuid, retained: seq<Uuid>): map<Uuid, VariantRow>
  {
    map v | v in m :: if m[v].product == pid && v !in retained then m[v].(active := false) else m[v]
  }

  lemma NothingNamedYet(t: Tables, c: Call)
    requires Wanted(c)
    ensures VariantsAfter(t, c, 0) == t.variants && AttributesAfter(t, c, 0) == t.attributeValues
  {
    assert KeptAttributes(t, c, 0) == t.attributeValues.Keys;
    assert NamedAttributes(c, 0) == {};
  }

  lemma NamedStep(c: Call, i: nat)
    requires Wanted(c) && i < |c.draft.variants|
    ensures Named(c, i + 1) == Named(c, i) + {VariantKey(c, i)}
  {
  }

  lemma VariantAt(t: Tables, c: Call, n: nat, v: Uuid)
    requires Wanted(c) && n <= |c.draft.variants|
    ensures var m, j := VariantsAfter(t, c, n), LastNaming(c, n, v);
      && (v in m <==> j >= 0 || v in t.variants)
      && (v in m ==> m[v] == if j >= 0 then VariantRowOf(c, j) else t.variants[v])
  {
    LastNamingIsNamed(c, n, v);
  }

  lemma VariantStepAt(t: Tables, c: Call, i: nat, v: Uuid)
    requires Wanted(c) && i < |c.draft.variants|
    ensures var m, n := VariantsAfter(t, c, i), VariantsAfter(t, c, i + 1);
      && (v in n <==> v in m || v == VariantKey(c, i))
      && (v in n ==> n[v] == if v == VariantKey(c, i) then VariantRowOf(c, i) else m[v])
  {
    hide VariantsAfter, VariantRowOf;
    VariantAt(t, c, i, v);
    VariantAt(t, c, i + 1, v);
  }

  lemma VariantsAfterStep(t: Tables, c: Call, i: nat)
    requires Wanted(c) && i < |c.draft.variants|
    ensures VariantsAfter(t, c, i)[VariantKey(c, i) := VariantRowOf(c, i)] == VariantsAfter(t, c, i + 1)
  {
    hide VariantsAfter, VariantKey, VariantRowOf;
    var a, b := VariantsAfter(t, c, i)[VariantKey(c, i) := VariantRowOf(c, i)], VariantsAfter(t, c, i + 1);
    forall v ensures (v in a <==> v in b) && (v in a ==> a[v] == b[v]) { VariantStepAt(t, c, i, v); }
    assert a.Keys == b.Keys;
  }

  lemma AttributeKeysStep(t: Tables, c: Call, i: nat, k: (Uuid, string))
    requires Wanted(c) && i < |c.draft.variants|
    ensures k in AttributesAfter(t, c, i + 1) <==>
      if k.0 == VariantKey(c, i) then k.1 in c.draft.variants[i].attributes else k in AttributesAfter(t, c, i)
  {
    assert LastNaming(c, i + 1, k.0) == if k.0 == VariantKey(c, i) then i else LastNaming(c, i, k.0);
    AttributeKeys(t, c, i, k);
    AttributeKeys(t, c, i + 1, k);
  }

  lemma AttributeKeys(t: Tables, c: Call, n: nat, k: (Uuid, string))
    requires Wanted(c) && n <= |c.draft.variants|
    ensures k in AttributesAfter(t, c, n) <==>
      var j := LastNaming(c, n, k.0);
      if j >= 0 then k.1 in c.draft.variants[j].attributes else k in t.attributeValues
  {
    var j := LastNaming(c, n, k.0);
    if k in NamedAttributes(c, n) {
      var i, a :| 0 <= i < n && a in c.draft.variants[i].attributes && LastNaming(c, n, VariantKey(c, i)) == i
        && k == (VariantKey(c, i), a);
    }
    if j >= 0 && k.1 in c.draft.variants[j].attributes {
      assert k == (VariantKey(c, j), k.1);
      assert k in NamedAttributes(c, n);
    }
  }

  /** DELETE and INSERT of one variant's attributes. */
  function AttributesWritten(before: map<(Uuid, string), string>, key: Uuid,
          m: map<string, string>): map<(Uuid, string), string>
  {
    (map k | k in before && k.0 != key :: before[k]) + (map a | a in m :: (key, a) := m[a])
  }

  lemma AttributesWrittenAt(before: map<(Uuid, string), string>, key: Uuid, m: map<string, string>, k: (Uuid, string))
    ensures var after := AttributesWritten(before, key, m);
      && (k in after <==> if k.0 == key then k.1 in m else k in before)
      && (k in after ==> after[k] == if k.0 == key then m[k.1] else before[k])
  {
    if k.0 == key && k.1 in m { assert k == (key, k.1); }
  }

  lemma AttributeValueStep(t: Tables, c: Call, i: nat, k: (Uuid, string))
    requires Wanted(c) && i < |c.draft.variants| && k in AttributesAfter(t, c, i + 1)
    ensures k.0 != VariantKey(c, i) ==> k in AttributesAfter(t, c, i)
    ensures AttributesAfter(t, c, i + 1)[k] ==
      if k.0 == VariantKey(c, i) then c.draft.variants[i].attributes[k.1] else AttributesAfter(t, c, i)[k]
  {
    AttributeKeysStep(t, c, i, k);
    assert LastNaming(c, i + 1, k.0) == if k.0 == VariantKey(c, i) then i else LastNaming(c, i, k.0);
  }

  lemma AttributesStepAt(t: Tables, c: Call, i: nat, k: (Uuid, string))
    requires Wanted(c) && i < |c.draft.variants|
    ensures var after, mine := AttributesAfter(t, c, i + 1),
      AttributesWritten(AttributesAfter(t, c, i), VariantKey(c, i), c.draft.variants[i].attributes);
      (k in mine <==> k in after) && (k in after ==> mine[k] == after[k])
  {
    AttributeKeysStep(t, c, i, k);
    AttributesWrittenAt(AttributesAfter(t, c, i), VariantKey(c, i), c.draft.variants[i].attributes, k);
    if k in AttributesAfter(t, c, i + 1) { AttributeValueStep(t, c, i, k); }
  }

  lemma AttributesAfterStep(t: Tables, c: Call, i: nat)
    requires Wanted(c) && i < |c.draft.variants|
    ensures AttributesWritten(AttributesAfter(t, c, i), VariantKey(c, i), c.draft.variants[i].attributes) ==
      AttributesAfter(t, c, i + 1)
  {
    forall k { AttributesStepAt(t, c, i, k); }
  }

  ghost predicate PassedSoFar(t: Tables, c: Call, n: nat)
    requires Wanted(c) && n <= |c.draft.variants|
  {
    forall i :: 0 <= i < n ==> VariantFailure(t, c, i).None?
  }

  lemma {:induction false} VariantsFailureIsFirst(t: Tables, c: Call, i: nat)
    requires Wanted(c) && i <= |c.draft.variants|
    ensures VariantsFailure(t, c, i).None? <==>
      forall k :: i <= k < |c.draft.variants| ==> VariantFailure(t, c, k).None?
    decreases |c.draft.variants| - i
  {
    if i < |c.draft.variants| { VariantsFailureIsFirst(t, c, i + 1); }
  }

  lemma NamedIsOwnedOrMinted(t: Tables, c: Call, n: nat, i: nat)
    requires Wanted(c) && i < n <= |c.draft.variants| && PassedSoFar(t, c, n)
    ensures Owns(t, Key(c), VariantKey(c, i)) || (c.draft.variants[i].id.None? && VariantKey(c, i) == c.minted[i + 1])
  {
    assert VariantFailure(t, c, i).None?;
  }

  /** Ownership seen in the middle of the loop is ownership at the start: new keys are not guessable. */
  lemma SameOwnership(t: Tables, c: Call, i: nat)
    requires OracleFresh(t, c) && i < |c.draft.variants| && PassedSoFar(t, c, i)
    ensures var m, key := VariantsAfter(t, c, i), VariantKey(c, i);
      && (c.draft.variants[i].id.Some? ==> (key in m && m[key].product == Key(c) <==> Owns(t, Key(c), key)))
      && (c.draft.variants[i].id.None? ==> key !in m)
  {
    var m, key := VariantsAfter(t, c, i), VariantKey(c, i);
    LastNamingIsNamed(c, i, key);
    var j := LastNaming(c, i, key);
    if j >= 0 {
      NamedIsOwnedOrMinted(t, c, i, j);
    } else if c.draft.variants[i].id.None? {
      assert c.minted[i + 1] in c.minted;
    }
  }

  // An accepted call, and what the tables still promise after it.

  lemma AcceptedMeans(t: Tables, c: Call)
    requires Wanted(c) && Verdict(t, c).None?
    ensures TargetFailure(t, c).None? && ProductFailure(t, c).None? && TranslationFailure(c).None?
    ensures LinkFailure(c.draft.categoryIds, |c.draft.categoryIds|, t.refs.categories).None?
    ensures LinkFailure(c.draft.mediaIds, 10, t.refs.media).None?
    ensures PassedSoFar(t, c, |c.draft.variants|)
    ensures c.actor in t.refs.users
  {
    VariantsFailureIsFirst(t, c, 0);
  }

  lemma NewInRow(ids: seq<string>, positions: nat, i: nat)
    requires i < |ids| && RowFailure(ids, positions, i).None?
    ensures RowFailure(ids, positions, i + 1).None? && IsUuid(ids[i]) && i < positions
    ensures forall j :: 0 <= j < i ==> Canon(ids[j]) != Canon(ids[i])
  {
    hide Canon, IsUuid;
  }

  lemma {:induction false} RowFailureNone(ids: seq<string>, positions: nat, i: nat, k: nat)
    requires i <= k < |ids| && RowFailure(ids, positions, i).None?
    ensures IsUuid(ids[k]) && k < positions && forall j :: 0 <= j < k ==> Canon(ids[j]) != Canon(ids[k])
    decreases k - i
  {
    hide *;
    NewInRow(ids, positions, i);
    if i < k { RowFailureNone(ids, positions, i + 1, k); }
  }

  lemma InCanonSet(ids: seq<string>, k: nat)
    requires k < |ids|
    ensures Canon(ids[k]) in CanonSet(ids)
  {
    hide Canon;
  }

  lemma LinkFailureNone(ids: seq<string>, positions: nat, known: set<Uuid>)
    requires LinkFailure(ids, positions, known).None?
    ensures forall k :: 0 <= k < |ids| ==> IsUuid(ids[k]) && k < positions && Canon(ids[k]) in known
    ensures forall j, k :: 0 <= j < k < |ids| ==> Canon(ids[j]) != Canon(ids[k])
  {
    hide Canon, IsUuid, CanonSet, RowFailure;
    assert RowFailure(ids, positions, 0).None? && CanonSet(ids) <= known;
    forall k | 0 <= k < |ids| ensures IsUuid(ids[k]) && k < positions && Canon(ids[k]) in known {
      RowFailureNone(ids, positions, 0, k);
      InCanonSet(ids, k);
    }
    forall j, k | 0 <= j < k < |ids| ensures Canon(ids[j]) != Canon(ids[k]) {
      RowFailureNone(ids, positions, 0, k);
    }
  }

  lemma OneMoreSku(m: map<Uuid, VariantRow>, v: Uuid, row: VariantRow)
    requires UniqueSkus(m) && forall w :: w in m && w != v ==> m[w].sku != row.sku
    ensures UniqueSkus(m[v := row])
  {
  }

  lemma {:induction false} SkusStayUnique(t: Tables, c: Call, n: nat)
    requires Wanted(c) && n <= |c.draft.variants| && UniqueSkus(t.variants) && PassedSoFar(t, c, n)
    ensures UniqueSkus(VariantsAfter(t, c, n))
  {
    hide VariantsAfter;
    if n == 0 {
      NothingNamedYet(t, c);
    } else {
      SkusStayUnique(t, c, n - 1);
      VariantsAfterStep(t, c, n - 1);
      assert VariantFailure(t, c, n - 1).None?;
      assert !SkuHeld(t, c, n - 1);
      OneMoreSku(VariantsAfter(t, c, n - 1), VariantKey(c, n - 1), VariantRowOf(c, n - 1));
    }
  }

  lemma SweptKeepsSkus(t: Tables, c: Call)
    requires Wanted(c) && UniqueSkus(VariantsAfter(t, c, |c.draft.variants|))
    ensures UniqueSkus(VariantsSwept(t, c))
  {
    var m, w := VariantsAfter(t, c, |c.draft.variants|), VariantsSwept(t, c);
    assert w.Keys == m.Keys && forall v :: v in m ==> w[v].sku == m[v].sku;
  }

  lemma PositionOfEach(ids: seq<string>, i: nat)
    requires i < |ids|
    requires forall j, k :: 0 <= j < k < |ids| ==> Canon(ids[j]) != Canon(ids[k])
    ensures Canon(ids[i]) in CanonSet(ids) && PositionIn(ids, Canon(ids[i])) == i
  {
  }

  lemma ImageAt(before: map<(Uuid, Uuid), int>, pid: Uuid, ids: seq<string>, k: (Uuid, Uuid))
    ensures var after := ImagesAfter(before, pid, ids);
      && (k in after <==> if k.0 == pid then k.1 in CanonSet(ids) else k in before)
      && (k in after ==> after[k] == if k.0 == pid then PositionIn(ids, k.1) else before[k])
  {
    hide CanonSet, PositionIn;
  }

  lemma ImagesStaySound(t: Tables, pid: Uuid, ids: seq<string>, products: set<Uuid>)
    requires UniquePositions(t.images) && ImagesSound(t.images, products, t.refs)
    requires LinkFailure(ids, 10, t.refs.media).None?
    ensures UniquePositions(ImagesAfter(t.images, pid, ids))
      && ImagesSound(ImagesAfter(t.images, pid, ids), products + {pid}, t.refs)
  {
    LinkFailureNone(ids, 10, t.refs.media);
    forall k { ImageAt(t.images, pid, ids, k); }
    hide LinkFailure, Canon, ImagesAfter, CanonSet;
    var after := ImagesAfter(t.images, pid, ids);
    forall j, k | j in after && k in after && j.0 == k.0 && after[j] == after[k] ensures j == k {
      if j.0 == pid { assert Canon(ids[after[j]]) == j.1 && Canon(ids[after[k]]) == k.1; }
    }
  }

  lemma LinksStaySound(t: Tables, pid: Uuid, ids: seq<string>, products: set<Uuid>)
    requires LinksSound(t.productCategories, products, t.refs) && LinkFailure(ids, |ids|, t.refs.categories).None?
    ensures LinksSound(CategoriesAfter(t.productCategories, pid, ids), products + {pid}, t.refs)
  {
    LinkFailureNone(ids, |ids|, t.refs.categories);
  }

  lemma ProductsStaySound(t: Tables, c: Call)
    requires Wanted(c) && TargetFailure(t, c).None? && ProductFailure(t, c).None?
    requires UniqueSlugs(t.products) && ProductsSound(t.products, t.refs)
    ensures UniqueSlugs(t.products[Key(c) := ProductRowAfter(t, c)])
    ensures ProductsSound(t.products[Key(c) := ProductRowAfter(t, c)], t.refs)
  {
    assert !SlugTaken(t, Key(c), c.draft.slug);
  }

  /** Rows the loop leaves behind are either untouched or written by a checked draft variant. */
  lemma WrittenOrUntouched(t: Tables, c: Call, v: Uuid)
    requires Wanted(c) && v in VariantsSwept(t, c)
    ensures var r := VariantsSwept(t, c)[v];
      var j := LastNaming(c, |c.draft.variants|, v);
      if j >= 0 then r == VariantRowOf(c, j)
      else v in t.variants && r == if Owns(t, Key(c), v) then t.variants[v].(active := false) else t.variants[v]
  {
    LastNamingIsNamed(c, |c.draft.variants|, v);
  }

  lemma VariantsStaySound(t: Tables, c: Call, products: set<Uuid>)
    requires Wanted(c) && PassedSoFar(t, c, |c.draft.variants|) && VariantsSound(t.variants, products)
    ensures VariantsSound(VariantsSwept(t, c), products + {Key(c)})
  {
    var m := VariantsSwept(t, c);
    forall v | v in m ensures m[v].product in products + {Key(c)} && VariantChecks(m[v]) {
      WrittenOrUntouched(t, c, v);
      var j := LastNaming(c, |c.draft.variants|, v);
      if j >= 0 { assert VariantFailure(t, c, j).None?; }
    }
  }

  lemma PassedAt(t: Tables, c: Call, n: nat, i: nat)
    requires Wanted(c) && i < n <= |c.draft.variants| && PassedSoFar(t, c, n)
    ensures VariantChecks(VariantRowOf(c, i)) && AttributesStorable(t, c.draft.variants[i].attributes)
  {
    assert VariantFailure(t, c, i).None?;
  }

  lemma AttributeValue(t: Tables, c: Call, n: nat, k: (Uuid, string))
    requires Wanted(c) && n <= |c.draft.variants| && k in AttributesAfter(t, c, n)
    ensures var j := LastNaming(c, n, k.0);
      if j >= 0 then k.1 in c.draft.variants[j].attributes
        && AttributesAfter(t, c, n)[k] == c.draft.variants[j].attributes[k.1]
      else k in t.attributeValues && AttributesAfter(t, c, n)[k] == t.attributeValues[k]
  {
    AttributeKeys(t, c, n, k);
  }

  lemma ValueStaysSound(t: Tables, c: Call, k: (Uuid, string))
    requires Wanted(c) && PassedSoFar(t, c, |c.draft.variants|)
    requires ValuesSound(t.attributeValues, t.variants.Keys, t.refs)
    requires k in AttributesAfter(t, c, |c.draft.variants|)
    ensures k.0 in VariantsSwept(t, c) && k.1 in t.refs.attributes
      && |AttributesAfter(t, c, |c.draft.variants|)[k]| <= 300
  {
    var n := |c.draft.variants|;
    AttributeValue(t, c, n, k);
    LastNamingIsNamed(c, n, k.0);
    var j := LastNaming(c, n, k.0);
    if j >= 0 { PassedAt(t, c, n, j); }
  }

  lemma ValuesStaySound(t: Tables, c: Call)
    requires Wanted(c) && PassedSoFar(t, c, |c.draft.variants|)
    requires ValuesSound(t.attributeValues, t.variants.Keys, t.refs)
    ensures ValuesSound(AttributesAfter(t, c, |c.draft.variants|), VariantsSwept(t, c).Keys, t.refs)
  {
    var after := AttributesAfter(t, c, |c.draft.variants|);
    forall k | k in after ensures k.0 in VariantsSwept(t, c).Keys && k.1 in t.refs.attributes && |after[k]| <= 300 {
      ValueStaysSound(t, c, k);
    }
  }

  lemma SoundPieces(t: Tables, c: Call)
    requires Wanted(c) && Schema(t) && Verdict(t, c).None?
    ensures UniqueSlugs(Replaced(t, c).products) && ProductsSound(Replaced(t, c).products, t.refs)
    ensures LinksSound(Replaced(t, c).productCategories, t.products.Keys + {Key(c)}, t.refs)
    ensures UniquePositions(Replaced(t, c).images)
      && ImagesSound(Replaced(t, c).images, t.products.Keys + {Key(c)}, t.refs)
    ensures Replaced(t, c).products.Keys == t.products.Keys + {Key(c)}
  {
    AcceptedMeans(t, c);
    ProductsStaySound(t, c);
    LinksStaySound(t, Key(c), c.draft.categoryIds, t.products.Keys);
    ImagesStaySound(t, Key(c), c.draft.mediaIds, t.products.Keys);
  }

  lemma VariantPieces(t: Tables, c: Call)
    requires Wanted(c) && Schema(t) && Verdict(t, c).None?
    ensures UniqueSkus(Replaced(t, c).variants) && VariantsSound(Replaced(t, c).variants, t.products.Keys + {Key(c)})
    ensures ValuesSound(Replaced(t, c).attributeValues, Replaced(t, c).variants.Keys, t.refs)
  {
    AcceptedMeans(t, c);
    VariantsStaySound(t, c, t.products.Keys);
    ValuesStaySound(t, c);
    SkusStayUnique(t, c, |c.draft.variants|);
    SweptKeepsSkus(t, c);
  }

  lemma TranslationsStaySound(before: map<(Uuid, string), Translation>, products: set<Uuid>, c: Call)
    requires Wanted(c) && TranslationFailure(c).None? && TranslationsSound(before, products)
    ensures TranslationsSound(TranslationsAfter(before, Key(c), c.draft.translations), products + {Key(c)})
  {
  }

  lemma TranslationPieces(t: Tables, c: Call)
    requires Wanted(c) && Schema(t) && Verdict(t, c).None?
    ensures TranslationsSound(Replaced(t, c).translations, t.products.Keys + {Key(c)})
    ensures forall i :: 0 <= i < |Replaced(t, c).audit| ==> Replaced(t, c).audit[i].actor in t.refs.users
  {
    hide Verdict, ProductFailure, LinkFailure, VariantsFailure, TranslationsSound;
    hide UniqueSlugs, UniqueSkus, UniquePositions, ProductsSound, LinksSound, VariantsSound, ValuesSound, ImagesSound;
    hide VariantsSwept, AttributesAfter, CategoriesAfter, TranslationsAfter, ImagesAfter, ProductRowAfter;
    AcceptedMeans(t, c);
    TranslationsStaySound(t.translations, t.products.Keys, c);
  }

  /** SKUs, slugs and positions stay unique, references stay resolved, CHECKs stay true. */
  lemma ReplacedKeepsSchema(t: Tables, c: Call)
    requires Wanted(c) && Schema(t) && Verdict(t, c).None?
    ensures Schema(Replaced(t, c))
  {
    SoundPieces(t, c);
    VariantPieces(t, c);
    TranslationPieces(t, c);
  }
}
