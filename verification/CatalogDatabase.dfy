/** `catalog_save` statement by statement over the tables it changes, proved to be the
    atomic replacement of `CatalogSaveSpec`. */
module CatalogDatabase {
  import opened Wrappers
  import opened Uuids
  import opened CatalogTables
  import opened CatalogSaveSpec
  import opened CatalogSaveProofs

  datatype SaveResult = Saved(document: Document) | Refused(failure: Failure)

  class Database {
    var products: map<Uuid, ProductRow>
    var productCategories: set<(Uuid, Uuid)>
    var translations: map<(Uuid, string), Translation>
    var variants: map<Uuid, VariantRow>
    var attributeValues: map<(Uuid, string), string>
    var images: map<(Uuid, Uuid), int>
    var audit: seq<AuditRow>
    var refs: References
    const collation: Collation

    constructor (collation: Collation, refs: References)
      ensures State() == Tables(map[], {}, map[], map[], map[], map[], [], refs)
      ensures this.collation == collation
    {
      this.collation := collation;
      this.refs := refs;
      products, productCategories, translations := map[], {}, map[];
      variants, attributeValues, images, audit := map[], map[], map[], [];
    }

    function State(): Tables
      reads this
    {
      Tables(products, productCategories, translations, variants, attributeValues, images, audit, refs)
    }

    /** Back to the savepoint the EXCEPTION block opened. */
    method Rollback(saved: Tables)
      requires saved.refs == refs
      modifies this
      ensures State() == saved
    {
      products, productCategories, translations := saved.products, saved.productCategories, saved.translations;
      variants, attributeValues := saved.variants, saved.attributeValues;
      images, audit := saved.images, saved.audit;
    }

    /** The UPDATE or INSERT on `products`. */
    method WriteProduct(c: Call) returns (e: Option<Failure>)
      requires Wanted(c) && (c.target.Some? ==> c.target.value in products && 0 < products[c.target.value].revision)
      modifies `products
      ensures e == ProductFailure(old(State()), c)
      ensures e.None? ==> products == old(products)[Key(c) := ProductRowAfter(old(State()), c)]
    {
      var d := c.draft;
      if d.brandId.Some? && !IsUuid(d.brandId.value) { return Some(InvalidReference); }
      var brand := if d.brandId.Some? then Some(Canon(d.brandId.value)) else None;
      var key := if c.target.Some? then c.target.value else c.minted[0];
      var row;
      if c.target.Some? {
        if products[key].revision == MAX_REVISION { return Some(Aborted); }
        row := products[key].(slug := d.slug, brand := brand, status := d.status,
          revision := products[key].revision + 1);
      } else {
        row := ProductRow(d.slug, brand, d.status, 1, c.now);
      }
      if !ProductChecks(row) { return Some(InvalidReference); }
      if exists q :: q in products && q != key && products[q].slug == row.slug { return Some(DuplicateSlugOrSku); }
      products := products[key := row];
      if brand.Some? && brand.value !in refs.brands { return Some(InvalidReference); }
      e := None;
    }

    /** DELETE, then INSERT one category row after the other, then the foreign keys of the statement. */
    method ReplaceCategories(pid: Uuid, ids: seq<string>) returns (e: Option<Failure>)
      modifies `productCategories
      ensures e == LinkFailure(ids, |ids|, refs.categories)
      ensures e.None? ==> productCategories == CategoriesAfter(old(productCategories), pid, ids)
    {
      productCategories := set r | r in productCategories && r.0 != pid;
      ghost var kept := productCategories;
      var i := 0;
      while i < |ids|
        invariant 0 <= i <= |ids|
        invariant productCategories == kept + (set k | k in CanonSet(ids[..i]) :: (pid, k))
        invariant RowFailure(ids, |ids|, 0) == RowFailure(ids, |ids|, i)
      {
        if !IsUuid(ids[i]) { return Some(InvalidReference); }
        SeenEarlier(ids, i);
        if (pid, Canon(ids[i])) in productCategories { return Some(DuplicateSlugOrSku); }
        productCategories := productCategories + {(pid, Canon(ids[i]))};
        CanonSetPrefix(ids, i);
        i := i + 1;
      }
      assert ids[..i] == ids;
      assert forall k :: k in CanonSet(ids) ==> (pid, k) in productCategories;
      assert forall r :: r in productCategories && r.0 == pid ==> r.1 in CanonSet(ids);
      if exists r :: r in productCategories && r.0 == pid && r.1 !in refs.categories { return Some(InvalidReference); }
      e := None;
    }

    method ReplaceTranslations(pid: Uuid, c: Call) returns (e: Option<Failure>)
      modifies `translations
      ensures e == TranslationFailure(c)
      ensures e.None? ==> translations == TranslationsAfter(old(translations), pid, c.draft.translations)
    {
      hide TranslationFailure;
      var x := c.draft.translations;
      translations := map k | k in translations && k.0 != pid :: translations[k];
      e := CheckTranslations(c);
      if e.Some? { return; }
      translations := translations + (map l | l in x :: (pid, l) := x[l]);
    }

    /** The CHECKs on the rows to insert. */
    method CheckTranslations(c: Call) returns (e: Option<Failure>)
      ensures e == TranslationFailure(c)
    {
      hide TranslationChecks;
      var x := c.draft.translations;
      if exists l :: l in x && !TranslationChecks(l, x[l]) { return Some(InvalidReference); }
      e := None;
    }

    /** INSERT ... ON CONFLICT(id) DO UPDATE for the i-th draft variant. `t` is the state the call started from. */
    method UpsertVariant(c: Call, i: nat, ghost t: Tables) returns (e: Option<Failure>, key: Uuid)
      requires OracleFresh(t, c) && i < |c.draft.variants| && PassedSoFar(t, c, i)
      requires variants == VariantsAfter(t, c, i)
      modifies `variants
      ensures e == UpsertFailure(t, c, i)
      ensures e.None? ==> key == VariantKey(c, i) && variants == VariantsAfter(t, c, i + 1)
    {
      var d := c.draft.variants[i];
      var pid := Key(c);
      if d.id.Some? && !IsUuid(d.id.value) { return Some(InvalidReference), ""; }
      key := if d.id.Some? then Canon(d.id.value) else c.minted[i + 1];
      SameOwnership(t, c, i);
      if d.id.Some? && !(key in variants && variants[key].product == pid) { return Some(InvalidReference), key; }
      if !(-0x8000_0000_0000_0000 <= d.priceMinor < 0x8000_0000_0000_0000) { return Some(Aborted), key; }
      var row := VariantRow(pid, d.sku, d.name, d.priceMinor, d.active);
      if !VariantChecks(row) { return Some(InvalidReference), key; }
      if key in variants {
        row := variants[key].(sku := row.sku, name := row.name, price := row.price, active := row.active);
      }
      if exists v :: v in variants && v != key && variants[v].sku == row.sku { return Some(DuplicateSlugOrSku), key; }
      variants := variants[key := row];
      VariantsAfterStep(t, c, i);
      e := None;
    }

    method WriteAttributes(key: Uuid, m: map<string, string>) returns (e: Option<Failure>)
      modifies `attributeValues
      ensures e.None? ==> attributeValues == AttributesWritten(old(attributeValues), key, m)
      ensures e == if AttributesStorable(State(), m) then None else Some(InvalidReference)
    {
      attributeValues := map k | k in attributeValues && k.0 != key :: attributeValues[k];
      if exists a :: a in m && |m[a]| > 300 { return Some(InvalidReference); }
      attributeValues := attributeValues + (map a | a in m :: (key, a) := m[a]);
      if exists a :: a in m && a !in refs.attributes { return Some(InvalidReference); }
      e := None;
    }

    /** The variant loop with its `retained` array. `t` is the state the call started from. */
    method WriteVariants(c: Call, ghost t: Tables) returns (e: Option<Failure>, retained: seq<Uuid>)
      requires OracleFresh(t, c) && variants == t.variants && attributeValues == t.attributeValues && refs == t.refs
      modifies `variants, `attributeValues
      ensures e == VariantsFailure(t, c, 0)
      ensures e.None? ==> variants == VariantsAfter(t, c, |c.draft.variants|)
      ensures e.None? ==> attributeValues == AttributesAfter(t, c, |c.draft.variants|)
      ensures e.None? ==> |retained| == |c.draft.variants| && forall k :: 0 <= k < |retained| ==>
        retained[k] == VariantKey(c, k)
    {
      retained := [];
      NothingNamedYet(t, c);
      var i := 0;
      while i < |c.draft.variants|
        invariant 0 <= i <= |c.draft.variants|
        invariant variants == VariantsAfter(t, c, i) && attributeValues == AttributesAfter(t, c, i)
        invariant |retained| == i && forall k :: 0 <= k < i ==> retained[k] == VariantKey(c, k)
        invariant PassedSoFar(t, c, i) && VariantsFailure(t, c, 0) == VariantsFailure(t, c, i)
      {
        var key;
        e, key := WriteVariant(c, i, t);
        if e.Some? { return; }
        retained := retained + [key];
        i := i + 1;
      }
      e := None;
    }

    /** One turn of the loop: the upsert, then the attributes. */
    method WriteVariant(c: Call, i: nat, ghost t: Tables) returns (e: Option<Failure>, key: Uuid)
      requires OracleFresh(t, c) && i < |c.draft.variants| && PassedSoFar(t, c, i) && refs == t.refs
      requires variants == VariantsAfter(t, c, i) && attributeValues == AttributesAfter(t, c, i)
      modifies `variants, `attributeValues
      ensures e == VariantFailure(t, c, i)
      ensures e.None? ==> key == VariantKey(c, i)
      ensures e.None? ==> variants == VariantsAfter(t, c, i + 1) && attributeValues == AttributesAfter(t, c, i + 1)
    {
      e, key := UpsertVariant(c, i, t);
      if e.Some? { return; }
      e := WriteAttributes(key, c.draft.variants[i].attributes);
      if e.Some? { return; }
      AttributesAfterStep(t, c, i);
    }

    method DeactivateOthers(pid: Uuid, retained: seq<Uuid>)
      modifies `variants
      ensures variants == Sweep(old(variants), pid, retained)
    {
      variants := map v | v in variants :: if variants[v].product == pid && v !in retained
        then variants[v].(active := false) else variants[v];
    }

    method InsertImages(pid: Uuid, ids: seq<string>) returns (e: Option<Failure>)
      requires forall k :: k in images ==> k.0 != pid
      modifies `images
      ensures e == RowFailure(ids, 10, 0)
      ensures e.None? ==> images == ImagesWritten(old(images), pid, ids)
    {
      ghost var kept := images;
      var i := 0;
      assert images == ImagesWritten(kept, pid, ids[..i]);
      while i < |ids|
        invariant 0 <= i <= |ids|
        invariant images == ImagesWritten(kept, pid, ids[..i])
        invariant RowFailure(ids, 10, 0) == RowFailure(ids, 10, i)
      {
        if !IsUuid(ids[i]) || i >= 10 { return Some(InvalidReference); }
        SeenEarlier(ids, i);
        ImagesWrittenKeys(kept, pid, ids[..i]);
        if (pid, Canon(ids[i])) in images { return Some(DuplicateSlugOrSku); }
        images := images[(pid, Canon(ids[i])) := i];
        ImagesWrittenStep(kept, pid, ids, i);
        i := i + 1;
      }
      assert ids[..i] == ids;
      e := None;
    }

    /** DELETE, then INSERT the images with their ordinal positions, then the foreign keys of the statement. */
    method ReplaceImages(pid: Uuid, ids: seq<string>) returns (e: Option<Failure>)
      modifies `images
      ensures e == LinkFailure(ids, 10, refs.media)
      ensures e.None? ==> images == ImagesAfter(old(images), pid, ids)
    {
      hide Canon, CanonSet, PositionIn, ImagesWritten, RowFailure;
      images := map k | k in images && k.0 != pid :: images[k];
      ghost var kept := images;
      e := InsertImages(pid, ids);
      if e.Some? { return; }
      UnknownImage(kept, pid, ids, refs.media);
      if exists k :: k in images && k.0 == pid && k.1 !in refs.media { return Some(InvalidReference); }
      WrittenIsAfter(old(images), pid, ids);
      e := None;
    }

    /** The statements on the product, its categories and its translations. */
    method WriteHead(c: Call) returns (e: Option<Failure>)
      requires Wanted(c) && (c.target.Some? ==> c.target.value in products && 0 < products[c.target.value].revision)
      modifies `products, `productCategories, `translations
      ensures e == HeadFailure(old(State()), c)
      ensures e.None? ==> products == old(products)[Key(c) := ProductRowAfter(old(State()), c)]
      ensures e.None? ==> productCategories == CategoriesAfter(old(productCategories), Key(c), c.draft.categoryIds)
      ensures e.None? ==> translations == TranslationsAfter(old(translations), Key(c), c.draft.translations)
    {
      hide ProductFailure, LinkFailure, TranslationFailure, ProductRowAfter, CategoriesAfter, TranslationsAfter;
      e := WriteProduct(c);
      if e.Some? { return; }
      e := ReplaceCategories(Key(c), c.draft.categoryIds);
      if e.Some? { return; }
      e := ReplaceTranslations(Key(c), c);
    }

    /** The statements on variants, images and the audit log; `previous` is the revision read before the update. */
    method WriteTail(c: Call, previous: Option<int>, ghost t: Tables) returns (e: Option<Failure>)
      requires OracleFresh(t, c) && variants == t.variants && attributeValues == t.attributeValues && refs == t.refs
      requires Key(c) in products
      modifies `variants, `attributeValues, `images, `audit
      ensures e == TailFailure(t, c)
      ensures e.None? ==> variants == VariantsSwept(t, c)
      ensures e.None? ==> attributeValues == AttributesAfter(t, c, |c.draft.variants|)
      ensures e.None? ==> images == ImagesAfter(old(images), Key(c), c.draft.mediaIds)
      ensures e.None? ==> audit == old(audit) + [AuditEntry(c, previous, products[Key(c)].revision)]
    {
      var retained;
      e, retained := WriteVariants(c, t);
      if e.Some? { return; }
      DeactivateOthers(Key(c), retained);
      SweepIsDeclared(t, c, retained);
      e := ReplaceImages(Key(c), c.draft.mediaIds);
      if e.Some? { return; }
      if c.actor !in refs.users { return Some(InvalidReference); }
      var action := if c.target.Some? then "product.updated" else "product.created";
      var row := AuditRow(c.actor, action, Key(c), c.request, previous, products[Key(c)].revision, c.draft.status);
      audit := audit + [row];
    }

    /** Everything between the target check and RETURN. On an error the tables are in between. */
    method WriteAll(c: Call) returns (e: Option<Failure>)
      requires OracleFresh(State(), c) && TargetFailure(State(), c).None?
      requires c.target.Some? ==> 0 < products[c.target.value].revision
      modifies this
      ensures refs == old(refs)
      ensures e == Verdict(old(State()), c)
      ensures e.None? ==> State() == Replaced(old(State()), c)
    {
      hide HeadFailure, TailFailure, VariantsSwept, AttributesAfter, CategoriesAfter, TranslationsAfter, ImagesAfter;
      ghost var t := State();
      var previous := if c.target.Some? then Some(products[c.target.value].revision) else None;
      e := WriteHead(c);
      if e.Some? { return; }
      e := WriteTail(c, previous, t);
    }

    /** `catalog_save`. */
    method CatalogSave(c: Call) returns (r: SaveResult)
      requires collation.Valid() && OracleFresh(State(), c) && Schema(State())
      modifies this
      ensures Verdict(old(State()), c).Some? ==> State() == old(State()) && r == Refused(Verdict(old(State()), c).value)
      ensures Verdict(old(State()), c).None? ==>
        && State() == Replaced(old(State()), c)
        && Schema(State()) && Projectable(State(), Key(c))
        && r == Saved(DocumentOf(State(), collation, Key(c)))
    {
      if c.target.Some? {
        if c.target.value !in products { return Refused(NotFound); }
        SchemaIsProjectable(State(), c.target.value);
        var previous := DocumentOf(State(), collation, c.target.value);
        if c.expected != Some(previous.revision) { return Refused(RevisionConflict); }
      }
      var saved := State();
      var e := WriteAll(c);
      if e.Some? {
        Rollback(saved);
        return Refused(e.value);
      }
      ReplacedKeepsSchema(saved, c);
      SchemaIsProjectable(State(), Key(c));
      r := Saved(DocumentOf(State(), collation, Key(c)));
    }
  }
}
