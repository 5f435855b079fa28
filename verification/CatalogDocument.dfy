/** `catalog_document` row by row: what the document says of a product, and in which order. */
module CatalogDocument {
  import opened Wrappers
  import opened Uuids
  import opened Orders
  import opened CatalogTables

  lemma DocumentFields(t: Tables, coll: Collation, p: Uuid)
    requires coll.Valid() && Projectable(t, p)
    ensures var d, row := DocumentOf(t, coll, p), t.products[p];
      d.id == p && d.slug == row.slug && d.status == row.status && d.revision == row.revision && d.brandId == row.brand
  {
  }

  /** The category ids of the product, each once, in ascending order. */
  lemma DocumentCategories(t: Tables, coll: Collation, p: Uuid)
    requires coll.Valid() && Projectable(t, p)
    ensures var ids := DocumentOf(t, coll, p).categoryIds;
      && (forall x :: x in ids <==> (p, x) in t.productCategories)
      && (forall i, j :: 0 <= i < j < |ids| ==> ids[i] != ids[j] && coll.uuid(ids[i], ids[j]))
  {
    var ids, m := CategoryOrder(t, coll, p), Identity(CategoriesOf(t, p));
    forall x ensures x in CategoriesOf(t, p) <==> (p, x) in t.productCategories { LinkSeen(t.productCategories, p, x); }
    EnumerateLists(m, coll.uuid);
    forall i, j | 0 <= i < j < |ids| ensures ids[i] != ids[j] && coll.uuid(ids[i], ids[j]) {
      assert ids[i] in ids && ids[j] in ids;
      assert coll.uuid(m[ids[i]], m[ids[j]]);
    }
  }

  lemma LinkSeen(links: set<(Uuid, Uuid)>, p: Uuid, x: Uuid)
    ensures x in CategoriesIn(links, p) <==> (p, x) in links
  {
  }

  lemma DocumentTranslations(t: Tables, coll: Collation, p: Uuid, l: string)
    requires coll.Valid() && Projectable(t, p)
    ensures var m := DocumentOf(t, coll, p).translations;
      && (l in m <==> (p, l) in t.translations) && (l in m ==> m[l] == t.translations[(p, l)])
  {
    TranslationSeen(t.translations, p, l);
  }

  lemma TranslationSeen(rows: map<(Uuid, string), Translation>, p: Uuid, l: string)
    ensures l in LocalesIn(rows, p) <==> (p, l) in rows
  {
  }

  /** The entry tells of the row, price in lei, with exactly the attributes stored for it. */
  ghost predicate TellsOf(x: VariantDoc, t: Tables)
  {
    && x.id in t.variants
    && var row := t.variants[x.id];
       && x.sku == row.sku && x.name == row.name && x.priceMinor == row.price && x.active == row.active
       && x.currency == "MDL"
       && forall a :: (a in x.attributes <==> (x.id, a) in t.attributeValues)
            && (a in x.attributes ==> x.attributes[a] == t.attributeValues[(x.id, a)])
  }

  lemma EntryTellsOf(t: Tables, v: Uuid)
    requires v in t.variants
    ensures TellsOf(VariantDocOf(t, v), t) && VariantDocOf(t, v).id == v
  {
    forall a ensures a in CodesIn(t.attributeValues, v) <==> (v, a) in t.attributeValues {
      CodeSeen(t.attributeValues, v, a);
    }
  }

  lemma CodeSeen(rows: map<(Uuid, string), string>, v: Uuid, a: string)
    ensures a in CodesIn(rows, v) <==> (v, a) in rows
  {
  }

  lemma OrderOfVariants(t: Tables, coll: Collation, p: Uuid)
    requires coll.Valid() && Projectable(t, p)
    ensures var order := VariantOrder(t, coll, p);
      && (forall v :: v in order <==> v in t.variants && t.variants[v].product == p)
      && (forall i, j :: 0 <= i < j < |order| ==>
           order[i] != order[j] && coll.text(t.variants[order[i]].sku, t.variants[order[j]].sku))
  {
    var order, m := VariantOrder(t, coll, p), SkusOf(t, p);
    EnumerateLists(m, coll.text);
    forall i, j | 0 <= i < j < |order|
      ensures order[i] != order[j] && coll.text(t.variants[order[i]].sku, t.variants[order[j]].sku)
    {
      assert order[i] in order && order[j] in order;
      assert coll.text(m[order[i]], m[order[j]]);
    }
  }

  lemma EntryAt(t: Tables, coll: Collation, p: Uuid, i: nat)
    requires coll.Valid() && Projectable(t, p)
    ensures |DocumentOf(t, coll, p).variants| == |VariantOrder(t, coll, p)|
    ensures i < |VariantOrder(t, coll, p)| ==>
      var x, v := DocumentOf(t, coll, p).variants[i], VariantOrder(t, coll, p)[i];
      TellsOf(x, t) && x.id == v && v in t.variants && t.variants[v].product == p && x.sku == t.variants[v].sku
  {
    if i < |VariantOrder(t, coll, p)| { EntryTellsOf(t, VariantOrder(t, coll, p)[i]); }
  }

  ghost predicate VariantFollows(x: VariantDoc, y: VariantDoc, coll: Collation)
  {
    x.id != y.id && coll.text(x.sku, y.sku)
  }

  lemma EntriesFollow(t: Tables, coll: Collation, p: Uuid, i: nat, j: nat)
    requires coll.Valid() && Projectable(t, p) && i < j < |DocumentOf(t, coll, p).variants|
    ensures VariantFollows(DocumentOf(t, coll, p).variants[i], DocumentOf(t, coll, p).variants[j], coll)
  {
    OrderOfVariants(t, coll, p);
    EntryAt(t, coll, p, i);
    EntryAt(t, coll, p, j);
    hide DocumentOf, VariantOrder, Projectable, TellsOf;
    var xs, order := DocumentOf(t, coll, p).variants, VariantOrder(t, coll, p);
    assert xs[i].id == order[i] && xs[j].id == order[j];
  }

  lemma EveryRowListed(t: Tables, coll: Collation, p: Uuid, v: Uuid)
    requires coll.Valid() && Projectable(t, p) && v in t.variants && t.variants[v].product == p
    ensures exists i :: 0 <= i < |DocumentOf(t, coll, p).variants| && DocumentOf(t, coll, p).variants[i].id == v
  {
    OrderOfVariants(t, coll, p);
    var xs, order := DocumentOf(t, coll, p).variants, VariantOrder(t, coll, p);
    var i :| 0 <= i < |order| && order[i] == v;
    EntryAt(t, coll, p, i);
    assert xs[i].id == v;
  }

  lemma EntriesTell(t: Tables, coll: Collation, p: Uuid)
    requires coll.Valid() && Projectable(t, p)
    ensures var xs := DocumentOf(t, coll, p).variants;
      forall i :: 0 <= i < |xs| ==> TellsOf(xs[i], t) && t.variants[xs[i].id].product == p
  {
    forall i: nat { EntryAt(t, coll, p, i); }
  }

  lemma EntriesAscend(t: Tables, coll: Collation, p: Uuid)
    requires coll.Valid() && Projectable(t, p)
    ensures var xs := DocumentOf(t, coll, p).variants;
      forall i, j :: 0 <= i < j < |xs| ==> xs[i].id != xs[j].id && coll.text(xs[i].sku, xs[j].sku)
  {
    forall i: nat, j: nat | i < j < |DocumentOf(t, coll, p).variants|
      ensures VariantFollows(DocumentOf(t, coll, p).variants[i], DocumentOf(t, coll, p).variants[j], coll)
    {
      EntriesFollow(t, coll, p, i, j);
    }
    hide DocumentOf, Projectable;
  }

  lemma RowsListed(t: Tables, coll: Collation, p: Uuid)
    requires coll.Valid() && Projectable(t, p)
    ensures var xs := DocumentOf(t, coll, p).variants;
      forall v :: v in t.variants && t.variants[v].product == p ==> exists i :: 0 <= i < |xs| && xs[i].id == v
  {
    forall v | v in t.variants && t.variants[v].product == p { EveryRowListed(t, coll, p, v); }
  }

  /** Each variant row of the product once, as it is stored, by ascending SKU. */
  lemma DocumentVariants(t: Tables, coll: Collation, p: Uuid)
    requires coll.Valid() && Projectable(t, p)
    ensures var xs := DocumentOf(t, coll, p).variants;
      && (forall i :: 0 <= i < |xs| ==> TellsOf(xs[i], t) && t.variants[xs[i].id].product == p)
      && (forall v :: v in t.variants && t.variants[v].product == p ==> exists i :: 0 <= i < |xs| && xs[i].id == v)
      && (forall i, j :: 0 <= i < j < |xs| ==> xs[i].id != xs[j].id && coll.text(xs[i].sku, xs[j].sku))
  {
    EntriesTell(t, coll, p);
    EntriesAscend(t, coll, p);
    RowsListed(t, coll, p);
  }

  ghost predicate Addresses(x: ImageDoc)
  {
    && x.url == "/api/v1/media/" + x.id + "/640.webp"
    && x.srcSet == [("/api/v1/media/" + x.id + "/320.webp", 320), ("/api/v1/media/" + x.id + "/640.webp", 640),
                    ("/api/v1/media/" + x.id + "/1280.webp", 1280)]
  }

  predicate Shows(t: Tables, p: Uuid, x: Uuid) { (p, x) in t.images }

  function Position(t: Tables, p: Uuid, x: Uuid): int
    requires Shows(t, p, x)
  {
    t.images[(p, x)]
  }

  predicate StandsBefore(t: Tables, p: Uuid, x: Uuid, y: Uuid)
  {
    Shows(t, p, x) && Shows(t, p, y) && Position(t, p, x) < Position(t, p, y)
  }

  lemma PositionSeen(t: Tables, p: Uuid, x: Uuid)
    ensures x in PositionsOf(t, p) <==> Shows(t, p, x)
    ensures Shows(t, p, x) ==> PositionsOf(t, p)[x] == Position(t, p, x)
  {
    var rows := t.images;
    assert x in MediaIn(rows, p) <==> (p, x) in rows;
  }

  lemma IntLeqIsTotal()
    ensures TotalOrder(IntLeq)
  {
  }

  lemma Ascending(m: map<Uuid, int>, i: nat, j: nat)
    requires Injective(m) && i < j < |Enumerate(m, IntLeq)|
    ensures var s := Enumerate(m, IntLeq);
      s[i] in m && s[j] in m && m[s[i]] < m[s[j]]
  {
    IntLeqIsTotal();
    hide Enumerate, TotalOrder;
    EnumerateLists(m, IntLeq);
    var s := Enumerate(m, IntLeq);
    assert s[i] in s && s[j] in s && s[i] != s[j];
    assert IntLeq(m[s[i]], m[s[j]]);
  }

  lemma ImagesAscend(t: Tables, p: Uuid, i: nat, j: nat)
    requires Projectable(t, p) && i < j < |ImageOrder(t, p)|
    ensures StandsBefore(t, p, ImageOrder(t, p)[i], ImageOrder(t, p)[j])
  {
    Ascending(PositionsOf(t, p), i, j);
    var order := ImageOrder(t, p);
    hide Enumerate, PositionsOf, Shows, Position, Injective;
    PositionSeen(t, p, order[i]);
    PositionSeen(t, p, order[j]);
  }

  lemma OrderOfImages(t: Tables, p: Uuid)
    requires Projectable(t, p)
    ensures var order := ImageOrder(t, p);
      && (forall x :: x in order <==> Shows(t, p, x))
      && (forall i, j :: 0 <= i < j < |order| ==> StandsBefore(t, p, order[i], order[j]))
  {
    forall x { PositionSeen(t, p, x); }
    hide ImageOrder, PositionsOf, Shows, StandsBefore;
    var order := ImageOrder(t, p);
    forall i: nat, j: nat | i < j < |order| ensures StandsBefore(t, p, order[i], order[j]) { ImagesAscend(t, p, i, j); }
  }

  lemma ImageEntryAt(t: Tables, coll: Collation, p: Uuid, i: nat)
    requires coll.Valid() && Projectable(t, p)
    ensures |DocumentOf(t, coll, p).images| == |ImageOrder(t, p)|
    ensures i < |ImageOrder(t, p)| ==>
      var x := DocumentOf(t, coll, p).images[i]; Addresses(x) && x.id == ImageOrder(t, p)[i]
  {
    hide ImageDocOf, Addresses;
    if i < |ImageOrder(t, p)| { AddressesOfImage(ImageOrder(t, p)[i]); }
  }

  lemma AddressesOfImage(id: Uuid)
    ensures Addresses(ImageDocOf(id)) && ImageDocOf(id).id == id
  {
    assert ImagePath(id, 320) == "/api/v1/media/" + id + "/320.webp";
    assert ImagePath(id, 640) == "/api/v1/media/" + id + "/640.webp";
    assert ImagePath(id, 1280) == "/api/v1/media/" + id + "/1280.webp";
    hide ImagePath;
  }

  /** Each image of the product once, by ascending position, with the addresses of its three sizes. */
  lemma DocumentImages(t: Tables, coll: Collation, p: Uuid)
    requires coll.Valid() && Projectable(t, p)
    ensures var xs := DocumentOf(t, coll, p).images;
      && (forall i :: 0 <= i < |xs| ==> Addresses(xs[i]) && Shows(t, p, xs[i].id))
      && (forall x :: Shows(t, p, x) ==> exists i :: 0 <= i < |xs| && xs[i].id == x)
      && (forall i, j :: 0 <= i < j < |xs| ==> StandsBefore(t, p, xs[i].id, xs[j].id))
  {
    OrderOfImages(t, p);
    forall i: nat { ImageEntryAt(t, coll, p, i); }
    var xs, order := DocumentOf(t, coll, p).images, ImageOrder(t, p);
    hide *;
    forall i | 0 <= i < |xs| ensures Addresses(xs[i]) && xs[i].id == order[i] && Shows(t, p, xs[i].id) {
      assert order[i] in order;
    }
    forall x | Shows(t, p, x) ensures exists i :: 0 <= i < |xs| && xs[i].id == x {
      var i :| 0 <= i < |order| && order[i] == x;
      assert xs[i].id == x;
    }
  }
}
