/** `Repository::list` and `find`: the SQL as it is written, and what it selects. */
module CatalogQuery {
  import opened Wrappers
  import opened Uuids
  import opened Orders
  import opened CatalogTables

  datatype Filter = Filter(locale: string, query: string, category: string, brand: string, sort: string,
                           page: nat, limit: nat, minPrice: int, maxPrice: int)

  /** Whether a translation answers a search text; full text search and ILIKE are not modelled further. */
  type Matcher = (string, Translation) -> bool

  datatype ListRow = ListRow(id: Uuid, createdAt: int, name: string, price: int)

  const MAX_PAGE: nat := 10000

  // The query: join, filter, group, aggregate.

  predicate ProductSelected(t: Tables, f: Filter, admin: bool, m: Matcher, p: Uuid)
  {
    && p in t.products && (p, f.locale) in t.translations
    && (admin || t.products[p].status == "active")
    && (f.query == "" || m(f.query, t.translations[(p, f.locale)]))
    && (f.category == "" || (p, Canon(f.category)) in t.productCategories)
    && (f.brand == "" || t.products[p].brand == Some(Canon(f.brand)))
  }

  predicate VariantSelected(t: Tables, f: Filter, admin: bool, p: Uuid, v: Uuid)
  {
    v in t.variants && t.variants[v].product == p && (admin || t.variants[v].active)
      && f.minPrice <= t.variants[v].price <= f.maxPrice
  }

  /** FROM products JOIN product_translations JOIN product_variants WHERE ... */
  function Joined(t: Tables, f: Filter, admin: bool, m: Matcher): set<(Uuid, Uuid)>
  {
    set p, v | p in t.products && v in t.variants && ProductSelected(t, f, admin, m, p)
      && VariantSelected(t, f, admin, p, v) :: (p, v)
  }

  function NameOf(t: Tables, f: Filter, p: Uuid): string
    requires (p, f.locale) in t.translations
  {
    t.translations[(p, f.locale)].name
  }

  /** GROUP BY p.id, t.name */
  function Groups(t: Tables, f: Filter, admin: bool, m: Matcher): set<(Uuid, string)>
  {
    set r | r in Joined(t, f, admin, m) :: (r.0, NameOf(t, f, r.0))
  }

  function GroupPrices(t: Tables, f: Filter, admin: bool, m: Matcher, g: (Uuid, string)): set<int>
  {
    set r | r in Joined(t, f, admin, m) && r.0 == g.0 && NameOf(t, f, r.0) == g.1 :: t.variants[r.1].price
  }

  ghost predicate IsMin(x: int, s: set<int>)
  {
    x in s && forall y :: y in s ==> x <= y
  }

  ghost function Min(s: set<int>): (x: int)
    requires exists y :: y in s
    ensures IsMin(x, s)
  {
    var y :| y in s;
    LeastNumber(s, y);
    var x :| IsMin(x, s);
    x
  }

  lemma {:induction false} LeastNumber(s: set<int>, x: int)
    requires x in s
    ensures exists z :: IsMin(z, s)
    decreases s
  {
    var rest := s - {x};
    assert forall y :: y in s ==> y == x || y in rest;
    if y :| y in rest {
      LeastNumber(rest, y);
      var z :| IsMin(z, rest);
      assert IsMin(if x <= z then x else z, s);
    } else {
      assert IsMin(x, s);
    }
  }

  /** One row per group, with the least price in it. */
  ghost function Filtered(t: Tables, f: Filter, admin: bool, m: Matcher): set<ListRow>
  {
    set g | g in Groups(t, f, admin, m) :: GroupRow(t, f, admin, m, g)
  }

  ghost function GroupRow(t: Tables, f: Filter, admin: bool, m: Matcher, g: (Uuid, string)): ListRow
    requires g in Groups(t, f, admin, m)
  {
    GroupNotEmpty(t, f, admin, m, g);
    ListRow(g.0, t.products[g.0].createdAt, g.1, Min(GroupPrices(t, f, admin, m, g)))
  }

  lemma GroupNotEmpty(t: Tables, f: Filter, admin: bool, m: Matcher, g: (Uuid, string))
    requires g in Groups(t, f, admin, m)
    ensures g.0 in t.products && exists x :: x in GroupPrices(t, f, admin, m, g)
  {
    var r :| r in Joined(t, f, admin, m) && g == (r.0, NameOf(t, f, r.0));
    assert t.variants[r.1].price in GroupPrices(t, f, admin, m, g);
  }

  // The direct definition.

  predicate Matches(t: Tables, f: Filter, admin: bool, m: Matcher, p: Uuid)
  {
    ProductSelected(t, f, admin, m, p) && exists v :: v in t.variants && VariantSelected(t, f, admin, p, v)
  }

  function MatchSet(t: Tables, f: Filter, admin: bool, m: Matcher): set<Uuid>
  {
    set p | p in t.products && Matches(t, f, admin, m, p)
  }

  ghost predicate LeastPrice(t: Tables, f: Filter, admin: bool, p: Uuid, price: int)
  {
    && (exists v :: VariantSelected(t, f, admin, p, v) && t.variants[v].price == price)
    && (forall v :: VariantSelected(t, f, admin, p, v) ==> price <= t.variants[v].price)
  }

  ghost predicate RowMeans(t: Tables, f: Filter, admin: bool, m: Matcher, row: ListRow)
  {
    && Matches(t, f, admin, m, row.id)
    && row.createdAt == t.products[row.id].createdAt && row.name == NameOf(t, f, row.id)
    && LeastPrice(t, f, admin, row.id, row.price)
  }

  lemma GroupIsMatch(t: Tables, f: Filter, admin: bool, m: Matcher, g: (Uuid, string))
    ensures g in Groups(t, f, admin, m) <==> Matches(t, f, admin, m, g.0) && g.1 == NameOf(t, f, g.0)
  {
    if g in Groups(t, f, admin, m) {
      var r :| r in Joined(t, f, admin, m) && g == (r.0, NameOf(t, f, r.0));
    }
    if Matches(t, f, admin, m, g.0) && g.1 == NameOf(t, f, g.0) {
      var v :| v in t.variants && VariantSelected(t, f, admin, g.0, v);
      assert (g.0, v) in Joined(t, f, admin, m);
      assert g == (g.0, NameOf(t, f, g.0));
    }
  }

  lemma GroupRowMeans(t: Tables, f: Filter, admin: bool, m: Matcher, g: (Uuid, string))
    requires g in Groups(t, f, admin, m)
    ensures RowMeans(t, f, admin, m, GroupRow(t, f, admin, m, g))
  {
    GroupIsMatch(t, f, admin, m, g);
    GroupNotEmpty(t, f, admin, m, g);
    var prices := GroupPrices(t, f, admin, m, g);
    var row := GroupRow(t, f, admin, m, g);
    assert row.price in prices;
    var r :| r in Joined(t, f, admin, m) && r.0 == g.0 && t.variants[r.1].price == row.price;
    assert VariantSelected(t, f, admin, g.0, r.1);
    forall v | VariantSelected(t, f, admin, g.0, v) ensures row.price <= t.variants[v].price {
      assert (g.0, v) in Joined(t, f, admin, m);
      assert t.variants[v].price in prices;
    }
  }

  lemma LeastPriceIsUnique(t: Tables, f: Filter, admin: bool, p: Uuid, x: int, y: int)
    requires LeastPrice(t, f, admin, p, x) && LeastPrice(t, f, admin, p, y)
    ensures x == y
  {
  }

  /** Join, price filter, grouping and `min` give one row for each product that matches, with the
      least price among its variants in range, and no other row. */
  lemma FilteredExactly(t: Tables, f: Filter, admin: bool, m: Matcher, row: ListRow)
    ensures row in Filtered(t, f, admin, m) <==> RowMeans(t, f, admin, m, row)
  {
    if row in Filtered(t, f, admin, m) {
      var g :| g in Groups(t, f, admin, m) && row == GroupRow(t, f, admin, m, g);
      GroupRowMeans(t, f, admin, m, g);
    }
    if RowMeans(t, f, admin, m, row) {
      var g := (row.id, row.name);
      GroupIsMatch(t, f, admin, m, g);
      GroupRowMeans(t, f, admin, m, g);
      LeastPriceIsUnique(t, f, admin, row.id, row.price, GroupRow(t, f, admin, m, g).price);
    }
  }

  /** A variant of the product that may be seen, at a price between the two. */
  predicate Offers(t: Tables, p: Uuid, v: Uuid, admin: bool, least: int, most: int)
  {
    v in t.variants && t.variants[v].product == p && (t.variants[v].active || admin)
    && t.variants[v].price >= least && t.variants[v].price <= most
  }

  /** The list, said of the tables: a row for each product that has a translation in the locale, is active
      unless an administrator asks, answers the search text, is in the category, is of the brand, and has a
      variant that may be seen with a price in range; the row's price is the least of those. */
  lemma RowListedExactly(t: Tables, f: Filter, admin: bool, m: Matcher, row: ListRow)
    ensures row in Filtered(t, f, admin, m) <==>
      && row.id in t.products && (row.id, f.locale) in t.translations
      && (admin || t.products[row.id].status == "active")
      && (f.query == "" || m(f.query, t.translations[(row.id, f.locale)]))
      && (f.category == "" || (row.id, Canon(f.category)) in t.productCategories)
      && (f.brand == "" || t.products[row.id].brand == Some(Canon(f.brand)))
      && row.createdAt == t.products[row.id].createdAt && row.name == t.translations[(row.id, f.locale)].name
      && (exists v :: Offers(t, row.id, v, admin, f.minPrice, f.maxPrice) && t.variants[v].price == row.price)
      && (forall v :: Offers(t, row.id, v, admin, f.minPrice, f.maxPrice) ==> row.price <= t.variants[v].price)
  {
    FilteredExactly(t, f, admin, m, row);
    assert forall v ::
      VariantSelected(t, f, admin, row.id, v) <==> Offers(t, row.id, v, admin, f.minPrice, f.maxPrice);
    hide Filtered, Canon;
  }

  /** A product matches exactly when it has such a row. */
  lemma MatchesExactly(t: Tables, f: Filter, admin: bool, m: Matcher, p: Uuid)
    ensures Matches(t, f, admin, m, p) <==> exists row :: row in Filtered(t, f, admin, m) && row.id == p
  {
    if Matches(t, f, admin, m, p) { assert RowOf(t, f, admin, m, p).id == p; }
    if row :| row in Filtered(t, f, admin, m) && row.id == p { FilteredExactly(t, f, admin, m, row); }
  }

  /** The row of a matching product. */
  ghost function RowOf(t: Tables, f: Filter, admin: bool, m: Matcher, p: Uuid): (row: ListRow)
    requires Matches(t, f, admin, m, p)
    ensures row in Filtered(t, f, admin, m) && row.id == p
  {
    GroupIsMatch(t, f, admin, m, (p, NameOf(t, f, p)));
    GroupRow(t, f, admin, m, (p, NameOf(t, f, p)))
  }

  /** How many products the list reports, whatever the page. */
  ghost function Total(t: Tables, f: Filter, admin: bool, m: Matcher): nat
  {
    |Filtered(t, f, admin, m)|
  }

  lemma TotalCountsMatches(t: Tables, f: Filter, admin: bool, m: Matcher)
    ensures Total(t, f, admin, m) == |MatchSet(t, f, admin, m)|
  {
    hide Filtered, RowOf;
    var rows, ps := Filtered(t, f, admin, m), MatchSet(t, f, admin, m);
    forall row | row in rows ensures row.id in ps && row == RowOf(t, f, admin, m, row.id) {
      FilteredExactly(t, f, admin, m, row);
      OneRowPerProduct(t, f, admin, m, row, RowOf(t, f, admin, m, row.id));
    }
    var byId := map p | p in ps :: RowOf(t, f, admin, m, p);
    SameSize(ps, rows, byId);
  }

  lemma OneRowPerProduct(t: Tables, f: Filter, admin: bool, m: Matcher, a: ListRow, b: ListRow)
    requires a in Filtered(t, f, admin, m) && b in Filtered(t, f, admin, m) && a.id == b.id
    ensures a == b
  {
    FilteredExactly(t, f, admin, m, a);
    FilteredExactly(t, f, admin, m, b);
    LeastPriceIsUnique(t, f, admin, a.id, a.price, b.price);
  }

  lemma {:induction false} SameSize<A(!new), B(!new)>(a: set<A>, b: set<B>, image: map<A, B>)
    requires image.Keys == a && Injective(image) && forall y :: y in b <==> exists x :: x in a && image[x] == y
    ensures |a| == |b|
    decreases |a|
  {
    if a == {} {
      assert b == {};
    } else {
      var x :| x in a;
      var smaller := image - {x};
      forall y ensures y in b - {image[x]} <==> exists w :: w in a - {x} && smaller[w] == y {
        if y in b - {image[x]} { var w :| w in a && image[w] == y; assert w in a - {x} && smaller[w] == y; }
        if w :| w in a - {x} && smaller[w] == y { assert image[w] == y && w in a; }
      }
      SameSize(a - {x}, b - {image[x]}, smaller);
    }
  }
}
