/** Ordering and paging of the list. */
module CatalogPages {
  import opened Uuids
  import opened Orders
  import opened CatalogTables
  import opened CatalogQuery

  // ORDER BY.

  predicate TieBefore(coll: Collation, a: ListRow, b: ListRow)
  {
    a.createdAt > b.createdAt || (a.createdAt == b.createdAt && coll.uuid(a.id, b.id))
  }

  /** The three CASE columns, of which at most one is not NULL, then created_at DESC, id. */
  predicate RowBefore(coll: Collation, sort: string, a: ListRow, b: ListRow)
  {
    if sort == "price_asc" then a.price < b.price || (a.price == b.price && TieBefore(coll, a, b))
    else if sort == "price_desc" then a.price > b.price || (a.price == b.price && TieBefore(coll, a, b))
    else if sort == "name" then (a.name != b.name && coll.text(a.name, b.name))
      || (a.name == b.name && TieBefore(coll, a, b))
    else TieBefore(coll, a, b)
  }

  datatype SortKey = SortKey(rank: int, name: string, createdAt: int, id: Uuid)

  function KeyOf(sort: string, row: ListRow): SortKey
  {
    SortKey(if sort == "price_asc" then row.price else if sort == "price_desc" then -row.price else 0,
            if sort == "name" then row.name else "", row.createdAt, row.id)
  }

  predicate KeyLeq(coll: Collation, a: SortKey, b: SortKey)
  {
    if a.rank != b.rank then a.rank < b.rank
    else if a.name != b.name then coll.text(a.name, b.name)
    else if a.createdAt != b.createdAt then a.createdAt > b.createdAt
    else coll.uuid(a.id, b.id)
  }

  function KeyOrder(coll: Collation): (SortKey, SortKey) -> bool
  {
    (a, b) => KeyLeq(coll, a, b)
  }

  lemma KeyTransitive(coll: Collation, a: SortKey, b: SortKey, c: SortKey)
    requires coll.Valid() && KeyLeq(coll, a, b) && KeyLeq(coll, b, c)
    ensures KeyLeq(coll, a, c)
  {
    assert coll.text(a.name, b.name) && coll.text(b.name, c.name) ==> coll.text(a.name, c.name);
    assert coll.text(a.name, b.name) && coll.text(b.name, a.name) ==> a.name == b.name;
    assert coll.uuid(a.id, b.id) && coll.uuid(b.id, c.id) ==> coll.uuid(a.id, c.id);
  }

  lemma KeyOrderIsTotal(coll: Collation)
    requires coll.Valid()
    ensures TotalOrder(KeyOrder(coll))
  {
    var leq := KeyOrder(coll);
    forall a, b, c | leq(a, b) && leq(b, c) ensures leq(a, c) { KeyTransitive(coll, a, b, c); }
    forall a, b | leq(a, b) && leq(b, a) ensures a == b { KeyAntisymmetric(coll, a, b); }
  }

  lemma KeyAntisymmetric(coll: Collation, a: SortKey, b: SortKey)
    requires coll.Valid() && KeyLeq(coll, a, b) && KeyLeq(coll, b, a)
    ensures a == b
  {
  }

  ghost function Keys(t: Tables, f: Filter, admin: bool, m: Matcher): map<Uuid, SortKey>
  {
    map p | p in MatchSet(t, f, admin, m) :: KeyOf(f.sort, RowOf(t, f, admin, m, p))
  }

  lemma KeysAreMatches(t: Tables, f: Filter, admin: bool, m: Matcher)
    ensures |Keys(t, f, admin, m)| == |MatchSet(t, f, admin, m)|
    ensures forall p :: p in Keys(t, f, admin, m) <==> Matches(t, f, admin, m, p)
  {
    hide RowOf, KeyOf;
    var keys := Keys(t, f, admin, m);
    assert keys.Keys == MatchSet(t, f, admin, m) && |keys| == |keys.Keys|;
  }

  lemma KeysAreInjective(t: Tables, f: Filter, admin: bool, m: Matcher)
    ensures Injective(Keys(t, f, admin, m))
  {
    hide Matches;
    forall p | p in Keys(t, f, admin, m) ensures Keys(t, f, admin, m)[p].id == p { }
  }

  ghost function Sorted(coll: Collation, keys: map<Uuid, SortKey>): (s: seq<Uuid>)
    requires coll.Valid() && Injective(keys)
    ensures Distinct(s) && |s| == |keys| && forall p :: p in s <==> p in keys
  {
    KeyOrderIsTotal(coll);
    Enumerate(keys, KeyOrder(coll))
  }

  /** All matching products in the order of the query. */
  ghost function Listing(t: Tables, coll: Collation, f: Filter, admin: bool, m: Matcher): (s: seq<Uuid>)
    requires coll.Valid()
    ensures Distinct(s) && |s| == Total(t, f, admin, m) && forall p :: p in s <==> Matches(t, f, admin, m, p)
  {
    TotalCountsMatches(t, f, admin, m);
    KeysAreMatches(t, f, admin, m);
    KeysAreInjective(t, f, admin, m);
    Sorted(coll, Keys(t, f, admin, m))
  }

  /** The order is strict and is the one the ORDER BY clause describes. */
  lemma ListingIsOrdered(t: Tables, coll: Collation, f: Filter, admin: bool, m: Matcher, i: nat, j: nat)
    requires coll.Valid() && i < j < |Listing(t, coll, f, admin, m)|
    ensures var s := Listing(t, coll, f, admin, m);
      && Matches(t, f, admin, m, s[i]) && Matches(t, f, admin, m, s[j]) && s[i] != s[j]
      && RowBefore(coll, f.sort, RowOf(t, f, admin, m, s[i]), RowOf(t, f, admin, m, s[j]))
  {
    hide Matches, RowOf, Enumerate, RowBefore, KeyLeq;
    var s, keys := Listing(t, coll, f, admin, m), Keys(t, f, admin, m);
    KeyOrderIsTotal(coll);
    EnumerateLists(keys, KeyOrder(coll));
    assert s[i] in s && s[j] in s;
    assert KeyOrder(coll)(keys[s[i]], keys[s[j]]);
    KeyIsRowOrder(coll, f.sort, RowOf(t, f, admin, m, s[i]), RowOf(t, f, admin, m, s[j]));
  }

  lemma KeyIsRowOrder(coll: Collation, sort: string, a: ListRow, b: ListRow)
    ensures KeyLeq(coll, KeyOf(sort, a), KeyOf(sort, b)) <==> RowBefore(coll, sort, a, b)
  {
  }

  // LIMIT and OFFSET.

  function Slice<T>(s: seq<T>, offset: nat, limit: nat): seq<T>
  {
    if offset >= |s| then [] else if offset + limit >= |s| then s[offset..] else s[offset..offset + limit]
  }

  /** ceil(total / limit) */
  function PageCount(total: nat, limit: nat): (n: nat)
    requires limit >= 1
  {
    (total + limit - 1) / limit
  }

  /** As many pages as it takes and no more: the last of them is not empty. */
  lemma PagesAreNeeded(total: nat, limit: nat)
    requires limit >= 1
    ensures var n := PageCount(total, limit); total <= n * limit && (n > 0 ==> (n - 1) * limit < total)
  {
    var n := PageCount(total, limit);
    assert total + limit - 1 == n * limit + (total + limit - 1) % limit;
    assert (n - 1) * limit == n * limit - limit;
  }

  function Offset(page: nat, limit: nat): nat
    requires page >= 1
  {
    (page - 1) * limit
  }

  ghost function Page(t: Tables, coll: Collation, f: Filter, admin: bool, m: Matcher): seq<Uuid>
    requires coll.Valid() && f.page >= 1
  {
    Slice(Listing(t, coll, f, admin, m), Offset(f.page, f.limit), f.limit)
  }

  /** `part` is what `s` holds from `from` on, `limit` long unless `s` ends before. */
  ghost predicate HoldsFrom<T>(part: seq<T>, s: seq<T>, from: int, limit: nat)
  {
    && from >= 0 && |part| <= limit && (|part| < limit ==> |s| <= from + |part|)
    && forall i :: 0 <= i < |part| ==> from + i < |s| && part[i] == s[from + i]
  }

  lemma SliceExactly<T>(s: seq<T>, from: nat, limit: nat)
    ensures HoldsFrom(Slice(s, from, limit), s, from, limit)
  {
  }

  /** A page begins `limit` matches further for each page before it. */
  lemma PageExactly(t: Tables, coll: Collation, f: Filter, admin: bool, m: Matcher)
    requires coll.Valid() && f.page >= 1
    ensures HoldsFrom(Page(t, coll, f, admin, m), Listing(t, coll, f, admin, m), (f.page - 1) * f.limit, f.limit)
  {
    SliceExactly(Listing(t, coll, f, admin, m), Offset(f.page, f.limit), f.limit);
    hide Listing, Slice, HoldsFrom;
  }

  /** Pages 1 .. n one after the other. */
  ghost function Pages(t: Tables, coll: Collation, f: Filter, admin: bool, m: Matcher, n: nat): seq<Uuid>
    requires coll.Valid()
  {
    if n == 0 then [] else Pages(t, coll, f, admin, m, n - 1) + Page(t, coll, f.(page := n), admin, m)
  }

  lemma SameMatches(t: Tables, f: Filter, admin: bool, m: Matcher, n: nat, p: Uuid)
    ensures Matches(t, f.(page := n), admin, m, p) <==> Matches(t, f, admin, m, p)
  {
    var g := f.(page := n);
    assert forall v :: VariantSelected(t, f, admin, p, v) <==> VariantSelected(t, g, admin, p, v);
  }

  lemma SameRow(t: Tables, f: Filter, admin: bool, m: Matcher, n: nat, p: Uuid)
    requires Matches(t, f, admin, m, p) && Matches(t, f.(page := n), admin, m, p)
    ensures RowOf(t, f.(page := n), admin, m, p) == RowOf(t, f, admin, m, p)
  {
    hide Matches, Filtered;
    var g := f.(page := n);
    var a, b := RowOf(t, g, admin, m, p), RowOf(t, f, admin, m, p);
    FilteredExactly(t, g, admin, m, a);
    FilteredExactly(t, f, admin, m, b);
    SameLeast(t, g, f, admin, p, a.price);
    LeastPriceIsUnique(t, f, admin, p, a.price, b.price);
  }

  lemma PageDoesNotSelect(t: Tables, coll: Collation, f: Filter, admin: bool, m: Matcher, n: nat)
    requires coll.Valid()
    ensures Listing(t, coll, f.(page := n), admin, m) == Listing(t, coll, f, admin, m)
  {
    hide Enumerate, Matches, RowOf, Total, KeyOrder;
    SameKeys(t, f, admin, m, n);
  }

  lemma KeyAt(t: Tables, f: Filter, admin: bool, m: Matcher, p: Uuid)
    requires Matches(t, f, admin, m, p)
    ensures p in Keys(t, f, admin, m) && Keys(t, f, admin, m)[p] == KeyOf(f.sort, RowOf(t, f, admin, m, p))
  {
    hide RowOf, Matches;
    KeysAreMatches(t, f, admin, m);
  }

  lemma SameKeys(t: Tables, f: Filter, admin: bool, m: Matcher, n: nat)
    ensures Keys(t, f.(page := n), admin, m) == Keys(t, f, admin, m)
  {
    hide Keys, Matches, RowOf, KeyOf;
    var g := f.(page := n);
    var a, b := Keys(t, g, admin, m), Keys(t, f, admin, m);
    KeysAreMatches(t, g, admin, m);
    KeysAreMatches(t, f, admin, m);
    forall p ensures p in a <==> p in b { SameMatches(t, f, admin, m, n, p); }
    forall p | p in a ensures a[p] == b[p] {
      SameRow(t, f, admin, m, n, p);
      KeyAt(t, g, admin, m, p);
      KeyAt(t, f, admin, m, p);
    }
  }

  lemma SameLeast(t: Tables, g: Filter, f: Filter, admin: bool, p: Uuid, price: int)
    requires g.minPrice == f.minPrice && g.maxPrice == f.maxPrice && LeastPrice(t, g, admin, p, price)
    ensures LeastPrice(t, f, admin, p, price)
  {
    assert forall v :: VariantSelected(t, f, admin, p, v) <==> VariantSelected(t, g, admin, p, v);
  }

  lemma PageIsSlice(t: Tables, coll: Collation, f: Filter, admin: bool, m: Matcher, n: nat)
    requires coll.Valid() && n >= 1
    ensures Page(t, coll, f.(page := n), admin, m) == Slice(Listing(t, coll, f, admin, m), Offset(n, f.limit), f.limit)
  {
    PageDoesNotSelect(t, coll, f, admin, m, n);
  }

  /** The first `n` slices of a list. */
  function Slices<T>(s: seq<T>, limit: nat, n: nat): seq<T>
  {
    if n == 0 then [] else Slices(s, limit, n - 1) + Slice(s, Offset(n, limit), limit)
  }

  lemma JoinSlices<T>(s: seq<T>, a: nat, limit: nat)
    ensures Slice(s, 0, a) + Slice(s, a, limit) == Slice(s, 0, a + limit)
  {
  }

  lemma {:induction false} SlicesArePrefix<T>(s: seq<T>, limit: nat, n: nat)
    ensures Slices(s, limit, n) == Slice(s, 0, Offset(n + 1, limit))
  {
    if n > 0 {
      SlicesArePrefix(s, limit, n - 1);
      OffsetStep(n, limit);
      JoinSlices(s, Offset(n, limit), limit);
    }
  }

  lemma OffsetStep(n: nat, limit: nat)
    requires n >= 1
    ensures Offset(n + 1, limit) == Offset(n, limit) + limit
  {
  }

  ghost predicate InSlice<T>(s: seq<T>, limit: nat, k: nat, x: T)
  {
    k >= 1 && x in Slice(s, Offset(k, limit), limit)
  }

  lemma {:induction false} InSomeSlice<T>(s: seq<T>, limit: nat, n: nat, x: T)
    ensures x in Slices(s, limit, n) <==> exists k: nat :: k <= n && InSlice(s, limit, k, x)
  {
    hide Offset, Slice;
    if n > 0 {
      InSomeSlice(s, limit, n - 1, x);
      if x in Slice(s, Offset(n, limit), limit) { assert InSlice(s, limit, n, x); }
      if k: nat :| k <= n && InSlice(s, limit, k, x) { assert k == n || k <= n - 1; }
    }
  }

  lemma {:induction false} PagesAreSlices(t: Tables, coll: Collation, f: Filter, admin: bool, m: Matcher, n: nat)
    requires coll.Valid()
    ensures Pages(t, coll, f, admin, m, n) == Slices(Listing(t, coll, f, admin, m), f.limit, n)
  {
    hide Offset, Slice, Listing, Page;
    if n > 0 {
      PagesAreSlices(t, coll, f, admin, m, n - 1);
      PageIsSlice(t, coll, f, admin, m, n);
    }
  }

  lemma PageCountCovers(total: nat, limit: nat)
    requires limit >= 1
    ensures total <= PageCount(total, limit) * limit < total + limit
  {
    var q := (total + limit - 1) / limit;
    assert total + limit - 1 == q * limit + (total + limit - 1) % limit;
  }

  lemma EnoughSlices<T>(s: seq<T>, limit: nat, n: nat)
    requires limit >= 1 && PageCount(|s|, limit) <= n
    ensures Slices(s, limit, n) == s
  {
    SlicesArePrefix(s, limit, n);
    PageCountCovers(|s|, limit);
    assert PageCount(|s|, limit) * limit <= n * limit == Offset(n + 1, limit);
  }

  /** For any snapshot, filter and limit the pages concatenate to every match exactly once, in order. */
  lemma PagesCoverListing(t: Tables, coll: Collation, f: Filter, admin: bool, m: Matcher)
    requires coll.Valid() && f.limit >= 1
    ensures Pages(t, coll, f, admin, m, PageCount(Total(t, f, admin, m), f.limit)) == Listing(t, coll, f, admin, m)
  {
    var n := PageCount(Total(t, f, admin, m), f.limit);
    PagesAreSlices(t, coll, f, admin, m, n);
    EnoughSlices(Listing(t, coll, f, admin, m), f.limit, n);
  }

  ghost predicate OnPage(t: Tables, coll: Collation, f: Filter, admin: bool, m: Matcher, k: nat, p: Uuid)
    requires coll.Valid()
  {
    k >= 1 && p in Page(t, coll, f.(page := k), admin, m)
  }

  ghost predicate ListedWithin(t: Tables, coll: Collation, f: Filter, admin: bool, m: Matcher, n: nat, p: Uuid)
    requires coll.Valid()
  {
    exists k: nat :: k <= n && OnPage(t, coll, f, admin, m, k, p)
  }

  lemma OnPageIsInSlice(t: Tables, coll: Collation, f: Filter, admin: bool, m: Matcher, k: nat, p: Uuid)
    requires coll.Valid()
    ensures OnPage(t, coll, f, admin, m, k, p) <==> InSlice(Listing(t, coll, f, admin, m), f.limit, k, p)
  {
    if k >= 1 { PageIsSlice(t, coll, f, admin, m, k); }
  }

  lemma ListedIsInSomeSlice(t: Tables, coll: Collation, f: Filter, admin: bool, m: Matcher, n: nat, p: Uuid)
    requires coll.Valid()
    ensures ListedWithin(t, coll, f, admin, m, n, p) <==> p in Slices(Listing(t, coll, f, admin, m), f.limit, n)
  {
    var s := Listing(t, coll, f, admin, m);
    InSomeSlice(s, f.limit, n, p);
    if ListedWithin(t, coll, f, admin, m, n, p) {
      var k: nat :| k <= n && OnPage(t, coll, f, admin, m, k, p);
      OnPageIsInSlice(t, coll, f, admin, m, k, p);
    }
    if p in Slices(s, f.limit, n) {
      var k: nat :| k <= n && InSlice(s, f.limit, k, p);
      OnPageIsInSlice(t, coll, f, admin, m, k, p);
    }
  }

  /** A product is on one of the first `n` pages, if that many pages are enough, exactly when it matches. */
  lemma ListedIffMatches(t: Tables, coll: Collation, f: Filter, admin: bool, m: Matcher, n: nat, p: Uuid)
    requires coll.Valid() && f.limit >= 1 && PageCount(Total(t, f, admin, m), f.limit) <= n
    ensures ListedWithin(t, coll, f, admin, m, n, p) <==> Matches(t, f, admin, m, p)
  {
    ListedIsInSomeSlice(t, coll, f, admin, m, n, p);
    EnoughSlices(Listing(t, coll, f, admin, m), f.limit, n);
  }
}
