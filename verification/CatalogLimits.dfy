/** The two limits a product can run into: fifty variants in a draft, retired ones counted, and the
    greatest revision. Runs of accepted saves reach both, and from there the document as it was read
    can no longer be saved. */
module CatalogLimits {
  import opened Wrappers
  import opened Uuids
  import opened Orders
  import opened Utf8
  import opened CatalogTables
  import opened DraftValidation
  import opened CatalogSaveSpec
  import opened CatalogSaveProofs
  import opened CatalogSaveTheorems
  import opened CatalogRuns
  import opened CatalogOffers
  import opened CatalogRoundTrip
  import opened CatalogExamples

  // Whatever the tables, their documents can be sent back.

  ghost function Return(t: Tables, coll: Collation, p: Uuid, user: Uuid, spares: seq<Uuid>): Call
    requires p in t.products && Source(t, coll, p)
  {
    Call(EditorDraft(t, coll, p), user, user, Some(p), Some(t.products[p].revision), 0, spares)
  }

  /** Ids to mint: one for each variant, and one for the product key. */
  ghost predicate Spare(t: Tables, p: Uuid, spares: seq<Uuid>)
  {
    && |spares| == |VariantsOf(t, p)| + 1 && Distinct(spares)
    && forall k :: k in spares ==> Canonical(k) && k !in t.products && k !in t.variants
  }

  lemma EditorIds(t: Tables, coll: Collation, p: Uuid)
    requires Source(t, coll, p)
    ensures var vs := EditorDraft(t, coll, p).variants;
      && |vs| == |VariantsOf(t, p)|
      && forall i :: 0 <= i < |vs| ==> vs[i].id.Some? && vs[i].id.value in t.variants
  {
    hide EditorDraft, VariantsOf, TranslationsOf;
    EditorVariants(t, coll, p);
    VariantOrderFacts(t, coll, p);
  }

  lemma VariantIdsAreCanonical(t: Tables, v: Uuid)
    requires v in t.variants && VariantsComplete(t.variants, t.attributeValues)
    ensures Canon(v) == v
  {
    assert VariantComplete(v, t.variants[v], AttributesIn(t.attributeValues, v));
  }

  lemma ReturnIsFresh(t: Tables, coll: Collation, p: Uuid, user: Uuid, spares: seq<Uuid>)
    requires p in t.products && Spare(t, p, spares)
    requires VariantsComplete(t.variants, t.attributeValues) && Source(t, coll, p)
    ensures OracleFresh(t, Return(t, coll, p, user, spares))
  {
    hide Source, EditorDraft, VariantsOf, VariantsComplete, Canon, IsUuid;
    EditorIds(t, coll, p);
    var vs := EditorDraft(t, coll, p).variants;
    forall i | 0 <= i < |vs| ensures Canon(vs[i].id.value) !in spares {
      VariantIdsAreCanonical(t, vs[i].id.value);
    }
  }

  lemma InvVariantsComplete(t: Tables)
    requires Inv(t)
    ensures VariantsComplete(t.variants, t.attributeValues)
  {
  }

  lemma ReturnIsSent(t: Tables, coll: Collation, p: Uuid, user: Uuid, spares: seq<Uuid>)
    requires p in t.products && Spare(t, p, spares) && coll.Valid() && Inv(t)
    ensures Source(t, coll, p) && SendsBack(t, coll, Return(t, coll, p, user, spares))
  {
    hide Inv, Source, EditorDraft, OracleFresh, Spare, ProductComplete, ProductChecks, VariantsComplete, Wanted;
    InvIsSource(t, coll, p);
    InvVariantsComplete(t);
    ReturnIsFresh(t, coll, p, user, spares);
    FreshIsWanted(t, Return(t, coll, p, user, spares));
  }

  lemma FreshIsWanted(t: Tables, c: Call)
    requires OracleFresh(t, c)
    ensures Wanted(c)
  {
  }

  // Variants: every save adds one and retires the rest.

  /** Ids to mint: one for each variant, and a spare one for the product key an update never uses. */
  ghost predicate Stock(g: Stage, spare: Uuid, pool: seq<Uuid>)
  {
    && Canonical(g.category) && Canonical(g.product) && Canonical(spare) && g.product != spare
    && Distinct(pool) && forall k :: k in pool ==> Canonical(k) && k != g.product && k != spare
  }

  /** A save that names none of the present variants and adds one, whose SKU is its id. */
  function Addition(g: Stage, spare: Uuid, v: Uuid, revision: int): Call
  {
    Call(DraftWith(g, [Plain(None, v, true)]), g.user, g.user, Some(g.product), Some(revision), 0, [spare, v])
  }

  /** After n saves: n rows, the first n ids of the pool. */
  ghost predicate Shelf(t: Tables, g: Stage, pool: seq<Uuid>, n: nat)
  {
    && n <= |pool| && t.refs == Shop(g) && t.products == map[g.product := ProductRow("a", None, "active", n, 0)]
    && t.variants.Keys == Range(pool[..n])
    && forall v :: v in t.variants ==> t.variants[v].product == g.product && t.variants[v].sku == v
  }

  lemma IdIsText(v: Uuid)
    requires Canonical(v)
    ensures TextOk(v, 1, 64)
  {
    assert v[8] == '-' && !BlankChar(v[8]);
  }

  lemma FirstOnShelf(g: Stage, spare: Uuid, pool: seq<Uuid>)
    requires Stock(g, spare, pool) && pool != []
    ensures Shelf(Replaced(Empty(Shop(g)), Creation(g, pool[0], pool[0])), g, pool, 1)
  {
    hide Replaced, Creation, Shop;
    assert pool[..1] == [pool[0]];
    CreationWrites(g, pool[0], pool[0]);
    assert Range(pool[..1]) == {pool[0]};
  }

  lemma FirstIsCarried(g: Stage, spare: Uuid, pool: seq<Uuid>)
    requires Stock(g, spare, pool) && pool != []
    ensures var c := Creation(g, pool[0], pool[0]); OracleFresh(Empty(Shop(g)), c) && Carried(Empty(Shop(g)), c)
  {
    hide OracleFresh, Carried, Creation, Shop;
    assert pool[0] in pool;
    IdIsText(pool[0]);
    CreationIsCarried(g, pool[0], pool[0]);
  }

  lemma NotYetOnShelf(pool: seq<Uuid>, n: nat)
    requires Distinct(pool) && n < |pool|
    ensures pool[n] in pool && pool[n] !in Range(pool[..n]) && Range(pool[..n + 1]) == Range(pool[..n]) + {pool[n]}
    ensures Range(pool[..n]) <= Range(pool)
  {
    assert pool[..n + 1] == pool[..n] + [pool[n]];
  }

  lemma AdditionIsFresh(t: Tables, g: Stage, spare: Uuid, pool: seq<Uuid>, n: nat)
    requires Stock(g, spare, pool) && Shelf(t, g, pool, n) && n < |pool|
    ensures OracleFresh(t, Addition(g, spare, pool[n], n))
  {
    NotYetOnShelf(pool, n);
    assert spare !in Range(pool) && g.product !in Range(pool);
  }

  lemma AdditionHoldsNoSku(t: Tables, g: Stage, spare: Uuid, pool: seq<Uuid>, n: nat)
    requires Stock(g, spare, pool) && Shelf(t, g, pool, n) && n < |pool|
    ensures !SkuHeld(t, Addition(g, spare, pool[n], n), 0)
  {
    NotYetOnShelf(pool, n);
    NothingNamedYet(t, Addition(g, spare, pool[n], n));
  }

  lemma AdditionIsValid(g: Stage, spare: Uuid, v: Uuid, n: nat)
    requires Canonical(g.category) && Canonical(v)
    ensures DraftOk(Addition(g, spare, v, n).draft)
  {
    hide DraftOk, IsUuid, TextOk, Canon;
    IdIsText(v);
    PlainIsOk(Plain(None, v, true));
    DraftWithIsOk(g, [Plain(None, v, true)]);
  }

  lemma AdditionIsCarried(t: Tables, g: Stage, spare: Uuid, pool: seq<Uuid>, n: nat)
    requires Stock(g, spare, pool) && Shelf(t, g, pool, n) && 1 <= n < |pool| && n < MAX_REVISION
    ensures Carried(t, Addition(g, spare, pool[n], n)) && Verdict(t, Addition(g, spare, pool[n], n)).None?
  {
    hide SkuHeld, Verdict, DraftOk, IsUuid, Canon;
    var c := Addition(g, spare, pool[n], n);
    NotYetOnShelf(pool, n);
    AdditionIsValid(g, spare, pool[n], n);
    AdditionHoldsNoSku(t, g, spare, pool, n);
    PlainDraftIsCarried(t, g, c);
  }

  lemma AdditionWritesVariants(t: Tables, g: Stage, spare: Uuid, pool: seq<Uuid>, n: nat)
    requires Stock(g, spare, pool) && Shelf(t, g, pool, n) && n < |pool|
    ensures var w := VariantsSwept(t, Addition(g, spare, pool[n], n));
      && w.Keys == Range(pool[..n + 1])
      && forall v :: v in w ==> w[v].product == g.product && w[v].sku == v
  {
    var c := Addition(g, spare, pool[n], n);
    NotYetOnShelf(pool, n);
    hide Stock, Distinct, LastNaming, VariantsSwept, VariantsAfter;
    assert VariantKey(c, 0) == pool[n];
    assert Named(c, 1) == {pool[n]};
    forall v | v in VariantsSwept(t, c)
      ensures VariantsSwept(t, c)[v].product == g.product && VariantsSwept(t, c)[v].sku == v
    {
      WrittenOrUntouched(t, c, v);
    }
  }

  lemma AdditionWritesRow(t: Tables, g: Stage, spare: Uuid, v: Uuid, n: nat)
    requires t.products == map[g.product := ProductRow("a", None, "active", n, 0)]
    ensures ProductRowAfter(t, Addition(g, spare, v, n)) == ProductRow("a", None, "active", n + 1, 0)
  {
  }

  lemma AdditionKeepsShelf(t: Tables, g: Stage, spare: Uuid, pool: seq<Uuid>, n: nat)
    requires Stock(g, spare, pool) && Shelf(t, g, pool, n) && n < |pool|
    ensures Shelf(Replaced(t, Addition(g, spare, pool[n], n)), g, pool, n + 1)
  {
    hide VariantsSwept, ProductRowAfter, Replaced, Stock;
    var c := Addition(g, spare, pool[n], n);
    AdditionWritesVariants(t, g, spare, pool, n);
    AdditionWritesRow(t, g, spare, pool[n], n);
    FieldsOfReplaced(t, c);
  }

  /** A run from `t` that ends with n rows on the shelf. */
  ghost predicate Fills(t: Tables, g: Stage, pool: seq<Uuid>, n: nat)
  {
    exists ops :: RunOk(t, ops) && Shelf(After(t, ops), g, pool, n)
  }

  lemma OneSaveMore(t: Tables, c: Call, g: Stage, pool: seq<Uuid>, n: nat)
    requires Wanted(c) && OracleFresh(t, c) && Carried(t, c) && (c.target.Some? ==> c.target.value in t.products)
    requires Fills(Replaced(t, c), g, pool, n)
    ensures Fills(t, g, pool, n)
  {
    hide Verdict, Replaced, Shelf, OracleFresh;
    CarriedStep(t, c);
    var ops :| RunOk(Step(t, Save(c)), ops) && Shelf(After(Step(t, Save(c)), ops), g, pool, n);
    var all := [Save(c)] + ops;
    assert all[0] == Save(c) && all[1..] == ops;
    assert RunOk(t, all) && After(t, all) == After(Step(t, Save(c)), ops);
  }

  lemma CarriedStep(t: Tables, c: Call)
    requires OracleFresh(t, c) && Carried(t, c)
    ensures Admissible(t, Save(c)) && Step(t, Save(c)) == Replaced(t, c)
  {
  }

  lemma {:induction false} ShelfFills(t: Tables, g: Stage, spare: Uuid, pool: seq<Uuid>, k: nat, n: nat)
    requires Stock(g, spare, pool) && Shelf(t, g, pool, k) && 1 <= k <= n <= |pool| && n <= MAX_REVISION
    ensures Fills(t, g, pool, n)
    decreases n - k
  {
    hide Verdict, Replaced, Shelf, Stock, OracleFresh, Carried;
    if k == n {
      assert RunOk(t, []) && After(t, []) == t;
    } else {
      var c := Addition(g, spare, pool[k], k);
      AdditionIsFresh(t, g, spare, pool, k);
      AdditionIsCarried(t, g, spare, pool, k);
      AcceptedTarget(t, c);
      AdditionKeepsShelf(t, g, spare, pool, k);
      ShelfFills(Replaced(t, c), g, spare, pool, k + 1, n);
      OneSaveMore(t, c, g, pool, n);
    }
  }

  /** For every n there are ids for: from the empty tables a run of accepted saves reaches n variants. */
  lemma EveryVariantCountIsReached(g: Stage, spare: Uuid, pool: seq<Uuid>, n: nat)
    requires Stock(g, spare, pool) && 1 <= n <= |pool| && n <= MAX_REVISION
    ensures Fills(Empty(Shop(g)), g, pool, n)
  {
    hide Verdict, Replaced, Shelf, Stock, OracleFresh, Carried, Creation;
    var c := Creation(g, pool[0], pool[0]);
    FirstIsCarried(g, spare, pool);
    FirstOnShelf(g, spare, pool);
    AcceptedTarget(Empty(Shop(g)), c);
    ShelfFills(Replaced(Empty(Shop(g)), c), g, spare, pool, 1, n);
    OneSaveMore(Empty(Shop(g)), c, g, pool, n);
  }

  lemma AcceptedTarget(t: Tables, c: Call)
    requires OracleFresh(t, c) && Carried(t, c)
    ensures Wanted(c) && (c.target.Some? ==> c.target.value in t.products)
  {
  }

  lemma ShelfHolds(t: Tables, g: Stage, pool: seq<Uuid>, n: nat)
    requires Shelf(t, g, pool, n) && Distinct(pool)
    ensures g.product in t.products && |VariantsOf(t, g.product)| == n
  {
    assert VariantsOf(t, g.product) == t.variants;
    assert Distinct(pool[..n]);
    DistinctCount(pool[..n]);
    assert |t.variants| == |t.variants.Keys|;
  }

  /** With more than fifty rows the document as it was read can never be saved back. */
  lemma FullShelfIsNotSavedBack(t: Tables, coll: Collation, c: Call, g: Stage, pool: seq<Uuid>, n: nat)
    requires Shelf(t, g, pool, n) && Distinct(pool) && n > 50
    requires SendsBack(t, coll, c) && c.target == Some(g.product)
    ensures !DraftOk(c.draft) && !Carried(t, c)
  {
    hide Inv, Source, OracleFresh, EditorDraft, DraftOk, Verdict, VariantsOf, Shelf, OnSale;
    ShelfHolds(t, g, pool, n);
    SaveBackDraftExactly(t, coll, c);
  }

  // Ids to do it with.

  function HexDigit(d: nat): char
    requires d < 16
  {
    if d < 10 then (d + '0' as int) as char else (d - 10 + 'a' as int) as char
  }

  /** 00000000-0000-0000-0000-0000000000 and two hexadecimal digits. */
  function Numbered(n: nat): (s: Uuid)
    requires n < 256
    ensures |s| == 36 && s[34] == HexDigit(n / 16) && s[35] == HexDigit(n % 16)
  {
    seq(36, i requires 0 <= i < 36 =>
      if i in {8, 13, 18, 23} then '-'
      else if i == 34 then HexDigit(n / 16)
      else if i == 35 then HexDigit(n % 16)
      else '0')
  }

  lemma HexDigitsApart(c: nat, d: nat)
    requires c < 16 && d < 16
    ensures HexDigit(c) == HexDigit(d) <==> c == d
    ensures IsHex(HexDigit(c)) && Lower(HexDigit(c)) == HexDigit(c)
  {
  }

  lemma NumberedIsCanonical(n: nat)
    requires n < 256
    ensures Canonical(Numbered(n))
  {
    HexDigitsApart(n / 16, n % 16);
    HexDigitsApart(n % 16, n / 16);
    var s := Numbered(n);
    assert forall i :: 0 <= i < 36 ==> Lower(s[i]) == s[i];
    assert Canon(s) == s;
  }

  lemma NumberedApart(m: nat, n: nat)
    requires m < n < 256
    ensures Numbered(m) != Numbered(n)
  {
    HexDigitsApart(m / 16, n / 16);
    HexDigitsApart(m % 16, n % 16);
  }

  const STAGE: Stage := Stage(Numbered(252), Numbered(253), Numbered(254))

  /** The ids with the numbers from `first` on. */
  function Pool(first: nat, n: nat): (r: seq<Uuid>)
    requires first + n <= 256
    ensures |r| == n && forall i :: 0 <= i < n ==> r[i] == Numbered(first + i)
  {
    seq(n, i requires 0 <= i < n => Numbered(first + i))
  }

  lemma PoolIsDistinct(first: nat, n: nat)
    requires first + n <= 256
    ensures Distinct(Pool(first, n)) && forall k :: k in Pool(first, n) ==> Canonical(k)
  {
    hide Numbered, Canonical;
    var pool := Pool(first, n);
    forall i, j | 0 <= i < j < n ensures pool[i] != pool[j] { NumberedApart(first + i, first + j); }
    forall i | 0 <= i < n ensures Canonical(pool[i]) { NumberedIsCanonical(first + i); }
  }

  lemma NotInPool(first: nat, n: nat, m: nat)
    requires first + n <= m < 256 || m < first <= first + n <= 256
    ensures Numbered(m) !in Pool(first, n)
  {
    hide Numbered;
    forall i | 0 <= i < n ensures Pool(first, n)[i] != Numbered(m) {
      if first + n <= m { NumberedApart(first + i, m); } else { NumberedApart(m, first + i); }
    }
  }

  lemma PoolIsStock(n: nat)
    requires n <= 252
    ensures Stock(STAGE, Numbered(255), Pool(0, n))
  {
    hide Numbered, Canonical, Pool;
    PoolIsDistinct(0, n);
    NumberedIsCanonical(253);
    NumberedIsCanonical(254);
    NumberedIsCanonical(255);
    NumberedApart(254, 255);
    NotInPool(0, n, 254);
    NotInPool(0, n, 255);
  }

  /** A run from the empty tables that reaches one variant too many. */
  lemma FiftyOneVariantsAreReached()
    ensures Fills(Empty(Shop(STAGE)), STAGE, Pool(0, 51), 51) && Distinct(Pool(0, 51))
  {
    hide Numbered, Pool, Fills, Shop;
    PoolIsStock(51);
    PoolIsDistinct(0, 51);
    EveryVariantCountIsReached(STAGE, Numbered(255), Pool(0, 51), 51);
  }

  lemma PoolsApart(m: nat, first: nat, n: nat)
    requires m <= first <= first + n <= 256
    ensures forall k :: k in Pool(first, n) ==> k !in Pool(0, m)
  {
    hide Numbered;
    forall i | 0 <= i < n ensures Pool(first, n)[i] !in Pool(0, m) { NotInPool(0, m, first + i); }
  }

  lemma ShelfHasSpares(t: Tables)
    requires Shelf(t, STAGE, Pool(0, 51), 51)
    ensures Spare(t, STAGE.product, Pool(100, 52))
  {
    hide Numbered, Canonical, Pool, VariantsOf;
    PoolIsDistinct(0, 51);
    PoolIsDistinct(100, 52);
    ShelfHolds(t, STAGE, Pool(0, 51), 51);
    PoolsApart(51, 100, 52);
    NotInPool(100, 52, 254);
    assert Pool(0, 51)[..51] == Pool(0, 51);
  }

  /** The document as it was read goes back and is refused by validation. */
  ghost predicate Overfull(ops: seq<Op>, coll: Collation, c: Call)
  {
    && RunOk(Empty(Shop(STAGE)), ops)
    && var t := After(Empty(Shop(STAGE)), ops);
       && |VariantsOf(t, STAGE.product)| == 51 && SendsBack(t, coll, c) && c.target == Some(STAGE.product)
       && !DraftOk(c.draft) && !Carried(t, c)
  }

  /** There is a run from the empty tables after which the document as it was read is refused. */
  lemma FiftyOneVariantsAreStuck(coll: Collation)
    requires coll.Valid()
    ensures exists ops, c :: Overfull(ops, coll, c)
  {
    hide Inv, Source, Shelf, SendsBack, Return, Spare, Numbered, Pool, VariantsOf, DraftOk, Carried;
    FiftyOneVariantsAreReached();
    var origin := Empty(Shop(STAGE));
    var ops :| RunOk(origin, ops) && Shelf(After(origin, ops), STAGE, Pool(0, 51), 51);
    var t := After(origin, ops);
    StageIsCanonical();
    EmptyIsFine(Shop(STAGE));
    RunKeepsInv(origin, ops);
    ShelfHolds(t, STAGE, Pool(0, 51), 51);
    ShelfHasSpares(t);
    ReturnIsSent(t, coll, STAGE.product, STAGE.user, Pool(100, 52));
    var c := Return(t, coll, STAGE.product, STAGE.user, Pool(100, 52));
    ReturnGoesTo(t, coll, STAGE.product, STAGE.user, Pool(100, 52));
    FullShelfIsNotSavedBack(t, coll, c, STAGE, Pool(0, 51), 51);
    assert Overfull(ops, coll, c);
  }

  lemma ReturnGoesTo(t: Tables, coll: Collation, p: Uuid, user: Uuid, spares: seq<Uuid>)
    requires p in t.products && Source(t, coll, p)
    ensures Return(t, coll, p, user, spares).target == Some(p) && Return(t, coll, p, user, spares).actor == user
  {
  }

  lemma StageIsCanonical()
    ensures RefsCanonical(Shop(STAGE))
  {
    NumberedIsCanonical(253);
    ShopIsCanonical(STAGE);
  }

  lemma ShopIsCanonical(g: Stage)
    requires Canonical(g.category)
    ensures RefsCanonical(Shop(g))
  {
  }

  // Revisions: the document goes back again and again.

  /** What an unedited save leaves for the next one. */
  ghost predicate Later(t: Tables, u: Tables, p: Uuid, n: int)
    requires p in t.products
  {
    u == t.(products := t.products[p := t.products[p].(revision := n)], audit := u.audit)
  }

  ghost predicate ReachesRevision(t: Tables, p: Uuid, n: int)
    requires p in t.products
  {
    exists ops :: RunOk(t, ops) && Later(t, After(t, ops), p, n)
  }

  lemma LaterIsSource(t: Tables, u: Tables, coll: Collation, p: Uuid, n: int)
    requires Source(t, coll, p) && Later(t, u, p, n)
    ensures Source(u, coll, p) && EditorDraft(u, coll, p) == EditorDraft(t, coll, p)
  {
    SameTablesSameDocument(t, u, coll, p);
  }

  lemma SaveBackIsLater(t: Tables, coll: Collation, c: Call)
    requires SendsBack(t, coll, c)
    ensures Wanted(c) && c.target.Some? && c.target.value in t.products
    ensures Later(t, Replaced(t, c), c.target.value, t.products[c.target.value].revision + 1)
  {
    hide Inv, OracleFresh, DraftOk, Replaced, Source, EditorDraft;
    SaveBackIsOnTarget(t, coll, c);
    SaveBackChangesRevisionOnly(t, coll, c);
  }

  lemma SendsBackLater(t: Tables, u: Tables, coll: Collation, c: Call, n: int)
    requires SendsBack(t, coll, c) && c.target.value in t.products && Later(t, u, c.target.value, n) && Inv(u)
    ensures SendsBack(u, coll, c.(expected := Some(n)))
  {
    hide Inv, Source, OracleFresh, EditorDraft;
    FreshLater(t, u, c, c.target.value, n);
    LaterIsSource(t, u, coll, c.target.value, n);
  }

  /** The next save of the same document. */
  lemma SendsBackAgain(t: Tables, coll: Collation, c: Call)
    requires SendsBack(t, coll, c) && Carried(t, c)
    ensures var r := t.products[c.target.value].revision + 1;
      && Later(t, Replaced(t, c), c.target.value, r)
      && SendsBack(Replaced(t, c), coll, c.(expected := Some(r)))
  {
    hide Inv, Source, OracleFresh, Carried, Later, Unedited;
    AcceptedTarget(t, c);
    SaveBackIsLater(t, coll, c);
    SaveKeepsInv(t, c);
    SendsBackLater(t, Replaced(t, c), coll, c, t.products[c.target.value].revision + 1);
  }

  lemma FreshLater(t: Tables, u: Tables, c: Call, p: Uuid, n: int)
    requires p in t.products && Later(t, u, p, n) && OracleFresh(t, c)
    ensures OracleFresh(u, c.(expected := Some(n)))
  {
  }

  lemma ReturnableLater(t: Tables, u: Tables, p: Uuid, actor: Uuid, n: int)
    requires p in t.products && Later(t, u, p, n) && Returnable(t, p, actor)
    ensures n < MAX_REVISION ==> Returnable(u, p, actor)
  {
  }

  lemma KeepsProduct(t: Tables, u: Tables, p: Uuid, n: int)
    requires p in t.products && Later(t, u, p, n)
    ensures p in u.products && u.products[p].revision == n
  {
  }

  lemma LaterStill(t: Tables, u: Tables, w: Tables, p: Uuid, m: int, n: int)
    requires p in t.products && Later(t, u, p, m) && Later(u, w, p, n)
    ensures Later(t, w, p, n)
  {
  }

  lemma OneRevisionMore(t: Tables, c: Call, p: Uuid, m: int, n: int)
    requires Wanted(c) && OracleFresh(t, c) && Carried(t, c) && (c.target.Some? ==> c.target.value in t.products)
    requires p in t.products && Later(t, Replaced(t, c), p, m) && ReachesRevision(Replaced(t, c), p, n)
    ensures ReachesRevision(t, p, n)
  {
    hide Verdict, Replaced, OracleFresh, Later;
    CarriedStep(t, c);
    var u := Replaced(t, c);
    KeepsProduct(t, u, p, m);
    var ops :| RunOk(u, ops) && Later(u, After(u, ops), p, n);
    var all := [Save(c)] + ops;
    assert all[0] == Save(c) && all[1..] == ops;
    assert RunOk(t, all) && After(t, all) == After(u, ops);
    LaterStill(t, u, After(u, ops), p, m, n);
  }

  lemma NothingYet(t: Tables, p: Uuid)
    requires p in t.products
    ensures Later(t, t, p, t.products[p].revision)
  {
  }

  /** Sent back often enough, a returnable product reaches every revision up to the greatest. */
  lemma {:induction false} EveryRevisionIsReached(t: Tables, coll: Collation, c: Call, n: int)
    requires OnTarget(t, c) && t.products[c.target.value].revision <= n <= MAX_REVISION
    requires t.products[c.target.value].revision < n ==> Returnable(t, c.target.value, c.actor)
    requires SendsBack(t, coll, c)
    ensures ReachesRevision(t, c.target.value, n)
    decreases n - t.products[c.target.value].revision
  {
    hide Replaced, Inv, Source, OracleFresh, Carried, Returnable, EditorDraft, Later, Schema, SendsBack;
    var p := c.target.value;
    var r := t.products[p].revision;
    if r == n {
      NothingYet(t, p);
      assert RunOk(t, []) && After(t, []) == t;
    } else {
      SaveBackExactly(t, coll, c);
      SentIsFresh(t, coll, c);
      AcceptedTarget(t, c);
      SendsBackAgain(t, coll, c);
      var u, d := Replaced(t, c), c.(expected := Some(r + 1));
      KeepsProduct(t, u, p, r + 1);
      ReturnableLater(t, u, p, c.actor, r + 1);
      SaveBackIsOnTarget(u, coll, d);
      EveryRevisionIsReached(u, coll, d, n);
      OneRevisionMore(t, c, p, r + 1, n);
    }
  }

  lemma SentIsFresh(t: Tables, coll: Collation, c: Call)
    requires SendsBack(t, coll, c)
    ensures OracleFresh(t, c)
  {
  }

  lemma OnTargetIsNoFailure(t: Tables, c: Call)
    requires OnTarget(t, c)
    ensures TargetFailure(t, c).None?
  {
  }

  /** At the greatest revision the document is still valid, and saving it back is aborted. */
  lemma LastRevisionIsAborted(t: Tables, coll: Collation, c: Call)
    requires SendsBack(t, coll, c) && t.products[c.target.value].revision == MAX_REVISION
    requires |VariantsOf(t, c.target.value)| <= 50
    requires OnSale(t.variants, c.target.value, t.products[c.target.value].status)
    ensures DraftOk(c.draft) && Verdict(t, c) == Some(Aborted)
  {
    hide Inv, Source, OracleFresh, EditorDraft, DraftOk, Verdict, OnSale, VariantsOf;
    SaveBackDraftExactly(t, coll, c);
    SaveBackIsOnTarget(t, coll, c);
    OnTargetIsNoFailure(t, c);
    AtMaxRevisionAborts(t, c);
  }

  // Such a product.

  /** The first product of a shop, as created. */
  function Made(g: Stage, v: Uuid): Tables { Replaced(Empty(Shop(g)), Creation(g, v, v)) }

  lemma MadeIsReturnable(g: Stage, v: Uuid)
    ensures g.product in Made(g, v).products && Made(g, v).products[g.product].revision == 1
    ensures |VariantsOf(Made(g, v), g.product)| == 1 && Returnable(Made(g, v), g.product, g.user)
    ensures Made(g, v).products.Keys == {g.product} && Made(g, v).variants.Keys == {v}
    ensures Made(g, v).variants[v].product == g.product
  {
    hide Replaced, Creation;
    CreationWrites(g, v, v);
    var t := Made(g, v);
    assert VariantsOf(t, g.product) == t.variants;
    assert v in t.variants && t.variants[v].active;
  }

  lemma MadeHoldsInv(g: Stage, v: Uuid)
    requires Canonical(g.category) && Canonical(g.product) && Canonical(v) && g.product != v
    ensures Inv(Made(g, v))
  {
    hide Inv, Carried, OracleFresh, Creation, Canonical;
    IdIsText(v);
    CreationIsCarried(g, v, v);
    ShopIsCanonical(g);
    EmptyIsFine(Shop(g));
    SaveKeepsInv(Empty(Shop(g)), Creation(g, v, v));
  }

  /** In any reachable state: a returnable product can be brought to the greatest revision. */
  lemma ReturnsRunUp(t: Tables, coll: Collation, p: Uuid, user: Uuid, spares: seq<Uuid>)
    requires p in t.products && Spare(t, p, spares) && Returnable(t, p, user) && coll.Valid() && Inv(t)
    ensures ReachesRevision(t, p, MAX_REVISION)
  {
    hide Inv, Source, EditorDraft, SendsBack, Returnable, ReachesRevision, Spare, Return;
    ReturnIsSent(t, coll, p, user, spares);
    var c := Return(t, coll, p, user, spares);
    ReturnGoesTo(t, coll, p, user, spares);
    SaveBackIsOnTarget(t, coll, c);
    ReturnableHasRoom(t, p, user);
    EveryRevisionIsReached(t, coll, c, MAX_REVISION);
  }

  lemma ReturnableHasRoom(t: Tables, p: Uuid, user: Uuid)
    requires p in t.products && Returnable(t, p, user)
    ensures t.products[p].revision < MAX_REVISION
  {
  }

  /** A run from the empty tables to the greatest revision, the product otherwise as it was created. */
  ghost predicate RunsOut(g: Stage, v: Uuid, ops: seq<Op>)
  {
    && RunOk(Empty(Shop(g)), ops)
    && var t := After(Empty(Shop(g)), ops);
       && t.products.Keys == {g.product} && t.products[g.product].revision == MAX_REVISION && t.variants.Keys == {v}
       && |VariantsOf(t, g.product)| == 1 && OnSale(t.variants, g.product, t.products[g.product].status) && Inv(t)
  }

  lemma MadeRunsOut(g: Stage, v: Uuid, ops: seq<Op>)
    requires Canonical(g.category) && Canonical(g.product) && Canonical(v) && g.product != v
    requires RunOk(Made(g, v), ops) && g.product in Made(g, v).products
    requires Later(Made(g, v), After(Made(g, v), ops), g.product, MAX_REVISION)
    ensures RunsOut(g, v, [Save(Creation(g, v, v))] + ops)
  {
    hide Inv, Carried, OracleFresh, Creation, Canonical, Replaced, RefsCanonical;
    var c, t := Creation(g, v, v), Made(g, v);
    IdIsText(v);
    CreationIsCarried(g, v, v);
    AcceptedTarget(Empty(Shop(g)), c);
    CarriedStep(Empty(Shop(g)), c);
    var all := [Save(c)] + ops;
    assert all[0] == Save(c) && all[1..] == ops;
    assert RunOk(Empty(Shop(g)), all) && After(Empty(Shop(g)), all) == After(t, ops);
    MadeHoldsInv(g, v);
    RunKeepsInv(t, ops);
    MadeIsReturnable(g, v);
  }

  lemma OneVariantHasSpares(t: Tables)
    requires t.products.Keys == {STAGE.product} && t.variants.Keys == {Numbered(0)}
    requires |VariantsOf(t, STAGE.product)| == 1
    ensures Spare(t, STAGE.product, Pool(1, 2))
  {
    hide Numbered, Canonical, Pool, VariantsOf;
    PoolIsDistinct(1, 2);
    NotInPool(1, 2, 0);
    NotInPool(1, 2, 254);
  }

  /** The greatest revision is reached, by a product that nothing else keeps from being saved. */
  lemma GreatestRevisionIsReached(coll: Collation)
    requires coll.Valid()
    ensures exists ops :: RunsOut(STAGE, Numbered(0), ops)
  {
    hide Inv, Source, Returnable, RunsOut, Later, Made, Canonical, Numbered, Spare, VariantsOf;
    var v, t := Numbered(0), Made(STAGE, Numbered(0));
    FewNumbers();
    MadeIsReturnable(STAGE, v);
    MadeHoldsInv(STAGE, v);
    OneVariantHasSpares(t);
    ReturnsRunUp(t, coll, STAGE.product, STAGE.user, Pool(1, 2));
    var ops :| RunOk(t, ops) && Later(t, After(t, ops), STAGE.product, MAX_REVISION);
    MadeRunsOut(STAGE, v, ops);
  }

  /** There the document as it was read is valid, goes back and is aborted. */
  ghost predicate Exhausted(ops: seq<Op>, coll: Collation, c: Call)
  {
    && RunsOut(STAGE, Numbered(0), ops)
    && var t := After(Empty(Shop(STAGE)), ops);
       && SendsBack(t, coll, c) && c.target == Some(STAGE.product)
       && DraftOk(c.draft) && Verdict(t, c) == Some(Aborted)
  }

  lemma RunsOutMeans(g: Stage, v: Uuid, ops: seq<Op>)
    requires RunsOut(g, v, ops)
    ensures RunOk(Empty(Shop(g)), ops)
    ensures var t := After(Empty(Shop(g)), ops);
      && t.products.Keys == {g.product} && t.products[g.product].revision == MAX_REVISION && t.variants.Keys == {v}
      && |VariantsOf(t, g.product)| == 1 && OnSale(t.variants, g.product, t.products[g.product].status) && Inv(t)
  {
  }

  /** There is a run from the empty tables after which a valid document is aborted. */
  lemma GreatestRevisionIsStuck(coll: Collation)
    requires coll.Valid()
    ensures exists ops, c :: Exhausted(ops, coll, c)
  {
    hide Inv, Source, SendsBack, Return, Spare, RunsOut, Numbered, Pool, VariantsOf, OnSale, DraftOk, Verdict;
    GreatestRevisionIsReached(coll);
    var ops :| RunsOut(STAGE, Numbered(0), ops);
    RunsOutMeans(STAGE, Numbered(0), ops);
    var t := After(Empty(Shop(STAGE)), ops);
    OneVariantHasSpares(t);
    ReturnIsSent(t, coll, STAGE.product, STAGE.user, Pool(1, 2));
    var c := Return(t, coll, STAGE.product, STAGE.user, Pool(1, 2));
    ReturnGoesTo(t, coll, STAGE.product, STAGE.user, Pool(1, 2));
    LastRevisionIsAborted(t, coll, c);
    assert Exhausted(ops, coll, c);
  }

  lemma FewNumbers()
    ensures Canonical(Numbered(0)) && Canonical(Numbered(253)) && Canonical(Numbered(254))
    ensures Numbered(0) != Numbered(254)
  {
    hide Numbered, Canonical;
    NumberedIsCanonical(0);
    NumberedIsCanonical(253);
    NumberedIsCanonical(254);
    NumberedApart(0, 254);
  }
}
