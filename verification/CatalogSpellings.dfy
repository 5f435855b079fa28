/** What goes wrong when a draft names one variant row in two spellings: validation compares the
    raw strings, the database compares uuid values. */
module CatalogSpellings {
  import opened Wrappers
  import opened Uuids
  import opened Orders
  import opened Utf8
  import opened CatalogTables
  import opened DraftValidation
  import opened CatalogSaveSpec
  import opened CatalogSaveTheorems
  import opened CatalogRuns
  import opened CatalogOffers
  import opened CatalogExamples

  /** Ids to play it with: `spelling` is another spelling of `variant`. */
  datatype Cast = Cast(stage: Stage, variant: Uuid, spelling: string, spare: seq<Uuid>)

  ghost predicate Suits(x: Cast)
  {
    && Canonical(x.stage.category) && Canonical(x.stage.product) && Canonical(x.variant)
    && IsUuid(x.spelling) && Canon(x.spelling) == x.variant && x.spelling != x.variant
    && |x.spare| == 3 && Distinct([x.stage.product, x.variant] + x.spare) && forall k :: k in x.spare ==> Canonical(k)
  }

  /** Names the variant twice, in two spellings; only the first is available. */
  function Edit(x: Cast): Call
  {
    Call(DraftWith(x.stage, [Plain(Some(x.spelling), "s", true), Plain(Some(x.variant), "t", false)]),
         x.stage.user, x.stage.user, Some(x.stage.product), Some(1), 0, x.spare)
  }

  /** The tables the creation leaves. */
  ghost predicate Made(t: Tables, x: Cast)
  {
    && t.refs == Shop(x.stage) && t.products == map[x.stage.product := ProductRow("a", None, "active", 1, 0)]
    && t.variants.Keys == {x.variant} && t.variants[x.variant].product == x.stage.product
  }

  /** The one variant row is the row both draft variants name, so no SKU is held by another. */
  lemma EditHoldsNoSku(t: Tables, x: Cast, i: nat)
    requires Suits(x) && t.variants.Keys == {x.variant} && i < 2
    ensures !SkuHeld(t, Edit(x), i) && VariantKey(Edit(x), i) == x.variant
  {
    var c := Edit(x);
    assert VariantKey(c, 0) == x.variant && VariantKey(c, 1) == x.variant;
    forall v | v in VariantsAfter(t, c, i) ensures v == x.variant {
      LastNamingIsNamed(c, i, v);
    }
  }

  lemma EditIsFresh(t: Tables, x: Cast)
    requires Suits(x) && t.variants.Keys == {x.variant} && t.products.Keys == {x.stage.product}
    ensures OracleFresh(t, Edit(x))
  {
    var five := [x.stage.product, x.variant] + x.spare;
    assert five[0] == x.stage.product && five[1] == x.variant && five[2] == x.spare[0] && five[3] == x.spare[1]
      && five[4] == x.spare[2];
  }

  lemma EditIsValid(x: Cast)
    requires Suits(x)
    ensures DraftOk(Edit(x).draft)
  {
    hide DraftOk, IsUuid, Canon;
    var vs := Edit(x).draft.variants;
    assert !BlankChar("s"[0]) && !BlankChar("t"[0]);
    PlainIsOk(vs[0]);
    PlainIsOk(vs[1]);
    DraftWithIsOk(x.stage, vs);
  }

  lemma EditIsCarried(t: Tables, x: Cast)
    requires Suits(x) && Made(t, x)
    ensures Carried(t, Edit(x)) && Verdict(t, Edit(x)).None?
  {
    hide SkuHeld, Verdict, DraftOk, IsUuid, Canon, Named;
    var c := Edit(x);
    EditIsValid(x);
    EditHoldsNoSku(t, x, 0);
    EditHoldsNoSku(t, x, 1);
    PlainDraftIsCarried(t, x.stage, c);
  }

  lemma EditIsOverridden(x: Cast)
    requires Suits(x)
    ensures var d := Edit(x).draft;
      && Key(Edit(x)) == x.stage.product && d.status == "active" && !DistinctIds(d)
      && !SomeAvailableStays(d)
  {
    var d := Edit(x).draft;
    assert SameRow(d, 0, 1);
    assert Overridden(d, 0);
  }

  lemma EditLosesAvailability(t: Tables, x: Cast)
    requires Suits(x) && Made(t, x)
    ensures OracleFresh(t, Edit(x)) && Carried(t, Edit(x)) && !AvailableAfter(t, Edit(x))
  {
    hide Verdict, Carried, OracleFresh, Edit, AvailableAfter, Suits;
    EditIsFresh(t, x);
    EditIsCarried(t, x);
    EditIsOverridden(x);
    AvailableUnlessOverridden(t, Edit(x));
  }

  function Start(x: Cast): Call { Creation(x.stage, x.variant, "s") }

  function Begun(x: Cast): Tables { Replaced(Empty(Shop(x.stage)), Start(x)) }

  lemma StartIsCarried(x: Cast)
    requires Suits(x)
    ensures OracleFresh(Empty(Shop(x.stage)), Start(x)) && Carried(Empty(Shop(x.stage)), Start(x))
  {
    var five := [x.stage.product, x.variant] + x.spare;
    assert five[0] == x.stage.product && five[1] == x.variant;
    assert !BlankChar("s"[0]);
    CreationIsCarried(x.stage, x.variant, "s");
  }

  lemma BegunIsMade(x: Cast)
    ensures Made(Begun(x), x)
  {
    hide Replaced, Creation, Shop;
    CreationWrites(x.stage, x.variant, "s");
  }

  /** From a reachable state, an accepted save of an active product leaves it with no available variant. */
  lemma SpellingsDefeatAvailability(x: Cast)
    requires Suits(x)
    ensures OracleFresh(Empty(Shop(x.stage)), Start(x)) && Carried(Empty(Shop(x.stage)), Start(x))
    ensures OracleFresh(Begun(x), Edit(x)) && Carried(Begun(x), Edit(x))
    ensures Key(Edit(x)) == x.stage.product && Edit(x).draft.status == "active"
    ensures !StaysOnSale(Edit(x).draft) && !AvailableAfter(Begun(x), Edit(x))
  {
    hide Begun, Start, Made, Carried, OracleFresh, AvailableAfter, Suits, SomeAvailableStays;
    StartIsCarried(x);
    BegunIsMade(x);
    EditLosesAvailability(Begun(x), x);
    EditIsOverridden(x);
  }

  function Id(c: char): (s: string)
    ensures |s| == 36
  {
    seq(36, i => if i in {8, 13, 18, 23} then '-' else c)
  }

  lemma IdIsUuid(c: char)
    requires IsHex(c)
    ensures IsUuid(Id(c)) && Canon(Id(c)) == Id(Lower(c)) && Id(c)[0] == c
  {
    assert Canon(Id(c)) == Id(Lower(c));
  }

  /** Such ids exist: aaaaaaaa-aaaa-... and AAAAAAAA-AAAA-... are one uuid. */
  lemma SomeCastSuits()
    ensures Suits(Cast(Stage(Id('1'), Id('2'), Id('3')), Id('a'), Id('A'), [Id('4'), Id('5'), Id('6')]))
  {
    IdIsUuid('2');
    IdIsUuid('3');
    IdIsUuid('a');
    IdIsUuid('A');
    IdIsUuid('4');
    IdIsUuid('5');
    IdIsUuid('6');
  }
}
