/** `parseFilter`: query parameters to a filter the list query can run. */
module FilterParsing {
  import opened Wrappers
  import opened Uuids
  import opened Utf8
  import opened Decimals
  import opened CatalogTables
  import opened CatalogQuery
  import opened CatalogPages

  type Parameters = map<string, string>

  const MAX_LIMIT: nat := 48
  const SORTS: set<string> := {"newest", "price_asc", "price_desc", "name"}

  function Parameter(q: Parameters, key: string): string { if key in q then q[key] else "" }

  function OrElse(value: string, fallback: string): string { if value == "" then fallback else value }

  predicate AllZeros(s: string) { forall i :: 0 <= i < |s| ==> s[i] == '0' }

  /** What `integer` makes of a parameter. A minus sign is read, and only minus zero survives the range check. */
  function IntegerOf(input: string, fallback: nat, maximum: nat): Option<nat>
  {
    if input == "" then Some(fallback)
    else if input[0] == '-' then if |input| > 1 && AllZeros(input[1..]) then Some(0) else None
    else if AllDigits(input) && Decimal(input) <= maximum then Some(Decimal(input))
    else None
  }

  lemma {:induction false} ZeroIsZeros(s: string)
    requires AllDigits(s)
    ensures Decimal(s) == 0 <==> AllZeros(s)
  {
    if s != "" { ZeroIsZeros(s[..|s| - 1]); }
  }

  /** `integer`: `from_chars` into 64 signed bits, then the range check. */
  method Integer(input: string, fallback: nat, maximum: nat) returns (r: Option<nat>)
    requires maximum <= 0x7FFF_FFFF_FFFF_FFFF
    ensures r == IntegerOf(input, fallback, maximum)
  {
    if input == "" { return Some(fallback); }
    if input[0] == '-' {
      if |input| == 1 { return None; }
      r := FromChars(input[1..], 0x8000_0000_0000_0000);
      if AllDigits(input[1..]) { ZeroIsZeros(input[1..]); } else { assert !AllZeros(input[1..]); }
      if r.Some? && r.value > 0 { return None; }
      return;
    }
    r := FromChars(input, 0x7FFF_FFFF_FFFF_FFFF);
    if r.Some? && r.value > maximum { return None; }
  }

  function PageOf(q: Parameters): Option<nat> { IntegerOf(Parameter(q, "page"), 1, MAX_PAGE) }

  function LimitOf(q: Parameters): Option<nat> { IntegerOf(Parameter(q, "limit"), 12, MAX_LIMIT) }

  function MinPriceOf(q: Parameters): Option<nat> { IntegerOf(Parameter(q, "minPrice"), 0, MAX_PRICE) }

  function MaxPriceOf(q: Parameters): Option<nat> { IntegerOf(Parameter(q, "maxPrice"), MAX_PRICE, MAX_PRICE) }

  predicate TextsOk(q: Parameters)
  {
    && OrElse(Parameter(q, "locale"), "ru") in LOCALES
    && |Encode(Parameter(q, "q"))| <= 200
    && (Parameter(q, "category") == "" || IsUuid(Parameter(q, "category")))
    && (Parameter(q, "brand") == "" || IsUuid(Parameter(q, "brand")))
    && OrElse(Parameter(q, "sort"), "newest") in SORTS
  }

  predicate NumbersOk(q: Parameters)
  {
    && PageOf(q).Some? && LimitOf(q).Some? && MinPriceOf(q).Some? && MaxPriceOf(q).Some?
    && PageOf(q).value != 0 && LimitOf(q).value != 0 && MinPriceOf(q).value <= MaxPriceOf(q).value
  }

  function FilterOf(q: Parameters): Filter
    requires NumbersOk(q)
  {
    Filter(OrElse(Parameter(q, "locale"), "ru"), Parameter(q, "q"), Parameter(q, "category"), Parameter(q, "brand"),
           OrElse(Parameter(q, "sort"), "newest"), PageOf(q).value, LimitOf(q).value, MinPriceOf(q).value,
             MaxPriceOf(q).value)
  }

  lemma NumbersInRange(q: Parameters)
    ensures PageOf(q).Some? ==> PageOf(q).value <= MAX_PAGE
    ensures LimitOf(q).Some? ==> LimitOf(q).value <= MAX_LIMIT
    ensures MinPriceOf(q).Some? ==> MinPriceOf(q).value <= MAX_PRICE
    ensures MaxPriceOf(q).Some? ==> MaxPriceOf(q).value <= MAX_PRICE
  {
  }

  /** The parameter, or nothing. */
  function Given(q: Parameters, key: string): string { if key !in q then "" else q[key] }

  predicate OneOf(v: string, choices: seq<string>) { exists i :: 0 <= i < |choices| && choices[i] == v }

  /** Absent, or a number from `least` to `most`; a minus sign only before zeros. */
  ghost predicate NumberFrom(least: nat, most: nat, v: string)
  {
    || v == ""
    || (v != "" && AllDigits(v) && least <= Decimal(v) <= most)
    || (least == 0 && |v| >= 2 && v[0] == '-' && forall i :: 1 <= i < |v| ==> v[i] == '0')
  }

  /** The number given, or the default. */
  function Value(v: string, default: nat): nat
  {
    if v == "" then default else if AllDigits(v) then Decimal(v) else 0
  }

  lemma NumberIs(v: string, fallback: nat, most: nat)
    requires fallback <= most
    ensures IntegerOf(v, fallback, most).Some? <==> NumberFrom(0, most, v)
    ensures IntegerOf(v, fallback, most).Some? ==> IntegerOf(v, fallback, most).value == Value(v, fallback)
  {
    if v != "" && v[0] == '-' { assert !Digit(v[0]); }
  }

  /** Which requests are understood, parameter by parameter. */
  lemma UnderstoodExactly(q: Parameters)
    ensures TextsOk(q) && NumbersOk(q) <==>
      && OneOf(Given(q, "locale"), ["", "ru", "ro"])
      && |Encode(Given(q, "q"))| <= 200
      && (Given(q, "category") != "" ==> IsUuid(Given(q, "category")))
      && (Given(q, "brand") != "" ==> IsUuid(Given(q, "brand")))
      && OneOf(Given(q, "sort"), ["", "newest", "price_asc", "price_desc", "name"])
      && NumberFrom(1, 10000, Given(q, "page")) && NumberFrom(1, 48, Given(q, "limit"))
      && NumberFrom(0, 100000000, Given(q, "minPrice")) && NumberFrom(0, 100000000, Given(q, "maxPrice"))
      && Value(Given(q, "minPrice"), 0) <= Value(Given(q, "maxPrice"), 100000000)
  {
    TextsExactly(q);
    NumbersExactly(q);
    hide *;
  }

  lemma TextsExactly(q: Parameters)
    ensures TextsOk(q) <==>
      && OneOf(Given(q, "locale"), ["", "ru", "ro"])
      && |Encode(Given(q, "q"))| <= 200
      && (Given(q, "category") != "" ==> IsUuid(Given(q, "category")))
      && (Given(q, "brand") != "" ==> IsUuid(Given(q, "brand")))
      && OneOf(Given(q, "sort"), ["", "newest", "price_asc", "price_desc", "name"])
  {
    forall key ensures Given(q, key) == Parameter(q, key) { }
    LocaleIs(Given(q, "locale"));
    SortIs(Given(q, "sort"));
    hide IsUuid, Encode, Given, Parameter, OrElse, OneOf;
  }

  lemma LocaleIs(v: string)
    ensures OrElse(v, "ru") in LOCALES <==> OneOf(v, ["", "ru", "ro"])
  {
    var choices := ["", "ru", "ro"];
    assert choices[0] == "" && choices[1] == "ru" && choices[2] == "ro";
  }

  lemma SortIs(v: string)
    ensures OrElse(v, "newest") in SORTS <==> OneOf(v, ["", "newest", "price_asc", "price_desc", "name"])
  {
    var choices := ["", "newest", "price_asc", "price_desc", "name"];
    assert choices[0] == "" && choices[1] == "newest" && choices[2] == "price_asc" && choices[3] == "price_desc"
      && choices[4] == "name";
  }

  lemma NumbersExactly(q: Parameters)
    ensures NumbersOk(q) <==>
      && NumberFrom(1, 10000, Given(q, "page")) && NumberFrom(1, 48, Given(q, "limit"))
      && NumberFrom(0, 100000000, Given(q, "minPrice")) && NumberFrom(0, 100000000, Given(q, "maxPrice"))
      && Value(Given(q, "minPrice"), 0) <= Value(Given(q, "maxPrice"), 100000000)
  {
    NumberIs(Given(q, "page"), 1, 10000);
    NumberIs(Given(q, "limit"), 12, 48);
    NumberIs(Given(q, "minPrice"), 0, 100000000);
    NumberIs(Given(q, "maxPrice"), 100000000, 100000000);
    NotZero(Given(q, "page"), 10000, 1);
    NotZero(Given(q, "limit"), 48, 12);
    hide IntegerOf, NumberFrom, Value;
  }

  lemma NotZero(v: string, most: nat, default: nat)
    requires 1 <= default
    ensures NumberFrom(1, most, v) <==> NumberFrom(0, most, v) && Value(v, default) != 0
  {
    if |v| >= 2 && v[0] == '-' { assert !Digit(v[0]); }
  }

  /** What a request asks for, field by field, with the default of each. */
  lemma FilterSays(q: Parameters)
    requires TextsOk(q) && NumbersOk(q)
    ensures var f := FilterOf(q);
      && f.locale == (if Given(q, "locale") == "" then "ru" else Given(q, "locale"))
      && f.query == Given(q, "q") && f.category == Given(q, "category") && f.brand == Given(q, "brand")
      && f.sort == (if Given(q, "sort") == "" then "newest" else Given(q, "sort"))
      && f.page == Value(Given(q, "page"), 1) && f.limit == Value(Given(q, "limit"), 12)
      && f.minPrice == Value(Given(q, "minPrice"), 0) && f.maxPrice == Value(Given(q, "maxPrice"), 100000000)
  {
    NumberIs(Given(q, "page"), 1, 10000);
    NumberIs(Given(q, "limit"), 12, 48);
    NumberIs(Given(q, "minPrice"), 0, 100000000);
    NumberIs(Given(q, "maxPrice"), 100000000, 100000000);
    hide IntegerOf, NumberFrom, Value, TextsOk;
  }

  /** `parseFilter`: None when it throws INVALID_FILTER. Whatever it accepts can be listed: a page within the
      cap, one to 48 rows, a price range in range. */
  method ParseFilter(q: Parameters) returns (r: Option<Filter>)
    ensures r.Some? <==> TextsOk(q) && NumbersOk(q)
    ensures r.Some? ==> r.value == FilterOf(q)
    ensures r.Some? ==> 1 <= r.value.page <= 10000 && 1 <= r.value.limit <= 48
    ensures r.Some? ==> 0 <= r.value.minPrice <= r.value.maxPrice <= 100000000
    ensures r.Some? ==> r.value.locale in LOCALES && Offset(r.value.page, r.value.limit) <= 0x7FFF_FFFF
  {
    hide IsUuid, Encode, IntegerOf, Offset;
    NumbersInRange(q);
    var locale := OrElse(Parameter(q, "locale"), "ru");
    if locale != "ru" && locale != "ro" { return None; }
    var query, category, brand := Parameter(q, "q"), Parameter(q, "category"), Parameter(q, "brand");
    if |Encode(query)| > 200 || (category != "" && !IsUuid(category)) || (brand != "" && !IsUuid(brand)) {
      return None;
    }
    var sort := OrElse(Parameter(q, "sort"), "newest");
    if sort != "newest" && sort != "price_asc" && sort != "price_desc" && sort != "name" { return None; }
    var page := Integer(Parameter(q, "page"), 1, MAX_PAGE);
    if page.None? { return None; }
    var limit := Integer(Parameter(q, "limit"), 12, MAX_LIMIT);
    if limit.None? { return None; }
    var minPrice := Integer(Parameter(q, "minPrice"), 0, MAX_PRICE);
    if minPrice.None? { return None; }
    var maxPrice := Integer(Parameter(q, "maxPrice"), MAX_PRICE, MAX_PRICE);
    if maxPrice.None? { return None; }
    if page.value == 0 || limit.value == 0 || minPrice.value > maxPrice.value { return None; }
    OffsetFits(page.value, limit.value);
    r := Some(Filter(locale, query, category, brand, sort, page.value, limit.value, minPrice.value, maxPrice.value));
  }

  lemma {:induction false} ProductIsBounded(a: nat, b: nat)
    requires b <= 48
    ensures a * b <= 48 * a
  {
    if a > 0 {
      ProductIsBounded(a - 1, b);
      assert a * b == (a - 1) * b + b;
    }
  }

  lemma OffsetFits(page: nat, limit: nat)
    requires 1 <= page <= MAX_PAGE && limit <= 48
    ensures Offset(page, limit) <= 480000
  {
    ProductIsBounded(page - 1, limit);
  }
}
