/** The libpq connection string `Config::load` assembles, and the parser of section "Keyword/Value
    Connection Strings" of the PostgreSQL manual that reads it back. */
module ConnectionString {
  import opened Wrappers
  import opened Decimals
  import Utf8

  // Printing.

  function EscapedChar(c: char): string { if c == '\'' || c == '\\' then ['\\', c] else [c] }

  function Escaped(value: string): string
  {
    if value == "" then "" else EscapedChar(value[0]) + Escaped(value[1..])
  }

  function Quoted(value: string): string { "'" + Escaped(value) + "'" }

  lemma {:induction false} EscapedConcat(a: string, b: string)
    ensures Escaped(a + b) == Escaped(a) + Escaped(b)
  {
    if a == "" {
      assert a + b == b;
    } else {
      assert (a + b)[1..] == a[1..] + b;
      EscapedConcat(a[1..], b);
    }
  }

  lemma EscapedOne(c: char)
    ensures Escaped([c]) == EscapedChar(c)
  {
    assert [c][1..] == "";
  }

  /** `quote`. */
  method Quote(value: string) returns (r: string)
    ensures r == Quoted(value)
  {
    assert Escaped("") == "";
    hide Escaped;
    r := "'";
    var i := 0;
    while i < |value|
      invariant 0 <= i <= |value| && r == "'" + Escaped(value[..i])
    {
      EscapedConcat(value[..i], [value[i]]);
      EscapedOne(value[i]);
      assert value[..i + 1] == value[..i] + [value[i]];
      if value[i] == '\'' || value[i] == '\\' { r := r + "\\"; }
      r := r + [value[i]];
      i := i + 1;
    }
    assert value[..i] == value;
    r := r + "'";
  }

  // Parsing.

  predicate Blank(c: char) { c == ' ' || '\t' <= c <= '\r' }

  function SkipBlanks(s: string): (r: string)
    ensures |r| <= |s| && (r != "" ==> !Blank(r[0]))
  {
    if s != "" && Blank(s[0]) then SkipBlanks(s[1..]) else s
  }

  /** A parsed piece and what follows it. */
  datatype Scan = Scan(value: string, rest: string)

  function ScanName(s: string): (r: Scan)
    ensures |r.value| + |r.rest| == |s|
  {
    if s == "" || s[0] == '=' || Blank(s[0]) then Scan("", s)
    else var r := ScanName(s[1..]); Scan([s[0]] + r.value, r.rest)
  }

  /** Up to a blank; a backslash takes the next character as it is. */
  function ScanPlain(s: string): (r: Scan)
    ensures |r.rest| <= |s|
  {
    if s == "" || Blank(s[0]) then Scan("", s)
    else if s[0] == '\\' then
      if |s| == 1 then Scan("", "") else var r := ScanPlain(s[2..]); Scan([s[1]] + r.value, r.rest)
    else var r := ScanPlain(s[1..]); Scan([s[0]] + r.value, r.rest)
  }

  /** Up to the closing quote; None when there is none. */
  function ScanQuoted(s: string): (r: Option<Scan>)
    ensures r.Some? ==> |r.value.rest| < |s|
  {
    if s == "" then None
    else if s[0] == '\'' then Some(Scan("", s[1..]))
    else if s[0] == '\\' then
      if |s| == 1 then None
      else var r := ScanQuoted(s[2..]); if r.None? then None else Some(Scan([s[1]] + r.value.value, r.value.rest))
    else var r := ScanQuoted(s[1..]); if r.None? then None else Some(Scan([s[0]] + r.value.value, r.value.rest))
  }

  function ScanValue(s: string): (r: Option<Scan>)
    ensures r.Some? ==> |r.value.rest| <= |s|
  {
    if s != "" && s[0] == '\'' then ScanQuoted(s[1..]) else Some(ScanPlain(s))
  }

  /** The settings of a connection string, in order; None is a syntax error. */
  function Parse(s: string): Option<seq<(string, string)>>
    decreases |s|
  {
    var t := SkipBlanks(s);
    if t == "" then Some([])
    else
      var name := ScanName(t);
      var u := SkipBlanks(name.rest);
      if u == "" || u[0] != '=' then None
      else
        var value := ScanValue(SkipBlanks(u[1..]));
        if value.None? then None
        else
          var more := Parse(value.value.rest);
          if more.None? then None else Some([(name.value, value.value.value)] + more.value)
  }

  // What was printed is parsed.

  datatype Item = Item(keyword: string, value: string, quoted: bool)

  predicate NameLike(s: string)
  {
    s != "" && forall i :: 0 <= i < |s| ==> s[i] != '=' && !Blank(s[i])
  }

  predicate PlainText(s: string)
  {
    s != "" && forall i :: 0 <= i < |s| ==> s[i] != '\'' && s[i] != '\\' && !Blank(s[i])
  }

  predicate Sound(x: Item) { NameLike(x.keyword) && (!x.quoted ==> PlainText(x.value)) }

  function ValueText(x: Item): string { if x.quoted then Quoted(x.value) else x.value }

  function ItemText(x: Item): string { x.keyword + "=" + ValueText(x) }

  function Text(items: seq<Item>): string
  {
    if items == [] then "" else if |items| == 1 then ItemText(items[0]) else ItemText(items[0]) + " " + Text(items[1..])
  }

  function Pairs(items: seq<Item>): (r: seq<(string, string)>)
    ensures |r| == |items| && forall i :: 0 <= i < |r| ==> r[i] == (items[i].keyword, items[i].value)
  {
    seq(|items|, i requires 0 <= i < |items| => (items[i].keyword, items[i].value))
  }

  lemma {:induction false} NameScanned(name: string, rest: string)
    requires NameLike(name) || name == ""
    requires rest != "" && rest[0] == '='
    ensures ScanName(name + rest) == Scan(name, rest)
  {
    if name == "" {
      assert name + rest == rest;
    } else {
      assert (name + rest)[1..] == name[1..] + rest;
      NameScanned(name[1..], rest);
      assert [name[0]] + name[1..] == name;
    }
  }

  lemma {:induction false} PlainScanned(value: string, rest: string)
    requires PlainText(value) || value == ""
    requires rest == "" || rest[0] == ' '
    ensures ScanPlain(value + rest) == Scan(value, rest)
  {
    if value == "" {
      assert value + rest == rest;
    } else {
      assert (value + rest)[1..] == value[1..] + rest;
      PlainScanned(value[1..], rest);
      assert [value[0]] + value[1..] == value;
    }
  }

  lemma {:induction false} QuotedScanned(value: string, rest: string)
    ensures ScanQuoted(Escaped(value) + "'" + rest) == Some(Scan(value, rest))
  {
    var s := Escaped(value) + "'" + rest;
    if value == "" {
      assert s == "'" + rest;
    } else {
      var tail := Escaped(value[1..]) + "'" + rest;
      QuotedScanned(value[1..], rest);
      assert [value[0]] + value[1..] == value;
      hide ScanQuoted;
      assert s == EscapedChar(value[0]) + tail;
      CharScanned(value[0], tail);
    }
  }

  /** One character of the value, whatever follows it. */
  lemma CharScanned(c: char, tail: string)
    ensures ScanQuoted(EscapedChar(c) + tail) ==
      var more := ScanQuoted(tail); if more.None? then None else Some(Scan([c] + more.value.value, more.value.rest))
  {
    var s := EscapedChar(c) + tail;
    if c == '\'' || c == '\\' {
      assert s[2..] == tail;
    } else {
      assert s[1..] == tail;
    }
  }

  lemma ValueScanned(x: Item, rest: string)
    requires Sound(x) && (rest == "" || rest[0] == ' ')
    ensures SkipBlanks(ValueText(x) + rest) == ValueText(x) + rest
    ensures ScanValue(ValueText(x) + rest) == Some(Scan(x.value, rest))
  {
    hide ScanQuoted, ScanPlain, Escaped;
    var s := ValueText(x) + rest;
    if x.quoted {
      QuotedScanned(x.value, rest);
      assert s[1..] == Escaped(x.value) + "'" + rest;
    } else {
      PlainScanned(x.value, rest);
      assert s[0] == x.value[0];
    }
  }

  lemma ItemParsed(x: Item, rest: string)
    requires Sound(x) && (rest == "" || rest[0] == ' ')
    ensures Parse(ItemText(x) + rest) ==
      var more := Parse(rest); if more.None? then None else Some([(x.keyword, x.value)] + more.value)
  {
    var s := ItemText(x) + rest;
    var value := ValueText(x) + rest;
    assert s == x.keyword + ("=" + value) && s[0] == x.keyword[0];
    NameScanned(x.keyword, "=" + value);
    assert SkipBlanks(s) == s && SkipBlanks("=" + value) == "=" + value && ("=" + value)[1..] == value;
    ValueScanned(x, rest);
  }

  lemma LeadingBlank(s: string)
    ensures Parse(" " + s) == Parse(s)
  {
    assert (" " + s)[1..] == s;
    assert SkipBlanks(" " + s) == SkipBlanks(s);
  }

  lemma TextSplit(items: seq<Item>)
    requires items != []
    ensures Text(items) == ItemText(items[0]) + if |items| == 1 then "" else " " + Text(items[1..])
  {
    hide ItemText;
    assert ItemText(items[0]) + "" == ItemText(items[0]);
  }

  lemma PairsSplit(items: seq<Item>)
    requires items != []
    ensures Pairs(items) == [(items[0].keyword, items[0].value)] + Pairs(items[1..])
  {
  }

  lemma NothingParsed()
    ensures Parse("") == Some([])
  {
  }

  /** Parsing what was assembled gives back every keyword with its value. */
  lemma {:induction false} TextParsed(items: seq<Item>)
    requires forall x :: x in items ==> Sound(x)
    ensures Parse(Text(items)) == Some(Pairs(items))
  {
    NothingParsed();
    hide Parse, ItemText, Sound;
    if items == [] {
      assert Pairs(items) == [];
    } else {
      var x, rest := items[0], if |items| == 1 then "" else " " + Text(items[1..]);
      TextParsed(items[1..]);
      TextSplit(items);
      ItemParsed(x, rest);
      LeadingBlank(Text(items[1..]));
      PairsSplit(items);
    }
  }

  lemma {:induction false} TextAppend(items: seq<Item>, x: Item)
    requires items != []
    ensures Text(items + [x]) == Text(items) + " " + ItemText(x)
  {
    var all := items + [x];
    if |items| == 1 {
      assert all[1..] == [x];
    } else {
      assert all[1..] == items[1..] + [x];
      TextAppend(items[1..], x);
    }
  }

  // Loading.

  type Environment = map<string, string>

  function Read(env: Environment, key: string): string { if key in env then env[key] else "" }

  predicate RequiredOk(value: string)
  {
    value != "" && value != "replace-with-random-value" && |Utf8.Encode(value)| <= 4096 && '\r' !in value
      && '\n' !in value
  }

  /** What `number` accepts: digits only, not zero, at most `maximum`; nothing at all means the default. */
  function NumberOf(raw: string, fallback: nat, maximum: nat): Option<nat>
  {
    if raw == "" then Some(fallback)
    else if AllDigits(raw) && 0 < Decimal(raw) <= maximum then Some(Decimal(raw))
    else None
  }

  /** `number`: `from_chars` into 32 bits, then the range check. */
  method Number(raw: string, fallback: nat, maximum: nat) returns (r: Option<nat>)
    requires maximum <= 0xFFFF_FFFF
    ensures r == NumberOf(raw, fallback, maximum)
  {
    if raw == "" { return Some(fallback); }
    var value := FromChars(raw, 0xFFFF_FFFF);
    if value.None? || value.value == 0 || value.value > maximum { return None; }
    r := value;
  }

  datatype Config = Config(environment: string, port: nat, threads: nat, connection: string,
                           redisHost: string, redisPort: nat, redisPassword: string)

  function SslMode(env: Environment): string
  {
    if Read(env, "PGSSLMODE") == "" then "disable" else Read(env, "PGSSLMODE")
  }

  predicate NumbersOk(env: Environment)
  {
    && NumberOf(Read(env, "API_PORT"), 8080, 65535).Some? && NumberOf(Read(env, "API_THREADS"), 2, 64).Some?
    && NumberOf(Read(env, "PGPORT"), 5432, 65535).Some? && NumberOf(Read(env, "REDIS_PORT"), 6379, 65535).Some?
  }

  predicate SslOk(env: Environment)
  {
    && SslMode(env) in {"disable", "require", "verify-full"}
    && (Read(env, "APP_ENV") in {"production", "staging"} ==> SslMode(env) == "verify-full")
  }

  predicate DatabaseOk(env: Environment)
  {
    && RequiredOk(Read(env, "PGHOST")) && RequiredOk(Read(env, "PGDATABASE")) && RequiredOk(Read(env, "PGUSER"))
    && RequiredOk(Read(env, "PGPASSWORD")) && (SslMode(env) == "verify-full" ==> RequiredOk(Read(env, "PGSSLROOTCERT")))
  }

  /** The environments `load` accepts. */
  predicate LoadOk(env: Environment)
  {
    && RequiredOk(Read(env, "APP_ENV")) && Read(env, "APP_ENV") in {"development", "test", "staging", "production"}
    && NumbersOk(env) && SslOk(env) && DatabaseOk(env)
    && RequiredOk(Read(env, "REDIS_HOST")) && RequiredOk(Read(env, "REDIS_PASSWORD"))
  }

  predicate Usable(v: string)
  {
    v != "" && v != "replace-with-random-value" && |Utf8.Encode(v)| < 4097
    && forall i :: 0 <= i < |v| ==> v[i] != '\r' && v[i] != '\n'
  }

  predicate Between1And(most: nat, v: string)
  {
    v == "" || (AllDigits(v) && Decimal(v) != 0 && Decimal(v) <= most)
  }

  /** Which environments are accepted, key by key. */
  lemma LoadOkExactly(env: Environment)
    ensures LoadOk(env) <==>
      && Read(env, "APP_ENV") in {"staging", "production", "development", "test"}
      && Between1And(65535, Read(env, "API_PORT")) && Between1And(64, Read(env, "API_THREADS"))
      && Between1And(65535, Read(env, "PGPORT")) && Between1And(65535, Read(env, "REDIS_PORT"))
      && Read(env, "PGSSLMODE") in {"", "disable", "require", "verify-full"}
      && (Read(env, "APP_ENV") in {"production", "staging"} ==> Read(env, "PGSSLMODE") == "verify-full")
      && Usable(Read(env, "PGHOST")) && Usable(Read(env, "PGDATABASE")) && Usable(Read(env, "PGUSER"))
      && Usable(Read(env, "PGPASSWORD"))
      && (Read(env, "PGSSLMODE") == "verify-full" ==> Usable(Read(env, "PGSSLROOTCERT")))
      && Usable(Read(env, "REDIS_HOST")) && Usable(Read(env, "REDIS_PASSWORD"))
  {
    hide RequiredOk, Usable, Between1And, Read, NumbersOk, SslOk, DatabaseOk;
    NumbersExactly(env);
    SslExactly(env);
    DatabaseExactly(env);
    EnvironmentExactly(Read(env, "APP_ENV"));
    RequiredIsUsable(Read(env, "REDIS_HOST"));
    RequiredIsUsable(Read(env, "REDIS_PASSWORD"));
  }

  lemma NumbersExactly(env: Environment)
    ensures NumbersOk(env) <==>
      && Between1And(65535, Read(env, "API_PORT")) && Between1And(64, Read(env, "API_THREADS"))
      && Between1And(65535, Read(env, "PGPORT")) && Between1And(65535, Read(env, "REDIS_PORT"))
  {
    hide Read;
  }

  lemma SslExactly(env: Environment)
    ensures SslOk(env) <==>
      && Read(env, "PGSSLMODE") in {"", "disable", "require", "verify-full"}
      && (Read(env, "APP_ENV") in {"production", "staging"} ==> Read(env, "PGSSLMODE") == "verify-full")
    ensures SslMode(env) == "verify-full" <==> Read(env, "PGSSLMODE") == "verify-full"
    ensures SslMode(env) == if Read(env, "PGSSLMODE") == "" then "disable" else Read(env, "PGSSLMODE")
  {
    hide Read;
  }

  lemma DatabaseExactly(env: Environment)
    ensures DatabaseOk(env) <==>
      && Usable(Read(env, "PGHOST")) && Usable(Read(env, "PGDATABASE")) && Usable(Read(env, "PGUSER"))
      && Usable(Read(env, "PGPASSWORD"))
      && (Read(env, "PGSSLMODE") == "verify-full" ==> Usable(Read(env, "PGSSLROOTCERT")))
  {
    hide Read, RequiredOk, Usable, SslOk;
    SslExactly(env);
    RequiredIsUsable(Read(env, "PGHOST"));
    RequiredIsUsable(Read(env, "PGDATABASE"));
    RequiredIsUsable(Read(env, "PGUSER"));
    RequiredIsUsable(Read(env, "PGPASSWORD"));
    RequiredIsUsable(Read(env, "PGSSLROOTCERT"));
  }

  lemma EnvironmentExactly(v: string)
    ensures v in {"staging", "production", "development", "test"} ==> RequiredOk(v)
  {
    if v in {"staging", "production", "development", "test"} { ShortNameIsRequired(v); }
  }

  lemma ShortNameIsRequired(v: string)
    requires 1 <= |v| <= 11 && forall i :: 0 <= i < |v| ==> 'a' <= v[i] <= 'z'
    ensures RequiredOk(v)
  {
    Utf8.AsciiBytes(v);
    assert |"replace-with-random-value"| == 25;
  }

  lemma RequiredIsUsable(v: string)
    ensures RequiredOk(v) <==> Usable(v)
  {
  }

  function PgPort(env: Environment): nat
    requires NumbersOk(env)
  {
    NumberOf(Read(env, "PGPORT"), 5432, 65535).value
  }

  /** What libpq is to be told: where and as whom, then how. */
  function TargetItems(env: Environment): (r: seq<Item>)
    requires NumbersOk(env)
    ensures |r| == 5
  {
    [Item("host", Read(env, "PGHOST"), true), Item("port", Printed(PgPort(env)), false),
     Item("dbname", Read(env, "PGDATABASE"), true), Item("user", Read(env, "PGUSER"), true),
     Item("password", Read(env, "PGPASSWORD"), true)]
  }

  function OptionItems(env: Environment): seq<Item>
  {
    [Item("sslmode", SslMode(env), false), Item("connect_timeout", "3", false), Item("application_name", "bee", false)]
    + if SslMode(env) == "verify-full" then [Item("sslrootcert", Read(env, "PGSSLROOTCERT"), true)] else []
  }

  function ItemsOf(env: Environment): seq<Item>
    requires NumbersOk(env)
  {
    TargetItems(env) + OptionItems(env)
  }

  /** The i-th setting at the end of the string. */
  method Extend(s: string, keyword: string, value: string, ghost all: seq<Item>, ghost i: nat) returns (r: string)
    requires 0 < i < |all| && s == Text(all[..i]) && keyword == all[i].keyword && value == ValueText(all[i])
    ensures r == Text(all[..i + 1])
  {
    TextAppend(all[..i], all[i]);
    assert all[..i] + [all[i]] == all[..i + 1];
    r := s + " " + keyword + "=" + value;
    assert r == s + " " + ItemText(all[i]);
  }

  lemma FirstItem(items: seq<Item>)
    requires items != []
    ensures Text(items[..1]) == items[0].keyword + "=" + ValueText(items[0])
  {
  }

  lemma ItemsSplit(env: Environment)
    requires NumbersOk(env)
    ensures var all, options := ItemsOf(env), OptionItems(env);
      all[..5] == TargetItems(env) && |all| == 5 + |options| && forall i :: 0 <= i < |options| ==>
        all[5 + i] == options[i]
  {
    hide TargetItems, OptionItems;
  }

  method AssembleTarget(env: Environment) returns (s: string)
    requires NumbersOk(env)
    ensures s == Text(TargetItems(env))
  {
    hide Read, Printed, PgPort, Text, Quoted;
    ghost var all := TargetItems(env);
    var host := Quote(Read(env, "PGHOST"));
    s := "host" + "=" + host;
    FirstItem(all);
    s := Extend(s, "port", Printed(PgPort(env)), all, 1);
    var database := Quote(Read(env, "PGDATABASE"));
    s := Extend(s, "dbname", database, all, 2);
    var user := Quote(Read(env, "PGUSER"));
    s := Extend(s, "user", user, all, 3);
    var password := Quote(Read(env, "PGPASSWORD"));
    s := Extend(s, "password", password, all, 4);
    assert all[..5] == all;
  }

  /** The string, setting by setting as the code concatenates it. */
  method Assemble(env: Environment) returns (s: string)
    requires NumbersOk(env)
    ensures s == Text(ItemsOf(env))
  {
    hide Read, Printed, PgPort, Text, Quoted, TargetItems;
    s := AssembleTarget(env);
    ghost var all := ItemsOf(env);
    ItemsSplit(env);
    assert all[5] == OptionItems(env)[0];
    s := Extend(s, "sslmode", SslMode(env), all, 5);
    assert all[6] == OptionItems(env)[1];
    s := Extend(s, "connect_timeout", "3", all, 6);
    assert all[7] == OptionItems(env)[2];
    s := Extend(s, "application_name", "bee", all, 7);
    if SslMode(env) == "verify-full" {
      var cert := Quote(Read(env, "PGSSLROOTCERT"));
      assert all[8] == OptionItems(env)[3];
      s := Extend(s, "sslrootcert", cert, all, 8);
    }
    assert all[..|all|] == all;
  }

  /** `Config::load`: None when it throws. */
  method Load(env: Environment) returns (r: Option<Config>)
    ensures r.Some? <==> LoadOk(env)
    ensures r.Some? ==>
      && r.value.environment == Read(env, "APP_ENV")
      && Some(r.value.port) == NumberOf(Read(env, "API_PORT"), 8080, 65535)
      && Some(r.value.threads) == NumberOf(Read(env, "API_THREADS"), 2, 64)
      && r.value.connection == Text(ItemsOf(env))
      && r.value.redisHost == Read(env, "REDIS_HOST") && r.value.redisPassword == Read(env, "REDIS_PASSWORD")
      && Some(r.value.redisPort) == NumberOf(Read(env, "REDIS_PORT"), 6379, 65535)
  {
    hide RequiredOk, SslOk, DatabaseOk, NumberOf, Text, Read, ItemsOf;
    var environment := Read(env, "APP_ENV");
    if !RequiredOk(environment) || environment !in {"development", "test", "staging", "production"} { return None; }
    var port := Number(Read(env, "API_PORT"), 8080, 65535);
    if port.None? { return None; }
    var threads := Number(Read(env, "API_THREADS"), 2, 64);
    if threads.None? { return None; }
    var pgPort := Number(Read(env, "PGPORT"), 5432, 65535);
    if pgPort.None? { return None; }
    if !SslOk(env) || !DatabaseOk(env) { return None; }
    if !RequiredOk(Read(env, "REDIS_HOST")) { return None; }
    var redisPort := Number(Read(env, "REDIS_PORT"), 6379, 65535);
    if redisPort.None? || !RequiredOk(Read(env, "REDIS_PASSWORD")) { return None; }
    var connection := Assemble(env);
    r := Some(Config(environment, port.value, threads.value, connection, Read(env, "REDIS_HOST"), redisPort.value,
      Read(env, "REDIS_PASSWORD")));
  }

  lemma KeywordsAreNames()
    ensures NameLike("host") && NameLike("port") && NameLike("dbname") && NameLike("user") && NameLike("password")
  {
  }

  lemma OptionKeywordsAreNames()
    ensures NameLike("sslmode") && NameLike("connect_timeout") && NameLike("application_name")
      && NameLike("sslrootcert")
  {
  }

  lemma OptionValuesArePlain()
    ensures PlainText("disable") && PlainText("require") && PlainText("verify-full") && PlainText("3")
      && PlainText("bee")
  {
  }

  lemma DigitsArePlain(s: string)
    requires s != "" && AllDigits(s)
    ensures PlainText(s)
  {
  }

  lemma ItemsAreSound(env: Environment)
    requires NumbersOk(env) && SslOk(env)
    ensures forall x :: x in ItemsOf(env) ==> Sound(x)
  {
    TargetIsSound(env);
    OptionsAreSound(env);
    hide TargetItems, OptionItems, Sound;
  }

  lemma TargetIsSound(env: Environment)
    requires NumbersOk(env)
    ensures forall x :: x in TargetItems(env) ==> Sound(x)
  {
    hide NameLike, PlainText, Read, PgPort, NumbersOk;
    KeywordsAreNames();
    DigitsArePlain(Printed(PgPort(env)));
  }

  lemma OptionsAreSound(env: Environment)
    requires SslOk(env)
    ensures forall x :: x in OptionItems(env) ==> Sound(x)
  {
    hide NameLike, PlainText, Read;
    OptionKeywordsAreNames();
    OptionValuesArePlain();
  }

  /** What libpq should understand. */
  function Settings(env: Environment): seq<(string, string)>
    requires NumbersOk(env)
  {
    [("host", Read(env, "PGHOST")), ("port", Printed(PgPort(env))), ("dbname", Read(env, "PGDATABASE")),
     ("user", Read(env, "PGUSER")), ("password", Read(env, "PGPASSWORD")), ("sslmode", SslMode(env)),
     ("connect_timeout", "3"), ("application_name", "bee")]
    + if SslMode(env) == "verify-full" then [("sslrootcert", Read(env, "PGSSLROOTCERT"))] else []
  }

  lemma ItemsAreSettings(env: Environment)
    requires NumbersOk(env)
    ensures Pairs(ItemsOf(env)) == Settings(env)
  {
    hide Read, Printed, PgPort, NumbersOk, SslMode;
    var x, y := Pairs(ItemsOf(env)), Settings(env);
    assert |x| == |y|;
    forall i | 0 <= i < |x| ensures x[i] == y[i] { }
  }

  /** Round trip: libpq reads exactly the configured settings out of the string, whatever characters the
      accepted values hold, and the port read back is the port meant. */
  lemma ConnectionRoundTrip(env: Environment)
    requires LoadOk(env)
    ensures Parse(Text(ItemsOf(env))) == Some(Settings(env))
    ensures AllDigits(Printed(PgPort(env))) && Decimal(Printed(PgPort(env))) == PgPort(env)
    ensures Read(env, "PGPORT") == "" ==> PgPort(env) == 5432
    ensures Read(env, "PGPORT") != "" ==> AllDigits(Read(env, "PGPORT")) && PgPort(env) == Decimal(Read(env, "PGPORT"))
  {
    ItemsAreSound(env);
    TextParsed(ItemsOf(env));
    ItemsAreSettings(env);
  }

  /** In production and staging libpq reads that the server's certificate is to be verified, and against what. */
  lemma VerifiedOutsideDevelopment(env: Environment)
    requires LoadOk(env) && Read(env, "APP_ENV") in {"production", "staging"}
    ensures Parse(Text(ItemsOf(env))).Some?
    ensures var settings := Parse(Text(ItemsOf(env))).value;
      ("sslmode", "verify-full") in settings && ("sslrootcert", Read(env, "PGSSLROOTCERT")) in settings
  {
    ConnectionRoundTrip(env);
    SslExactly(env);
    hide Parse, Text, ItemsOf, Read, Settings, NumbersOk, DatabaseOk, RequiredOk;
    SettingsVerify(env);
  }

  lemma SettingsVerify(env: Environment)
    requires NumbersOk(env) && SslMode(env) == "verify-full"
    ensures ("sslmode", "verify-full") in Settings(env)
    ensures ("sslrootcert", Read(env, "PGSSLROOTCERT")) in Settings(env)
  {
    hide Read, NumbersOk, PgPort, Printed, SslMode;
    var settings := Settings(env);
    assert settings[5] == ("sslmode", "verify-full") && settings[8] == ("sslrootcert", Read(env, "PGSSLROOTCERT"));
  }

  lemma SettingsDetermine(a: Environment, b: Environment)
    requires NumbersOk(a) && NumbersOk(b) && Settings(a) == Settings(b)
    ensures Read(a, "PGHOST") == Read(b, "PGHOST") && PgPort(a) == PgPort(b)
      && Read(a, "PGDATABASE") == Read(b, "PGDATABASE")
    ensures Read(a, "PGUSER") == Read(b, "PGUSER") && Read(a, "PGPASSWORD") == Read(b, "PGPASSWORD")
      && SslMode(a) == SslMode(b)
    ensures SslMode(a) == "verify-full" ==> Read(a, "PGSSLROOTCERT") == Read(b, "PGSSLROOTCERT")
  {
    var x, y := Settings(a), Settings(b);
    assert x[0] == y[0] && x[1] == y[1] && x[2] == y[2] && x[3] == y[3] && x[4] == y[4] && x[5] == y[5];
    if SslMode(a) == "verify-full" { assert x[8] == y[8]; }
  }

  /** Assembly is injective: equal strings mean equal settings. */
  lemma AssemblyIsInjective(a: Environment, b: Environment)
    requires LoadOk(a) && LoadOk(b) && Text(ItemsOf(a)) == Text(ItemsOf(b))
    ensures Read(a, "PGHOST") == Read(b, "PGHOST") && PgPort(a) == PgPort(b)
      && Read(a, "PGDATABASE") == Read(b, "PGDATABASE")
    ensures Read(a, "PGUSER") == Read(b, "PGUSER") && Read(a, "PGPASSWORD") == Read(b, "PGPASSWORD")
      && SslMode(a) == SslMode(b)
    ensures SslMode(a) == "verify-full" ==> Read(a, "PGSSLROOTCERT") == Read(b, "PGSSLROOTCERT")
  {
    ConnectionRoundTrip(a);
    ConnectionRoundTrip(b);
    SettingsDetermine(a, b);
  }
}
