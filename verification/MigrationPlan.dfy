/** `planMigrations`: which files run, in which order, and when the whole plan is refused. */
module MigrationPlan {
  import opened Decimals
  import opened Orders

  datatype File = File(name: string, sql: string)

  /** A row of `schema_migrations`. */
  datatype Row = Row(version: string, checksum: string)

  datatype Entry = Entry(file: File, checksum: string, applied: bool)

  datatype Outcome =
    | Accepted(plan: seq<Entry>)
    | Missing(version: string)
    | Invalid(name: string)
    | Changed(name: string)
    | OutOfOrder(name: string)

  /** What the platform supplies: `localeCompare` as an arbitrary total order, SHA-256 as any function. */
  datatype Platform = Platform(loc: (string, string) -> bool, hash: string -> string)
  {
    ghost predicate Valid() { TotalOrder(loc) && forall a, b :: PrefixesDiffer(a, b) ==> (loc(a, b) <==> Below(a, b)) }
  }

  predicate WordChar(c: char) { 'a' <= c <= 'z' || '0' <= c <= '9' || c == '_' }

  /** Four digits, an underscore, at least one lower-case letter, digit or underscore, ".sql". */
  predicate WellFormed(s: string)
  {
    && |s| >= 10
    && (forall i :: 0 <= i < 4 ==> Digit(s[i])) && s[4] == '_'
    && (forall i :: 5 <= i < |s| - 4 ==> WordChar(s[i]))
    && s[|s| - 4..] == ".sql"
  }

  /** Well-formed names with different numbers: there `localeCompare` and code-unit order agree. */
  predicate PrefixesDiffer(a: string, b: string)
  {
    WellFormed(a) && WellFormed(b) && a[..4] != b[..4]
  }

  /** `<` on strings: by code unit. */
  predicate Below(a: string, b: string)
  {
    b != "" && (a == "" || a[0] < b[0] || (a[0] == b[0] && Below(a[1..], b[1..])))
  }

  lemma {:induction false} BelowIsTransitive(a: string, b: string, c: string)
    requires Below(a, b) && Below(b, c)
    ensures Below(a, c)
  {
    if a != "" && a[0] == b[0] && b[0] == c[0] { BelowIsTransitive(a[1..], b[1..], c[1..]); }
  }

  lemma {:induction false} BelowIsTotal(a: string, b: string)
    ensures a == b || Below(a, b) || Below(b, a)
    ensures !(Below(a, b) && Below(b, a)) && (a == b ==> !Below(a, b))
  {
    if a != "" && b != "" && a[0] == b[0] {
      BelowIsTotal(a[1..], b[1..]);
      if a[1..] == b[1..] { assert a == [a[0]] + a[1..] && b == [b[0]] + b[1..]; }
    }
  }

  /** Code-unit order: the first difference decides, and a prefix comes first. */
  lemma {:induction false} BelowExactly(a: string, b: string)
    ensures Below(a, b) <==> exists k: nat :: k <= |a| && FirstDifference(a, b, k)
  {
    if a != "" && b != "" && a[0] == b[0] {
      BelowExactly(a[1..], b[1..]);
      if k: nat :| k <= |a[1..]| && FirstDifference(a[1..], b[1..], k) {
        assert a[..k + 1] == [a[0]] + a[1..][..k] && b[..k + 1] == [b[0]] + b[1..][..k];
        assert FirstDifference(a, b, k + 1);
      }
      if k: nat :| k <= |a| && FirstDifference(a, b, k) {
        assert k > 0;
        assert a[1..][..k - 1] == a[..k][1..] && b[1..][..k - 1] == b[..k][1..];
        assert FirstDifference(a[1..], b[1..], k - 1);
      }
    } else {
      forall k: nat | k <= |a| && FirstDifference(a, b, k) ensures k == 0 { DifferenceIsFirst(a, b, k); }
      if Below(a, b) { assert FirstDifference(a, b, 0); }
    }
  }

  lemma DifferenceIsFirst(a: string, b: string, k: nat)
    requires k <= |a| && FirstDifference(a, b, k)
    ensures k == 0 || (b != "" && a[0] == b[0])
  {
    if k > 0 { assert a[0] == a[..k][0] && b[0] == b[..k][0]; }
  }

  /** The texts agree up to `k`; there `a` ends or has the smaller character. */
  predicate FirstDifference(a: string, b: string, k: nat)
    requires k <= |a|
  {
    k < |b| && a[..k] == b[..k] && (k < |a| ==> a[k] < b[k])
  }

  ghost predicate NumberedScript(s: string)
  {
    exists number, words ::
      && |number| == 4 && (forall i :: 0 <= i < 4 ==> '0' <= number[i] && number[i] <= '9')
      && words != "" && (forall i :: 0 <= i < |words| ==> SmallLetterDigitOrUnderscore(words[i]))
      && s == number + "_" + words + ".sql"
  }

  predicate SmallLetterDigitOrUnderscore(c: char)
  {
    c == '_' || ('0' <= c && c <= '9') || ('a' <= c && c <= 'z')
  }

  lemma PatternIsWellFormed(number: string, words: string)
    requires |number| == 4 && forall i :: 0 <= i < 4 ==> '0' <= number[i] && number[i] <= '9'
    requires words != "" && forall i :: 0 <= i < |words| ==> SmallLetterDigitOrUnderscore(words[i])
    ensures WellFormed(number + "_" + words + ".sql")
  {
    var s := number + "_" + words + ".sql";
    assert s[|s| - 4..] == ".sql" && s[4] == '_';
    assert forall i :: 0 <= i < 4 ==> s[i] == number[i];
    assert forall i :: 5 <= i < |s| - 4 ==> s[i] == words[i - 5];
  }

  /** The pattern `^\d{4}_[a-z0-9_]+\.sql$`. */
  lemma WellFormedIsPattern(s: string)
    ensures WellFormed(s) <==> NumberedScript(s)
  {
    if WellFormed(s) {
      var number, words := s[..4], s[5..|s| - 4];
      assert s == s[..4] + [s[4]] + s[5..|s| - 4] + s[|s| - 4..];
      assert [s[4]] == "_";
      assert forall i :: 0 <= i < |words| ==> words[i] == s[i + 5];
      assert NumberedScript(s);
    }
    if number, words :|
      && |number| == 4 && (forall i :: 0 <= i < 4 ==> '0' <= number[i] && number[i] <= '9')
      && words != "" && (forall i :: 0 <= i < |words| ==> SmallLetterDigitOrUnderscore(words[i]))
      && s == number + "_" + words + ".sql"
    {
      hide WellFormed;
      PatternIsWellFormed(number, words);
    }
  }

  lemma FourDigits(s: string)
    requires |s| == 4 && AllDigits(s)
    ensures Decimal(s) == 1000 * (s[0] as int - '0' as int) + 100 * (s[1] as int - '0' as int)
      + 10 * (s[2] as int - '0' as int) + (s[3] as int - '0' as int)
  {
    assert s[..3][..2] == s[..2] && s[..2][..1] == s[..1] && s[..1][..0] == "";
    assert Decimal(s[..1]) == s[0] as int - '0' as int;
    assert Decimal(s[..2]) == 10 * Decimal(s[..1]) + (s[1] as int - '0' as int);
    assert Decimal(s[..3]) == 100 * Decimal(s[..1]) + 10 * (s[1] as int - '0' as int) + (s[2] as int - '0' as int);
  }

  function NumberOf(s: string): nat
    requires WellFormed(s)
  {
    Decimal(s[..4])
  }

  /** The smaller number comes first. */
  lemma NumbersDecide(a: string, b: string)
    requires WellFormed(a) && WellFormed(b) && NumberOf(a) < NumberOf(b)
    ensures Below(a, b)
  {
    FourDigits(a[..4]);
    FourDigits(b[..4]);
    var k := if a[0] != b[0] then 0 else if a[1] != b[1] then 1 else if a[2] != b[2] then 2 else 3;
    assert a[..k] == b[..k];
    assert FirstDifference(a, b, k);
    BelowExactly(a, b);
  }

  /** The greatest applied version, or "". */
  function Latest(history: seq<Row>): string
  {
    if history == [] then ""
    else
      var rest := Latest(history[1..]);
      if Below(rest, history[0].version) then history[0].version else rest
  }

  predicate PrecedesApplied(name: string, history: seq<Row>)
  {
    exists i :: 0 <= i < |history| && Below(name, history[i].version)
  }

  /** Comparing with the greatest applied version asks whether any applied version is greater. */
  lemma {:induction false} BelowLatest(name: string, history: seq<Row>)
    ensures Below(name, Latest(history)) <==> PrecedesApplied(name, history)
  {
    if history != [] {
      var rest := Latest(history[1..]);
      BelowLatest(name, history[1..]);
      if Below(rest, history[0].version) {
        if Below(name, rest) { BelowIsTransitive(name, rest, history[0].version); }
      } else {
        BelowIsTotal(rest, history[0].version);
        if Below(name, history[0].version) && rest != history[0].version {
          BelowIsTransitive(name, history[0].version, rest);
        }
      }
      if PrecedesApplied(name, history) {
        var i :| 0 <= i < |history| && Below(name, history[i].version);
        if i > 0 { assert history[1..][i - 1] == history[i]; }
      }
      if PrecedesApplied(name, history[1..]) {
        var i :| 0 <= i < |history[1..]| && Below(name, history[1..][i].version);
        assert history[i + 1] == history[1..][i];
      }
    }
  }

  function Known(history: seq<Row>): map<string, string>
  {
    if history == [] then map[]
    else
      var last := history[|history| - 1];
      Known(history[..|history| - 1])[last.version := last.checksum]
  }

  predicate Recorded(version: string, history: seq<Row>)
  {
    exists i :: 0 <= i < |history| && history[i].version == version
  }

  predicate Named(name: string, files: seq<File>)
  {
    exists i :: 0 <= i < |files| && files[i].name == name
  }

  lemma {:induction false} KnownVersions(history: seq<Row>, v: string)
    ensures v in Known(history) <==> Recorded(v, history)
  {
    if history != [] {
      var front, last := history[..|history| - 1], history[|history| - 1];
      KnownVersions(front, v);
      if Recorded(v, history) && v != last.version {
        var i :| 0 <= i < |history| && history[i].version == v;
        assert front[i] == history[i];
      }
      if Recorded(v, front) {
        var i :| 0 <= i < |front| && front[i].version == v;
        assert history[i] == front[i];
      }
    }
  }

  ghost predicate DistinctVersions(history: seq<Row>)
  {
    forall i, j :: 0 <= i < j < |history| ==> history[i].version != history[j].version
  }

  /** The versions are a primary key, so the map holds each row's checksum. */
  lemma {:induction false} KnownChecksum(history: seq<Row>, i: nat)
    requires DistinctVersions(history) && i < |history|
    ensures history[i].version in Known(history) && Known(history)[history[i].version] == history[i].checksum
  {
    var last := |history| - 1;
    if i < last { KnownChecksum(history[..last], i); }
  }

  // Sorting.

  function Insert(f: File, s: seq<File>, p: Platform): (r: seq<File>)
  {
    if s == [] then [f]
    else if p.loc(f.name, s[0].name) then [f] + s
    else [s[0]] + Insert(f, s[1..], p)
  }

  /** A stable sort by `localeCompare`. */
  function Sorted(s: seq<File>, p: Platform): (r: seq<File>)
  {
    if s == [] then [] else Insert(s[0], Sorted(s[1..], p), p)
  }

  ghost predicate Ordered(s: seq<File>, p: Platform)
  {
    forall i, j :: 0 <= i < j < |s| ==> p.loc(s[i].name, s[j].name)
  }

  lemma {:induction false} InsertKeepsFiles(f: File, s: seq<File>, p: Platform)
    ensures multiset(Insert(f, s, p)) == multiset(s) + multiset{f}
  {
    if s != [] {
      InsertKeepsFiles(f, s[1..], p);
      assert s == [s[0]] + s[1..];
    }
  }

  lemma {:induction false} InsertKeepsOrder(f: File, s: seq<File>, p: Platform)
    requires TotalOrder(p.loc) && Ordered(s, p)
    ensures Ordered(Insert(f, s, p), p)
  {
    if s != [] && !p.loc(f.name, s[0].name) {
      InsertKeepsOrder(f, s[1..], p);
      InsertKeepsFiles(f, s[1..], p);
      var rest := Insert(f, s[1..], p);
      forall j | 0 <= j < |rest| ensures p.loc(s[0].name, rest[j].name) {
        assert rest[j] in multiset(rest);
        assert rest[j] == f || rest[j] in multiset(s[1..]);
      }
    }
  }

  lemma {:induction false} SortIsOrderedPermutation(s: seq<File>, p: Platform)
    requires TotalOrder(p.loc)
    ensures Ordered(Sorted(s, p), p) && multiset(Sorted(s, p)) == multiset(s) && |Sorted(s, p)| == |s|
  {
    if s != [] {
      SortIsOrderedPermutation(s[1..], p);
      InsertKeepsOrder(s[0], Sorted(s[1..], p), p);
      InsertKeepsFiles(s[0], Sorted(s[1..], p), p);
      assert s == [s[0]] + s[1..];
      assert |multiset(Sorted(s, p))| == |multiset(s)|;
    }
  }

  ghost predicate DistinctNames(s: seq<File>)
  {
    forall i, j :: 0 <= i < j < |s| ==> s[i].name != s[j].name
  }

  lemma TailOf(s: seq<File>, p: Platform)
    requires s != [] && Ordered(s, p)
    ensures Ordered(s[1..], p) && (DistinctNames(s) ==> DistinctNames(s[1..]))
    ensures s == [s[0]] + s[1..] && multiset(s) == multiset{s[0]} + multiset(s[1..])
  {
    assert s == [s[0]] + s[1..];
  }

  lemma SameFirst(a: seq<File>, b: seq<File>, p: Platform)
    requires TotalOrder(p.loc) && Ordered(a, p) && Ordered(b, p) && DistinctNames(b) && multiset(a) == multiset(b)
    requires a != [] && b != []
    ensures a[0] == b[0]
  {
    assert a[0] in multiset(b) && b[0] in multiset(a);
    var i :| 0 <= i < |b| && b[i] == a[0];
    var j :| 0 <= j < |a| && a[j] == b[0];
    assert p.loc(a[0].name, b[0].name) && p.loc(b[0].name, a[0].name);
  }

  /** There is one order to sort distinct names in. */
  lemma {:induction false} OrderIsUnique(a: seq<File>, b: seq<File>, p: Platform)
    requires TotalOrder(p.loc) && Ordered(a, p) && Ordered(b, p) && DistinctNames(b) && multiset(a) == multiset(b)
    ensures a == b
  {
    hide TotalOrder, Ordered, DistinctNames;
    assert |a| == |multiset(a)| == |multiset(b)| == |b|;
    if a != [] {
      SameFirst(a, b, p);
      TailOf(a, p);
      TailOf(b, p);
      assert multiset(a[1..]) == multiset(a) - multiset{a[0]} && multiset(b[1..]) == multiset(b) - multiset{b[0]};
      OrderIsUnique(a[1..], b[1..], p);
    }
  }

  // The plan.

  function Checked(sorted: seq<File>, known: map<string, string>, latest: string, p: Platform): Outcome
  {
    if sorted == [] then Accepted([])
    else
      var f := sorted[0];
      if !WellFormed(f.name) then Invalid(f.name)
      else if f.name in known && known[f.name] != p.hash(f.sql) then Changed(f.name)
      else if f.name !in known && Below(f.name, latest) then OutOfOrder(f.name)
      else
        var rest := Checked(sorted[1..], known, latest, p);
        if rest.Accepted? then Accepted([Entry(f, p.hash(f.sql), f.name in known)] + rest.plan) else rest
  }

  function FirstMissing(files: seq<File>, history: seq<Row>): (i: nat)
    ensures i <= |history| && (i < |history| ==> !Named(history[i].version, files))
    ensures forall j :: 0 <= j < i ==> Named(history[j].version, files)
  {
    if history == [] then 0
    else if !Named(history[0].version, files) then 0
    else 1 + FirstMissing(files, history[1..])
  }

  function Plan(files: seq<File>, history: seq<Row>, p: Platform): Outcome
  {
    var i := FirstMissing(files, history);
    if i < |history| then Missing(history[i].version)
    else Checked(Sorted(files, p), Known(history), Latest(history), p)
  }

  predicate FileFine(f: File, known: map<string, string>, latest: string, p: Platform)
  {
    && WellFormed(f.name)
    && (f.name in known ==> known[f.name] == p.hash(f.sql))
    && (f.name !in known ==> !Below(f.name, latest))
  }

  /** One entry for each file, in the order of the files. */
  ghost predicate PlanOf(plan: seq<Entry>, sorted: seq<File>, known: map<string, string>, p: Platform)
  {
    && |plan| == |sorted|
    && forall i :: 0 <= i < |plan| ==> plan[i] == Entry(sorted[i], p.hash(sorted[i].sql), sorted[i].name in known)
  }

  lemma {:induction false} CheckedMeans(sorted: seq<File>, known: map<string, string>, latest: string, p: Platform)
    ensures var o := Checked(sorted, known, latest, p);
      && !o.Missing?
      && (o.Accepted? <==> forall i :: 0 <= i < |sorted| ==> FileFine(sorted[i], known, latest, p))
      && (o.Accepted? ==> PlanOf(o.plan, sorted, known, p))
      && (o.Invalid? ==> Named(o.name, sorted) && !WellFormed(o.name))
      && (o.Changed? ==> o.name in known)
      && (o.Changed? ==>
            exists i :: 0 <= i < |sorted| && sorted[i].name == o.name && known[o.name] != p.hash(sorted[i].sql))
      && (o.OutOfOrder? ==> Named(o.name, sorted) && o.name !in known && Below(o.name, latest))
  {
    hide WellFormed, Below;
    if sorted != [] { CheckedMeans(sorted[1..], known, latest, p); }
  }

  predicate ChecksumDiffers(f: File, known: map<string, string>, p: Platform)
  {
    f.name in known && known[f.name] != p.hash(f.sql)
  }

  function NameOf(o: Outcome): string
    requires o.Invalid? || o.Changed? || o.OutOfOrder?
  {
    o.name
  }

  /** The first file in order that is not fine decides, and it is told what is wrong with it, its name first and
      its contents next. */
  lemma {:induction false} FirstFileDecides(sorted: seq<File>, known: map<string, string>, latest: string, p: Platform)
    returns (k: nat)
    requires !Checked(sorted, known, latest, p).Accepted?
    ensures var o := Checked(sorted, known, latest, p);
      && k < |sorted| && (forall j :: 0 <= j < k ==> FileFine(sorted[j], known, latest, p))
      && !o.Missing? && NameOf(o) == sorted[k].name
      && (o.Invalid? <==> !WellFormed(sorted[k].name))
      && (o.Changed? <==> WellFormed(sorted[k].name) && ChecksumDiffers(sorted[k], known, p))
      && (o.OutOfOrder? <==> WellFormed(sorted[k].name) && sorted[k].name !in known && Below(sorted[k].name, latest))
  {
    hide WellFormed, Below;
    if FileFine(sorted[0], known, latest, p) {
      k := FirstFileDecides(sorted[1..], known, latest, p);
      k := k + 1;
    } else {
      k := 0;
    }
  }

  /** When a file is in the way: malformed, changed since it was applied, or new and before an applied one. */
  ghost predicate Acceptable(f: File, history: seq<Row>, p: Platform)
  {
    && WellFormed(f.name)
    && (forall i :: 0 <= i < |history| && history[i].version == f.name ==> history[i].checksum == p.hash(f.sql))
    && (Recorded(f.name, history) || !PrecedesApplied(f.name, history))
  }

  lemma FineIsAcceptable(f: File, history: seq<Row>, p: Platform)
    requires DistinctVersions(history)
    ensures FileFine(f, Known(history), Latest(history), p) <==> Acceptable(f, history, p)
  {
    KnownVersions(history, f.name);
    BelowLatest(f.name, history);
    forall i | 0 <= i < |history|
      ensures history[i].version in Known(history) && Known(history)[history[i].version] == history[i].checksum
    {
      KnownChecksum(history, i);
    }
  }

  /** A plan is accepted exactly when no applied file is missing and every file is acceptable. */
  lemma AcceptsExactly(files: seq<File>, history: seq<Row>, p: Platform)
    requires TotalOrder(p.loc) && DistinctVersions(history)
    ensures Plan(files, history, p).Accepted? <==>
      && (forall i :: 0 <= i < |history| ==> Named(history[i].version, files))
      && (forall i :: 0 <= i < |files| ==> Acceptable(files[i], history, p))
    ensures Plan(files, history, p).Missing? <==> exists i :: 0 <= i < |history| && !Named(history[i].version, files)
  {
    hide Sorted, Checked, Acceptable, FileFine, Known, Latest, TotalOrder, Named;
    var sorted := Sorted(files, p);
    SortIsOrderedPermutation(files, p);
    CheckedMeans(sorted, Known(history), Latest(history), p);
    forall f ensures FileFine(f, Known(history), Latest(history), p) <==> Acceptable(f, history, p) {
      FineIsAcceptable(f, history, p);
    }
    assert forall i :: 0 <= i < |files| ==> files[i] in multiset(sorted);
    assert forall i :: 0 <= i < |sorted| ==> sorted[i] in multiset(files);
  }

  ghost predicate ChangedSince(f: File, history: seq<Row>, i: int, p: Platform)
  {
    0 <= i < |history| && history[i].version == f.name && history[i].checksum != p.hash(f.sql)
  }

  ghost predicate ChangedFile(name: string, files: seq<File>, history: seq<Row>, p: Platform)
  {
    exists f, i :: f in files && f.name == name && ChangedSince(f, history, i, p)
  }

  lemma SortedChange(files: seq<File>, history: seq<Row>, p: Platform, k: nat)
    requires TotalOrder(p.loc) && DistinctVersions(history) && k < |Sorted(files, p)|
    requires var f := Sorted(files, p)[k]; f.name in Known(history) && Known(history)[f.name] != p.hash(f.sql)
    ensures ChangedFile(Sorted(files, p)[k].name, files, history, p)
  {
    hide Sorted, Known;
    SortIsOrderedPermutation(files, p);
    var f := Sorted(files, p)[k];
    KnownVersions(history, f.name);
    var i :| 0 <= i < |history| && history[i].version == f.name;
    KnownChecksum(history, i);
    assert f in multiset(Sorted(files, p)) && f in multiset(files);
    assert ChangedSince(f, history, i, p);
  }

  lemma SortedNames(files: seq<File>, name: string, p: Platform)
    requires TotalOrder(p.loc)
    ensures Named(name, Sorted(files, p)) ==> Named(name, files)
  {
    hide Sorted;
    SortIsOrderedPermutation(files, p);
    var sorted := Sorted(files, p);
    if i :| 0 <= i < |sorted| && sorted[i].name == name {
      assert sorted[i] in multiset(files);
      var j :| 0 <= j < |files| && files[j] == sorted[i];
    }
  }

  /** Each refusal names a file of which it is true. */
  lemma RefusalMeans(files: seq<File>, history: seq<Row>, p: Platform)
    requires TotalOrder(p.loc) && DistinctVersions(history)
    ensures var o := Plan(files, history, p);
      && (o.Missing? ==> Recorded(o.version, history) && !Named(o.version, files))
      && (o.Invalid? ==> Named(o.name, files) && !WellFormed(o.name))
      && (o.Changed? ==> ChangedFile(o.name, files, history, p))
      && (o.OutOfOrder? ==> Named(o.name, files) && !Recorded(o.name, history) && PrecedesApplied(o.name, history))
  {
    hide Sorted, Checked, Known, Latest, Below, TotalOrder, ChangedFile, WellFormed, PrecedesApplied, PlanOf;
    var sorted, o := Sorted(files, p), Plan(files, history, p);
    CheckedMeans(sorted, Known(history), Latest(history), p);
    if o.Changed? {
      var k :| 0 <= k < |sorted| && sorted[k].name == o.name && Known(history)[o.name] != p.hash(sorted[k].sql);
      SortedChange(files, history, p, k);
    } else if o.Invalid? {
      SortedNames(files, o.name, p);
    } else if o.OutOfOrder? {
      SortedNames(files, o.name, p);
      KnownVersions(history, o.name);
      BelowLatest(o.name, history);
    }
  }

  /** No two files carry the same four-digit number. */
  ghost predicate DistinctNumbers(files: seq<File>)
  {
    Distinct(files) &&
    forall f, g :: f in files && g in files && f != g && WellFormed(f.name) && WellFormed(g.name) ==>
      PrefixesDiffer(f.name, g.name)
  }

  ghost predicate Ascending(s: seq<File>)
  {
    forall i, j :: 0 <= i < j < |s| ==> Below(s[i].name, s[j].name)
  }

  lemma SortedIsAscending(files: seq<File>, p: Platform)
    requires p.Valid() && DistinctNumbers(files) && forall f :: f in files ==> WellFormed(f.name)
    ensures Ascending(Sorted(files, p)) && multiset(Sorted(files, p)) == multiset(files)
  {
    var s := Sorted(files, p);
    SortIsOrderedPermutation(files, p);
    PermutationStaysDistinct(files, s);
    forall i, j | 0 <= i < j < |s| ensures Below(s[i].name, s[j].name) {
      assert s[i] in multiset(files) && s[j] in multiset(files);
      assert PrefixesDiffer(s[i].name, s[j].name);
    }
  }

  lemma AcceptedFilesWellFormed(files: seq<File>, history: seq<Row>, p: Platform)
    requires TotalOrder(p.loc) && DistinctVersions(history) && Plan(files, history, p).Accepted?
    ensures forall f :: f in files ==> WellFormed(f.name)
  {
    hide Sorted, Checked, Known, Latest, TotalOrder, WellFormed;
    AcceptsExactly(files, history, p);
    forall f | f in files ensures WellFormed(f.name) {
      var i :| 0 <= i < |files| && files[i] == f;
      assert Acceptable(files[i], history, p);
    }
  }

  lemma AppliedIsSorted(files: seq<File>, history: seq<Row>, p: Platform, k: nat) returns (j: nat)
    requires Plan(files, history, p).Accepted? && k < |history| && multiset(Sorted(files, p)) == multiset(files)
    ensures j < |Sorted(files, p)| && Sorted(files, p)[j].name == history[k].version
      && history[k].version in Known(history)
  {
    hide Sorted, Checked, Known, Latest;
    var sorted := Sorted(files, p);
    var i :| 0 <= i < |files| && files[i].name == history[k].version;
    assert files[i] in multiset(sorted);
    j :| 0 <= j < |sorted| && sorted[j] == files[i];
    KnownVersions(history, history[k].version);
  }

  /** What an accepted plan looks like: the files in code-unit order, the applied ones exactly the
      history, and all of them before the first new one. */
  lemma AcceptedPlanShape(files: seq<File>, history: seq<Row>, p: Platform)
    requires p.Valid() && DistinctVersions(history) && DistinctNumbers(files) && Plan(files, history, p).Accepted?
    ensures var plan := Plan(files, history, p).plan;
      && PlanOf(plan, Sorted(files, p), Known(history), p)
      && multiset(Sorted(files, p)) == multiset(files) && Ascending(Sorted(files, p))
      && (forall i :: 0 <= i < |plan| ==> (plan[i].applied <==> Recorded(plan[i].file.name, history)))
      && (forall k :: 0 <= k < |history| ==> exists i ::
           0 <= i < |plan| && plan[i].file.name == history[k].version && plan[i].applied)
      && (forall i, j :: 0 <= i < j < |plan| && plan[j].applied ==> plan[i].applied)
  {
    hide Sorted, Checked, Known, Latest, TotalOrder, Below, Recorded;
    var sorted, plan := Sorted(files, p), Plan(files, history, p).plan;
    AcceptedFilesWellFormed(files, history, p);
    SortedIsAscending(files, p);
    CheckedMeans(sorted, Known(history), Latest(history), p);
    forall i | 0 <= i < |plan| ensures plan[i].applied <==> Recorded(plan[i].file.name, history) {
      KnownVersions(history, sorted[i].name);
    }
    forall k | 0 <= k < |history|
      ensures exists i :: 0 <= i < |plan| && plan[i].file.name == history[k].version && plan[i].applied
    {
      var j := AppliedIsSorted(files, history, p, k);
      assert plan[j].file.name == history[k].version;
    }
    forall i, j | 0 <= i < j < |plan| && plan[j].applied ensures plan[i].applied {
      NothingNewBeforeApplied(sorted[i], sorted[j], history, p);
    }
  }

  lemma NothingNewBeforeApplied(f: File, g: File, history: seq<Row>, p: Platform)
    requires Below(f.name, g.name) && FileFine(f, Known(history), Latest(history), p) && g.name in Known(history)
    ensures f.name in Known(history)
  {
    KnownVersions(history, g.name);
    BelowLatest(f.name, history);
  }
}
