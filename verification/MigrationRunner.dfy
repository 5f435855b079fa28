/** The migration runner: an advisory lock, a plan, one transaction per migration, crashes anywhere. */
module MigrationRunner {
  import opened Wrappers
  import opened Orders
  import opened MigrationPlan

  // One runner, statement by statement.

  /** The files of a plan that are still to run. */
  function New(plan: seq<Entry>): seq<File>
  {
    if plan == [] then []
    else New(plan[..|plan| - 1]) + (if plan[|plan| - 1].applied then [] else [plan[|plan| - 1].file])
  }

  function RowsOf(files: seq<File>, hash: string -> string): (r: seq<Row>)
    ensures |r| == |files| && forall i :: 0 <= i < |r| ==> r[i] == Row(files[i].name, hash(files[i].sql))
  {
    seq(|files|, i requires 0 <= i < |files| => Row(files[i].name, hash(files[i].sql)))
  }

  /** The database after the scripts, in order. */
  function Fold<D>(origin: D, files: seq<File>, exec: (D, string) -> D): D
  {
    if files == [] then origin else exec(Fold(origin, files[..|files| - 1], exec), files[|files| - 1].sql)
  }

  class Target<D> {
    var db: D
    var history: seq<Row>
    const exec: (D, string) -> D
    const hash: string -> string

    constructor (db: D, exec: (D, string) -> D, hash: string -> string)
      ensures this.db == db && history == [] && this.exec == exec && this.hash == hash
    {
      this.db, this.exec, this.hash := db, exec, hash;
      history := [];
    }

    /** BEGIN, the script, the history row, COMMIT; ROLLBACK when anything fails. */
    method RunOne(x: Entry, fails: bool) returns (ok: bool)
      modifies this`db, this`history
      ensures ok == !fails
      ensures db == if ok then exec(old(db), x.file.sql) else old(db)
      ensures history == if ok then old(history) + [Row(x.file.name, x.checksum)] else old(history)
    {
      var saved, rows := db, history;
      db := exec(db, x.file.sql);
      history := history + [Row(x.file.name, x.checksum)];
      if fails { db, history := saved, rows; }
      ok := !fails;
    }

    ghost predicate Reached(db0: D, history0: seq<Row>, ran: seq<File>)
      reads this
    {
      db == Fold(db0, ran, exec) && history == history0 + RowsOf(ran, hash)
    }

    lemma NothingRun(plan: seq<Entry>)
      ensures New(plan[..0]) == [] && Reached(db, history, New(plan[..0]))
    {
      assert plan[..0] == [];
    }

    /** The same, seen from the start of the run. */
    method RunNext(plan: seq<Entry>, i: nat, fails: bool, ghost db0: D, ghost history0: seq<Row>) returns (ok: bool)
      requires i < |plan| && !plan[i].applied && plan[i].checksum == hash(plan[i].file.sql)
      requires Reached(db0, history0, New(plan[..i]))
      modifies this`db, this`history
      ensures ok == !fails && Reached(db0, history0, New(plan[..if ok then i + 1 else i]))
    {
      NewStep(plan, i);
      hide New;
      OneMoreRun(db0, New(plan[..i]), plan[i].file, exec, hash);
      ok := RunOne(plan[i], fails);
    }

    /** The loop of the runner. `fault` is the transaction that fails, by its number, if one does. */
    method Apply(plan: seq<Entry>, fault: Option<nat>) returns (ok: bool, done: nat)
      requires forall i :: 0 <= i < |plan| ==> plan[i].checksum == hash(plan[i].file.sql)
      modifies this`db, this`history
      ensures done == (if fault.Some? && fault.value < |New(plan)| then fault.value else |New(plan)|)
      ensures ok <==> done == |New(plan)|
      ensures Reached(old(db), old(history), New(plan)[..done])
    {
      hide New, Reached;
      NothingRun(plan);
      ghost var db0, history0 := db, history;
      done := 0;
      var i := 0;
      while i < |plan|
        invariant 0 <= i <= |plan| && done == |New(plan[..i])|
        invariant fault.Some? ==> done <= fault.value
        invariant Reached(db0, history0, New(plan[..i]))
      {
        NewStep(plan, i);
        if !plan[i].applied {
          ok := RunNext(plan, i, fault.Some? && fault.value == done, db0, history0);
          if !ok {
            StoppedAt(plan, i);
            return;
          }
          done := done + 1;
        } else {
          assert New(plan[..i + 1]) == New(plan[..i]);
        }
        i := i + 1;
      }
      assert plan[..i] == plan && New(plan)[..done] == New(plan);
      ok := true;
    }
  }

  lemma StoppedAt(plan: seq<Entry>, i: nat)
    requires i < |plan| && !plan[i].applied
    ensures |New(plan[..i])| < |New(plan)| && New(plan)[..|New(plan[..i])|] == New(plan[..i])
  {
    NewStep(plan, i);
    NewIsPrefix(plan, i);
    NewIsPrefix(plan, i + 1);
  }

  lemma NewStep(plan: seq<Entry>, i: nat)
    requires i < |plan|
    ensures New(plan[..i + 1]) == New(plan[..i]) + if plan[i].applied then [] else [plan[i].file]
  {
    assert plan[..i + 1][..i] == plan[..i];
  }

  lemma OneMoreRun<D>(origin: D, files: seq<File>, f: File, exec: (D, string) -> D, hash: string -> string)
    ensures Fold(origin, files + [f], exec) == exec(Fold(origin, files, exec), f.sql)
    ensures RowsOf(files + [f], hash) == RowsOf(files, hash) + [Row(f.name, hash(f.sql))]
  {
    assert (files + [f])[..|files|] == files;
  }

  lemma {:induction false} NewIsPrefix(plan: seq<Entry>, i: nat)
    requires i <= |plan|
    ensures |New(plan[..i])| <= |New(plan)| && New(plan)[..|New(plan[..i])|] == New(plan[..i])
  {
    if i == |plan| {
      assert plan[..i] == plan;
    } else {
      var front := plan[..|plan| - 1];
      NewIsPrefix(front, i);
      assert front[..i] == plan[..i];
    }
  }

  // Any number of runners.

  /** `Listed` has read the directory, `Open` is inside BEGIN with the script executed and the row inserted. */
  datatype Runner<D> =
    | Out
    | Locked
    | Listed(files: seq<File>)
    | Running(plan: seq<Entry>, next: nat)
    | Open(plan: seq<Entry>, next: nat, working: D)

  datatype State<D> = State(db: D, history: seq<Row>, files: seq<File>, holder: Option<nat>, runners: seq<Runner<D>>)

  datatype Step =
    | Lock(w: nat)
    | List(w: nat, listing: seq<File>)
    | MakePlan(w: nat, rows: seq<Row>)
    | Skip(w: nat)
    | Begin(w: nat)
    | Commit(w: nat)
    | Finish(w: nat)
    | Crash(w: nat)
    | Grow(file: File)

  /** The platform, the meaning of a script, and the database before the first one. */
  datatype World<!D(!new)> = World(p: Platform, exec: (D, string) -> D, origin: D)

  /** A file is only ever added, under a number above all others. */
  ghost predicate Appends(files: seq<File>, f: File)
  {
    WellFormed(f.name) && forall g :: g in files ==> PrefixesDiffer(g.name, f.name) && Below(g.name, f.name)
  }

  ghost predicate At<D>(s: State<D>, w: nat) { w < |s.runners| }

  function Moved<D>(s: State<D>, w: nat, x: Runner<D>): State<D>
    requires w < |s.runners|
  {
    s.(runners := s.runners[w := x])
  }

  /** The session ends: its transaction is rolled back and its lock is gone. */
  function Gone<D>(s: State<D>, w: nat): State<D>
    requires w < |s.runners|
  {
    Moved(s, w, Out).(holder := if s.holder == Some(w) then None else s.holder)
  }

  ghost predicate ListStep<D>(s: State<D>, w: nat, listing: seq<File>, r: State<D>)
  {
    At(s, w) && s.runners[w].Locked? && multiset(listing) == multiset(s.files) && r == Moved(s, w, Listed(listing))
  }

  ghost predicate PlanStep<D(!new)>(e: World<D>, s: State<D>, w: nat, rows: seq<Row>, r: State<D>)
  {
    && At(s, w) && s.runners[w].Listed? && multiset(rows) == multiset(s.history)
    && var o := Plan(s.runners[w].files, rows, e.p);
       r == if o.Accepted? then Moved(s, w, Running(o.plan, 0)) else Gone(s, w)
  }

  ghost predicate SkipStep<D>(s: State<D>, w: nat, r: State<D>)
  {
    && At(s, w) && s.runners[w].Running?
    && var x := s.runners[w];
       x.next < |x.plan| && x.plan[x.next].applied && r == Moved(s, w, Running(x.plan, x.next + 1))
  }

  ghost predicate BeginStep<D(!new)>(e: World<D>, s: State<D>, w: nat, r: State<D>)
  {
    && At(s, w) && s.runners[w].Running?
    && var x := s.runners[w];
       x.next < |x.plan| && !x.plan[x.next].applied
       && r == Moved(s, w, Open(x.plan, x.next, e.exec(s.db, x.plan[x.next].file.sql)))
  }

  ghost predicate CommitStep<D>(s: State<D>, w: nat, r: State<D>)
  {
    && At(s, w) && s.runners[w].Open?
    && var x := s.runners[w];
       x.next < |x.plan|
       && var y := x.plan[x.next];
          r == Moved(s, w, Running(x.plan, x.next + 1)).(db := x.working, history := s.history
            + [Row(y.file.name, y.checksum)])
  }

  ghost predicate Next<D(!new)>(e: World<D>, s: State<D>, step: Step, r: State<D>)
  {
    match step
    case Lock(w) => At(s, w) && s.runners[w].Out? && s.holder.None? && r == Moved(s, w, Locked).(holder := Some(w))
    case List(w, listing) => ListStep(s, w, listing, r)
    case MakePlan(w, rows) => PlanStep(e, s, w, rows, r)
    case Skip(w) => SkipStep(s, w, r)
    case Begin(w) => BeginStep(e, s, w, r)
    case Commit(w) => CommitStep(s, w, r)
    case Finish(w) => At(s, w) && s.runners[w].Running? && s.runners[w].next == |s.runners[w].plan| && r == Gone(s, w)
    case Crash(w) => At(s, w) && r == Gone(s, w)
    case Grow(f) => Appends(s.files, f) && r == s.(files := s.files + [f])
  }

  // The invariant.

  ghost predicate GoodFiles(files: seq<File>)
  {
    Ascending(files) && DistinctNumbers(files) && forall f :: f in files ==> WellFormed(f.name)
  }

  /** The history is the first files, and the database is what they make of the original one. */
  ghost predicate PrefixApplied<D(!new)>(e: World<D>, s: State<D>)
  {
    && |s.history| <= |s.files|
    && s.history == RowsOf(s.files[..|s.history|], e.p.hash)
    && s.db == Fold(e.origin, s.files[..|s.history|], e.exec)
  }

  ghost predicate PlanFits<D(!new)>(e: World<D>, s: State<D>, plan: seq<Entry>, next: nat)
  {
    && next <= |s.history| <= |plan| <= |s.files|
    && (forall i :: 0 <= i < |plan| ==> plan[i].file == s.files[i] && plan[i].checksum == e.p.hash(s.files[i].sql))
    && (forall i :: next <= i < |plan| ==> (plan[i].applied <==> i < |s.history|))
  }

  ghost predicate ListingFits<D>(s: State<D>, listing: seq<File>)
  {
    |s.history| <= |listing| <= |s.files| && multiset(listing) == multiset(s.files[..|listing|])
  }

  ghost predicate RunnerFits<D(!new)>(e: World<D>, s: State<D>, x: Runner<D>)
  {
    match x
    case Out => true
    case Locked => true
    case Listed(listing) => ListingFits(s, listing)
    case Running(plan, next) => PlanFits(e, s, plan, next)
    case Open(plan, next, working) =>
      && PlanFits(e, s, plan, next) && next < |plan| && !plan[next].applied
      && working == e.exec(s.db, plan[next].file.sql)
  }

  ghost predicate Inv<D(!new)>(e: World<D>, s: State<D>)
  {
    && GoodFiles(s.files) && PrefixApplied(e, s)
    && (forall w :: 0 <= w < |s.runners| ==> (!s.runners[w].Out? <==> s.holder == Some(w)))
    && (forall w :: 0 <= w < |s.runners| ==> RunnerFits(e, s, s.runners[w]))
  }

  // Planning resumes where the history ends.

  lemma HistoryRow(files: seq<File>, h: nat, rows: seq<Row>, hash: string -> string, k: nat) returns (i: nat)
    requires h <= |files| && multiset(rows) == multiset(RowsOf(files[..h], hash)) && k < |rows|
    ensures i < h && rows[k] == Row(files[i].name, hash(files[i].sql))
  {
    assert rows[k] in multiset(RowsOf(files[..h], hash));
    i :| 0 <= i < h && RowsOf(files[..h], hash)[i] == rows[k];
  }

  lemma RecordedExactly(files: seq<File>, h: nat, rows: seq<Row>, hash: string -> string, j: nat)
    requires Ascending(files) && h <= |files| && multiset(rows) == multiset(RowsOf(files[..h], hash)) && j < |files|
    ensures Recorded(files[j].name, rows) <==> j < h
  {
    if Recorded(files[j].name, rows) {
      var k :| 0 <= k < |rows| && rows[k].version == files[j].name;
      var i := HistoryRow(files, h, rows, hash, k);
      BelowIsTotal(files[i].name, files[j].name);
    }
    if j < h {
      assert RowsOf(files[..h], hash)[j] in multiset(rows);
      var k :| 0 <= k < |rows| && rows[k] == RowsOf(files[..h], hash)[j];
    }
  }

  lemma RowsAreDistinct(files: seq<File>, h: nat, rows: seq<Row>, hash: string -> string)
    requires Ascending(files) && h <= |files| && multiset(rows) == multiset(RowsOf(files[..h], hash))
    ensures DistinctVersions(rows)
  {
    var all := RowsOf(files[..h], hash);
    forall i, j | 0 <= i < j < |all| ensures all[i] != all[j] { BelowIsTotal(files[i].name, files[j].name); }
    PermutationStaysDistinct(all, rows);
    forall k, l | 0 <= k < l < |rows| ensures rows[k].version != rows[l].version {
      var i := HistoryRow(files, h, rows, hash, k);
      var j := HistoryRow(files, h, rows, hash, l);
      BelowIsTotal(files[i].name, files[j].name);
    }
  }

  lemma EachFileAcceptable(files: seq<File>, h: nat, rows: seq<Row>, p: Platform, j: nat)
    requires GoodFiles(files) && h <= |files| && multiset(rows) == multiset(RowsOf(files[..h], p.hash)) && j < |files|
    ensures Acceptable(files[j], rows, p)
  {
    RecordedExactly(files, h, rows, p.hash, j);
    assert files[j] in files;
    forall k | 0 <= k < |rows|
      ensures rows[k].version == files[j].name ==> rows[k].checksum == p.hash(files[j].sql)
      ensures j >= h ==> !Below(files[j].name, rows[k].version)
    {
      var i := HistoryRow(files, h, rows, p.hash, k);
      BelowIsTotal(files[i].name, files[j].name);
    }
  }

  lemma SortedListing(files: seq<File>, listing: seq<File>, p: Platform)
    requires p.Valid() && GoodFiles(files) && multiset(listing) == multiset(files)
    ensures Sorted(listing, p) == files
  {
    SortIsOrderedPermutation(listing, p);
    forall i, j | 0 <= i < j < |files| ensures p.loc(files[i].name, files[j].name) && files[i].name != files[j].name {
      assert files[i] in files && files[j] in files;
      BelowIsTotal(files[i].name, files[j].name);
      assert PrefixesDiffer(files[i].name, files[j].name);
    }
    OrderIsUnique(Sorted(listing, p), files, p);
  }

  lemma GoodIsAscending(files: seq<File>)
    requires GoodFiles(files)
    ensures Ascending(files)
  {
  }

  lemma AppliedIsListed(files: seq<File>, h: nat, listing: seq<File>, rows: seq<Row>, p: Platform, k: nat)
    requires h <= |files| && multiset(listing) == multiset(files)
    requires multiset(rows) == multiset(RowsOf(files[..h], p.hash)) && k < |rows|
    ensures Named(rows[k].version, listing)
  {
    var i := HistoryRow(files, h, rows, p.hash, k);
    assert files[i] in multiset(listing);
    var l :| 0 <= l < |listing| && listing[l] == files[i];
  }

  /** With the history a prefix of the files, planning always succeeds, whatever order the directory and
      the table are read in, and the plan goes on after the last applied file. */
  lemma PlanResumes(files: seq<File>, h: nat, listing: seq<File>, rows: seq<Row>, p: Platform)
    requires p.Valid() && GoodFiles(files) && h <= |files|
    requires multiset(listing) == multiset(files) && multiset(rows) == multiset(RowsOf(files[..h], p.hash))
    ensures var o := Plan(listing, rows, p);
      o.Accepted? && |o.plan| == |files| && forall i :: 0 <= i < |files| ==>
        o.plan[i] == Entry(files[i], p.hash(files[i].sql), i < h)
  {
    hide Acceptable, Sorted, Checked, GoodFiles, TotalOrder, Known, Latest, RowsOf, Recorded;
    GoodIsAscending(files);
    RowsAreDistinct(files, h, rows, p.hash);
    forall k | 0 <= k < |rows| ensures Named(rows[k].version, listing) {
      AppliedIsListed(files, h, listing, rows, p, k);
    }
    forall l | 0 <= l < |listing| ensures Acceptable(listing[l], rows, p) {
      assert listing[l] in multiset(files);
      var j :| 0 <= j < |files| && files[j] == listing[l];
      EachFileAcceptable(files, h, rows, p, j);
    }
    AcceptsExactly(listing, rows, p);
    SortedListing(files, listing, p);
    CheckedMeans(files, Known(rows), Latest(rows), p);
    forall i | 0 <= i < |files| ensures files[i].name in Known(rows) <==> i < h {
      RecordedExactly(files, h, rows, p.hash, i);
      KnownVersions(rows, files[i].name);
    }
  }

  // Every step.

  lemma {:induction false} FoldPrefix<D>(origin: D, files: seq<File>, more: seq<File>, h: nat, exec: (D, string) -> D)
    requires h <= |files|
    ensures Fold(origin, (files + more)[..h], exec) == Fold(origin, files[..h], exec)
  {
    assert (files + more)[..h] == files[..h];
  }

  lemma GrowKeepsGoodFiles(files: seq<File>, f: File)
    requires GoodFiles(files) && Appends(files, f)
    ensures GoodFiles(files + [f])
  {
    var all := files + [f];
    assert !PrefixesDiffer(f.name, f.name);
    assert f !in files;
    assert Ascending(all) by {
      forall i, j | 0 <= i < j < |all| ensures Below(all[i].name, all[j].name) {
        assert j == |files| ==> all[i] in files;
      }
    }
    forall a, b | a in all && b in all && a != b && WellFormed(a.name) && WellFormed(b.name)
      ensures PrefixesDiffer(a.name, b.name)
    {
      assert a in files || b in files;
      if a in files && b !in files { assert PrefixesDiffer(a.name, f.name); }
      if b in files && a !in files { assert PrefixesDiffer(b.name, f.name); }
    }
  }

  lemma GrowKeepsRunner<D(!new)>(e: World<D>, s: State<D>, f: File, x: Runner<D>)
    requires RunnerFits(e, s, x)
    ensures RunnerFits(e, s.(files := s.files + [f]), x)
  {
    if x.Listed? { assert (s.files + [f])[..|x.files|] == s.files[..|x.files|]; }
  }

  lemma GrowKeepsInv<D(!new)>(e: World<D>, s: State<D>, f: File)
    requires Inv(e, s) && Appends(s.files, f)
    ensures Inv(e, s.(files := s.files + [f]))
  {
    GrowKeepsGoodFiles(s.files, f);
    FoldPrefix(e.origin, s.files, [f], |s.history|, e.exec);
    assert (s.files + [f])[..|s.history|] == s.files[..|s.history|];
    forall w | 0 <= w < |s.runners| { GrowKeepsRunner(e, s, f, s.runners[w]); }
  }

  lemma PlanFitsListing<D(!new)>(e: World<D>, s: State<D>, listing: seq<File>, rows: seq<Row>)
    requires e.p.Valid() && GoodFiles(s.files) && PrefixApplied(e, s) && ListingFits(s, listing)
    requires multiset(rows) == multiset(s.history)
    ensures var o := Plan(listing, rows, e.p); o.Accepted? && PlanFits(e, s, o.plan, 0)
  {
    var m := |listing|;
    var known := s.files[..m];
    assert GoodFiles(known) by {
      assert forall f :: f in known ==> f in s.files;
    }
    assert known[..|s.history|] == s.files[..|s.history|];
    PlanResumes(known, |s.history|, listing, rows, e.p);
  }

  lemma PlanKeepsInv<D(!new)>(e: World<D>, s: State<D>, w: nat, rows: seq<Row>, r: State<D>)
    requires e.p.Valid() && Inv(e, s) && PlanStep(e, s, w, rows, r)
    ensures Inv(e, r) && r.runners[w].Running?
  {
    hide Plan, PlanFits, GoodFiles, PrefixApplied;
    assert RunnerFits(e, s, s.runners[w]);
    PlanFitsListing(e, s, s.runners[w].files, rows);
    MovedKeepsInv(e, s, w, Running(Plan(s.runners[w].files, rows, e.p).plan, 0));
  }

  lemma CommitKeepsPrefix<D(!new)>(e: World<D>, s: State<D>, w: nat, r: State<D>)
    requires Inv(e, s) && CommitStep(s, w, r)
    ensures PrefixApplied(e, r) && PlanFits(e, r, s.runners[w].plan, s.runners[w].next + 1)
  {
    var x, h := s.runners[w], |s.history|;
    assert RunnerFits(e, s, x);
    assert x.next == h;
    assert s.files[..h + 1] == s.files[..h] + [s.files[h]];
    OneMoreRun(e.origin, s.files[..h], s.files[h], e.exec, e.p.hash);
  }

  lemma CommitKeepsInv<D(!new)>(e: World<D>, s: State<D>, w: nat, r: State<D>)
    requires Inv(e, s) && CommitStep(s, w, r)
    ensures Inv(e, r)
  {
    CommitKeepsPrefix(e, s, w, r);
    forall v | 0 <= v < |r.runners| ensures RunnerFits(e, r, r.runners[v]) {
      if v != w { assert s.runners[v].Out?; }
    }
  }

  lemma MovedKeepsInv<D(!new)>(e: World<D>, s: State<D>, w: nat, x: Runner<D>)
    requires Inv(e, s) && w < |s.runners| && !s.runners[w].Out? && !x.Out? && RunnerFits(e, s, x)
    ensures Inv(e, Moved(s, w, x))
  {
    var r := Moved(s, w, x);
    forall v | 0 <= v < |r.runners| ensures RunnerFits(e, r, r.runners[v]) {
      assert v != w ==> RunnerFits(e, s, s.runners[v]);
    }
  }

  lemma GoneKeepsInv<D(!new)>(e: World<D>, s: State<D>, w: nat)
    requires Inv(e, s) && w < |s.runners|
    ensures Inv(e, Gone(s, w))
  {
    var r := Gone(s, w);
    forall v | 0 <= v < |r.runners| ensures RunnerFits(e, r, r.runners[v]) {
      assert v != w ==> RunnerFits(e, s, s.runners[v]);
    }
  }

  lemma LockKeepsInv<D(!new)>(e: World<D>, s: State<D>, w: nat)
    requires Inv(e, s) && w < |s.runners| && s.holder.None?
    ensures Inv(e, Moved(s, w, Locked).(holder := Some(w)))
  {
  }

  lemma ListKeepsInv<D(!new)>(e: World<D>, s: State<D>, w: nat, listing: seq<File>)
    requires Inv(e, s) && w < |s.runners| && s.runners[w].Locked? && multiset(listing) == multiset(s.files)
    ensures Inv(e, Moved(s, w, Listed(listing)))
  {
    assert s.files[..|s.files|] == s.files;
    assert |listing| == |multiset(listing)| == |s.files|;
    MovedKeepsInv(e, s, w, Listed(listing));
  }

  lemma RunningKeepsInv<D(!new)>(e: World<D>, s: State<D>, w: nat)
    requires Inv(e, s) && w < |s.runners| && s.runners[w].Running? && s.runners[w].next < |s.runners[w].plan|
    ensures var x := s.runners[w];
      if x.plan[x.next].applied then Inv(e, Moved(s, w, Running(x.plan, x.next + 1)))
      else Inv(e, Moved(s, w, Open(x.plan, x.next, e.exec(s.db, x.plan[x.next].file.sql))))
  {
    var x := s.runners[w];
    assert RunnerFits(e, s, x);
    if x.plan[x.next].applied {
      MovedKeepsInv(e, s, w, Running(x.plan, x.next + 1));
    } else {
      MovedKeepsInv(e, s, w, Open(x.plan, x.next, e.exec(s.db, x.plan[x.next].file.sql)));
    }
  }

  lemma StepKeepsInv<D(!new)>(e: World<D>, s: State<D>, step: Step, r: State<D>)
    requires e.p.Valid() && Inv(e, s) && Next(e, s, step, r)
    ensures Inv(e, r)
  {
    match step {
      case Lock(w) => LockKeepsInv(e, s, w);
      case List(w, listing) => ListKeepsInv(e, s, w, listing);
      case MakePlan(w, rows) => PlanKeepsInv(e, s, w, rows, r);
      case Skip(w) => RunningKeepsInv(e, s, w);
      case Begin(w) => RunningKeepsInv(e, s, w);
      case Commit(w) => CommitKeepsInv(e, s, w, r);
      case Finish(w) => GoneKeepsInv(e, s, w);
      case Crash(w) => GoneKeepsInv(e, s, w);
      case Grow(f) => GrowKeepsInv(e, s, f);
    }
  }

  ghost predicate Init<D(!new)>(e: World<D>, s: State<D>)
  {
    && s.db == e.origin && s.history == [] && s.holder.None? && GoodFiles(s.files)
    && forall w :: 0 <= w < |s.runners| ==> s.runners[w].Out?
  }

  ghost predicate Run<D(!new)>(e: World<D>, states: seq<State<D>>, steps: seq<Step>)
  {
    |states| == |steps| + 1 && Init(e, states[0]) && forall i :: 0 <= i < |steps| ==>
      Next(e, states[i], steps[i], states[i + 1])
  }

  lemma InitIsSound<D(!new)>(e: World<D>, s: State<D>)
    requires Init(e, s)
    ensures Inv(e, s)
  {
  }

  lemma {:induction false} RunKeepsInv<D(!new)>(e: World<D>, states: seq<State<D>>, steps: seq<Step>, i: nat)
    requires e.p.Valid() && Run(e, states, steps) && i < |states|
    ensures Inv(e, states[i])
  {
    hide Next, Inv;
    if i == 0 {
      InitIsSound(e, states[0]);
    } else {
      RunKeepsInv(e, states, steps, i - 1);
      StepKeepsInv(e, states[i - 1], steps[i - 1], states[i]);
    }
  }

  /** Whatever interleaves and wherever it crashes: the database is the fold of the first migrations in
      ascending order, the history records exactly those, and none was applied twice. */
  lemma DatabaseIsAPrefix<D(!new)>(e: World<D>, states: seq<State<D>>, steps: seq<Step>, i: nat)
    requires e.p.Valid() && Run(e, states, steps) && i < |states|
    ensures var s := states[i]; var h := |s.history|;
      && Ascending(s.files) && h <= |s.files|
      && (forall k :: 0 <= k < h ==> s.history[k] == Row(s.files[k].name, e.p.hash(s.files[k].sql)))
      && s.db == Fold(e.origin, s.files[..h], e.exec)
      && DistinctVersions(s.history)
  {
    RunKeepsInv(e, states, steps, i);
    RowsAreDistinct(states[i].files, |states[i].history|, states[i].history, e.p.hash);
  }

  /** At most one runner is past the lock. */
  lemma OneRunnerAtATime<D(!new)>(e: World<D>, states: seq<State<D>>, steps: seq<Step>, i: nat, v: nat, w: nat)
    requires e.p.Valid() && Run(e, states, steps) && i < |states| && v < w < |states[i].runners|
    ensures states[i].runners[v].Out? || states[i].runners[w].Out?
  {
    RunKeepsInv(e, states, steps, i);
  }

  /** In every reachable state, also right after a crash, planning succeeds and resumes: the entries are
      the files in ascending order and those not yet applied are the ones the history does not reach. */
  lemma PlanningSucceeds<D(!new)>(e: World<D>, states: seq<State<D>>, steps: seq<Step>, i: nat, listing: seq<File>,
          rows: seq<Row>)
    requires e.p.Valid() && Run(e, states, steps) && i < |states|
    requires multiset(listing) == multiset(states[i].files) && multiset(rows) == multiset(states[i].history)
    ensures var s := states[i]; var o := Plan(listing, rows, e.p);
      && o.Accepted? && |o.plan| == |s.files|
      && forall k :: 0 <= k < |s.files| ==> o.plan[k] == Entry(s.files[k], e.p.hash(s.files[k].sql), k < |s.history|)
  {
    RunKeepsInv(e, states, steps, i);
    PlanResumes(states[i].files, |states[i].history|, listing, rows, e.p);
  }

  function Unapplied<D>(s: State<D>): int { |s.files| - |s.history| }

  /** The termination measure: a commit lowers it by one, a new file raises it, nothing else touches it. */
  lemma UnappliedFalls<D(!new)>(e: World<D>, s: State<D>, step: Step, r: State<D>)
    requires Inv(e, s) && Next(e, s, step, r)
    ensures Unapplied(r) == Unapplied(s) - (if step.Commit? then 1 else 0) + (if step.Grow? then 1 else 0)
    ensures step.Commit? ==> Unapplied(s) > 0
  {
    if step.Commit? { assert RunnerFits(e, s, s.runners[step.w]); }
  }

  /** A runner that finishes leaves nothing of what it listed unapplied. */
  lemma FinishedMeansApplied<D(!new)>(e: World<D>, s: State<D>, w: nat, r: State<D>)
    requires Inv(e, s) && Next(e, s, Finish(w), r)
    ensures |r.history| == |s.runners[w].plan| && forall k :: 0 <= k < |s.runners[w].plan| ==>
      Recorded(s.runners[w].plan[k].file.name, r.history)
  {
    assert RunnerFits(e, s, s.runners[w]);
    forall k | 0 <= k < |s.runners[w].plan| ensures Recorded(s.runners[w].plan[k].file.name, r.history) {
      assert r.history[k].version == s.files[k].name;
    }
  }

  /** What the lock holder has left to do, files not growing. */
  function Left<D>(s: State<D>, x: Runner<D>): int
  {
    match x
    case Out => 0
    case Locked => 2 * |s.files| + 3
    case Listed(files) => 2 * |files| + 2
    case Running(plan, next) => 2 * (|plan| - next) + 1
    case Open(plan, next, _) => 2 * (|plan| - next)
  }

  ghost predicate Works(step: Step, w: nat)
  {
    match step
    case List(v, _) => v == w
    case MakePlan(v, _) => v == w
    case Skip(v) => v == w
    case Begin(v) => v == w
    case Commit(v) => v == w
    case Finish(v) => v == w
    case _ => false
  }

  ghost predicate CanWork<D(!new)>(e: World<D>, s: State<D>, w: nat)
  {
    exists step, r :: Works(step, w) && Next(e, s, step, r)
  }

  lemma PlanningGoesOn<D(!new)>(e: World<D>, s: State<D>, w: nat)
    requires e.p.Valid() && Inv(e, s) && w < |s.runners| && s.runners[w].Listed?
    ensures exists r :: PlanStep(e, s, w, s.history, r)
  {
    var listing := s.runners[w].files;
    assert RunnerFits(e, s, s.runners[w]);
    PlanFitsListing(e, s, listing, s.history);
    assert PlanStep(e, s, w, s.history, Moved(s, w, Running(Plan(listing, s.history, e.p).plan, 0)));
  }

  lemma RunningGoesOn<D(!new)>(e: World<D>, s: State<D>, w: nat)
    requires w < |s.runners| && s.runners[w].Running? && s.runners[w].next <= |s.runners[w].plan|
    ensures CanWork(e, s, w)
  {
    var plan, next := s.runners[w].plan, s.runners[w].next;
    if next == |plan| {
      assert Works(Finish(w), w) && Next(e, s, Finish(w), Gone(s, w));
    } else if plan[next].applied {
      assert Works(Skip(w), w) && Next(e, s, Skip(w), Moved(s, w, Running(plan, next + 1)));
    } else {
      assert Works(Begin(w), w) && Next(e, s, Begin(w),
        Moved(s, w, Open(plan, next, e.exec(s.db, plan[next].file.sql))));
    }
  }

  lemma OpenGoesOn<D(!new)>(e: World<D>, s: State<D>, w: nat)
    requires w < |s.runners| && s.runners[w].Open? && s.runners[w].next < |s.runners[w].plan|
    ensures CanWork(e, s, w)
  {
    var x := s.runners[w];
    var y := x.plan[x.next];
    var r := Moved(s, w, Running(x.plan, x.next + 1)).(db := x.working, history := s.history
      + [Row(y.file.name, y.checksum)]);
    assert Works(Commit(w), w) && Next(e, s, Commit(w), r);
  }

  ghost predicate CanStep<D(!new)>(e: World<D>, s: State<D>, step: Step) { exists r :: Next(e, s, step, r) }

  /** The directory and the history can be read in any order, and a runner can die anywhere. */
  lemma ReadsComeInAnyOrder<D(!new)>(e: World<D>, s: State<D>, w: nat)
    requires w < |s.runners|
    ensures s.runners[w].Locked? ==>
      forall listing :: multiset(listing) == multiset(s.files) ==> CanStep(e, s, List(w, listing))
    ensures s.runners[w].Listed? ==>
      forall rows :: multiset(rows) == multiset(s.history) ==> CanStep(e, s, MakePlan(w, rows))
    ensures CanStep(e, s, Crash(w))
  {
    hide Plan;
    forall listing | s.runners[w].Locked? && multiset(listing) == multiset(s.files)
      ensures CanStep(e, s, List(w, listing))
    {
      assert Next(e, s, List(w, listing), Moved(s, w, Listed(listing)));
    }
    forall rows | s.runners[w].Listed? && multiset(rows) == multiset(s.history)
      ensures CanStep(e, s, MakePlan(w, rows))
    {
      var o := Plan(s.runners[w].files, rows, e.p);
      assert Next(e, s, MakePlan(w, rows), if o.Accepted? then Moved(s, w, Running(o.plan, 0)) else Gone(s, w));
    }
    assert Next(e, s, Crash(w), Gone(s, w));
  }

  /** While nobody holds the lock any runner can take it. */
  lemma FreeLockIsTaken<D(!new)>(e: World<D>, s: State<D>, w: nat)
    requires w < |s.runners| && s.runners[w].Out? && s.holder.None?
    ensures exists r :: Next(e, s, Lock(w), r)
  {
    assert Next(e, s, Lock(w), Moved(s, w, Locked).(holder := Some(w)));
  }

  /** A runner past the lock can always go on, and each of its steps brings it nearer to the end. */
  lemma RunnerGoesOn<D(!new)>(e: World<D>, s: State<D>, w: nat)
    requires e.p.Valid() && Inv(e, s) && w < |s.runners| && !s.runners[w].Out?
    ensures CanWork(e, s, w)
  {
    var x := s.runners[w];
    assert RunnerFits(e, s, x);
    match x {
      case Locked => assert Works(List(w, s.files), w) && Next(e, s, List(w, s.files), Moved(s, w, Listed(s.files)));
      case Listed(files) =>
        PlanningGoesOn(e, s, w);
        var r :| PlanStep(e, s, w, s.history, r);
        assert Works(MakePlan(w, s.history), w) && Next(e, s, MakePlan(w, s.history), r);
      case Running(_, _) => RunningGoesOn(e, s, w);
      case Open(_, _, _) => OpenGoesOn(e, s, w);
    }
  }

  lemma WorkBringsNearer<D(!new)>(e: World<D>, s: State<D>, w: nat, step: Step, r: State<D>)
    requires e.p.Valid() && Inv(e, s) && Works(step, w) && Next(e, s, step, r)
    ensures 0 <= Left(r, r.runners[w]) < Left(s, s.runners[w])
  {
    hide Plan, Fold, GoodFiles, PrefixApplied;
    assert RunnerFits(e, s, s.runners[w]);
    StepKeepsInv(e, s, step, r);
    assert RunnerFits(e, r, r.runners[w]);
    match step {
      case List(_, listing) => assert |listing| == |multiset(listing)| == |multiset(s.files)| == |s.files|;
      case MakePlan(_, rows) =>
        PlanKeepsInv(e, s, w, rows, r);
        PlanFitsListing(e, s, s.runners[w].files, rows);
        PlanLength(e, s, s.runners[w].files, rows);
      case _ =>
    }
  }

  lemma PlanLength<D(!new)>(e: World<D>, s: State<D>, listing: seq<File>, rows: seq<Row>)
    requires TotalOrder(e.p.loc) && Plan(listing, rows, e.p).Accepted?
    ensures |Plan(listing, rows, e.p).plan| == |listing|
  {
    SortIsOrderedPermutation(listing, e.p);
    CheckedMeans(Sorted(listing, e.p), Known(rows), Latest(rows), e.p);
  }
}
