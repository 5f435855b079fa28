/** Concurrent sessions in `catalog_save`: the row lock, the revision check behind it, the statements one
    by one, each on its own READ COMMITTED snapshot, the refusal or the commit. Every interleaving is one
    serial run in commit order. */
module SaveConcurrency {
  import opened Wrappers
  import opened Uuids
  import opened CatalogTables
  import opened DraftValidation
  import opened CatalogSaveSpec
  import opened CatalogRuns
  import opened CatalogOffers
  import opened SaveCommutes

  /** `Entered`: the product row is locked (a creation has none to lock). `Checked`: the revision is the
      expected one. `Writing`: the first `done` statements have succeeded; what they wrote, the session alone
      sees. `base` holds the product's rows as the session found them when it began to write. */
  datatype Session =
    | Idle
    | Entered(call: Call)
    | Checked(call: Call)
    | Writing(call: Call, base: Tables, done: nat)

  /** `tables` is the committed state, `log` the operations that committed, in order. */
  datatype State = State(tables: Tables, sessions: seq<Session>, log: seq<Op>)

  datatype Action =
    | Enter(s: nat, call: Call)
    | Check(s: nat)
    | Start(s: nat)
    | Write(s: nat)
    | Commit(s: nat)
    | Refuse(s: nat, code: Failure)
    | Miss(call: Call)
    | Abort(s: nat)
    | Grow(refs: References)

  /** What `Service::save` lets through. */
  ghost predicate Sent(c: Call)
  {
    Wanted(c) && DraftOk(c.draft) && (c.target.Some? ==> c.expected.Some? && c.expected.value >= 1)
  }

  /** FOR UPDATE returns when nobody else holds the row. */
  ghost predicate RowFree(s: State, pid: Uuid)
  {
    forall v :: 0 <= v < |s.sessions| && !s.sessions[v].Idle? ==> s.sessions[v].call.target != Some(pid)
  }

  /** `gen_random_uuid` never repeats a key another session has drawn. */
  ghost predicate KeysUnused(s: State, c: Call)
  {
    forall v :: 0 <= v < |s.sessions| && !s.sessions[v].Idle? ==> MintedApart(c, s.sessions[v].call)
  }

  ghost predicate MintedApart(a: Call, b: Call)
  {
    forall k :: k in a.minted ==> k !in b.minted
  }

  /** The session has the slug in flight. */
  ghost predicate HoldsSlug(x: Session, slug: string)
  {
    x.Writing? && x.done >= 1 && x.call.draft.slug == slug
  }

  /** The session has the SKU in flight. */
  ghost predicate HoldsSku(x: Session, sku: string)
  {
    x.Writing? && exists j :: 0 <= j < |x.call.draft.variants| && j + 3 < x.done && x.call.draft.variants[j].sku == sku
  }

  /** A unique index lets a key in only while no other session has it in flight. */
  ghost predicate NotInFlight(x: Session, c: Call, k: nat)
  {
    && (k == 0 ==> !HoldsSlug(x, c.draft.slug))
    && (3 <= k < |c.draft.variants| + 3 ==> !HoldsSku(x, c.draft.variants[k - 3].sku))
  }

  ghost predicate NobodyHolds(s: State, w: nat, c: Call, k: nat)
  {
    forall v :: 0 <= v < |s.sessions| && v != w ==> NotInFlight(s.sessions[v], c, k)
  }

  ghost predicate EnterStep(s: State, w: nat, c: Call, r: State)
  {
    && w < |s.sessions| && s.sessions[w].Idle? && Sent(c) && OracleFresh(s.tables, c) && KeysUnused(s, c)
    && (c.target.Some? ==> c.target.value in s.tables.products && RowFree(s, c.target.value))
    && r == s.(sessions := s.sessions[w := Entered(c)])
  }

  /** The revision is read after the lock was granted. */
  ghost predicate CheckStep(s: State, w: nat, r: State)
  {
    && w < |s.sessions| && s.sessions[w].Entered? && TargetFailure(s.tables, s.sessions[w].call).None?
    && r == s.(sessions := s.sessions[w := Checked(s.sessions[w].call)])
  }

  ghost predicate TargetKnown(t: Tables, c: Call)
  {
    c.target.Some? ==> c.target.value in t.products
  }

  ghost predicate StartStep(s: State, w: nat, r: State)
  {
    && w < |s.sessions| && s.sessions[w].Checked?
    && r == s.(sessions := s.sessions[w := Writing(s.sessions[w].call, s.tables, 0)])
  }

  /** The next statement, on what is committed now and what the session itself wrote. */
  ghost predicate WriteStep(s: State, w: nat, r: State)
  {
    && w < |s.sessions| && s.sessions[w].Writing?
    && var x := s.sessions[w];
       && Wanted(x.call) && x.done < Statements(x.call) && TargetKnown(s.tables, x.call)
       && StatementFailure(s.tables, x.call, x.done).None? && NobodyHolds(s, w, x.call, x.done)
       && r == s.(sessions := s.sessions[w := Writing(x.call, x.base, x.done + 1)])
  }

  ghost predicate Finished(x: Session)
  {
    x.Writing? && Wanted(x.call) && x.done == Statements(x.call) && TargetKnown(x.base, x.call)
  }

  /** The session's rows replace the committed ones. */
  ghost predicate CommitStep(s: State, w: nat, r: State)
  {
    && w < |s.sessions| && Finished(s.sessions[w])
    && var x := s.sessions[w];
       r == State(Install(s.tables, Replaced(x.base, x.call), Key(x.call)), s.sessions[w := Idle], s.log
         + [Save(x.call)])
  }

  /** What the session's next statement objects to: the revision check, or a write. */
  ghost function Objection(t: Tables, x: Session): Option<Failure>
  {
    match x
    case Entered(c) => TargetFailure(t, c)
    case Writing(c, _, done) =>
      if Wanted(c) && done < Statements(c) && TargetKnown(t, c) then StatementFailure(t, c, done) else None
    case _ => None
  }

  /** The session answers with its objection; what it wrote is rolled back. */
  ghost predicate RefuseStep(s: State, w: nat, code: Failure, r: State)
  {
    && w < |s.sessions| && Objection(s.tables, s.sessions[w]) == Some(code)
    && r == s.(sessions := s.sessions[w := Idle])
  }

  /** FOR UPDATE finds no such product. */
  ghost predicate MissStep(s: State, c: Call, r: State)
  {
    Sent(c) && c.target.Some? && c.target.value !in s.tables.products && r == s
  }

  ghost predicate Next(s: State, a: Action, r: State)
  {
    match a
    case Enter(w, c) => EnterStep(s, w, c, r)
    case Check(w) => CheckStep(s, w, r)
    case Start(w) => StartStep(s, w, r)
    case Write(w) => WriteStep(s, w, r)
    case Commit(w) => CommitStep(s, w, r)
    case Refuse(w, code) => RefuseStep(s, w, code, r)
    case Miss(c) => MissStep(s, c, r)
    case Abort(w) => w < |s.sessions| && r == s.(sessions := s.sessions[w := Idle])
    case Grow(refs) =>
      RefsGrow(s.tables.refs, refs) && RefsCanonical(refs)
      && r == s.(tables := s.tables.(refs := refs), log := s.log + [AddReferences(refs)])
  }

  // The invariant.

  ghost predicate SessionSound(t: Tables, x: Session)
  {
    x.Idle? || (Sent(x.call) && OracleFresh(t, x.call) && PhaseSound(t, x))
  }

  /** The statements behind it would pass again now, and the product's rows are still those it found. */
  ghost predicate PhaseSound(t: Tables, x: Session)
    requires !x.Idle? && Wanted(x.call)
  {
    match x
    case Idle => true
    case Entered(c) => TargetKnown(t, c)
    case Checked(c) => TargetFailure(t, c).None?
    case Writing(c, base, done) =>
      && TargetFailure(t, c).None? && Agree(base, t, Key(c)) && TargetKnown(base, c)
      && done <= Statements(c) && StatementsPass(t, c, done)
  }

  ghost predicate Separate(x: Session, y: Session)
    requires (x.Idle? || Wanted(x.call)) && (y.Idle? || Wanted(y.call))
  {
    !x.Idle? && !y.Idle? ==> Key(x.call) != Key(y.call) && MintedApart(x.call, y.call) && FlightsApart(x, y)
  }

  /** Nothing the one session has in flight is in flight in the other. */
  ghost predicate FlightsApart(x: Session, y: Session)
  {
    x.Writing? ==> forall k :: 0 <= k < x.done ==> NotInFlight(y, x.call, k)
  }

  ghost predicate SessionsSound(s: State)
  {
    && (forall w :: 0 <= w < |s.sessions| ==> SessionSound(s.tables, s.sessions[w]))
    && (forall v, w :: 0 <= v < |s.sessions| && 0 <= w < |s.sessions| && v != w ==>
         Separate(s.sessions[v], s.sessions[w]))
  }

  // What another session's commit leaves of one session's knowledge.

  lemma AgreeIsTransitive(t: Tables, u: Tables, w: Tables, pid: Uuid)
    requires Agree(t, u, pid) && Agree(u, w, pid)
    ensures Agree(t, w, pid)
  {
  }

  lemma TargetStillRight(t: Tables, u: Tables, c: Call)
    requires Wanted(c) && Agree(t, u, Key(c)) && TargetFailure(t, c).None?
    ensures TargetFailure(u, c).None?
  {
  }

  /** A finished session carries out an accepted save. */
  lemma FinishedIsAccepted(t: Tables, x: Session)
    requires Finished(x) && SessionSound(t, x)
    ensures Verdict(t, x.call).None? && Install(t, Replaced(x.base, x.call), Key(x.call)) == Replaced(t, x.call)
  {
    hide Verdict, Replaced, Install, StatementFailure, DraftOk, OracleFresh, Agree;
    VerdictByStatements(t, x.call);
    InstallIsReplaced(x.base, t, x.call);
  }

  /** A finished session has all its SKUs and its slug in flight. */
  lemma ApartFromFinished(c: Call, k: nat, b: Session)
    requires Finished(b) && NotInFlight(b, c, k)
    ensures StatementApart(c, k, b.call)
  {
    if 3 <= k < |c.draft.variants| + 3 {
      forall j | 0 <= j < |b.call.draft.variants| ensures b.call.draft.variants[j].sku != c.draft.variants[k - 3].sku {
        assert j + 3 < b.done;
      }
    }
  }

  lemma StatementsPassAfterCommit(t: Tables, b: Session, c: Call, done: nat)
    requires Finished(b) && OracleFresh(t, b.call) && Verdict(t, b.call).None? && Wanted(c) && Key(c) != Key(b.call)
    requires TargetKnown(t, c) && TargetKnown(t, b.call) && TargetKnown(Replaced(t, b.call), c)
    requires done <= Statements(c) && StatementsPass(t, c, done)
    requires forall k :: 0 <= k < done ==> NotInFlight(b, c, k)
    ensures StatementsPass(Replaced(t, b.call), c, done)
  {
    hide Verdict, Replaced, OracleFresh, StatementFailure, NotInFlight;
    forall k | 0 <= k < done ensures StatementFailure(Replaced(t, b.call), c, k).None? {
      ApartFromFinished(c, k, b);
      StatementAfterCommit(t, b.call, c, k);
    }
  }

  lemma TargetOfAccepted(t: Tables, c: Call)
    requires Wanted(c) && TargetFailure(t, c).None?
    ensures TargetKnown(t, c)
  {
  }

  lemma WritingStaysSound(t: Tables, b: Session, x: Session)
    requires Finished(b) && OracleFresh(t, b.call) && Verdict(t, b.call).None? && TargetKnown(t, b.call)
    requires x.Writing? && Wanted(x.call) && PhaseSound(t, x) && Key(x.call) != Key(b.call) && FlightsApart(x, b)
    ensures PhaseSound(Replaced(t, b.call), x)
  {
    hide Verdict, Replaced, OracleFresh, StatementFailure, Agree, NotInFlight;
    var u := Replaced(t, b.call);
    CommitAgrees(t, b.call, Key(x.call));
    AgreeIsTransitive(x.base, t, u, Key(x.call));
    TargetStillRight(t, u, x.call);
    TargetOfAccepted(t, x.call);
    TargetOfAccepted(u, x.call);
    StatementsPassAfterCommit(t, b, x.call, x.done);
  }

  lemma PhaseStaysSound(t: Tables, b: Session, x: Session)
    requires Finished(b) && OracleFresh(t, b.call) && Verdict(t, b.call).None? && TargetKnown(t, b.call)
    requires !x.Idle? && Wanted(x.call) && PhaseSound(t, x) && Key(x.call) != Key(b.call) && FlightsApart(x, b)
    ensures PhaseSound(Replaced(t, b.call), x)
  {
    hide Verdict, Replaced, OracleFresh, StatementFailure, NotInFlight;
    match x {
      case Entered(c) => CommitAgrees(t, b.call, Key(c));
      case Checked(c) =>
        CommitAgrees(t, b.call, Key(c));
        TargetStillRight(t, Replaced(t, b.call), c);
      case Writing(_, _, _) => WritingStaysSound(t, b, x);
    }
  }

  lemma KnownTarget(t: Tables, x: Session)
    requires SessionSound(t, x) && !x.Idle?
    ensures TargetKnown(t, x.call)
  {
    hide StatementFailure, DraftOk, OracleFresh;
  }

  lemma OtherSessionStaysSound(t: Tables, b: Session, x: Session)
    requires Finished(b) && SessionSound(t, b) && SessionSound(t, x) && Separate(x, b) && TargetKnown(t, b.call)
    ensures SessionSound(Replaced(t, b.call), x)
  {
    hide Verdict, Replaced, OracleFresh, PhaseSound, FlightsApart, DraftOk;
    FinishedIsAccepted(t, b);
    if !x.Idle? {
      FreshAfterCommit(t, b.call, x.call);
      PhaseStaysSound(t, b, x);
    }
  }

  // Every step.

  lemma SessionsUpdated(s: State, w: nat, x: Session, r: State)
    requires SessionsSound(s) && w < |s.sessions| && r == s.(sessions := s.sessions[w := x])
    requires SessionSound(s.tables, x)
    requires forall v :: 0 <= v < |s.sessions| && v != w ==> Separate(s.sessions[v], x) && Separate(x, s.sessions[v])
    ensures SessionsSound(r)
  {
    hide PhaseSound, OracleFresh, DraftOk, FlightsApart;
  }

  lemma KeysDiffer(t: Tables, c: Call, y: Session)
    requires Wanted(c) && OracleFresh(t, c) && SessionSound(t, y) && !y.Idle? && MintedApart(c, y.call)
    requires c.target.Some? ==> c.target.value in t.products && y.call.target != c.target
    ensures Key(c) != Key(y.call)
  {
    assert c.minted[0] in c.minted && y.call.minted[0] in y.call.minted;
    KnownTarget(t, y);
  }

  lemma EnterKeepsSessions(s: State, w: nat, c: Call, r: State)
    requires SessionsSound(s) && EnterStep(s, w, c, r)
    ensures SessionsSound(r)
  {
    forall v | 0 <= v < |s.sessions| && v != w
      ensures Separate(s.sessions[v], Entered(c)) && Separate(Entered(c), s.sessions[v])
    {
      var y := s.sessions[v];
      assert SessionSound(s.tables, y);
      if !y.Idle? { KeysDiffer(s.tables, c, y); }
    }
    SessionsUpdated(s, w, Entered(c), r);
  }

  /** A session that goes on with the same call, and with nothing more in flight, stays apart from the others. */
  lemma StaysSeparate(s: State, w: nat, x: Session, r: State)
    requires SessionsSound(s) && w < |s.sessions| && !s.sessions[w].Idle? && !x.Idle? && x.call == s.sessions[w].call
    requires x.Writing? ==> x.done == 0
    requires SessionSound(s.tables, x) && r == s.(sessions := s.sessions[w := x])
    ensures SessionsSound(r)
  {
    hide PhaseSound, OracleFresh, DraftOk;
    forall v | 0 <= v < |s.sessions| && v != w ensures Separate(s.sessions[v], x) && Separate(x, s.sessions[v]) {
      assert SessionSound(s.tables, s.sessions[v]) && SessionSound(s.tables, s.sessions[w]);
      assert Separate(s.sessions[v], s.sessions[w]) && Separate(s.sessions[w], s.sessions[v]);
    }
    SessionsUpdated(s, w, x, r);
  }

  lemma CheckKeepsSessions(s: State, w: nat, r: State)
    requires SessionsSound(s) && CheckStep(s, w, r)
    ensures SessionsSound(r)
  {
    hide OracleFresh, DraftOk;
    assert SessionSound(s.tables, s.sessions[w]);
    StaysSeparate(s, w, Checked(s.sessions[w].call), r);
  }

  lemma StartKeepsSessions(s: State, w: nat, r: State)
    requires SessionsSound(s) && StartStep(s, w, r)
    ensures SessionsSound(r)
  {
    hide OracleFresh, DraftOk, Agree, StatementFailure;
    var c := s.sessions[w].call;
    assert SessionSound(s.tables, s.sessions[w]);
    AgreesWithItself(s.tables, Key(c));
    StaysSeparate(s, w, Writing(c, s.tables, 0), r);
  }

  lemma AgreesWithItself(t: Tables, pid: Uuid)
    ensures Agree(t, t, pid)
  {
  }

  /** One statement more in flight, and nobody has its keys. */
  lemma FlightsStayApart(x: Session, y: Session, c: Call)
    requires x.Writing? && x.call == c && !y.Idle? && FlightsApart(x, y) && FlightsApart(y, x)
    requires NotInFlight(y, c, x.done)
    ensures FlightsApart(x.(done := x.done + 1), y) && FlightsApart(y, x.(done := x.done + 1))
  {
    var z := x.(done := x.done + 1);
    if y.Writing? {
      forall k | 0 <= k < y.done ensures NotInFlight(z, y.call, k) {
        assert NotInFlight(x, y.call, k);
        OneMoreInFlight(x, y, k);
      }
    }
  }

  lemma OneMoreInFlight(x: Session, y: Session, k: nat)
    requires x.Writing? && y.Writing? && k < y.done && NotInFlight(x, y.call, k) && NotInFlight(y, x.call, x.done)
    ensures NotInFlight(x.(done := x.done + 1), y.call, k)
  {
    if 3 <= k < |y.call.draft.variants| + 3 {
      var sku := y.call.draft.variants[k - 3].sku;
      SkusInFlight(x, sku);
      assert (k - 3) + 3 < y.done && HoldsSku(y, sku);
    }
  }

  lemma SkusInFlight(x: Session, sku: string)
    requires x.Writing?
    ensures HoldsSku(x.(done := x.done + 1), sku) <==>
      || HoldsSku(x, sku)
      || (3 <= x.done < |x.call.draft.variants| + 3 && x.call.draft.variants[x.done - 3].sku == sku)
  {
    var z := x.(done := x.done + 1);
    if 3 <= x.done < |x.call.draft.variants| + 3 && x.call.draft.variants[x.done - 3].sku == sku {
      assert (x.done - 3) + 3 < z.done;
    }
    if j :| 0 <= j < |x.call.draft.variants| && j + 3 < x.done && x.call.draft.variants[j].sku == sku {
      assert j + 3 < z.done;
    }
  }

  lemma WriteIsSound(t: Tables, x: Session)
    requires x.Writing? && SessionSound(t, x) && x.done < Statements(x.call) && TargetKnown(t, x.call)
    requires StatementFailure(t, x.call, x.done).None?
    ensures SessionSound(t, x.(done := x.done + 1))
  {
    hide StatementFailure, OracleFresh, DraftOk, Agree;
  }

  lemma WriteKeepsSessions(s: State, w: nat, r: State)
    requires SessionsSound(s) && WriteStep(s, w, r)
    ensures SessionsSound(r)
  {
    hide StatementFailure, OracleFresh, DraftOk, PhaseSound, FlightsApart, NotInFlight;
    var x := s.sessions[w];
    var z := x.(done := x.done + 1);
    assert SessionSound(s.tables, x);
    WriteIsSound(s.tables, x);
    forall v | 0 <= v < |s.sessions| && v != w ensures Separate(s.sessions[v], z) && Separate(z, s.sessions[v]) {
      var y := s.sessions[v];
      assert SessionSound(s.tables, y) && Separate(y, x) && Separate(x, y);
      if !y.Idle? { FlightsStayApart(x, y, x.call); }
    }
    SessionsUpdated(s, w, z, r);
  }

  lemma CommitIsReplacement(s: State, w: nat, r: State)
    requires SessionsSound(s) && CommitStep(s, w, r)
    ensures var c := s.sessions[w].call;
      && Sent(c) && OracleFresh(s.tables, c) && Verdict(s.tables, c).None? && TargetKnown(s.tables, c)
      && r.tables == Replaced(s.tables, c)
  {
    hide Verdict, Replaced, Install, OracleFresh, PhaseSound, DraftOk;
    assert SessionSound(s.tables, s.sessions[w]);
    KnownTarget(s.tables, s.sessions[w]);
    FinishedIsAccepted(s.tables, s.sessions[w]);
  }

  lemma CommitKeepsSessions(s: State, w: nat, r: State)
    requires SessionsSound(s) && CommitStep(s, w, r)
    ensures SessionsSound(r)
  {
    hide Verdict, Replaced, Install, OracleFresh, PhaseSound, DraftOk, FlightsApart, Finished;
    CommitIsReplacement(s, w, r);
    forall v | 0 <= v < |r.sessions| ensures SessionSound(r.tables, r.sessions[v]) {
      if v != w {
        assert SessionSound(s.tables, s.sessions[v]) && SessionSound(s.tables, s.sessions[w]);
        assert Separate(s.sessions[v], s.sessions[w]);
        OtherSessionStaysSound(s.tables, s.sessions[w], s.sessions[v]);
      }
    }
    forall v, u | 0 <= v < |r.sessions| && 0 <= u < |r.sessions| && v != u
      ensures Separate(r.sessions[v], r.sessions[u])
    {
      if v != w && u != w { assert Separate(s.sessions[v], s.sessions[u]); }
    }
  }

  // References only grow.

  lemma StatementAfterReferences(t: Tables, refs: References, c: Call, k: nat)
    requires RefsGrow(t.refs, refs) && Wanted(c) && k < Statements(c) && TargetKnown(t, c)
    requires StatementFailure(t, c, k).None?
    ensures StatementFailure(t.(refs := refs), c, k).None?
  {
    if 3 <= k < |c.draft.variants| + 3 {
      assert VariantsAfter(t.(refs := refs), c, k - 3) == VariantsAfter(t, c, k - 3);
    }
  }

  lemma PhaseAfterReferences(t: Tables, refs: References, x: Session)
    requires RefsGrow(t.refs, refs) && !x.Idle? && Wanted(x.call) && PhaseSound(t, x)
    ensures PhaseSound(t.(refs := refs), x)
  {
    hide StatementFailure;
    if x.Writing? {
      forall k | 0 <= k < x.done ensures StatementFailure(t.(refs := refs), x.call, k).None? {
        StatementAfterReferences(t, refs, x.call, k);
      }
    }
  }

  lemma SessionAfterReferences(t: Tables, refs: References, x: Session)
    requires RefsGrow(t.refs, refs) && SessionSound(t, x)
    ensures SessionSound(t.(refs := refs), x)
  {
    hide PhaseSound, DraftOk;
    if !x.Idle? {
      PhaseAfterReferences(t, refs, x);
      assert OracleFresh(t.(refs := refs), x.call);
    }
  }

  lemma GrowKeepsSessions(s: State, refs: References, r: State)
    requires SessionsSound(s) && Next(s, Grow(refs), r)
    ensures SessionsSound(r)
  {
    hide SessionSound, Separate;
    forall v | 0 <= v < |r.sessions| ensures SessionSound(r.tables, r.sessions[v]) {
      SessionAfterReferences(s.tables, refs, s.sessions[v]);
    }
  }

  lemma EndKeepsSessions(s: State, w: nat, r: State)
    requires SessionsSound(s) && w < |s.sessions| && r == s.(sessions := s.sessions[w := Idle])
    ensures SessionsSound(r)
  {
    hide PhaseSound, OracleFresh, DraftOk, FlightsApart;
    SessionsUpdated(s, w, Idle, r);
  }

  lemma StepKeepsSessions(s: State, a: Action, r: State)
    requires SessionsSound(s) && Next(s, a, r)
    ensures SessionsSound(r)
  {
    match a {
      case Enter(w, c) => EnterKeepsSessions(s, w, c, r);
      case Check(w) => CheckKeepsSessions(s, w, r);
      case Start(w) => StartKeepsSessions(s, w, r);
      case Write(w) => WriteKeepsSessions(s, w, r);
      case Commit(w) => CommitKeepsSessions(s, w, r);
      case Refuse(w, _) => EndKeepsSessions(s, w, r);
      case Miss(_) =>
      case Abort(w) => EndKeepsSessions(s, w, r);
      case Grow(refs) => GrowKeepsSessions(s, refs, r);
    }
  }

  // The serial run.

  /** Each logged save was accepted by the tables the earlier ones left. */
  ghost predicate AllCarried(t: Tables, log: seq<Op>)
    decreases |log|
  {
    log == [] || (Admissible(t, log[0]) && (log[0].Save? ==> Carried(t, log[0].call))
      && AllCarried(Step(t, log[0]), log[1..]))
  }

  lemma {:induction false} CarriedLogIsRun(t: Tables, log: seq<Op>)
    requires AllCarried(t, log)
    ensures RunOk(t, log)
    decreases |log|
  {
    if log != [] { CarriedLogIsRun(Step(t, log[0]), log[1..]); }
  }

  lemma {:induction false} LogGrows(t: Tables, log: seq<Op>, op: Op)
    requires AllCarried(t, log) && RunOk(t, log)
    requires Admissible(After(t, log), op) && (op.Save? ==> Carried(After(t, log), op.call))
    ensures AllCarried(t, log + [op]) && RunOk(t, log + [op]) && After(t, log + [op]) == Step(After(t, log), op)
    decreases |log|
  {
    if log == [] {
      assert ([] + [op])[1..] == [];
    } else {
      assert (log + [op])[1..] == log[1..] + [op];
      LogGrows(Step(t, log[0]), log[1..], op);
    }
  }

  ghost predicate Serial(origin: Tables, s: State)
  {
    AllCarried(origin, s.log) && RunOk(origin, s.log) && After(origin, s.log) == s.tables
  }

  lemma StepKeepsSerial(origin: Tables, s: State, a: Action, r: State)
    requires SessionsSound(s) && Serial(origin, s) && Next(s, a, r)
    ensures Serial(origin, r)
  {
    match a {
      case Commit(w) =>
        CommitIsReplacement(s, w, r);
        LogGrows(origin, s.log, Save(s.sessions[w].call));
      case Grow(refs) => LogGrows(origin, s.log, AddReferences(refs));
      case _ =>
    }
  }

  ghost predicate Opening(origin: Tables, s: State)
  {
    s.tables == origin && s.log == [] && forall w :: 0 <= w < |s.sessions| ==> s.sessions[w].Idle?
  }

  ghost predicate Run(origin: Tables, states: seq<State>, actions: seq<Action>)
  {
    |states| == |actions| + 1 && Opening(origin, states[0]) && forall i :: 0 <= i < |actions| ==>
      Next(states[i], actions[i], states[i + 1])
  }

  lemma {:induction false} RunIsSound(origin: Tables, states: seq<State>, actions: seq<Action>, i: nat)
    requires Run(origin, states, actions) && i < |states|
    ensures SessionsSound(states[i]) && Serial(origin, states[i])
  {
    if i > 0 {
      RunIsSound(origin, states, actions, i - 1);
      StepKeepsSessions(states[i - 1], actions[i - 1], states[i]);
      StepKeepsSerial(origin, states[i - 1], actions[i - 1], states[i]);
    }
  }

  /** Serializability: whatever the interleaving, the committed tables are those of the committed saves
      carried out one after the other in commit order, so every theorem about runs holds of them. */
  lemma EveryRunIsSerial(origin: Tables, states: seq<State>, actions: seq<Action>, i: nat)
    requires Run(origin, states, actions) && i < |states| && Inv(origin)
    ensures RunOk(origin, states[i].log) && states[i].tables == After(origin, states[i].log) && Inv(states[i].tables)
  {
    RunIsSound(origin, states, actions, i);
    RunKeepsInv(origin, states[i].log);
  }

  /** Whatever the interleaving, active products stay on sale as long as the committed drafts do. */
  lemma EveryRunStaysOnSale(origin: Tables, states: seq<State>, actions: seq<Action>, i: nat)
    requires Run(origin, states, actions) && i < |states| && Offered(origin)
    ensures RunOk(origin, states[i].log)
    ensures AllStayOnSale(origin, states[i].log) ==> Offered(states[i].tables)
  {
    hide Run, SessionsSound, Offered, AllStayOnSale;
    RunIsSound(origin, states, actions, i);
    RunKeepsOffersExactly(origin, states[i].log);
  }

  /** No lost update: the audit rows of each product tell of one creation and then of updates, with the new
      revisions 1, 2, ..., n, each over the one before, and n is the product's revision. */
  lemma NoLostUpdate(r: References, states: seq<State>, actions: seq<Action>, i: nat, p: Uuid)
    requires RefsCanonical(r) && Run(Empty(r), states, actions) && i < |states| && p in states[i].tables.products
    ensures var rows := AuditOf(states[i].tables.audit, p);
      && |rows| == states[i].tables.products[p].revision
      && forall k :: 0 <= k < |rows| ==>
           && rows[k].newRevision == k + 1 && rows[k].oldRevision == (if k == 0 then None else Some(k))
           && rows[k].action == (if k == 0 then "product.created" else "product.updated")
  {
    EmptyIsFine(r);
    EveryRunIsSerial(Empty(r), states, actions, i);
    assert HistoryOf(states[i].tables, p);
  }

  lemma {:induction false} LogTail(t: Tables, log: seq<Op>, k: nat)
    requires AllCarried(t, log) && k < |log|
    ensures RunOk(t, log[..k]) && AllCarried(After(t, log[..k]), log[k..])
    decreases |log|
  {
    if k == 0 {
      assert log[0..] == log;
    } else {
      LogTail(Step(t, log[0]), log[1..], k - 1);
      assert log[..k][1..] == log[1..][..k - 1] && log[k..] == log[1..][k - 1..];
    }
  }

  ghost predicate Updates(op: Op, p: Uuid, expected: int)
  {
    op.Save? && op.call.target == Some(p) && op.call.expected == Some(expected)
  }

  lemma OneInLog(t: Tables, log: seq<Op>, k: nat, p: Uuid, expected: int)
    requires AllCarried(t, log) && 0 < k < |log| && Updates(log[0], p, expected)
    ensures !Updates(log[k], p, expected)
  {
    hide Verdict, Replaced, After, RunOk;
    LogTail(t, log, k);
    var u := After(t, log[..k]);
    assert AllCarried(u, log[k..]) && log[k..][0] == log[k] && log[..k][0] == log[0];
    ExpectedRevisionIsSpent(t, log[..k], p, expected, log[k]);
  }

  /** Of all concurrent updates of a product sent with one expected revision at most one commits. */
  lemma OneUpdatePerRevision(origin: Tables, states: seq<State>, actions: seq<Action>, n: nat, i: nat, j: nat,
          p: Uuid, expected: int)
    requires Run(origin, states, actions) && n < |states| && i < j < |states[n].log|
    requires Updates(states[n].log[i], p, expected)
    ensures !Updates(states[n].log[j], p, expected)
  {
    hide Run, Inv, Next, SessionsSound, Verdict, Replaced;
    RunIsSound(origin, states, actions, n);
    var log := states[n].log;
    LogTail(origin, log, i);
    OneInLog(After(origin, log[..i]), log[i..], j - i, p, expected);
  }
}
