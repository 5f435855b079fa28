/** What concurrent sessions answer. A refusal is the one the same save would have got alone, on the tables
    committed at that moment, and a session loses a revision only to another session that took it. */
module SaveAnswers {
  import opened Wrappers
  import opened Uuids
  import opened CatalogTables
  import opened DraftValidation
  import opened CatalogSaveSpec
  import opened CatalogSaveProofs
  import opened CatalogRuns
  import opened SaveCommutes
  import opened SaveConcurrency

  /** The action answers the call with a refusal. */
  ghost predicate Refuses(s: State, a: Action, c: Call, code: Failure)
  {
    match a
    case Refuse(w, f) => w < |s.sessions| && !s.sessions[w].Idle? && s.sessions[w].call == c && code == f
    case Miss(d) => d == c && code == NotFound
    case _ => false
  }

  lemma ObjectionIsVerdict(t: Tables, x: Session, code: Failure)
    requires SessionSound(t, x) && Objection(t, x) == Some(code)
    ensures !x.Idle? && Wanted(x.call) && Verdict(t, x.call) == Some(code)
  {
    hide StatementFailure, DraftOk, OracleFresh, Agree, Verdict;
    match x {
      case Entered(c) => TargetDecides(t, c);
      case Writing(c, _, done) => FirstObjectionDecides(t, c, done);
    }
  }

  lemma TargetDecides(t: Tables, c: Call)
    requires Wanted(c) && TargetFailure(t, c).Some?
    ensures Verdict(t, c) == TargetFailure(t, c)
  {
  }

  /** However the sessions interleave, a refusal carries the code the save would have got by itself. */
  lemma EveryRefusalIsSerial(origin: Tables, states: seq<State>, actions: seq<Action>, i: nat, c: Call, code: Failure)
    requires Run(origin, states, actions) && i < |actions| && Refuses(states[i], actions[i], c, code)
    ensures Wanted(c) && Verdict(states[i].tables, c) == Some(code)
  {
    hide SessionSound, Verdict, Objection, Sent, Serial;
    RunIsSound(origin, states, actions, i);
    assert Next(states[i], actions[i], states[i + 1]);
    match actions[i] {
      case Refuse(w, _) => ObjectionIsVerdict(states[i].tables, states[i].sessions[w], code);
      case Miss(_) => MissIsVerdict(states[i], c, states[i + 1]);
    }
  }

  lemma MissIsVerdict(s: State, c: Call, r: State)
    requires MissStep(s, c, r)
    ensures Wanted(c) && Verdict(s.tables, c) == Some(NotFound)
  {
    TargetDecides(s.tables, c);
  }

  // Every session gets on or gets its answer.

  ghost predicate CanStep(s: State, a: Action)
  {
    exists r :: Next(s, a, r)
  }

  /** The product is committed at the revision the caller expects, or there is nothing to expect. */
  ghost predicate UpToDate(t: Tables, c: Call)
  {
    c.target.Some? ==> c.target.value in t.products && c.expected == Some(t.products[c.target.value].revision)
  }

  lemma EnteredStep(s: State, w: nat)
    requires w < |s.sessions| && s.sessions[w].Entered? && SessionSound(s.tables, s.sessions[w])
    ensures var c := s.sessions[w].call;
      && (c.target.Some? ==> c.target.value in s.tables.products)
      && (CanStep(s, Check(w)) <==> UpToDate(s.tables, c))
      && (CanStep(s, Refuse(w, RevisionConflict)) <==> !UpToDate(s.tables, c))
  {
    hide StatementFailure, OracleFresh, DraftOk;
    var c := s.sessions[w].call;
    assert TargetKnown(s.tables, c);
    if UpToDate(s.tables, c) {
      assert Next(s, Check(w), s.(sessions := s.sessions[w := Checked(c)]));
    } else {
      assert Next(s, Refuse(w, RevisionConflict), s.(sessions := s.sessions[w := Idle]));
    }
  }

  /** A session that holds the row goes on when the committed revision is the expected one and is answered
      REVISION_CONFLICT when it is not; nothing else can happen to it but an abort. */
  lemma EnteredIsAnswered(origin: Tables, states: seq<State>, actions: seq<Action>, i: nat, w: nat)
    requires Run(origin, states, actions) && i < |states| && w < |states[i].sessions| && states[i].sessions[w].Entered?
    ensures var s, c := states[i], states[i].sessions[w].call;
      && (c.target.Some? ==> c.target.value in s.tables.products)
      && (CanStep(s, Check(w)) <==> UpToDate(s.tables, c))
      && (CanStep(s, Refuse(w, RevisionConflict)) <==> !UpToDate(s.tables, c))
  {
    hide SessionSound, Separate, CanStep, Serial, UpToDate;
    RunIsSound(origin, states, actions, i);
    EnteredStep(states[i], w);
  }

  /** Somebody else has written the slug or the SKU that the session is about to write. */
  ghost predicate WaitsForKey(s: State, w: nat)
    requires w < |s.sessions| && s.sessions[w].Writing?
  {
    exists v :: 0 <= v < |s.sessions| && v != w && HasTheKey(s.sessions[v], s.sessions[w])
  }

  /** `y` has written a product with the slug, or a variant with the SKU, of the statement `x` has come to. */
  ghost predicate HasTheKey(y: Session, x: Session)
    requires x.Writing?
  {
    var mine := x.call.draft;
    && y.Writing?
    && var theirs := y.call.draft;
       || (x.done == 0 && y.done > 0 && theirs.slug == mine.slug)
       || (exists i, j ::
            && 0 <= i < |mine.variants| && 0 <= j < |theirs.variants| && x.done == 3 + i && j + 3 < y.done
            && theirs.variants[j].sku == mine.variants[i].sku)
  }

  lemma HeldExactly(y: Session, x: Session)
    requires x.Writing?
    ensures NotInFlight(y, x.call, x.done) <==> !HasTheKey(y, x)
  {
    var mine := x.call.draft;
    if 3 <= x.done < |mine.variants| + 3 && HoldsSku(y, mine.variants[x.done - 3].sku) {
      var theirs := y.call.draft;
      var j :| 0 <= j < |theirs.variants| && j + 3 < y.done && theirs.variants[j].sku == mine.variants[x.done - 3].sku;
      assert x.done == 3 + (x.done - 3);
    }
  }

  lemma WaitingMeansHeld(s: State, w: nat)
    requires w < |s.sessions| && s.sessions[w].Writing?
    ensures NobodyHolds(s, w, s.sessions[w].call, s.sessions[w].done) <==> !WaitsForKey(s, w)
  {
    hide NotInFlight, HasTheKey;
    forall v | 0 <= v < |s.sessions|
      ensures NotInFlight(s.sessions[v], s.sessions[w].call, s.sessions[w].done)
        <==> !HasTheKey(s.sessions[v], s.sessions[w])
    {
      HeldExactly(s.sessions[v], s.sessions[w]);
    }
  }

  lemma ViewIsWhole(t: Tables, c: Call)
    requires Wanted(c) && TargetKnown(t, c)
    ensures Key(c) in Replaced(t, c).products && Replaced(t, c).audit != []
  {
  }

  lemma FinishedCommits(s: State, w: nat)
    requires w < |s.sessions| && Finished(s.sessions[w])
    ensures CanStep(s, Commit(w))
  {
    hide Replaced, Install;
    var x := s.sessions[w];
    var view := Replaced(x.base, x.call);
    ViewIsWhole(x.base, x.call);
    var tables := Install(s.tables, view, Key(x.call));
    assert Next(s, Commit(w), State(tables, s.sessions[w := Idle], s.log + [Save(x.call)]));
  }

  lemma WritingStep(s: State, w: nat)
    requires w < |s.sessions| && s.sessions[w].Writing? && SessionSound(s.tables, s.sessions[w])
    ensures var c := s.sessions[w].call;
      && Wanted(c)
      && (CanStep(s, Commit(w)) || CanStep(s, Write(w)) || WaitsForKey(s, w)
          || (Verdict(s.tables, c).Some? && CanStep(s, Refuse(w, Verdict(s.tables, c).value))))
      && (CanStep(s, Commit(w)) ==> Verdict(s.tables, c).None?)
  {
    hide StatementFailure, OracleFresh, DraftOk, Verdict, Replaced, Install;
    var x := s.sessions[w];
    var c := x.call;
    TargetOfAccepted(s.tables, c);
    if x.done == Statements(c) {
      FinishedIsAccepted(s.tables, x);
      FinishedCommits(s, w);
    } else {
      var f := StatementFailure(s.tables, c, x.done);
      if f.Some? {
        FirstObjectionDecides(s.tables, c, x.done);
        assert Next(s, Refuse(w, f.value), s.(sessions := s.sessions[w := Idle]));
      } else {
        WaitingMeansHeld(s, w);
        if !WaitsForKey(s, w) {
          assert Next(s, Write(w), s.(sessions := s.sessions[w := Writing(c, x.base, x.done + 1)]));
        }
      }
    }
  }

  /** A session that writes commits, writes its next statement, waits for a key another session has in flight,
      or is answered what the save alone would get on the committed tables. */
  lemma WritingIsAnswered(origin: Tables, states: seq<State>, actions: seq<Action>, i: nat, w: nat)
    requires Run(origin, states, actions) && i < |states| && w < |states[i].sessions| && states[i].sessions[w].Writing?
    ensures var s, c := states[i], states[i].sessions[w].call;
      && Wanted(c)
      && (CanStep(s, Commit(w)) || CanStep(s, Write(w)) || WaitsForKey(s, w)
          || (Verdict(s.tables, c).Some? && CanStep(s, Refuse(w, Verdict(s.tables, c).value))))
      && (CanStep(s, Commit(w)) ==> Verdict(s.tables, c).None?)
  {
    hide SessionSound, Separate, CanStep, Serial, WaitsForKey, Verdict;
    RunIsSound(origin, states, actions, i);
    WritingStep(states[i], w);
  }

  /** The call is under way in some session. */
  ghost predicate UnderWay(s: State, c: Call)
  {
    exists v :: 0 <= v < |s.sessions| && !s.sessions[v].Idle? && s.sessions[v].call == c
  }

  /** A validated draft is taken up as soon as nobody holds the row, and a product that is not there is answered
      at once. */
  lemma CallsAreTakenUp(s: State, w: nat, c: Call)
    requires w < |s.sessions| && |c.minted| == |c.draft.variants| + 1 && DraftOk(c.draft)
    requires c.target.Some? ==> c.expected.Some? && c.expected.value > 0
    ensures c.target.Some? && c.target.value !in s.tables.products ==> CanStep(s, Miss(c))
    ensures
      (&& s.sessions[w].Idle? && OracleFresh(s.tables, c)
       && (c.target.Some? ==> c.target.value in s.tables.products)
       && (forall b :: UnderWay(s, b) ==>
            (c.target.Some? ==> b.target != c.target) && forall k :: k in c.minted ==> k !in b.minted)) ==>
        CanStep(s, Enter(w, c))
    ensures s.sessions[w].Checked? ==> CanStep(s, Start(w))
    ensures CanStep(s, Abort(w))
  {
    hide OracleFresh, DraftOk;
    assert Next(s, Abort(w), s.(sessions := s.sessions[w := Idle]));
    forall v | 0 <= v < |s.sessions| && !s.sessions[v].Idle? ensures UnderWay(s, s.sessions[v].call) { }
    hide UnderWay;
    if c.target.Some? && c.target.value !in s.tables.products { assert Next(s, Miss(c), s); }
    var entered := s.(sessions := s.sessions[w := Entered(c)]);
    if EnterStep(s, w, c, entered) { assert Next(s, Enter(w, c), entered); }
    if s.sessions[w].Checked? {
      assert Next(s, Start(w), s.(sessions := s.sessions[w := Writing(s.sessions[w].call, s.tables, 0)]));
    }
  }

  // Conflicts.

  lemma {:induction false} RowFailureIsNoConflict(ids: seq<string>, positions: nat, i: nat)
    requires i <= |ids|
    ensures RowFailure(ids, positions, i) != Some(RevisionConflict)
    decreases |ids| - i
  {
    if i < |ids| { RowFailureIsNoConflict(ids, positions, i + 1); }
  }

  lemma {:induction false} VariantsFailureIsNoConflict(t: Tables, c: Call, i: nat)
    requires Wanted(c) && i <= |c.draft.variants|
    ensures VariantsFailure(t, c, i) != Some(RevisionConflict)
    decreases |c.draft.variants| - i
  {
    hide SkuHeld, VariantChecks, IsUuid;
    if i < |c.draft.variants| { VariantsFailureIsNoConflict(t, c, i + 1); }
  }

  /** The code says what it should: the product is there, at another revision than the expected one. */
  lemma ConflictMeansStale(t: Tables, c: Call)
    requires Wanted(c)
    ensures Verdict(t, c) == Some(RevisionConflict) <==>
      c.target.Some? && c.target.value in t.products && c.expected != Some(t.products[c.target.value].revision)
  {
    hide RowFailure, VariantsFailure, SlugTaken, SlugPattern, CanonSet;
    RowFailureIsNoConflict(c.draft.categoryIds, |c.draft.categoryIds|, 0);
    RowFailureIsNoConflict(c.draft.mediaIds, 10, 0);
    VariantsFailureIsNoConflict(t, c, 0);
  }

  /** A product's revision changes only by an update that expected the revision before. */
  lemma RevisionMoves(t: Tables, op: Op, p: Uuid)
    requires Admissible(t, op) && p in t.products && (op.Save? ==> Carried(t, op.call))
    ensures p in Step(t, op).products
    ensures Step(t, op).products[p].revision != t.products[p].revision ==> Updates(op, p, t.products[p].revision)
  {
    if op.Save? {
      AcceptedMeans(t, op.call);
      assert op.call.minted[0] in op.call.minted;
    }
  }

  lemma AdmissibleIsWanted(t: Tables, op: Op)
    requires Admissible(t, op)
    ensures op.Save? ==> Wanted(op.call)
  {
  }

  lemma {:induction false} SomebodyUpdated(t: Tables, log: seq<Op>, p: Uuid)
    requires AllCarried(t, log) && RunOk(t, log) && p in t.products && p in After(t, log).products
    requires After(t, log).products[p].revision != t.products[p].revision
    ensures exists k :: 0 <= k < |log| && Updates(log[k], p, t.products[p].revision)
    decreases |log|
  {
    hide Updates, Carried, OracleFresh, RefsGrow, RefsCanonical, Replaced;
    if log != [] {
      AdmissibleIsWanted(t, log[0]);
      var u := Step(t, log[0]);
      RevisionMoves(t, log[0], p);
      if u.products[p].revision == t.products[p].revision {
        SomebodyUpdated(u, log[1..], p);
        var k :| 0 <= k < |log[1..]| && Updates(log[1..][k], p, t.products[p].revision);
        assert Updates(log[k + 1], p, t.products[p].revision);
      }
    }
  }

  lemma {:induction false} LogIsKept(origin: Tables, states: seq<State>, actions: seq<Action>, m: nat, i: nat)
    requires Run(origin, states, actions) && m <= i < |states|
    ensures states[m].log <= states[i].log
    decreases i
  {
    if m < i {
      LogIsKept(origin, states, actions, m, i - 1);
      assert Next(states[i - 1], actions[i - 1], states[i]);
    }
  }

  lemma {:induction false} AfterSplit(t: Tables, log: seq<Op>, k: nat)
    requires AllCarried(t, log) && RunOk(t, log) && k <= |log|
    ensures RunOk(t, log[..k]) && AllCarried(After(t, log[..k]), log[k..]) && RunOk(After(t, log[..k]), log[k..])
    ensures After(t, log) == After(After(t, log[..k]), log[k..])
    decreases |log|
  {
    hide Carried, OracleFresh, RefsGrow, RefsCanonical, Replaced;
    if k == 0 {
      assert log[..0] == [] && log[0..] == log;
    } else {
      assert log[..k][0] == log[0];
      AdmissibleIsWanted(t, log[0]);
      AfterSplit(Step(t, log[0]), log[1..], k - 1);
      assert log[..k][1..] == log[1..][..k - 1] && log[k..] == log[1..][k - 1..];
    }
  }

  /** A caller who read revision `expected` is refused with a conflict only if, since then, another save of the
      product with that same expected revision has committed: somebody has won. */
  lemma ConflictHasWinner(origin: Tables, states: seq<State>, actions: seq<Action>, m: nat, i: nat, c: Call, p: Uuid)
    requires Run(origin, states, actions) && m <= i < |actions| && Refuses(states[i], actions[i], c, RevisionConflict)
    requires c.target == Some(p) && p in states[m].tables.products
    requires c.expected == Some(states[m].tables.products[p].revision)
    ensures exists k :: |states[m].log| <= k < |states[i].log| && Updates(states[i].log[k], p, c.expected.value)
  {
    hide SessionsSound, Verdict, Next, Refuses, Updates;
    EveryRefusalIsSerial(origin, states, actions, i, c, RevisionConflict);
    ConflictMeansStale(states[i].tables, c);
    RunIsSound(origin, states, actions, m);
    RunIsSound(origin, states, actions, i);
    LogIsKept(origin, states, actions, m, i);
    var log, n := states[i].log, |states[m].log|;
    AfterSplit(origin, log, n);
    assert log[..n] == states[m].log;
    SomebodyUpdated(states[m].tables, log[n..], p);
    var k :| 0 <= k < |log[n..]| && Updates(log[n..][k], p, c.expected.value);
    assert Updates(log[n + k], p, c.expected.value);
  }
}
