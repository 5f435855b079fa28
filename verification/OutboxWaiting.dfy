/** Bounded waiting with any number of workers: how many commits can pass an eligible event over. */
module OutboxWaiting {
  import opened Orders
  import opened OutboxTable
  import opened OutboxWorkers
  import F = OutboxFairness

  /** Steps of the workers from any sound state on; every reachable state is one. */
  ghost predicate Span(states: seq<State>, steps: seq<Step>)
  {
    && |states| == |steps| + 1 && Inv(states[0])
    && forall i :: 0 <= i < |steps| ==> Next(states[i], steps[i], states[i + 1])
  }

  ghost predicate Held(s: State, id: nat)
  {
    exists w :: 0 <= w < |s.workers| && id in BatchOf(s.workers[w])
  }

  /** Within the first `n` steps the worker began a statement, so what it runs now began there too. */
  ghost predicate Began(steps: seq<Step>, n: nat, w: nat)
    requires n <= |steps|
  {
    exists i :: 0 <= i < n && steps[i].Begin? && steps[i].w == w
  }

  /** Commits among the first `n` steps, of statements begun among them. */
  ghost function Commits(steps: seq<Step>, n: nat): nat
    requires n <= |steps|
  {
    if n == 0 then 0
    else Commits(steps, n - 1) + if steps[n - 1].Finish? && Began(steps, n - 1, steps[n - 1].w) then 1 else 0
  }

  /** A row is inserted that sorts before or level with the event. */
  predicate InsertsEarly(step: Step, event: Event)
  {
    step.Insert? && KeyLeq(step.event, event)
  }

  function Early(steps: seq<Step>, n: nat, event: Event): nat
    requires n <= |steps|
  {
    if n == 0 then 0 else Early(steps, n - 1, event) + if InsertsEarly(steps[n - 1], event) then 1 else 0
  }

  /** No committed statement took as long as the retry delay. */
  ghost predicate Brisk(states: seq<State>, steps: seq<Step>)
    requires |states| == |steps| + 1
  {
    forall i :: 0 <= i < |steps| && steps[i].Finish? ==> BriskStep(states[i], steps[i].w)
  }

  ghost predicate BriskStep(s: State, w: nat)
  {
    w < |s.workers| && s.workers[w].Scanning? ==> s.now < s.workers[w].now + RETRY_DELAY
  }

  ghost predicate Queue(states: seq<State>, steps: seq<Step>, id: nat)
  {
    Span(states, steps) && id in states[0].events && Eligible(states[0].events[id], states[0].now)
  }

  // A statement that sees the event waiting.

  /** The row was ahead, or will fail the re-check. */
  ghost predicate InLine(events: map<nat, Event>, k: nat, now: int, ahead: set<nat>)
  {
    k in events && (k in ahead || !Eligible(events[k], now))
  }

  /** The event is the p-th row still to be visited; all rows before it, taken or not, were ahead of it. */
  ghost predicate QueuedAt(x: Worker, events: map<nat, Event>, id: nat, ahead: set<nat>, p: nat)
  {
    && x.Scanning? && id in events && Eligible(events[id], x.now)
    && p < |x.todo| && x.todo[p] == id
    && (forall k :: k in x.batch ==> k in ahead)
    && (forall i :: 0 <= i < p ==> InLine(events, x.todo[i], x.now, ahead))
  }

  ghost predicate Queued(s: State, w: nat, id: nat, ahead: set<nat>)
    requires w < |s.workers|
  {
    s.workers[w].Scanning? ==>
      s.workers[w].now <= s.now && exists p: nat :: QueuedAt(s.workers[w], s.events, id, ahead, p)
  }

  /** Every statement begun within the first `n` steps still has the event before it. */
  ghost predicate AllQueued(s: State, steps: seq<Step>, n: nat, id: nat, ahead: set<nat>)
    requires n <= |steps|
  {
    forall w :: 0 <= w < |s.workers| && Began(steps, n, w) ==> Queued(s, w, id, ahead)
  }

  lemma ScanStartsQueued(s: State, scan: seq<nat>, id: nat)
    requires ScanOf(scan, s.events, s.now) && id in s.events && Eligible(s.events[id], s.now)
    ensures exists p: nat :: QueuedAt(Scanning(s.now, scan, []), s.events, id, F.Ahead(s.events, id), p)
  {
    var p: nat :| p < |scan| && scan[p] == id;
    forall i | 0 <= i < p ensures InLine(s.events, scan[i], s.now, F.Ahead(s.events, id)) {
      assert scan[i] in scan;
    }
    assert QueuedAt(Scanning(s.now, scan, []), s.events, id, F.Ahead(s.events, id), p);
  }

  /** Visiting the event would take it, so as long as nobody holds it the scan has not got there. */
  lemma VisitStaysQueued(s: State, w: nat, r: State, id: nat, ahead: set<nat>)
    requires VisitStep(s, w, r) && Queued(s, w, id, ahead) && !Held(s, id) && !Held(r, id)
    ensures Queued(r, w, id, ahead)
  {
    var x, y := s.workers[w], r.workers[w];
    var p: nat :| QueuedAt(x, s.events, id, ahead, p);
    assert !LockedByOther(s, w, id) && id !in BatchOf(y);
    assert p > 0;
    assert InLine(s.events, x.todo[0], x.now, ahead);
    forall i | 0 <= i < p - 1 ensures InLine(r.events, y.todo[i], y.now, ahead) {
      assert y.todo[i] == x.todo[i + 1];
    }
    assert QueuedAt(y, r.events, id, ahead, p - 1);
  }

  /** Another worker's commit: a row it parks leaves the line, or fails this statement's re-check. */
  lemma RowStaysInLine(events: map<nat, Event>, batch: seq<nat>, at: int, k: nat, now: int, ahead: set<nat>,
          after: set<nat>)
    requires InLine(events, k, now, ahead) && (k in batch ==> Eligible(events[k], at))
    requires forall j :: j in ahead ==> j in after || j in batch
    requires ahead <= after || now < at + RETRY_DELAY
    ensures InLine(Parked(events, batch, at), k, now, after)
  {
  }

  lemma CommitStaysQueued(s: State, v: nat, r: State, w: nat, id: nat, ahead: set<nat>, after: set<nat>)
    requires LocksSound(s) && FinishStep(s, v, r) && w < |s.workers| && w != v && !Held(s, id)
    requires Queued(s, w, id, ahead)
    requires forall k :: k in ahead ==> k in after || k in s.workers[v].batch
    requires ahead <= after || BriskStep(s, v)
    ensures Queued(r, w, id, after)
  {
    var x, y := s.workers[w], s.workers[v];
    if x.Scanning? {
      var p: nat :| QueuedAt(x, s.events, id, ahead, p);
      assert WorkerSound(y, s.events);
      assert id !in BatchOf(y);
      Apart(s, v, w);
      forall i | 0 <= i < p ensures InLine(r.events, x.todo[i], x.now, after) {
        assert InLine(s.events, x.todo[i], x.now, ahead);
        RowStaysInLine(s.events, y.batch, y.now, x.todo[i], x.now, ahead, after);
      }
      forall k | k in x.batch ensures k in after { assert k in BatchOf(x); }
      assert QueuedAt(r.workers[w], r.events, id, after, p);
    }
  }

  lemma InsertStaysQueued(s: State, k: nat, e: Event, r: State, w: nat, id: nat, ahead: set<nat>, after: set<nat>)
    requires Next(s, Insert(k, e), r) && w < |s.workers| && Queued(s, w, id, ahead) && ahead <= after
    ensures Queued(r, w, id, after)
  {
    var x := s.workers[w];
    if x.Scanning? {
      var p: nat :| QueuedAt(x, s.events, id, ahead, p);
      forall i | 0 <= i < p ensures InLine(r.events, x.todo[i], x.now, after) {
        assert InLine(s.events, x.todo[i], x.now, ahead);
      }
      assert QueuedAt(x, r.events, id, after, p);
    }
  }

  lemma TickStaysQueued(s: State, to: int, r: State, w: nat, id: nat, ahead: set<nat>)
    requires Next(s, Tick(to), r) && w < |s.workers| && Queued(s, w, id, ahead)
    ensures Queued(r, w, id, ahead)
  {
  }

  /** Who may have left the line: nobody, or rows a brisk commit has just parked. An insertion may add one. */
  ghost predicate LineMoves(s: State, step: Step, ahead: set<nat>, after: set<nat>)
  {
    if step.Finish? && step.w < |s.workers| && s.workers[step.w].Scanning? then
      && (forall k :: k in ahead ==> k in after || k in s.workers[step.w].batch)
      && (ahead <= after || BriskStep(s, step.w))
    else if step.Insert? then ahead <= after
    else ahead == after
  }

  lemma BeganBefore(steps: seq<Step>, n: nat, w: nat)
    requires n < |steps| && Began(steps, n + 1, w) && !(steps[n].Begin? && steps[n].w == w)
    ensures Began(steps, n, w)
  {
  }

  lemma WorkerStaysQueued(s: State, steps: seq<Step>, n: nat, r: State, w: nat, id: nat, ahead: set<nat>,
          after: set<nat>)
    requires n < |steps| && LocksSound(s) && Next(s, steps[n], r) && LineMoves(s, steps[n], ahead, after)
    requires w < |r.workers| && |r.workers| == |s.workers| && Began(steps, n + 1, w)
    requires Began(steps, n, w) ==> Queued(s, w, id, ahead)
    requires id in s.events && Eligible(s.events[id], s.now) && F.Ahead(s.events, id) <= ahead
    requires !Held(s, id) && !Held(r, id)
    ensures Queued(r, w, id, after)
  {
    hide ScanOf, LocksSound, QueuedAt;
    match steps[n] {
      case Begin(v, scan) =>
        if v == w { BeginQueues(s, w, scan, r, id, ahead); } else { BeganBefore(steps, n, w); }
      case Visit(v) =>
        BeganBefore(steps, n, w);
        if v == w { VisitStaysQueued(s, w, r, id, ahead); }
      case Finish(v) =>
        BeganBefore(steps, n, w);
        if v != w { CommitStaysQueued(s, v, r, w, id, ahead, after); }
      case Insert(k, e) =>
        BeganBefore(steps, n, w);
        InsertStaysQueued(s, k, e, r, w, id, ahead, after);
      case Tick(to) =>
        BeganBefore(steps, n, w);
        TickStaysQueued(s, to, r, w, id, ahead);
      case Crash(v) =>
        BeganBefore(steps, n, w);
    }
  }

  lemma BeginQueues(s: State, w: nat, scan: seq<nat>, r: State, id: nat, ahead: set<nat>)
    requires Next(s, Begin(w, scan), r) && id in s.events && Eligible(s.events[id], s.now)
    requires F.Ahead(s.events, id) <= ahead
    ensures Queued(r, w, id, ahead)
  {
    ScanStartsQueued(s, scan, id);
    var p: nat :| QueuedAt(Scanning(s.now, scan, []), s.events, id, F.Ahead(s.events, id), p);
    assert QueuedAt(r.workers[w], r.events, id, ahead, p);
  }

  lemma StepStaysQueued(s: State, steps: seq<Step>, n: nat, r: State, id: nat, ahead: set<nat>, after: set<nat>)
    requires n < |steps| && LocksSound(s) && Next(s, steps[n], r) && LineMoves(s, steps[n], ahead, after)
    requires AllQueued(s, steps, n, id, ahead)
    requires id in s.events && Eligible(s.events[id], s.now) && F.Ahead(s.events, id) <= ahead
    requires !Held(s, id) && !Held(r, id)
    ensures AllQueued(r, steps, n + 1, id, after)
  {
    hide Queued, Began, LocksSound, LineMoves, Held;
    forall w | 0 <= w < |r.workers| && Began(steps, n + 1, w) ensures Queued(r, w, id, after) {
      WorkerStaysQueued(s, steps, n, r, w, id, ahead, after);
    }
  }

  /** A statement that began while the event waited and commits without it has filled its batch. */
  lemma PassingOverTakesTwenty(s: State, w: nat, r: State, id: nat, ahead: set<nat>)
    requires LocksSound(s) && FinishStep(s, w, r) && Queued(s, w, id, ahead)
    ensures var x := s.workers[w];
      && |x.batch| == BATCH && Distinct(x.batch) && Eligible(s.events[id], x.now)
      && forall k :: k in x.batch ==> k in ahead && k in s.events && Eligible(s.events[k], x.now)
  {
    var x := s.workers[w];
    var p: nat :| QueuedAt(x, s.events, id, ahead, p);
    assert WorkerSound(x, s.events);
    assert forall i :: 0 <= i < |x.batch| ==> (x.batch + x.todo)[i] == x.batch[i];
  }

  // The event itself.

  /** The line, with the row an early insertion adds to it. */
  function Joined(ahead: set<nat>, step: Step, event: Event): set<nat>
  {
    if InsertsEarly(step, event) then ahead + {step.id} else ahead
  }

  lemma WaitingStepKeepsRow(s: State, step: Step, r: State, id: nat)
    requires Next(s, step, r) && !Held(s, id) && id in s.events
    ensures id in r.events && r.events[id] == s.events[id] && s.now <= r.now && |r.workers| == |s.workers|
  {
    if step.Finish? { assert id !in BatchOf(s.workers[step.w]); }
  }

  lemma {:induction false} WaitingKeepsRow(states: seq<State>, steps: seq<Step>, id: nat, n: nat)
    requires Span(states, steps) && n < |states| && id in states[0].events
    requires forall i :: 0 <= i < n ==> !Held(states[i], id)
    ensures Inv(states[n]) && states[0].now <= states[n].now
    ensures id in states[n].events && states[n].events[id] == states[0].events[id]
  {
    hide Held, LocksSound, HistorySound;
    if n > 0 {
      WaitingKeepsRow(states, steps, id, n - 1);
      StepKeepsLocks(states[n - 1], steps[n - 1], states[n]);
      StepKeepsHistory(states[n - 1], steps[n - 1], states[n]);
      WaitingStepKeepsRow(states[n - 1], steps[n - 1], states[n], id);
    }
  }

  /** Only an early insertion gets ahead of a waiting event. */
  lemma NobodyGetsAhead(s: State, step: Step, r: State, id: nat)
    requires LocksSound(s) && Next(s, step, r) && !Held(s, id) && id in s.events
    ensures id in r.events
    ensures F.Ahead(r.events, id) <= Joined(F.Ahead(s.events, id), step, s.events[id])
  {
    WaitingStepKeepsRow(s, step, r, id);
    if step.Finish? { assert WorkerSound(s.workers[step.w], s.events); }
  }

  // However long the statements take.

  function Among(events: map<nat, Event>, ids: set<nat>): map<nat, Event>
  {
    map id | id in events && id in ids :: events[id]
  }

  lemma {:induction false} WorkIsMonotone(a: map<nat, Event>, b: map<nat, Event>, n: nat)
    requires forall id: nat :: F.Left(b, id) <= F.Left(a, id)
    ensures F.Work(b, n) <= F.Work(a, n)
  {
    if n > 0 { WorkIsMonotone(a, b, n - 1); }
  }

  lemma StepAddsNoWork(s: State, step: Step, r: State, ahead: set<nat>, n: nat)
    requires LocksSound(s) && Next(s, step, r) && ahead <= s.events.Keys
    ensures ahead <= r.events.Keys && F.Work(Among(r.events, ahead), n) <= F.Work(Among(s.events, ahead), n)
  {
    if step.Finish? { assert WorkerSound(s.workers[step.w], s.events); }
    WorkIsMonotone(Among(s.events, ahead), Among(r.events, ahead), n);
  }

  /** A row inserted early brings at most five attempts with it. */
  lemma EarlyInsertAddsFive(s: State, k: nat, e: Event, r: State, ahead: set<nat>, n: nat)
    requires Next(s, Insert(k, e), r) && ahead <= s.events.Keys
    ensures F.Work(Among(r.events, ahead + {k}), n) <= F.Work(Among(s.events, ahead), n) + 5
  {
    assert Among(r.events, ahead + {k}) == Among(s.events, ahead)[k := e];
    F.WorkOfUpdate(Among(s.events, ahead), k, e, n);
  }

  lemma CommitSpendsTwenty(s: State, w: nat, r: State, id: nat, ahead: set<nat>, n: nat)
    requires LocksSound(s) && FinishStep(s, w, r) && Queued(s, w, id, ahead) && forall k :: k in ahead ==> k < n
    ensures F.Work(Among(r.events, ahead), n) == F.Work(Among(s.events, ahead), n) - BATCH
  {
    PassingOverTakesTwenty(s, w, r, id, ahead);
    var x := s.workers[w];
    F.ParkingSpendsOneEach(Among(s.events, ahead), x.batch, x.now, n);
    assert Parked(Among(s.events, ahead), x.batch, x.now) == Among(r.events, ahead);
  }

  function KeysBelow(events: map<nat, Event>, n: nat): set<nat>
  {
    set id | id in events && id < n
  }

  lemma {:induction false} WorkPerEvent(events: map<nat, Event>, n: nat)
    requires forall id :: id in events ==> 0 <= events[id].attempts
    ensures F.Work(events, n) <= 5 * |KeysBelow(events, n)|
  {
    if n > 0 {
      WorkPerEvent(events, n - 1);
      assert KeysBelow(events, n) == KeysBelow(events, n - 1) + if n - 1 in events then {n - 1} else {};
    }
  }

  lemma {:induction false} BoundOf(ids: set<nat>) returns (n: nat)
    ensures forall k :: k in ids ==> k < n
    decreases |ids|
  {
    n := 0;
    if ids != {} {
      var k :| k in ids;
      var m := BoundOf(ids - {k});
      assert forall j :: j in ids ==> j == k || j in ids - {k};
      n := if m <= k then k + 1 else m;
    }
  }

  lemma NothingCommittedYet(steps: seq<Step>)
    ensures Commits(steps, 0) == 0
  {
  }

  lemma LaterIsStillEligible(e: Event, now: int, later: int)
    requires Eligible(e, now) && now <= later
    ensures Eligible(e, later)
  {
  }

  /** What has been in line before the event during the first `n` steps. */
  ghost function Line(events: map<nat, Event>, steps: seq<Step>, n: nat, id: nat): set<nat>
    requires n <= |steps| && id in events
  {
    if n == 0 then F.Ahead(events, id) else Joined(Line(events, steps, n - 1, id), steps[n - 1], events[id])
  }

  lemma {:induction false} LineGrows(events: map<nat, Event>, steps: seq<Step>, m: nat, n: nat, id: nat)
    requires m <= n <= |steps| && id in events
    ensures Line(events, steps, m, id) <= Line(events, steps, n, id)
  {
    if m < n { LineGrows(events, steps, m, n - 1, id); }
  }

  /** The part of the balance that holds after `n` steps. */
  ghost predicate Behind(s: State, steps: seq<Step>, n: nat, id: nat, ahead: set<nat>)
    requires n <= |steps|
  {
    && AllQueued(s, steps, n, id, ahead) && ahead <= s.events.Keys
    && id in s.events && F.Ahead(s.events, id) <= ahead
  }

  lemma StepPays(s: State, steps: seq<Step>, n: nat, r: State, id: nat, ahead: set<nat>, bound: nat)
    requires n < |steps| && LocksSound(s) && Next(s, steps[n], r) && Behind(s, steps, n, id, ahead)
    requires Eligible(s.events[id], s.now) && !Held(s, id) && !Held(r, id)
    requires forall k :: k in ahead ==> k < bound
    ensures Behind(r, steps, n + 1, id, Joined(ahead, steps[n], s.events[id]))
    ensures 20 * Commits(steps, n + 1) + F.Work(Among(r.events, Joined(ahead, steps[n], s.events[id])), bound) <=
      20 * Commits(steps, n) + F.Work(Among(s.events, ahead), bound)
        + if InsertsEarly(steps[n], s.events[id]) then 5 else 0
  {
    hide Held, LocksSound, Queued, Among, F.Work, F.Ahead, Began;
    var after := Joined(ahead, steps[n], s.events[id]);
    StepStaysQueued(s, steps, n, r, id, ahead, after);
    NobodyGetsAhead(s, steps[n], r, id);
    StepAddsNoWork(s, steps[n], r, ahead, bound);
    if InsertsEarly(steps[n], s.events[id]) {
      EarlyInsertAddsFive(s, steps[n].id, steps[n].event, r, ahead, bound);
    } else if steps[n].Finish? && Began(steps, n, steps[n].w) {
      CommitSpendsTwenty(s, steps[n].w, r, id, ahead, bound);
    }
  }

  /** The statements that pass the event over use up the attempts of what is ahead of it. */
  lemma {:induction false} WorkPaysForCommits(states: seq<State>, steps: seq<Step>, id: nat, n: nat, bound: nat)
    requires Queue(states, steps, id) && n < |states| && forall i :: 0 <= i <= n ==> !Held(states[i], id)
    requires forall k :: k in Line(states[0].events, steps, n, id) ==> k < bound
    ensures Behind(states[n], steps, n, id, Line(states[0].events, steps, n, id))
    ensures 20 * Commits(steps, n) + F.Work(Among(states[n].events, Line(states[0].events, steps, n, id)), bound) <=
      F.Work(Among(states[0].events, F.Ahead(states[0].events, id)), bound) + 5 * Early(steps, n, states[0].events[id])
  {
    hide Held, LocksSound, HistorySound, Queued, Among, F.Work, Next, Commits, Eligible;
    if n == 0 {
      NothingCommittedYet(steps);
    } else {
      LineGrows(states[0].events, steps, n - 1, n, id);
      WorkPaysForCommits(states, steps, id, n - 1, bound);
      WaitingKeepsRow(states, steps, id, n - 1);
      LaterIsStillEligible(states[0].events[id], states[0].now, states[n - 1].now);
      StepPays(states[n - 1], steps, n - 1, states[n], id, Line(states[0].events, steps, n - 1, id), bound);
    }
  }

  /** What is ahead has at most five attempts left each. */
  lemma FiveAttemptsEach(s: State, ahead: set<nat>, bound: nat)
    requires HistorySound(s) && ahead <= s.events.Keys && forall k :: k in ahead ==> k < bound
    ensures F.Work(Among(s.events, ahead), bound) <= 5 * |ahead|
  {
    var few := Among(s.events, ahead);
    forall k | k in few ensures 0 <= few[k].attempts {
      assert EventSound(s.events[k], s.entered[k], Times(s.log, k));
    }
    WorkPerEvent(few, bound);
    assert ahead == KeysBelow(few, bound);
  }

  /** How many events are in line before the event, early insertions counted in. */
  ghost function InLineBefore(states: seq<State>, steps: seq<Step>, id: nat): nat
    requires Queue(states, steps, id)
  {
    |F.Ahead(states[0].events, id)| + Early(steps, |steps|, states[0].events[id])
  }

  lemma PassedOverCommits(states: seq<State>, steps: seq<Step>, id: nat)
    requires Queue(states, steps, id) && forall i :: 0 <= i < |states| ==> !Held(states[i], id)
    ensures 20 * Commits(steps, |steps|) <= 5 * InLineBefore(states, steps, id)
  {
    hide Held, LocksSound, Queued, HistorySound, Commits;
    var ahead := F.Ahead(states[0].events, id);
    var bound := BoundOf(Line(states[0].events, steps, |steps|, id));
    LineGrows(states[0].events, steps, 0, |steps|, id);
    WorkPaysForCommits(states, steps, id, |steps|, bound);
    FiveAttemptsEach(states[0], ahead, bound);
  }

  /** With `k` events in line before it, an eligible event is in somebody's batch before k/4 + 1 statements begun
      since have committed: however the workers interleave, wait, crash and restart. */
  lemma TakenByCommits(states: seq<State>, steps: seq<Step>, id: nat)
    requires Queue(states, steps, id)
    requires Commits(steps, |steps|) >= InLineBefore(states, steps, id) / 4 + 1
    ensures exists i :: 0 <= i < |states| && Held(states[i], id)
  {
    hide Held, LocksSound, Commits, InLineBefore;
    if forall i :: 0 <= i < |states| ==> !Held(states[i], id) { PassedOverCommits(states, steps, id); }
  }

  // When no statement takes as long as the retry delay.

  lemma BriskCommitShrinksQueue(s: State, w: nat, r: State, id: nat)
    requires LocksSound(s) && FinishStep(s, w, r) && id in s.events && !Held(s, id)
    requires Queued(s, w, id, F.Ahead(s.events, id))
    ensures id in r.events && |F.Ahead(r.events, id)| + BATCH <= |F.Ahead(s.events, id)|
  {
    var x := s.workers[w];
    PassingOverTakesTwenty(s, w, r, id, F.Ahead(s.events, id));
    NobodyGetsAhead(s, Finish(w), r, id);
    WaitingStepKeepsRow(s, Finish(w), r, id);
    DistinctCount(x.batch);
    var taken := Range(x.batch);
    assert F.Ahead(r.events, id) <= F.Ahead(s.events, id) - taken;
    SubsetCount(F.Ahead(r.events, id), F.Ahead(s.events, id) - taken);
    assert taken <= F.Ahead(s.events, id);
  }

  /** Rows leave the line only by being parked. */
  lemma LineMovesByParking(s: State, step: Step, r: State, id: nat)
    requires LocksSound(s) && Next(s, step, r) && !Held(s, id) && id in s.events
    requires step.Finish? ==> BriskStep(s, step.w)
    ensures id in r.events && LineMoves(s, step, F.Ahead(s.events, id), F.Ahead(r.events, id))
  {
    WaitingStepKeepsRow(s, step, r, id);
    assert step.Insert? ==> F.Ahead(s.events, id) <= F.Ahead(r.events, id);
    assert !step.Finish? && !step.Insert? ==> F.Ahead(s.events, id) == F.Ahead(r.events, id);
  }

  lemma {:induction false} QueuePaysForCommits(states: seq<State>, steps: seq<Step>, id: nat, n: nat)
    requires Queue(states, steps, id) && n < |states| && forall i :: 0 <= i <= n ==> !Held(states[i], id)
    requires Brisk(states, steps)
    ensures id in states[n].events && AllQueued(states[n], steps, n, id, F.Ahead(states[n].events, id))
    ensures 20 * Commits(steps, n) + |F.Ahead(states[n].events, id)| <=
      |F.Ahead(states[0].events, id)| + Early(steps, n, states[0].events[id])
  {
    hide Held, LocksSound, HistorySound, Queued, BriskStep, LineMoves;
    WaitingKeepsRow(states, steps, id, n);
    if n > 0 {
      var s, step, r := states[n - 1], steps[n - 1], states[n];
      QueuePaysForCommits(states, steps, id, n - 1);
      WaitingKeepsRow(states, steps, id, n - 1);
      assert Next(s, step, r);
      LineMovesByParking(s, step, r, id);
      StepStaysQueued(s, steps, n - 1, r, id, F.Ahead(s.events, id), F.Ahead(r.events, id));
      NobodyGetsAhead(s, step, r, id);
      SubsetCount(F.Ahead(r.events, id), Joined(F.Ahead(s.events, id), step, s.events[id]));
      if step.Finish? && Began(steps, n - 1, step.w) { BriskCommitShrinksQueue(s, step.w, r, id); }
    }
  }

  /** Then k/20 + 1 such commits are enough, as many as one poller alone would need. */
  lemma TakenByBriskCommits(states: seq<State>, steps: seq<Step>, id: nat)
    requires Queue(states, steps, id) && Brisk(states, steps)
    requires Commits(steps, |steps|) >= InLineBefore(states, steps, id) / 20 + 1
    ensures exists i :: 0 <= i < |states| && Held(states[i], id)
  {
    hide Held, LocksSound, Queued, Commits;
    if forall i :: 0 <= i < |states| ==> !Held(states[i], id) { QueuePaysForCommits(states, steps, id, |steps|); }
  }
}
