/** Several workers on one outbox: snapshots, row locks taken one by one with SKIP LOCKED, the
    READ COMMITTED re-check after each lock, commits and crashes in any order. */
module OutboxWorkers {
  import opened Wrappers
  import opened Orders
  import opened OutboxTable

  /** A statement in flight holds the locks of its batch; `now` is its transaction's start. */
  datatype Worker = Idle | Scanning(now: int, todo: seq<nat>, batch: seq<nat>)

  datatype Commit = Commit(now: int, batch: seq<nat>)

  /** `entered` remembers the attempts an event came in with, `log` the committed statements. */
  datatype State = State(now: int, events: map<nat, Event>, workers: seq<Worker>, entered: map<nat, int>,
    log: seq<Commit>)

  datatype Step =
    | Tick(to: int)
    | Insert(id: nat, event: Event)
    | Begin(w: nat, scan: seq<nat>)
    | Visit(w: nat)
    | Finish(w: nat)
    | Crash(w: nat)

  function BatchOf(w: Worker): seq<nat> { if w.Scanning? then w.batch else [] }

  ghost predicate LockedByOther(s: State, w: nat, id: nat)
  {
    exists v :: 0 <= v < |s.workers| && v != w && id in BatchOf(s.workers[v])
  }

  ghost predicate VisitStep(s: State, w: nat, r: State)
  {
    && w < |s.workers| && s.workers[w].Scanning? && s.workers[w].todo != [] && |s.workers[w].batch| < BATCH
    && var x := s.workers[w];
       var id := x.todo[0];
       var takes := !LockedByOther(s, w, id) && id in s.events && Eligible(s.events[id], x.now);
       r == s.(workers := s.workers[w := Scanning(x.now, x.todo[1..], if takes then x.batch + [id] else x.batch)])
  }

  ghost predicate FinishStep(s: State, w: nat, r: State)
  {
    && w < |s.workers| && s.workers[w].Scanning? && (s.workers[w].todo == [] || |s.workers[w].batch| == BATCH)
    && var x := s.workers[w];
       r == s.(events := Parked(s.events, x.batch, x.now), workers := s.workers[w := Idle], log := s.log
         + [Commit(x.now, x.batch)])
  }

  ghost predicate Next(s: State, step: Step, r: State)
  {
    match step
    case Tick(to) => s.now <= to && r == s.(now := to)
    case Insert(id, e) =>
      id !in s.events && Pending(e) && 0 <= e.attempts
      && r == s.(events := s.events[id := e], entered := s.entered[id := e.attempts])
    case Begin(w, scan) =>
      w < |s.workers| && s.workers[w].Idle? && ScanOf(scan, s.events, s.now)
      && r == s.(workers := s.workers[w := Scanning(s.now, scan, [])])
    case Visit(w) => VisitStep(s, w, r)
    case Finish(w) => FinishStep(s, w, r)
    case Crash(w) => w < |s.workers| && r == s.(workers := s.workers[w := Idle])
  }

  ghost predicate Init(s: State)
  {
    s.events == map[] && s.entered == map[] && s.log == [] && forall w :: 0 <= w < |s.workers| ==> s.workers[w].Idle?
  }

  /** In how many committed batches an event was. */
  function Times(log: seq<Commit>, id: nat): nat
  {
    if log == [] then 0 else Times(log[..|log| - 1], id) + (if id in log[|log| - 1].batch then 1 else 0)
  }

  lemma TimesAppend(log: seq<Commit>, c: Commit, id: nat)
    ensures Times(log + [c], id) == Times(log, id) + (if id in c.batch then 1 else 0)
  {
    assert (log + [c])[..|log|] == log;
  }

  // Locks.

  ghost predicate WorkerSound(w: Worker, events: map<nat, Event>)
  {
    w.Scanning? ==>
      && |w.batch| <= BATCH && Distinct(w.batch + w.todo)
      && forall id :: id in w.batch ==> id in events && Eligible(events[id], w.now)
  }

  ghost predicate Disjoint(a: seq<nat>, b: seq<nat>)
  {
    forall id :: id in a ==> id !in b
  }

  /** In-flight batches are at most twenty long, share no event, and every locked event still satisfies the
      WHERE clause. */
  ghost predicate LocksSound(s: State)
  {
    && (forall w :: 0 <= w < |s.workers| ==> WorkerSound(s.workers[w], s.events))
    && (forall v, w :: 0 <= v < w < |s.workers| ==> Disjoint(BatchOf(s.workers[v]), BatchOf(s.workers[w])))
  }

  // History.

  ghost predicate EventSound(e: Event, entered: int, times: nat)
  {
    && e.processedAt.None? && 0 <= entered
    && e.attempts == entered + times
    && (e.deadLetteredAt.Some? <==> times >= 1 && e.attempts >= MAX_ATTEMPTS)
    && (times <= 1 || e.attempts <= MAX_ATTEMPTS)
    && (times >= 1 ==> e.lastErrorCode == Some(UNHANDLED))
    && (e.deadLetteredAt.Some? ==> e.availableAt == e.deadLetteredAt.value + RETRY_DELAY)
  }

  ghost predicate Spaced(log: seq<Commit>, id: nat, e: Event)
  {
    && (forall i :: 0 <= i < |log| && id in log[i].batch ==> log[i].now + RETRY_DELAY <= e.availableAt)
    && (forall i, j :: 0 <= i < j < |log| && id in log[i].batch && id in log[j].batch ==>
         log[i].now + RETRY_DELAY <= log[j].now)
  }

  ghost predicate HistorySound(s: State)
  {
    && s.entered.Keys == s.events.Keys
    && (forall id :: id in s.events ==> EventSound(s.events[id], s.entered[id], Times(s.log, id)))
    && (forall id :: id in s.events ==> Spaced(s.log, id, s.events[id]))
    && (forall i, id :: 0 <= i < |s.log| && id in s.log[i].batch ==> id in s.events)
  }

  ghost predicate Inv(s: State)
  {
    LocksSound(s) && HistorySound(s)
  }

  lemma Apart(s: State, v: nat, w: nat)
    requires LocksSound(s) && v < |s.workers| && w < |s.workers| && v != w
    ensures Disjoint(BatchOf(s.workers[v]), BatchOf(s.workers[w]))
      && Disjoint(BatchOf(s.workers[w]), BatchOf(s.workers[v]))
  {
    if v < w {
      assert Disjoint(BatchOf(s.workers[v]), BatchOf(s.workers[w]));
    } else {
      assert Disjoint(BatchOf(s.workers[w]), BatchOf(s.workers[v]));
    }
  }

  lemma VisitKeepsLocks(s: State, w: nat, r: State)
    requires LocksSound(s) && VisitStep(s, w, r)
    ensures LocksSound(r)
  {
    var x, y := s.workers[w], r.workers[w];
    var id := x.todo[0];
    assert x.todo == [id] + x.todo[1..];
    assert x.batch + x.todo == (x.batch + [id]) + x.todo[1..];
    DropMiddle(x.batch, id, x.todo[1..]);
    assert WorkerSound(y, r.events);
    forall v | 0 <= v < |s.workers| && v != w
      ensures Disjoint(BatchOf(s.workers[v]), BatchOf(y)) && Disjoint(BatchOf(y), BatchOf(s.workers[v]))
    {
      Apart(s, v, w);
    }
  }

  lemma DropMiddle(a: seq<nat>, x: nat, b: seq<nat>)
    requires Distinct(a + [x] + b)
    ensures Distinct(a + b)
  {
    var s, t := a + [x] + b, a + b;
    forall i, j | 0 <= i < j < |t| ensures t[i] != t[j] {
      assert t[i] == s[if i < |a| then i else i + 1] && t[j] == s[if j < |a| then j else j + 1];
    }
  }

  /** A commit touches only rows nobody else has locked. */
  lemma FinishKeepsLocks(s: State, w: nat, r: State)
    requires LocksSound(s) && FinishStep(s, w, r)
    ensures LocksSound(r)
  {
    forall v | 0 <= v < |r.workers| ensures WorkerSound(r.workers[v], r.events) {
      if v != w {
        Apart(s, v, w);
        assert WorkerSound(s.workers[v], s.events);
      }
    }
  }

  lemma StepKeepsLocks(s: State, step: Step, r: State)
    requires LocksSound(s) && Next(s, step, r)
    ensures LocksSound(r)
  {
    match step {
      case Visit(w) => VisitKeepsLocks(s, w, r);
      case Finish(w) => FinishKeepsLocks(s, w, r);
      case Begin(w, scan) => assert [] + scan == scan;
      case Insert(id, e) =>
        forall v | 0 <= v < |r.workers| ensures WorkerSound(r.workers[v], r.events) {
          assert WorkerSound(s.workers[v], s.events);
        }
      case _ =>
    }
  }

  lemma CommitKeepsEvent(e: Event, entered: int, log: seq<Commit>, c: Commit, id: nat)
    requires EventSound(e, entered, Times(log, id)) && Spaced(log, id, e) && (id in c.batch ==> Eligible(e, c.now))
    ensures var after := if id in c.batch then Park(e, c.now) else e;
      EventSound(after, entered, Times(log + [c], id)) && Spaced(log + [c], id, after)
  {
    hide Times;
    TimesAppend(log, c, id);
  }

  lemma InsertKeepsHistory(s: State, id: nat, e: Event, r: State)
    requires HistorySound(s) && Next(s, Insert(id, e), r)
    ensures HistorySound(r)
  {
    hide LocksSound, Spaced, Times;
    NeverSeen(s.log, id);
    UnseenIsSpaced(s.log, id, e);
    assert EventSound(r.events[id], r.entered[id], Times(r.log, id));
  }

  lemma UnseenIsSpaced(log: seq<Commit>, id: nat, e: Event)
    requires forall i :: 0 <= i < |log| ==> id !in log[i].batch
    ensures Spaced(log, id, e)
  {
  }

  lemma {:induction false} NeverSeen(log: seq<Commit>, id: nat)
    requires forall i :: 0 <= i < |log| ==> id !in log[i].batch
    ensures Times(log, id) == 0
  {
    if log != [] { NeverSeen(log[..|log| - 1], id); }
  }

  lemma FinishKeepsHistory(s: State, w: nat, r: State)
    requires Inv(s) && FinishStep(s, w, r)
    ensures HistorySound(r)
  {
    hide EventSound, Spaced, Eligible;
    var x := s.workers[w];
    assert WorkerSound(x, s.events);
    forall id | id in r.events
      ensures EventSound(r.events[id], r.entered[id], Times(r.log, id)) && Spaced(r.log, id, r.events[id])
    {
      CommitKeepsEvent(s.events[id], s.entered[id], s.log, Commit(x.now, x.batch), id);
    }
  }

  lemma StepKeepsHistory(s: State, step: Step, r: State)
    requires Inv(s) && Next(s, step, r)
    ensures HistorySound(r)
  {
    match step {
      case Insert(id, e) => InsertKeepsHistory(s, id, e, r);
      case Finish(w) =>
        FinishKeepsHistory(s, w, r);
      case _ =>
    }
  }

  ghost predicate Run(states: seq<State>, steps: seq<Step>)
  {
    |states| == |steps| + 1 && Init(states[0]) && forall i :: 0 <= i < |steps| ==>
      Next(states[i], steps[i], states[i + 1])
  }

  lemma {:induction false} RunKeepsInv(states: seq<State>, steps: seq<Step>, i: nat)
    requires Run(states, steps) && i < |states|
    ensures Inv(states[i])
  {
    if i > 0 {
      RunKeepsInv(states, steps, i - 1);
      StepKeepsLocks(states[i - 1], steps[i - 1], states[i]);
      StepKeepsHistory(states[i - 1], steps[i - 1], states[i]);
    }
  }

  ghost predicate CanStep(s: State, step: Step)
  {
    exists r :: Next(s, step, r)
  }

  /** No worker is ever stuck: an idle one can begin with whatever the query visits, one that has rows to visit and
      room in its batch visits the next, and otherwise it commits. Time can pass and events can arrive. */
  lemma WorkersGoOn(s: State, w: nat)
    requires w < |s.workers|
    ensures s.workers[w].Idle? ==>
      && (exists scan :: CanStep(s, Begin(w, scan)))
      && (forall scan :: ScanOf(scan, s.events, s.now) ==> CanStep(s, Begin(w, scan)))
    ensures s.workers[w].Scanning? ==>
      if s.workers[w].todo != [] && |s.workers[w].batch| < 20 then CanStep(s, Visit(w))
      else |s.workers[w].batch| <= 20 ==> CanStep(s, Finish(w))
    ensures forall to :: to >= s.now ==> CanStep(s, Tick(to))
    ensures CanStep(s, Crash(w))
    ensures forall id: nat, e: Event :: id !in s.events && Pending(e) && e.attempts >= 0 ==> CanStep(s, Insert(id, e))
  {
    SomeScan(s.events, s.now);
    forall scan | s.workers[w].Idle? && ScanOf(scan, s.events, s.now) ensures CanStep(s, Begin(w, scan)) {
      assert Next(s, Begin(w, scan), s.(workers := s.workers[w := Scanning(s.now, scan, [])]));
    }
    forall to | to >= s.now ensures CanStep(s, Tick(to)) { assert Next(s, Tick(to), s.(now := to)); }
    forall id: nat, e: Event | id !in s.events && Pending(e) && e.attempts >= 0 ensures CanStep(s, Insert(id, e)) {
      assert Next(s, Insert(id, e), s.(events := s.events[id := e], entered := s.entered[id := e.attempts]));
    }
    assert Next(s, Crash(w), s.(workers := s.workers[w := Idle]));
    if s.workers[w].Scanning? { ScanningGoesOn(s, w); }
  }

  lemma ScanningGoesOn(s: State, w: nat)
    requires w < |s.workers| && s.workers[w].Scanning?
    ensures if s.workers[w].todo != [] && |s.workers[w].batch| < 20 then CanStep(s, Visit(w))
      else |s.workers[w].batch| <= 20 ==> CanStep(s, Finish(w))
  {
    var x := s.workers[w];
    if x.todo != [] && |x.batch| < 20 {
      var id := x.todo[0];
      var takes := !LockedByOther(s, w, id) && id in s.events && Eligible(s.events[id], x.now);
      var y := Scanning(x.now, x.todo[1..], if takes then x.batch + [id] else x.batch);
      assert Next(s, Visit(w), s.(workers := s.workers[w := y]));
    } else if |x.batch| <= 20 {
      var r := s.(events := Parked(s.events, x.batch, x.now), workers := s.workers[w := Idle],
                  log := s.log + [Commit(x.now, x.batch)]);
      assert Next(s, Finish(w), r);
    }
  }

  /** In every reachable state: two statements in flight never hold the same event. */
  lemma BatchesAreDisjoint(states: seq<State>, steps: seq<Step>, i: nat, v: nat, w: nat, id: nat)
    requires Run(states, steps) && i < |states| && v < |states[i].workers| && w < |states[i].workers| && v != w
    ensures !(id in BatchOf(states[i].workers[v]) && id in BatchOf(states[i].workers[w]))
    ensures |BatchOf(states[i].workers[v])| <= 20
  {
    RunKeepsInv(states, steps, i);
    var s := states[i];
    assert WorkerSound(s.workers[v], s.events);
    Apart(s, v, w);
  }

  /** `attempts` counts committed batches, and nothing is ever marked processed. An event is dead-lettered
      exactly when it has been in a batch and counts five; it is in no batch after that. */
  lemma AttemptsAreBatches(states: seq<State>, steps: seq<Step>, i: nat, id: nat)
    requires Run(states, steps) && i < |states| && id in states[i].events
    ensures var s, times := states[i], Times(states[i].log, id);
      && id in s.entered && s.events[id].attempts == s.entered[id] + times
      && (s.events[id].deadLetteredAt.Some? <==> times >= 1 && s.entered[id] + times >= 5)
      && (times <= 1 || s.entered[id] + times <= 5)
      && s.events[id].processedAt.None?
      && (times >= 1 ==> s.events[id].lastErrorCode == Some("UNHANDLED_EVENT_TYPE"))
  {
    RunKeepsInv(states, steps, i);
    assert EventSound(states[i].events[id], states[i].entered[id], Times(states[i].log, id));
  }

  /** Two parkings of one event start at least sixty seconds apart. */
  lemma ParkingsAreSpaced(states: seq<State>, steps: seq<Step>, n: nat, id: nat, i: nat, j: nat)
    requires Run(states, steps) && n < |states| && i < j < |states[n].log|
    requires id in states[n].log[i].batch && id in states[n].log[j].batch
    ensures states[n].log[i].now + 60 <= states[n].log[j].now
  {
    RunKeepsInv(states, steps, n);
    assert id in states[n].events;
    assert Spaced(states[n].log, id, states[n].events[id]);
  }
}
