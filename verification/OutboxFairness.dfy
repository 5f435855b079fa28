/** One poller: nobody waits long, and the work left falls by exactly what each poll takes. */
module OutboxFairness {
  import opened OutboxTable
  import opened Orders
  import opened Wrappers

  datatype State = State(now: int, events: map<nat, Event>)

  datatype Step = Tick(to: int) | Arrive(id: nat) | Poll(scan: seq<nat>)

  /** A row inserted with the column defaults. */
  function NewEvent(now: int): Event { Event(now, now, None, 0, None, None) }

  ghost predicate Next(s: State, step: Step, r: State)
  {
    match step
    case Tick(to) => s.now <= to && r == s.(now := to)
    case Arrive(id) => id !in s.events && r == s.(events := s.events[id := NewEvent(s.now)])
    case Poll(scan) => ScanOf(scan, s.events, s.now) && r == s.(events := Parked(s.events, FirstOf(scan), s.now))
  }

  ghost predicate Run(states: seq<State>, steps: seq<Step>)
  {
    |states| == |steps| + 1 && forall i :: 0 <= i < |steps| ==> Next(states[i], steps[i], states[i + 1])
  }

  /** An inserted event is due at once, has had no attempt and carries no error. */
  lemma ArrivalMeans(s: State, id: nat, r: State)
    requires Next(s, Arrive(id), r)
    ensures id in r.events && r.now == s.now
    ensures var e := r.events[id];
      && e.processedAt == None && e.deadLetteredAt == None && e.availableAt == s.now && e.createdAt == s.now
      && e.attempts == 0 && e.lastErrorCode == None
    ensures forall x :: x in s.events ==> x in r.events && r.events[x] == s.events[x]
  {
  }

  ghost predicate CanStep(s: State, step: Step) { exists r :: Next(s, step, r) }

  /** A poll can always be made, whatever order the query visits equal rows in; time can pass and events arrive. */
  lemma PollerGoesOn(s: State)
    ensures exists scan :: CanStep(s, Poll(scan))
    ensures forall scan :: ScanOf(scan, s.events, s.now) ==> CanStep(s, Poll(scan))
    ensures forall id: nat :: id !in s.events ==> CanStep(s, Arrive(id))
    ensures forall to :: to >= s.now ==> CanStep(s, Tick(to))
  {
    SomeScan(s.events, s.now);
    forall scan | ScanOf(scan, s.events, s.now) ensures CanStep(s, Poll(scan)) {
      assert Next(s, Poll(scan), s.(events := Parked(s.events, FirstOf(scan), s.now)));
    }
    forall id: nat | id !in s.events ensures CanStep(s, Arrive(id)) {
      assert Next(s, Arrive(id), s.(events := s.events[id := NewEvent(s.now)]));
    }
    forall to | to >= s.now ensures CanStep(s, Tick(to)) { assert Next(s, Tick(to), s.(now := to)); }
  }

  function Polls(steps: seq<Step>): nat
  {
    if steps == [] then 0 else (if steps[0].Poll? then 1 else 0) + Polls(steps[1..])
  }

  /** The events a poll may take before `id`, ties included. */
  ghost function Ahead(events: map<nat, Event>, id: nat): set<nat>
    requires id in events
  {
    set x | x in events && x != id && Pending(events[x]) && KeyLeq(events[x], events[id])
  }

  /** How many rows that sort before or level with the event are inserted while it waits: none of those inserted
      later than the instant the event became available, or at that instant if the event was created earlier. */
  function Early(states: seq<State>, steps: seq<Step>, event: Event): nat
    requires |states| == |steps| + 1
  {
    if steps == [] then 0
    else (if ArrivesEarly(states[0], steps[0], event) then 1 else 0) + Early(states[1..], steps[1..], event)
  }

  predicate ArrivesEarly(s: State, step: Step, event: Event)
  {
    step.Arrive? && KeyLeq(NewEvent(s.now), event)
  }

  ghost predicate TakenAt(steps: seq<Step>, i: nat, id: nat)
  {
    i < |steps| && steps[i].Poll? && id in FirstOf(steps[i].scan)
  }

  ghost predicate TakenWithin(steps: seq<Step>, id: nat, polls: nat)
  {
    exists i: nat :: TakenAt(steps, i, id) && Polls(steps[..i]) < polls
  }

  /** A poll that leaves an eligible event behind takes twenty that were ahead of it. */
  lemma PassedOverMeansTwentyAhead(s: State, scan: seq<nat>, id: nat)
    requires ScanOf(scan, s.events, s.now) && id in s.events && Eligible(s.events[id], s.now)
    requires id !in FirstOf(scan)
    ensures |FirstOf(scan)| == BATCH && forall x :: x in FirstOf(scan) ==> x in Ahead(s.events, id)
  {
    var k :| 0 <= k < |scan| && scan[k] == id;
    forall x | x in FirstOf(scan) ensures x in Ahead(s.events, id) {
      var i :| 0 <= i < |FirstOf(scan)| && FirstOf(scan)[i] == x;
      assert scan[i] == x && x in scan && i < k;
    }
  }

  /** Parked events go behind everything that was eligible, so the queue ahead shrinks by a whole batch. */
  lemma PollShrinksQueue(s: State, scan: seq<nat>, r: State, id: nat)
    requires Next(s, Poll(scan), r) && id in s.events && Eligible(s.events[id], s.now)
    requires id !in FirstOf(scan)
    ensures id in r.events && r.events[id] == s.events[id]
    ensures |Ahead(s.events, id)| == |Ahead(r.events, id)| + BATCH
  {
    PassedOverMeansTwentyAhead(s, scan, id);
    var batch := FirstOf(scan);
    var taken := Range(batch);
    assert Distinct(batch) by { assert Distinct(scan); }
    DistinctCount(batch);
    assert Ahead(r.events, id) == Ahead(s.events, id) - taken;
    assert taken <= Ahead(s.events, id);
  }

  lemma TickOrArrivalKeepsQueue(s: State, step: Step, r: State, id: nat)
    requires Next(s, step, r) && !step.Poll? && id in s.events && Eligible(s.events[id], s.now)
    ensures id in r.events && r.events[id] == s.events[id] && Eligible(r.events[id], r.now)
    ensures |Ahead(r.events, id)| == |Ahead(s.events, id)| + if ArrivesEarly(s, step, s.events[id]) then 1 else 0
  {
    if ArrivesEarly(s, step, s.events[id]) {
      assert r.events[step.id] == NewEvent(s.now);
      assert Ahead(r.events, id) == Ahead(s.events, id) + {step.id};
    } else {
      assert step.Arrive? ==> r.events[step.id] == NewEvent(s.now) && step.id !in Ahead(r.events, id);
      assert Ahead(r.events, id) == Ahead(s.events, id);
    }
  }

  /** Bounded waiting: with `k` events ahead, those inserted early counted in, an eligible event is in one of the
      next k/20 + 1 polls. */
  lemma {:induction false} TakenInTime(states: seq<State>, steps: seq<Step>, id: nat)
    requires Run(states, steps) && id in states[0].events && Eligible(states[0].events[id], states[0].now)
    requires Polls(steps) >= (|Ahead(states[0].events, id)| + Early(states, steps, states[0].events[id])) / 20 + 1
    ensures TakenWithin(steps, id,
      (|Ahead(states[0].events, id)| + Early(states, steps, states[0].events[id])) / 20 + 1)
    decreases |steps|
  {
    var s, r, step := states[0], states[1], steps[0];
    assert Next(s, step, r);
    if TakenAt(steps, 0, id) {
      assert Polls(steps[..0]) == 0;
    } else {
      if step.Poll? { PollShrinksQueue(s, step.scan, r, id); } else { TickOrArrivalKeepsQueue(s, step, r, id); }
      assert Run(states[1..], steps[1..]) by { ShiftRun(states, steps); }
      TakenInTime(states[1..], steps[1..], id);
      ShiftTaken(steps, id, (|Ahead(r.events, id)| + Early(states[1..], steps[1..], r.events[id])) / 20 + 1);
    }
  }

  lemma ShiftRun(states: seq<State>, steps: seq<Step>)
    requires Run(states, steps) && steps != []
    ensures Run(states[1..], steps[1..])
  {
    forall i | 0 <= i < |steps| - 1 ensures Next(states[1..][i], steps[1..][i], states[1..][i + 1]) {
      assert Next(states[i + 1], steps[i + 1], states[i + 2]);
    }
  }

  lemma ShiftTaken(steps: seq<Step>, id: nat, polls: nat)
    requires steps != [] && TakenWithin(steps[1..], id, polls)
    ensures TakenWithin(steps, id, polls + if steps[0].Poll? then 1 else 0)
  {
    var i: nat :| TakenAt(steps[1..], i, id) && Polls(steps[1..][..i]) < polls;
    assert TakenAt(steps, i + 1, id);
    assert steps[..i + 1][1..] == steps[1..][..i];
  }

  // Progress.

  /** How many more times an event may be parked. */
  function Left(events: map<nat, Event>, id: nat): nat
  {
    if id !in events || !Pending(events[id]) then 0
    else if events[id].attempts < MAX_ATTEMPTS then MAX_ATTEMPTS - events[id].attempts
    else 1
  }

  /** The sum over all events with an id below `n`. */
  function Work(events: map<nat, Event>, n: nat): nat
  {
    if n == 0 then 0 else Work(events, n - 1) + Left(events, n - 1)
  }

  lemma {:induction false} WorkOfUpdate(events: map<nat, Event>, id: nat, e: Event, n: nat)
    ensures var after := events[id := e];
      Work(after, n) == Work(events, n) + if id < n then Left(after, id) - Left(events, id) else 0
  {
    if n > 0 { WorkOfUpdate(events, id, e, n - 1); }
  }

  lemma {:induction false} ParkingSpendsOneEach(events: map<nat, Event>, batch: seq<nat>, now: int, n: nat)
    requires Distinct(batch)
    requires forall id :: id in batch ==> id < n && id in events && Pending(events[id])
    ensures Work(Parked(events, batch, now), n) == Work(events, n) - |batch|
  {
    if batch == [] {
      assert Parked(events, batch, now) == events;
    } else {
      var front, id := batch[..|batch| - 1], batch[|batch| - 1];
      assert batch == front + [id] && id in batch && id !in front && Distinct(front);
      assert forall x :: x in front ==> x in batch;
      ParkingSpendsOneEach(events, front, now, n);
      var mid := Parked(events, front, now);
      assert mid[id] == events[id];
      assert Parked(events, batch, now) == mid[id := Park(events[id], now)];
      WorkOfUpdate(mid, id, Park(events[id], now), n);
    }
  }

  /** Each poll lowers the work left by exactly the number of rows it returns. */
  lemma PollSpendsItsBatch(s: State, scan: seq<nat>, r: State, n: nat)
    requires Next(s, Poll(scan), r) && forall id :: id in s.events ==> id < n
    ensures Work(r.events, n) == Work(s.events, n) - |FirstOf(scan)|
  {
    var batch := FirstOf(scan);
    assert forall id :: id in batch ==> id in scan;
    assert Distinct(batch) by { assert Distinct(scan); }
    ParkingSpendsOneEach(s.events, batch, s.now, n);
  }

  function Parkings(steps: seq<Step>): nat
  {
    if steps == [] then 0
    else
      var last := steps[|steps| - 1];
      Parkings(steps[..|steps| - 1]) + (if last.Poll? then |FirstOf(last.scan)| else 0)
  }

  function Arrivals(steps: seq<Step>): nat
  {
    if steps == [] then 0 else Arrivals(steps[..|steps| - 1]) + (if steps[|steps| - 1].Arrive? then 1 else 0)
  }

  lemma {:induction false} RunBalance(states: seq<State>, steps: seq<Step>, n: nat)
    requires Run(states, steps)
    requires forall i, id :: 0 <= i < |states| && id in states[i].events ==> id < n
    ensures Work(states[|steps|].events, n) + Parkings(steps) == Work(states[0].events, n) + 5 * Arrivals(steps)
    decreases |steps|
  {
    if steps != [] {
      var m := |steps| - 1;
      var s, step, r := states[m], steps[m], states[m + 1];
      assert Run(states[..m + 1], steps[..m]) by {
        forall i | 0 <= i < m ensures Next(states[..m + 1][i], steps[..m][i], states[..m + 1][i + 1]) {
          assert Next(states[i], steps[i], states[i + 1]);
        }
      }
      RunBalance(states[..m + 1], steps[..m], n);
      assert Next(s, step, r);
      match step {
        case Tick(_) =>
        case Arrive(id) => assert id in states[m + 1].events; WorkOfUpdate(s.events, id, NewEvent(s.now), n);
        case Poll(scan) => PollSpendsItsBatch(s, scan, r, n);
      }
    }
  }

  /** From an empty table, no run parks more than five times as often as events arrive. */
  lemma PollingIsFinite(states: seq<State>, steps: seq<Step>, n: nat)
    requires Run(states, steps) && states[0].events == map[]
    requires forall i, id :: 0 <= i < |states| && id in states[i].events ==> id < n
    ensures Parkings(steps) <= 5 * Arrivals(steps)
  {
    RunBalance(states, steps, n);
    EmptyHasNoWork(n);
  }

  lemma {:induction false} EmptyHasNoWork(n: nat)
    ensures Work(map[], n) == 0
  {
    if n > 0 { EmptyHasNoWork(n - 1); }
  }
}
