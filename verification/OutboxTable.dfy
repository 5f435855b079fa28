/** The rows of `outbox_events` and the one UPDATE the worker runs on them. */
module OutboxTable {
  import opened Wrappers
  import opened Orders

  const BATCH: nat := 20
  const RETRY_DELAY: int := 60
  const MAX_ATTEMPTS: int := 5
  const UNHANDLED: string := "UNHANDLED_EVENT_TYPE"

  /** Times are seconds. */
  datatype Event = Event(createdAt: int, availableAt: int, processedAt: Option<int>, attempts: int,
                         lastErrorCode: Option<string>, deadLetteredAt: Option<int>)

  predicate Pending(e: Event) { e.processedAt.None? && e.deadLetteredAt.None? }

  /** The WHERE clause. */
  predicate Eligible(e: Event, now: int) { Pending(e) && e.availableAt <= now }

  /** The SET clause. */
  function Park(e: Event, now: int): Event
  {
    e.(attempts := e.attempts + 1,
       availableAt := now + RETRY_DELAY,
       lastErrorCode := Some(UNHANDLED),
       deadLetteredAt := if e.attempts + 1 >= MAX_ATTEMPTS then Some(now) else None)
  }

  /** The columns of an event after one more attempt with nobody to handle it: one minute later the next, and after
      the fifth none. */
  function AfterFailure(e: Event, now: int): Event
  {
    Event(e.createdAt, now + 60, e.processedAt, e.attempts + 1, Some("UNHANDLED_EVENT_TYPE"),
          if e.attempts >= 4 then Some(now) else None)
  }

  lemma ParkIsFailure(now: int)
    ensures forall e :: Park(e, now) == AfterFailure(e, now)
  {
  }

  /** ORDER BY available_at, created_at. Equal rows may come in any order. */
  predicate KeyLeq(a: Event, b: Event)
  {
    a.availableAt < b.availableAt || (a.availableAt == b.availableAt && a.createdAt <= b.createdAt)
  }

  /** `scan` is an order in which the query may visit the rows of a snapshot. */
  ghost predicate ScanOf(scan: seq<nat>, events: map<nat, Event>, now: int)
  {
    && Distinct(scan)
    && (forall id :: id in scan <==> id in events && Eligible(events[id], now))
    && (forall i, j :: 0 <= i < j < |scan| ==> KeyLeq(events[scan[i]], events[scan[j]]))
  }

  function Parked(events: map<nat, Event>, batch: seq<nat>, now: int): map<nat, Event>
  {
    map id | id in events :: if id in batch then Park(events[id], now) else events[id]
  }

  function FirstOf(scan: seq<nat>): seq<nat>
  {
    if |scan| <= BATCH then scan else scan[..BATCH]
  }

  /** What the query visits, and in which order, said of the columns: each waiting event that is due once, the one
      due first before the others and, of those due at the same instant, the one created first. */
  lemma ScanExactly(scan: seq<nat>, events: map<nat, Event>, now: int)
    ensures ScanOf(scan, events, now) <==>
      && (forall i, j :: 0 <= i < j < |scan| ==> scan[i] != scan[j])
      && (forall id :: id in scan <==>
           && id in events && events[id].processedAt == None && events[id].deadLetteredAt == None
           && events[id].availableAt <= now)
      && (forall i, j :: 0 <= i < j < |scan| ==> DueFirst(events, scan[i], scan[j]))
  {
    forall id | id in events
      ensures Eligible(events[id], now) <==>
        events[id].processedAt == None && events[id].deadLetteredAt == None && events[id].availableAt <= now
    {
    }
    hide Eligible;
    assert forall i :: 0 <= i < |scan| ==> scan[i] in scan;
  }

  predicate DueFirst(events: map<nat, Event>, a: nat, b: nat)
  {
    && a in events && b in events
    && events[a].availableAt <= events[b].availableAt
    && (events[a].availableAt == events[b].availableAt ==> events[a].createdAt <= events[b].createdAt)
  }

  datatype Due = Due(availableAt: int, createdAt: int, id: nat)

  predicate DueLeq(a: Due, b: Due)
  {
    a.availableAt < b.availableAt || (a.availableAt == b.availableAt
      && (a.createdAt < b.createdAt || (a.createdAt == b.createdAt && a.id <= b.id)))
  }

  lemma DueLeqIsTotal()
    ensures TotalOrder(DueLeq)
  {
  }

  function DueRows(events: map<nat, Event>, now: int): map<nat, Due>
  {
    map id | id in events && Eligible(events[id], now) :: Due(events[id].availableAt, events[id].createdAt, id)
  }

  lemma ListingIsScan(scan: seq<nat>, events: map<nat, Event>, now: int)
    requires Lists(scan, DueRows(events, now), DueLeq)
    ensures ScanOf(scan, events, now)
  {
    var due := DueRows(events, now);
    forall i, j | 0 <= i < j < |scan|
      ensures scan[i] in events && scan[j] in events && KeyLeq(events[scan[i]], events[scan[j]])
    {
      assert scan[i] in scan && scan[j] in scan;
      assert DueLeq(due[scan[i]], due[scan[j]]);
    }
    assert forall id :: id in scan <==> id in events && Eligible(events[id], now);
  }

  /** There always is something for the query to visit, or nothing at all. */
  lemma SomeScan(events: map<nat, Event>, now: int)
    ensures exists scan :: ScanOf(scan, events, now)
  {
    var due := DueRows(events, now);
    DueLeqIsTotal();
    assert Injective(due);
    EnumerateLists(due, DueLeq);
    ListingIsScan(Enumerate(due, DueLeq), events, now);
  }

  class Outbox {
    var events: map<nat, Event>

    constructor (events: map<nat, Event>)
      ensures this.events == events
    {
      this.events := events;
    }

    /** `parkUnhandledBatch` with nobody else at the table: take the first rows of the scan, update each. */
    method ParkUnhandledBatch(now: int, scan: seq<nat>) returns (count: nat)
      requires ScanOf(scan, events, now)
      modifies this
      ensures events == Parked(old(events), FirstOf(scan), now)
      ensures count == |FirstOf(scan)| == if |scan| < 20 then |scan| else 20
      ensures forall id :: id in events <==> id in old(events)
      ensures forall id :: id in old(events) ==>
        events[id] == if id in scan[..count] then AfterFailure(old(events)[id], now) else old(events)[id]
    {
      assert forall i :: 0 <= i < |scan| ==> scan[i] in scan;
      var batch: seq<nat> := [];
      while |batch| < BATCH && |batch| < |scan|
        invariant |batch| <= BATCH && |batch| <= |scan| && batch == scan[..|batch|]
      {
        batch := batch + [scan[|batch|]];
      }
      assert batch == FirstOf(scan);
      ghost var before := events;
      var i := 0;
      while i < |batch|
        invariant 0 <= i <= |batch|
        invariant events == Parked(before, batch[..i], now)
      {
        events := events[batch[i] := Park(events[batch[i]], now)];
        assert forall id :: id in batch[..i + 1] <==> id in batch[..i] || id == batch[i];
        assert batch[i] !in batch[..i];
        i := i + 1;
      }
      assert batch[..i] == batch;
      count := |batch|;
      ParkIsFailure(now);
    }
  }
}
