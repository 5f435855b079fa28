/** What each request is answered, over every story of the desk: busy exactly when it found no room, and
    otherwise how its own work ended. */
module DispatchReplies {
  import opened ExecutorThreads
  import opened Dispatch

  /** There is room for a task: the executor is open and fewer than 64 wait. */
  ghost predicate Room(d: Desk)
  {
    d.exec.phase == Open && |d.exec.queue| < 64
  }

  /** The response says how the work ended. */
  predicate Tells(r: Response, o: Outcome)
  {
    && (o.Done? ==> r == Answer(o.body))
    && (o.Thrown? ==> r == ApiError(o.status, o.code))
    && (o == DatabaseFailed ==> r == ApiError(503, "DATABASE_UNAVAILABLE"))
    && (o == Failed ==> r == ApiError(500, "INTERNAL_ERROR"))
  }

  /** Event `n` is the arrival of request `q`. */
  ghost predicate ArrivesAt(desks: seq<Desk>, events: seq<Event>, n: nat, q: nat)
    requires |desks| == |events| + 1
  {
    n < |events| && events[n].Arrive? && desks[n].dispatched == q
  }

  /** It is accepted there, as task `k`. */
  ghost predicate AcceptedAt(desks: seq<Desk>, events: seq<Event>, n: nat, q: nat, k: nat)
    requires |desks| == |events| + 1
  {
    ArrivesAt(desks, events, n, q) && Room(desks[n]) && desks[n].exec.accepted == k
  }

  ghost predicate RefusedAt(desks: seq<Desk>, events: seq<Event>, n: nat, q: nat)
    requires |desks| == |events| + 1
  {
    ArrivesAt(desks, events, n, q) && !Room(desks[n])
  }

  /** At event `m` a worker finishes task `k`, whose work ended like this. */
  ghost predicate EndsAt(desks: seq<Desk>, events: seq<Event>, m: nat, k: nat, o: Outcome)
    requires |desks| == |events| + 1
  {
    && m < |events| && events[m].Complete? && events[m].outcome == o
    && events[m].w < |desks[m].exec.workers| && desks[m].exec.workers[events[m].w] == Running(k)
  }

  /** An arrival joins the end of the queue when there is room and is answered at once when there is not. */
  lemma ArrivalMeans(d: Desk, wakes: nat, r: Desk)
    requires Happens(d, Arrive(wakes), r)
    ensures r.dispatched == d.dispatched + 1
    ensures Room(d) ==>
      && r.exec.queue == d.exec.queue + [d.exec.accepted] && r.exec.accepted == d.exec.accepted + 1
      && r.owner == d.owner + [d.dispatched] && r.replies == d.replies
    ensures !Room(d) ==>
      r.exec == d.exec && r.owner == d.owner
      && r.replies == d.replies + [Reply(d.dispatched, ApiError(503, "BUSY"))]
  {
  }

  /** A finished task answers its request with how it ended. */
  lemma CompletionMeans(d: Desk, w: nat, o: Outcome, r: Desk)
    requires Happens(d, Complete(w, o), r)
    ensures r.dispatched == d.dispatched && r.owner == d.owner
    ensures w < |d.exec.workers| && d.exec.workers[w].Running? && d.exec.workers[w].task < |d.owner|
    ensures |r.replies| == |d.replies| + 1 && r.replies[..|d.replies|] == d.replies
    ensures var x := r.replies[|d.replies|]; x.request == d.owner[d.exec.workers[w].task] && Tells(x.response, o)
  {
  }

  lemma OwnersKept(d: Desk, e: Event, r: Desk)
    requires Happens(d, e, r)
    ensures |d.owner| <= |r.owner| && r.owner[..|d.owner|] == d.owner
    ensures |r.owner| > |d.owner| ==>
      e.Arrive? && Room(d) && |r.owner| == |d.owner| + 1 && r.owner[|d.owner|] == d.dispatched
  {
  }

  lemma {:induction false} OwnerHasArrived(desks: seq<Desk>, events: seq<Event>, i: nat, k: nat)
    requires Story(desks, events) && i < |desks| && k < |desks[i].owner|
    ensures exists n: nat :: n < i && AcceptedAt(desks, events, n, desks[i].owner[k], k)
  {
    hide DeskInv, Inv;
    if i > 0 {
      var d, r := desks[i - 1], desks[i];
      StoryKeepsLedger(desks, events, i - 1);
      assert Happens(d, events[i - 1], r);
      OwnersKept(d, events[i - 1], r);
      if k < |d.owner| {
        OwnerHasArrived(desks, events, i - 1, k);
        var n: nat :| n < i - 1 && AcceptedAt(desks, events, n, d.owner[k], k);
        assert AcceptedAt(desks, events, n, r.owner[k], k);
      } else {
        assert AcceptedAt(desks, events, i - 1, r.owner[k], k);
      }
    }
  }

  lemma StoryKeepsLedger(desks: seq<Desk>, events: seq<Event>, i: nat)
    requires Story(desks, events) && i < |desks|
    ensures Ledger(desks[i])
  {
    StoryKeepsInv(desks, events, i);
  }

  /** The answer of request `q` by event `i`: refused on arrival, or the end of the task it was accepted as. */
  ghost predicate Explained(desks: seq<Desk>, events: seq<Event>, i: nat, x: Reply)
    requires |desks| == |events| + 1
  {
    || (x.response == ApiError(503, "BUSY") && exists n: nat :: n < i && RefusedAt(desks, events, n, x.request))
    || (exists n: nat, m: nat, k: nat, o ::
         n < m < i && AcceptedAt(desks, events, n, x.request, k) && EndsAt(desks, events, m, k, o)
         && Tells(x.response, o))
  }

  lemma {:induction false} RepliesAreExplained(desks: seq<Desk>, events: seq<Event>, i: nat, j: nat)
    requires Story(desks, events) && i < |desks| && j < |desks[i].replies|
    ensures Explained(desks, events, i, desks[i].replies[j])
  {
    hide AcceptedAt, RefusedAt, EndsAt, Tells;
    if i > 0 {
      var d, r := desks[i - 1], desks[i];
      assert Happens(d, events[i - 1], r);
      if j < |d.replies| {
        KeptReply(d, events[i - 1], r, j);
        RepliesAreExplained(desks, events, i - 1, j);
      } else {
        NewReply(desks, events, i - 1, j);
      }
    }
  }

  lemma KeptReply(d: Desk, e: Event, r: Desk, j: nat)
    requires Happens(d, e, r) && j < |d.replies|
    ensures j < |r.replies| && r.replies[j] == d.replies[j]
  {
  }

  lemma NewReply(desks: seq<Desk>, events: seq<Event>, i: nat, j: nat)
    requires Story(desks, events) && i < |events| && |desks[i].replies| <= j < |desks[i + 1].replies|
    ensures Explained(desks, events, i + 1, desks[i + 1].replies[j])
  {
    var d, r := desks[i], desks[i + 1];
    assert Happens(d, events[i], r);
    match events[i] {
      case Arrive(wakes) =>
        ArrivalMeans(d, wakes, r);
        assert RefusedAt(desks, events, i, r.replies[j].request);
      case Complete(w, o) =>
        CompletionMeans(d, w, o, r);
        var k := d.exec.workers[w].task;
        OwnerHasArrived(desks, events, i, k);
        assert EndsAt(desks, events, i, k, o);
      case Inside(_) =>
    }
  }

  lemma {:induction false} NumbersGrow(desks: seq<Desk>, events: seq<Event>, n: nat, m: nat)
    requires Story(desks, events) && n < m < |desks| && events[n].Arrive?
    ensures desks[n].dispatched < desks[m].dispatched
    decreases m
  {
    assert Happens(desks[m - 1], events[m - 1], desks[m]);
    if n < m - 1 { NumbersGrow(desks, events, n, m - 1); }
  }

  /** A request arrives once. */
  lemma ArrivesOnce(desks: seq<Desk>, events: seq<Event>, n: nat, m: nat, q: nat)
    requires Story(desks, events) && ArrivesAt(desks, events, n, q) && ArrivesAt(desks, events, m, q)
    ensures n == m
  {
    hide Happens, Opening;
    if n < m { NumbersGrow(desks, events, n, m); }
    if m < n { NumbersGrow(desks, events, m, n); }
  }

  lemma {:induction false} ReplyStays(desks: seq<Desk>, events: seq<Event>, n: nat, i: nat, x: Reply)
    requires Story(desks, events) && n <= i < |desks| && x in desks[n].replies
    ensures x in desks[i].replies
    decreases i
  {
    if n < i {
      ReplyStays(desks, events, n, i - 1, x);
      assert Happens(desks[i - 1], events[i - 1], desks[i]);
      var j :| 0 <= j < |desks[i - 1].replies| && desks[i - 1].replies[j] == x;
      KeptReply(desks[i - 1], events[i - 1], desks[i], j);
    }
  }

  /** A request that finds no room is answered 503 BUSY, at once and nothing else ever. */
  lemma RefusedMeansBusy(desks: seq<Desk>, events: seq<Event>, n: nat, i: nat)
    requires Story(desks, events) && n < i < |desks| && events[n].Arrive? && !Room(desks[n])
    ensures Reply(desks[n].dispatched, ApiError(503, "BUSY")) in desks[i].replies
    ensures forall x :: x in desks[i].replies && x.request == desks[n].dispatched ==>
      x.response == ApiError(503, "BUSY")
  {
    hide DeskInv;
    var q := desks[n].dispatched;
    assert Happens(desks[n], events[n], desks[n + 1]);
    ArrivalMeans(desks[n], events[n].wakes, desks[n + 1]);
    var x := Reply(q, ApiError(503, "BUSY"));
    assert desks[n + 1].replies[|desks[n].replies|] == x;
    ReplyStays(desks, events, n + 1, i, x);
    forall x | x in desks[i].replies && x.request == q ensures x.response == ApiError(503, "BUSY") {
      var j :| 0 <= j < |desks[i].replies| && desks[i].replies[j] == x;
      RepliesAreExplained(desks, events, i, j);
      if a: nat, m: nat, k: nat, o :|
        a < m < i && AcceptedAt(desks, events, a, q, k) && EndsAt(desks, events, m, k, o) && Tells(x.response, o)
      {
        ArrivesOnce(desks, events, n, a, q);
        assert false;
      }
    }
  }

  /** A request that finds room gets no answer but how the work it was accepted for ended. */
  lemma AcceptedGetsItsOwn(desks: seq<Desk>, events: seq<Event>, n: nat, i: nat, x: Reply)
    requires Story(desks, events) && n < i < |desks| && events[n].Arrive? && Room(desks[n])
    requires x in desks[i].replies && x.request == desks[n].dispatched
    ensures exists m: nat, o :: n < m < i && EndsAt(desks, events, m, desks[n].exec.accepted, o) && Tells(x.response, o)
  {
    hide Happens, Opening, EndsAt, Tells, DeskInv;
    var q := x.request;
    var j :| 0 <= j < |desks[i].replies| && desks[i].replies[j] == x;
    RepliesAreExplained(desks, events, i, j);
    if a: nat :| a < i && RefusedAt(desks, events, a, q) {
      ArrivesOnce(desks, events, n, a, q);
      assert false;
    } else {
      var a: nat, m: nat, k: nat, o :|
        a < m < i && AcceptedAt(desks, events, a, q, k) && EndsAt(desks, events, m, k, o) && Tells(x.response, o);
      ArrivesOnce(desks, events, n, a, q);
    }
  }

  // Nobody is kept from arriving or from finishing.

  ghost predicate CanHappen(d: Desk, e: Event)
  {
    exists r :: Happens(d, e, r)
  }

  /** A request can arrive at any time, and a running task can finish with whatever outcome. */
  lemma DeskGoesOn(desks: seq<Desk>, events: seq<Event>, i: nat)
    requires Story(desks, events) && i < |desks|
    ensures exists wakes :: CanHappen(desks[i], Arrive(wakes))
    ensures forall w: nat, o :: w < |desks[i].exec.workers| && desks[i].exec.workers[w].Running? ==>
      CanHappen(desks[i], Complete(w, o))
  {
    hide CanHappen, DeskInv;
    var d := desks[i];
    StoryKeepsInv(desks, events, i);
    SomeArrival(d);
    forall w: nat, o | w < |d.exec.workers| && d.exec.workers[w].Running?
      ensures CanHappen(d, Complete(w, o))
    {
      RunningTaskHasOwner(d, w);
      SomeCompletion(d, w, o);
    }
  }

  lemma SomeArrival(d: Desk)
    ensures exists wakes :: CanHappen(d, Arrive(wakes))
  {
    var wakes: nat := 0;
    if AnyWaiting(d.exec.workers) { wakes :| wakes < |d.exec.workers| && d.exec.workers[wakes].Waiting?; }
    var after := if Room(d)
      then d.exec.(queue := d.exec.queue + [d.exec.accepted], accepted := d.exec.accepted + 1,
                   workers := if AnyWaiting(d.exec.workers) then d.exec.workers[wakes := AtLock] else d.exec.workers)
      else d.exec;
    assert SubmitStep(d.exec, wakes, after);
    var r := if after != d.exec
      then Desk(after, d.owner + [d.dispatched], d.busy, d.dispatched + 1, d.replies)
      else Desk(after, d.owner, d.busy + {d.dispatched}, d.dispatched + 1,
                d.replies + [Reply(d.dispatched, ApiError(503, "BUSY"))]);
    assert Happens(d, Arrive(wakes), r);
    assert CanHappen(d, Arrive(wakes));
  }

  lemma SomeCompletion(d: Desk, w: nat, o: Outcome)
    requires w < |d.exec.workers| && d.exec.workers[w].Running? && d.exec.workers[w].task < |d.owner|
    ensures CanHappen(d, Complete(w, o))
  {
    var exec := d.exec.(workers := d.exec.workers[w := AtLock], finished := d.exec.finished + [d.exec.workers[w].task]);
    var x := Reply(d.owner[d.exec.workers[w].task], Respond(o));
    assert Happens(d, Complete(w, o), d.(exec := exec, replies := d.replies + [x]));
  }
}
