/** `dispatch` over the executor: every request is owed one reply. */
module Dispatch {
  import opened ExecutorThreads

  /** How the work of a request ends, exceptions that are not `std::exception` aside. */
  datatype Outcome = Done(body: string) | Thrown(status: int, code: string) | DatabaseFailed | Failed

  datatype Response = Answer(body: string) | ApiError(status: int, code: string)

  function Respond(o: Outcome): Response
  {
    match o
    case Done(body) => Answer(body)
    case Thrown(status, code) => ApiError(status, code)
    case DatabaseFailed => ApiError(503, "DATABASE_UNAVAILABLE")
    case Failed => ApiError(500, "INTERNAL_ERROR")
  }

  const BUSY: Response := ApiError(503, "BUSY")

  datatype Reply = Reply(request: nat, response: Response)

  /** Requests are numbered as they come; `owner` maps accepted tasks to requests, `busy` are the others. */
  datatype Desk = Desk(exec: State, owner: seq<nat>, busy: set<nat>, dispatched: nat, replies: seq<Reply>)

  datatype Event =
    | Arrive(wakes: nat)
    | Complete(w: nat, outcome: Outcome)
    | Inside(step: Step)    // threads and destructor

  ghost predicate Opening(d: Desk)
  {
    Init(d.exec) && d.owner == [] && d.busy == {} && d.dispatched == 0 && d.replies == []
  }

  ghost predicate Happens(d: Desk, e: Event, r: Desk)
  {
    match e
    case Arrive(wakes) =>
      && SubmitStep(d.exec, wakes, r.exec)
      && r == if r.exec != d.exec
           then Desk(r.exec, d.owner + [d.dispatched], d.busy, d.dispatched + 1, d.replies)
           else Desk(r.exec, d.owner, d.busy + {d.dispatched}, d.dispatched + 1, d.replies
             + [Reply(d.dispatched, BUSY)])
    case Complete(w, outcome) =>
      && FinishStep(d.exec, w, r.exec) && d.exec.workers[w].task < |d.owner|
      && r == d.(exec := r.exec, replies := d.replies + [Reply(d.owner[d.exec.workers[w].task], Respond(outcome))])
    case Inside(step) => !step.Submit? && !step.Finish? && Next(d.exec, step, r.exec) && r == d.(exec := r.exec)
  }

  function RepliesTo(replies: seq<Reply>, request: nat): nat
  {
    if replies == [] then 0
    else RepliesTo(replies[..|replies| - 1], request) + (if replies[|replies| - 1].request == request then 1 else 0)
  }

  lemma OneMoreReply(replies: seq<Reply>, x: Reply, request: nat)
    ensures RepliesTo(replies + [x], request) == RepliesTo(replies, request) + (if x.request == request then 1 else 0)
  {
    assert (replies + [x])[..|replies|] == replies;
  }

  ghost predicate Ledger(d: Desk)
  {
    && |d.owner| == d.exec.accepted
    && (forall k :: 0 <= k < |d.owner| ==> d.owner[k] < d.dispatched && d.owner[k] !in d.busy)
    && (forall j, k :: 0 <= j < k < |d.owner| ==> d.owner[j] != d.owner[k])
    && (forall r :: r in d.busy ==> r < d.dispatched)
    && (forall r: nat :: r < d.dispatched && r !in d.busy ==> r in d.owner)
  }

  ghost predicate Replied(d: Desk)
    requires Ledger(d)
  {
    && (forall r :: r in d.busy ==> RepliesTo(d.replies, r) == 1)
    && (forall k :: 0 <= k < |d.owner| ==> RepliesTo(d.replies, d.owner[k]) == multiset(d.exec.finished)[k])
    && (forall r: nat :: d.dispatched <= r ==> RepliesTo(d.replies, r) == 0)
  }

  ghost predicate DeskInv(d: Desk)
  {
    Inv(d.exec) && Ledger(d) && Replied(d)
  }

  lemma OpeningIsFine(d: Desk)
    requires Opening(d)
    ensures DeskInv(d)
  {
    InitInv(d.exec);
  }

  lemma FinishedIsKnown(s: State, k: nat)
    requires Inv(s)
    ensures multiset(s.finished)[k] <= multiset(s.started)[k] <= 1
    ensures k >= s.accepted ==> multiset(s.started)[k] == 0
  {
    assert forall i :: 0 <= i < |s.started| ==> s.started[i] == (s.started + s.queue)[i] == i;
    PrefixCounts(s.started, k);
  }

  lemma {:induction false} PrefixCounts(s: seq<nat>, k: nat)
    requires forall i :: 0 <= i < |s| ==> s[i] == i
    ensures multiset(s)[k] == if k < |s| then 1 else 0
  {
    if s != [] {
      PrefixCounts(s[..|s| - 1], k);
      assert s == s[..|s| - 1] + [s[|s| - 1]];
    }
  }

  lemma AcceptedChangesExec(s: State, wakes: nat, r: State)
    requires SubmitStep(s, wakes, r)
    ensures r != s <==> r.accepted == s.accepted + 1
    ensures r == s || (r.accepted == s.accepted + 1 && r.finished == s.finished)
  {
  }

  lemma LedgerGrows(d: Desk, r: Desk)
    requires Ledger(d) && r.exec.accepted == d.exec.accepted + 1
    requires r.owner == d.owner + [d.dispatched] && r.busy == d.busy && r.dispatched == d.dispatched + 1
    ensures Ledger(r)
  {
    forall q: nat | q < r.dispatched && q !in r.busy ensures q in r.owner {
      if q == d.dispatched { assert r.owner[|d.owner|] == q; } else { assert q in d.owner; }
    }
    forall j, k | 0 <= j < k < |r.owner| ensures r.owner[j] != r.owner[k] {
      assert r.owner[j] == d.owner[j] && (k < |d.owner| ==> r.owner[k] == d.owner[k]);
    }
  }

  lemma AcceptedArrivalKeeps(d: Desk, r: Desk)
    requires Ledger(d) && Replied(d) && multiset(d.exec.finished)[d.exec.accepted] == 0
    requires r.exec.accepted == d.exec.accepted + 1 && r.exec.finished == d.exec.finished
    requires r == Desk(r.exec, d.owner + [d.dispatched], d.busy, d.dispatched + 1, d.replies)
    ensures Ledger(r) && Replied(r)
  {
    hide RepliesTo;
    assert r.owner[|d.owner|] == d.dispatched;
    assert forall k :: 0 <= k < |d.owner| ==> r.owner[k] == d.owner[k];
    LedgerGrows(d, r);
  }

  lemma BusyArrivalKeeps(d: Desk, r: Desk)
    requires Ledger(d) && Replied(d)
    requires r == Desk(d.exec, d.owner, d.busy + {d.dispatched}, d.dispatched + 1, d.replies
      + [Reply(d.dispatched, BUSY)])
    ensures Ledger(r) && Replied(r)
  {
    forall q: nat ensures RepliesTo(r.replies, q) == RepliesTo(d.replies, q) + (if q == d.dispatched then 1 else 0) {
      OneMoreReply(d.replies, Reply(d.dispatched, BUSY), q);
    }
  }

  lemma ArrivalKeeps(d: Desk, wakes: nat, r: Desk)
    requires DeskInv(d) && Happens(d, Arrive(wakes), r)
    ensures Ledger(r) && Replied(r)
  {
    AcceptedChangesExec(d.exec, wakes, r.exec);
    FinishedIsKnown(d.exec, d.exec.accepted);
    if r.exec != d.exec { AcceptedArrivalKeeps(d, r); } else { BusyArrivalKeeps(d, r); }
  }

  lemma CompletionKeeps(d: Desk, w: nat, outcome: Outcome, r: Desk)
    requires DeskInv(d) && Happens(d, Complete(w, outcome), r)
    ensures Ledger(r) && Replied(r)
  {
    hide Inv, RepliesTo;
    var task := d.exec.workers[w].task;
    forall q: nat ensures RepliesTo(r.replies, q) == RepliesTo(d.replies, q) + (if q == d.owner[task] then 1 else 0) {
      OneMoreReply(d.replies, Reply(d.owner[task], Respond(outcome)), q);
    }
    assert multiset(r.exec.finished) == multiset(d.exec.finished) + multiset{task};
  }

  lemma InsideKeeps(d: Desk, step: Step, r: Desk)
    requires DeskInv(d) && Happens(d, Inside(step), r)
    ensures Ledger(r) && Replied(r)
  {
    assert r.exec.accepted == d.exec.accepted && r.exec.finished == d.exec.finished;
  }

  lemma HappeningKeepsInv(d: Desk, e: Event, r: Desk)
    requires DeskInv(d) && Happens(d, e, r)
    ensures DeskInv(r)
  {
    match e {
      case Arrive(wakes) =>
        ArrivalKeeps(d, wakes, r);
        StepKeepsInv(d.exec, Submit(wakes), r.exec);
      case Complete(w, outcome) =>
        CompletionKeeps(d, w, outcome, r);
        StepKeepsInv(d.exec, Finish(w), r.exec);
      case Inside(step) =>
        InsideKeeps(d, step, r);
        StepKeepsInv(d.exec, step, r.exec);
    }
  }

  lemma {:induction false} RunningIsInHands(ws: seq<Worker>, w: nat)
    requires w < |ws| && ws[w].Running?
    ensures ws[w].task in InHands(ws)
  {
    if w < |ws| - 1 { RunningIsInHands(ws[..|ws| - 1], w); }
  }

  /** A task that finishes always has a request to answer. */
  lemma RunningTaskHasOwner(d: Desk, w: nat)
    requires DeskInv(d) && w < |d.exec.workers| && d.exec.workers[w].Running?
    ensures d.exec.workers[w].task < |d.owner|
  {
    RunningIsInHands(d.exec.workers, w);
    FinishedIsKnown(d.exec, d.exec.workers[w].task);
  }

  ghost predicate Story(desks: seq<Desk>, events: seq<Event>)
  {
    |desks| == |events| + 1 && Opening(desks[0]) && forall i :: 0 <= i < |events| ==>
      Happens(desks[i], events[i], desks[i + 1])
  }

  lemma {:induction false} StoryKeepsInv(desks: seq<Desk>, events: seq<Event>, i: nat)
    requires Story(desks, events) && i < |desks|
    ensures DeskInv(desks[i])
  {
    if i == 0 {
      OpeningIsFine(desks[0]);
    } else {
      StoryKeepsInv(desks, events, i - 1);
      HappeningKeepsInv(desks[i - 1], events[i - 1], desks[i]);
    }
  }

  /** At every moment of every run each request has at most one reply, and once the executor is gone
      each has exactly one. */
  lemma OneReplyEach(desks: seq<Desk>, events: seq<Event>, i: nat, request: nat)
    requires Story(desks, events) && i < |desks| && request < desks[i].dispatched
    ensures RepliesTo(desks[i].replies, request) <= 1
    ensures desks[i].exec.phase == Returned ==> RepliesTo(desks[i].replies, request) == 1
  {
    StoryKeepsInv(desks, events, i);
    var d := desks[i];
    if request !in d.busy {
      var k :| 0 <= k < |d.owner| && d.owner[k] == request;
      FinishedIsKnown(d.exec, k);
      if d.exec.phase == Returned {
        ReturnedMeansDone(d.exec);
        PrefixCounts(Numbers(d.exec.accepted), k);
      }
    }
  }
}
