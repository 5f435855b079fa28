/** The executor with its threads: every interleaving of submitters, workers, spurious wakeups and
    the destructor. A critical section is one step because the mutex makes it one. */
module ExecutorThreads {
  import opened ExecutorQueue

  /** AtLock: about to take the mutex and test the wait predicate (just started, back from a task, or woken). */
  datatype Worker = AtLock | Waiting | Running(task: nat) | Exited

  /** How far the destructor has come. */
  datatype Phase = Open | Stopping | Notified | Returned

  /** Tasks are numbered in the order of their acceptance; `started` and `finished` are the history. */
  datatype State = State(queue: seq<nat>, workers: seq<Worker>, phase: Phase, accepted: nat,
                         started: seq<nat>, finished: seq<nat>)

  datatype Step =
    | Submit(wakes: nat)    // `wakes`: the waiter notify_one picks, if there is one
    | Acquire(w: nat)
    | Finish(w: nat)
    | Spurious(w: nat)
    | Stop
    | NotifyAll
    | Join

  ghost predicate Init(s: State)
  {
    s.queue == [] && |s.workers| >= 1 && (forall w :: 0 <= w < |s.workers| ==> s.workers[w] == AtLock)
    && s.phase == Open && s.accepted == 0 && s.started == [] && s.finished == []
  }

  function CellOf(s: State): Cell<nat> { Cell(s.queue, s.phase != Open) }

  ghost predicate AnyWaiting(ws: seq<Worker>) { exists w :: 0 <= w < |ws| && ws[w].Waiting? }

  ghost predicate AllExited(ws: seq<Worker>) { forall w :: 0 <= w < |ws| ==> ws[w].Exited? }

  function WakeAll(ws: seq<Worker>): (r: seq<Worker>)
    ensures |r| == |ws| && forall w :: 0 <= w < |ws| ==> r[w] == if ws[w].Waiting? then AtLock else ws[w]
  {
    seq(|ws|, w requires 0 <= w < |ws| => if ws[w].Waiting? then AtLock else ws[w])
  }

  ghost predicate SubmitStep(s: State, wakes: nat, r: State)
  {
    var (cell, accepted) := Submitted(CellOf(s), s.accepted);
    if !accepted then r == s
    else
      && (AnyWaiting(s.workers) ==> wakes < |s.workers| && s.workers[wakes].Waiting?)
      && r == s.(queue := cell.queue, accepted := s.accepted + 1,
                 workers := if AnyWaiting(s.workers) then s.workers[wakes := AtLock] else s.workers)
  }

  ghost predicate AcquireStep(s: State, w: nat, r: State)
  {
    && w < |s.workers| && s.workers[w].AtLock?
    && var (cell, turn) := Taken(CellOf(s));
       match turn
       case Wait => r == s.(workers := s.workers[w := Waiting])
       case Leave => r == s.(workers := s.workers[w := Exited])
       case Start(task) => r == s.(queue := cell.queue, workers := s.workers[w := Running(task)],
         started := s.started + [task])
  }

  ghost predicate FinishStep(s: State, w: nat, r: State)
  {
    && w < |s.workers| && s.workers[w].Running?
    && r == s.(workers := s.workers[w := AtLock], finished := s.finished + [s.workers[w].task])
  }

  ghost predicate Next(s: State, step: Step, r: State)
  {
    match step
    case Submit(wakes) => SubmitStep(s, wakes, r)
    case Acquire(w) => AcquireStep(s, w, r)
    case Finish(w) => FinishStep(s, w, r)
    case Spurious(w) => w < |s.workers| && s.workers[w].Waiting? && r == s.(workers := s.workers[w := AtLock])
    case Stop => s.phase == Open && r == s.(phase := Stopping)
    case NotifyAll => s.phase == Stopping && r == s.(phase := Notified, workers := WakeAll(s.workers))
    case Join => s.phase == Notified && AllExited(s.workers) && r == s.(phase := Returned)
  }

  // Counting workers.

  function AtLocks(ws: seq<Worker>): nat
  {
    if ws == [] then 0 else AtLocks(ws[..|ws| - 1]) + (if ws[|ws| - 1].AtLock? then 1 else 0)
  }

  lemma {:induction false} AtLocksUpdate(ws: seq<Worker>, i: nat, x: Worker)
    requires i < |ws|
    ensures AtLocks(ws[i := x]) == AtLocks(ws) - (if ws[i].AtLock? then 1 else 0) + (if x.AtLock? then 1 else 0)
  {
    var last := |ws| - 1;
    if i == last {
      assert ws[i := x][..last] == ws[..last];
    } else {
      AtLocksUpdate(ws[..last], i, x);
      assert ws[i := x][..last] == ws[..last][i := x];
    }
  }

  lemma {:induction false} AtLocksPositive(ws: seq<Worker>)
    ensures AtLocks(ws) > 0 <==> exists w :: 0 <= w < |ws| && ws[w].AtLock?
  {
    if ws != [] {
      var last := |ws| - 1;
      AtLocksPositive(ws[..last]);
      if w :| 0 <= w < |ws| && ws[w].AtLock? { assert w == last || ws[..last][w].AtLock?; }
      if w :| 0 <= w < last && ws[..last][w].AtLock? { assert ws[w].AtLock?; }
    }
  }

  function Hand(w: Worker): multiset<nat> { if w.Running? then multiset{w.task} else multiset{} }

  /** The tasks workers are running. */
  function InHands(ws: seq<Worker>): multiset<nat>
  {
    if ws == [] then multiset{} else InHands(ws[..|ws| - 1]) + Hand(ws[|ws| - 1])
  }

  lemma MoveAside(a: multiset<nat>, b: multiset<nat>, g: multiset<nat>, h: multiset<nat>, l: multiset<nat>)
    requires a + g == b + h
    ensures (a + l) + g == (b + l) + h
  {
    assert (a + l) + g == (a + g) + l;
  }

  /** A worker that holds no task before or after changes nothing. */
  lemma InHandsKept(ws: seq<Worker>, i: nat, x: Worker)
    requires i < |ws| && !x.Running? && !ws[i].Running?
    ensures InHands(ws[i := x]) == InHands(ws)
  {
    hide InHands;
    InHandsUpdate(ws, i, x);
    assert InHands(ws[i := x]) + multiset{} == InHands(ws[i := x]) && InHands(ws) + multiset{} == InHands(ws);
  }

  lemma InHandsTaken(ws: seq<Worker>, i: nat, task: nat)
    requires i < |ws| && !ws[i].Running?
    ensures InHands(ws[i := Running(task)]) == InHands(ws) + multiset{task}
  {
    hide InHands;
    InHandsUpdate(ws, i, Running(task));
    assert InHands(ws[i := Running(task)]) + multiset{} == InHands(ws[i := Running(task)]);
  }

  lemma InHandsDropped(ws: seq<Worker>, i: nat, x: Worker)
    requires i < |ws| && ws[i].Running? && !x.Running?
    ensures InHands(ws) == InHands(ws[i := x]) + multiset{ws[i].task}
  {
    hide InHands;
    InHandsUpdate(ws, i, x);
    assert InHands(ws) + multiset{} == InHands(ws);
  }

  lemma {:induction false} InHandsUpdate(ws: seq<Worker>, i: nat, x: Worker)
    requires i < |ws|
    ensures InHands(ws[i := x]) + Hand(ws[i]) == InHands(ws) + Hand(x)
  {
    hide Hand;
    var last := |ws| - 1;
    if i == last {
      assert ws[i := x][..last] == ws[..last];
    } else {
      InHandsUpdate(ws[..last], i, x);
      assert ws[i := x][..last] == ws[..last][i := x];
      MoveAside(InHands(ws[..last][i := x]), InHands(ws[..last]), Hand(ws[i]), Hand(x), Hand(ws[last]));
    }
  }

  lemma {:induction false} InHandsOfWakeAll(ws: seq<Worker>)
    ensures InHands(WakeAll(ws)) == InHands(ws)
  {
    if ws != [] {
      InHandsOfWakeAll(ws[..|ws| - 1]);
      assert WakeAll(ws)[..|ws| - 1] == WakeAll(ws[..|ws| - 1]);
    }
  }

  lemma {:induction false} NothingInHands(ws: seq<Worker>)
    requires forall w :: 0 <= w < |ws| ==> !ws[w].Running?
    ensures InHands(ws) == multiset{}
  {
    if ws != [] { NothingInHands(ws[..|ws| - 1]); }
  }

  // Safety.

  /** 0, 1, ..., n - 1 */
  function Numbers(n: nat): seq<nat>
  {
    seq(n, i => i)
  }

  /** Every accepted task is waiting in the queue or was started, in the order of submission. */
  ghost predicate InOrder(s: State)
  {
    s.started + s.queue == Numbers(s.accepted) && |s.queue| <= CAPACITY
  }

  /** What was started is in a worker's hands or finished, each task once. */
  ghost predicate EachOnce(s: State)
  {
    multiset(s.started) == multiset(s.finished) + InHands(s.workers)
  }

  /** If anyone sleeps, the queued tasks have as many workers on the way to the lock. */
  ghost predicate NoLostWakeup(s: State)
  {
    AnyWaiting(s.workers) ==> |s.queue| <= AtLocks(s.workers)
  }

  ghost predicate ShutdownSound(s: State)
  {
    && |s.workers| >= 1
    && (forall w :: 0 <= w < |s.workers| && s.workers[w].Exited? ==> s.phase != Open && s.queue == [])
    && (s.phase in {Notified, Returned} ==> !AnyWaiting(s.workers))
    && (s.phase == Returned ==> AllExited(s.workers))
  }

  ghost predicate Inv(s: State)
  {
    InOrder(s) && EachOnce(s) && NoLostWakeup(s) && ShutdownSound(s)
  }

  lemma InitInv(s: State)
    requires Init(s)
    ensures Inv(s)
  {
    NothingInHands(s.workers);
  }

  lemma KeepsOrder(s: State, step: Step, r: State)
    requires InOrder(s) && Next(s, step, r)
    ensures InOrder(r)
  {
    match step
    case Submit(wakes) =>
      if r.accepted == s.accepted + 1 { assert r.started + r.queue == (s.started + s.queue) + [s.accepted]; }
      assert Numbers(s.accepted + 1) == Numbers(s.accepted) + [s.accepted];
    case Acquire(w) =>
      if s.queue != [] {
        assert s.queue == [s.queue[0]] + s.queue[1..];
        assert r.started + r.queue == s.started + s.queue;
      }
    case _ =>
  }

  lemma StartKeepsEachOnce(s: State, w: nat, r: State)
    requires EachOnce(s) && AcquireStep(s, w, r)
    ensures EachOnce(r)
  {
    hide InHands;
    if s.queue != [] {
      InHandsTaken(s.workers, w, s.queue[0]);
      assert multiset(r.started) == multiset(s.started) + multiset{s.queue[0]};
    } else {
      InHandsKept(s.workers, w, r.workers[w]);
    }
  }

  lemma FinishKeepsEachOnce(s: State, w: nat, r: State)
    requires EachOnce(s) && FinishStep(s, w, r)
    ensures EachOnce(r)
  {
    hide InHands;
    InHandsDropped(s.workers, w, AtLock);
    assert multiset(r.finished) == multiset(s.finished) + multiset{s.workers[w].task};
  }

  lemma KeepsEachOnce(s: State, step: Step, r: State)
    requires EachOnce(s) && Next(s, step, r)
    ensures EachOnce(r)
  {
    hide InHands;
    match step
    case Submit(wakes) => if r.workers != s.workers { InHandsKept(s.workers, wakes, AtLock); }
    case Acquire(w) => StartKeepsEachOnce(s, w, r);
    case Finish(w) => FinishKeepsEachOnce(s, w, r);
    case Spurious(w) => InHandsKept(s.workers, w, AtLock);
    case NotifyAll => InHandsOfWakeAll(s.workers);
    case _ =>
  }

  lemma KeepsWakeups(s: State, step: Step, r: State)
    requires NoLostWakeup(s) && ShutdownSound(s) && Next(s, step, r)
    ensures NoLostWakeup(r)
  {
    match step
    case Submit(wakes) => if wakes < |s.workers| { AtLocksUpdate(s.workers, wakes, AtLock); }
    case Acquire(w) =>
      AtLocksUpdate(s.workers, w, r.workers[w]);
      AtLocksPositive(r.workers);
      assert forall v :: 0 <= v < |r.workers| && v != w ==> r.workers[v] == s.workers[v];
    case Finish(w) =>
      AtLocksUpdate(s.workers, w, AtLock);
      assert forall v :: 0 <= v < |r.workers| && v != w ==> r.workers[v] == s.workers[v];
    case Spurious(w) => AtLocksUpdate(s.workers, w, AtLock);
    case _ =>
  }

  lemma KeepsShutdown(s: State, step: Step, r: State)
    requires ShutdownSound(s) && Next(s, step, r)
    ensures ShutdownSound(r)
  {
    assert forall w :: 0 <= w < |r.workers| && r.workers[w].Waiting? && !s.workers[w].Waiting? ==> s.phase == Open;
  }

  lemma StepKeepsInv(s: State, step: Step, r: State)
    requires Inv(s) && Next(s, step, r)
    ensures Inv(r)
  {
    KeepsOrder(s, step, r);
    KeepsEachOnce(s, step, r);
    KeepsWakeups(s, step, r);
    KeepsShutdown(s, step, r);
  }

  ghost predicate Run(states: seq<State>, steps: seq<Step>)
  {
    |states| == |steps| + 1 && forall i :: 0 <= i < |steps| ==> Next(states[i], steps[i], states[i + 1])
  }

  /** In every reachable state: order, exactly-once, capacity, wakeups, shutdown. */
  lemma {:induction false} RunKeepsInv(states: seq<State>, steps: seq<Step>, i: nat)
    requires Run(states, steps) && Inv(states[0]) && i < |states|
    ensures Inv(states[i])
  {
    if i > 0 {
      RunKeepsInv(states, steps, i - 1);
      StepKeepsInv(states[i - 1], steps[i - 1], states[i]);
    }
  }

  /** Nothing is accepted after stopping. */
  lemma NothingAcceptedAfterStop(s: State, step: Step, r: State)
    requires Next(s, step, r) && s.phase != Open
    ensures r.accepted == s.accepted && r.phase != Open
  {
  }

  /** When the destructor returns, every accepted task has finished, exactly once, and they were
      started in the order of submission. */
  lemma ReturnedMeansDone(s: State)
    requires Inv(s) && s.phase == Returned
    ensures s.started == Numbers(s.accepted) && multiset(s.finished) == multiset(Numbers(s.accepted))
  {
    NothingInHands(s.workers);
    assert s.workers[0].Exited?;
    assert s.started + s.queue == s.started;
  }

  // Progress.

  ghost predicate CanStep(s: State, step: Step)
  {
    exists r :: Next(s, step, r)
  }

  /** Nobody is kept waiting by the model: the destructor can begin, a worker at the lock takes its turn, a running
      task can end, and a task can be handed in at any time. */
  lemma ThreadsGoOn(s: State)
    ensures s.phase == Open ==> CanStep(s, Stop)
    ensures forall w :: 0 <= w < |s.workers| ==>
      && (s.workers[w].AtLock? ==> CanStep(s, Acquire(w)))
      && (s.workers[w].Running? ==> CanStep(s, Finish(w)))
      && (s.workers[w].Waiting? ==> CanStep(s, Spurious(w)))
    ensures exists wakes :: CanStep(s, Submit(wakes))
  {
    if s.phase == Open { assert Next(s, Stop, s.(phase := Stopping)); }
    forall w | 0 <= w < |s.workers|
      ensures s.workers[w].AtLock? ==> CanStep(s, Acquire(w))
      ensures s.workers[w].Running? ==> CanStep(s, Finish(w))
      ensures s.workers[w].Waiting? ==> CanStep(s, Spurious(w))
    {
      WorkerGoesOn(s, w);
    }
    SomethingCanBeSubmitted(s);
  }

  lemma WorkerGoesOn(s: State, w: nat)
    requires w < |s.workers|
    ensures s.workers[w].AtLock? ==> CanStep(s, Acquire(w))
    ensures s.workers[w].Running? ==> CanStep(s, Finish(w))
    ensures s.workers[w].Waiting? ==> CanStep(s, Spurious(w))
  {
    match s.workers[w] {
      case AtLock =>
        var r := if s.queue != []
          then s.(queue := s.queue[1..], workers := s.workers[w := Running(s.queue[0])],
                  started := s.started + [s.queue[0]])
          else s.(workers := s.workers[w := if s.phase == Open then Waiting else Exited]);
        assert Next(s, Acquire(w), r);
      case Running(task) =>
        assert Next(s, Finish(w), s.(workers := s.workers[w := AtLock], finished := s.finished + [task]));
      case Waiting => assert Next(s, Spurious(w), s.(workers := s.workers[w := AtLock]));
      case Exited =>
    }
  }

  lemma SomethingCanBeSubmitted(s: State)
    ensures exists wakes :: CanStep(s, Submit(wakes))
  {
    var wakes: nat := 0;
    if AnyWaiting(s.workers) { wakes :| wakes < |s.workers| && s.workers[wakes].Waiting?; }
    var r := if s.phase != Open || |s.queue| >= 64 then s
      else s.(queue := s.queue + [s.accepted], accepted := s.accepted + 1,
              workers := if AnyWaiting(s.workers) then s.workers[wakes := AtLock] else s.workers);
    assert Next(s, Submit(wakes), r);
    assert CanStep(s, Submit(wakes));
  }

  /** A task is accepted exactly while the executor is open and fewer than 64 wait, and goes to the end. */
  lemma SubmissionMeans(s: State, wakes: nat, r: State)
    requires Next(s, Submit(wakes), r)
    ensures if s.phase == Open && |s.queue| < 64
      then r.accepted == s.accepted + 1 && r.queue == s.queue + [s.accepted] && r.phase == Open
      else r == s
  {
  }

  /** With tasks queued and nobody running one, some worker is about to take the lock, and its turn starts
      the first task. */
  lemma QueuedTaskCanStart(s: State) returns (w: nat, r: State)
    requires Inv(s) && s.queue != [] && forall w :: 0 <= w < |s.workers| ==> !s.workers[w].Running?
    ensures Next(s, Acquire(w), r) && r.started == s.started + [s.queue[0]]
  {
    AtLocksPositive(s.workers);
    if !AnyWaiting(s.workers) { assert s.workers[0].AtLock?; }
    w :| 0 <= w < |s.workers| && s.workers[w].AtLock?;
    r := s.(queue := s.queue[1..], workers := s.workers[w := Running(s.queue[0])], started := s.started + [s.queue[0]]);
  }

  function Weight(w: Worker): nat
  {
    match w
    case AtLock => 1
    case Waiting => 2
    case Running(_) => 2
    case Exited => 0
  }

  function Weights(ws: seq<Worker>): nat
  {
    if ws == [] then 0 else Weights(ws[..|ws| - 1]) + Weight(ws[|ws| - 1])
  }

  function PhaseWeight(p: Phase): nat
  {
    match p
    case Open => 3
    case Stopping => 2
    case Notified => 1
    case Returned => 0
  }

  /** What is left to do once the destructor has begun. */
  function Rank(s: State): nat
  {
    2 * |s.queue| + Weights(s.workers) + PhaseWeight(s.phase)
  }

  lemma {:induction false} WeightsUpdate(ws: seq<Worker>, i: nat, x: Worker)
    requires i < |ws|
    ensures Weights(ws[i := x]) == Weights(ws) - Weight(ws[i]) + Weight(x)
  {
    var last := |ws| - 1;
    if i == last {
      assert ws[i := x][..last] == ws[..last];
    } else {
      WeightsUpdate(ws[..last], i, x);
      assert ws[i := x][..last] == ws[..last][i := x];
    }
  }

  lemma {:induction false} WeightsOfWakeAll(ws: seq<Worker>)
    ensures Weights(WakeAll(ws)) <= Weights(ws)
  {
    if ws != [] {
      WeightsOfWakeAll(ws[..|ws| - 1]);
      assert WakeAll(ws)[..|ws| - 1] == WakeAll(ws[..|ws| - 1]);
    }
  }

  /** After `stopping_` is set every step except a refused submission brings the end nearer. */
  lemma RankFalls(s: State, step: Step, r: State)
    requires Next(s, step, r) && s.phase != Open
    ensures if step.Submit? then r == s else Rank(r) < Rank(s)
  {
    match step
    case Submit(_) =>
    case Acquire(w) => WeightsUpdate(s.workers, w, r.workers[w]);
    case Finish(w) => WeightsUpdate(s.workers, w, AtLock);
    case Spurious(w) => WeightsUpdate(s.workers, w, AtLock);
    case Stop =>
    case NotifyAll => WeightsOfWakeAll(s.workers);
    case Join =>
  }

  /** And there always is such a step until the destructor has returned. */
  lemma ShutdownGoesOn(s: State) returns (step: Step, r: State)
    requires Inv(s) && s.phase in {Stopping, Notified}
    ensures !step.Submit? && !step.Spurious? && Next(s, step, r)
  {
    if s.phase == Stopping {
      step, r := NotifyAll, s.(phase := Notified, workers := WakeAll(s.workers));
    } else if w :| 0 <= w < |s.workers| && s.workers[w].Running? {
      step, r := Finish(w), s.(workers := s.workers[w := AtLock], finished := s.finished + [s.workers[w].task]);
    } else if w :| 0 <= w < |s.workers| && s.workers[w].AtLock? {
      step := Acquire(w);
      r := if s.queue == [] then s.(workers := s.workers[w := Exited])
           else s.(queue := s.queue[1..], workers := s.workers[w := Running(s.queue[0])], started := s.started
             + [s.queue[0]]);
    } else {
      step, r := Join, s.(phase := Returned);
    }
  }

  function Effective(steps: seq<Step>): nat
  {
    if steps == [] then 0 else Effective(steps[..|steps| - 1]) + (if steps[|steps| - 1].Submit? then 0 else 1)
  }

  /** So every run of the shutdown is bounded by the rank it starts from. */
  lemma {:induction false} ShutdownIsBounded(states: seq<State>, steps: seq<Step>)
    requires Run(states, steps) && states[0].phase != Open
    ensures states[|steps|].phase != Open && Effective(steps) + Rank(states[|steps|]) <= Rank(states[0])
    decreases |steps|
  {
    if steps != [] {
      var n := |steps| - 1;
      ShutdownIsBounded(states[..n + 1], steps[..n]);
      RankFalls(states[n], steps[n], states[n + 1]);
      NothingAcceptedAfterStop(states[n], steps[n], states[n + 1]);
    }
  }
}
