/** The bounded queue behind the executor's mutex: what one critical section does to it. */
module ExecutorQueue {

  const CAPACITY: nat := 64

  datatype Cell<T> = Cell(queue: seq<T>, stopping: bool)

  /** `submit` under the lock: the new cell and whether the task was accepted. */
  function Submitted<T>(c: Cell<T>, task: T): (Cell<T>, bool)
  {
    if c.stopping || |c.queue| >= CAPACITY then (c, false) else (c.(queue := c.queue + [task]), true)
  }

  datatype Turn<T> = Wait | Leave | Start(task: T)

  /** A worker that holds the lock: the wait predicate, the exit test, the pop. */
  function Taken<T>(c: Cell<T>): (Cell<T>, Turn<T>)
  {
    if !c.stopping && c.queue == [] then (c, Wait)
    else if c.queue == [] then (c, Leave)
    else (c.(queue := c.queue[1..]), Start(c.queue[0]))
  }

  class Executor<T> {
    var queue: seq<T>
    var stopping: bool

    constructor ()
      ensures State() == Cell([], false)
    {
      queue, stopping := [], false;
    }

    function State(): Cell<T>
      reads this
    {
      Cell(queue, stopping)
    }

    method Submit(task: T) returns (accepted: bool)
      modifies this
      ensures (State(), accepted) == Submitted(old(State()), task)
      ensures accepted <==> !old(stopping) && |old(queue)| < 64
      ensures queue == (if accepted then old(queue) + [task] else old(queue)) && stopping == old(stopping)
    {
      if stopping || |queue| >= CAPACITY { return false; }
      queue := queue + [task];
      accepted := true;
    }

    method Take() returns (turn: Turn<T>)
      modifies this
      ensures (State(), turn) == Taken(old(State()))
      ensures turn.Wait? <==> old(queue) == [] && !old(stopping)
      ensures turn.Leave? <==> old(queue) == [] && old(stopping)
      ensures turn.Start? ==> old(queue) == [turn.task] + queue
      ensures !turn.Start? ==> queue == old(queue)
      ensures stopping == old(stopping)
    {
      if !(stopping || queue != []) { return Wait; }
      if queue == [] && stopping { return Leave; }
      var task := queue[0];
      queue := queue[1..];
      turn := Start(task);
    }

    method Stop()
      modifies this
      ensures State() == Cell(old(queue), true)
    {
      stopping := true;
    }
  }
}
