// The table of executions one process is running, and the synchronous
// operations on it.
module ActiveExecutions {
  import opened Wrappers
  import opened ConcurrencyQueue

  // Names one call of `add`, and with it the incarnation that call creates.
  type AttemptId = nat

  datatype Status = New | Running | Waiting | Finished

  datatype Entry = Entry(attempt: AttemptId, status: Status, startedAt: int)

  type Table = map<ExecutionId, Entry>

  // A resumed execution keeps the start time of the entry it replaces.
  function Registered(table: Table, x: ExecutionId, attempt: AttemptId, now: int): Table {
    table[x := Entry(attempt, Running, if x in table then table[x].startedAt else now)]
  }

  function WithStatus(table: Table, x: ExecutionId, status: Status): Table {
    if x in table then table[x := table[x].(status := status)] else table
  }

  // Stopping drops a waiting entry at once; any other is left to its callback.
  function Stopped(table: Table, x: ExecutionId): Table {
    if x in table && table[x].status == Waiting then table - {x} else table
  }

  // What the settle callback of an incarnation with status `own` does, by id.
  function CalledBack(table: Table, x: ExecutionId, own: Status): Table {
    if own == Waiting then table else table - {x}
  }

  datatype Settlement = Resolved | Rejected

  class Execution {
    const attempt: AttemptId
    const startedAt: int
    var status: Status
    var settlement: Option<Settlement>
    var reserved: bool

    constructor (attempt: AttemptId, startedAt: int, reserved: bool)
      ensures this.attempt == attempt && this.startedAt == startedAt && this.reserved == reserved
      ensures status == Running && settlement == None
    {
      this.attempt, this.startedAt, this.reserved := attempt, startedAt, reserved;
      status, settlement := Running, None;
    }

    // A promise settles once; later calls have no effect.
    method Settle(how: Settlement)
      modifies this`settlement
      ensures settlement == if old(settlement).Some? then old(settlement) else Some(how)
    {
      if settlement == None { settlement := Some(how); }
    }
  }

  datatype LookupError = ExecutionNotFound

  class Service {
    var activeExecutions: map<ExecutionId, Execution>
    var responseModes: map<ExecutionId, string>
    const concurrency: ConcurrencyQueue.Service

    constructor (concurrency: ConcurrencyQueue.Service)
      ensures this.concurrency == concurrency && activeExecutions == map[] && responseModes == map[]
    {
      this.concurrency := concurrency;
      activeExecutions, responseModes := map[], map[];
    }

    // Each id has an object of its own.
    ghost predicate Valid()
      reads this
    {
      forall x, y :: x in activeExecutions && y in activeExecutions && x != y ==>
        activeExecutions[x] != activeExecutions[y]
    }

    ghost function View(): Table
      reads this, activeExecutions.Values
    {
      map x | x in activeExecutions ::
        var e := activeExecutions[x]; Entry(e.attempt, e.status, e.startedAt)
    }

    // The part of `add` after its last await.
    method Register(x: ExecutionId, attempt: AttemptId, now: int, reserved: bool) returns (e: Execution)
      requires Valid()
      modifies this`activeExecutions
      ensures Valid() && fresh(e) && activeExecutions == old(activeExecutions)[x := e]
      ensures e.attempt == attempt && e.settlement == None && e.reserved == reserved
      ensures e.status == Running
      ensures e.startedAt == if x in old(activeExecutions) then old(activeExecutions[x].startedAt) else now
      ensures View() == Registered(old(View()), x, attempt, now)
    {
      var startedAt := if x in activeExecutions then activeExecutions[x].startedAt else now;
      e := new Execution(attempt, startedAt, reserved);
      activeExecutions := activeExecutions[x := e];
    }

    method SetStatus(x: ExecutionId, status: Status) returns (r: Result<(), LookupError>)
      requires Valid()
      modifies activeExecutions.Values
      ensures r == if x in activeExecutions then Ok(()) else Err(ExecutionNotFound)
      ensures forall y :: y in activeExecutions ==>
        activeExecutions[y].status == if y == x then status else old(activeExecutions[y].status)
      ensures View() == WithStatus(old(View()), x, status)
    {
      if x !in activeExecutions { return Err(ExecutionNotFound); }
      activeExecutions[x].status := status;
      return Ok(());
    }

    method StopExecution(x: ExecutionId)
      requires Valid()
      modifies this, activeExecutions.Values
      ensures Valid() && View() == Stopped(old(View()), x)
      ensures activeExecutions ==
        if x in old(activeExecutions) && old(activeExecutions[x].status) == Waiting then old(activeExecutions) - {x}
        else old(activeExecutions)
      ensures forall y :: y in old(activeExecutions) ==>
        var e := old(activeExecutions)[y];
        e.settlement == if y == x && old(e.status) != Waiting && old(e.settlement) == None then Some(Rejected)
                        else old(e.settlement)
      ensures responseModes ==
        if x in old(activeExecutions) && old(activeExecutions[x].status) == Waiting then old(responseModes) - {x}
        else old(responseModes)
    {
      if x !in activeExecutions { return; }
      var execution := activeExecutions[x];
      if execution.status == Waiting {
        activeExecutions := activeExecutions - {x};
        responseModes := responseModes - {x};
      } else {
        execution.Settle(Rejected);
      }
    }

    method FinalizeExecution(x: ExecutionId)
      requires Valid()
      modifies activeExecutions.Values
      ensures View() == old(View()) && activeExecutions == old(activeExecutions)
      ensures forall y :: y in activeExecutions ==>
        var e := activeExecutions[y];
        e.settlement == if y == x && old(e.settlement) == None then Some(Resolved) else old(e.settlement)
    {
      if x !in activeExecutions { return; }
      activeExecutions[x].Settle(Resolved);
    }

    // The `finally` handler of the incarnation `own`: it gives the slot back
    // once and removes the entry under its id unless `own` is waiting.
    method OnSettled(x: ExecutionId, own: Execution)
      requires Valid() && own.settlement.Some?
      modifies this, own`reserved, concurrency
      ensures Valid() && View() == CalledBack(old(View()), x, own.status)
      ensures activeExecutions == if own.status == Waiting then old(activeExecutions) else old(activeExecutions) - {x}
      ensures responseModes == if own.status == Waiting then old(responseModes) else old(responseModes) - {x}
      ensures concurrency.View() ==
        if old(own.reserved) then Dequeue(old(concurrency.View())).queue else old(concurrency.View())
      ensures concurrency.capacity == old(concurrency.capacity) + (if old(own.reserved) then 1 else 0)
      ensures !own.reserved
    {
      if own.reserved {
        var _ := concurrency.DequeueExecution();
        own.reserved := false;
      }
      if own.status != Waiting {
        activeExecutions := activeExecutions - {x};
        responseModes := responseModes - {x};
      }
    }
  }
}
