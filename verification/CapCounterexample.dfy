// A run in which cancelling a queued execution exceeds the concurrency cap.
module CapCounterexample {
  import opened Wrappers
  import opened ConcurrencyQueue
  import opened ActiveExecutions
  import opened ExecutionProtocol

  // Who waits after `n` executions have begun in a process with a cap of one.
  function Waiters(n: nat): seq<Waiter> {
    if n <= 1 then [] else Waiters(n - 1) + [Waiter(n - 1, n - 1)]
  }

  function Crowd(n: nat): System {
    if n == 0 then System(map[], map[0 := Process(map[], 1, Some(Queue(1, [])))], map[], [], multiset{})
    else
      var before := Crowd(n - 1);
      before.(
        db := before.db[n - 1 := Row(New, 0)],
        procs := before.procs[0 := Process(map[], 1, Some(Queue(1 - n, Waiters(n))))],
        attempts := before.attempts[n - 1 := Attempt(0, n - 1, Production, true, if n == 1 then Reserved else Throttled)])
  }

  function CrowdSteps(n: nat): seq<Step> {
    if n == 0 then [] else CrowdSteps(n - 1) + [StartFresh(0, n - 1, n - 1, Production)]
  }

  lemma {:induction false} CrowdShape(n: nat)
    ensures Crowd(n).procs == map[0 := Process(map[], 1, Some(Queue(1 - n, Waiters(n))))]
    ensures forall a: AttemptId :: a in Crowd(n).attempts <==> a < n
    ensures forall x: ExecutionId :: x in Crowd(n).db <==> x < n
  {
    if n > 0 { CrowdShape(n - 1); }
  }

  lemma CrowdGrows(n: nat)
    ensures Enabled(Crowd(n), StartFresh(0, n, n, Production))
    ensures Next(Crowd(n), StartFresh(0, n, n, Production)) == Crowd(n + 1)
  {
    CrowdShape(n);
    var q := Queue(1 - n, Waiters(n));
    assert Enqueue(q, Waiter(n, n)) == Entered(Queue(0 - n, Waiters(n + 1)), n == 0);
  }

  lemma CrowdJoins(n: nat, steps: seq<Step>)
    requires Run(Crowd(0), steps) && After(Crowd(0), steps) == Crowd(n)
    ensures var more := steps + [StartFresh(0, n, n, Production)];
            Run(Crowd(0), more) && After(Crowd(0), more) == Crowd(n + 1)
  {
    CrowdGrows(n);
    OneMoreStep(Crowd(0), steps, StartFresh(0, n, n, Production));
  }

  lemma {:induction false} CrowdReached(n: nat)
    ensures Run(Crowd(0), CrowdSteps(n)) && After(Crowd(0), CrowdSteps(n)) == Crowd(n)
  {
    if n > 0 {
      CrowdReached(n - 1);
      CrowdJoins(n - 1, CrowdSteps(n - 1));
    }
  }

  lemma CrowdAttempts()
    ensures Crowd(3).attempts == map[0 := Attempt(0, 0, Production, true, Reserved),
                                     1 := Attempt(0, 1, Production, true, Throttled),
                                     2 := Attempt(0, 2, Production, true, Throttled)]
    ensures Waiters(3) == [Waiter(1, 1), Waiter(2, 2)]
  {
    assert Crowd(3).attempts == Crowd(2).attempts[2 := Attempt(0, 2, Production, true, Throttled)];
    assert Crowd(2).attempts == Crowd(1).attempts[1 := Attempt(0, 1, Production, true, Throttled)];
    assert Crowd(1).attempts == map[0 := Attempt(0, 0, Production, true, Reserved)];
    assert Waiters(2) == [Waiter(1, 1)];
  }

  lemma {:induction false} SubsetCard(a: set<AttemptId>, b: set<AttemptId>)
    requires a <= b
    ensures |a| <= |b|
  {
    if a != {} {
      var x :| x in a;
      SubsetCard(a - {x}, b - {x});
    }
  }

  // Cancelling the first of two waiters makes the second a holder and takes
  // nothing from anybody.
  lemma CancelWakesSecond(s: System, p: ProcId, first: Waiter, second: Waiter, a: AttemptId, capacity: int)
    requires p in s.procs && s.procs[p].queue == Some(Queue(capacity, [first, second]))
    requires first.ticket != second.ticket && a in Slots(s, p)
    requires Queued(s, p, first) && Queued(s, p, second)
    ensures var next := AfterCancel(s, p, first.executionId);
            && a in Slots(next, p) && second.ticket in Slots(next, p)
            && p in next.procs && next.procs[p].queue.Some? && next.procs[p].cap == s.procs[p].cap
  {
    var q := Queue(capacity, [first, second]);
    assert FirstFor(q.waiting, first.executionId) == 0;
    assert q.waiting[..0] + q.waiting[1..] == [second];
    assert Remove(q, first.executionId) == Moved(Queue(capacity + 1, []), Some(second));
  }

  lemma CancelExceeds(s: System, p: ProcId, first: Waiter, second: Waiter, a: AttemptId, capacity: int)
    requires p in s.procs && s.procs[p].queue == Some(Queue(capacity, [first, second])) && s.procs[p].cap == 1
    requires first.ticket != second.ticket && a in Slots(s, p) && a != second.ticket
    requires Queued(s, p, first) && Queued(s, p, second)
    ensures !AllWithinCap(AfterCancel(s, p, first.executionId))
  {
    CancelWakesSecond(s, p, first, second, a, capacity);
    var next := AfterCancel(s, p, first.executionId);
    SubsetCard({a, second.ticket}, Slots(next, p));
    assert !WithinCap(next, p);
  }

  lemma CancelInCrowd()
    ensures Enabled(Crowd(3), CancelQueued(0, 1)) && !AllWithinCap(AfterCancel(Crowd(3), 0, 1))
  {
    CrowdShape(3);
    CrowdAttempts();
    CancelExceeds(Crowd(3), 0, Waiter(1, 1), Waiter(2, 2), 0, -2);
  }

  // Three executions begin: the first runs and the other two wait. Cancelling
  // the second lets the third through beside the first.
  lemma CancellationExceedsCap()
    ensures var steps := CrowdSteps(3) + [CancelQueued(0, 1)];
            Init(Crowd(0)) && Run(Crowd(0), steps) && !AllWithinCap(After(Crowd(0), steps))
  {
    CrowdReached(3);
    CancelInCrowd();
    OneMoreStep(Crowd(0), CrowdSteps(3), CancelQueued(0, 1));
  }
}
