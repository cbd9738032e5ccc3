// Timers for waiting executions, and the steps that resume a parent once its
// child is done.
module WaitTracker {
  import opened Wrappers
  import opened ConcurrencyQueue
  import opened ParentExecution

  type TimerId = nat

  datatype Timer = Timer(executionId: ExecutionId, delay: int)

  datatype Found = Found(id: ExecutionId, waitTill: int)

  // The tracked executions with their timer handles, and the timers that have
  // yet to fire.
  datatype Tracker = Tracker(waiting: map<ExecutionId, TimerId>, pending: map<TimerId, Timer>, next: TimerId)

  ghost predicate Valid(t: Tracker) {
    && (forall h :: h in t.pending ==> h < t.next)
    && (forall x :: x in t.waiting ==> t.waiting[x] in t.pending && t.pending[t.waiting[x]].executionId == x)
  }

  // Every pending timer is the one its execution is tracked with, so an
  // execution never has two.
  ghost predicate NoOrphans(t: Tracker) {
    forall h :: h in t.pending ==>
      t.pending[h].executionId in t.waiting && t.waiting[t.pending[h].executionId] == h
  }

  function Tracked(t: Tracker, found: Found, now: int): Tracker {
    if found.id in t.waiting then t
    else Tracker(t.waiting[found.id := t.next], t.pending[t.next := Timer(found.id, found.waitTill - now)], t.next + 1)
  }

  // The clock is read anew for each execution.
  function TrackedAll(t: Tracker, found: seq<Found>, clocks: seq<int>): Tracker
    requires |clocks| == |found|
  {
    if found == [] then t
    else
      var n := |found| - 1;
      Tracked(TrackedAll(t, found[..n], clocks[..n]), found[n], clocks[n])
  }

  function Stopped(t: Tracker, x: ExecutionId): Tracker {
    if x !in t.waiting then t else Tracker(t.waiting - {x}, t.pending - {t.waiting[x]}, t.next)
  }

  // The start of `startExecution`: the entry goes, its timer is not cleared.
  function Started(t: Tracker, x: ExecutionId): Tracker {
    t.(waiting := t.waiting - {x})
  }

  function Fired(t: Tracker, h: TimerId): Tracker
    requires h in t.pending
  {
    Started(t.(pending := t.pending - {h}), t.pending[h].executionId)
  }

  // ---------------------------------------------------------------
  // What a failed step throws, and the retry loop
  // ---------------------------------------------------------------

  datatype Error = UserError(message: string) | UnexpectedError(message: string) | OtherError(message: string)

  predicate IsRetryable(e: Error) {
    e.OtherError?
  }

  // The outcome of the n-th attempt, counted from 1.
  type Operation = nat -> Result<(), Error>

  const MAX_PARENT_RESUME_ATTEMPTS := 3

  function Pow2(n: nat): nat {
    if n == 0 then 1 else 2 * Pow2(n - 1)
  }

  // `withRetry` ends after attempt `k`.
  predicate EndsAt(op: Operation, maxAttempts: int, shouldRetry: Error -> bool, k: nat) {
    op(k).Ok? || k >= maxAttempts || !shouldRetry(op(k).error)
  }

  // The first attempt from `from` on after which the loop ends.
  function LastAttempt(op: Operation, maxAttempts: int, shouldRetry: Error -> bool, from: nat): (k: nat)
    ensures from <= k && EndsAt(op, maxAttempts, shouldRetry, k)
    ensures forall j :: from <= j < k ==> !EndsAt(op, maxAttempts, shouldRetry, j)
    ensures k <= maxAttempts || k == from
    decreases maxAttempts - from
  {
    if EndsAt(op, maxAttempts, shouldRetry, from) then from
    else LastAttempt(op, maxAttempts, shouldRetry, from + 1)
  }

  // Retries while attempts fail with retryable errors and returns what the
  // last one returned; `slept` is in milliseconds.
  method WithRetry(op: Operation, maxAttempts: int, shouldRetry: Error -> bool)
    returns (r: Result<(), Error>, attempts: nat, slept: nat)
    ensures 1 <= attempts && (attempts <= maxAttempts || attempts == 1)
    ensures attempts == LastAttempt(op, maxAttempts, shouldRetry, 1)
    ensures r == op(attempts)
    // It tries again after errors to be retried only, and for nothing else ends.
    ensures forall j :: 1 <= j < attempts ==> op(j).Err? && shouldRetry(op(j).error)
    ensures r.Ok? || attempts >= maxAttempts || !shouldRetry(r.error)
    ensures (attempts == 1 ==> slept == 0) && (attempts == 2 ==> slept == 100) && (attempts == 3 ==> slept == 300)
    ensures slept == 100 * (Pow2(attempts - 1) - 1)
  {
    attempts, slept := 1, 0;
    while true
      invariant attempts >= 1 && (attempts <= maxAttempts || attempts == 1)
      invariant forall j :: 1 <= j < attempts ==> op(j).Err? && shouldRetry(op(j).error)
      invariant LastAttempt(op, maxAttempts, shouldRetry, 1) == LastAttempt(op, maxAttempts, shouldRetry, attempts)
      invariant slept == 100 * (Pow2(attempts - 1) - 1)
      decreases maxAttempts - attempts
    {
      r := op(attempts);
      if r.Ok? { return; }
      if attempts >= maxAttempts || !shouldRetry(r.error) { return; }
      slept := slept + 100 * Pow2(attempts - 1);
      attempts := attempts + 1;
    }
  }

  // ---------------------------------------------------------------
  // Resuming a parent
  // ---------------------------------------------------------------

  datatype Run = Run(isWaiting: bool, child: Child)

  datatype Event = PatchAttempt(n: nat, ok: bool) | StartAttempt(n: nat, ok: bool) | Logged(e: Error)

  function PatchAttempts(op: Operation, k: nat): (events: seq<Event>)
    ensures |events| == k
    ensures forall i :: 0 <= i < k ==> events[i] == PatchAttempt(i + 1, op(i + 1).Ok?)
  {
    if k == 0 then [] else PatchAttempts(op, k - 1) + [PatchAttempt(k, op(k).Ok?)]
  }

  function StartAttempts(op: Operation, k: nat): (events: seq<Event>)
    ensures |events| == k
    ensures forall i :: 0 <= i < k ==> events[i] == StartAttempt(i + 1, op(i + 1).Ok?)
  {
    if k == 0 then [] else StartAttempts(op, k - 1) + [StartAttempt(k, op(k).Ok?)]
  }

  // Everything that happens after the child's promise settled with `result`.
  function ResumeTrace(result: Result<Option<Run>, Error>, patch: Operation, start: Operation): seq<Event> {
    if result.Err? then [Logged(result.error)]
    else if result.value.None? || result.value.value.isWaiting then []
    else
      var k := LastAttempt(patch, MAX_PARENT_RESUME_ATTEMPTS, IsRetryable, 1);
      if patch(k).Err? then PatchAttempts(patch, k) + [Logged(patch(k).error)]
      else
        var n := LastAttempt(start, MAX_PARENT_RESUME_ATTEMPTS, IsRetryable, 1);
        PatchAttempts(patch, k) + StartAttempts(start, n)
        + (if start(n).Err? then [Logged(start(n).error)] else [])
  }

  // Never rejects: what goes wrong is logged.
  method ResumeParentExecution(result: Result<Option<Run>, Error>, patch: Operation, start: Operation)
    returns (events: seq<Event>)
    ensures events == ResumeTrace(result, patch, start)
  {
    if result.Err? { return [Logged(result.error)]; }
    if result.value.None? || result.value.value.isWaiting { return []; }
    var patched, k, _ := WithRetry(patch, MAX_PARENT_RESUME_ATTEMPTS, IsRetryable);
    events := PatchAttempts(patch, k);
    if patched.Err? { return events + [Logged(patched.error)]; }
    var started, n, _ := WithRetry(start, MAX_PARENT_RESUME_ATTEMPTS, IsRetryable);
    events := events + StartAttempts(start, n);
    if started.Err? { return events + [Logged(started.error)]; }
    return events + [];
  }

  // A start attempt comes right after patch attempts of which the last, and
  // only the last, returned; no patch follows it, and no start follows a start
  // that returned. A child that waits, or has no result, starts nothing.
  lemma StartsOnlyAfterPatching(result: Result<Option<Run>, Error>, patch: Operation, start: Operation, i: nat)
    requires i < |ResumeTrace(result, patch, start)| && ResumeTrace(result, patch, start)[i].StartAttempt?
    ensures result.Ok? && result.value.Some? && !result.value.value.isWaiting
    ensures var events := ResumeTrace(result, patch, start);
            var k := LastAttempt(patch, MAX_PARENT_RESUME_ATTEMPTS, IsRetryable, 1);
            && 1 <= k <= i && k <= MAX_PARENT_RESUME_ATTEMPTS
            && events[k - 1] == PatchAttempt(k, true)
            && (forall j :: 0 <= j < k - 1 ==> events[j] == PatchAttempt(j + 1, false))
            && (forall j :: k <= j < |events| ==> !events[j].PatchAttempt?)
            && events[i].n == i - k + 1 <= MAX_PARENT_RESUME_ATTEMPTS
            && (events[i].ok ==> i == |events| - 1)
  {
    var k := LastAttempt(patch, MAX_PARENT_RESUME_ATTEMPTS, IsRetryable, 1);
    var n := LastAttempt(start, MAX_PARENT_RESUME_ATTEMPTS, IsRetryable, 1);
    assert patch(k).Ok?;
    forall j | 1 <= j < k ensures patch(j).Err? {
      assert !EndsAt(patch, MAX_PARENT_RESUME_ATTEMPTS, IsRetryable, j);
    }
    if i - k + 1 < n { assert !EndsAt(start, MAX_PARENT_RESUME_ATTEMPTS, IsRetryable, i - k + 1); }
  }

  // `op` ends with its k-th attempt: a user or unexpected error ends it at once,
  // any other is tried again up to the third attempt.
  ghost predicate EndsAfter(op: Operation, k: nat) {
    && 1 <= k <= 3
    && (forall j :: 1 <= j < k ==> op(j).Err? && op(j).error.OtherError?)
    && (op(k).Ok? || k == 3 || op(k).error.UserError? || op(k).error.UnexpectedError?)
  }

  lemma EndsAfterIsLast(op: Operation, k: nat)
    requires EndsAfter(op, k)
    ensures LastAttempt(op, MAX_PARENT_RESUME_ATTEMPTS, IsRetryable, 1) == k
  {
    assert EndsAt(op, MAX_PARENT_RESUME_ATTEMPTS, IsRetryable, k);
  }

  // Without a finished child nothing is tried.
  lemma NothingToResume(result: Result<Option<Run>, Error>, patch: Operation, start: Operation)
    ensures result.Err? ==> ResumeTrace(result, patch, start) == [Logged(result.error)]
    ensures result.Ok? && (result.value.None? || result.value.value.isWaiting) ==> ResumeTrace(result, patch, start) == []
  {
  }

  // With one the parent is patched, and when a patch returned it is started;
  // the error that ended either is logged.
  lemma ResumesOnceDone(result: Result<Option<Run>, Error>, patch: Operation, start: Operation, k: nat, n: nat)
    requires result.Ok? && result.value.Some? && !result.value.value.isWaiting
    requires EndsAfter(patch, k) && EndsAfter(start, n)
    ensures var events := ResumeTrace(result, patch, start);
            && k <= |events| && events[..k] == PatchAttempts(patch, k)
            && (patch(k).Err? ==> events[k..] == [Logged(patch(k).error)])
            && (patch(k).Ok? ==>
                  && |events| == k + n + (if start(n).Ok? then 0 else 1)
                  && events[k..k + n] == StartAttempts(start, n)
                  && (start(n).Err? ==> events[k + n] == Logged(start(n).error)))
  {
    EndsAfterIsLast(patch, k);
    EndsAfterIsLast(start, n);
  }

  // ---------------------------------------------------------------
  // The tracker object
  // ---------------------------------------------------------------

  class Service {
    var waitingExecutions: map<ExecutionId, TimerId>
    var timers: map<TimerId, Timer>
    var nextTimer: TimerId

    constructor ()
      ensures View() == Tracker(map[], map[], 0)
    {
      waitingExecutions, timers, nextTimer := map[], map[], 0;
    }

    function View(): Tracker
      reads this
    {
      Tracker(waitingExecutions, timers, nextTimer)
    }

    method GetWaitingExecutions(executions: seq<Found>, clocks: seq<int>)
      requires |clocks| == |executions|
      modifies this
      ensures View() == TrackedAll(old(View()), executions, clocks)
    {
      for i := 0 to |executions|
        invariant View() == TrackedAll(old(View()), executions[..i], clocks[..i])
      {
        assert executions[..i + 1][..i] == executions[..i] && clocks[..i + 1][..i] == clocks[..i];
        var execution := executions[i];
        if execution.id !in waitingExecutions {
          waitingExecutions := waitingExecutions[execution.id := nextTimer];
          timers := timers[nextTimer := Timer(execution.id, execution.waitTill - clocks[i])];
          nextTimer := nextTimer + 1;
        }
      }
      assert executions[..|executions|] == executions && clocks[..|executions|] == clocks;
    }

    method StopExecution(x: ExecutionId)
      modifies this
      ensures View() == Stopped(old(View()), x)
      ensures waitingExecutions == old(waitingExecutions) - {x}
      ensures timers == if x in old(waitingExecutions) then old(timers) - {old(waitingExecutions)[x]} else old(timers)
    {
      if x !in waitingExecutions { return; }
      timers := timers - {waitingExecutions[x]};
      waitingExecutions := waitingExecutions - {x};
    }

    method StartExecution(x: ExecutionId)
      modifies this
      ensures View() == Started(old(View()), x)
      ensures waitingExecutions == old(waitingExecutions) - {x} && timers == old(timers)
    {
      waitingExecutions := waitingExecutions - {x};
    }

    method FireTimer(h: TimerId)
      requires h in timers
      modifies this
      ensures View() == Fired(old(View()), h)
      ensures waitingExecutions == old(waitingExecutions) - {old(timers)[h].executionId} && timers == old(timers) - {h}
    {
      var x := timers[h].executionId;
      timers := timers - {h};
      StartExecution(x);
    }
  }

  // ---------------------------------------------------------------
  // Timers within one leadership term
  // ---------------------------------------------------------------

  lemma StepsKeepValid(t: Tracker, found: Found, now: int, x: ExecutionId)
    requires Valid(t)
    ensures Valid(Tracked(t, found, now)) && Valid(Started(t, x))
    ensures NoOrphans(t) ==> NoOrphans(Tracked(t, found, now))
    ensures x in t.waiting ==> t.waiting[x] !in Stopped(t, x).pending && x !in Stopped(t, x).waiting
  {
  }

  // Stopping one execution leaves the others tracked, with their timers.
  lemma StoppingKeepsValid(t: Tracker, x: ExecutionId)
    requires Valid(t)
    ensures Valid(Stopped(t, x))
    ensures NoOrphans(t) ==>
              NoOrphans(Stopped(t, x)) && forall h :: h in Stopped(t, x).pending ==> Stopped(t, x).pending[h].executionId != x
    ensures forall y :: y != x ==> Undisturbed(t, Stopped(t, x), y)
  {
  }

  lemma FiringKeepsValid(t: Tracker, h: TimerId)
    requires Valid(t) && h in t.pending
    ensures Valid(Fired(t, h))
    ensures NoOrphans(t) ==> NoOrphans(Fired(t, h))
    ensures forall y :: y != t.pending[h].executionId ==> Undisturbed(t, Fired(t, h), y)
  {
  }

  // `y` is tracked as before, with the same timer.
  ghost predicate Undisturbed(t: Tracker, after: Tracker, y: ExecutionId) {
    && (y in after.waiting <==> y in t.waiting)
    && (y in t.waiting ==>
          && after.waiting[y] == t.waiting[y]
          && (t.waiting[y] in t.pending ==>
                t.waiting[y] in after.pending && after.pending[t.waiting[y]] == t.pending[t.waiting[y]]))
  }

  // The timer of `x` was set for `f` at time `now`.
  predicate TimedFor(t: Tracker, x: ExecutionId, f: Found, now: int) {
    && f.id == x && x in t.waiting && t.waiting[x] in t.pending
    && t.pending[t.waiting[x]].delay == f.waitTill - now
  }

  lemma {:induction false} PollKeepsTimers(t: Tracker, found: seq<Found>, clocks: seq<int>)
    requires Valid(t) && |clocks| == |found|
    ensures var after := TrackedAll(t, found, clocks);
            && Valid(after)
            && (NoOrphans(t) ==> NoOrphans(after))
            && (forall x :: x in t.waiting ==> x in after.waiting && after.waiting[x] == t.waiting[x])
            && (forall h :: h in t.pending ==> h in after.pending && after.pending[h] == t.pending[h])
            && (forall f :: f in found ==> f.id in after.waiting)
  {
    if found != [] {
      var n := |found| - 1;
      assert found == found[..n] + [found[n]];
      PollKeepsTimers(t, found[..n], clocks[..n]);
      TrackingKeepsTimers(TrackedAll(t, found[..n], clocks[..n]), found[n], clocks[n]);
    }
  }

  lemma TrackingKeepsTimers(t: Tracker, f: Found, now: int)
    requires Valid(t)
    ensures var after := Tracked(t, f, now);
            && Valid(after) && f.id in after.waiting
            && (NoOrphans(t) ==> NoOrphans(after))
            && (forall x :: x in t.waiting ==> x in after.waiting && after.waiting[x] == t.waiting[x])
            && (forall h :: h in t.pending ==> h in after.pending && after.pending[h] == t.pending[h])
  {
    StepsKeepValid(t, f, now, f.id);
  }

  lemma {:induction false} NewTimersAreFound(t: Tracker, found: seq<Found>, clocks: seq<int>, x: ExecutionId) returns (i: nat)
    requires Valid(t) && |clocks| == |found|
    requires x in TrackedAll(t, found, clocks).waiting && x !in t.waiting
    ensures i < |found| && TimedFor(TrackedAll(t, found, clocks), x, found[i], clocks[i])
  {
    var n := |found| - 1;
    PollKeepsTimers(t, found[..n], clocks[..n]);
    if x in TrackedAll(t, found[..n], clocks[..n]).waiting {
      i := NewTimersAreFound(t, found[..n], clocks[..n], x);
    } else {
      i := n;
    }
  }

  // A poll times every execution it finds, leaves timers that are already set,
  // and adds no second timer.
  lemma PollTracksAll(t: Tracker, found: seq<Found>, clocks: seq<int>)
    requires Valid(t) && |clocks| == |found|
    ensures var after := TrackedAll(t, found, clocks);
            && Valid(after)
            && (NoOrphans(t) ==> NoOrphans(after))
            && (forall x :: x in t.waiting ==> x in after.waiting && after.waiting[x] == t.waiting[x])
            && (forall h :: h in t.pending ==> h in after.pending && after.pending[h] == t.pending[h])
            && (forall f :: f in found ==> f.id in after.waiting)
            && (forall x :: x in after.waiting && x !in t.waiting ==>
                  exists i :: 0 <= i < |found| && TimedFor(after, x, found[i], clocks[i]))
  {
    PollKeepsTimers(t, found, clocks);
    var after := TrackedAll(t, found, clocks);
    forall x | x in after.waiting && x !in t.waiting
      ensures exists i :: 0 <= i < |found| && TimedFor(after, x, found[i], clocks[i])
    {
      var i := NewTimersAreFound(t, found, clocks, x);
    }
  }

  // Starting an execution other than from its timer leaves that timer behind,
  // so a second one can follow, exactly when the execution was tracked.
  lemma DirectStartOrphans(t: Tracker, x: ExecutionId)
    requires Valid(t) && NoOrphans(t)
    ensures NoOrphans(Started(t, x)) <==> x !in t.waiting
  {
    if x in t.waiting {
      assert t.waiting[x] in Started(t, x).pending;
    }
  }
}
