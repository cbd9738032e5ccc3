// No call of `add` that waits for a slot is forgotten: it stays in its queue,
// all slots are taken meanwhile, and the first in line gets the next one.
module ThrottledExecutions {
  import opened Wrappers
  import opened ConcurrencyQueue
  import opened ActiveExecutions
  import opened ExecutionProtocol

  ghost predicate Listed(s: System, a: AttemptId)
    requires a in s.attempts
  {
    var t := s.attempts[a];
    t.phase == Throttled ==>
      && t.proc in s.procs && s.procs[t.proc].queue.Some?
      && Waiter(t.exec, a) in s.procs[t.proc].queue.value.waiting
  }

  ghost predicate NobodyLost(s: System) {
    forall a :: a in s.attempts ==> Listed(s, a)
  }

  // The same queues, and nobody new suspended.
  ghost predicate Quieter(s: System, s': System) {
    && s'.procs.Keys == s.procs.Keys
    && (forall p :: p in s.procs ==> s'.procs[p].queue == s.procs[p].queue)
    && (forall a :: a in s'.attempts && s'.attempts[a].phase == Throttled ==> a in s.attempts && s.attempts[a] == s'.attempts[a])
  }

  lemma QuieterLosesNobody(s: System, s': System)
    requires NobodyLost(s) && Quieter(s, s')
    ensures NobodyLost(s')
  {
    forall a | a in s'.attempts ensures Listed(s', a) {
      if s'.attempts[a].phase == Throttled { assert Listed(s, a); }
    }
  }

  // Waking the first waiter leaves the others in line.
  lemma WakeLosesNobody(s: System, p: ProcId, q: Queue)
    requires NobodyLost(s) && p in s.procs && s.procs[p].queue.Some? && s.procs[p].queue.value.waiting == q.waiting
    ensures NobodyLost(SetQueue(s, p, ResolveNext(q)))
  {
    var s' := SetQueue(s, p, ResolveNext(q));
    forall a | a in s'.attempts ensures Listed(s', a) {
      assert Listed(s, a);
      if s'.attempts[a].phase == Throttled && s'.attempts[a].proc == p {
        assert q.waiting == [q.waiting[0]] + q.waiting[1..];
      }
    }
  }

  lemma ReleaseLosesNobody(s: System, a: AttemptId)
    requires NobodyLost(s) && a in s.attempts
    ensures NobodyLost(Release(s, a))
  {
    var t := s.attempts[a];
    if Gated(s, t.proc, t.mode) {
      var q := s.procs[t.proc].queue.value;
      QuieterLosesNobody(s, Counted(s, a));
      WakeLosesNobody(Counted(s, a), t.proc, Queue(q.capacity + 1, q.waiting));
    }
  }

  lemma BeginLosesNobody(s: System, p: ProcId, a: AttemptId, x: ExecutionId, mode: Mode, isNew: bool)
    requires NobodyLost(s) && p in s.procs && a !in s.attempts
    ensures NobodyLost(Begin(s, p, a, x, mode, isNew))
  {
    var s' := Begin(s, p, a, x, mode, isNew);
    forall b | b in s'.attempts ensures Listed(s', b) {
      if b != a { assert Listed(s, b); }
    }
  }

  // The state of a cancellation once the cancelled waiter is out of the list.
  ghost function WithoutWaiter(s: System, p: ProcId, x: ExecutionId): System
    requires p in s.procs && s.procs[p].queue.Some?
    requires FirstFor(s.procs[p].queue.value.waiting, x) < |s.procs[p].queue.value.waiting|
  {
    var q, left := s.procs[p].queue.value, StrandedIn(s, p, x);
    var i := FirstFor(q.waiting, x);
    left.(procs := left.procs[p := left.procs[p].(queue := Some(Queue(q.capacity, q.waiting[..i] + q.waiting[i + 1..])))])
  }

  lemma StrandingLosesNobodyElse(s: System, p: ProcId, x: ExecutionId)
    requires NobodyLost(s) && p in s.procs && s.procs[p].queue.Some? && QueueOk(s, p)
    requires FirstFor(s.procs[p].queue.value.waiting, x) < |s.procs[p].queue.value.waiting|
    ensures NobodyLost(WithoutWaiter(s, p, x))
  {
    var q, s' := s.procs[p].queue.value, WithoutWaiter(s, p, x);
    var i := FirstFor(q.waiting, x);
    assert Queued(s, p, q.waiting[i]);
    forall a | a in s'.attempts ensures Listed(s', a) {
      assert Listed(s, a);
      if s'.attempts[a].phase == Throttled && s'.attempts[a].proc == p {
        assert q.waiting == q.waiting[..i] + [q.waiting[i]] + q.waiting[i + 1..];
      }
    }
  }

  lemma TakingOutLosesNobodyElse(s: System, p: ProcId, x: ExecutionId)
    requires NobodyLost(s) && p in s.procs && s.procs[p].queue.Some? && QueueOk(s, p)
    requires FirstFor(s.procs[p].queue.value.waiting, x) < |s.procs[p].queue.value.waiting|
    ensures NobodyLost(SetQueue(StrandedIn(s, p, x), p, Remove(s.procs[p].queue.value, x)))
  {
    var q := s.procs[p].queue.value;
    var i := FirstFor(q.waiting, x);
    var rest := q.waiting[..i] + q.waiting[i + 1..];
    RestStaysQueued(s, p, x);
    StrandingLosesNobodyElse(s, p, x);
    WakeLosesNobody(WithoutWaiter(s, p, x), p, Queue(q.capacity + 1, rest));
    SetQueueOverwrites(s, p, x, ResolveNext(Queue(q.capacity + 1, rest)));
  }

  lemma CancelLosesNobodyElse(s: System, p: ProcId, x: ExecutionId)
    requires NobodyLost(s) && p in s.procs && s.procs[p].queue.Some? && QueueOk(s, p)
    ensures NobodyLost(AfterCancel(s, p, x))
  {
    var waiting := s.procs[p].queue.value.waiting;
    if FirstFor(waiting, x) == |waiting| {
      QuieterLosesNobody(s, AfterCancel(s, p, x));
    } else {
      TakingOutLosesNobodyElse(s, p, x);
    }
  }

  lemma SetQueueOverwrites(s: System, p: ProcId, x: ExecutionId, moved: Moved)
    requires p in s.procs && s.procs[p].queue.Some?
    requires FirstFor(s.procs[p].queue.value.waiting, x) < |s.procs[p].queue.value.waiting|
    ensures SetQueue(WithoutWaiter(s, p, x), p, moved) == SetQueue(StrandedIn(s, p, x), p, moved)
  {
    var left, out := StrandedIn(s, p, x), WithoutWaiter(s, p, x);
    assert left.procs[p := left.procs[p].(queue := Some(moved.queue))]
        == out.procs[p := out.procs[p].(queue := Some(moved.queue))];
  }

  lemma ClosingLosesNobody(s: System, s': System, a: AttemptId)
    requires NobodyLost(s) && Quieter(s, s') && a in s'.attempts
    ensures NobodyLost(Release(s', a))
  {
    QuieterLosesNobody(s, s');
    ReleaseLosesNobody(s', a);
  }

  lemma FailLosesNobody(s: System, a: AttemptId, committed: bool)
    requires NobodyLost(s) && InPhase(s, a, Reserved)
    ensures NobodyLost(AfterFail(s, a, committed))
  {
    var t := s.attempts[a];
    var written := if committed && (t.isNew || IsWaiting(s, t.exec)) then SetStatusOf(s, t.exec, Running) else s;
    ClosingLosesNobody(s, SetPhase(written, a, Closed), a);
  }

  lemma RegisterIsQuieter(s: System, a: AttemptId, now: int)
    requires InPhase(s, a, Won)
    ensures Quieter(s, AfterRegister(s, a, now))
  {
  }

  lemma StopIsQuieter(s: System, p: ProcId, x: ExecutionId)
    requires p in s.procs
    ensures Quieter(s, AfterStop(s, p, x)) && Quieter(s, AfterFinalize(s, p, x))
  {
  }

  // The attempt that gives its slot back in `step`.
  function GivingBack(s: System, step: Step): Option<AttemptId> {
    match step
    case CommitResume(a) => if a in s.attempts && !IsWaiting(s, s.attempts[a].exec) then Some(a) else None
    case Fail(a, _) => Some(a)
    case Park(a) => Some(a)
    case Callback(a) => Some(a)
    case _ => None
  }

  // The steps that leave all queues alone and suspend nobody.
  predicate LeavesQueues(s: System, step: Step) {
    || step.CommitFresh? || step.Register? || step.SetStatus? || step.Finalize? || step.Stop? || step.WriteRow?
    || (step.CommitResume? && step.a in s.attempts && IsWaiting(s, s.attempts[step.a].exec))
  }

  lemma LeavingQueuesIsQuieter(s: System, step: Step)
    requires Enabled(s, step) && LeavesQueues(s, step)
    ensures Quieter(s, Next(s, step))
  {
    match step
    case Register(a, now) => RegisterIsQuieter(s, a, now);
    case Finalize(p, x) => StopIsQuieter(s, p, x);
    case Stop(p, x) => StopIsQuieter(s, p, x);
    case _ =>
  }

  lemma GivingBackLosesNobody(s: System, step: Step)
    requires NobodyLost(s) && Enabled(s, step) && GivingBack(s, step).Some?
    ensures NobodyLost(Next(s, step))
  {
    match step
    case CommitResume(a) => FailLosesNobody(s, a, false);
    case Fail(a, committed) => FailLosesNobody(s, a, committed);
    case Park(a) => ClosingLosesNobody(s, ParkedAs(s, a), a);
    case Callback(a) => ClosingLosesNobody(s, Removed(s, a), a);
  }

  lemma CreatingLosesNobody(s: System, p: ProcId, a: AttemptId, x: ExecutionId, mode: Mode)
    requires NobodyLost(s) && p in s.procs && a !in s.attempts
    ensures NobodyLost(Begin(s.(db := s.db[x := Row(New, 0)]), p, a, x, mode, true))
  {
    QuieterLosesNobody(s, s.(db := s.db[x := Row(New, 0)]));
    BeginLosesNobody(s.(db := s.db[x := Row(New, 0)]), p, a, x, mode, true);
  }

  lemma StepLosesNobody(s: System, step: Step)
    requires NobodyLost(s) && QueueInv(s) && Enabled(s, step)
    ensures NobodyLost(Next(s, step))
  {
    if LeavesQueues(s, step) {
      LeavingQueuesIsQuieter(s, step);
      QuieterLosesNobody(s, Next(s, step));
    } else if GivingBack(s, step).Some? {
      GivingBackLosesNobody(s, step);
    } else {
      match step
      case StartFresh(p, a, x, mode) => CreatingLosesNobody(s, p, a, x, mode);
      case StartResume(p, a, x, mode) => BeginLosesNobody(s, p, a, x, mode, false);
      case CancelQueued(p, x) =>
        assert QueueOk(s, p);
        CancelLosesNobodyElse(s, p, x);
    }
  }

  lemma {:induction false} NobodyIsEverLost(s: System, steps: seq<Step>)
    requires Init(s) && Run(s, steps)
    ensures NobodyLost(After(s, steps))
  {
    if steps != [] {
      var before := steps[..|steps| - 1];
      NobodyIsEverLost(s, before);
      Always(s, before);
      StepLosesNobody(After(s, before), steps[|steps| - 1]);
    }
  }

  // In every reachable state a call that waits for a slot is in the queue of
  // its process, once, and as many slots as the cap allows are taken.
  lemma WaitersAreQueuedOnce(s: System, steps: seq<Step>, a: AttemptId)
    requires Init(s) && Run(s, steps)
    requires a in After(s, steps).attempts && After(s, steps).attempts[a].phase == Throttled
    ensures var end := After(s, steps);
            var t := end.attempts[a];
            && t.proc in end.procs && end.procs[t.proc].queue.Some?
            && |Slots(end, t.proc)| >= end.procs[t.proc].cap
            && var waiting := end.procs[t.proc].queue.value.waiting;
               && Waiter(t.exec, a) in waiting
               && forall i, j :: 0 <= i < j < |waiting| ==> waiting[i].ticket != waiting[j].ticket
  {
    NobodyIsEverLost(s, steps);
    Always(s, steps);
    var end := After(s, steps);
    assert Listed(end, a) && QueueOk(end, end.attempts[a].proc);
  }

  // The state in which the attempt has ended and its slot is still its own.
  function Ended(s: System, step: Step): System
    requires Enabled(s, step) && GivingBack(s, step).Some?
  {
    match step
    case CommitResume(a) => SetPhase(s, a, Closed)
    case Fail(a, committed) =>
      var t := s.attempts[a];
      SetPhase(if committed && (t.isNew || IsWaiting(s, t.exec)) then SetStatusOf(s, t.exec, Running) else s, a, Closed)
    case Park(a) => ParkedAs(s, a)
    case Callback(a) => Removed(s, a)
  }

  lemma EndedKeepsQueue(s: System, step: Step, b: AttemptId)
    requires Enabled(s, step) && GivingBack(s, step).Some?
    ensures var a := GivingBack(s, step).value;
            var mid := Ended(s, step);
            && a in s.attempts && a in mid.attempts && Next(s, step) == Release(mid, a)
            && mid.attempts[a].proc == s.attempts[a].proc && mid.attempts[a].mode == s.attempts[a].mode
            && s.attempts[a].proc in mid.procs
            && mid.procs[s.attempts[a].proc].queue == s.procs[s.attempts[a].proc].queue
            && (b in s.attempts && s.attempts[b].phase == Throttled ==> b in mid.attempts && mid.attempts[b] == s.attempts[b])
  {
  }

  lemma ReleaseWakesFirst(s: System, a: AttemptId)
    requires a in s.attempts && Gated(s, s.attempts[a].proc, s.attempts[a].mode)
    requires var waiting := s.procs[s.attempts[a].proc].queue.value.waiting;
             waiting != [] && waiting[0].ticket in s.attempts && s.attempts[waiting[0].ticket].phase == Throttled
    ensures var p := s.attempts[a].proc;
            var waiting := s.procs[p].queue.value.waiting;
            var next := Release(s, a);
            && waiting[0].ticket in next.attempts && next.attempts[waiting[0].ticket].phase == Reserved
            && p in next.procs && next.procs[p].queue.Some? && next.procs[p].queue.value.waiting == waiting[1..]
  {
  }

  // Whichever step gives a slot back, giving up, losing a row, parking or
  // ending, the slot goes to the first in line, and everybody else moves up by
  // one.
  lemma FirstInLineIsNext(s: System, steps: seq<Step>, step: Step)
    requires Init(s) && Run(s, steps) && Enabled(After(s, steps), step) && GivingBack(After(s, steps), step).Some?
    requires var end := After(s, steps);
             var t := end.attempts[GivingBack(end, step).value];
             Gated(end, t.proc, t.mode) && end.procs[t.proc].queue.value.waiting != []
    ensures var end := After(s, steps);
            var p := end.attempts[GivingBack(end, step).value].proc;
            var waiting := end.procs[p].queue.value.waiting;
            var next := Next(end, step);
            && waiting[0].ticket in next.attempts && next.attempts[waiting[0].ticket].phase == Reserved
            && p in next.procs && next.procs[p].queue.Some? && next.procs[p].queue.value.waiting == waiting[1..]
  {
    Always(s, steps);
    var end := After(s, steps);
    var a := GivingBack(end, step).value;
    var p := end.attempts[a].proc;
    var first := end.procs[p].queue.value.waiting[0];
    assert QueueOk(end, p) && Queued(end, p, first);
    EndedKeepsQueue(end, step, first.ticket);
    ReleaseWakesFirst(Ended(end, step), a);
  }
}
