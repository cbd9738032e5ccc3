// Attempts come to an end: finalizing and stopping settle, the callback then
// clears up, and from every reachable state each attempt that got past the
// queue can finish.
module Completion {
  import opened Wrappers
  import opened ConcurrencyQueue
  import opened ActiveExecutions
  import opened ExecutionProtocol
  import opened ProtocolEffects
  import opened ThrottledExecutions

  lemma InvStep(s: System, step: Step)
    requires Inv(s) && Enabled(s, step)
    ensures Inv(Next(s, step))
  {
    OwnersStep(s, step);
    WinsStep(s, step);
    TableStep(s, step);
    QueueStep(s, step);
  }

  // Only one entry of one table goes.
  ghost predicate EntryGone(s: System, next: System, p: ProcId, x: ExecutionId) {
    && next.procs.Keys == s.procs.Keys && p in s.procs
    && next.procs[p].table == s.procs[p].table - {x}
    && forall r :: r in s.procs && r != p ==> next.procs[r].table == s.procs[r].table
  }

  // A settled incarnation: its callback can run, and then it is closed, out of
  // the table, and its slot given back for the first and only time.
  lemma CallbackFinishes(s: System, a: AttemptId)
    requires Inv(s) && a in s.attempts && s.attempts[a].phase == Settled
    ensures Enabled(s, Callback(a))
    ensures var t, next := s.attempts[a], Next(s, Callback(a));
            && Inv(next) && a in next.attempts && next.attempts[a] == t.(phase := Closed)
            && next.db == s.db && EntryGone(s, next, t.proc, t.exec)
            && t.proc in s.procs
            && s.releases[a] == 0
            && next.releases[a] == (if t.mode == Production && s.procs[t.proc].queue.Some? then 1 else 0)
  {
    CallbackEffect(s, a);
    InvStep(s, Callback(a));
    var t, next := s.attempts[a], Next(s, Callback(a));
    assert ReleasedOnce(s, a) && ReleasedOnce(next, a);
    EndsClosed(s, a);
  }

  // The state of a callback that has yet to give the slot back.
  function ClosedBy(s: System, a: AttemptId): System
    requires a in s.attempts && s.attempts[a].proc in s.procs
  {
    var t := s.attempts[a];
    s.(attempts := s.attempts[a := t.(phase := Closed)],
       procs := s.procs[t.proc := s.procs[t.proc].(table := s.procs[t.proc].table - {t.exec})])
  }

  lemma FirstWaiterIsThrottled(s: System, a: AttemptId)
    requires Inv(s) && a in s.attempts && s.attempts[a].phase != Throttled
    ensures HasSlot(s, a) && s.procs[s.attempts[a].proc].queue.value.waiting != [] ==>
              var w := s.procs[s.attempts[a].proc].queue.value.waiting[0];
              w.ticket in s.attempts && w.ticket != a && s.attempts[w.ticket].phase == Throttled
  {
    var p := s.attempts[a].proc;
    if HasSlot(s, a) && s.procs[p].queue.value.waiting != [] {
      assert QueueOk(s, p) && Queued(s, p, s.procs[p].queue.value.waiting[0]);
    }
  }

  lemma EndsClosed(s: System, a: AttemptId)
    requires Inv(s) && a in s.attempts && s.attempts[a].phase == Settled
    ensures var t, next := s.attempts[a], Next(s, Callback(a));
            && a in next.attempts && next.attempts[a] == t.(phase := Closed) && next.db == s.db
            && EntryGone(s, next, t.proc, t.exec) && t.proc in s.procs
            && next.procs[t.proc].queue.Some? == s.procs[t.proc].queue.Some?
  {
    CallbackEffect(s, a);
    FirstWaiterIsThrottled(s, a);
    assert Next(s, Callback(a)) == Release(ClosedBy(s, a), a);
    ReleaseEffect(ClosedBy(s, a), a);
  }

  // ---------------------------------------------------------------
  // Finalizing and stopping, after any run
  // ---------------------------------------------------------------

  // Finalizing a live incarnation settles it and changes no row, table, queue
  // or other attempt; the callback that follows finishes it.
  lemma FinalizedFinishes(s: System, steps: seq<Step>, p: ProcId, x: ExecutionId, a: AttemptId)
    requires Init(s) && Run(s, steps) && p in After(s, steps).procs && x in After(s, steps).procs[p].table
    requires var end := After(s, steps);
             end.procs[p].table[x].attempt == a && a in end.attempts && end.attempts[a].phase == Live
    ensures var end := After(s, steps);
            && Enabled(end, Finalize(p, x))
            && var settled := Next(end, Finalize(p, x));
               && settled == end.(attempts := end.attempts[a := end.attempts[a].(phase := Settled)])
               && Enabled(settled, Callback(a))
               && var done := Next(settled, Callback(a));
                  && a in done.attempts && done.attempts[a].phase == Closed
                  && done.db == end.db && EntryGone(end, done, p, x)
                  && (end.attempts[a].mode == Production && end.procs[p].queue.Some? ==>
                        end.releases[a] == 0 && done.releases[a] == 1)
  {
    Always(s, steps);
    var end := After(s, steps);
    assert EntryOk(end, p, x);
    FinalizeEffect(end, p, x);
    InvStep(end, Finalize(p, x));
    CallbackFinishes(Next(end, Finalize(p, x)), a);
  }

  // Stopping a live incarnation does the same.
  lemma StoppedFinishes(s: System, steps: seq<Step>, p: ProcId, x: ExecutionId, a: AttemptId)
    requires Init(s) && Run(s, steps) && p in After(s, steps).procs && x in After(s, steps).procs[p].table
    requires var end := After(s, steps);
             end.procs[p].table[x].attempt == a && a in end.attempts && end.attempts[a].phase == Live
    ensures var end := After(s, steps);
            && Enabled(end, Stop(p, x))
            && Next(end, Stop(p, x)) == Next(end, Finalize(p, x))
            && Next(end, Stop(p, x)) == end.(attempts := end.attempts[a := end.attempts[a].(phase := Settled)])
  {
    Always(s, steps);
    FinalizeEffect(After(s, steps), p, x);
    StopEffect(After(s, steps), p, x);
  }

  // Stopping a parked incarnation closes it and drops its entry at once; its
  // slot went back when it parked.
  lemma ParkedIsDropped(s: System, steps: seq<Step>, p: ProcId, x: ExecutionId, a: AttemptId)
    requires Init(s) && Run(s, steps) && p in After(s, steps).procs && x in After(s, steps).procs[p].table
    requires var end := After(s, steps);
             end.procs[p].table[x].attempt == a && a in end.attempts && end.attempts[a].phase == Parked
    ensures var end := After(s, steps);
            && Enabled(end, Stop(p, x))
            && var next := Next(end, Stop(p, x));
               && next.attempts == end.attempts[a := end.attempts[a].(phase := Closed)]
               && next.db == end.db && next.releases == end.releases && EntryGone(end, next, p, x)
               && (end.attempts[a].mode == Production && end.procs[p].queue.Some? ==> next.releases[a] == 1)
  {
    Always(s, steps);
    var end := After(s, steps);
    assert EntryOk(end, p, x) && ReleasedOnce(end, a);
    StopEffect(end, p, x);
  }

  // ---------------------------------------------------------------
  // Every attempt past the queue can finish
  // ---------------------------------------------------------------

  // How far an attempt is from its end.
  function Remaining(phase: Phase): nat {
    match phase
    case Reserved => 4
    case Won => 3
    case Live => 2
    case Settled => 1
    case _ => 0
  }

  // The step that brings it nearer.
  function Nearer(s: System, a: AttemptId): Step
    requires a in s.attempts
  {
    var t := s.attempts[a];
    match t.phase
    case Reserved => if t.isNew then CommitFresh(a, true) else CommitResume(a)
    case Won => Register(a, 0)
    case Live => Finalize(t.proc, t.exec)
    case _ => Callback(a)
  }

  lemma ReservedComesNearer(s: System, a: AttemptId)
    requires Inv(s) && a in s.attempts && s.attempts[a].phase == Reserved
    ensures Enabled(s, Nearer(s, a))
    ensures a in Next(s, Nearer(s, a)).attempts && Next(s, Nearer(s, a)).attempts[a].phase in {Won, Closed}
  {
    assert IncarnationOk(s, a);
    if s.attempts[a].isNew {
      CommitFreshEffect(s, a, true);
    } else {
      CommitResumeEffect(s, a);
      if !IsWaiting(s, s.attempts[a].exec) { LosingChangesNothing(s, a); }
    }
  }

  lemma LiveComesNearer(s: System, a: AttemptId)
    requires Inv(s) && a in s.attempts && s.attempts[a].phase == Live
    ensures Enabled(s, Nearer(s, a))
    ensures a in Next(s, Nearer(s, a)).attempts && Next(s, Nearer(s, a)).attempts[a].phase == Settled
  {
    assert IncarnationOk(s, a);
    FinalizeEffect(s, s.attempts[a].proc, s.attempts[a].exec);
  }

  lemma SettledComesNearer(s: System, a: AttemptId)
    requires Inv(s) && a in s.attempts && s.attempts[a].phase == Settled
    ensures Enabled(s, Nearer(s, a))
    ensures a in Next(s, Nearer(s, a)).attempts && Next(s, Nearer(s, a)).attempts[a].phase == Closed
  {
    CallbackEffect(s, a);
    EndsClosed(s, a);
  }

  lemma ComesNearer(s: System, a: AttemptId)
    requires Inv(s) && a in s.attempts && PastTheQueue(s.attempts[a])
    ensures Enabled(s, Nearer(s, a))
    ensures var next := Next(s, Nearer(s, a));
            && a in next.attempts && next.attempts[a].phase in {Won, Live, Settled, Closed}
            && Remaining(next.attempts[a].phase) < Remaining(s.attempts[a].phase)
  {
    match s.attempts[a].phase
    case Reserved => ReservedComesNearer(s, a);
    case Won => RegisterEffect(s, a, 0);
    case Live => LiveComesNearer(s, a);
    case Settled => SettledComesNearer(s, a);
  }

  predicate PastTheQueue(t: Attempt) {
    t.phase in {Reserved, Won, Live, Settled}
  }

  lemma TakeNearer(s: System, steps: seq<Step>, a: AttemptId) returns (more: seq<Step>)
    requires Init(s) && Run(s, steps) && a in After(s, steps).attempts && PastTheQueue(After(s, steps).attempts[a])
    ensures steps <= more && Run(s, more) && a in After(s, more).attempts
    ensures PastTheQueue(After(s, more).attempts[a]) || After(s, more).attempts[a].phase == Closed
    ensures Remaining(After(s, more).attempts[a].phase) < Remaining(After(s, steps).attempts[a].phase)
  {
    Always(s, steps);
    var step := Nearer(After(s, steps), a);
    ComesNearer(After(s, steps), a);
    OneMoreStep(s, steps, step);
    more := steps + [step];
  }

  lemma {:induction false} FinishFrom(s: System, steps: seq<Step>, a: AttemptId, n: nat) returns (more: seq<Step>)
    requires Init(s) && Run(s, steps) && a in After(s, steps).attempts && PastTheQueue(After(s, steps).attempts[a])
    requires Remaining(After(s, steps).attempts[a].phase) <= n
    ensures steps <= more && Run(s, more) && a in After(s, more).attempts && After(s, more).attempts[a].phase == Closed
    decreases n
  {
    more := TakeNearer(s, steps, a);
    if PastTheQueue(After(s, more).attempts[a]) { more := FinishFrom(s, more, a, n - 1); }
  }

  // Every reachable state has a continuation in which an attempt that is past
  // the queue has come to its end; its slot has then been given back once.
  lemma CanFinish(s: System, steps: seq<Step>, a: AttemptId) returns (more: seq<Step>)
    requires Init(s) && Run(s, steps) && a in After(s, steps).attempts
    requires After(s, steps).attempts[a].phase in {Reserved, Won, Live, Settled}
    ensures steps <= more && Run(s, more)
    ensures var done := After(s, more);
            && a in done.attempts && done.attempts[a].phase == Closed
            && (Gated(done, done.attempts[a].proc, done.attempts[a].mode) ==> done.releases[a] == 1)
  {
    more := FinishFrom(s, steps, a, 4);
    Always(s, more);
    assert ReleasedOnce(After(s, more), a);
  }

  // ---------------------------------------------------------------
  // Nobody waits for ever for want of a step
  // ---------------------------------------------------------------

  // `a` waits in the i-th place of its process `p`.
  ghost predicate InLine(s: System, p: ProcId, a: AttemptId, i: nat) {
    && p in s.procs && s.procs[p].queue.Some? && i < |s.procs[p].queue.value.waiting|
    && s.procs[p].queue.value.waiting[i].ticket == a
    && a in s.attempts && s.attempts[a].phase == Throttled
  }

  // A holder of a slot in `p`.
  predicate Holds(s: System, p: ProcId, b: AttemptId) {
    && b in s.attempts && s.attempts[b].proc == p && s.attempts[b].mode == Production && PastTheQueue(s.attempts[b])
  }

  // What a step of the holder `b` may do to the line of `p`.
  ghost predicate LineAfter(s: System, next: System, p: ProcId, a: AttemptId, i: nat, b: AttemptId) {
    && b in next.attempts && p in s.procs && p in next.procs && next.procs[p].cap == s.procs[p].cap
    && (if PastTheQueue(next.attempts[b]) then InLine(next, p, a, i) && Holds(next, p, b)
        else if i == 0 then a in next.attempts && next.attempts[a].phase == Reserved
        else InLine(next, p, a, i - 1))
  }

  lemma TicketsDiffer(s: System, p: ProcId, a: AttemptId, i: nat, b: AttemptId)
    requires Inv(s) && InLine(s, p, a, i) && Holds(s, p, b)
    ensures a != b && (i > 0 ==> s.procs[p].queue.value.waiting[0].ticket != a)
  {
    assert QueueOk(s, p);
  }

  // Giving the slot back moves the line up.
  lemma LineAfterRelease(s: System, closed: System, p: ProcId, a: AttemptId, i: nat, b: AttemptId)
    requires Inv(s) && InLine(s, p, a, i) && Holds(s, p, b)
    requires closed.attempts == s.attempts[b := s.attempts[b].(phase := Closed)]
    requires p in closed.procs && closed.procs[p].queue == s.procs[p].queue && closed.procs[p].cap == s.procs[p].cap
    ensures LineAfter(s, Release(closed, b), p, a, i, b)
  {
    TicketsDiffer(s, p, a, i, b);
    FirstWaiterIsThrottled(s, b);
    ReleaseEffect(closed, b);
  }

  lemma LineAfterCommit(s: System, p: ProcId, a: AttemptId, i: nat, b: AttemptId)
    requires Inv(s) && InLine(s, p, a, i) && Holds(s, p, b) && s.attempts[b].phase == Reserved
    ensures Enabled(s, Nearer(s, b)) && LineAfter(s, Next(s, Nearer(s, b)), p, a, i, b)
  {
    TicketsDiffer(s, p, a, i, b);
    if s.attempts[b].isNew {
      CommitFreshEffect(s, b, true);
    } else {
      CommitResumeEffect(s, b);
      if !IsWaiting(s, s.attempts[b].exec) {
        FailEffect(s, b, false);
        LineAfterRelease(s, s.(attempts := s.attempts[b := s.attempts[b].(phase := Closed)]), p, a, i, b);
      }
    }
  }

  lemma LineAfterRegister(s: System, p: ProcId, a: AttemptId, i: nat, b: AttemptId)
    requires Inv(s) && InLine(s, p, a, i) && Holds(s, p, b) && s.attempts[b].phase == Won
    ensures Enabled(s, Nearer(s, b)) && LineAfter(s, Next(s, Nearer(s, b)), p, a, i, b)
  {
    TicketsDiffer(s, p, a, i, b);
    RegisterEffect(s, b, 0);
  }

  lemma LineAfterEnd(s: System, p: ProcId, a: AttemptId, i: nat, b: AttemptId)
    requires Inv(s) && InLine(s, p, a, i) && Holds(s, p, b) && s.attempts[b].phase in {Live, Settled}
    ensures Enabled(s, Nearer(s, b)) && LineAfter(s, Next(s, Nearer(s, b)), p, a, i, b)
  {
    TicketsDiffer(s, p, a, i, b);
    assert IncarnationOk(s, b);
    if s.attempts[b].phase == Live {
      FinalizeEffect(s, p, s.attempts[b].exec);
    } else {
      CallbackEffect(s, b);
      LineAfterRelease(s, ClosedBy(s, b), p, a, i, b);
    }
  }

  // A holder's next step leaves the line alone, or it is its last and the line
  // moves up.
  lemma LineMovesUp(s: System, p: ProcId, a: AttemptId, i: nat, b: AttemptId)
    requires Inv(s) && InLine(s, p, a, i) && Holds(s, p, b)
    ensures Enabled(s, Nearer(s, b)) && LineAfter(s, Next(s, Nearer(s, b)), p, a, i, b)
  {
    match s.attempts[b].phase
    case Reserved => LineAfterCommit(s, p, a, i, b);
    case Won => LineAfterRegister(s, p, a, i, b);
    case _ => LineAfterEnd(s, p, a, i, b);
  }

  // Whoever waits, somebody holds a slot.
  lemma SomeHolder(s: System, p: ProcId, a: AttemptId, i: nat) returns (b: AttemptId)
    requires Inv(s) && InLine(s, p, a, i) && s.procs[p].cap > 0
    ensures Holds(s, p, b)
  {
    assert QueueOk(s, p);
    assert Slots(s, p) != {};
    b :| b in Slots(s, p);
  }

  // Who waits in `p`, in order, if its cap allows a slot at all.
  function Line(s: System, p: ProcId): seq<Waiter> {
    if p in s.procs && s.procs[p].queue.Some? && s.procs[p].cap > 0 then s.procs[p].queue.value.waiting else []
  }

  predicate Place(s: System, p: ProcId, a: AttemptId, i: nat) {
    i < |Line(s, p)| && Line(s, p)[i].ticket == a
  }

  predicate IsServed(s: System, a: AttemptId) {
    a in s.attempts && s.attempts[a].phase == Reserved
  }

  lemma PlaceIsInLine(s: System, p: ProcId, a: AttemptId, i: nat)
    requires Inv(s) && Place(s, p, a, i)
    ensures InLine(s, p, a, i) && s.procs[p].cap > 0
  {
    assert QueueOk(s, p) && Queued(s, p, Line(s, p)[i]);
  }

  // A holder's next step leaves the line alone or moves it up.
  lemma StepInLine(s: System, steps: seq<Step>, p: ProcId, a: AttemptId, i: nat, b: AttemptId) returns (more: seq<Step>)
    requires Init(s) && Run(s, steps) && Place(After(s, steps), p, a, i) && Holds(After(s, steps), p, b)
    ensures steps <= more && Run(s, more) && b in After(s, more).attempts
    ensures Remaining(After(s, more).attempts[b].phase) < Remaining(After(s, steps).attempts[b].phase)
    ensures if PastTheQueue(After(s, more).attempts[b]) then Place(After(s, more), p, a, i) && Holds(After(s, more), p, b)
            else if i == 0 then IsServed(After(s, more), a) else Place(After(s, more), p, a, i - 1)
  {
    Always(s, steps);
    var end := After(s, steps);
    PlaceIsInLine(end, p, a, i);
    ComesNearer(end, b);
    LineMovesUp(end, p, a, i, b);
    OneMoreStep(s, steps, Nearer(end, b));
    more := steps + [Nearer(end, b)];
  }

  // A holder can be finished, and everybody in its line moves up by one.
  lemma {:induction false} AdvanceFrom(s: System, steps: seq<Step>, p: ProcId, a: AttemptId, i: nat, b: AttemptId, n: nat)
    returns (more: seq<Step>)
    requires Init(s) && Run(s, steps) && Place(After(s, steps), p, a, i) && Holds(After(s, steps), p, b)
    requires Remaining(After(s, steps).attempts[b].phase) <= n
    ensures steps <= more && Run(s, more)
    ensures if i == 0 then IsServed(After(s, more), a) else Place(After(s, more), p, a, i - 1)
    decreases n
  {
    more := StepInLine(s, steps, p, a, i, b);
    if PastTheQueue(After(s, more).attempts[b]) { more := AdvanceFrom(s, more, p, a, i, b, n - 1); }
  }

  lemma OnePlaceUp(s: System, steps: seq<Step>, p: ProcId, a: AttemptId, i: nat) returns (more: seq<Step>)
    requires Init(s) && Run(s, steps) && Place(After(s, steps), p, a, i)
    ensures steps <= more && Run(s, more)
    ensures if i == 0 then IsServed(After(s, more), a) else Place(After(s, more), p, a, i - 1)
  {
    Always(s, steps);
    PlaceIsInLine(After(s, steps), p, a, i);
    var b := SomeHolder(After(s, steps), p, a, i);
    more := AdvanceFrom(s, steps, p, a, i, b, 4);
  }

  lemma {:induction false} ServeFrom(s: System, steps: seq<Step>, p: ProcId, a: AttemptId, i: nat) returns (more: seq<Step>)
    requires Init(s) && Run(s, steps) && Place(After(s, steps), p, a, i)
    ensures steps <= more && Run(s, more) && IsServed(After(s, more), a)
    decreases i
  {
    more := OnePlaceUp(s, steps, p, a, i);
    if i > 0 { more := ServeFrom(s, more, p, a, i - 1); }
  }

  // There is no deadlock in the queue: from every reachable state each call
  // that waits for a slot can get one, if the cap allows any.
  lemma CanBeServed(s: System, steps: seq<Step>, a: AttemptId) returns (more: seq<Step>)
    requires Init(s) && Run(s, steps) && a in After(s, steps).attempts && After(s, steps).attempts[a].phase == Throttled
    requires var end := After(s, steps);
             var p := end.attempts[a].proc;
             p in end.procs ==> end.procs[p].cap > 0
    ensures steps <= more && Run(s, more)
    ensures a in After(s, more).attempts && After(s, more).attempts[a].phase == Reserved
  {
    WaitersAreQueuedOnce(s, steps, a);
    var end := After(s, steps);
    var p := end.attempts[a].proc;
    var waiting := end.procs[p].queue.value.waiting;
    var i :| 0 <= i < |waiting| && waiting[i] == Waiter(end.attempts[a].exec, a);
    more := ServeFrom(s, steps, p, a, i);
  }
}
