// Several processes race to start and resume executions that share database
// rows. Each step below is one stretch of code between two awaits; writing a
// row as waiting, settling and running the callback form one step, `Park`.
module ExecutionProtocol {
  import opened Wrappers
  import opened ConcurrencyQueue
  import opened ActiveExecutions

  type ProcId = nat

  // Production modes pass the queue; evaluation runs skip the reservation and
  // the other modes reserve without a queue behind it.
  datatype Mode = Production | Ungated | Evaluation

  datatype Phase =
    | Throttled  // suspended in the queue
    | Reserved   // past the gate, row not yet claimed
    | Won        // row claimed, not yet in the table
    | Live       // in the table, promise pending
    | Settled    // promise settled, callback pending
    | Parked     // waiting, slot given back, entry kept
    | Closed     // nothing left to do
    | Stranded   // taken out of the queue, never resumed

  datatype Attempt = Attempt(proc: ProcId, exec: ExecutionId, mode: Mode, isNew: bool, phase: Phase)

  // `episode` counts how often the row was written as waiting.
  datatype Row = Row(status: Status, episode: nat)

  datatype Process = Process(table: Table, cap: nat, queue: Option<Queue>)

  datatype Win = Win(exec: ExecutionId, episode: nat)

  // `wins` logs every resuming `add` that succeeded and `releases` every slot
  // handed back; both are history only.
  datatype System = System(
    db: map<ExecutionId, Row>,
    procs: map<ProcId, Process>,
    attempts: map<AttemptId, Attempt>,
    wins: seq<Win>,
    releases: multiset<AttemptId>)

  datatype Step =
    | StartFresh(p: ProcId, a: AttemptId, x: ExecutionId, mode: Mode)
    | StartResume(p: ProcId, a: AttemptId, x: ExecutionId, mode: Mode)
    | CommitFresh(a: AttemptId, regular: bool)
    | CommitResume(a: AttemptId)
    | Fail(a: AttemptId, committed: bool)
    | Register(a: AttemptId, now: int)
    | SetStatus(p: ProcId, x: ExecutionId, status: Status)
    | Park(a: AttemptId)
    | Finalize(p: ProcId, x: ExecutionId)
    | Stop(p: ProcId, x: ExecutionId)
    | Callback(a: AttemptId)
    | CancelQueued(p: ProcId, x: ExecutionId)
    | WriteRow(x: ExecutionId, status: Status)

  // ---------------------------------------------------------------
  // Building blocks
  // ---------------------------------------------------------------

  predicate Gated(s: System, p: ProcId, mode: Mode) {
    p in s.procs && s.procs[p].queue.Some? && mode == Production
  }

  function SetPhase(s: System, a: AttemptId, phase: Phase): System
    requires a in s.attempts
  {
    s.(attempts := s.attempts[a := s.attempts[a].(phase := phase)])
  }

  function SetStatusOf(s: System, x: ExecutionId, status: Status): System {
    if x in s.db then s.(db := s.db[x := s.db[x].(status := status)]) else s
  }

  function SetTable(s: System, p: ProcId, table: Table): System
    requires p in s.procs
  {
    s.(procs := s.procs[p := s.procs[p].(table := table)])
  }

  function Wake(s: System, woken: Option<Waiter>): System {
    if woken.Some? && woken.value.ticket in s.attempts && s.attempts[woken.value.ticket].phase == Throttled
    then SetPhase(s, woken.value.ticket, Reserved)
    else s
  }

  function SetQueue(s: System, p: ProcId, moved: Moved): System
    requires p in s.procs
  {
    Wake(s.(procs := s.procs[p := s.procs[p].(queue := Some(moved.queue))]), moved.woken)
  }

  function Counted(s: System, a: AttemptId): System {
    s.(releases := s.releases[a := s.releases[a] + 1])
  }

  // Gives back the slot of `a`; nothing happens when it has none.
  function Release(s: System, a: AttemptId): System
    requires a in s.attempts
  {
    var t := s.attempts[a];
    if !Gated(s, t.proc, t.mode) then s
    else SetQueue(Counted(s, a), t.proc, Dequeue(s.procs[t.proc].queue.value))
  }

  // `add` up to the point where its reservation is granted or queued.
  function Begin(s: System, p: ProcId, a: AttemptId, x: ExecutionId, mode: Mode, isNew: bool): System
    requires p in s.procs
  {
    if Gated(s, p, mode) then
      var entered := Enqueue(s.procs[p].queue.value, Waiter(x, a));
      var phase := if entered.granted then Reserved else Throttled;
      s.(procs := s.procs[p := s.procs[p].(queue := Some(entered.queue))],
         attempts := s.attempts[a := Attempt(p, x, mode, isNew, phase)])
    else
      s.(attempts := s.attempts[a := Attempt(p, x, mode, isNew, Reserved)])
  }

  // The one conditional update: it succeeds only on a waiting row.
  predicate IsWaiting(s: System, x: ExecutionId) {
    x in s.db && s.db[x].status == Waiting
  }

  // ---------------------------------------------------------------
  // Steps
  // ---------------------------------------------------------------

  predicate InPhase(s: System, a: AttemptId, phase: Phase) {
    a in s.attempts && s.attempts[a].phase == phase && s.attempts[a].proc in s.procs
  }

  predicate Enabled(s: System, step: Step) {
    match step
    case StartFresh(p, a, x, _) => p in s.procs && a !in s.attempts && x !in s.db
    case StartResume(p, a, _, _) => p in s.procs && a !in s.attempts
    case CommitFresh(a, _) => InPhase(s, a, Reserved) && s.attempts[a].isNew
    case CommitResume(a) => InPhase(s, a, Reserved) && !s.attempts[a].isNew
    case Fail(a, _) => InPhase(s, a, Reserved)
    case Register(a, _) => InPhase(s, a, Won)
    // Statuses other than waiting; going to waiting is part of Park.
    case SetStatus(p, x, status) =>
      p in s.procs && status != Waiting && x in s.procs[p].table && s.procs[p].table[x].status != Waiting
    case Park(a) => InPhase(s, a, Live)
    case Finalize(p, _) => p in s.procs
    case Stop(p, _) => p in s.procs
    case Callback(a) => InPhase(s, a, Settled)
    case CancelQueued(p, _) => p in s.procs && s.procs[p].queue.Some?
    case WriteRow(x, status) => x in s.db && status != Waiting
  }

  // The state in which a removed waiter is stranded and the queue not yet moved on.
  function StrandedIn(s: System, p: ProcId, x: ExecutionId): System
    requires p in s.procs && s.procs[p].queue.Some?
  {
    var q := s.procs[p].queue.value;
    var i := FirstFor(q.waiting, x);
    if i < |q.waiting| && InPhase(s, q.waiting[i].ticket, Throttled)
    then SetPhase(s, q.waiting[i].ticket, Stranded) else s
  }

  // A registration first retires the parked incarnation it finds under its id.
  function Replaced(s: System, a: AttemptId): System
    requires InPhase(s, a, Won)
  {
    var t := s.attempts[a];
    var table := s.procs[t.proc].table;
    if t.exec in table && InPhase(s, table[t.exec].attempt, Parked)
    then SetPhase(s, table[t.exec].attempt, Closed) else s
  }

  // What `Park` has done before it gives the slot back.
  function ParkedAs(s: System, a: AttemptId): System
    requires InPhase(s, a, Live)
  {
    var t := s.attempts[a];
    var written := if t.exec in s.db
                   then s.(db := s.db[t.exec := Row(Waiting, s.db[t.exec].episode + 1)]) else s;
    var tabled := SetTable(written, t.proc, WithStatus(s.procs[t.proc].table, t.exec, Waiting));
    SetPhase(tabled, a, Parked)
  }

  function AfterCommitFresh(s: System, a: AttemptId, regular: bool): System
    requires InPhase(s, a, Reserved)
  {
    SetPhase(if regular then SetStatusOf(s, s.attempts[a].exec, Running) else s, a, Won)
  }

  function AfterWin(s: System, a: AttemptId): System
    requires InPhase(s, a, Reserved) && IsWaiting(s, s.attempts[a].exec)
  {
    var x := s.attempts[a].exec;
    SetPhase(SetStatusOf(s, x, Running).(wins := s.wins + [Win(x, s.db[x].episode)]), a, Won)
  }

  // Giving up before registering; the row may have been written all the same.
  function AfterFail(s: System, a: AttemptId, committed: bool): System
    requires InPhase(s, a, Reserved)
  {
    var t := s.attempts[a];
    var written := if committed && (t.isNew || IsWaiting(s, t.exec)) then SetStatusOf(s, t.exec, Running) else s;
    Release(SetPhase(written, a, Closed), a)
  }

  function AfterRegister(s: System, a: AttemptId, now: int): System
    requires InPhase(s, a, Won)
  {
    var t := s.attempts[a];
    SetTable(SetPhase(Replaced(s, a), a, Live), t.proc, Registered(s.procs[t.proc].table, t.exec, a, now))
  }

  function AfterPark(s: System, a: AttemptId): System
    requires InPhase(s, a, Live)
  {
    Release(ParkedAs(s, a), a)
  }

  function AfterFinalize(s: System, p: ProcId, x: ExecutionId): System
    requires p in s.procs
  {
    var table := s.procs[p].table;
    if x in table && InPhase(s, table[x].attempt, Live) then SetPhase(s, table[x].attempt, Settled) else s
  }

  function AfterStop(s: System, p: ProcId, x: ExecutionId): System
    requires p in s.procs
  {
    var table := s.procs[p].table;
    if x !in table then s
    else if table[x].status == Waiting then
      var closed := if table[x].attempt in s.attempts then SetPhase(s, table[x].attempt, Closed) else s;
      SetTable(closed, p, Stopped(table, x))
    else if InPhase(s, table[x].attempt, Live) then SetPhase(s, table[x].attempt, Settled)
    else s
  }

  // The callback before it gives the slot back.
  function Removed(s: System, a: AttemptId): System
    requires InPhase(s, a, Settled)
  {
    var t := s.attempts[a];
    SetTable(SetPhase(s, a, Closed), t.proc, CalledBack(s.procs[t.proc].table, t.exec, Running))
  }

  function AfterCallback(s: System, a: AttemptId): System
    requires InPhase(s, a, Settled)
  {
    Release(Removed(s, a), a)
  }

  function AfterCancel(s: System, p: ProcId, x: ExecutionId): System
    requires p in s.procs && s.procs[p].queue.Some?
  {
    SetQueue(StrandedIn(s, p, x), p, Remove(s.procs[p].queue.value, x))
  }

  function Next(s: System, step: Step): System
    requires Enabled(s, step)
  {
    match step
    case StartFresh(p, a, x, mode) => Begin(s.(db := s.db[x := Row(New, 0)]), p, a, x, mode, true)
    case StartResume(p, a, x, mode) => Begin(s, p, a, x, mode, false)
    case CommitFresh(a, regular) => AfterCommitFresh(s, a, regular)
    case CommitResume(a) => if IsWaiting(s, s.attempts[a].exec) then AfterWin(s, a) else AfterFail(s, a, false)
    case Fail(a, committed) => AfterFail(s, a, committed)
    case Register(a, now) => AfterRegister(s, a, now)
    case SetStatus(p, x, status) => SetTable(s, p, WithStatus(s.procs[p].table, x, status))
    case Park(a) => AfterPark(s, a)
    case Finalize(p, x) => AfterFinalize(s, p, x)
    case Stop(p, x) => AfterStop(s, p, x)
    case Callback(a) => AfterCallback(s, a)
    case CancelQueued(p, x) => AfterCancel(s, p, x)
    case WriteRow(x, status) => SetStatusOf(s, x, status)
  }

  ghost predicate Init(s: System) {
    && s.attempts == map[] && s.wins == [] && s.releases == multiset{}
    && (forall p :: p in s.procs ==> s.procs[p].table == map[])
    && (forall p :: p in s.procs && s.procs[p].queue.Some? ==>
          s.procs[p].queue == Some(Queue(s.procs[p].cap, [])))
  }

  // `steps` can be taken one after the other from `s`.
  ghost predicate Run(s: System, steps: seq<Step>)
    decreases |steps|, 0
  {
    steps == [] || (Run(s, steps[..|steps| - 1]) && Enabled(After(s, steps[..|steps| - 1]), steps[|steps| - 1]))
  }

  ghost function After(s: System, steps: seq<Step>): System
    requires Run(s, steps)
    decreases |steps|, 1
  {
    if steps == [] then s else Next(After(s, steps[..|steps| - 1]), steps[|steps| - 1])
  }

  // ---------------------------------------------------------------
  // Who may act on a row
  // ---------------------------------------------------------------

  predicate Busy(t: Attempt) {
    t.phase == Won || t.phase == Live || t.phase == Settled
  }

  // An attempt owns its execution from creating or claiming the row until its
  // callback has run.
  predicate Owner(t: Attempt) {
    Busy(t) || (t.isNew && (t.phase == Throttled || t.phase == Reserved))
  }

  ghost predicate OwnersInv(s: System) {
    && (forall a :: a in s.attempts && (s.attempts[a].isNew || Busy(s.attempts[a])) ==> s.attempts[a].exec in s.db)
    && (forall a :: a in s.attempts && Owner(s.attempts[a]) ==> !IsWaiting(s, s.attempts[a].exec))
    && (forall a, b | a in s.attempts && b in s.attempts && a != b ::
          Owner(s.attempts[a]) && Owner(s.attempts[b]) ==> s.attempts[a].exec != s.attempts[b].exec)
  }

  // `s'` has the rows, episodes and wins of `s`, and no owner or waiting status
  // that `s` lacks.
  ghost predicate Shrinks(s: System, s': System) {
    && s'.wins == s.wins && s.db.Keys == s'.db.Keys
    && (forall x :: x in s.db ==> s'.db[x].episode == s.db[x].episode)
    && (forall x :: IsWaiting(s', x) ==> IsWaiting(s, x))
    && (forall a :: a in s'.attempts && (s'.attempts[a].isNew || Busy(s'.attempts[a])) ==>
          && a in s.attempts
          && s.attempts[a].exec == s'.attempts[a].exec
          && (s.attempts[a].isNew || Busy(s.attempts[a]))
          && (Owner(s'.attempts[a]) ==> Owner(s.attempts[a])))
  }

  lemma ShrinkingKeepsOwners(s: System, s': System)
    requires OwnersInv(s) && Shrinks(s, s')
    ensures OwnersInv(s')
  {
  }

  lemma SetPhaseShrinks(s: System, a: AttemptId, phase: Phase)
    requires a in s.attempts
    requires var t := s.attempts[a].(phase := phase);
             (Owner(t) ==> Owner(s.attempts[a])) && (Busy(t) ==> s.attempts[a].isNew || Busy(s.attempts[a]))
    ensures Shrinks(s, SetPhase(s, a, phase))
  {
  }

  lemma QueueShrinks(s: System, p: ProcId, moved: Moved)
    requires p in s.procs
    ensures Shrinks(s, SetQueue(s, p, moved))
  {
  }

  lemma ReleaseShrinks(s: System, a: AttemptId)
    requires a in s.attempts
    ensures Shrinks(s, Release(s, a))
  {
    var t := s.attempts[a];
    if Gated(s, t.proc, t.mode) {
      QueueShrinks(Counted(s, a), t.proc, Dequeue(s.procs[t.proc].queue.value));
    }
  }

  lemma ShrinksTransitive(s0: System, s1: System, s2: System)
    requires Shrinks(s0, s1) && Shrinks(s1, s2)
    ensures Shrinks(s0, s2)
  {
  }

  lemma StatusShrinks(s: System, x: ExecutionId, status: Status)
    requires status != Waiting
    ensures Shrinks(s, SetStatusOf(s, x, status))
  {
  }

  // Closing an attempt, whatever else happened to rows and tables before.
  lemma ClosingShrinks(s: System, s': System, a: AttemptId)
    requires a in s'.attempts && Shrinks(s, s')
    ensures Shrinks(s, Release(SetPhase(s', a, Closed), a))
  {
    SetPhaseShrinks(s', a, Closed);
    ReleaseShrinks(SetPhase(s', a, Closed), a);
    ShrinksTransitive(s', SetPhase(s', a, Closed), Release(SetPhase(s', a, Closed), a));
    ShrinksTransitive(s, s', Release(SetPhase(s', a, Closed), a));
  }

  // The steps that make somebody an owner or a row waiting.
  predicate Claims(s: System, step: Step) {
    || step.StartFresh?
    || step.Park?
    || (step.CommitResume? && step.a in s.attempts && IsWaiting(s, s.attempts[step.a].exec))
  }

  lemma FailShrinks(s: System, a: AttemptId, committed: bool)
    requires InPhase(s, a, Reserved)
    ensures Shrinks(s, AfterFail(s, a, committed))
  {
    var t := s.attempts[a];
    StatusShrinks(s, t.exec, Running);
    ClosingShrinks(s, if committed && (t.isNew || IsWaiting(s, t.exec)) then SetStatusOf(s, t.exec, Running) else s, a);
  }

  lemma RegisterShrinks(s: System, a: AttemptId, now: int)
    requires InPhase(s, a, Won)
    ensures Shrinks(s, AfterRegister(s, a, now))
  {
  }

  lemma FinalizeShrinks(s: System, p: ProcId, x: ExecutionId)
    requires p in s.procs
    ensures Shrinks(s, AfterFinalize(s, p, x))
  {
  }

  lemma StopShrinks(s: System, p: ProcId, x: ExecutionId)
    requires p in s.procs
    ensures Shrinks(s, AfterStop(s, p, x))
  {
  }

  lemma CallbackShrinks(s: System, a: AttemptId)
    requires InPhase(s, a, Settled)
    ensures Shrinks(s, AfterCallback(s, a))
  {
    assert Shrinks(s, Removed(s, a));
    ReleaseShrinks(Removed(s, a), a);
    ShrinksTransitive(s, Removed(s, a), AfterCallback(s, a));
  }

  lemma CancelShrinks(s: System, p: ProcId, x: ExecutionId)
    requires p in s.procs && s.procs[p].queue.Some?
    ensures Shrinks(s, AfterCancel(s, p, x))
  {
    var q, left := s.procs[p].queue.value, StrandedIn(s, p, x);
    assert Shrinks(s, left);
    QueueShrinks(left, p, Remove(q, x));
    ShrinksTransitive(s, left, AfterCancel(s, p, x));
  }

  lemma OtherStepsShrink(s: System, step: Step)
    requires Enabled(s, step) && !Claims(s, step)
    ensures Shrinks(s, Next(s, step))
  {
    match step
    case StartResume(p, a, x, mode) =>
    case CommitFresh(a, regular) =>
    case CommitResume(a) => FailShrinks(s, a, false);
    case Fail(a, committed) => FailShrinks(s, a, committed);
    case Register(a, now) => RegisterShrinks(s, a, now);
    case SetStatus(p, x, status) =>
    case Finalize(p, x) => FinalizeShrinks(s, p, x);
    case Stop(p, x) => StopShrinks(s, p, x);
    case Callback(a) => CallbackShrinks(s, a);
    case CancelQueued(p, x) => CancelShrinks(s, p, x);
    case WriteRow(x, status) => StatusShrinks(s, x, status);
  }

  lemma StartFreshKeepsOwners(s: System, p: ProcId, a: AttemptId, x: ExecutionId, mode: Mode)
    requires OwnersInv(s) && Enabled(s, StartFresh(p, a, x, mode))
    ensures OwnersInv(Next(s, StartFresh(p, a, x, mode)))
  {
  }

  lemma WinningKeepsOwners(s: System, a: AttemptId)
    requires OwnersInv(s) && InPhase(s, a, Reserved) && IsWaiting(s, s.attempts[a].exec)
    ensures OwnersInv(AfterWin(s, a))
  {
  }

  lemma RowWritten(s: System, s': System, x: ExecutionId, row: Row)
    requires OwnersInv(s) && s'.attempts == s.attempts && s'.db == s.db[x := row]
    requires forall a :: a in s.attempts && Owner(s.attempts[a]) ==> s.attempts[a].exec != x
    ensures OwnersInv(s')
  {
  }

  lemma ParkKeepsOwners(s: System, a: AttemptId)
    requires OwnersInv(s) && InPhase(s, a, Live)
    ensures OwnersInv(AfterPark(s, a))
  {
    var x := s.attempts[a].exec;
    SetPhaseShrinks(s, a, Parked);
    ShrinkingKeepsOwners(s, SetPhase(s, a, Parked));
    RowWritten(SetPhase(s, a, Parked), ParkedAs(s, a), x, Row(Waiting, s.db[x].episode + 1));
    ReleaseShrinks(ParkedAs(s, a), a);
    ShrinkingKeepsOwners(ParkedAs(s, a), Release(ParkedAs(s, a), a));
  }

  lemma OwnersStep(s: System, step: Step)
    requires OwnersInv(s) && Enabled(s, step)
    ensures OwnersInv(Next(s, step))
  {
    if !Claims(s, step) {
      OtherStepsShrink(s, step);
      ShrinkingKeepsOwners(s, Next(s, step));
    } else if step.StartFresh? {
      StartFreshKeepsOwners(s, step.p, step.a, step.x, step.mode);
    } else if step.Park? {
      ParkKeepsOwners(s, step.a);
    } else {
      WinningKeepsOwners(s, step.a);
    }
  }

  // ---------------------------------------------------------------
  // Every waiting episode is won at most once
  // ---------------------------------------------------------------

  ghost predicate WinsInv(s: System) {
    && (forall w :: w in s.wins ==>
          && w.exec in s.db
          && w.episode <= s.db[w.exec].episode
          && (IsWaiting(s, w.exec) ==> w.episode < s.db[w.exec].episode))
    && (forall i, j :: 0 <= i < j < |s.wins| ==> s.wins[i] != s.wins[j])
  }

  lemma ShrinkingKeepsWins(s: System, s': System)
    requires WinsInv(s) && Shrinks(s, s')
    ensures WinsInv(s')
  {
  }

  // The winner's episode is newer than every logged one, so the log stays free
  // of repetitions.
  lemma WinningKeepsWins(s: System, a: AttemptId)
    requires WinsInv(s) && InPhase(s, a, Reserved) && IsWaiting(s, s.attempts[a].exec)
    ensures WinsInv(AfterWin(s, a))
  {
    var x := s.attempts[a].exec;
    var s' := AfterWin(s, a);
    assert s'.wins == s.wins + [Win(x, s.db[x].episode)] && s'.db == s.db[x := s.db[x].(status := Running)];
    forall w | w in s'.wins
      ensures w.exec in s'.db && w.episode <= s'.db[w.exec].episode
      ensures IsWaiting(s', w.exec) ==> w.episode < s'.db[w.exec].episode
    {
      if w !in s.wins { assert w == Win(x, s.db[x].episode); }
    }
  }

  lemma WinsStep(s: System, step: Step)
    requires OwnersInv(s) && WinsInv(s) && Enabled(s, step)
    ensures WinsInv(Next(s, step))
  {
    if !Claims(s, step) {
      OtherStepsShrink(s, step);
      ShrinkingKeepsWins(s, Next(s, step));
    } else if step.CommitResume? {
      WinningKeepsWins(s, step.a);
    } else if step.Park? {
      ParkKeepsWins(s, step.a);
    } else {
      var s' := Next(s, step);
      assert s'.wins == s.wins && s'.db == s.db[step.x := Row(New, 0)];
    }
  }

  lemma ParkKeepsWins(s: System, a: AttemptId)
    requires OwnersInv(s) && WinsInv(s) && InPhase(s, a, Live)
    ensures WinsInv(AfterPark(s, a))
  {
    var x := s.attempts[a].exec;
    var parked := ParkedAs(s, a);
    assert parked.wins == s.wins && parked.db == s.db[x := Row(Waiting, s.db[x].episode + 1)];
    ReleaseShrinks(parked, a);
    ShrinkingKeepsWins(parked, AfterPark(s, a));
  }

  // ---------------------------------------------------------------
  // The table against the incarnations
  // ---------------------------------------------------------------

  predicate Tabled(t: Attempt) {
    t.phase == Live || t.phase == Settled || t.phase == Parked
  }

  ghost predicate EntryOk(s: System, p: ProcId, x: ExecutionId)
    requires p in s.procs && x in s.procs[p].table
  {
    var e := s.procs[p].table[x];
    && e.attempt in s.attempts
    && s.attempts[e.attempt].proc == p
    && s.attempts[e.attempt].exec == x
    && Tabled(s.attempts[e.attempt])
    && (e.status == Waiting <==> s.attempts[e.attempt].phase == Parked)
  }

  ghost predicate IncarnationOk(s: System, a: AttemptId)
    requires a in s.attempts
  {
    var t := s.attempts[a];
    && t.proc in s.procs
    && (Tabled(t) ==> t.exec in s.procs[t.proc].table && s.procs[t.proc].table[t.exec].attempt == a)
  }

  // An id is in a table exactly when one of its incarnations there is pending,
  // settled with its callback still to run, or parked as waiting.
  ghost predicate TableInv(s: System) {
    && (forall p, x :: p in s.procs && x in s.procs[p].table ==> EntryOk(s, p, x))
    && (forall a :: a in s.attempts ==> IncarnationOk(s, a))
  }

  // Same tables, and the same incarnations behind them.
  ghost predicate SameTables(s: System, s': System) {
    && s'.procs.Keys == s.procs.Keys
    && (forall p :: p in s.procs ==> s'.procs[p].table == s.procs[p].table)
    && (forall a :: a in s'.attempts ==> s'.attempts[a].proc in s'.procs)
    && (forall a :: a in s.attempts && Tabled(s.attempts[a]) ==> a in s'.attempts && s'.attempts[a] == s.attempts[a])
    && (forall a :: a in s'.attempts && Tabled(s'.attempts[a]) ==> a in s.attempts && Tabled(s.attempts[a]))
  }

  lemma SameTablesKeep(s: System, s': System)
    requires TableInv(s) && SameTables(s, s')
    ensures TableInv(s')
  {
    forall p, x | p in s'.procs && x in s'.procs[p].table ensures EntryOk(s', p, x) { assert EntryOk(s, p, x); }
    forall a | a in s'.attempts ensures IncarnationOk(s', a) {
      if a in s.attempts { assert IncarnationOk(s, a); }
    }
  }

  lemma QueueKeepsTables(s: System, p: ProcId, moved: Moved)
    requires TableInv(s) && p in s.procs
    ensures TableInv(SetQueue(s, p, moved))
  {
    SameTablesKeep(s, SetQueue(s, p, moved));
  }

  lemma ReleaseKeepsTables(s: System, a: AttemptId)
    requires TableInv(s) && a in s.attempts
    ensures TableInv(Release(s, a))
  {
    var t := s.attempts[a];
    if Gated(s, t.proc, t.mode) {
      SameTablesKeep(s, Counted(s, a));
      QueueKeepsTables(Counted(s, a), t.proc, Dequeue(s.procs[t.proc].queue.value));
    }
  }

  lemma ClosingKeepsTables(s: System, s': System, a: AttemptId)
    requires TableInv(s) && a in s.attempts && !Tabled(s.attempts[a])
    requires s'.attempts == s.attempts && s'.procs == s.procs
    ensures TableInv(Release(SetPhase(s', a, Closed), a))
  {
    SameTablesKeep(s, SetPhase(s', a, Closed));
    ReleaseKeepsTables(SetPhase(s', a, Closed), a);
  }

  // Nobody else has a pending incarnation, so the entry found is parked.
  lemma RegisterFindsParked(s: System, a: AttemptId)
    requires OwnersInv(s) && TableInv(s) && InPhase(s, a, Won)
    ensures var t := s.attempts[a];
            var table := s.procs[t.proc].table;
            t.exec in table ==> InPhase(s, table[t.exec].attempt, Parked) && table[t.exec].attempt != a
  {
    var t := s.attempts[a];
    var table := s.procs[t.proc].table;
    if t.exec in table && !InPhase(s, table[t.exec].attempt, Parked) {
      assert Owner(s.attempts[table[t.exec].attempt]) && Owner(t);
    }
  }

  lemma RegisterKeepsIncarnations(s: System, a: AttemptId, now: int, b: AttemptId)
    requires OwnersInv(s) && TableInv(s) && InPhase(s, a, Won) && b in AfterRegister(s, a, now).attempts
    ensures IncarnationOk(AfterRegister(s, a, now), b)
  {
    RegisterFindsParked(s, a);
    assert IncarnationOk(s, b);
  }

  lemma RegisterKeepsTables(s: System, a: AttemptId, now: int)
    requires OwnersInv(s) && TableInv(s) && InPhase(s, a, Won)
    ensures TableInv(AfterRegister(s, a, now))
  {
    RegisterFindsParked(s, a);
    var t := s.attempts[a];
    var s' := AfterRegister(s, a, now);
    forall p, x | p in s'.procs && x in s'.procs[p].table ensures EntryOk(s', p, x) {
      if p != t.proc || x != t.exec { assert EntryOk(s, p, x); }
    }
    forall b | b in s'.attempts ensures IncarnationOk(s', b) { RegisterKeepsIncarnations(s, a, now, b); }
  }

  lemma ParkKeepsTables(s: System, a: AttemptId)
    requires TableInv(s) && InPhase(s, a, Live)
    ensures TableInv(AfterPark(s, a))
  {
    var t := s.attempts[a];
    var s' := ParkedAs(s, a);
    assert IncarnationOk(s, a);
    forall p, x | p in s'.procs && x in s'.procs[p].table ensures EntryOk(s', p, x) { assert EntryOk(s, p, x); }
    forall b | b in s'.attempts ensures IncarnationOk(s', b) { assert IncarnationOk(s, b); }
    ReleaseKeepsTables(ParkedAs(s, a), a);
  }

  // The callback deletes by id, and what it deletes is its own incarnation.
  lemma CallbackRemovesItsOwn(s: System, a: AttemptId)
    requires TableInv(s) && InPhase(s, a, Settled)
    ensures var t := s.attempts[a];
            && t.exec in s.procs[t.proc].table
            && s.procs[t.proc].table[t.exec].attempt == a
            && s.procs[t.proc].table[t.exec].status != Waiting
  {
    assert IncarnationOk(s, a) && EntryOk(s, s.attempts[a].proc, s.attempts[a].exec);
  }

  lemma CallbackKeepsTables(s: System, a: AttemptId)
    requires TableInv(s) && InPhase(s, a, Settled)
    ensures TableInv(AfterCallback(s, a))
  {
    CallbackRemovesItsOwn(s, a);
    var removed := Removed(s, a);
    forall p, x | p in removed.procs && x in removed.procs[p].table ensures EntryOk(removed, p, x) {
      assert EntryOk(s, p, x);
    }
    forall b | b in removed.attempts ensures IncarnationOk(removed, b) { assert IncarnationOk(s, b); }
    ReleaseKeepsTables(removed, a);
  }

  lemma CancelKeepsTables(s: System, p: ProcId, x: ExecutionId)
    requires TableInv(s) && p in s.procs && s.procs[p].queue.Some?
    ensures TableInv(AfterCancel(s, p, x))
  {
    var q, left := s.procs[p].queue.value, StrandedIn(s, p, x);
    SameTablesKeep(s, left);
    QueueKeepsTables(left, p, Remove(q, x));
  }

  // The table part of a system that only gained an attempt not yet tabled.
  lemma BeginShape(s: System, p: ProcId, a: AttemptId, x: ExecutionId, mode: Mode, isNew: bool)
    requires p in s.procs
    ensures var s' := Begin(s, p, a, x, mode, isNew);
            && a in s'.attempts && s'.attempts == s.attempts[a := s'.attempts[a]]
            && s'.attempts[a].proc == p && !Tabled(s'.attempts[a])
            && s'.procs.Keys == s.procs.Keys
            && forall r :: r in s.procs ==> s'.procs[r].table == s.procs[r].table
  {
  }

  lemma BeginKeepsTables(s: System, p: ProcId, a: AttemptId, x: ExecutionId, mode: Mode, isNew: bool)
    requires TableInv(s) && p in s.procs && a !in s.attempts
    ensures TableInv(Begin(s, p, a, x, mode, isNew))
  {
    var s' := Begin(s, p, a, x, mode, isNew);
    BeginShape(s, p, a, x, mode, isNew);
    forall b | b in s'.attempts ensures s'.attempts[b].proc in s'.procs {
      if b != a { assert IncarnationOk(s, b); }
    }
    SameTablesKeep(s, s');
  }

  lemma StopKeepsTables(s: System, p: ProcId, x: ExecutionId)
    requires TableInv(s) && p in s.procs
    ensures TableInv(AfterStop(s, p, x))
  {
    var s' := AfterStop(s, p, x);
    forall r, y | r in s'.procs && y in s'.procs[r].table ensures EntryOk(s', r, y) {
      assert EntryOk(s, r, y);
      if x in s.procs[p].table { assert EntryOk(s, p, x); }
    }
    forall b | b in s'.attempts ensures IncarnationOk(s', b) {
      assert IncarnationOk(s, b);
      if x in s.procs[p].table { assert EntryOk(s, p, x); }
    }
  }

  lemma SetStatusKeepsTables(s: System, p: ProcId, x: ExecutionId, status: Status)
    requires TableInv(s) && Enabled(s, SetStatus(p, x, status))
    ensures TableInv(SetTable(s, p, WithStatus(s.procs[p].table, x, status)))
  {
    var s' := SetTable(s, p, WithStatus(s.procs[p].table, x, status));
    forall r, y | r in s'.procs && y in s'.procs[r].table ensures EntryOk(s', r, y) { assert EntryOk(s, r, y); }
    forall b | b in s'.attempts ensures IncarnationOk(s', b) { assert IncarnationOk(s, b); }
  }

  lemma FinalizeKeepsTables(s: System, p: ProcId, x: ExecutionId)
    requires TableInv(s) && p in s.procs
    ensures TableInv(AfterFinalize(s, p, x))
  {
    var s' := AfterFinalize(s, p, x);
    forall r, y | r in s'.procs && y in s'.procs[r].table ensures EntryOk(s', r, y) { assert EntryOk(s, r, y); }
    forall b | b in s'.attempts ensures IncarnationOk(s', b) { assert IncarnationOk(s, b); }
  }

  lemma FailKeepsTables(s: System, a: AttemptId, committed: bool)
    requires TableInv(s) && InPhase(s, a, Reserved)
    ensures TableInv(AfterFail(s, a, committed))
  {
    var t := s.attempts[a];
    ClosingKeepsTables(s,
      if committed && (t.isNew || IsWaiting(s, t.exec)) then SetStatusOf(s, t.exec, Running) else s, a);
  }

  lemma CreateKeepsTables(s: System, p: ProcId, a: AttemptId, x: ExecutionId, mode: Mode)
    requires TableInv(s) && p in s.procs && a !in s.attempts
    ensures TableInv(Begin(s.(db := s.db[x := Row(New, 0)]), p, a, x, mode, true))
  {
    SameTablesKeep(s, s.(db := s.db[x := Row(New, 0)]));
    BeginKeepsTables(s.(db := s.db[x := Row(New, 0)]), p, a, x, mode, true);
  }

  lemma CommitKeepsTables(s: System, a: AttemptId, regular: bool)
    requires TableInv(s) && InPhase(s, a, Reserved)
    ensures TableInv(AfterCommitFresh(s, a, regular))
    ensures IsWaiting(s, s.attempts[a].exec) ==> TableInv(AfterWin(s, a))
  {
    SameTablesKeep(s, AfterCommitFresh(s, a, regular));
    if IsWaiting(s, s.attempts[a].exec) { SameTablesKeep(s, AfterWin(s, a)); }
  }

  lemma TableStep(s: System, step: Step)
    requires OwnersInv(s) && TableInv(s) && Enabled(s, step)
    ensures TableInv(Next(s, step))
  {
    match step
    case StartFresh(p, a, x, mode) => CreateKeepsTables(s, p, a, x, mode);
    case StartResume(p, a, x, mode) => BeginKeepsTables(s, p, a, x, mode, false);
    case CommitFresh(a, regular) => CommitKeepsTables(s, a, regular);
    case CommitResume(a) =>
      if IsWaiting(s, s.attempts[a].exec) { CommitKeepsTables(s, a, true); } else { FailKeepsTables(s, a, false); }
    case Fail(a, committed) => FailKeepsTables(s, a, committed);
    case Register(a, now) => RegisterKeepsTables(s, a, now);
    case SetStatus(p, x, status) => SetStatusKeepsTables(s, p, x, status);
    case Park(a) => ParkKeepsTables(s, a);
    case Finalize(p, x) => FinalizeKeepsTables(s, p, x);
    case Stop(p, x) => StopKeepsTables(s, p, x);
    case Callback(a) => CallbackKeepsTables(s, a);
    case CancelQueued(p, x) => CancelKeepsTables(s, p, x);
    case WriteRow(x, status) => SameTablesKeep(s, SetStatusOf(s, x, status));
  }

  // ---------------------------------------------------------------
  // Capacity
  // ---------------------------------------------------------------

  predicate Holding(t: Attempt) {
    t.mode == Production && (t.phase == Reserved || Busy(t))
  }

  // The attempts of process `p` that have reserved and not yet given back.
  ghost function Slots(s: System, p: ProcId): set<AttemptId> {
    set a | a in s.attempts && s.attempts[a].proc == p && Holding(s.attempts[a])
  }

  predicate Done(t: Attempt) {
    t.phase == Parked || t.phase == Closed
  }

  ghost predicate Queued(s: System, p: ProcId, w: Waiter) {
    && w.ticket in s.attempts
    && s.attempts[w.ticket].proc == p
    && s.attempts[w.ticket].exec == w.executionId
    && s.attempts[w.ticket].phase == Throttled
    && s.attempts[w.ticket].mode == Production
  }

  ghost predicate QueueOk(s: System, p: ProcId)
    requires p in s.procs && s.procs[p].queue.Some?
  {
    var q := s.procs[p].queue.value;
    && Accounts(q, s.procs[p].cap, |Slots(s, p)|)
    && (forall w :: w in q.waiting ==> Queued(s, p, w))
    && (forall i, j :: 0 <= i < j < |q.waiting| ==> q.waiting[i].ticket != q.waiting[j].ticket)
  }

  ghost predicate QueueInv(s: System) {
    && (forall p :: p in s.procs && s.procs[p].queue.Some? ==> QueueOk(s, p))
    && (forall a :: ReleasedOnce(s, a))
  }

  // A finished or parked holder has given its slot back once, nobody else has.
  ghost predicate ReleasedOnce(s: System, a: AttemptId) {
    s.releases[a] ==
      if a in s.attempts && Gated(s, s.attempts[a].proc, s.attempts[a].mode) && Done(s.attempts[a]) then 1 else 0
  }

  ghost predicate WithinCap(s: System, p: ProcId)
    requires p in s.procs
  {
    s.procs[p].queue.Some? ==> |Slots(s, p)| <= s.procs[p].cap
  }

  // No process goes over its cap between `s` and `s'`.
  ghost predicate CapsKept(s: System, s': System) {
    s'.procs.Keys == s.procs.Keys && forall p :: p in s.procs && WithinCap(s, p) ==> WithinCap(s', p)
  }

  // Same queues, and no attempt passes a boundary that matters to them.
  ghost predicate SameQueues(s: System, s': System) {
    && s'.procs.Keys == s.procs.Keys && s'.releases == s.releases && s'.attempts.Keys == s.attempts.Keys
    && (forall p :: p in s.procs ==> s'.procs[p].queue == s.procs[p].queue && s'.procs[p].cap == s.procs[p].cap)
    && (forall a :: a in s.attempts ==>
          var t, t' := s.attempts[a], s'.attempts[a];
          && t'.proc == t.proc && t'.exec == t.exec && t'.mode == t.mode
          && Holding(t') == Holding(t) && Done(t') == Done(t) && (t'.phase == Throttled <==> t.phase == Throttled))
  }

  lemma SameQueuesKeep(s: System, s': System)
    requires QueueInv(s) && SameQueues(s, s')
    ensures QueueInv(s') && CapsKept(s, s')
  {
    forall p | p in s.procs ensures Slots(s', p) == Slots(s, p) { }
    forall p | p in s.procs && s.procs[p].queue.Some? ensures QueueOk(s', p) {
      assert QueueOk(s, p);
      assert Slots(s', p) == Slots(s, p);
      forall w | w in s.procs[p].queue.value.waiting ensures Queued(s', p, w) { assert Queued(s, p, w); }
    }
    forall a ensures ReleasedOnce(s', a) { assert ReleasedOnce(s, a); }
  }

  // Between closing a holder and handing its slot on, one slot is in transit.
  ghost predicate InTransit(s: System, s': System, a: AttemptId) {
    && a in s.attempts && (s.attempts[a].phase == Reserved || Busy(s.attempts[a]))
    && s'.procs.Keys == s.procs.Keys && s'.releases == s.releases && s'.attempts.Keys == s.attempts.Keys
    && (forall p :: p in s.procs ==> s'.procs[p].queue == s.procs[p].queue && s'.procs[p].cap == s.procs[p].cap)
    && (forall b :: b in s.attempts && b != a ==> s'.attempts[b] == s.attempts[b])
    && Done(s'.attempts[a]) && s'.attempts[a].(phase := s.attempts[a].phase) == s.attempts[a]
  }

  // Waking the first waiter turns it into a holder.
  lemma WakeCounts(s: System, p: ProcId, q: Queue)
    requires p in s.procs
    requires forall w :: w in q.waiting ==> Queued(s, p, w)
    requires forall i, j :: 0 <= i < j < |q.waiting| ==> q.waiting[i].ticket != q.waiting[j].ticket
    ensures var moved := ResolveNext(q);
            var s' := SetQueue(s, p, moved);
            && |Slots(s', p)| == |Slots(s, p)| + (if moved.woken.Some? then 1 else 0)
            && (forall w :: w in moved.queue.waiting ==> Queued(s', p, w))
            && (forall i, j :: 0 <= i < j < |moved.queue.waiting| ==>
                  moved.queue.waiting[i].ticket != moved.queue.waiting[j].ticket)
            && s'.procs[p].queue == Some(moved.queue) && s'.procs[p].cap == s.procs[p].cap
  {
    var moved := ResolveNext(q);
    var s' := SetQueue(s, p, moved);
    if q.waiting != [] {
      var w := q.waiting[0];
      assert Queued(s, p, w);
      assert Slots(s', p) == Slots(s, p) + {w.ticket};
      forall v | v in moved.queue.waiting ensures Queued(s', p, v) {
        var k :| 0 <= k < |moved.queue.waiting| && moved.queue.waiting[k] == v;
        assert v == q.waiting[k + 1] && Queued(s, p, v);
      }
    } else {
      assert Slots(s', p) == Slots(s, p);
    }
  }

  // Nothing changes for the other processes.
  lemma WakeElsewhere(s: System, p: ProcId, q: Queue, r: ProcId)
    requires p in s.procs && r in s.procs && r != p && s.procs[r].queue.Some? && QueueOk(s, r)
    requires forall w :: w in q.waiting ==> Queued(s, p, w)
    ensures QueueOk(SetQueue(s, p, ResolveNext(q)), r)
    ensures Slots(SetQueue(s, p, ResolveNext(q)), r) == Slots(s, r)
  {
    var s' := SetQueue(s, p, ResolveNext(q));
    if q.waiting != [] { assert Queued(s, p, q.waiting[0]); }
    assert Slots(s', r) == Slots(s, r);
    forall w | w in s.procs[r].queue.value.waiting ensures Queued(s', r, w) { assert Queued(s, r, w); }
  }

  lemma WakeKeepsReleases(s: System, p: ProcId, moved: Moved)
    requires p in s.procs && s.procs[p].queue.Some?
    ensures var s' := SetQueue(s, p, moved);
            && s'.releases == s.releases && s'.attempts.Keys == s.attempts.Keys
            && (forall r :: r in s.procs ==> s'.procs[r].cap == s.procs[r].cap)
            && (forall r, m :: Gated(s', r, m) == Gated(s, r, m))
            && (forall a :: a in s.attempts ==> SameButWoken(s.attempts[a], s'.attempts[a]))
  {
  }

  predicate SameButWoken(t: Attempt, t': Attempt) {
    t' == t || (t.phase == Throttled && t' == t.(phase := Reserved))
  }

  lemma WakeKeepsReleased(s: System, p: ProcId, moved: Moved, a: AttemptId)
    requires p in s.procs && s.procs[p].queue.Some? && ReleasedOnce(s, a)
    ensures ReleasedOnce(SetQueue(s, p, moved), a)
  {
    WakeKeepsReleases(s, p, moved);
  }

  lemma OtherQueuesInTransit(s: System, s': System, a: AttemptId, p: ProcId)
    requires InTransit(s, s', a) && p in s.procs && s.procs[p].queue.Some? && QueueOk(s, p)
    requires s.attempts[a].proc != p || s.attempts[a].mode != Production
    ensures QueueOk(s', p) && Slots(s', p) == Slots(s, p)
  {
    assert Slots(s', p) == Slots(s, p);
    forall w | w in s.procs[p].queue.value.waiting ensures Queued(s', p, w) { assert Queued(s, p, w); }
  }

  // A process that hands one of its slots on: `s` before the holder closed,
  // `s'` after.
  lemma HandedOn(s: System, s': System, a: AttemptId, p: ProcId)
    requires p in s.procs && s.procs[p].queue.Some? && QueueOk(s, p)
    requires p in s'.procs && s'.procs[p].queue == s.procs[p].queue && s'.procs[p].cap == s.procs[p].cap
    requires a in Slots(s, p) && Slots(s', p) == Slots(s, p) - {a}
    requires forall w :: w in s.procs[p].queue.value.waiting ==> Queued(s', p, w)
    ensures QueueOk(SetQueue(s', p, Dequeue(s'.procs[p].queue.value)), p)
    ensures |Slots(SetQueue(s', p, Dequeue(s'.procs[p].queue.value)), p)| <= |Slots(s, p)|
  {
    var q := s.procs[p].queue.value;
    DequeueAccounts(q, s.procs[p].cap, |Slots(s, p)|);
    WakeCounts(s', p, Queue(q.capacity + 1, q.waiting));
  }

  lemma OwnQueueReleased(s: System, s': System, a: AttemptId)
    requires InTransit(s, s', a) && s.attempts[a].mode == Production
    requires var p := s.attempts[a].proc; p in s.procs && s.procs[p].queue.Some? && QueueOk(s, p)
    ensures QueueOk(Release(s', a), s.attempts[a].proc)
    ensures |Slots(Release(s', a), s.attempts[a].proc)| <= |Slots(s, s.attempts[a].proc)|
  {
    var p := s.attempts[a].proc;
    var counted := Counted(s', a);
    assert Slots(counted, p) == Slots(s, p) - {a};
    forall w | w in s.procs[p].queue.value.waiting ensures Queued(counted, p, w) { assert Queued(s, p, w); }
    HandedOn(s, counted, a, p);
  }

  lemma CountingKeepsQueue(s: System, a: AttemptId, r: ProcId)
    requires r in s.procs && s.procs[r].queue.Some? && QueueOk(s, r)
    ensures QueueOk(Counted(s, a), r) && Slots(Counted(s, a), r) == Slots(s, r)
  {
    assert Slots(Counted(s, a), r) == Slots(s, r);
    forall w | w in s.procs[r].queue.value.waiting ensures Queued(Counted(s, a), r, w) { assert Queued(s, r, w); }
  }

  lemma WaitersSurvive(s: System, s': System, a: AttemptId, p: ProcId)
    requires InTransit(s, s', a) && p in s.procs && s.procs[p].queue.Some? && QueueOk(s, p)
    ensures forall w :: w in s'.procs[p].queue.value.waiting ==> Queued(Counted(s', a), p, w)
  {
    forall w | w in s.procs[p].queue.value.waiting ensures Queued(Counted(s', a), p, w) { assert Queued(s, p, w); }
  }

  lemma OtherQueueReleased(s: System, s': System, a: AttemptId, r: ProcId)
    requires QueueInv(s) && InTransit(s, s', a) && s.attempts[a].proc != r
    requires r in s.procs && s.procs[r].queue.Some?
    ensures QueueOk(Release(s', a), r) && Slots(Release(s', a), r) == Slots(s, r)
  {
    var p := s.attempts[a].proc;
    assert QueueOk(s, r);
    OtherQueuesInTransit(s, s', a, r);
    if Gated(s, p, s.attempts[a].mode) {
      var q := s'.procs[p].queue.value;
      assert Release(s', a) == SetQueue(Counted(s', a), p, ResolveNext(Queue(q.capacity + 1, q.waiting)));
      CountingKeepsQueue(s', a, r);
      assert QueueOk(s, p);
      WaitersSurvive(s, s', a, p);
      WakeElsewhere(Counted(s', a), p, Queue(q.capacity + 1, q.waiting), r);
    }
  }

  lemma ReleasesCounted(s: System, s': System, a: AttemptId, b: AttemptId)
    requires QueueInv(s) && InTransit(s, s', a)
    ensures ReleasedOnce(Release(s', a), b)
  {
    var t := s'.attempts[a];
    assert ReleasedOnce(s, b) && ReleasedOnce(s, a);
    if Gated(s', t.proc, t.mode) {
      assert ReleasedOnce(Counted(s', a), b);
      WakeKeepsReleased(Counted(s', a), t.proc, Dequeue(s'.procs[t.proc].queue.value), b);
    }
  }

  lemma ReleasingRestores(s: System, s': System, a: AttemptId)
    requires QueueInv(s) && InTransit(s, s', a)
    ensures QueueInv(Release(s', a)) && CapsKept(s, Release(s', a))
  {
    var p, after := s.attempts[a].proc, Release(s', a);
    ReleaseKeepsProcesses(s', a);
    forall r | r in after.procs && after.procs[r].queue.Some?
      ensures QueueOk(after, r) && |Slots(after, r)| <= |Slots(s, r)|
    {
      assert QueueOk(s, r);
      if r != p {
        OtherQueueReleased(s, s', a, r);
      } else if s.attempts[a].mode == Production {
        OwnQueueReleased(s, s', a);
      } else {
        OtherQueuesInTransit(s, s', a, r);
      }
    }
    forall b ensures ReleasedOnce(after, b) { ReleasesCounted(s, s', a, b); }
  }

  lemma ReleaseKeepsProcesses(s: System, a: AttemptId)
    requires a in s.attempts
    ensures var s' := Release(s, a);
            && s'.procs.Keys == s.procs.Keys
            && (forall p :: p in s.procs ==>
                  s'.procs[p].queue.Some? == s.procs[p].queue.Some? && s'.procs[p].cap == s.procs[p].cap)
  {
  }

  // ---------------------------------------------------------------
  // Capacity, step by step
  // ---------------------------------------------------------------

  lemma BeginOwnSlots(s: System, p: ProcId, a: AttemptId, x: ExecutionId, mode: Mode, isNew: bool)
    requires p in s.procs && s.procs[p].queue.Some? && QueueOk(s, p) && a !in s.attempts
    ensures var s' := Begin(s, p, a, x, mode, isNew);
            && Accounts(s'.procs[p].queue.value, s.procs[p].cap, |Slots(s', p)|)
            && (|Slots(s, p)| <= s.procs[p].cap ==> |Slots(s', p)| <= s.procs[p].cap)
  {
    var s' := Begin(s, p, a, x, mode, isNew);
    BeginShape(s, p, a, x, mode, isNew);
    assert Slots(s', p) == if Holding(s'.attempts[a]) then Slots(s, p) + {a} else Slots(s, p);
    if Gated(s, p, mode) {
      EnqueueAccounts(s.procs[p].queue.value, Waiter(x, a), s.procs[p].cap, |Slots(s, p)|);
    }
  }

  lemma BeginOwnQueue(s: System, p: ProcId, a: AttemptId, x: ExecutionId, mode: Mode, isNew: bool)
    requires p in s.procs && s.procs[p].queue.Some? && QueueOk(s, p) && a !in s.attempts
    ensures QueueOk(Begin(s, p, a, x, mode, isNew), p)
    ensures WithinCap(s, p) ==> WithinCap(Begin(s, p, a, x, mode, isNew), p)
  {
    var s' := Begin(s, p, a, x, mode, isNew);
    var q := s.procs[p].queue.value;
    BeginOwnSlots(s, p, a, x, mode, isNew);
    forall w | w in s'.procs[p].queue.value.waiting ensures Queued(s', p, w) {
      if w in q.waiting { assert Queued(s, p, w); }
    }
    forall w | w in q.waiting ensures w.ticket != a { assert Queued(s, p, w); }
  }

  lemma BeginOtherQueue(s: System, p: ProcId, a: AttemptId, x: ExecutionId, mode: Mode, isNew: bool, r: ProcId)
    requires p in s.procs && a !in s.attempts && r in s.procs && r != p && s.procs[r].queue.Some? && QueueOk(s, r)
    ensures QueueOk(Begin(s, p, a, x, mode, isNew), r)
    ensures WithinCap(s, r) ==> WithinCap(Begin(s, p, a, x, mode, isNew), r)
  {
    var s' := Begin(s, p, a, x, mode, isNew);
    assert Slots(s', r) == Slots(s, r);
    forall w | w in s.procs[r].queue.value.waiting ensures Queued(s', r, w) { assert Queued(s, r, w); }
  }

  lemma BeginReleases(s: System, p: ProcId, a: AttemptId, x: ExecutionId, mode: Mode, isNew: bool, b: AttemptId)
    requires p in s.procs && a !in s.attempts && ReleasedOnce(s, b)
    ensures ReleasedOnce(Begin(s, p, a, x, mode, isNew), b)
  {
  }

  lemma BeginKeepsQueues(s: System, p: ProcId, a: AttemptId, x: ExecutionId, mode: Mode, isNew: bool)
    requires QueueInv(s) && p in s.procs && a !in s.attempts
    ensures QueueInv(Begin(s, p, a, x, mode, isNew)) && CapsKept(s, Begin(s, p, a, x, mode, isNew))
  {
    var s' := Begin(s, p, a, x, mode, isNew);
    forall r | r in s'.procs && s'.procs[r].queue.Some? ensures QueueOk(s', r) && (WithinCap(s, r) ==> WithinCap(s', r)) {
      assert QueueOk(s, r);
      if r == p {
        BeginOwnQueue(s, p, a, x, mode, isNew);
      } else {
        BeginOtherQueue(s, p, a, x, mode, isNew, r);
      }
    }
    forall b ensures ReleasedOnce(s', b) {
      assert ReleasedOnce(s, b);
      BeginReleases(s, p, a, x, mode, isNew, b);
    }
  }

  lemma CreateKeepsQueues(s: System, p: ProcId, a: AttemptId, x: ExecutionId, mode: Mode)
    requires QueueInv(s) && p in s.procs && a !in s.attempts
    ensures QueueInv(Begin(s.(db := s.db[x := Row(New, 0)]), p, a, x, mode, true))
    ensures CapsKept(s, Begin(s.(db := s.db[x := Row(New, 0)]), p, a, x, mode, true))
  {
    SameQueuesKeep(s, s.(db := s.db[x := Row(New, 0)]));
    BeginKeepsQueues(s.(db := s.db[x := Row(New, 0)]), p, a, x, mode, true);
  }

  lemma CommitSameQueues(s: System, a: AttemptId, regular: bool)
    requires InPhase(s, a, Reserved)
    ensures SameQueues(s, AfterCommitFresh(s, a, regular))
    ensures IsWaiting(s, s.attempts[a].exec) ==> SameQueues(s, AfterWin(s, a))
  {
  }

  lemma SetPhaseSameQueues(s: System, a: AttemptId, phase: Phase)
    requires a in s.attempts
    requires var t, t' := s.attempts[a], s.attempts[a].(phase := phase);
             Holding(t') == Holding(t) && Done(t') == Done(t) && t.phase != Throttled && phase != Throttled
    ensures SameQueues(s, SetPhase(s, a, phase))
  {
  }

  lemma SetTableSameQueues(s: System, p: ProcId, table: Table)
    requires p in s.procs
    ensures SameQueues(s, SetTable(s, p, table))
  {
  }

  lemma SameQueuesTransitive(s0: System, s1: System, s2: System)
    requires SameQueues(s0, s1) && SameQueues(s1, s2)
    ensures SameQueues(s0, s2)
  {
  }

  lemma RegisterSameQueues(s: System, a: AttemptId, now: int)
    requires InPhase(s, a, Won)
    ensures SameQueues(s, AfterRegister(s, a, now))
  {
    var t := s.attempts[a];
    var table := s.procs[t.proc].table;
    var r := Replaced(s, a);
    if r != s { SetPhaseSameQueues(s, table[t.exec].attempt, Closed); }
    assert r.attempts[a] == t;
    SetPhaseSameQueues(r, a, Live);
    SameQueuesTransitive(s, r, SetPhase(r, a, Live));
    SetTableSameQueues(SetPhase(r, a, Live), t.proc, Registered(table, t.exec, a, now));
    SameQueuesTransitive(s, SetPhase(r, a, Live), AfterRegister(s, a, now));
  }

  lemma FinalizeSameQueues(s: System, p: ProcId, x: ExecutionId)
    requires p in s.procs
    ensures SameQueues(s, AfterFinalize(s, p, x))
  {
    var table := s.procs[p].table;
    if x in table && InPhase(s, table[x].attempt, Live) { SetPhaseSameQueues(s, table[x].attempt, Settled); }
  }

  lemma StopSameQueues(s: System, p: ProcId, x: ExecutionId)
    requires TableInv(s) && p in s.procs
    ensures SameQueues(s, AfterStop(s, p, x))
  {
    var table := s.procs[p].table;
    if x in table {
      assert EntryOk(s, p, x);
      if table[x].status == Waiting {
        SetPhaseSameQueues(s, table[x].attempt, Closed);
        SetTableSameQueues(SetPhase(s, table[x].attempt, Closed), p, Stopped(table, x));
        SameQueuesTransitive(s, SetPhase(s, table[x].attempt, Closed), AfterStop(s, p, x));
      } else if InPhase(s, table[x].attempt, Live) {
        SetPhaseSameQueues(s, table[x].attempt, Settled);
      }
    }
  }

  lemma FailKeepsQueues(s: System, a: AttemptId, committed: bool)
    requires QueueInv(s) && InPhase(s, a, Reserved)
    ensures QueueInv(AfterFail(s, a, committed)) && CapsKept(s, AfterFail(s, a, committed))
  {
    var t := s.attempts[a];
    var written := if committed && (t.isNew || IsWaiting(s, t.exec)) then SetStatusOf(s, t.exec, Running) else s;
    ReleasingRestores(s, SetPhase(written, a, Closed), a);
  }

  lemma ParkKeepsQueues(s: System, a: AttemptId)
    requires QueueInv(s) && InPhase(s, a, Live)
    ensures QueueInv(AfterPark(s, a)) && CapsKept(s, AfterPark(s, a))
  {
    ReleasingRestores(s, ParkedAs(s, a), a);
  }

  lemma CallbackKeepsQueues(s: System, a: AttemptId)
    requires QueueInv(s) && InPhase(s, a, Settled)
    ensures QueueInv(AfterCallback(s, a)) && CapsKept(s, AfterCallback(s, a))
  {
    ReleasingRestores(s, Removed(s, a), a);
  }

  // The waiters left behind when the first one for `x` is taken out.
  lemma RestStaysQueued(s: System, p: ProcId, x: ExecutionId)
    requires p in s.procs && s.procs[p].queue.Some? && QueueOk(s, p)
    requires FirstFor(s.procs[p].queue.value.waiting, x) < |s.procs[p].queue.value.waiting|
    ensures var q := s.procs[p].queue.value;
            var i := FirstFor(q.waiting, x);
            var rest := q.waiting[..i] + q.waiting[i + 1..];
            && Queued(s, p, q.waiting[i])
            && Remove(q, x) == ResolveNext(Queue(q.capacity + 1, rest))
            && (forall w :: w in rest ==> Queued(StrandedIn(s, p, x), p, w))
            && (forall j, k :: 0 <= j < k < |rest| ==> rest[j].ticket != rest[k].ticket)
  {
    var q := s.procs[p].queue.value;
    var i := FirstFor(q.waiting, x);
    assert Queued(s, p, q.waiting[i]);
    var rest := q.waiting[..i] + q.waiting[i + 1..];
    WithoutOne(q.waiting, i);
    forall w | w in rest ensures Queued(StrandedIn(s, p, x), p, w) {
      assert Queued(s, p, w);
      OthersStayQueued(s, p, x, w);
    }
  }

  lemma OthersStayQueued(s: System, p: ProcId, x: ExecutionId, w: Waiter)
    requires p in s.procs && s.procs[p].queue.Some? && Queued(s, p, w)
    requires var waiting := s.procs[p].queue.value.waiting;
             FirstFor(waiting, x) < |waiting| ==> w.ticket != waiting[FirstFor(waiting, x)].ticket
    ensures Queued(StrandedIn(s, p, x), p, w)
  {
  }

  // Taking one element out of a list of distinct tickets.
  lemma WithoutOne(waiting: seq<Waiter>, i: nat)
    requires i < |waiting|
    requires forall j, k :: 0 <= j < k < |waiting| ==> waiting[j].ticket != waiting[k].ticket
    ensures var rest := waiting[..i] + waiting[i + 1..];
            && (forall w :: w in rest ==> w in waiting && w.ticket != waiting[i].ticket)
            && (forall j, k :: 0 <= j < k < |rest| ==> rest[j].ticket != rest[k].ticket)
  {
    var rest := waiting[..i] + waiting[i + 1..];
    assert forall k :: 0 <= k < |rest| ==> rest[k] == waiting[if k < i then k else k + 1];
  }

  lemma CancelOwnQueue(s: System, p: ProcId, x: ExecutionId)
    requires p in s.procs && s.procs[p].queue.Some? && QueueOk(s, p)
    ensures var s' := AfterCancel(s, p, x);
            && QueueOk(s', p)
            && |Slots(s', p)|
               == |Slots(s, p)| + (if Remove(s.procs[p].queue.value, x).woken.Some? then 1 else 0)
  {
    var q := s.procs[p].queue.value;
    var i := FirstFor(q.waiting, x);
    var left, s' := StrandedIn(s, p, x), AfterCancel(s, p, x);
    if i == |q.waiting| {
      assert s'.attempts == s.attempts;
      assert Slots(s', p) == Slots(s, p);
      forall w | w in q.waiting ensures Queued(s', p, w) { assert Queued(s, p, w); }
    } else {
      RestStaysQueued(s, p, x);
      assert Slots(left, p) == Slots(s, p);
      RemoveAccounts(q, x, s.procs[p].cap, |Slots(s, p)|);
      WakeCounts(left, p, Queue(q.capacity + 1, q.waiting[..i] + q.waiting[i + 1..]));
    }
  }

  lemma CancelOtherQueue(s: System, p: ProcId, x: ExecutionId, r: ProcId)
    requires p in s.procs && s.procs[p].queue.Some? && QueueOk(s, p) && r != p
    requires r in s.procs && s.procs[r].queue.Some? && QueueOk(s, r)
    ensures QueueOk(AfterCancel(s, p, x), r) && Slots(AfterCancel(s, p, x), r) == Slots(s, r)
  {
    var q := s.procs[p].queue.value;
    var i := FirstFor(q.waiting, x);
    var left, s' := StrandedIn(s, p, x), AfterCancel(s, p, x);
    if i == |q.waiting| {
      assert s'.attempts == s.attempts && Slots(s', r) == Slots(s, r);
      forall w | w in s.procs[r].queue.value.waiting ensures Queued(s', r, w) { assert Queued(s, r, w); }
    } else {
      RestStaysQueued(s, p, x);
      assert Slots(left, r) == Slots(s, r);
      forall w | w in s.procs[r].queue.value.waiting ensures Queued(left, r, w) { assert Queued(s, r, w); }
      WakeElsewhere(left, p, Queue(q.capacity + 1, q.waiting[..i] + q.waiting[i + 1..]), r);
    }
  }

  // A cancellation is harmless when nobody else is queued behind or before it.
  predicate Harmless(s: System, step: Step) {
    step.CancelQueued? && step.p in s.procs && s.procs[step.p].queue.Some? ==>
      var waiting := s.procs[step.p].queue.value.waiting;
      FirstFor(waiting, step.x) == |waiting| || |waiting| == 1
  }

  lemma CancelReleases(s: System, p: ProcId, x: ExecutionId, a: AttemptId)
    requires QueueInv(s) && p in s.procs && s.procs[p].queue.Some?
    ensures ReleasedOnce(AfterCancel(s, p, x), a)
  {
    assert ReleasedOnce(s, a) && ReleasedOnce(StrandedIn(s, p, x), a);
    WakeKeepsReleased(StrandedIn(s, p, x), p, Remove(s.procs[p].queue.value, x), a);
  }

  lemma CancelKeepsProcesses(s: System, p: ProcId, x: ExecutionId)
    requires p in s.procs && s.procs[p].queue.Some?
    ensures var s' := AfterCancel(s, p, x);
            && s'.procs.Keys == s.procs.Keys
            && (forall r :: r in s.procs ==>
                  s'.procs[r].cap == s.procs[r].cap && s'.procs[r].queue.Some? == s.procs[r].queue.Some?)
  {
  }

  lemma CancelKeepsQueues(s: System, p: ProcId, x: ExecutionId)
    requires QueueInv(s) && p in s.procs && s.procs[p].queue.Some?
    ensures QueueInv(AfterCancel(s, p, x))
  {
    var s' := AfterCancel(s, p, x);
    CancelKeepsProcesses(s, p, x);
    forall r | r in s'.procs && s'.procs[r].queue.Some? ensures QueueOk(s', r) {
      assert QueueOk(s, r) && QueueOk(s, p);
      if r == p { CancelOwnQueue(s, p, x); } else { CancelOtherQueue(s, p, x, r); }
    }
    forall a ensures ReleasedOnce(s', a) { CancelReleases(s, p, x, a); }
  }

  lemma CancelRespectsCaps(s: System, p: ProcId, x: ExecutionId)
    requires QueueInv(s) && p in s.procs && s.procs[p].queue.Some?
    requires forall r :: r in s.procs ==> WithinCap(s, r)
    ensures CapsKept(s, AfterCancel(s, p, x)) <==> Harmless(s, CancelQueued(p, x))
  {
    var s' := AfterCancel(s, p, x);
    CancelKeepsProcesses(s, p, x);
    assert QueueOk(s, p) && WithinCap(s, p);
    CancelOwnQueue(s, p, x);
    RemoveRespectsCap(s.procs[p].queue.value, x, s.procs[p].cap, |Slots(s, p)|);
    forall r | r in s.procs && r != p ensures WithinCap(s', r) {
      assert WithinCap(s, r);
      if s.procs[r].queue.Some? {
        assert QueueOk(s, r);
        CancelOtherQueue(s, p, x, r);
      }
    }
  }

  lemma QueueStep(s: System, step: Step)
    requires TableInv(s) && QueueInv(s) && Enabled(s, step)
    ensures QueueInv(Next(s, step))
    ensures !step.CancelQueued? ==> CapsKept(s, Next(s, step))
  {
    match step
    case StartFresh(p, a, x, mode) => CreateKeepsQueues(s, p, a, x, mode);
    case StartResume(p, a, x, mode) => BeginKeepsQueues(s, p, a, x, mode, false);
    case CommitFresh(a, regular) =>
      CommitSameQueues(s, a, regular);
      SameQueuesKeep(s, AfterCommitFresh(s, a, regular));
    case CommitResume(a) =>
      if IsWaiting(s, s.attempts[a].exec) {
        CommitSameQueues(s, a, true);
        SameQueuesKeep(s, AfterWin(s, a));
      } else {
        FailKeepsQueues(s, a, false);
      }
    case Fail(a, committed) => FailKeepsQueues(s, a, committed);
    case Register(a, now) =>
      RegisterSameQueues(s, a, now);
      SameQueuesKeep(s, AfterRegister(s, a, now));
    case SetStatus(p, x, status) => SameQueuesKeep(s, SetTable(s, p, WithStatus(s.procs[p].table, x, status)));
    case Park(a) => ParkKeepsQueues(s, a);
    case Finalize(p, x) =>
      FinalizeSameQueues(s, p, x);
      SameQueuesKeep(s, AfterFinalize(s, p, x));
    case Stop(p, x) =>
      StopSameQueues(s, p, x);
      SameQueuesKeep(s, AfterStop(s, p, x));
    case Callback(a) => CallbackKeepsQueues(s, a);
    case CancelQueued(p, x) => CancelKeepsQueues(s, p, x);
    case WriteRow(x, status) => SameQueuesKeep(s, SetStatusOf(s, x, status));
  }

  // ---------------------------------------------------------------
  // Whole runs
  // ---------------------------------------------------------------

  ghost predicate Inv(s: System) {
    OwnersInv(s) && WinsInv(s) && TableInv(s) && QueueInv(s)
  }

  lemma InitialInv(s: System)
    requires Init(s)
    ensures Inv(s)
  {
    forall p | p in s.procs ensures Slots(s, p) == {} { }
  }

  lemma {:induction false} Always(s: System, steps: seq<Step>)
    requires Init(s) && Run(s, steps)
    ensures Inv(After(s, steps))
  {
    if steps == [] {
      InitialInv(s);
    } else {
      var before, step := steps[..|steps| - 1], steps[|steps| - 1];
      Always(s, before);
      OwnersStep(After(s, before), step);
      WinsStep(After(s, before), step);
      TableStep(After(s, before), step);
      QueueStep(After(s, before), step);
    }
  }

  lemma {:induction false} RunPrefix(s: System, steps: seq<Step>, k: nat)
    requires Run(s, steps) && k <= |steps|
    ensures Run(s, steps[..k])
    ensures k < |steps| ==>
              && Enabled(After(s, steps[..k]), steps[k])
              && Run(s, steps[..k + 1])
              && After(s, steps[..k + 1]) == Next(After(s, steps[..k]), steps[k])
    decreases |steps|
  {
    if k == |steps| {
      assert steps[..k] == steps;
    } else if k == |steps| - 1 {
      assert steps[..k + 1] == steps;
    } else {
      RunPrefix(s, steps[..|steps| - 1], k);
      assert steps[..|steps| - 1][..k] == steps[..k] && steps[..|steps| - 1][..k + 1] == steps[..k + 1];
    }
  }

  lemma OneMoreStep(s: System, steps: seq<Step>, step: Step)
    requires Run(s, steps) && Enabled(After(s, steps), step)
    ensures Run(s, steps + [step]) && After(s, steps + [step]) == Next(After(s, steps), step)
  {
    assert (steps + [step])[..|steps|] == steps;
  }

  ghost function StateAt(s: System, steps: seq<Step>, k: nat): System
    requires Run(s, steps) && k <= |steps|
  {
    RunPrefix(s, steps, k);
    After(s, steps[..k])
  }

  // However timers, children, webhooks and retries interleave, a waiting
  // episode is ended by at most one successful `add`, and no two incarnations
  // of an execution are alive together, in whatever processes.
  lemma OneResumePerEpisode(s: System, steps: seq<Step>)
    requires Init(s) && Run(s, steps)
    ensures var end := After(s, steps);
            && (forall i, j :: 0 <= i < j < |end.wins| ==> end.wins[i] != end.wins[j])
            && (forall a, b | a in end.attempts && b in end.attempts && a != b ::
                  end.attempts[a].phase in {Won, Live, Settled} && end.attempts[b].phase in {Won, Live, Settled} ==>
                    end.attempts[a].exec != end.attempts[b].exec)
  {
    Always(s, steps);
  }

  // A later try to resume an episode that was already won, retries included,
  // ends with the execution untouched.
  lemma SecondResumeLoses(s: System, steps: seq<Step>, a: AttemptId)
    requires Init(s) && Run(s, steps) && Enabled(After(s, steps), CommitResume(a))
    requires var end := After(s, steps);
             var x := end.attempts[a].exec;
             x in end.db && Win(x, end.db[x].episode) in end.wins
    ensures var end := After(s, steps);
            var next := Next(end, CommitResume(a));
            && next.db == end.db && next.wins == end.wins && next.attempts[a].phase == Closed
            && (forall p :: p in end.procs ==> p in next.procs && next.procs[p].table == end.procs[p].table)
  {
    Always(s, steps);
    LosingChangesNothing(After(s, steps), a);
  }

  lemma LosingChangesNothing(s: System, a: AttemptId)
    requires InPhase(s, a, Reserved)
    ensures var next := AfterFail(s, a, false);
            && next.db == s.db && next.wins == s.wins && next.attempts[a].phase == Closed
            && (forall p :: p in s.procs ==> p in next.procs && next.procs[p].table == s.procs[p].table)
  {
    var closed := SetPhase(s, a, Closed);
    var t := s.attempts[a];
    if Gated(closed, t.proc, t.mode) {
      var counted := Counted(closed, a);
      assert AfterFail(s, a, false) == SetQueue(counted, t.proc, Dequeue(s.procs[t.proc].queue.value));
    }
  }

  // The counter always says how many slots are taken, and each slot taken is
  // given back exactly once.
  lemma SlotsConserved(s: System, steps: seq<Step>, p: ProcId)
    requires Init(s) && Run(s, steps) && p in After(s, steps).procs && After(s, steps).procs[p].queue.Some?
    ensures var end := After(s, steps);
            var q := end.procs[p].queue.value;
            && q.capacity == end.procs[p].cap - |Slots(end, p)| - |q.waiting|
            && (forall a :: a in end.attempts && end.attempts[a].proc == p && end.attempts[a].mode == Production ==>
                  end.releases[a] == if end.attempts[a].phase in {Parked, Closed} then 1 else 0)
            && (q.waiting != [] ==> |Slots(end, p)| >= end.procs[p].cap)
  {
    Always(s, steps);
    var end := After(s, steps);
    assert QueueOk(end, p);
    forall a | a in end.attempts && end.attempts[a].proc == p && end.attempts[a].mode == Production
      ensures end.releases[a] == if end.attempts[a].phase in {Parked, Closed} then 1 else 0
    {
      assert ReleasedOnce(end, a);
    }
  }

  ghost predicate AllWithinCap(s: System) {
    forall p :: p in s.procs ==> WithinCap(s, p)
  }

  lemma CapStep(s: System, step: Step)
    requires Inv(s) && Enabled(s, step) && AllWithinCap(s)
    ensures AllWithinCap(Next(s, step)) <==> Harmless(s, step)
  {
    if step.CancelQueued? {
      CancelRespectsCaps(s, step.p, step.x);
      CancelKeepsProcesses(s, step.p, step.x);
    } else {
      QueueStep(s, step);
    }
  }

  // No process was over its cap in any state of the run.
  ghost predicate NeverOverCap(s: System, steps: seq<Step>)
    requires Run(s, steps)
    decreases |steps|
  {
    AllWithinCap(After(s, steps)) && (steps != [] ==> NeverOverCap(s, steps[..|steps| - 1]))
  }

  ghost predicate OnlyHarmless(s: System, steps: seq<Step>)
    requires Run(s, steps)
    decreases |steps|
  {
    steps != [] ==>
      && OnlyHarmless(s, steps[..|steps| - 1])
      && Harmless(After(s, steps[..|steps| - 1]), steps[|steps| - 1])
  }

  // A run never exceeds a cap exactly when every cancellation of a queued
  // execution in it was harmless.
  lemma {:induction false} CapKeptIff(s: System, steps: seq<Step>)
    requires Init(s) && Run(s, steps)
    ensures NeverOverCap(s, steps) <==> OnlyHarmless(s, steps)
  {
    if steps == [] {
      forall p | p in s.procs ensures WithinCap(s, p) { assert Slots(s, p) == {}; }
    } else {
      var before := steps[..|steps| - 1];
      Always(s, before);
      CapKeptIff(s, before);
      if NeverOverCap(s, before) { CapStep(After(s, before), steps[|steps| - 1]); }
    }
  }

  // An id is in a table exactly when an incarnation of it there is unsettled,
  // awaits its callback, or is parked.
  lemma TableLists(s: System, steps: seq<Step>, p: ProcId, x: ExecutionId)
    requires Init(s) && Run(s, steps) && p in After(s, steps).procs
    ensures var end := After(s, steps);
            x in end.procs[p].table <==>
            exists a :: a in end.attempts && end.attempts[a].proc == p && end.attempts[a].exec == x
              && end.attempts[a].phase in {Live, Settled, Parked}
  {
    Always(s, steps);
    var end := After(s, steps);
    if x in end.procs[p].table { assert EntryOk(end, p, x); }
    forall a | a in end.attempts && end.attempts[a].proc == p && end.attempts[a].exec == x
        && end.attempts[a].phase in {Live, Settled, Parked}
      ensures x in end.procs[p].table
    {
      assert IncarnationOk(end, a);
    }
  }

  lemma ReleaseSameTable(s: System, a: AttemptId, p: ProcId)
    requires a in s.attempts && p in s.procs
    ensures p in Release(s, a).procs && Release(s, a).procs[p].table == s.procs[p].table
  {
  }

  // In every reachable state, a callback about to run finds its own entry.
  lemma CallbacksRemoveTheirOwn(s: System, steps: seq<Step>, a: AttemptId)
    requires Init(s) && Run(s, steps) && InPhase(After(s, steps), a, Settled)
    ensures var end := After(s, steps);
            var t := end.attempts[a];
            && t.exec in end.procs[t.proc].table && end.procs[t.proc].table[t.exec].attempt == a
            && AfterCallback(end, a).procs[t.proc].table == end.procs[t.proc].table - {t.exec}
  {
    Always(s, steps);
    CallbackRemovesItsOwn(After(s, steps), a);
    ReleaseSameTable(Removed(After(s, steps), a), a, After(s, steps).attempts[a].proc);
  }

  ghost predicate KeepsStart(s: System, s': System) {
    && s'.procs.Keys == s.procs.Keys
    && forall p, x :: p in s.procs && x in s.procs[p].table && x in s'.procs[p].table ==>
         s'.procs[p].table[x].startedAt == s.procs[p].table[x].startedAt
  }

  lemma ReleaseKeepsStart(s: System, s': System, a: AttemptId)
    requires a in s'.attempts && KeepsStart(s, s')
    ensures KeepsStart(s, Release(s', a))
  {
  }

  lemma FailKeepsStart(s: System, a: AttemptId, committed: bool)
    requires InPhase(s, a, Reserved)
    ensures KeepsStart(s, AfterFail(s, a, committed))
  {
    var t := s.attempts[a];
    var written := if committed && (t.isNew || IsWaiting(s, t.exec)) then SetStatusOf(s, t.exec, Running) else s;
    ReleaseKeepsStart(s, SetPhase(written, a, Closed), a);
  }

  // A registration over an existing entry takes over its start time.
  lemma RegisterKeepsStart(s: System, a: AttemptId, now: int)
    requires InPhase(s, a, Won)
    ensures KeepsStart(s, AfterRegister(s, a, now))
  {
  }

  lemma StopKeepsStart(s: System, p: ProcId, x: ExecutionId)
    requires p in s.procs
    ensures KeepsStart(s, AfterStop(s, p, x)) && KeepsStart(s, AfterFinalize(s, p, x))
  {
  }

  lemma CancelKeepsStart(s: System, p: ProcId, x: ExecutionId)
    requires p in s.procs && s.procs[p].queue.Some?
    ensures KeepsStart(s, AfterCancel(s, p, x))
  {
  }

  lemma CommitKeepsStart(s: System, a: AttemptId, regular: bool)
    requires InPhase(s, a, Reserved)
    ensures KeepsStart(s, AfterCommitFresh(s, a, regular))
    ensures IsWaiting(s, s.attempts[a].exec) ==> KeepsStart(s, AfterWin(s, a))
  {
  }

  lemma StartStep(s: System, step: Step)
    requires Enabled(s, step)
    ensures KeepsStart(s, Next(s, step))
  {
    match step
    case StartFresh(p, a, x, mode) =>
    case StartResume(p, a, x, mode) =>
    case CommitFresh(a, regular) => CommitKeepsStart(s, a, regular);
    case CommitResume(a) => CommitKeepsStart(s, a, true); FailKeepsStart(s, a, false);
    case Fail(a, committed) => FailKeepsStart(s, a, committed);
    case Register(a, now) => RegisterKeepsStart(s, a, now);
    case SetStatus(p, x, status) =>
    case Park(a) => ReleaseKeepsStart(s, ParkedAs(s, a), a);
    case Finalize(p, x) => StopKeepsStart(s, p, x);
    case Stop(p, x) => StopKeepsStart(s, p, x);
    case Callback(a) => ReleaseKeepsStart(s, Removed(s, a), a);
    case CancelQueued(p, x) => CancelKeepsStart(s, p, x);
    case WriteRow(x, status) =>
  }

  // As long as a process keeps an entry, through any number of waits and
  // resumptions, its start time stays the same.
  lemma {:induction false} StartedAtIsKept(s: System, steps: seq<Step>, from: nat, p: ProcId, x: ExecutionId)
    requires Run(s, steps) && from <= |steps|
    requires forall k :: from <= k <= |steps| ==>
               p in StateAt(s, steps, k).procs && x in StateAt(s, steps, k).procs[p].table
    ensures StateAt(s, steps, |steps|).procs[p].table[x].startedAt == StateAt(s, steps, from).procs[p].table[x].startedAt
  {
    var k := from;
    while k < |steps|
      invariant from <= k <= |steps|
      invariant StateAt(s, steps, k).procs[p].table[x].startedAt == StateAt(s, steps, from).procs[p].table[x].startedAt
    {
      RunPrefix(s, steps, k);
      StartStep(StateAt(s, steps, k), steps[k]);
      assert p in StateAt(s, steps, k + 1).procs && x in StateAt(s, steps, k + 1).procs[p].table;
      k := k + 1;
    }
  }
}
