// What each step of the execution protocol does, in terms of the rows, tables,
// queues and attempts themselves, and that every attempt can come to its end.
module ProtocolEffects {
  import opened Wrappers
  import opened ConcurrencyQueue
  import opened ActiveExecutions
  import opened ExecutionProtocol

  // ---------------------------------------------------------------
  // Beginning and committing
  // ---------------------------------------------------------------

  // A slot is reserved at once, or the call queues up at the end, exactly in
  // the modes and processes that have a queue.
  lemma BeginEffect(s: System, p: ProcId, a: AttemptId, x: ExecutionId, mode: Mode)
    requires p in s.procs && a !in s.attempts
    ensures Enabled(s, StartResume(p, a, x, mode))
    ensures var next, q := Next(s, StartResume(p, a, x, mode)), s.procs[p].queue;
            && next.db == s.db && next.wins == s.wins && next.releases == s.releases
            && (if mode == Production && q.Some? && q.value.capacity <= 0 then
                  && next.attempts == s.attempts[a := Attempt(p, x, mode, false, Throttled)]
                  && next.procs == s.procs[p := s.procs[p].(queue := Some(Queue(q.value.capacity - 1, q.value.waiting + [Waiter(x, a)])))]
                else if mode == Production && q.Some? then
                  && next.attempts == s.attempts[a := Attempt(p, x, mode, false, Reserved)]
                  && next.procs == s.procs[p := s.procs[p].(queue := Some(Queue(q.value.capacity - 1, q.value.waiting)))]
                else
                  next.attempts == s.attempts[a := Attempt(p, x, mode, false, Reserved)] && next.procs == s.procs)
  {
  }

  // A new execution gets a row and begins in the same way.
  lemma StartFreshEffect(s: System, p: ProcId, a: AttemptId, x: ExecutionId, mode: Mode)
    requires p in s.procs && a !in s.attempts && x !in s.db
    ensures Enabled(s, StartFresh(p, a, x, mode))
    ensures var next, begun := Next(s, StartFresh(p, a, x, mode)), Next(s, StartResume(p, a, x, mode));
            && next.db == s.db[x := Row(New, 0)] && next.procs == begun.procs
            && next.wins == s.wins && next.releases == s.releases
            && next.attempts == begun.attempts[a := begun.attempts[a].(isNew := true)]
  {
    var next, begun := Next(s, StartFresh(p, a, x, mode)), Next(s, StartResume(p, a, x, mode));
    assert next.attempts == begun.attempts[a := begun.attempts[a].(isNew := true)];
  }

  // A new execution's row turns to running in regular mode only.
  lemma CommitFreshEffect(s: System, a: AttemptId, regular: bool)
    requires a in s.attempts && s.attempts[a].phase == Reserved && s.attempts[a].isNew && s.attempts[a].proc in s.procs
    ensures Enabled(s, CommitFresh(a, regular))
    ensures var x, next := s.attempts[a].exec, Next(s, CommitFresh(a, regular));
            && next.attempts == s.attempts[a := s.attempts[a].(phase := Won)]
            && next.db == (if regular && x in s.db then s.db[x := s.db[x].(status := Running)] else s.db)
            && next.procs == s.procs && next.wins == s.wins && next.releases == s.releases
  {
  }

  // A resumption wins a waiting row, and no other.
  lemma CommitResumeEffect(s: System, a: AttemptId)
    requires a in s.attempts && s.attempts[a].phase == Reserved && !s.attempts[a].isNew && s.attempts[a].proc in s.procs
    ensures Enabled(s, CommitResume(a))
    ensures var x, next := s.attempts[a].exec, Next(s, CommitResume(a));
            if x in s.db && s.db[x].status == Waiting then
              && next.attempts == s.attempts[a := s.attempts[a].(phase := Won)]
              && next.db == s.db[x := s.db[x].(status := Running)]
              && next.wins == s.wins + [Win(x, s.db[x].episode)]
              && next.procs == s.procs && next.releases == s.releases
            else next == Next(s, Fail(a, false)) && Enabled(s, Fail(a, false))
  {
  }

  // ---------------------------------------------------------------
  // Giving a slot back
  // ---------------------------------------------------------------

  // Whether `a` holds a slot of a queue.
  predicate HasSlot(s: System, a: AttemptId)
    requires a in s.attempts
  {
    s.attempts[a].mode == Production && s.attempts[a].proc in s.procs && s.procs[s.attempts[a].proc].queue.Some?
  }

  // Only for a gated attempt: one more slot, one more release, and the first
  // waiter goes on.
  lemma ReleaseEffect(s: System, a: AttemptId)
    requires a in s.attempts
    requires HasSlot(s, a) && s.procs[s.attempts[a].proc].queue.value.waiting != [] ==>
               var w := s.procs[s.attempts[a].proc].queue.value.waiting[0];
               w.ticket in s.attempts && s.attempts[w.ticket].phase == Throttled
    ensures var p, next := s.attempts[a].proc, Release(s, a);
            && next.db == s.db && next.wins == s.wins
            && (if !HasSlot(s, a) then
                  next == s
                else if s.procs[p].queue.value.waiting == [] then
                  && next.procs == s.procs[p := s.procs[p].(queue := Some(Queue(s.procs[p].queue.value.capacity + 1, [])))]
                  && next.attempts == s.attempts && next.releases == s.releases[a := s.releases[a] + 1]
                else
                  var q := s.procs[p].queue.value;
                  && next.procs == s.procs[p := s.procs[p].(queue := Some(Queue(q.capacity + 1, q.waiting[1..])))]
                  && next.attempts == s.attempts[q.waiting[0].ticket := s.attempts[q.waiting[0].ticket].(phase := Reserved)]
                  && next.releases == s.releases[a := s.releases[a] + 1])
  {
  }

  // Giving up closes the attempt; the row may have been written all the same.
  lemma FailEffect(s: System, a: AttemptId, committed: bool)
    requires a in s.attempts && s.attempts[a].phase == Reserved && s.attempts[a].proc in s.procs
    ensures Enabled(s, Fail(a, committed))
    ensures var t := s.attempts[a];
            var written := committed && t.exec in s.db && (t.isNew || s.db[t.exec].status == Waiting);
            var closed := s.(attempts := s.attempts[a := t.(phase := Closed)],
                             db := if written then s.db[t.exec := s.db[t.exec].(status := Running)] else s.db);
            Next(s, Fail(a, committed)) == Release(closed, a)
  {
  }

  // Parking writes the row as waiting in a new episode, keeps the entry as
  // waiting, and gives the slot back. The callback of a waiting incarnation
  // leaves the table as it then is.
  lemma ParkEffect(s: System, a: AttemptId)
    requires TableInv(s) && OwnersInv(s) && a in s.attempts && s.attempts[a].phase == Live
    ensures Enabled(s, Park(a))
    ensures var t := s.attempts[a];
            && t.proc in s.procs && t.exec in s.db && t.exec in s.procs[t.proc].table
            && var table := s.procs[t.proc].table;
               var parked := s.(attempts := s.attempts[a := t.(phase := Parked)],
                                db := s.db[t.exec := Row(Waiting, s.db[t.exec].episode + 1)],
                                procs := s.procs[t.proc := s.procs[t.proc].(table := table[t.exec := table[t.exec].(status := Waiting)])]);
               Next(s, Park(a)) == Release(parked, a)
               && CalledBack(parked.procs[t.proc].table, t.exec, Waiting) == parked.procs[t.proc].table
  {
    assert IncarnationOk(s, a) && Busy(s.attempts[a]);
  }

  // The callback closes a settled incarnation, removes its entry and gives the
  // slot back.
  lemma CallbackEffect(s: System, a: AttemptId)
    requires TableInv(s) && a in s.attempts && s.attempts[a].phase == Settled
    ensures Enabled(s, Callback(a))
    ensures var t := s.attempts[a];
            && t.proc in s.procs && t.exec in s.procs[t.proc].table && s.procs[t.proc].table[t.exec].attempt == a
            && var removed := s.(attempts := s.attempts[a := t.(phase := Closed)],
                                 procs := s.procs[t.proc := s.procs[t.proc].(table := s.procs[t.proc].table - {t.exec})]);
               Next(s, Callback(a)) == Release(removed, a)
  {
    assert IncarnationOk(s, a);
  }

  // ---------------------------------------------------------------
  // The table
  // ---------------------------------------------------------------

  // A registration enters the incarnation as running. It keeps the start time
  // of the parked one it finds, and retires that one; else it starts now.
  lemma RegisterEffect(s: System, a: AttemptId, now: int)
    requires OwnersInv(s) && TableInv(s) && a in s.attempts && s.attempts[a].phase == Won
    ensures Enabled(s, Register(a, now))
    ensures var t, next := s.attempts[a], Next(s, Register(a, now));
            && t.proc in s.procs
            && var table := s.procs[t.proc].table;
               && next.db == s.db && next.wins == s.wins && next.releases == s.releases
               && (if t.exec in table then
                     && table[t.exec].attempt in s.attempts && s.attempts[table[t.exec].attempt].phase == Parked
                     && next.procs == s.procs[t.proc := s.procs[t.proc].(table := table[t.exec := Entry(a, Running, table[t.exec].startedAt)])]
                     && next.attempts == s.attempts[table[t.exec].attempt := s.attempts[table[t.exec].attempt].(phase := Closed)]
                                                   [a := t.(phase := Live)]
                   else
                     && next.procs == s.procs[t.proc := s.procs[t.proc].(table := table[t.exec := Entry(a, Running, now)])]
                     && next.attempts == s.attempts[a := t.(phase := Live)])
  {
    assert IncarnationOk(s, a);
    RegisterFindsParked(s, a);
  }

  lemma SetStatusEffect(s: System, p: ProcId, x: ExecutionId, status: Status)
    requires p in s.procs && x in s.procs[p].table && status != Waiting && s.procs[p].table[x].status != Waiting
    ensures Enabled(s, SetStatus(p, x, status))
    ensures var table := s.procs[p].table;
            Next(s, SetStatus(p, x, status))
            == s.(procs := s.procs[p := s.procs[p].(table := table[x := table[x].(status := status)])])
  {
  }

  // Finalizing settles a live incarnation, and only that.
  lemma FinalizeEffect(s: System, p: ProcId, x: ExecutionId)
    requires TableInv(s) && p in s.procs
    ensures Enabled(s, Finalize(p, x))
    ensures var table := s.procs[p].table;
            if x in table && table[x].attempt in s.attempts && s.attempts[table[x].attempt].phase == Live then
              Next(s, Finalize(p, x))
              == s.(attempts := s.attempts[table[x].attempt := s.attempts[table[x].attempt].(phase := Settled)])
            else Next(s, Finalize(p, x)) == s
  {
    if x in s.procs[p].table { assert EntryOk(s, p, x); }
  }

  // Stopping settles a live incarnation, and drops a parked one at once.
  lemma StopEffect(s: System, p: ProcId, x: ExecutionId)
    requires TableInv(s) && p in s.procs
    ensures Enabled(s, Stop(p, x))
    ensures var table, next := s.procs[p].table, Next(s, Stop(p, x));
            if x in table && table[x].attempt in s.attempts && s.attempts[table[x].attempt].phase == Live then
              next == s.(attempts := s.attempts[table[x].attempt := s.attempts[table[x].attempt].(phase := Settled)])
            else if x in table && table[x].attempt in s.attempts && s.attempts[table[x].attempt].phase == Parked then
              next == s.(attempts := s.attempts[table[x].attempt := s.attempts[table[x].attempt].(phase := Closed)],
                         procs := s.procs[p := s.procs[p].(table := table - {x})])
            else next == s
  {
    if x in s.procs[p].table { assert EntryOk(s, p, x); }
  }

  lemma WriteRowEffect(s: System, x: ExecutionId, status: Status)
    requires x in s.db && status != Waiting
    ensures Enabled(s, WriteRow(x, status))
    ensures Next(s, WriteRow(x, status)) == s.(db := s.db[x := s.db[x].(status := status)])
  {
  }

  // Cancelling a queued execution strands its first waiter for good and lets
  // the first of the rest through; without a waiter it does nothing.
  lemma CancelEffect(s: System, p: ProcId, x: ExecutionId, i: nat)
    requires QueueInv(s) && p in s.procs && s.procs[p].queue.Some?
    requires var waiting := s.procs[p].queue.value.waiting;
             && i <= |waiting| && (forall k :: 0 <= k < i ==> waiting[k].executionId != x)
             && (i < |waiting| ==> waiting[i].executionId == x)
    ensures Enabled(s, CancelQueued(p, x))
    ensures var q, next := s.procs[p].queue.value, Next(s, CancelQueued(p, x));
            if i == |q.waiting| then next == s
            else
              var rest := q.waiting[..i] + q.waiting[i + 1..];
              && q.waiting[i].ticket in s.attempts
              && next.db == s.db && next.wins == s.wins && next.releases == s.releases
              && var stranded := s.attempts[q.waiting[i].ticket := s.attempts[q.waiting[i].ticket].(phase := Stranded)];
                 if rest == [] then
                   && next.attempts == stranded
                   && next.procs == s.procs[p := s.procs[p].(queue := Some(Queue(q.capacity + 1, [])))]
                 else
                   && rest[0].ticket in stranded
                   && next.attempts == stranded[rest[0].ticket := stranded[rest[0].ticket].(phase := Reserved)]
                   && next.procs == s.procs[p := s.procs[p].(queue := Some(Queue(q.capacity + 1, rest[1..])))]
  {
    var q := s.procs[p].queue.value;
    assert QueueOk(s, p);
    FirstForIs(q.waiting, x, i);
    if i < |q.waiting| {
      RestStaysQueued(s, p, x);
      var rest := q.waiting[..i] + q.waiting[i + 1..];
      if rest != [] { assert Queued(StrandedIn(s, p, x), p, rest[0]); }
    } else {
      assert Next(s, CancelQueued(p, x)).procs == s.procs;
    }
  }

  lemma FirstForIs(waiting: seq<Waiter>, x: ExecutionId, i: nat)
    requires i <= |waiting| && (forall k :: 0 <= k < i ==> waiting[k].executionId != x)
    requires i < |waiting| ==> waiting[i].executionId == x
    ensures FirstFor(waiting, x) == i
  {
  }

  // ---------------------------------------------------------------
  // What the caps and harmless steps are
  // ---------------------------------------------------------------

  // The slots in use are those of the production attempts past the queue.
  lemma SlotsAre(s: System, p: ProcId)
    ensures Slots(s, p) == set a | a in s.attempts && s.attempts[a].proc == p && s.attempts[a].mode == Production
                             && s.attempts[a].phase in {Reserved, Won, Live, Settled}
  {
  }

  lemma CapMeans(s: System)
    ensures AllWithinCap(s) <==> forall p :: p in s.procs && s.procs[p].queue.Some? ==> |Slots(s, p)| <= s.procs[p].cap
  {
    if forall p :: p in s.procs && s.procs[p].queue.Some? ==> |Slots(s, p)| <= s.procs[p].cap {
      forall p | p in s.procs ensures WithinCap(s, p) { }
    }
    if AllWithinCap(s) {
      forall p | p in s.procs && s.procs[p].queue.Some? ensures |Slots(s, p)| <= s.procs[p].cap { assert WithinCap(s, p); }
    }
  }

  // Harmful is only cancelling an execution that is queued beside another.
  lemma HarmfulMeans(s: System, step: Step)
    requires Enabled(s, step)
    ensures !Harmless(s, step) <==>
              && step.CancelQueued?
              && |s.procs[step.p].queue.value.waiting| > 1
              && exists w :: w in s.procs[step.p].queue.value.waiting && w.executionId == step.x
  {
  }
}
