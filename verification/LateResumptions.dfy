// What becomes of a resumption that comes after another one has already won: a
// stray timer, a second child of the same parent, a retry.
module LateResumptions {
  import opened Wrappers
  import opened ConcurrencyQueue
  import opened ActiveExecutions
  import opened ExecutionProtocol

  // `step` parks an incarnation of `x`.
  predicate Parks(s: System, step: Step, x: ExecutionId) {
    step.Park? && step.a in s.attempts && s.attempts[step.a].exec == x
  }

  // `step` is a successful resumption of `x`.
  predicate Wins(s: System, step: Step, x: ExecutionId) {
    step.CommitResume? && step.a in s.attempts && s.attempts[step.a].exec == x && IsWaiting(s, x)
  }

  // ---------------------------------------------------------------
  // Episodes and wins, step by step
  // ---------------------------------------------------------------

  lemma ParkEpisode(s: System, a: AttemptId, x: ExecutionId)
    requires OwnersInv(s) && InPhase(s, a, Live) && x in s.db
    ensures var next := AfterPark(s, a);
            && x in next.db && next.wins == s.wins && next.db.Keys == s.db.Keys
            && next.db[x].episode == s.db[x].episode + (if s.attempts[a].exec == x then 1 else 0)
            && (s.attempts[a].exec == x ==> !IsWaiting(s, x) && IsWaiting(next, x))
            && (s.attempts[a].exec != x ==> (IsWaiting(next, x) <==> IsWaiting(s, x)))
  {
    assert Owner(s.attempts[a]);
    ReleaseKeepsRows(ParkedAs(s, a), a);
  }

  lemma ReleaseKeepsRows(s: System, a: AttemptId)
    requires a in s.attempts
    ensures Release(s, a).db == s.db && Release(s, a).wins == s.wins
  {
  }

  // The episode of a row counts how often the execution parks, and the log
  // grows with each win; rows are never removed.
  lemma EpisodeStep(s: System, step: Step, x: ExecutionId)
    requires OwnersInv(s) && Enabled(s, step) && x in s.db
    ensures var next := Next(s, step);
            && x in next.db
            && next.db[x].episode == s.db[x].episode + (if Parks(s, step, x) then 1 else 0)
            && (IsWaiting(next, x) ==> Parks(s, step, x) || (IsWaiting(s, x) && !Wins(s, step, x)))
            && (Parks(s, step, x) ==> !IsWaiting(s, x))
  {
    if !Claims(s, step) {
      OtherStepsShrink(s, step);
    } else if step.Park? {
      ParkEpisode(s, step.a, x);
    }
  }

  lemma WinsGrow(s: System, step: Step)
    requires OwnersInv(s) && Enabled(s, step)
    ensures var next := Next(s, step);
            if step.CommitResume? && Wins(s, step, s.attempts[step.a].exec) then
              var x := s.attempts[step.a].exec;
              next.wins == s.wins + [Win(x, s.db[x].episode)]
            else next.wins == s.wins
  {
    if !Claims(s, step) {
      OtherStepsShrink(s, step);
    } else if step.Park? {
      ReleaseKeepsRows(ParkedAs(s, step.a), step.a);
    }
  }

  // ---------------------------------------------------------------
  // Whole runs
  // ---------------------------------------------------------------

  // Whether `x` parks between the states `k` and `n`.
  ghost predicate ParksBetween(s: System, steps: seq<Step>, x: ExecutionId, k: nat, n: nat)
    requires Run(s, steps) && n <= |steps|
  {
    exists m :: k <= m < n && Parks(StateAt(s, steps, m), steps[m], x)
  }

  // The n-th step, in a state that keeps the invariants.
  lemma StepAt(s: System, steps: seq<Step>, n: nat)
    requires Init(s) && Run(s, steps) && n < |steps|
    ensures Inv(StateAt(s, steps, n)) && Enabled(StateAt(s, steps, n), steps[n])
    ensures StateAt(s, steps, n + 1) == Next(StateAt(s, steps, n), steps[n])
  {
    RunPrefix(s, steps, n);
    Always(s, steps[..n]);
  }

  lemma OneMorePark(s: System, steps: seq<Step>, x: ExecutionId, k: nat, n: nat)
    requires Run(s, steps) && k <= n < |steps|
    ensures ParksBetween(s, steps, x, k, n + 1) <==>
              ParksBetween(s, steps, x, k, n) || Parks(StateAt(s, steps, n), steps[n], x)
  {
  }

  lemma EpisodeStepAt(s: System, steps: seq<Step>, x: ExecutionId, n: nat)
    requires Init(s) && Run(s, steps) && n < |steps| && x in StateAt(s, steps, n).db
    ensures x in StateAt(s, steps, n + 1).db
    ensures StateAt(s, steps, n + 1).db[x].episode
         == StateAt(s, steps, n).db[x].episode + (if Parks(StateAt(s, steps, n), steps[n], x) then 1 else 0)
  {
    StepAt(s, steps, n);
    EpisodeStep(StateAt(s, steps, n), steps[n], x);
  }

  lemma {:induction false} EpisodeTells(s: System, steps: seq<Step>, x: ExecutionId, k: nat, n: nat)
    requires Init(s) && Run(s, steps) && k <= n <= |steps| && x in StateAt(s, steps, k).db
    ensures x in StateAt(s, steps, n).db
    ensures StateAt(s, steps, k).db[x].episode <= StateAt(s, steps, n).db[x].episode
    ensures StateAt(s, steps, k).db[x].episode < StateAt(s, steps, n).db[x].episode <==> ParksBetween(s, steps, x, k, n)
    decreases n
  {
    if k < n {
      EpisodeTells(s, steps, x, k, n - 1);
      EpisodeStepAt(s, steps, x, n - 1);
      OneMorePark(s, steps, x, k, n - 1);
    }
  }

  // The step `k` made the win that is logged.
  ghost predicate WonAt(s: System, steps: seq<Step>, w: Win, k: nat)
    requires Run(s, steps)
  {
    && k < |steps|
    && Wins(StateAt(s, steps, k), steps[k], w.exec)
    && StateAt(s, steps, k).db[w.exec].episode == w.episode
  }

  lemma NewWin(s: System, step: Step, w: Win)
    requires OwnersInv(s) && Enabled(s, step) && w in Next(s, step).wins && w !in s.wins
    ensures Wins(s, step, w.exec) && s.db[w.exec].episode == w.episode
  {
    WinsGrow(s, step);
  }

  lemma {:induction false} EachWinHasAStep(s: System, steps: seq<Step>, w: Win, n: nat) returns (k: nat)
    requires Init(s) && Run(s, steps) && n <= |steps| && w in StateAt(s, steps, n).wins
    ensures k < n && WonAt(s, steps, w, k)
  {
    assert n > 0 by { assert steps[..0] == []; }
    StepAt(s, steps, n - 1);
    if w in StateAt(s, steps, n - 1).wins {
      k := EachWinHasAStep(s, steps, w, n - 1);
    } else {
      NewWin(StateAt(s, steps, n - 1), steps[n - 1], w);
      k := n - 1;
    }
  }

  // Once an execution was resumed, a further resumption wins exactly when it
  // has parked anew since that win, and waits. It then ends the new wait,
  // however early; otherwise it changes neither rows nor log.
  lemma LateResumeWinsIff(s: System, steps: seq<Step>, a: AttemptId, e: nat) returns (k: nat)
    requires Init(s) && Run(s, steps) && Enabled(After(s, steps), CommitResume(a))
    requires Win(After(s, steps).attempts[a].exec, e) in After(s, steps).wins
    ensures var end, x := After(s, steps), After(s, steps).attempts[a].exec;
            var next := Next(end, CommitResume(a));
            && WonAt(s, steps, Win(x, e), k)
            && x in end.db
            && (next.wins != end.wins <==> IsWaiting(end, x) && end.db[x].episode > e)
            && (next.wins != end.wins <==> IsWaiting(end, x) && ParksBetween(s, steps, x, k, |steps|))
            && (next.wins != end.wins ==> next.wins == end.wins + [Win(x, end.db[x].episode)])
            && (next.wins == end.wins ==> next.db == end.db)
  {
    var end, x := After(s, steps), After(s, steps).attempts[a].exec;
    assert steps[..|steps|] == steps;
    Always(s, steps);
    k := EachWinHasAStep(s, steps, Win(x, e), |steps|);
    EpisodeTells(s, steps, x, k, |steps|);
    WinsGrow(end, CommitResume(a));
    if IsWaiting(end, x) {
      assert Win(x, end.db[x].episode) !in end.wins;
    } else {
      LosingChangesNothing(end, a);
    }
  }

  // ---------------------------------------------------------------
  // Resumptions against waits
  // ---------------------------------------------------------------

  function WinsOf(wins: seq<Win>, x: ExecutionId): nat {
    if wins == [] then 0
    else WinsOf(wins[..|wins| - 1], x) + (if wins[|wins| - 1].exec == x then 1 else 0)
  }

  ghost function ParksOf(s: System, steps: seq<Step>, x: ExecutionId): nat
    requires Run(s, steps)
    decreases |steps|
  {
    if steps == [] then 0
    else
      ParksOf(s, steps[..|steps| - 1], x)
      + (if Parks(After(s, steps[..|steps| - 1]), steps[|steps| - 1], x) then 1 else 0)
  }

  ghost function Episode(s: System, x: ExecutionId): nat {
    if x in s.db then s.db[x].episode else 0
  }

  lemma WinsOfSnoc(wins: seq<Win>, w: Win, x: ExecutionId)
    ensures WinsOf(wins + [w], x) == WinsOf(wins, x) + (if w.exec == x then 1 else 0)
  {
    assert (wins + [w])[..|wins|] == wins;
  }

  lemma BalanceStep(s: System, step: Step, x: ExecutionId)
    requires OwnersInv(s) && Enabled(s, step)
    ensures var next := Next(s, step);
            && WinsOf(next.wins, x) == WinsOf(s.wins, x) + (if Wins(s, step, x) then 1 else 0)
            && (x in s.db ==> Episode(next, x) == Episode(s, x) + (if Parks(s, step, x) then 1 else 0))
  {
    WinsGrow(s, step);
    if x in s.db { EpisodeStep(s, step, x); }
    if step.CommitResume? && Wins(s, step, s.attempts[step.a].exec) {
      var y := s.attempts[step.a].exec;
      WinsOfSnoc(s.wins, Win(y, s.db[y].episode), x);
    }
  }

  // A row that appears is new: not waiting, in no episode.
  lemma AppearsNew(s: System, step: Step, x: ExecutionId)
    requires OwnersInv(s) && Enabled(s, step) && x !in s.db
    ensures Episode(Next(s, step), x) == 0 && !IsWaiting(Next(s, step), x)
    ensures !Wins(s, step, x) && !Parks(s, step, x)
  {
    if !Claims(s, step) {
      OtherStepsShrink(s, step);
    } else if step.Park? {
      ReleaseKeepsRows(ParkedAs(s, step.a), step.a);
    }
  }

  // Every resumption uses up one wait, and a wait that goes on is not used up:
  // an execution is never resumed more often than it parked.
  lemma {:induction false} ResumptionsUseUpWaits(s: System, steps: seq<Step>, x: ExecutionId)
    requires Init(s) && Run(s, steps) && x !in s.db
    ensures var end := After(s, steps);
            WinsOf(end.wins, x) + (if IsWaiting(end, x) then 1 else 0) <= Episode(end, x) == ParksOf(s, steps, x)
  {
    if steps != [] {
      var before, step := steps[..|steps| - 1], steps[|steps| - 1];
      ResumptionsUseUpWaits(s, before, x);
      Always(s, before);
      BalanceStep(After(s, before), step, x);
      if x in After(s, before).db {
        EpisodeStep(After(s, before), step, x);
      } else {
        AppearsNew(After(s, before), step, x);
      }
    }
  }
}
