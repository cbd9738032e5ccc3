// A run in which one wait's second resumption wins the next wait.
module LateResumptionExample {
  import opened Wrappers
  import opened ConcurrencyQueue
  import opened ActiveExecutions
  import opened ExecutionProtocol

  // One process without a queue, and one execution.
  function Before(): System {
    System(map[], map[0 := Process(map[], 0, None)], map[], [], multiset{})
  }

  function Incarnation(n: nat, phase: Phase): Attempt {
    Attempt(0, 7, Ungated, n == 0, phase)
  }

  function Table(n: nat, status: Status): map<ProcId, Process> {
    map[0 := Process(map[7 := Entry(n, status, 0)], 0, None)]
  }

  // The incarnations so far, all but the last retired.
  function Incarnations(n: nat, phase: Phase): map<AttemptId, Attempt> {
    if n == 0 then map[0 := Incarnation(0, phase)]
    else Incarnations(n - 1, Closed)[n := Incarnation(n, phase)]
  }

  function WinsUpTo(n: nat): seq<Win> {
    if n == 0 then [] else WinsUpTo(n - 1) + [Win(7, n)]
  }

  // Incarnation `n` waits, is resumed by the next one, wins, and runs.
  function Waits(n: nat): System {
    System(map[7 := Row(Waiting, n + 1)], Table(n, Waiting), Incarnations(n, Parked), WinsUpTo(n), multiset{})
  }

  function Wakes(n: nat): System {
    Waits(n).(attempts := Waits(n).attempts[n + 1 := Incarnation(n + 1, Reserved)])
  }

  function Won(n: nat): System {
    Waits(n).(db := map[7 := Row(Running, n + 1)], wins := WinsUpTo(n + 1),
              attempts := Waits(n).attempts[n + 1 := Incarnation(n + 1, Phase.Won)])
  }

  function Runs(n: nat): System {
    System(map[7 := Row(Running, n)], Table(n, Running), Incarnations(n, Live), WinsUpTo(n), multiset{})
  }

  lemma {:induction false} WhoIsThere(n: nat, phase: Phase)
    ensures forall a: AttemptId :: a in Incarnations(n, phase) <==> a <= n
    ensures Incarnations(n, phase)[n] == Incarnation(n, phase)
  {
    if n > 0 { WhoIsThere(n - 1, Closed); }
  }

  // Changing the phase of the last incarnation.
  lemma Rephased(n: nat, phase: Phase, next: Phase)
    ensures Incarnations(n, phase)[n := Incarnation(n, next)] == Incarnations(n, next)
  {
    WhoIsThere(n, phase);
  }

  lemma StepWakes(n: nat)
    ensures Enabled(Waits(n), StartResume(0, n + 1, 7, Ungated))
    ensures Next(Waits(n), StartResume(0, n + 1, 7, Ungated)) == Wakes(n)
  {
    WhoIsThere(n, Parked);
  }

  lemma StepWins(n: nat)
    ensures Enabled(Wakes(n), CommitResume(n + 1)) && Next(Wakes(n), CommitResume(n + 1)) == Won(n)
  {
    WhoIsThere(n, Parked);
    var s := Wakes(n);
    assert s.attempts[n + 1] == Incarnation(n + 1, Reserved);
    assert SetStatusOf(s, 7, Running).db == map[7 := Row(Running, n + 1)];
    assert s.attempts[n + 1 := Incarnation(n + 1, Phase.Won)] == Won(n).attempts;
  }

  lemma StepRuns(n: nat)
    ensures Enabled(Won(n), Register(n + 1, 0)) && Next(Won(n), Register(n + 1, 0)) == Runs(n + 1)
  {
    WhoIsThere(n, Parked);
    var s, table := Won(n), map[7 := Entry(n, Waiting, 0)];
    assert s.procs[0].table == table && InPhase(s, n, Parked);
    assert Registered(table, 7, n + 1, 0) == map[7 := Entry(n + 1, Running, 0)];
    Rephased(n, Parked, Closed);
    var live := Next(s, Register(n + 1, 0));
    assert live.attempts == s.attempts[n := Incarnation(n, Closed)][n + 1 := Incarnation(n + 1, Live)];
    assert live.attempts == Incarnations(n + 1, Live);
    assert live.procs.Keys == Runs(n + 1).procs.Keys && live.procs[0] == Runs(n + 1).procs[0];
  }

  lemma StepParks(n: nat)
    ensures Enabled(Runs(n), Park(n)) && Next(Runs(n), Park(n)) == Waits(n)
  {
    WhoIsThere(n, Live);
    Rephased(n, Live, Parked);
    assert WithStatus(map[7 := Entry(n, Running, 0)], 7, Waiting) == map[7 := Entry(n, Waiting, 0)];
    var s := Next(Runs(n), Park(n));
    assert s.db == map[7 := Row(Waiting, n + 1)];
    assert s.procs.Keys == Waits(n).procs.Keys && s.procs[0] == Waits(n).procs[0];
  }

  lemma FirstStart()
    ensures Enabled(Before(), StartFresh(0, 0, 7, Ungated))
    ensures var started := Next(Before(), StartFresh(0, 0, 7, Ungated));
            && started == Before().(db := map[7 := Row(New, 0)], attempts := map[0 := Incarnation(0, Reserved)])
            && Enabled(started, CommitFresh(0, true))
            && Next(started, CommitFresh(0, true))
               == Before().(db := map[7 := Row(Running, 0)], attempts := map[0 := Incarnation(0, Phase.Won)])
  {
    var started := Next(Before(), StartFresh(0, 0, 7, Ungated));
    assert started.db == map[7 := Row(New, 0)] && started.attempts == map[0 := Incarnation(0, Reserved)];
    var won := Next(started, CommitFresh(0, true));
    assert won.db == map[7 := Row(Running, 0)] && won.attempts == map[0 := Incarnation(0, Phase.Won)];
  }

  lemma FirstRuns()
    ensures var s := Before().(db := map[7 := Row(Running, 0)], attempts := map[0 := Incarnation(0, Phase.Won)]);
            Enabled(s, Register(0, 0)) && Next(s, Register(0, 0)) == Runs(0)
  {
    var s := Before().(db := map[7 := Row(Running, 0)], attempts := map[0 := Incarnation(0, Phase.Won)]);
    var live := Next(s, Register(0, 0));
    assert live.attempts == map[0 := Incarnation(0, Live)];
    assert Registered(map[], 7, 0, 0) == map[7 := Entry(0, Running, 0)];
    assert live.procs.Keys == Runs(0).procs.Keys && live.procs[0] == Runs(0).procs[0];
  }

  // How the execution gets to its (n + 1)-th wait.
  function StepsTo(n: nat): seq<Step> {
    if n == 0 then [] + [StartFresh(0, 0, 7, Ungated)] + [CommitFresh(0, true)] + [Register(0, 0)] + [Park(0)]
    else
      StepsTo(n - 1) + [StartResume(0, n, 7, Ungated)] + [CommitResume(n)] + [Register(n, 0)] + [Park(n)]
  }

  predicate Leads(s: System, step: Step, next: System) {
    Enabled(s, step) && Next(s, step) == next
  }

  lemma FourSteps(s: System, steps: seq<Step>, a: Step, b: Step, c: Step, d: Step,
                  s0: System, s1: System, s2: System, s3: System, s4: System)
    requires Run(s, steps) && After(s, steps) == s0
    requires Leads(s0, a, s1) && Leads(s1, b, s2) && Leads(s2, c, s3) && Leads(s3, d, s4)
    ensures Run(s, steps + [a] + [b] + [c] + [d]) && After(s, steps + [a] + [b] + [c] + [d]) == s4
  {
    OneMoreStep(s, steps, a);
    OneMoreStep(s, steps + [a], b);
    OneMoreStep(s, steps + [a] + [b], c);
    OneMoreStep(s, steps + [a] + [b] + [c], d);
  }

  lemma FirstWait()
    ensures Run(Before(), StepsTo(0)) && After(Before(), StepsTo(0)) == Waits(0)
  {
    var s := Before();
    FirstStart();
    var started := Next(s, StartFresh(0, 0, 7, Ungated));
    var won := Next(started, CommitFresh(0, true));
    FirstRuns();
    StepParks(0);
    FourSteps(s, [], StartFresh(0, 0, 7, Ungated), CommitFresh(0, true), Register(0, 0), Park(0),
              s, started, won, Runs(0), Waits(0));
  }

  lemma NextWait(n: nat, steps: seq<Step>)
    requires Run(Before(), steps) && After(Before(), steps) == Waits(n)
    ensures var round := steps + [StartResume(0, n + 1, 7, Ungated)] + [CommitResume(n + 1)] + [Register(n + 1, 0)] + [Park(n + 1)];
            Run(Before(), round) && After(Before(), round) == Waits(n + 1)
  {
    StepWakes(n);
    StepWins(n);
    StepRuns(n);
    StepParks(n + 1);
    FourSteps(Before(), steps, StartResume(0, n + 1, 7, Ungated), CommitResume(n + 1), Register(n + 1, 0), Park(n + 1),
              Waits(n), Wakes(n), Won(n), Runs(n + 1), Waits(n + 1));
  }

  lemma {:induction false} WaitReached(n: nat)
    ensures Run(Before(), StepsTo(n)) && After(Before(), StepsTo(n)) == Waits(n)
  {
    if n == 0 {
      FirstWait();
    } else {
      WaitReached(n - 1);
      NextWait(n - 1, StepsTo(n - 1));
    }
  }

  // The execution waits, is resumed and waits again; a resumption meant for the
  // first wait, as of a stray timer or a second child, now ends the second.
  lemma SecondResumptionWins()
    ensures var steps := StepsTo(1) + [StartResume(0, 2, 7, Ungated)];
            && Init(Before()) && Run(Before(), steps)
            && var end := After(Before(), steps);
               && Win(7, 1) in end.wins && Enabled(end, CommitResume(2))
               && Next(end, CommitResume(2)).wins == end.wins + [Win(7, 2)]
  {
    WaitReached(1);
    StepWakes(1);
    OneMoreStep(Before(), StepsTo(1), StartResume(0, 2, 7, Ungated));
    StepWins(1);
    assert WinsUpTo(1) == WinsUpTo(0) + [Win(7, 1)] && WinsUpTo(2) == WinsUpTo(1) + [Win(7, 2)];
    assert Win(7, 1) in WinsUpTo(1);
  }
}
