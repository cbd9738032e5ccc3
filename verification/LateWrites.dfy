// A patch reads a waiting parent and later writes back without a condition. In
// between the parent may be patched, resumed, finished, cancelled or parked.
module LateWrites {
  import opened Wrappers
  import opened ConcurrencyQueue
  import opened ActiveExecutions
  import opened ParentExecution

  type ResumeId = nat
  type PatchId = nat

  // What a patch has read, and the turn whose data that was.
  datatype Copy = Copy(child: Child, row: Row, origin: nat)

  // `turn` counts how often the execution was resumed, parked or finished;
  // `origin` is the turn whose data the row holds, patched or not.
  datatype System = System(row: Row, origin: nat, turn: nat, loads: map<ResumeId, RunData>, copies: map<PatchId, Copy>)

  datatype Step =
    | BeginPatch(w: PatchId, child: Child)
    | EndPatch(w: PatchId)
    | Load(r: ResumeId)
    | Resume(r: ResumeId)
    | Park(data: RunData)
    | Finish(data: RunData)  // a run ends, or a waiting execution is cancelled

  // The patch `w` got past its checks when it read.
  predicate Writes(s: System, w: PatchId) {
    w in s.copies && TakesEffect(s.copies[w].row, s.copies[w].child)
  }

  // Whether the execution itself moves on.
  predicate Turns(s: System, step: Step) {
    || (step.Resume? && s.row.status == Waiting && step.r in s.loads)
    || (step.Park? && s.row.status != Waiting)
    || step.Finish?
  }

  function Turned(s: System, row: Row): System {
    s.(row := row, origin := s.turn + 1, turn := s.turn + 1)
  }

  function Next(s: System, step: Step): System {
    match step
    case BeginPatch(w, child) => s.(copies := s.copies[w := Copy(child, s.row, s.origin)])
    case EndPatch(w) =>
      if !Writes(s, w) then s
      else s.(row := s.row.(data := PatchedData(s.copies[w].row.data, s.copies[w].child)), origin := s.copies[w].origin)
    case Load(r) => s.(loads := s.loads[r := s.row.data])
    case Resume(r) => if Turns(s, step) then Turned(s, Row(Running, s.loads[r])) else s
    case Park(data) => if Turns(s, step) then Turned(s, Row(Waiting, data)) else s
    case Finish(data) => Turned(s, Row(Finished, data))
  }

  // Each step in the row's own terms.
  lemma StepsMean(s: System, w: PatchId, child: Child, r: ResumeId, data: RunData)
    ensures Next(s, BeginPatch(w, child)).row == s.row && Next(s, BeginPatch(w, child)).copies[w] == Copy(child, s.row, s.origin)
    ensures w in s.copies && TakesEffect(s.copies[w].row, s.copies[w].child) ==>
              Next(s, EndPatch(w)).row == Row(s.row.status, PatchedData(s.copies[w].row.data, s.copies[w].child))
    ensures w !in s.copies || !TakesEffect(s.copies[w].row, s.copies[w].child) ==> Next(s, EndPatch(w)) == s
    ensures Next(s, Load(r)).row == s.row && Next(s, Load(r)).loads[r] == s.row.data
    ensures s.row.status == Waiting && r in s.loads ==>
              Next(s, Resume(r)).row == Row(Running, s.loads[r]) && Next(s, Resume(r)).turn == s.turn + 1
    ensures s.row.status != Waiting || r !in s.loads ==> Next(s, Resume(r)) == s
    ensures s.row.status != Waiting ==>
              Next(s, Park(data)).row == Row(Waiting, data) && Next(s, Park(data)).turn == s.turn + 1
    ensures Next(s, Finish(data)).row == Row(Finished, data) && Next(s, Finish(data)).turn == s.turn + 1
  {
  }

  function After(s: System, steps: seq<Step>): System {
    if steps == [] then s else Next(After(s, steps[..|steps| - 1]), steps[|steps| - 1])
  }

  function StateAt(s: System, steps: seq<Step>, k: nat): System
    requires k <= |steps|
  {
    After(s, steps[..k])
  }

  lemma OneMore(s: System, steps: seq<Step>, k: nat)
    requires k < |steps|
    ensures StateAt(s, steps, k + 1) == Next(StateAt(s, steps, k), steps[k])
  {
    assert steps[..k + 1][..k] == steps[..k] && steps[..k + 1][k] == steps[k];
  }

  ghost predicate TurnsBetween(s: System, steps: seq<Step>, k: nat, n: nat)
    requires n <= |steps|
  {
    exists x :: k <= x < n && Turns(StateAt(s, steps, x), steps[x])
  }

  // Whether another patch writes between the states `k` and `n`.
  ghost predicate WritesBetween(s: System, steps: seq<Step>, k: nat, n: nat)
    requires n <= |steps|
  {
    exists x :: k <= x < n && steps[x].EndPatch? && Writes(StateAt(s, steps, x), steps[x].w)
  }

  // The turn tells whether the execution moved on.
  lemma {:induction false} TurnTells(s: System, steps: seq<Step>, k: nat, n: nat)
    requires k <= n <= |steps|
    ensures StateAt(s, steps, k).turn <= StateAt(s, steps, n).turn
    ensures StateAt(s, steps, k).turn < StateAt(s, steps, n).turn <==> TurnsBetween(s, steps, k, n)
    decreases n
  {
    if k < n {
      TurnTells(s, steps, k, n - 1);
      TurnStepAt(s, steps, n - 1);
      OneMoreTurn(s, steps, k, n - 1);
    }
  }

  lemma TurnStepAt(s: System, steps: seq<Step>, n: nat)
    requires n < |steps|
    ensures StateAt(s, steps, n + 1).turn
         == StateAt(s, steps, n).turn + (if Turns(StateAt(s, steps, n), steps[n]) then 1 else 0)
  {
    OneMore(s, steps, n);
  }

  lemma OneMoreTurn(s: System, steps: seq<Step>, k: nat, n: nat)
    requires k <= n < |steps|
    ensures TurnsBetween(s, steps, k, n + 1) <==>
              TurnsBetween(s, steps, k, n) || Turns(StateAt(s, steps, n), steps[n])
  {
  }

  // Without either the row stays as it was.
  lemma {:induction false} RowUndisturbed(s: System, steps: seq<Step>, k: nat, n: nat)
    requires k <= n <= |steps| && !TurnsBetween(s, steps, k, n) && !WritesBetween(s, steps, k, n)
    ensures StateAt(s, steps, n).row == StateAt(s, steps, k).row
    decreases n
  {
    if k < n {
      OneMore(s, steps, n - 1);
      assert !Turns(StateAt(s, steps, n - 1), steps[n - 1]);
      RowUndisturbed(s, steps, k, n - 1);
    }
  }

  ghost predicate LastRead(steps: seq<Step>, w: PatchId, k: nat, n: nat) {
    && k < n <= |steps| && steps[k].BeginPatch? && steps[k].w == w
    && forall x :: k < x < n && steps[x].BeginPatch? ==> steps[x].w != w
  }

  lemma {:induction false} CopyIsLastRead(s: System, steps: seq<Step>, w: PatchId, n: nat) returns (k: nat)
    requires n <= |steps| && w !in s.copies && w in StateAt(s, steps, n).copies
    ensures LastRead(steps, w, k, n)
    ensures StateAt(s, steps, n).copies[w]
         == Copy(steps[k].child, StateAt(s, steps, k).row, StateAt(s, steps, k).origin)
  {
    OneMore(s, steps, n - 1);
    if steps[n - 1].BeginPatch? && steps[n - 1].w == w { k := n - 1; } else { k := CopyIsLastRead(s, steps, w, n - 1); }
  }

  // ---------------------------------------------------------------
  // One write
  // ---------------------------------------------------------------

  // A patch that writes puts the data it has read, patched, under the present
  // status, whatever the execution has stored since; the turn of its read is
  // past exactly when the execution was resumed, parked or finished after it.
  lemma WritePutsBackItsRead(s: System, steps: seq<Step>, w: PatchId, n: nat) returns (k: nat)
    requires n <= |steps| && w !in s.copies && Writes(StateAt(s, steps, n), w)
    ensures LastRead(steps, w, k, n) && TakesEffect(StateAt(s, steps, k).row, steps[k].child)
    ensures var now, read, next := StateAt(s, steps, n), StateAt(s, steps, k), Next(StateAt(s, steps, n), EndPatch(w));
            && next.row == Row(now.row.status, PatchedData(read.row.data, steps[k].child))
            && next.origin == read.origin && next.turn == now.turn
            && (read.turn < now.turn <==> TurnsBetween(s, steps, k, n))
  {
    k := CopyIsLastRead(s, steps, w, n);
    TurnTells(s, steps, k, n);
  }

  // Undisturbed, the two halves are one atomic patch of the present row.
  lemma UndisturbedIsAtomic(s: System, steps: seq<Step>, w: PatchId, k: nat, n: nat)
    requires n <= |steps| && w !in s.copies && Writes(StateAt(s, steps, n), w) && LastRead(steps, w, k, n)
    requires !TurnsBetween(s, steps, k, n) && !WritesBetween(s, steps, k, n)
    ensures Next(StateAt(s, steps, n), EndPatch(w)).row == Patched(StateAt(s, steps, n).row, steps[k].child)
    ensures StateAt(s, steps, n).row.status == Waiting
  {
    var j := CopyIsLastRead(s, steps, w, n);
    assert j == k;
    RowUndisturbed(s, steps, k, n);
  }

  // ---------------------------------------------------------------
  // What an origin says about the data
  // ---------------------------------------------------------------

  // The same apart from what patches change: the head entry's data, error and
  // reference.
  ghost predicate SameRest(a: RunData, b: RunData) {
    && a.rest == b.rest && a.stack.Some? == b.stack.Some?
    && (a.stack.Some? ==>
          && |a.stack.value| == |b.stack.value| && (a.stack.value != [] ==>
             && a.stack.value[1..] == b.stack.value[1..]
             && a.stack.value[0].node == b.stack.value[0].node
             && a.stack.value[0].metadata.other == b.stack.value[0].metadata.other))
  }

  // `stored[t]` is what the execution stored at the start of turn `t`; the row
  // and every copy derive from what was stored in the turn they name.
  ghost predicate Derived(s: System, stored: map<nat, RunData>) {
    && s.origin <= s.turn && s.origin in stored && SameRest(stored[s.origin], s.row.data)
    && (forall w :: w in s.copies ==>
          s.copies[w].origin <= s.turn && s.copies[w].origin in stored
          && SameRest(stored[s.copies[w].origin], s.copies[w].row.data))
    && (forall t :: t in stored ==> t <= s.turn)
  }

  lemma PatchKeepsRest(data: RunData, child: Child)
    requires data.stack.Some? && data.stack.value != []
    ensures SameRest(data, PatchedData(data, child))
  {
    assert PatchedData(data, child).stack.value[1..] == data.stack.value[1..];
  }

  lemma DerivedStep(s: System, step: Step, stored: map<nat, RunData>)
    requires Derived(s, stored)
    ensures Derived(Next(s, step), if Turns(s, step) then stored[s.turn + 1 := Next(s, step).row.data] else stored)
  {
    if step.EndPatch? && Writes(s, step.w) { PatchKeepsRest(s.copies[step.w].row.data, s.copies[step.w].child); }
  }

  ghost function Stored(s: System, steps: seq<Step>): map<nat, RunData> {
    if steps == [] then map[s.turn := s.row.data]
    else
      var before, step := After(s, steps[..|steps| - 1]), steps[|steps| - 1];
      var stored := Stored(s, steps[..|steps| - 1]);
      if Turns(before, step) then stored[before.turn + 1 := Next(before, step).row.data] else stored
  }

  // After any run, late writes included, the row is what the execution stored
  // in the turn of its origin, but for the head entry's patched parts.
  lemma {:induction false} RowDerivesFromOrigin(s: System, steps: seq<Step>)
    requires s.copies == map[] && s.origin == s.turn
    ensures Derived(After(s, steps), Stored(s, steps))
  {
    if steps != [] {
      RowDerivesFromOrigin(s, steps[..|steps| - 1]);
      DerivedStep(After(s, steps[..|steps| - 1]), steps[|steps| - 1], Stored(s, steps[..|steps| - 1]));
    }
  }

  // ---------------------------------------------------------------
  // When the row holds the data of the present turn
  // ---------------------------------------------------------------

  ghost predicate AlwaysPresent(s: System, steps: seq<Step>, n: nat)
    requires n <= |steps|
  {
    forall i :: 0 <= i <= n ==> StateAt(s, steps, i).origin == StateAt(s, steps, i).turn
  }

  // The i-th step writes what was read at step `k`, before the execution moved on.
  ghost predicate StaleWrite(s: System, steps: seq<Step>, k: nat, i: nat) {
    && k < i < |steps| && steps[i].EndPatch? && Writes(StateAt(s, steps, i), steps[i].w)
    && LastRead(steps, steps[i].w, k, i) && TurnsBetween(s, steps, k, i)
  }

  lemma StaleWriteShows(s: System, steps: seq<Step>, k: nat, i: nat)
    requires s.copies == map[] && StaleWrite(s, steps, k, i) && AlwaysPresent(s, steps, i)
    ensures StateAt(s, steps, i + 1).origin < StateAt(s, steps, i + 1).turn
  {
    var j := WritePutsBackItsRead(s, steps, steps[i].w, i);
    assert j == k;
    OneMore(s, steps, i);
  }

  lemma {:induction false} PresentWithoutStaleWrites(s: System, steps: seq<Step>, n: nat)
    requires s.copies == map[] && s.origin == s.turn && n <= |steps|
    requires forall k: nat, i: nat :: i < n ==> !StaleWrite(s, steps, k, i)
    ensures AlwaysPresent(s, steps, n)
  {
    if n == 0 {
      assert StateAt(s, steps, 0) == s;
    } else {
      PresentWithoutStaleWrites(s, steps, n - 1);
      OneMore(s, steps, n - 1);
      if steps[n - 1].EndPatch? && Writes(StateAt(s, steps, n - 1), steps[n - 1].w) {
        var k := WritePutsBackItsRead(s, steps, steps[n - 1].w, n - 1);
        assert !StaleWrite(s, steps, k, n - 1);
        assert StateAt(s, steps, k).turn == StateAt(s, steps, n - 1).turn by { TurnTells(s, steps, k, n - 1); }
      }
    }
  }

  // In every state of a run the row holds the data of the execution's present
  // turn exactly when no patch in it writes after the execution was resumed,
  // parked or finished since that patch read.
  lemma PresentIffNoStaleWrite(s: System, steps: seq<Step>)
    requires s.copies == map[] && s.origin == s.turn
    ensures AlwaysPresent(s, steps, |steps|) <==> !exists k, i :: StaleWrite(s, steps, k, i)
  {
    if !exists k, i :: StaleWrite(s, steps, k, i) {
      PresentWithoutStaleWrites(s, steps, |steps|);
    }
    if AlwaysPresent(s, steps, |steps|) {
      if k, i :| StaleWrite(s, steps, k, i) {
        StaleWriteShows(s, steps, k, i);
        assert false;
      }
    }
  }

  // A parent is read, resumed and finished; then the write replaces its result
  // by the data it waited with.
  lemma LateWriteReplacesResult(waited: RunData, result: RunData, child: Child)
    requires TakesEffect(Row(Waiting, waited), child)
    ensures var s := System(Row(Waiting, waited), 0, 0, map[], map[]);
            var steps := [BeginPatch(0, child), Load(0), Resume(0), Finish(result)];
            && After(s, steps).row == Row(Finished, result)
            && Next(After(s, steps), EndPatch(0)).row == Row(Finished, PatchedData(waited, child))
  {
    var s := System(Row(Waiting, waited), 0, 0, map[], map[]);
    var steps := [BeginPatch(0, child), Load(0), Resume(0), Finish(result)];
    OneMore(s, steps, 0);
    OneMore(s, steps, 1);
    OneMore(s, steps, 2);
    OneMore(s, steps, 3);
    assert StateAt(s, steps, 0) == s && steps[..4] == steps;
  }
}
