// Which data a resumed execution runs with. A resumption loads the row, may
// wait long for a slot, and then writes its copy back under the one condition
// that the row is waiting.
module ResumedData {
  import opened Wrappers
  import opened ConcurrencyQueue
  import opened ActiveExecutions
  import opened ParentExecution

  type ResumeId = nat

  datatype Copy = Copy(data: RunData, episode: nat)

  // `episode` counts how often the row was written as waiting.
  datatype System = System(row: Row, episode: nat, copies: map<ResumeId, Copy>)

  datatype Step =
    | Patch(child: Child)
    | Load(r: ResumeId)
    | Resume(r: ResumeId)
    | Park(data: RunData)
    | Finish(data: RunData)  // a run ends, or a waiting execution is cancelled

  // The conditional update of `r` succeeds.
  predicate Wins(s: System, r: ResumeId) {
    s.row.status == Waiting && r in s.copies
  }

  function Next(s: System, step: Step): System {
    match step
    case Patch(child) => s.(row := Patched(s.row, child))
    case Load(r) => s.(copies := s.copies[r := Copy(s.row.data, s.episode)])
    case Resume(r) => if Wins(s, r) then s.(row := Row(Running, s.copies[r].data)) else s
    case Park(data) => if s.row.status == Waiting then s else s.(row := Row(Waiting, data), episode := s.episode + 1)
    case Finish(data) => s.(row := Row(Finished, data))
  }

  // Each step in the row's own terms.
  lemma StepsMean(s: System, child: Child, r: ResumeId, data: RunData)
    ensures Next(s, Patch(child)).row == Patched(s.row, child)
    ensures Next(s, Load(r)).row == s.row && Next(s, Load(r)).copies[r] == Copy(s.row.data, s.episode)
    ensures s.row.status == Waiting && r in s.copies ==>
              Next(s, Resume(r)).row == Row(Running, s.copies[r].data) && Next(s, Resume(r)).episode == s.episode
    ensures s.row.status != Waiting || r !in s.copies ==> Next(s, Resume(r)) == s
    ensures s.row.status != Waiting ==>
              Next(s, Park(data)).row == Row(Waiting, data) && Next(s, Park(data)).episode == s.episode + 1
    ensures Next(s, Finish(data)).row == Row(Finished, data) && Next(s, Finish(data)).episode == s.episode
  {
  }

  function After(s: System, steps: seq<Step>): System {
    if steps == [] then s else Next(After(s, steps[..|steps| - 1]), steps[|steps| - 1])
  }

  function StateAt(s: System, steps: seq<Step>, k: nat): System
    requires k <= |steps|
  {
    After(s, steps[..k])
  }

  lemma OneMore(s: System, steps: seq<Step>, k: nat)
    requires k < |steps|
    ensures StateAt(s, steps, k + 1) == Next(StateAt(s, steps, k), steps[k])
  {
    assert steps[..k + 1][..k] == steps[..k] && steps[..k + 1][k] == steps[k];
  }

  // ---------------------------------------------------------------
  // A copy is what its last load found
  // ---------------------------------------------------------------

  ghost predicate LastLoad(steps: seq<Step>, r: ResumeId, k: nat, n: nat) {
    k < n <= |steps| && steps[k] == Load(r) && forall x :: k < x < n ==> steps[x] != Load(r)
  }

  lemma {:induction false} CopyIsLastLoad(s: System, steps: seq<Step>, r: ResumeId, n: nat) returns (k: nat)
    requires n <= |steps| && r !in s.copies && r in StateAt(s, steps, n).copies
    ensures LastLoad(steps, r, k, n)
    ensures StateAt(s, steps, n).copies[r] == Copy(StateAt(s, steps, k).row.data, StateAt(s, steps, k).episode)
  {
    OneMore(s, steps, n - 1);
    if steps[n - 1] == Load(r) { k := n - 1; } else { k := CopyIsLastLoad(s, steps, r, n - 1); }
  }

  // ---------------------------------------------------------------
  // Within one waiting episode
  // ---------------------------------------------------------------

  function Children(steps: seq<Step>): seq<Child> {
    if steps == [] then []
    else
      var last := steps[|steps| - 1];
      Children(steps[..|steps| - 1]) + (if last.Patch? then [last.child] else [])
  }

  lemma ChildrenSnoc(steps: seq<Step>, step: Step)
    ensures Children(steps + [step]) == Children(steps) + (if step.Patch? then [step.child] else [])
  {
    assert (steps + [step])[..|steps|] == steps;
  }

  lemma PatchOneMore(row: Row, children: seq<Child>, child: Child)
    ensures PatchAll(row, children + [child]) == Patched(PatchAll(row, children), child)
  {
    assert (children + [child])[..|children|] == children;
  }

  // Whether the execution parks anew between the states `k` and `n`.
  ghost predicate ParksBetween(s: System, steps: seq<Step>, k: nat, n: nat)
    requires n <= |steps|
  {
    exists x :: k <= x < n && steps[x].Park? && StateAt(s, steps, x).row.status != Waiting
  }

  // The episode tells whether the execution parked anew.
  lemma {:induction false} EpisodeTells(s: System, steps: seq<Step>, k: nat, n: nat)
    requires k <= n <= |steps|
    ensures StateAt(s, steps, k).episode <= StateAt(s, steps, n).episode
    ensures StateAt(s, steps, k).episode < StateAt(s, steps, n).episode <==> ParksBetween(s, steps, k, n)
    decreases n
  {
    if k < n {
      EpisodeTells(s, steps, k, n - 1);
      OneMore(s, steps, n - 1);
      if ParksBetween(s, steps, k, n) && !ParksBetween(s, steps, k, n - 1) {
        assert steps[n - 1].Park? && StateAt(s, steps, n - 1).row.status != Waiting;
      }
    }
  }

  // As long as a row waits in one episode, only patches change it.
  lemma {:induction false} OnlyPatchesInEpisode(s: System, steps: seq<Step>, k: nat, n: nat)
    requires k <= n <= |steps| && StateAt(s, steps, n).row.status == Waiting
    requires StateAt(s, steps, k).episode == StateAt(s, steps, n).episode
    ensures StateAt(s, steps, k).row.status == Waiting
    ensures StateAt(s, steps, n).row == PatchAll(StateAt(s, steps, k).row, Children(steps[k..n]))
    decreases n
  {
    if k == n {
      assert steps[k..n] == [];
    } else {
      var before := StateAt(s, steps, n - 1);
      EpisodeTells(s, steps, k, n - 1);
      OneMore(s, steps, n - 1);
      OnlyPatchesInEpisode(s, steps, k, n - 1);
      assert steps[k..n] == steps[k..n - 1] + [steps[n - 1]];
      ChildrenSnoc(steps[k..n - 1], steps[n - 1]);
      if steps[n - 1].Patch? {
        PatchOneMore(StateAt(s, steps, k).row, Children(steps[k..n - 1]), steps[n - 1].child);
      } else {
        assert Children(steps[k..n]) == Children(steps[k..n - 1]);
      }
    }
  }

  // The reference the last failed child left, or `original`.
  function LastRelated(children: seq<Child>, original: Option<ExecutionId>): Option<ExecutionId> {
    if children == [] then original
    else
      var last := children[|children| - 1];
      if last.error.Some? && last.related.Some? then last.related else LastRelated(children[..|children| - 1], original)
  }

  // The whole head entry after any patches.
  lemma {:induction false} HeadAfterPatches(row: Row, children: seq<Child>)
    requires row.status == Waiting && row.data.stack.Some? && row.data.stack.value != []
    ensures var head := row.data.stack.value[0];
            PatchAll(row, children) == row.(data := row.data.(stack := Some(
              [StackEntry(LastOutput(children, head.data),
                          Metadata(LastError(children, head.metadata.resumeError),
                                   LastRelated(children, head.metadata.subExecution), head.metadata.other),
                          head.node)]
              + row.data.stack.value[1..])))
  {
    if children == [] {
      assert row.data.stack.value == [row.data.stack.value[0]] + row.data.stack.value[1..];
    } else {
      HeadAfterPatches(row, children[..|children| - 1]);
    }
  }

  // ---------------------------------------------------------------
  // What the winner runs with
  // ---------------------------------------------------------------

  // Patches made after the winner's load are lost: it runs with the last
  // output and the last error of the children patched before.
  lemma WinnerRunsWithItsLoad(s: System, steps: seq<Step>, r: ResumeId) returns (k: nat)
    requires s.row.status == Waiting && s.row.data.stack.Some? && s.row.data.stack.value != [] && r !in s.copies
    requires Wins(After(s, steps), r) && After(s, steps).episode == s.episode
    ensures LastLoad(steps, r, k, |steps|)
    ensures var data := Next(After(s, steps), Resume(r)).row.data;
            var head := s.row.data.stack.value[0];
            && data.stack.Some? && |data.stack.value| == |s.row.data.stack.value|
            && data.stack.value[0].data == LastOutput(Children(steps[..k]), head.data)
            && data.stack.value[0].metadata.resumeError == LastError(Children(steps[..k]), head.metadata.resumeError)
  {
    var n := |steps|;
    assert steps[..n] == steps && StateAt(s, steps, 0) == s;
    k := CopyIsLastLoad(s, steps, r, n);
    EpisodeTells(s, steps, 0, k);
    EpisodeTells(s, steps, k, n);
    OnlyPatchesInEpisode(s, steps, k, n);
    OnlyPatchesInEpisode(s, steps, 0, k);
    assert steps[0..k] == steps[..k];
    LastChildWins(s.row, Children(steps[..k]));
  }

  // The write-back leaves the row's data as it is exactly when the patches
  // since the load come to nothing: the same last output, error and reference.
  lemma NothingLostIff(s: System, steps: seq<Step>, r: ResumeId, k: nat)
    requires r !in s.copies && Wins(After(s, steps), r) && LastLoad(steps, r, k, |steps|)
    requires After(s, steps).episode == StateAt(s, steps, k).episode
    requires var data := StateAt(s, steps, k).row.data; data.stack.Some? && data.stack.value != []
    ensures var head := StateAt(s, steps, k).row.data.stack.value[0];
            var since := Children(steps[k..]);
            Next(After(s, steps), Resume(r)).row.data == After(s, steps).row.data <==>
              && LastOutput(since, head.data) == head.data
              && LastError(since, head.metadata.resumeError) == head.metadata.resumeError
              && LastRelated(since, head.metadata.subExecution) == head.metadata.subExecution
  {
    var n := |steps|;
    assert steps[..n] == steps && steps[k..n] == steps[k..];
    var j := CopyIsLastLoad(s, steps, r, n);
    assert j == k;
    OnlyPatchesInEpisode(s, steps, k, n);
    var row := StateAt(s, steps, k).row;
    HeadAfterPatches(row, Children(steps[k..]));
    assert row.data.stack.value == [row.data.stack.value[0]] + row.data.stack.value[1..];
  }

  predicate Succeeds(step: Step) {
    step.Patch? && step.child.error.None? && step.child.output.Some?
  }

  lemma {:induction false} LastOutputSince(steps: seq<Step>, i: nat, original: Data) returns (x: nat)
    requires i < |steps| && Succeeds(steps[i])
    ensures i <= x < |steps| && Succeeds(steps[x])
    ensures LastOutput(Children(steps), original) == steps[x].child.output.value
  {
    var n := |steps| - 1;
    var front, last := steps[..n], steps[n];
    assert steps == front + [last];
    ChildrenSnoc(front, last);
    if last.Patch? { assert (Children(front) + [last.child])[..|Children(front)|] == Children(front); }
    if Succeeds(last) {
      x := n;
    } else {
      if !last.Patch? { assert Children(steps) == Children(front); }
      x := LastOutputSince(front, i, original);
    }
  }

  // A resumption that loads after its own child's patch, as a parent's does,
  // runs with that child's output or one patched later, never an older one.
  lemma OwnPatchIsSeen(s: System, steps: seq<Step>, r: ResumeId, i: nat)
    requires s.row.status == Waiting && s.row.data.stack.Some? && s.row.data.stack.value != [] && r !in s.copies
    requires Wins(After(s, steps), r) && After(s, steps).episode == s.episode
    requires i < |steps| && Succeeds(steps[i]) && forall x :: 0 <= x < i ==> steps[x] != Load(r)
    ensures var data := Next(After(s, steps), Resume(r)).row.data;
            exists x :: i <= x < |steps| && Succeeds(steps[x])
              && data.stack.Some? && data.stack.value != []
              && data.stack.value[0].data == steps[x].child.output.value
  {
    var k := WinnerRunsWithItsLoad(s, steps, r);
    assert k != i && k >= i;
    var x := LastOutputSince(steps[..k], i, s.row.data.stack.value[0].data);
    assert steps[..k][x] == steps[x];
  }

  // ---------------------------------------------------------------
  // Across waiting episodes
  // ---------------------------------------------------------------

  // The condition does not name the episode: a winner runs with the data of an
  // earlier one exactly when the execution parked anew since its load.
  lemma StaleIffParkedSince(s: System, steps: seq<Step>, r: ResumeId) returns (k: nat)
    requires r !in s.copies && Wins(After(s, steps), r)
    ensures LastLoad(steps, r, k, |steps|)
    ensures After(s, steps).copies[r].episode != After(s, steps).episode <==> ParksBetween(s, steps, k, |steps|)
    ensures Next(After(s, steps), Resume(r)).row == Row(Running, StateAt(s, steps, k).row.data)
  {
    assert steps[..|steps|] == steps;
    k := CopyIsLastLoad(s, steps, r, |steps|);
    EpisodeTells(s, steps, k, |steps|);
  }

  // Two resumptions load; the first wins, runs on and parks with `later`; then
  // the second wins and runs from `first` once more.
  lemma StaleResumeRepeats(first: RunData, later: RunData)
    ensures var s := System(Row(Waiting, first), 1, map[]);
            var steps := [Load(0), Load(1), Resume(0), Park(later)];
            && After(s, steps).row == Row(Waiting, later) && Wins(After(s, steps), 1)
            && Next(After(s, steps), Resume(1)).row == Row(Running, first)
  {
    var s := System(Row(Waiting, first), 1, map[]);
    var steps := [Load(0), Load(1), Resume(0), Park(later)];
    OneMore(s, steps, 0);
    OneMore(s, steps, 1);
    OneMore(s, steps, 2);
    OneMore(s, steps, 3);
    assert StateAt(s, steps, 0) == s && steps[..4] == steps;
  }

  // A child's output patched between load and win is lost.
  lemma LatePatchIsLost(head: StackEntry, rest: string, child: Child)
    requires child.error.None? && child.output.Some?
    ensures var s := System(Row(Waiting, RunData(Some([head]), rest)), 1, map[]);
            var steps := [Load(0), Patch(child)];
            && Wins(After(s, steps), 0)
            && After(s, steps).row.data == RunData(Some([head.(data := child.output.value)]), rest)
            && Next(After(s, steps), Resume(0)).row == Row(Running, RunData(Some([head]), rest))
  {
    var s := System(Row(Waiting, RunData(Some([head]), rest)), 1, map[]);
    var steps := [Load(0), Patch(child)];
    OneMore(s, steps, 0);
    OneMore(s, steps, 1);
    assert StateAt(s, steps, 0) == s && steps[..2] == steps;
    assert [PatchedHead(head, child)] + [head][1..] == [head.(data := child.output.value)];
  }
}
