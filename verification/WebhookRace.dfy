// Several processes that register webhooks in one table at the same time.
module WebhookRace {
  import opened Wrappers

  type WorkflowId = string
  type Key = string

  // Where one `storeWebhook` call stands between its awaits.
  datatype Phase = Inserting | LookingUp | Updating | Registered | Rejected

  datatype Call = Call(workflowId: WorkflowId, key: Key, phase: Phase)

  // The table, by primary key, and the calls under way.
  datatype System = System(owner: map<Key, WorkflowId>, calls: seq<Call>)

  datatype Step = Begin(w: WorkflowId, key: Key) | Insert(c: nat) | Lookup(c: nat) | Update(c: nat) | Clear(w: WorkflowId)

  predicate At(s: System, c: nat, phase: Phase) {
    c < |s.calls| && s.calls[c].phase == phase
  }

  predicate Enabled(s: System, step: Step) {
    match step
    case Begin(w, key) => true
    case Insert(c) => At(s, c, Inserting)
    case Lookup(c) => At(s, c, LookingUp)
    case Update(c) => At(s, c, Updating)
    case Clear(w) => true
  }

  function Moved(s: System, c: nat, phase: Phase): System
    requires c < |s.calls|
  {
    s.(calls := s.calls[c := s.calls[c].(phase := phase)])
  }

  function Next(s: System, step: Step): System
    requires Enabled(s, step)
  {
    match step
    case Begin(w, key) => s.(calls := s.calls + [Call(w, key, Inserting)])
    case Insert(c) =>
      var call := s.calls[c];
      if call.key in s.owner then Moved(s, c, LookingUp)
      else Moved(s.(owner := s.owner[call.key := call.workflowId]), c, Registered)
    case Lookup(c) =>
      var call := s.calls[c];
      if call.key in s.owner && s.owner[call.key] == call.workflowId then Moved(s, c, Updating) else Moved(s, c, Rejected)
    case Update(c) =>
      var call := s.calls[c];
      // The update is by key alone and writes the workflow id with the rest.
      Moved(if call.key in s.owner then s.(owner := s.owner[call.key := call.workflowId]) else s, c, Registered)
    case Clear(w) => s.(owner := map key | key in s.owner && s.owner[key] != w :: s.owner[key])
  }

  // What each await of a registration finds and does.
  lemma RegistrationSteps(s: System, c: nat)
    requires c < |s.calls|
    ensures var call := s.calls[c];
            && (call.phase == Inserting ==>
                  && Enabled(s, Insert(c))
                  && Next(s, Insert(c)) ==
                     if call.key in s.owner then System(s.owner, s.calls[c := Call(call.workflowId, call.key, LookingUp)])
                     else System(s.owner[call.key := call.workflowId], s.calls[c := Call(call.workflowId, call.key, Registered)]))
            && (call.phase == LookingUp ==>
                  && Enabled(s, Lookup(c))
                  && Next(s, Lookup(c)) ==
                     if call.key in s.owner && s.owner[call.key] == call.workflowId
                     then System(s.owner, s.calls[c := Call(call.workflowId, call.key, Updating)])
                     else System(s.owner, s.calls[c := Call(call.workflowId, call.key, Rejected)]))
            && (call.phase == Updating ==>
                  && Enabled(s, Update(c))
                  && Next(s, Update(c)).calls == s.calls[c := Call(call.workflowId, call.key, Registered)]
                  && Next(s, Update(c)).owner == if call.key in s.owner then s.owner[call.key := call.workflowId] else s.owner)
  {
  }

  // A registration begins with its insert; a clearing takes a workflow's rows
  // and no others.
  lemma BeginningAndClearing(s: System, w: WorkflowId, key: Key)
    ensures Enabled(s, Begin(w, key)) && Enabled(s, Clear(w))
    ensures Next(s, Begin(w, key)) == System(s.owner, s.calls + [Call(w, key, Inserting)])
    ensures Next(s, Clear(w)).calls == s.calls
    ensures forall k :: k in Next(s, Clear(w)).owner <==> k in s.owner && s.owner[k] != w
    ensures forall k :: k in Next(s, Clear(w)).owner ==> Next(s, Clear(w)).owner[k] == s.owner[k]
  {
  }

  // A step that is not enabled does nothing.
  function After(s: System, run: seq<Step>): System {
    if run == [] then s
    else
      var before := After(s, run[..|run| - 1]);
      if Enabled(before, run[|run| - 1]) then Next(before, run[|run| - 1]) else before
  }

  // No row passes from one workflow to another.
  ghost predicate KeepsOwners(before: System, after: System) {
    forall key :: key in before.owner && key in after.owner ==> before.owner[key] == after.owner[key]
  }

  // The calls that found a row of their own workflow still have it.
  ghost predicate UpdatesOwn(s: System) {
    forall c :: 0 <= c < |s.calls| && s.calls[c].phase.Updating? ==>
      s.calls[c].key in s.owner && s.owner[s.calls[c].key] == s.calls[c].workflowId
  }

  // Clears no workflow with a registration about to update.
  ghost predicate Quiet(s: System, step: Step) {
    step.Clear? ==> forall c :: 0 <= c < |s.calls| && s.calls[c].workflowId == step.w ==> !s.calls[c].phase.Updating?
  }

  ghost predicate QuietRun(s: System, run: seq<Step>) {
    forall i :: 0 <= i < |run| ==> Quiet(After(s, run[..i]), run[i])
  }

  // ---------------------------------------------------------------
  // Ownership
  // ---------------------------------------------------------------

  // The one step that can take a row over is an update after the row changed
  // hands.
  lemma OnlyLateUpdatesTakeOver(s: System, step: Step)
    requires Enabled(s, step)
    ensures KeepsOwners(s, Next(s, step)) <==>
              !(step.Update? && s.calls[step.c].key in s.owner && s.owner[s.calls[step.c].key] != s.calls[step.c].workflowId)
  {
    if step.Update? {
      var key := s.calls[step.c].key;
      if key in s.owner { assert key in Next(s, step).owner; }
    }
  }

  lemma QuietKeepsUpdatesOwn(s: System, step: Step)
    requires Enabled(s, step) && UpdatesOwn(s) && Quiet(s, step)
    ensures UpdatesOwn(Next(s, step))
  {
  }

  lemma FrontIsQuiet(s: System, run: seq<Step>, n: nat)
    requires QuietRun(s, run) && n <= |run|
    ensures QuietRun(s, run[..n])
  {
    var front := run[..n];
    forall i | 0 <= i < n ensures Quiet(After(s, front[..i]), front[i]) {
      assert front[..i] == run[..i];
      assert Quiet(After(s, run[..i]), run[i]);
    }
  }

  lemma {:induction false} AlwaysUpdatesOwn(s: System, run: seq<Step>)
    requires UpdatesOwn(s) && QuietRun(s, run)
    ensures UpdatesOwn(After(s, run))
  {
    if run != [] {
      var front, last := run[..|run| - 1], run[|run| - 1];
      FrontIsQuiet(s, run, |run| - 1);
      AlwaysUpdatesOwn(s, front);
      assert run[..|run| - 1] == front;
      if Enabled(After(s, front), last) { QuietKeepsUpdatesOwn(After(s, front), last); }
    }
  }

  lemma AfterOneMore(s: System, run: seq<Step>, i: nat)
    requires i < |run|
    ensures After(s, run[..i + 1])
         == if Enabled(After(s, run[..i]), run[i]) then Next(After(s, run[..i]), run[i]) else After(s, run[..i])
  {
    assert run[..i + 1][..i] == run[..i] && run[..i + 1][i] == run[i];
  }

  // In every interleaving in which no workflow is cleared between one of its
  // lookups and the update, no row ever passes from one workflow to another.
  lemma RowsAreNeverTakenOver(s: System, run: seq<Step>, i: nat)
    requires UpdatesOwn(s) && QuietRun(s, run) && i < |run|
    ensures KeepsOwners(After(s, run[..i]), After(s, run[..i + 1]))
  {
    FrontIsQuiet(s, run, i);
    AlwaysUpdatesOwn(s, run[..i]);
    AfterOneMore(s, run, i);
    if Enabled(After(s, run[..i]), run[i]) { OnlyLateUpdatesTakeOver(After(s, run[..i]), run[i]); }
  }

  // ---------------------------------------------------------------
  // What a takeover takes
  // ---------------------------------------------------------------

  function Owner(s: System, key: Key): Option<WorkflowId> {
    if key in s.owner then Some(s.owner[key]) else None
  }

  // The state before the i-th step.
  function StateAt(s: System, run: seq<Step>, i: nat): System
    requires i <= |run|
  {
    After(s, run[..i])
  }

  // The workflow of call `c` is cleared although `c` is about to update, then
  // another workflow inserts the path and keeps it until step `i`, the update.
  ghost predicate StaleChain(s: System, run: seq<Step>, c: nat, j: nat, l: nat, i: nat) {
    && j < l < i < |run| && run[i] == Update(c) && At(StateAt(s, run, i), c, Updating)
    && var call := StateAt(s, run, i).calls[c];
       && run[j] == Clear(call.workflowId) && At(StateAt(s, run, j), c, Updating)
       && Owner(StateAt(s, run, j), call.key) == Some(call.workflowId)
       && run[l].Insert? && At(StateAt(s, run, l), run[l].c, Inserting)
       && Owner(StateAt(s, run, l), call.key) == None
       && var other := StateAt(s, run, l).calls[run[l].c];
          && other.key == call.key && other.workflowId != call.workflowId
          && forall x :: l < x <= i ==> Owner(StateAt(s, run, x), call.key) == Some(other.workflowId)
  }

  ghost predicate OwnersKeptUntil(s: System, run: seq<Step>, n: nat)
    requires n <= |run|
  {
    forall i :: 0 <= i < n ==> KeepsOwners(StateAt(s, run, i), StateAt(s, run, i + 1))
  }

  // A call that is about to update was so before or has just found its own
  // row; without a takeover only clearing its workflow can cost it that row.
  lemma UpdatingStep(s: System, step: Step, c: nat)
    requires Enabled(s, step) && At(Next(s, step), c, Updating)
    ensures var call, s' := Next(s, step).calls[c], Next(s, step);
            && ((At(s, c, Updating) && s.calls[c] == call) || Owner(s', call.key) == Some(call.workflowId))
            && (Owner(s, call.key) == Some(call.workflowId) && Owner(s', call.key) != Some(call.workflowId) && KeepsOwners(s, s') ==>
                  step == Clear(call.workflowId) && Owner(s', call.key) == None)
  {
  }

  // A free path gets an owner through an insert only.
  lemma InsertStep(s: System, step: Step, key: Key)
    requires Enabled(s, step) && Owner(s, key) == None && Owner(Next(s, step), key).Some?
    ensures step.Insert? && s.calls[step.c].key == key && Owner(Next(s, step), key) == Some(s.calls[step.c].workflowId)
  {
  }

  lemma {:induction false} ClearedBefore(s: System, run: seq<Step>, c: nat, n: nat) returns (j: nat)
    requires UpdatesOwn(s) && n <= |run| && OwnersKeptUntil(s, run, n) && At(StateAt(s, run, n), c, Updating)
    requires var call := StateAt(s, run, n).calls[c]; Owner(StateAt(s, run, n), call.key) != Some(call.workflowId)
    ensures var call := StateAt(s, run, n).calls[c];
            && j < n && run[j] == Clear(call.workflowId) && At(StateAt(s, run, j), c, Updating)
            && Owner(StateAt(s, run, j), call.key) == Some(call.workflowId)
            && Owner(StateAt(s, run, j + 1), call.key) == None
  {
    var before, call := StateAt(s, run, n - 1), StateAt(s, run, n).calls[c];
    AfterOneMore(s, run, n - 1);
    assert KeepsOwners(before, StateAt(s, run, n - 1 + 1));
    if Enabled(before, run[n - 1]) { UpdatingStep(before, run[n - 1], c); }
    if Owner(before, call.key) == Some(call.workflowId) {
      j := n - 1;
    } else {
      j := ClearedBefore(s, run, c, n - 1);
    }
  }

  lemma {:induction false} InsertedSince(s: System, run: seq<Step>, key: Key, m: nat, n: nat) returns (l: nat)
    requires m <= n <= |run| && OwnersKeptUntil(s, run, n)
    requires Owner(StateAt(s, run, m), key) == None && Owner(StateAt(s, run, n), key).Some?
    ensures m <= l < n && run[l].Insert? && At(StateAt(s, run, l), run[l].c, Inserting)
    ensures Owner(StateAt(s, run, l), key) == None && StateAt(s, run, l).calls[run[l].c].key == key
    ensures forall x :: l < x <= n ==> Owner(StateAt(s, run, x), key) == Some(StateAt(s, run, l).calls[run[l].c].workflowId)
    ensures Owner(StateAt(s, run, n), key) == Some(StateAt(s, run, l).calls[run[l].c].workflowId)
    decreases n
  {
    var before := StateAt(s, run, n - 1);
    AfterOneMore(s, run, n - 1);
    assert KeepsOwners(before, StateAt(s, run, n - 1 + 1));
    if Owner(before, key) == None {
      InsertStep(before, run[n - 1], key);
      l := n - 1;
    } else {
      l := InsertedSince(s, run, key, m, n - 1);
      assert key in before.owner && key in StateAt(s, run, n).owner;
    }
  }

  // The first takeover of a run is the end of such a chain.
  lemma FirstTakeover(s: System, run: seq<Step>, i: nat) returns (c: nat, j: nat, l: nat)
    requires UpdatesOwn(s) && i < |run| && OwnersKeptUntil(s, run, i)
    requires !KeepsOwners(StateAt(s, run, i), StateAt(s, run, i + 1))
    ensures StaleChain(s, run, c, j, l, i)
  {
    var now := StateAt(s, run, i);
    AfterOneMore(s, run, i);
    OnlyLateUpdatesTakeOver(now, run[i]);
    c := run[i].c;
    j := ClearedBefore(s, run, c, i);
    l := InsertedSince(s, run, now.calls[c].key, j + 1, i);
  }

  lemma ChainTakesOver(s: System, run: seq<Step>, c: nat, j: nat, l: nat, i: nat)
    requires StaleChain(s, run, c, j, l, i)
    ensures !KeepsOwners(StateAt(s, run, i), StateAt(s, run, i + 1))
  {
    AfterOneMore(s, run, i);
    OnlyLateUpdatesTakeOver(StateAt(s, run, i), run[i]);
    assert Owner(StateAt(s, run, i), StateAt(s, run, i).calls[c].key).Some?;
  }

  // In a run no row passes from one workflow to another exactly when no
  // workflow is cleared while it is about to update, loses the path to
  // another's insert, and updates while that one still has it.
  lemma TakeoverIffStaleChain(s: System, run: seq<Step>)
    requires UpdatesOwn(s)
    ensures OwnersKeptUntil(s, run, |run|) <==> !exists c, j, l, i :: StaleChain(s, run, c, j, l, i)
  {
    if c, j, l, i :| StaleChain(s, run, c, j, l, i) { ChainTakesOver(s, run, c, j, l, i); }
    if !OwnersKeptUntil(s, run, |run|) {
      var i := FirstLoss(s, run, |run|);
      var c, j, l := FirstTakeover(s, run, i);
    }
  }

  lemma {:induction false} FirstLoss(s: System, run: seq<Step>, n: nat) returns (i: nat)
    requires n <= |run| && !OwnersKeptUntil(s, run, n)
    ensures i < n && OwnersKeptUntil(s, run, i) && !KeepsOwners(StateAt(s, run, i), StateAt(s, run, i + 1))
  {
    if OwnersKeptUntil(s, run, n - 1) { i := n - 1; } else { i := FirstLoss(s, run, n - 1); }
  }

  // ---------------------------------------------------------------
  // Racing for a path
  // ---------------------------------------------------------------

  ghost predicate Holds(s: System, w: WorkflowId) {
    forall c :: 0 <= c < |s.calls| && s.calls[c].workflowId == w && s.calls[c].phase in {Updating, Registered} ==>
      Owner(s, s.calls[c].key) == Some(w)
  }

  lemma HoldsStep(s: System, step: Step, w: WorkflowId)
    requires Enabled(s, step) && Holds(s, w) && KeepsOwners(s, Next(s, step)) && step != Clear(w)
    ensures Holds(Next(s, step), w)
  {
  }

  lemma {:induction false} HoldsUnlessCleared(s: System, run: seq<Step>, w: WorkflowId)
    requires UpdatesOwn(s) && QuietRun(s, run) && Holds(s, w) && Clear(w) !in run
    ensures Holds(After(s, run), w)
  {
    if run != [] {
      var n := |run| - 1;
      FrontIsQuiet(s, run, n);
      assert run[n] in run && forall step :: step in run[..n] ==> step in run;
      HoldsUnlessCleared(s, run[..n], w);
      RowsAreNeverTakenOver(s, run, n);
      assert run[..n + 1] == run;
      if Enabled(After(s, run[..n]), run[n]) { HoldsStep(After(s, run[..n]), run[n], w); }
    }
  }

  // From any table, with any other clearings between: of two workflows that
  // are not themselves cleared, one gets a path they race for.
  lemma OneWinnerPerPath(s: System, run: seq<Step>, c: nat, d: nat)
    requires s.calls == [] && QuietRun(s, run)
    requires At(After(s, run), c, Registered) && At(After(s, run), d, Registered)
    requires After(s, run).calls[c].key == After(s, run).calls[d].key
    requires Clear(After(s, run).calls[c].workflowId) !in run && Clear(After(s, run).calls[d].workflowId) !in run
    ensures After(s, run).calls[c].workflowId == After(s, run).calls[d].workflowId
    ensures Owner(After(s, run), After(s, run).calls[c].key) == Some(After(s, run).calls[c].workflowId)
  {
    HoldsUnlessCleared(s, run, After(s, run).calls[c].workflowId);
    HoldsUnlessCleared(s, run, After(s, run).calls[d].workflowId);
  }

  // `a` finds its old row and is cleared, `b` registers the path and is done;
  // then the update of `a` takes the row of `b`.
  lemma StaleUpdateTakesOver()
    ensures var s := System(map["p" := "a"], [Call("a", "p", LookingUp), Call("b", "p", Inserting)]);
            var run := [Lookup(0), Clear("a"), Insert(1), Update(0)];
            && UpdatesOwn(s)
            && Owner(After(s, run[..3]), "p") == Some("b") && At(After(s, run[..3]), 1, Registered)
            && Owner(After(s, run), "p") == Some("a")
  {
    var s := System(map["p" := "a"], [Call("a", "p", LookingUp), Call("b", "p", Inserting)]);
    var run := [Lookup(0), Clear("a"), Insert(1), Update(0)];
    assert run[..3][..2] == run[..2] && run[..2][..1] == run[..1] && run[..1][..0] == [];
    assert After(s, run[..1]) == System(map["p" := "a"], [Call("a", "p", Updating), Call("b", "p", Inserting)]);
    assert After(s, run[..2]).owner == map[];
    assert After(s, run[..3]) == System(map["p" := "b"], [Call("a", "p", Updating), Call("b", "p", Registered)]);
  }
}
