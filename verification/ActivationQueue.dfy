// Workflows whose activation failed and is retried with growing pauses.
module ActivationQueue {
  import opened Wrappers

  type WorkflowId = string
  type TimerId = nat

  const WORKFLOW_REACTIVATE_INITIAL_TIMEOUT := 1000
  const WORKFLOW_REACTIVATE_MAX_TIMEOUT := 24 * 60 * 60 * 1000

  datatype Activation = Activation(mode: string, lastTimeout: nat, timeout: TimerId)

  // A pending `setTimeout`: the closure knows the workflow and the mode.
  datatype Timer = Timer(workflowId: WorkflowId, mode: string, delay: nat)

  datatype State = State(queued: map<WorkflowId, Activation>, pending: map<TimerId, Timer>, next: TimerId)

  // How one retry ends. `Skipped`: `add` returned before reaching the queue, as
  // it does for an archived workflow. `FailedLate`: `add` threw after it had
  // removed the workflow from the queue, so the handler finds no entry.
  datatype Outcome = Activated | Skipped | Failed(isolate: bool) | FailedLate

  // ---------------------------------------------------------------
  // The steps on values
  // ---------------------------------------------------------------

  function Removed(s: State, w: WorkflowId): State {
    if w !in s.queued then s else State(s.queued - {w}, s.pending - {s.queued[w].timeout}, s.next)
  }

  function Scheduled(s: State, w: WorkflowId, mode: string, entryMode: string, delay: nat): State {
    State(s.queued[w := Activation(entryMode, delay, s.next)], s.pending[s.next := Timer(w, mode, delay)], s.next + 1)
  }

  function Added(s: State, w: WorkflowId, mode: string): State {
    Scheduled(Removed(s, w), w, mode, mode, WORKFLOW_REACTIVATE_INITIAL_TIMEOUT)
  }

  function Min(a: nat, b: nat): nat {
    if a < b then a else b
  }

  function NextTimeout(last: nat, isolate: bool): nat {
    if !isolate && last < WORKFLOW_REACTIVATE_MAX_TIMEOUT then Min(last * 2, WORKFLOW_REACTIVATE_MAX_TIMEOUT) else last
  }

  function Retried(s: State, h: TimerId, outcome: Outcome): State
    requires h in s.pending
  {
    var timer := s.pending[h];
    var fired := s.(pending := s.pending - {h});
    match outcome
    case Skipped => fired
    case Failed(isolate) =>
      if timer.workflowId !in s.queued then fired
      else
        var entry := s.queued[timer.workflowId];
        Scheduled(fired, timer.workflowId, timer.mode, entry.mode, NextTimeout(entry.lastTimeout, isolate))
    case _ => Removed(fired, timer.workflowId)
  }

  function Cleared(s: State): State {
    State(map[], s.pending - (set w | w in s.queued :: s.queued[w].timeout), s.next)
  }

  // ---------------------------------------------------------------
  // The queue object
  // ---------------------------------------------------------------

  class Queue {
    var queuedActivations: map<WorkflowId, Activation>
    var timers: map<TimerId, Timer>
    var nextTimer: TimerId

    constructor ()
      ensures View() == Empty()
    {
      queuedActivations, timers, nextTimer := map[], map[], 0;
    }

    function View(): State
      reads this
    {
      State(queuedActivations, timers, nextTimer)
    }

    method SetTimer(w: WorkflowId, mode: string, delay: nat) returns (h: TimerId)
      modifies this`timers, this`nextTimer
      ensures h == old(nextTimer) && nextTimer == h + 1
      ensures timers == old(timers)[h := Timer(w, mode, delay)]
    {
      h := nextTimer;
      timers := timers[h := Timer(w, mode, delay)];
      nextTimer := nextTimer + 1;
    }

    method AddQueuedWorkflowActivation(mode: string, w: WorkflowId)
      modifies this
      ensures View() == Added(old(View()), w, mode)
      // The old timer is cleared, entry and timer are new, the others stay.
      ensures queuedActivations == old(queuedActivations)[w := Activation(mode, 1000, old(nextTimer))]
      ensures timers == (if w in old(queuedActivations) then old(timers) - {old(queuedActivations)[w].timeout}
                         else old(timers))[old(nextTimer) := Timer(w, mode, 1000)]
    {
      RemoveQueuedWorkflowActivation(w);
      var h := SetTimer(w, mode, WORKFLOW_REACTIVATE_INITIAL_TIMEOUT);
      queuedActivations := queuedActivations[w := Activation(mode, WORKFLOW_REACTIVATE_INITIAL_TIMEOUT, h)];
    }

    // The retry function when its timer fires. The result is the error that
    // nothing catches, if there is one.
    method Retry(h: TimerId, outcome: Outcome) returns (r: Result<(), string>)
      requires h in timers
      modifies this
      ensures View() == Retried(old(View()), h, outcome)
      ensures r.Err? <==> outcome.FailedLate? || (outcome.Failed? && old(timers[h].workflowId !in queuedActivations))
      ensures forall v :: v != old(timers)[h].workflowId ==>
                (v in queuedActivations <==> v in old(queuedActivations))
                && (v in queuedActivations ==> queuedActivations[v] == old(queuedActivations)[v])
      ensures outcome.Skipped? ==> queuedActivations == old(queuedActivations) && timers == old(timers) - {h}
      ensures outcome.Activated? || outcome.FailedLate? ==> old(timers)[h].workflowId !in queuedActivations
      ensures outcome.Failed? && old(timers)[h].workflowId in old(queuedActivations) ==>
                var w, entry := old(timers)[h].workflowId, old(queuedActivations)[old(timers)[h].workflowId];
                var delay := if outcome.isolate || entry.lastTimeout >= 86400000 then entry.lastTimeout
                             else if entry.lastTimeout * 2 < 86400000 then entry.lastTimeout * 2 else 86400000;
                && queuedActivations == old(queuedActivations)[w := Activation(entry.mode, delay, old(nextTimer))]
                && timers == (old(timers) - {h})[old(nextTimer) := Timer(w, old(timers)[h].mode, delay)]
    {
      var w, mode := timers[h].workflowId, timers[h].mode;
      timers := timers - {h};
      if outcome.Activated? || outcome.FailedLate? {
        RemoveQueuedWorkflowActivation(w);
      }
      if outcome.Activated? || outcome.Skipped? {
        return Ok(());
      }
      if w !in queuedActivations {
        return Err("Cannot read properties of undefined");
      }
      var lastTimeout := queuedActivations[w].lastTimeout;
      if !outcome.isolate && lastTimeout < WORKFLOW_REACTIVATE_MAX_TIMEOUT {
        lastTimeout := Min(lastTimeout * 2, WORKFLOW_REACTIVATE_MAX_TIMEOUT);
      }
      queuedActivations := queuedActivations[w := queuedActivations[w].(lastTimeout := lastTimeout)];
      var timer := SetTimer(w, mode, lastTimeout);
      queuedActivations := queuedActivations[w := queuedActivations[w].(timeout := timer)];
      return Ok(());
    }

    method RemoveQueuedWorkflowActivation(w: WorkflowId)
      modifies this
      ensures View() == Removed(old(View()), w)
      ensures queuedActivations == old(queuedActivations) - {w}
      ensures timers == if w in old(queuedActivations) then old(timers) - {old(queuedActivations)[w].timeout} else old(timers)
    {
      if w in queuedActivations {
        timers := timers - {queuedActivations[w].timeout};
        queuedActivations := queuedActivations - {w};
      }
    }

    method RemoveAllQueuedWorkflowActivations()
      modifies this
      ensures View() == Cleared(old(View()))
      ensures queuedActivations == map[]
      ensures forall h :: h in timers <==> h in old(timers) && forall w :: w in old(queuedActivations) ==> old(queuedActivations)[w].timeout != h
    {
      ghost var was := View();
      ghost var done: set<WorkflowId> := {};
      while queuedActivations != map[]
        invariant queuedActivations == map w | w in was.queued && w !in done :: was.queued[w]
        invariant done <= was.queued.Keys
        invariant timers == was.pending - (set w | w in done :: was.queued[w].timeout)
        invariant nextTimer == was.next
        decreases queuedActivations.Keys
      {
        var w :| w in queuedActivations;
        RemoveQueuedWorkflowActivation(w);
        done := done + {w};
      }
      assert forall w :: w in was.queued && w !in done ==> w in queuedActivations;
      assert done == was.queued.Keys;
    }
  }

  // ---------------------------------------------------------------
  // Runs
  // ---------------------------------------------------------------

  datatype Event =
    | Add(w: WorkflowId, mode: string)
    | Fire(h: TimerId, outcome: Outcome)
    | Remove(w: WorkflowId)
    | RemoveAll

  function Empty(): State {
    State(map[], map[], 0)
  }

  function Next(s: State, e: Event): State {
    match e
    case Add(w, mode) => Added(s, w, mode)
    case Fire(h, outcome) => if h in s.pending then Retried(s, h, outcome) else s
    case Remove(w) => Removed(s, w)
    case RemoveAll => Cleared(s)
  }

  function After(run: seq<Event>): State {
    if run == [] then Empty() else Next(After(run[..|run| - 1]), run[|run| - 1])
  }

  // The timers and the entries agree: a pending timer is the one stored for its
  // workflow, and waits for the stored delay.
  ghost predicate Valid(s: State) {
    && (forall h :: h in s.pending ==> h < s.next)
    && (forall w :: w in s.queued ==> s.queued[w].timeout < s.next)
    && (forall h :: h in s.pending ==>
          var w := s.pending[h].workflowId;
          && w in s.queued && s.queued[w].timeout == h
          && s.queued[w].mode == s.pending[h].mode && s.queued[w].lastTimeout == s.pending[h].delay)
    && (forall v, w :: v in s.queued && w in s.queued && v != w ==> s.queued[v].timeout != s.queued[w].timeout)
  }

  // Whether `e` is a retry of `w` in `s`.
  predicate Retries(s: State, e: Event, w: WorkflowId) {
    e.Fire? && e.h in s.pending && s.pending[e.h].workflowId == w
  }

  function FailuresAfter(n: nat, s: State, e: Event, w: WorkflowId): nat {
    if e.Add? && e.w == w then 0
    else if Retries(s, e, w) && e.outcome == Failed(false) then n + 1
    else n
  }

  // Failed retries of `w`, other than from the expression isolate, since `w`
  // was last added.
  function Failures(run: seq<Event>, w: WorkflowId): nat {
    if run == [] then 0
    else FailuresAfter(Failures(run[..|run| - 1], w), After(run[..|run| - 1]), run[|run| - 1], w)
  }

  predicate GivenUpAfter(before: bool, s: State, e: Event, w: WorkflowId) {
    if e.Add? && e.w == w then false
    else if Retries(s, e, w) then e.outcome.Skipped?
    else before
  }

  // Whether the last retry of `w` since it was last added was skipped.
  predicate GivenUp(run: seq<Event>, w: WorkflowId) {
    run != [] && GivenUpAfter(GivenUp(run[..|run| - 1], w), After(run[..|run| - 1]), run[|run| - 1], w)
  }

  function Pow2(n: nat): nat {
    if n == 0 then 1 else 2 * Pow2(n - 1)
  }

  function Backoff(n: nat): nat {
    Min(1000 * Pow2(n), 86400000)
  }

  // One more failure, once the cap is reached or not.
  lemma BackoffStep(n: nat)
    ensures NextTimeout(Backoff(n), false) == Backoff(n + 1)
  {
  }

  lemma ScheduleKeepsValid(s: State, w: WorkflowId, mode: string, delay: nat)
    requires Valid(s) && forall h :: h in s.pending ==> s.pending[h].workflowId != w
    ensures Valid(Scheduled(s, w, mode, mode, delay))
  {
  }

  lemma RemoveKeepsValid(s: State, w: WorkflowId)
    requires Valid(s)
    ensures Valid(Removed(s, w)) && w !in Removed(s, w).queued
    ensures forall h :: h in Removed(s, w).pending ==> s.pending[h].workflowId != w
  {
  }

  lemma FireKeepsValid(s: State, h: TimerId)
    requires Valid(s) && h in s.pending
    ensures Valid(s.(pending := s.pending - {h}))
    ensures forall k :: k in s.pending - {h} ==> s.pending[k].workflowId != s.pending[h].workflowId
  {
  }

  lemma RetryKeepsValid(s: State, h: TimerId, outcome: Outcome)
    requires Valid(s) && h in s.pending
    ensures Valid(Retried(s, h, outcome))
  {
    var fired, w := s.(pending := s.pending - {h}), s.pending[h].workflowId;
    FireKeepsValid(s, h);
    RemoveKeepsValid(fired, w);
    if outcome.Failed? {
      ScheduleKeepsValid(fired, w, s.pending[h].mode, NextTimeout(s.queued[w].lastTimeout, outcome.isolate));
    }
  }

  lemma NextKeepsValid(s: State, e: Event)
    requires Valid(s)
    ensures Valid(Next(s, e))
  {
    match e
    case Add(w, mode) =>
      RemoveKeepsValid(s, w);
      ScheduleKeepsValid(Removed(s, w), w, mode, WORKFLOW_REACTIVATE_INITIAL_TIMEOUT);
    case Fire(h, outcome) => if h in s.pending { RetryKeepsValid(s, h, outcome); }
    case Remove(w) => RemoveKeepsValid(s, w);
    case RemoveAll => ClearingStopsAll(s);
  }

  lemma {:induction false} AlwaysValid(run: seq<Event>)
    ensures Valid(After(run))
  {
    if run != [] {
      AlwaysValid(run[..|run| - 1]);
      NextKeepsValid(After(run[..|run| - 1]), run[|run| - 1]);
    }
  }

  // A workflow never has two pending timers, and the one it has can be
  // cancelled through its entry.
  lemma OneTimerPerWorkflow(run: seq<Event>, h: TimerId, k: TimerId)
    requires h in After(run).pending && k in After(run).pending
    requires After(run).pending[h].workflowId == After(run).pending[k].workflowId
    ensures h == k
    ensures var s := After(run);
            && s.pending[h].workflowId in s.queued
            && h !in Removed(s, s.pending[h].workflowId).pending
  {
    AlwaysValid(run);
  }

  // Clearing the queue leaves no timer at all.
  lemma ClearingStopsAll(s: State)
    requires Valid(s)
    ensures Cleared(s).queued == map[] && Cleared(s).pending == map[]
    ensures Valid(Cleared(s))
  {
    forall h | h in s.pending ensures h !in Cleared(s).pending {
      assert s.queued[s.pending[h].workflowId].timeout == h;
    }
    assert Cleared(s).pending == map[];
  }

  // Events about other workflows, short of clearing the queue, leave `w`
  // queued as it was, with its entry and its timer.
  lemma OthersLeaveAlone(s: State, e: Event, w: WorkflowId)
    requires Valid(s) && !e.RemoveAll? && !(e.Add? && e.w == w) && !(e.Remove? && e.w == w) && !Retries(s, e, w)
    ensures w in Next(s, e).queued <==> w in s.queued
    ensures w in s.queued ==>
              && Next(s, e).queued[w] == s.queued[w]
              && (s.queued[w].timeout in Next(s, e).pending <==> s.queued[w].timeout in s.pending)
              && (s.queued[w].timeout in s.pending ==>
                    Next(s, e).pending[s.queued[w].timeout] == s.pending[s.queued[w].timeout])
  {
    if e.Fire? && e.h in s.pending { OtherRetry(s, e.h, e.outcome, w); }
  }

  // After every run, adding or removing one workflow leaves the others queued,
  // with their entries and timers.
  lemma OthersStayQueued(run: seq<Event>, e: Event, w: WorkflowId, v: WorkflowId)
    requires v != w && (e == Remove(w) || (e.Add? && e.w == w))
    ensures var s, next := After(run), After(run + [e]);
            && (v in next.queued <==> v in s.queued)
            && (v in s.queued ==>
                  && next.queued[v] == s.queued[v]
                  && (s.queued[v].timeout in next.pending <==> s.queued[v].timeout in s.pending)
                  && (s.queued[v].timeout in s.pending ==> next.pending[s.queued[v].timeout] == s.pending[s.queued[v].timeout]))
  {
    assert (run + [e])[..|run|] == run;
    AlwaysValid(run);
    OthersLeaveAlone(After(run), e, v);
  }

  // Added, a workflow is queued as asked and timed for a second; removed, it has
  // neither entry nor timer.
  lemma AddingAndRemoving(run: seq<Event>, w: WorkflowId, mode: string)
    ensures var added := After(run + [Add(w, mode)]);
            && w in added.queued && added.queued[w].mode == mode && added.queued[w].lastTimeout == 1000
            && added.queued[w].timeout in added.pending && added.pending[added.queued[w].timeout] == Timer(w, mode, 1000)
    ensures var removed := After(run + [Remove(w)]);
            w !in removed.queued && forall h :: h in removed.pending ==> removed.pending[h].workflowId != w
    ensures After(run + [RemoveAll]).queued == map[] && After(run + [RemoveAll]).pending == map[]
  {
    assert (run + [Add(w, mode)])[..|run|] == run && (run + [Remove(w)])[..|run|] == run && (run + [RemoveAll])[..|run|] == run;
    AlwaysValid(run);
    RemoveKeepsValid(After(run), w);
    ClearingStopsAll(After(run));
  }

  lemma OtherRetry(s: State, h: TimerId, outcome: Outcome, w: WorkflowId)
    requires Valid(s) && h in s.pending && s.pending[h].workflowId != w
    ensures var after := Retried(s, h, outcome);
            && (w in after.queued <==> w in s.queued)
            && (w in s.queued ==>
                  && after.queued[w] == s.queued[w]
                  && (s.queued[w].timeout in after.pending <==> s.queued[w].timeout in s.pending)
                  && (s.queued[w].timeout in s.pending ==> after.pending[s.queued[w].timeout] == s.pending[s.queued[w].timeout]))
  {
  }

  ghost predicate NoTimer(s: State, w: WorkflowId) {
    forall h :: h in s.pending ==> s.pending[h].workflowId != w
  }

  // What a retry leaves for its own workflow: only after a failure is there a
  // timer. A failure after the removal ends the retries without a word.
  lemma OwnRetry(s: State, h: TimerId, outcome: Outcome)
    requires Valid(s) && h in s.pending
    ensures var w, after := s.pending[h].workflowId, Retried(s, h, outcome);
            match outcome
            case Skipped => w in after.queued && after.queued[w] == s.queued[w] && NoTimer(after, w)
            case Failed(isolate) =>
              && w in after.queued && after.queued[w].timeout in after.pending
              && after.queued[w].lastTimeout == NextTimeout(s.queued[w].lastTimeout, isolate)
            case _ => w !in after.queued && NoTimer(after, w)
  {
  }

  // What the entry of `w`, if it has one, says after `n` failures.
  ghost predicate OnTrack(s: State, w: WorkflowId, n: nat, givenUp: bool) {
    w in s.queued ==>
      && s.queued[w].lastTimeout == Backoff(n)
      && (s.queued[w].timeout in s.pending <==> !givenUp)
      && (!givenUp ==> s.pending[s.queued[w].timeout] == Timer(w, s.queued[w].mode, Backoff(n)))
  }

  lemma AddTracks(s: State, w: WorkflowId, mode: string)
    ensures OnTrack(Added(s, w, mode), w, 0, false)
  {
  }

  lemma StaysOnTrack(s: State, e: Event, w: WorkflowId, n: nat, givenUp: bool)
    requires Valid(s) && OnTrack(s, w, n, givenUp)
    ensures OnTrack(Next(s, e), w, FailuresAfter(n, s, e, w), GivenUpAfter(givenUp, s, e, w))
  {
    NextKeepsValid(s, e);
    if e.Add? && e.w == w {
      AddTracks(s, w, e.mode);
    } else if Retries(s, e, w) {
      OwnRetry(s, e.h, e.outcome);
      BackoffStep(n);
    } else if w in Next(s, e).queued {
      OthersLeaveAlone(s, e, w);
    }
  }

  // After every run the delay of a queued workflow is a thousand milliseconds
  // doubled once per failure, a day at most, and its timer waits for it, unless
  // the last retry was skipped: then there is none.
  lemma {:induction false} DelayIsBackoff(run: seq<Event>, w: WorkflowId)
    ensures OnTrack(After(run), w, Failures(run, w), GivenUp(run, w))
  {
    if run != [] {
      var before := run[..|run| - 1];
      DelayIsBackoff(before, w);
      AlwaysValid(before);
      StaysOnTrack(After(before), run[|run| - 1], w, Failures(before, w), GivenUp(before, w));
    }
  }

  lemma NoTimerStays(s: State, e: Event, w: WorkflowId)
    requires Valid(s) && NoTimer(s, w) && !(e.Add? && e.w == w)
    ensures NoTimer(Next(s, e), w) && !Retries(s, e, w)
  {
  }

  // A skipped retry leaves the workflow queued but never retried again, until
  // it is added once more.
  lemma {:induction false} GivenUpStaysGivenUp(run: seq<Event>, more: seq<Event>, w: WorkflowId)
    requires w in After(run).queued && GivenUp(run, w)
    requires forall e :: e in more ==> !(e.Add? && e.w == w)
    ensures GivenUp(run + more, w) && NoTimer(After(run + more), w)
  {
    if more == [] {
      assert run + more == run;
      GivenUpHasNoTimer(run, w);
    } else {
      var all, last := run + more, more[|more| - 1];
      var mid := run + more[..|more| - 1];
      assert all[..|all| - 1] == mid && all[|all| - 1] == last && last in more;
      assert forall e :: e in more[..|more| - 1] ==> e in more;
      GivenUpStaysGivenUp(run, more[..|more| - 1], w);
      AlwaysValid(mid);
      NoTimerStays(After(mid), last, w);
    }
  }

  lemma GivenUpHasNoTimer(run: seq<Event>, w: WorkflowId)
    requires w in After(run).queued && GivenUp(run, w)
    ensures NoTimer(After(run), w)
  {
    DelayIsBackoff(run, w);
    AlwaysValid(run);
  }
}
