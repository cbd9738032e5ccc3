// When an execution is stopped: its own timeout, the deadlines handed down to
// nested sub-workflows, and the timer of a resumed run.
module Deadlines {
  import opened Wrappers

  // Milliseconds since the epoch, and durations in seconds.
  type Time = real
  type Seconds = real

  datatype Config = Config(timeout: Seconds, maxTimeout: Seconds)

  function Min(a: real, b: real): real {
    if a < b then a else b
  }

  // ---------------------------------------------------------------
  // Sub-workflows
  // ---------------------------------------------------------------

  // No cap when `maxTimeout` is not positive.
  function Capped(timeout: Seconds, config: Config): Seconds {
    if config.maxTimeout > 0.0 then Min(timeout, config.maxTimeout) else timeout
  }

  function DetermineWorkflowDeadline(start: Time, executionTimeout: Option<Seconds>, config: Config): Option<Time> {
    match executionTimeout
    case Some(own) => if own <= 0.0 then None else Some(start + Capped(own, config) * 1000.0)
    case None => if config.timeout > 0.0 then Some(start + Capped(config.timeout, config) * 1000.0) else None
  }

  function ResolveSubworkflowDeadline(own: Option<Time>, parent: Option<Time>, doNotWaitToFinish: bool): Option<Time> {
    if doNotWaitToFinish then own
    else if parent.Some? && own.Some? then Some(Min(parent.value, own.value))
    else if parent.Some? then parent else own
  }

  // `a` is no later than `b`, no deadline being the latest.
  predicate NoLater(a: Option<Time>, b: Option<Time>) {
    b.None? || (a.Some? && a.value <= b.value)
  }

  // One nested call.
  datatype Call = Call(start: Time, executionTimeout: Option<Seconds>, doNotWaitToFinish: bool)

  function OwnDeadline(call: Call, config: Config): Option<Time> {
    DetermineWorkflowDeadline(call.start, call.executionTimeout, config)
  }

  // The deadline the innermost of `calls` runs under.
  function EffectiveDeadline(root: Option<Time>, calls: seq<Call>, config: Config): Option<Time> {
    if calls == [] then root
    else
      var call := calls[|calls| - 1];
      ResolveSubworkflowDeadline(OwnDeadline(call, config), EffectiveDeadline(root, calls[..|calls| - 1], config), call.doNotWaitToFinish)
  }

  // The deadlines that bind the innermost call: those of the calls since the
  // last one not awaited, that one included, and the root's if all are awaited.
  function Binding(root: Option<Time>, calls: seq<Call>, config: Config): set<Time> {
    var earlier :=
      if calls == [] then (if root.Some? then {root.value} else {})
      else if calls[|calls| - 1].doNotWaitToFinish then {}
      else Binding(root, calls[..|calls| - 1], config);
    if calls == [] then earlier
    else
      var own := OwnDeadline(calls[|calls| - 1], config);
      if own.Some? then earlier + {own.value} else earlier
  }

  ghost predicate AwaitedSince(calls: seq<Call>, i: nat) {
    forall j :: i <= j < |calls| ==> !calls[j].doNotWaitToFinish
  }

  // Which deadlines those are, by position.
  lemma {:induction false} BindingByPosition(root: Option<Time>, calls: seq<Call>, config: Config, d: Time)
    ensures d in Binding(root, calls, config) <==>
              || (root == Some(d) && AwaitedSince(calls, 0))
              || exists i :: 0 <= i < |calls| && OwnDeadline(calls[i], config) == Some(d) && AwaitedSince(calls, i + 1)
  {
    if calls != [] {
      var n := |calls| - 1;
      var front := calls[..n];
      BindingByPosition(root, front, config, d);
      if !calls[n].doNotWaitToFinish {
        forall i | 0 <= i <= n ensures AwaitedSince(front, i) <==> AwaitedSince(calls, i) {
          assert forall j :: i <= j < n ==> front[j] == calls[j];
        }
      }
      if OwnDeadline(calls[n], config) == Some(d) { assert AwaitedSince(calls, n + 1); }
    }
  }

  // The effective deadline is the least binding one, and there is none exactly
  // when nothing binds.
  lemma {:induction false} EffectiveIsLeastBinding(root: Option<Time>, calls: seq<Call>, config: Config)
    ensures match EffectiveDeadline(root, calls, config)
            case None => Binding(root, calls, config) == {}
            case Some(d) => d in Binding(root, calls, config) && forall b :: b in Binding(root, calls, config) ==> d <= b
  {
    if calls != [] { EffectiveIsLeastBinding(root, calls[..|calls| - 1], config); }
  }

  // An awaited call never runs longer than any of its callers up to the last
  // call that was not awaited.
  lemma {:induction false} NeverLaterWithDepth(root: Option<Time>, calls: seq<Call>, config: Config, i: nat)
    requires i <= |calls| && AwaitedSince(calls, i)
    ensures NoLater(EffectiveDeadline(root, calls, config), EffectiveDeadline(root, calls[..i], config))
    decreases |calls|
  {
    if i == |calls| {
      assert calls[..i] == calls;
    } else {
      var front := calls[..|calls| - 1];
      assert front[..i] == calls[..i];
      NeverLaterWithDepth(root, front, config, i);
    }
  }

  // Up to a call that is not awaited, nothing of what came before matters.
  lemma {:induction false} NotAwaitedStartsAfresh(root: Option<Time>, other: Option<Time>, before: seq<Call>, calls: seq<Call>, config: Config)
    requires calls != [] && calls[0].doNotWaitToFinish
    ensures EffectiveDeadline(root, before + calls, config) == EffectiveDeadline(other, calls, config)
  {
    var all := before + calls;
    if |calls| > 1 {
      assert all[..|all| - 1] == before + calls[..|calls| - 1];
      NotAwaitedStartsAfresh(root, other, before, calls[..|calls| - 1], config);
    }
  }

  // ---------------------------------------------------------------
  // Main workflows
  // ---------------------------------------------------------------

  datatype Stop = Never | AtOnce | TimerOf(delay: real)

  function ChosenTimeout(executionTimeout: Option<Seconds>, config: Config): Seconds {
    match executionTimeout case Some(own) => own case None => config.timeout
  }

  // The timeout a main workflow runs with, in seconds; not positive for none.
  function MainTimeout(executionTimeout: Option<Seconds>, config: Config): Seconds {
    var chosen := ChosenTimeout(executionTimeout, config);
    if chosen > 0.0 then Min(chosen, config.maxTimeout) else chosen
  }

  function MainDeadline(now: Time, executionTimeout: Option<Seconds>, config: Config): Option<Time> {
    var timeout := MainTimeout(executionTimeout, config);
    if timeout <= 0.0 then None else Some(now + timeout * 1000.0)
  }

  // When the run is stopped, given what was scheduled at `now`.
  function StopTime(stop: Stop, now: Time): Option<Time> {
    match stop case Never => None case AtOnce => Some(now) case TimerOf(delay) => Some(now + delay)
  }

  function Max(a: real, b: real): real {
    if a < b then b else a
  }

  // `prepared` is the clock when the additional data is built, `now` when the
  // timer is set; `startedAt` is set for an execution that is resumed.
  method RunMainProcess(executionTimeout: Option<Seconds>, config: Config, startedAt: Option<Time>, prepared: Time, now: Time)
    returns (executionTimeoutTimestamp: Option<Time>, stop: Stop)
    ensures executionTimeoutTimestamp == MainDeadline(prepared, executionTimeout, config)
    ensures StopTime(stop, now) ==
            match MainDeadline(if startedAt.Some? then startedAt.value else now, executionTimeout, config)
            case None => None
            case Some(deadline) => Some(Max(deadline, now))
    ensures stop.TimerOf? ==> stop.delay > 0.0
    // The timeout is the smaller of the chosen one and the maximum.
    ensures var chosen := if executionTimeout.Some? then executionTimeout.value else config.timeout;
            var limit := if chosen < config.maxTimeout then chosen else config.maxTimeout;
            if chosen <= 0.0 || config.maxTimeout <= 0.0 then executionTimeoutTimestamp == None && stop == Never
            else
              && executionTimeoutTimestamp == Some(prepared + limit * 1000.0)
              && (startedAt.None? ==> stop == TimerOf(limit * 1000.0))
              && (startedAt.Some? && startedAt.value + limit * 1000.0 <= now ==> stop == AtOnce)
              && (startedAt.Some? && startedAt.value + limit * 1000.0 > now ==>
                    stop == TimerOf(startedAt.value + limit * 1000.0 - now))
  {
    var workflowTimeout := match executionTimeout case Some(own) => own case None => config.timeout;
    if workflowTimeout > 0.0 {
      workflowTimeout := Min(workflowTimeout, config.maxTimeout);
    }
    executionTimeoutTimestamp := if workflowTimeout <= 0.0 then None else Some(prepared + workflowTimeout * 1000.0);
    stop := Never;
    if workflowTimeout > 0.0 {
      var timeout := Min(workflowTimeout, config.maxTimeout) * 1000.0;
      if startedAt.Some? {
        timeout := Max(timeout - (now - startedAt.value), 0.0);
      }
      if timeout == 0.0 {
        stop := AtOnce;
      } else {
        stop := TimerOf(timeout);
      }
    }
  }

  // A sub-workflow's own deadline: none when its timeout, or the default in its
  // place, is not positive; else after the smaller of it and the maximum, where
  // a maximum that is not positive is none.
  lemma OwnDeadlineMeans(start: Time, executionTimeout: Option<Seconds>, config: Config)
    ensures var chosen := if executionTimeout.Some? then executionTimeout.value else config.timeout;
            var deadline := DetermineWorkflowDeadline(start, executionTimeout, config);
            if chosen <= 0.0 then deadline == None
            else if config.maxTimeout <= 0.0 || chosen <= config.maxTimeout then deadline == Some(start + chosen * 1000.0)
            else deadline == Some(start + config.maxTimeout * 1000.0)
  {
  }

  // A call that is awaited runs under the earlier of its own and its parent's
  // deadline, one that is not under its own.
  lemma ResolvedDeadlineMeans(own: Option<Time>, parent: Option<Time>)
    ensures ResolveSubworkflowDeadline(own, parent, true) == own
    ensures var resolved := ResolveSubworkflowDeadline(own, parent, false);
            && (resolved == own || resolved == parent)
            && (own.Some? ==> resolved.Some? && resolved.value <= own.value)
            && (parent.Some? ==> resolved.Some? && resolved.value <= parent.value)
  {
  }

  // The two rules agree exactly when a maximum is configured or no timeout is
  // chosen: without a maximum a main workflow is not limited at all.
  lemma RulesAgreeIff(start: Time, executionTimeout: Option<Seconds>, config: Config)
    ensures DetermineWorkflowDeadline(start, executionTimeout, config) == MainDeadline(start, executionTimeout, config)
       <==> config.maxTimeout > 0.0 || ChosenTimeout(executionTimeout, config) <= 0.0
  {
  }

  // A run resumed within its time is stopped at the deadline of its first
  // start, however long it waited; the deadline handed to its sub-workflows
  // counts from the resumption, so it is later by the time in between.
  lemma ResumedDeadlineSlips(executionTimeout: Option<Seconds>, config: Config, startedAt: Time, prepared: Time)
    requires MainTimeout(executionTimeout, config) > 0.0
    ensures MainDeadline(startedAt, executionTimeout, config).Some?
    ensures MainDeadline(prepared, executionTimeout, config)
         == Some(MainDeadline(startedAt, executionTimeout, config).value + (prepared - startedAt))
    ensures NoLater(MainDeadline(prepared, executionTimeout, config), MainDeadline(startedAt, executionTimeout, config))
       <==> prepared <= startedAt
  {
  }

  // Sub-workflows awaited by a resumed run may be allowed past the moment their
  // root is stopped, unless one of them has an earlier deadline of its own.
  lemma SubworkflowOutlivesResumedRoot(executionTimeout: Option<Seconds>, config: Config, startedAt: Time, prepared: Time, now: Time, calls: seq<Call>)
    requires MainTimeout(executionTimeout, config) > 0.0 && startedAt <= prepared <= now && AwaitedSince(calls, 0)
    ensures var stopped := Max(MainDeadline(startedAt, executionTimeout, config).value, now);
            var root := MainDeadline(prepared, executionTimeout, config);
            NoLater(EffectiveDeadline(root, calls, config), Some(stopped)) <==>
              || prepared == startedAt || now >= prepared + MainTimeout(executionTimeout, config) * 1000.0
              || exists i :: 0 <= i < |calls| && OwnDeadline(calls[i], config).Some? && OwnDeadline(calls[i], config).value <= stopped
  {
    var stopped := Max(MainDeadline(startedAt, executionTimeout, config).value, now);
    var root := MainDeadline(prepared, executionTimeout, config);
    EffectiveIsLeastBinding(root, calls, config);
    BindingByPosition(root, calls, config, root.value);
    var effective := EffectiveDeadline(root, calls, config);
    if NoLater(effective, Some(stopped)) {
      BindingByPosition(root, calls, config, effective.value);
    }
    if i :| 0 <= i < |calls| && OwnDeadline(calls[i], config).Some? && OwnDeadline(calls[i], config).value <= stopped {
      assert AwaitedSince(calls, i + 1);
      BindingByPosition(root, calls, config, OwnDeadline(calls[i], config).value);
    }
  }
}
