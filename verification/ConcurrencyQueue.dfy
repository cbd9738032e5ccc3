// The capacity queue that gates production executions of one process.
module ConcurrencyQueue {
  import opened Wrappers

  type ExecutionId = nat

  // A queued `add`: the execution it is for and the call that is suspended.
  datatype Waiter = Waiter(executionId: ExecutionId, ticket: nat)

  datatype Queue = Queue(capacity: int, waiting: seq<Waiter>)

  datatype Entered = Entered(queue: Queue, granted: bool)

  datatype Moved = Moved(queue: Queue, woken: Option<Waiter>)

  function Enqueue(q: Queue, w: Waiter): Entered {
    if q.capacity - 1 < 0 then Entered(Queue(q.capacity - 1, q.waiting + [w]), false)
    else Entered(Queue(q.capacity - 1, q.waiting), true)
  }

  function ResolveNext(q: Queue): Moved {
    if q.waiting == [] then Moved(q, None)
    else Moved(Queue(q.capacity, q.waiting[1..]), Some(q.waiting[0]))
  }

  function Dequeue(q: Queue): Moved {
    ResolveNext(Queue(q.capacity + 1, q.waiting))
  }

  // The position of the first waiter for `x`, or the length when there is none.
  function FirstFor(waiting: seq<Waiter>, x: ExecutionId): (i: nat)
    ensures i <= |waiting|
    ensures i < |waiting| ==> waiting[i].executionId == x
    ensures forall k :: 0 <= k < i ==> waiting[k].executionId != x
  {
    if waiting == [] || waiting[0].executionId == x then 0 else 1 + FirstFor(waiting[1..], x)
  }

  // Taking a waiter out also wakes the next one, although no slot came free.
  function Remove(q: Queue, x: ExecutionId): Moved {
    var i := FirstFor(q.waiting, x);
    if i == |q.waiting| then Moved(q, None)
    else ResolveNext(Queue(q.capacity + 1, q.waiting[..i] + q.waiting[i + 1..]))
  }

  class Service {
    var capacity: int
    var queue: seq<Waiter>

    constructor (capacity: int)
      ensures View() == Queue(capacity, [])
    {
      this.capacity, queue := capacity, [];
    }

    function View(): Queue
      reads this
    {
      Queue(capacity, queue)
    }

    // Returns whether the caller may go on at once; otherwise it is suspended.
    method EnqueueExecution(w: Waiter) returns (granted: bool)
      modifies this
      ensures Entered(View(), granted) == Enqueue(old(View()), w)
      ensures capacity == old(capacity) - 1 && (granted <==> old(capacity) > 0)
      ensures queue == if granted then old(queue) else old(queue) + [w]
    {
      capacity := capacity - 1;
      if capacity < 0 {
        queue := queue + [w];
        return false;
      }
      return true;
    }

    method DequeueExecution() returns (woken: Option<Waiter>)
      modifies this
      ensures Moved(View(), woken) == Dequeue(old(View()))
      ensures capacity == old(capacity) + 1
      ensures old(queue) == (if woken.Some? then [woken.value] else []) + queue
      ensures woken.None? ==> queue == []
    {
      capacity := capacity + 1;
      woken := Shift();
    }

    method RemoveExecution(x: ExecutionId) returns (woken: Option<Waiter>)
      modifies this
      ensures Moved(View(), woken) == Remove(old(View()), x)
      // Without a waiter for `x` nothing happens; otherwise the first one is
      // taken out and the head of the rest woken.
      ensures (forall w :: w in old(queue) ==> w.executionId != x) ==>
                capacity == old(capacity) && queue == old(queue) && woken == None
      ensures forall i :: 0 <= i < |old(queue)| && old(queue)[i].executionId == x && (forall k :: 0 <= k < i ==> old(queue)[k].executionId != x) ==>
                  && capacity == old(capacity) + 1
                  && old(queue)[..i] + old(queue)[i + 1..] == (if woken.Some? then [woken.value] else []) + queue
                  && (woken.None? ==> queue == [])
    {
      var i := 0;
      while i < |queue| && queue[i].executionId != x
        invariant 0 <= i <= |queue|
        invariant forall k :: 0 <= k < i ==> queue[k].executionId != x
      {
        i := i + 1;
      }
      assert i == FirstFor(queue, x);
      if i == |queue| { return None; }
      queue := queue[..i] + queue[i + 1..];
      capacity := capacity + 1;
      woken := Shift();
    }

    method Shift() returns (woken: Option<Waiter>)
      modifies this
      ensures Moved(View(), woken) == ResolveNext(old(View()))
    {
      if queue == [] { return None; }
      woken := Some(queue[0]);
      queue := queue[1..];
    }
  }

  // ---------------------------------------------------------------
  // Accounting
  // ---------------------------------------------------------------

  // `held` callers are past the gate; nobody waits while a slot is free.
  ghost predicate Accounts(q: Queue, cap: nat, held: int) {
    && q.capacity == cap - held - |q.waiting|
    && (q.waiting != [] ==> held >= cap)
  }

  lemma EnqueueAccounts(q: Queue, w: Waiter, cap: nat, held: nat)
    requires Accounts(q, cap, held)
    ensures var after := Enqueue(q, w);
            && Accounts(after.queue, cap, if after.granted then held + 1 else held)
            && (after.granted ==> held + 1 <= cap && q.waiting == [])
            && (!after.granted ==> held >= cap)
  {
  }

  // `held` counts the caller that gives its slot back.
  lemma DequeueAccounts(q: Queue, cap: nat, held: nat)
    requires Accounts(q, cap, held) && held > 0
    ensures var after := Dequeue(q);
            Accounts(after.queue, cap, if after.woken.Some? then held else held - 1)
  {
  }

  lemma RemoveAccounts(q: Queue, x: ExecutionId, cap: nat, held: nat)
    requires Accounts(q, cap, held)
    ensures var after := Remove(q, x);
            && Accounts(after.queue, cap, if after.woken.Some? then held + 1 else held)
            && (after.woken.Some? <==> FirstFor(q.waiting, x) < |q.waiting| && |q.waiting| > 1)
  {
  }

  // Removing a waiter respects the cap exactly when it is not queued or is the
  // only one queued; otherwise one caller too many is let through.
  lemma RemoveRespectsCap(q: Queue, x: ExecutionId, cap: nat, held: nat)
    requires Accounts(q, cap, held) && held <= cap
    ensures var after := Remove(q, x);
            var inUse := if after.woken.Some? then held + 1 else held;
            inUse <= cap <==> FirstFor(q.waiting, x) == |q.waiting| || |q.waiting| == 1
  {
    RemoveAccounts(q, x, cap, held);
  }
}
