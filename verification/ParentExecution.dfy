// Patching a waiting parent with what its child produced, before the parent
// is resumed.
module ParentExecution {
  import opened Wrappers
  import opened ConcurrencyQueue
  import opened ActiveExecutions

  type Data = string

  datatype Metadata = Metadata(resumeError: Option<string>, subExecution: Option<ExecutionId>, other: string)

  datatype StackEntry = StackEntry(data: Data, metadata: Metadata, node: string)

  // The stored run data: the node execution stack, if there is one, and the rest.
  datatype RunData = RunData(stack: Option<seq<StackEntry>>, rest: string)

  datatype Row = Row(status: Status, data: RunData)

  // A finished child: its error, its last node's output, and its reference.
  datatype Child = Child(error: Option<string>, output: Option<Data>, related: Option<ExecutionId>)

  predicate Reports(child: Child) {
    child.error.Some? || child.output.Some?
  }

  // Whether a patch that reads `row` goes on to write.
  predicate TakesEffect(row: Row, child: Child) {
    Reports(child) && row.status == Waiting && row.data.stack.Some? && row.data.stack.value != []
  }

  function PatchedHead(head: StackEntry, child: Child): StackEntry {
    if child.error.Some? then
      head.(metadata := head.metadata.(
        resumeError := child.error,
        subExecution := if child.related.Some? then child.related else head.metadata.subExecution))
    else if child.output.Some? then head.(data := child.output.value)
    else head
  }

  // The data written back after reading `data`; the status is not part of it.
  function PatchedData(data: RunData, child: Child): RunData
    requires data.stack.Some? && data.stack.value != []
  {
    data.(stack := Some([PatchedHead(data.stack.value[0], child)] + data.stack.value[1..]))
  }

  function Patched(row: Row, child: Child): Row {
    if TakesEffect(row, child) then row.(data := PatchedData(row.data, child)) else row
  }

  class Store {
    var rows: map<ExecutionId, Row>

    constructor ()
      ensures rows == map[]
    {
      rows := map[];
    }

    method UpdateParentExecutionWithChildResults(parentId: ExecutionId, child: Child)
      modifies this
      ensures rows == if parentId in old(rows) then old(rows)[parentId := Patched(old(rows)[parentId], child)]
                      else old(rows)
      // The rows in their own terms.
      ensures rows.Keys == old(rows).Keys && forall y :: y in rows && y != parentId ==> rows[y] == old(rows)[y]
      ensures parentId in rows ==>
                var was, now := old(rows)[parentId], rows[parentId];
                if was.status != Waiting || was.data.stack.None? || was.data.stack.value == []
                   || (child.error.None? && child.output.None?) then now == was
                else
                  var before, after := was.data.stack.value, now.data.stack;
                  && now.status == Waiting && now.data.rest == was.data.rest
                  && after.Some? && |after.value| == |before| && after.value[1..] == before[1..]
                  && after.value[0].node == before[0].node
                  && after.value[0].metadata.other == before[0].metadata.other
                  && after.value[0].data == (if child.error.None? then child.output.value else before[0].data)
                  && after.value[0].metadata.resumeError
                     == (if child.error.Some? then child.error else before[0].metadata.resumeError)
                  && after.value[0].metadata.subExecution
                     == (if child.error.Some? && child.related.Some? then child.related else before[0].metadata.subExecution)
    {
      if child.error.None? && child.output.None? { return; }
      if parentId !in rows || rows[parentId].status != Waiting { return; }
      var data := rows[parentId].data;
      if data.stack.None? || |data.stack.value| == 0 { return; }
      var stack := data.stack.value;
      if child.error.Some? {
        var metadata := stack[0].metadata.(resumeError := child.error);
        if child.related.Some? { metadata := metadata.(subExecution := child.related); }
        stack := stack[0 := stack[0].(metadata := metadata)];
      } else if child.output.Some? {
        stack := stack[0 := stack[0].(data := child.output.value)];
      }
      assert stack == PatchedData(data, child).stack.value;
      rows := rows[parentId := rows[parentId].(data := data.(stack := Some(stack)))];
    }
  }

  // ---------------------------------------------------------------
  // One patch
  // ---------------------------------------------------------------

  // Only the head entry may change, and never the status; without effect
  // nothing changes at all.
  lemma PatchTouchesOnlyTheHead(row: Row, child: Child)
    ensures var after := Patched(row, child);
            && after.status == row.status && after.data.rest == row.data.rest
            && (!TakesEffect(row, child) ==> after == row)
            && (row.data.stack.Some? && row.data.stack.value != [] ==>
                  && after.data.stack.Some?
                  && |after.data.stack.value| == |row.data.stack.value|
                  && after.data.stack.value[1..] == row.data.stack.value[1..]
                  && after.data.stack.value[0].node == row.data.stack.value[0].node)
  {
  }

  lemma PatchIsIdempotent(row: Row, child: Child)
    ensures Patched(Patched(row, child), child) == Patched(row, child)
  {
    if TakesEffect(row, child) {
      var once := PatchedData(row.data, child);
      assert once.stack.value[1..] == row.data.stack.value[1..];
    }
  }

  // ---------------------------------------------------------------
  // Any sequence of atomic patches
  // ---------------------------------------------------------------

  function PatchAll(row: Row, children: seq<Child>): Row {
    if children == [] then row
    else Patched(PatchAll(row, children[..|children| - 1]), children[|children| - 1])
  }

  // The output of the last child that finished without error, or `original`.
  function LastOutput(children: seq<Child>, original: Data): Data {
    if children == [] then original
    else
      var last := children[|children| - 1];
      if last.error.None? && last.output.Some? then last.output.value
      else LastOutput(children[..|children| - 1], original)
  }

  // The error of the last child that failed, or `original`.
  function LastError(children: seq<Child>, original: Option<string>): Option<string> {
    if children == [] then original
    else if children[|children| - 1].error.Some? then children[|children| - 1].error
    else LastError(children[..|children| - 1], original)
  }

  // A waiting parent ends up with the last output and, separately, with the
  // last error: a later success does not clear an earlier error.
  lemma {:induction false} LastChildWins(row: Row, children: seq<Child>)
    requires row.status == Waiting && row.data.stack.Some? && row.data.stack.value != []
    ensures var after := PatchAll(row, children);
            && after.status == Waiting && after.data.stack.Some?
            && |after.data.stack.value| == |row.data.stack.value|
            && after.data.stack.value[1..] == row.data.stack.value[1..]
            && after.data.stack.value[0].data == LastOutput(children, row.data.stack.value[0].data)
            && after.data.stack.value[0].metadata.resumeError
               == LastError(children, row.data.stack.value[0].metadata.resumeError)
  {
    if children != [] {
      LastChildWins(row, children[..|children| - 1]);
    }
  }

  lemma {:induction false} NotWaitingIsUntouched(row: Row, children: seq<Child>)
    requires row.status != Waiting || row.data.stack.None? || row.data.stack.value == []
    ensures PatchAll(row, children) == row
  {
    if children != [] { NotWaitingIsUntouched(row, children[..|children| - 1]); }
  }

  // ---------------------------------------------------------------
  // Patches whose reads and writes interleave
  // ---------------------------------------------------------------

  // The write back carries no condition, so a patch may write a stale copy.
  datatype Access = Read(child: Child) | Write(child: Child) | StatusChange(status: Status)

  datatype Shared = Shared(row: Row, copies: map<Child, Row>)

  function Accessed(s: Shared, access: Access): Shared {
    match access
    case Read(child) => s.(copies := s.copies[child := s.row])
    case Write(child) =>
      if child in s.copies && TakesEffect(s.copies[child], child)
      then s.(row := s.row.(data := PatchedData(s.copies[child].data, child)))
      else s
    case StatusChange(status) => s.(row := s.row.(status := status))
  }

  function AccessAll(s: Shared, accesses: seq<Access>): Shared {
    if accesses == [] then s
    else Accessed(AccessAll(s, accesses[..|accesses| - 1]), accesses[|accesses| - 1])
  }

  // A read with its write at once is one patch.
  lemma ReadThenWriteIsPatch(row: Row, child: Child)
    ensures AccessAll(Shared(row, map[]), [Read(child), Write(child)]).row == Patched(row, child)
  {
    var both := [Read(child), Write(child)];
    assert both[..1] == [Read(child)] && [Read(child)][..0] == [];
    assert AccessAll(Shared(row, map[]), []) == Shared(row, map[]);
    assert AccessAll(Shared(row, map[]), [Read(child)]) == Shared(row, map[child := row]);
  }

  // Data that is the original except perhaps at the head, whose data is the
  // original or the output of a successful child that has written by now.
  ghost predicate Traceable(original: RunData, accesses: seq<Access>, data: RunData) {
    && original.stack.Some? && original.stack.value != []
    && data.rest == original.rest && data.stack.Some? && data.stack.value != []
    && data.stack.value[1..] == original.stack.value[1..]
    && (data.stack.value[0].data == original.stack.value[0].data
        || exists child :: Write(child) in accesses && child.error.None?
             && child.output == Some(data.stack.value[0].data))
  }

  lemma {:induction false} CopiesAreTraceable(row: Row, accesses: seq<Access>)
    requires row.data.stack.Some? && row.data.stack.value != []
    ensures var s := AccessAll(Shared(row, map[]), accesses);
            && Traceable(row.data, accesses, s.row.data)
            && (forall child :: child in s.copies ==> Traceable(row.data, accesses, s.copies[child].data))
  {
    if accesses != [] {
      var before, last := accesses[..|accesses| - 1], accesses[|accesses| - 1];
      assert accesses == before + [last];
      CopiesAreTraceable(row, before);
      var s := AccessAll(Shared(row, map[]), before);
      TraceableMore(row.data, before, last, s.row.data);
      forall child | child in s.copies ensures Traceable(row.data, accesses, s.copies[child].data) {
        TraceableMore(row.data, before, last, s.copies[child].data);
      }
      if last.Write? && last.child in s.copies && TakesEffect(s.copies[last.child], last.child) {
        var data := s.copies[last.child].data;
        assert PatchedData(data, last.child).stack.value[1..] == data.stack.value[1..];
        assert Write(last.child) in accesses;
      }
    }
  }

  lemma TraceableMore(original: RunData, before: seq<Access>, last: Access, data: RunData)
    requires Traceable(original, before, data)
    ensures Traceable(original, before + [last], data)
  {
    assert forall a :: a in before ==> a in before + [last];
  }

  // However reads and writes interleave, the parent's head data is its own or
  // one successful child's, the other entries stay, and only a status change
  // changes the status.
  lemma InterleavedPatchesAreTraceable(row: Row, accesses: seq<Access>)
    requires row.data.stack.Some? && row.data.stack.value != []
    ensures Traceable(row.data, accesses, AccessAll(Shared(row, map[]), accesses).row.data)
    ensures (forall a :: a in accesses ==> !a.StatusChange?) ==>
              AccessAll(Shared(row, map[]), accesses).row.status == row.status
  {
    CopiesAreTraceable(row, accesses);
    StatusIsKept(row, accesses);
  }

  lemma {:induction false} StatusIsKept(row: Row, accesses: seq<Access>)
    ensures (forall a :: a in accesses ==> !a.StatusChange?) ==>
              AccessAll(Shared(row, map[]), accesses).row.status == row.status
  {
    if accesses != [] {
      StatusIsKept(row, accesses[..|accesses| - 1]);
      assert accesses[|accesses| - 1] in accesses;
      assert forall a :: a in accesses[..|accesses| - 1] ==> a in accesses;
    }
  }
}
