// Registering the webhooks of a workflow, with removal of all of them when one
// fails.
module WebhookRegistration {
  import opened Wrappers

  type WorkflowId = string

  // The primary key of the webhook table.
  datatype Key = Key(path: string, httpMethod: string)

  datatype Row = Row(workflowId: WorkflowId, node: string, webhookId: Option<string>, pathLength: Option<nat>)

  type Rows = map<Key, Row>

  // A webhook the workflow defines, with the webhook id of its node.
  datatype Webhook = Webhook(node: string, path: string, httpMethod: string, nodeWebhookId: Option<string>)

  datatype Error = QueryFailed | PathTaken(node: string) | OtherError(message: string)

  // How the calls made for one webhook go. The database also refuses an insert
  // whose key is in use, whatever `insert` says.
  datatype Fate = Fate(insert: Option<Error>, lookup: Option<Error>, update: Option<Error>, create: Option<Error>)

  // ---------------------------------------------------------------
  // From a webhook to its row
  // ---------------------------------------------------------------

  // Without one leading and one trailing slash.
  function Stripped(path: string): string {
    var front := if path != [] && path[0] == '/' then path[1..] else path;
    if front != [] && front[|front| - 1] == '/' then front[..|front| - 1] else front
  }

  predicate HasSegmentVariable(path: string) {
    || (path != [] && path[0] == ':')
    || exists i :: 0 <= i < |path| - 1 && path[i] == '/' && path[i + 1] == ':'
  }

  function Segments(path: string): nat {
    if path == [] then 1 else Segments(path[1..]) + (if path[0] == '/' then 1 else 0)
  }

  predicate IsDynamic(w: Webhook) {
    w.nodeWebhookId.Some? && w.nodeWebhookId.value != "" && HasSegmentVariable(w.path)
  }

  function KeyOf(w: Webhook): Key {
    Key(Stripped(w.path), w.httpMethod)
  }

  function RowOf(id: WorkflowId, w: Webhook): Row {
    if IsDynamic(w) then Row(id, w.node, w.nodeWebhookId, Some(Segments(Stripped(w.path))))
    else Row(id, w.node, None, None)
  }

  // The row after an insert or, for a row of the same workflow, an update;
  // an update leaves the columns that are not set.
  function Put(rows: Rows, key: Key, row: Row): Rows {
    if key !in rows then rows[key := row]
    else
      rows[key := Row(row.workflowId, row.node,
                      if row.webhookId.Some? then row.webhookId else rows[key].webhookId,
                      if row.pathLength.Some? then row.pathLength else rows[key].pathLength)]
  }

  // ---------------------------------------------------------------
  // What one webhook, and all of them, should do
  // ---------------------------------------------------------------

  // Why storing fails, if it does.
  function StoreError(rows: Rows, id: WorkflowId, w: Webhook, fate: Fate): Option<Error> {
    var key := KeyOf(w);
    if key !in rows then
      if fate.insert.None? then None else if fate.lookup.Some? then fate.lookup else fate.insert
    else if fate.lookup.Some? then fate.lookup
    else if rows[key].workflowId != id then Some(PathTaken(w.node))
    else fate.update
  }

  function AfterStore(rows: Rows, id: WorkflowId, w: Webhook, fate: Fate): Rows {
    if StoreError(rows, id, w, fate).None? then Put(rows, KeyOf(w), RowOf(id, w)) else rows
  }

  function StepError(rows: Rows, id: WorkflowId, w: Webhook, fate: Fate): Option<Error> {
    if StoreError(rows, id, w, fate).Some? then StoreError(rows, id, w, fate) else fate.create
  }

  predicate SkipsConflicts(activation: string) {
    activation in ["init", "leadershipChange"]
  }

  predicate Skipped(activation: string, e: Error) {
    SkipsConflicts(activation) && e.QueryFailed?
  }

  // The rows once the first `n` webhooks were handled.
  function RowsAt(rows: Rows, id: WorkflowId, ws: seq<Webhook>, fates: seq<Fate>, n: nat): Rows
    requires n <= |ws| == |fates|
  {
    if n == 0 then rows else AfterStore(RowsAt(rows, id, ws, fates, n - 1), id, ws[n - 1], fates[n - 1])
  }

  function ErrorAt(rows: Rows, id: WorkflowId, ws: seq<Webhook>, fates: seq<Fate>, n: nat): Option<Error>
    requires n < |ws| == |fates|
  {
    StepError(RowsAt(rows, id, ws, fates, n), id, ws[n], fates[n])
  }

  // The loop gets past its first `n` webhooks.
  ghost predicate Passes(rows: Rows, id: WorkflowId, ws: seq<Webhook>, fates: seq<Fate>, activation: string, n: nat)
    requires n <= |ws| == |fates|
  {
    forall i :: 0 <= i < n && ErrorAt(rows, id, ws, fates, i).Some? ==> Skipped(activation, ErrorAt(rows, id, ws, fates, i).value)
  }

  ghost predicate FailsAt(rows: Rows, id: WorkflowId, ws: seq<Webhook>, fates: seq<Fate>, activation: string, n: nat)
    requires n < |ws| == |fates|
  {
    && Passes(rows, id, ws, fates, activation, n)
    && ErrorAt(rows, id, ws, fates, n).Some?
    && !Skipped(activation, ErrorAt(rows, id, ws, fates, n).value)
  }

  predicate Owns(rows: Rows, id: WorkflowId, key: Key) {
    key in rows && rows[key].workflowId == id
  }

  function RowsOf(rows: Rows, id: WorkflowId): Rows {
    map key | key in rows && rows[key].workflowId == id :: rows[key]
  }

  function OtherRows(rows: Rows, id: WorkflowId): Rows {
    map key | key in rows && rows[key].workflowId != id :: rows[key]
  }

  // The i-th webhook is inserted or refreshed.
  predicate Stores(rows: Rows, id: WorkflowId, ws: seq<Webhook>, fates: seq<Fate>, i: nat)
    requires i < |ws| == |fates|
  {
    StoreError(RowsAt(rows, id, ws, fates, i), id, ws[i], fates[i]).None?
  }

  // The workflow has no row to start with, and none of its first `n` webhooks
  // is stored.
  ghost predicate NothingStored(rows: Rows, id: WorkflowId, ws: seq<Webhook>, fates: seq<Fate>, n: nat)
    requires n <= |ws| == |fates|
  {
    RowsOf(rows, id) == map[] && forall i :: 0 <= i < n ==> !Stores(rows, id, ws, fates, i)
  }

  datatype Outcome = Returned(added: bool) | Threw(error: Error)

  function Surfaced(w: Webhook, e: Error): Error {
    if e.QueryFailed? then PathTaken(w.node) else e
  }

  // ---------------------------------------------------------------
  // The loop, with its compensation
  // ---------------------------------------------------------------

  class Registry {
    var rows: Rows

    constructor ()
      ensures rows == map[]
    {
      rows := map[];
    }

    method StoreWebhook(id: WorkflowId, w: Webhook, fate: Fate) returns (r: Result<(), Error>)
      modifies this
      ensures rows == AfterStore(old(rows), id, w, fate)
      ensures r == match StoreError(old(rows), id, w, fate) case None => Ok(()) case Some(e) => Err(e)
      // A free key is inserted, with webhook id and path length exactly for a
      // node with an id and a path with a variable segment.
      ensures var key := Key(Stripped(w.path), w.httpMethod);
              var variable := w.path != [] && (w.path[0] == ':' || exists i :: 0 <= i < |w.path| - 1 && w.path[i] == '/' && w.path[i + 1] == ':');
              var dynamic := variable && w.nodeWebhookId != None && w.nodeWebhookId != Some("");
              key !in old(rows) && fate.insert.None? ==>
                && rows == old(rows)[key := Row(id, w.node, if dynamic then w.nodeWebhookId else None,
                                                if dynamic then Some(Segments(key.path)) else None)]
                && r == Ok(())
      // An own row gets the new node, and id and length if they are set.
      ensures var key := Key(Stripped(w.path), w.httpMethod);
              var variable := w.path != [] && (w.path[0] == ':' || exists i :: 0 <= i < |w.path| - 1 && w.path[i] == '/' && w.path[i + 1] == ':');
              var dynamic := variable && w.nodeWebhookId != None && w.nodeWebhookId != Some("");
              key in old(rows) && old(rows)[key].workflowId == id && fate.lookup.None? && fate.update.None? ==>
                && rows == old(rows)[key := Row(id, w.node, if dynamic then w.nodeWebhookId else old(rows)[key].webhookId,
                                                if dynamic then Some(Segments(key.path)) else old(rows)[key].pathLength)]
                && r == Ok(())
      // Nothing is stored otherwise.
      ensures var key := Key(Stripped(w.path), w.httpMethod);
              && (key in old(rows) || fate.insert.Some? ==> fate.lookup.Some? ==> r == Err(fate.lookup.value))
              && (key !in old(rows) && fate.insert.Some? && fate.lookup.None? ==> r == Err(fate.insert.value))
              && (key in old(rows) && old(rows)[key].workflowId != id && fate.lookup.None? ==> r == Err(PathTaken(w.node)))
              && (key in old(rows) && old(rows)[key].workflowId == id && fate.lookup.None? && fate.update.Some? ==>
                    r == Err(fate.update.value))
      ensures r.Err? ==> rows == old(rows)
    {
      var key, row := KeyOf(w), RowOf(id, w);
      if key !in rows && fate.insert.None? {
        rows := rows[key := row];
        return Ok(());
      }
      if fate.lookup.Some? { return Err(fate.lookup.value); }
      if key !in rows { return Err(fate.insert.value); }
      if rows[key].workflowId != id { return Err(PathTaken(w.node)); }
      if fate.update.Some? { return Err(fate.update.value); }
      rows := Put(rows, key, row);
      return Ok(());
    }

    // Removes the rows of `id`, or none when an earlier step fails.
    method ClearWebhooks(id: WorkflowId, failure: Option<Error>) returns (r: Result<(), Error>)
      modifies this
      ensures rows == if failure.None? then OtherRows(old(rows), id) else old(rows)
      ensures failure.None? ==>
                && (forall key :: key in rows <==> key in old(rows) && old(rows)[key].workflowId != id)
                && (forall key :: key in rows ==> rows[key] == old(rows)[key])
      ensures r == if failure.None? then Ok(()) else Err(failure.value)
    {
      if failure.Some? { return Err(failure.value); }
      rows := OtherRows(rows, id);
      return Ok(());
    }

    method AddWebhooks(id: WorkflowId, ws: seq<Webhook>, fates: seq<Fate>, activation: string,
                       cleanup: Option<Error>, saving: Option<Error>) returns (r: Outcome)
      requires |ws| == |fates|
      modifies this
      ensures OtherRows(rows, id) == OtherRows(old(rows), id)
      ensures forall key :: key in old(rows) && old(rows)[key].workflowId != id ==> key in rows && rows[key] == old(rows)[key]
      ensures forall key :: key in rows && rows[key].workflowId != id ==> key in old(rows) && rows[key] == old(rows)[key]
      ensures r == Returned(false) <==> ws == []
      ensures ws == [] ==> rows == old(rows)
      ensures Passes(old(rows), id, ws, fates, activation, |ws|) ==>
                && rows == RowsAt(old(rows), id, ws, fates, |ws|)
                && (ws != [] ==> r == if saving.Some? then Threw(saving.value) else Returned(true))
      ensures !Passes(old(rows), id, ws, fates, activation, |ws|) ==>
                exists n :: 0 <= n < |ws| && FailsAt(old(rows), id, ws, fates, activation, n)
      ensures forall n :: 0 <= n < |ws| && FailsAt(old(rows), id, ws, fates, activation, n) ==>
                && r == Threw(if ErrorAt(old(rows), id, ws, fates, n) == Some(QueryFailed) then PathTaken(ws[n].node)
                              else ErrorAt(old(rows), id, ws, fates, n).value)
                && rows == if cleanup.Some? then RowsAt(old(rows), id, ws, fates, n + 1) else OtherRows(old(rows), id)
      // All or nothing, and when it is not.
      ensures r.Threw? && cleanup.None? ==>
                (RowsOf(rows, id) == map[] <==>
                   || !Passes(old(rows), id, ws, fates, activation, |ws|)
                   || NothingStored(old(rows), id, ws, fates, |ws|))
      ensures r == Returned(true) ==>
                (RowsOf(rows, id) == map[] <==> NothingStored(old(rows), id, ws, fates, |ws|))
    {
      if ws == [] { return Returned(false); }
      ghost var was := rows;
      for n := 0 to |ws|
        invariant rows == RowsAt(was, id, ws, fates, n)
        invariant Passes(was, id, ws, fates, activation, n)
      {
        OthersUntouched(was, id, ws, fates, n + 1);
        var stored := StoreWebhook(id, ws[n], fates[n]);
        var error := if stored.Err? then Some(stored.error) else fates[n].create;
        assert error == ErrorAt(was, id, ws, fates, n);
        if error.Some? && !Skipped(activation, error.value) {
          assert FailsAt(was, id, ws, fates, activation, n);
          forall m | 0 <= m < |ws| && FailsAt(was, id, ws, fates, activation, m) ensures m == n {
            OneFailure(was, id, ws, fates, activation, m, n);
          }
          CleanupIsComplete(was, id);
          CleanupIsComplete(rows, id);
          var _ := ClearWebhooks(id, cleanup);
          SameOthers(was, rows, id);
          return Threw(Surfaced(ws[n], error.value));
        }
      }
      OthersUntouched(was, id, ws, fates, |ws|);
      SameOthers(was, rows, id);
      NoRowsIff(was, id, ws, fates, |ws|);
      if saving.Some? { return Threw(saving.value); }
      return Returned(true);
    }
  }

  // ---------------------------------------------------------------
  // What the loop keeps and guarantees
  // ---------------------------------------------------------------

  lemma SameOthers(before: Rows, after: Rows, id: WorkflowId)
    requires OtherRows(after, id) == OtherRows(before, id)
    ensures forall key :: key in before && before[key].workflowId != id ==> key in after && after[key] == before[key]
    ensures forall key :: key in after && after[key].workflowId != id ==> key in before && after[key] == before[key]
  {
    forall key | key in before && before[key].workflowId != id ensures key in after && after[key] == before[key] {
      assert key in OtherRows(before, id);
      assert key in OtherRows(after, id);
    }
    forall key | key in after && after[key].workflowId != id ensures key in before && after[key] == before[key] {
      assert key in OtherRows(after, id);
      assert key in OtherRows(before, id);
    }
  }

  lemma StoreLeavesOthers(rows: Rows, id: WorkflowId, w: Webhook, fate: Fate)
    ensures OtherRows(AfterStore(rows, id, w, fate), id) == OtherRows(rows, id)
  {
  }

  lemma {:induction false} OthersUntouched(rows: Rows, id: WorkflowId, ws: seq<Webhook>, fates: seq<Fate>, n: nat)
    requires n <= |ws| == |fates|
    ensures OtherRows(RowsAt(rows, id, ws, fates, n), id) == OtherRows(rows, id)
  {
    if n > 0 {
      OthersUntouched(rows, id, ws, fates, n - 1);
      StoreLeavesOthers(RowsAt(rows, id, ws, fates, n - 1), id, ws[n - 1], fates[n - 1]);
    }
  }

  // After `n` webhooks the workflow owns the keys it had before and those of
  // the webhooks that were stored, and no other.
  lemma {:induction false} OwnedIff(rows: Rows, id: WorkflowId, ws: seq<Webhook>, fates: seq<Fate>, n: nat, key: Key)
    requires n <= |ws| == |fates|
    ensures Owns(RowsAt(rows, id, ws, fates, n), id, key) <==>
              || Owns(rows, id, key)
              || exists i :: 0 <= i < n && KeyOf(ws[i]) == key && Stores(rows, id, ws, fates, i)
  {
    if n > 0 {
      OwnedIff(rows, id, ws, fates, n - 1, key);
      OneMoreStore(RowsAt(rows, id, ws, fates, n - 1), id, ws[n - 1], fates[n - 1], key);
    }
  }

  lemma OneMoreStore(rows: Rows, id: WorkflowId, w: Webhook, fate: Fate, key: Key)
    ensures Owns(AfterStore(rows, id, w, fate), id, key) <==>
              Owns(rows, id, key) || (KeyOf(w) == key && StoreError(rows, id, w, fate).None?)
  {
  }

  // The workflow has no row after `n` webhooks exactly when it had none and
  // none was stored.
  lemma NoRowsIff(rows: Rows, id: WorkflowId, ws: seq<Webhook>, fates: seq<Fate>, n: nat)
    requires n <= |ws| == |fates|
    ensures RowsOf(RowsAt(rows, id, ws, fates, n), id) == map[] <==> NothingStored(rows, id, ws, fates, n)
  {
    var after := RowsAt(rows, id, ws, fates, n);
    NoRowOwned(rows, id);
    NoRowOwned(after, id);
    forall i | 0 <= i < n && Stores(rows, id, ws, fates, i) ensures Owns(after, id, KeyOf(ws[i])) {
      OwnedIff(rows, id, ws, fates, n, KeyOf(ws[i]));
    }
    forall key ensures Owns(rows, id, key) ==> Owns(after, id, key) { OwnedIff(rows, id, ws, fates, n, key); }
    if NothingStored(rows, id, ws, fates, n) {
      forall key ensures !Owns(after, id, key) { OwnedIff(rows, id, ws, fates, n, key); }
    }
  }

  lemma NoRowOwned(rows: Rows, id: WorkflowId)
    ensures RowsOf(rows, id) == map[] <==> forall key :: !Owns(rows, id, key)
  {
    forall key ensures key in RowsOf(rows, id) <==> Owns(rows, id, key) { }
    if forall key :: !Owns(rows, id, key) { assert RowsOf(rows, id) == map[]; }
    if key :| Owns(rows, id, key) { assert key in RowsOf(rows, id); }
  }

  // A loop that gets to its end leaves every webhook registered, or skipped on
  // a start or leadership change; it is registered exactly when the workflow
  // owned its key before or some webhook with that key was stored.
  lemma EachIsRegisteredOrSkipped(rows: Rows, id: WorkflowId, ws: seq<Webhook>, fates: seq<Fate>, activation: string, i: nat)
    requires i < |ws| == |fates| && Passes(rows, id, ws, fates, activation, |ws|)
    ensures Owns(RowsAt(rows, id, ws, fates, |ws|), id, KeyOf(ws[i])) <==>
              || Owns(rows, id, KeyOf(ws[i]))
              || exists j :: 0 <= j < |ws| && KeyOf(ws[j]) == KeyOf(ws[i]) && Stores(rows, id, ws, fates, j)
    ensures !Stores(rows, id, ws, fates, i) ==>
              activation in {"init", "leadershipChange"} && ErrorAt(rows, id, ws, fates, i) == Some(QueryFailed)
  {
    OwnedIff(rows, id, ws, fates, |ws|, KeyOf(ws[i]));
    if !Stores(rows, id, ws, fates, i) { assert ErrorAt(rows, id, ws, fates, i).Some?; }
  }

  // When a webhook fails: storing it does, or else its external registration.
  lemma ErrorMeans(rows: Rows, id: WorkflowId, ws: seq<Webhook>, fates: seq<Fate>, i: nat)
    requires i < |ws| == |fates|
    ensures ErrorAt(rows, id, ws, fates, i)
         == if Stores(rows, id, ws, fates, i) then fates[i].create
            else StoreError(RowsAt(rows, id, ws, fates, i), id, ws[i], fates[i])
    ensures !Stores(rows, id, ws, fates, i) ==>
              RowsAt(rows, id, ws, fates, i + 1) == RowsAt(rows, id, ws, fates, i) && ErrorAt(rows, id, ws, fates, i).Some?
  {
  }

  // Which failures the loop gets past: failed queries, on a start or a change of
  // leadership.
  lemma PassesMeans(rows: Rows, id: WorkflowId, ws: seq<Webhook>, fates: seq<Fate>, activation: string, n: nat)
    requires n <= |ws| == |fates|
    ensures Passes(rows, id, ws, fates, activation, n) <==>
              forall i :: 0 <= i < n ==>
                || ErrorAt(rows, id, ws, fates, i) == None
                || (activation in {"init", "leadershipChange"} && ErrorAt(rows, id, ws, fates, i) == Some(QueryFailed))
  {
  }

  // A key the workflow gains belongs to one of its webhooks and was free before.
  lemma {:induction false} OnlyFreeKeysAreGained(rows: Rows, id: WorkflowId, ws: seq<Webhook>, fates: seq<Fate>, n: nat, key: Key)
    requires n <= |ws| == |fates|
    requires Owns(RowsAt(rows, id, ws, fates, n), id, key) && !Owns(rows, id, key)
    ensures key !in rows
    ensures exists i :: 0 <= i < n && KeyOf(ws[i]) == key
  {
    var before := RowsAt(rows, id, ws, fates, n - 1);
    if Owns(before, id, key) {
      OnlyFreeKeysAreGained(rows, id, ws, fates, n - 1, key);
    } else {
      assert KeyOf(ws[n - 1]) == key && key !in before;
      KeysStay(rows, id, ws, fates, n - 1);
    }
  }

  lemma {:induction false} KeysStay(rows: Rows, id: WorkflowId, ws: seq<Webhook>, fates: seq<Fate>, n: nat)
    requires n <= |ws| == |fates|
    ensures rows.Keys <= RowsAt(rows, id, ws, fates, n).Keys
  {
    if n > 0 { KeysStay(rows, id, ws, fates, n - 1); }
  }

  // The last webhook stored under a key is the one its row describes; only the
  // columns of a dynamic path can be left over from an older row.
  lemma {:induction false} LastStoredWins(rows: Rows, id: WorkflowId, ws: seq<Webhook>, fates: seq<Fate>, i: nat, n: nat)
    requires i < n <= |ws| == |fates| && StoreError(RowsAt(rows, id, ws, fates, i), id, ws[i], fates[i]).None?
    requires forall j :: i < j < n ==> KeyOf(ws[j]) != KeyOf(ws[i])
    ensures var key, row := KeyOf(ws[i]), RowOf(id, ws[i]);
            && Owns(RowsAt(rows, id, ws, fates, n), id, key)
            && RowsAt(rows, id, ws, fates, n)[key].node == ws[i].node
            && (key !in RowsAt(rows, id, ws, fates, i) || IsDynamic(ws[i]) ==> RowsAt(rows, id, ws, fates, n)[key] == row)
  {
    if i + 1 < n {
      LastStoredWins(rows, id, ws, fates, i, n - 1);
    } else {
      assert RowsAt(rows, id, ws, fates, n) == Put(RowsAt(rows, id, ws, fates, i), KeyOf(ws[i]), RowOf(id, ws[i]));
    }
  }

  // A path another workflow holds fails on every activation, also on those that
  // skip failed queries, unless already looking up its owner is such a failure.
  lemma TakenPathsAlwaysFail(rows: Rows, id: WorkflowId, ws: seq<Webhook>, fates: seq<Fate>, activation: string, i: nat)
    requires i < |ws| == |fates|
    requires KeyOf(ws[i]) in rows && rows[KeyOf(ws[i])].workflowId != id
    ensures Passes(rows, id, ws, fates, activation, |ws|) ==>
              SkipsConflicts(activation) && fates[i].lookup == Some(QueryFailed)
  {
    var key := KeyOf(ws[i]);
    OthersUntouched(rows, id, ws, fates, i);
    var now := RowsAt(rows, id, ws, fates, i);
    assert key in OtherRows(rows, id);
    assert key in OtherRows(now, id);
    assert ErrorAt(rows, id, ws, fates, i)
        == if fates[i].lookup.Some? then fates[i].lookup else Some(PathTaken(ws[i].node));
  }

  // The loop fails at one webhook at most.
  lemma OneFailure(rows: Rows, id: WorkflowId, ws: seq<Webhook>, fates: seq<Fate>, activation: string, m: nat, n: nat)
    requires m < |ws| == |fates| && n < |ws|
    requires FailsAt(rows, id, ws, fates, activation, m) && FailsAt(rows, id, ws, fates, activation, n)
    ensures m == n
  {
  }

  // The static data is saved outside the compensated part. When saving fails,
  // the call fails and the rows stay: none is left exactly when there was none
  // and every store was skipped. Where nothing is skipped, that takes a
  // workflow with neither rows nor webhooks.
  lemma FailedSavingLeavesRows(rows: Rows, id: WorkflowId, ws: seq<Webhook>, fates: seq<Fate>, activation: string)
    requires |ws| == |fates| && Passes(rows, id, ws, fates, activation, |ws|)
    ensures RowsOf(RowsAt(rows, id, ws, fates, |ws|), id) == map[] <==> NothingStored(rows, id, ws, fates, |ws|)
    ensures !SkipsConflicts(activation) ==>
              (NothingStored(rows, id, ws, fates, |ws|) <==> RowsOf(rows, id) == map[] && ws == [])
  {
    NoRowsIff(rows, id, ws, fates, |ws|);
    if !SkipsConflicts(activation) && ws != [] {
      EachIsRegisteredOrSkipped(rows, id, ws, fates, activation, 0);
    }
  }

  // A webhook is stored and then saving fails: the call throws, the row stays.
  lemma SavingFailsAfterStoring(w: Webhook)
    ensures var fates := [Fate(None, None, None, None)];
            && Passes(map[], "w", [w], fates, "activate", 1)
            && RowsOf(RowsAt(map[], "w", [w], fates, 1), "w") == map[KeyOf(w) := RowOf("w", w)]
  {
    var fates := [Fate(None, None, None, None)];
    assert RowsAt(map[], "w", [w], fates, 0) == map[];
    assert ErrorAt(map[], "w", [w], fates, 0) == None;
  }

  // After the cleanup the workflow has no row, and the others all have theirs.
  lemma CleanupIsComplete(rows: Rows, id: WorkflowId)
    ensures RowsOf(OtherRows(rows, id), id) == map[]
    ensures OtherRows(OtherRows(rows, id), id) == OtherRows(rows, id)
  {
  }

  // A first start with an insert the database refuses: the call succeeds and
  // the workflow has no row.
  lemma SkippingMayRegisterNothing(w: Webhook)
    ensures var fates := [Fate(Some(QueryFailed), None, None, None)];
            && Passes(map[], "w", [w], fates, "init", 1)
            && NothingStored(map[], "w", [w], fates, 1)
            && RowsAt(map[], "w", [w], fates, 1) == map[]
  {
    var fates := [Fate(Some(QueryFailed), None, None, None)];
    assert RowsAt(map[], "w", [w], fates, 0) == map[];
    assert ErrorAt(map[], "w", [w], fates, 0) == Some(QueryFailed);
  }

  // One slash at either end does not matter, and nothing else is stripped.
  lemma SlashesDoNotMatter(path: string)
    ensures Stripped("/" + path + "/") == path
    ensures path == [] || path[0] != '/' ==> Stripped(path + "/") == path
    ensures path == [] || path[|path| - 1] != '/' ==> Stripped("/" + path) == path
    ensures path == [] || (path[0] != '/' && path[|path| - 1] != '/') ==> Stripped(path) == path
  {
    assert ("/" + path)[1..] == path;
    assert (path + "/")[..|path|] == path;
    assert ("/" + path + "/")[1..] == path + "/";
  }

  // A path without a slash is one segment, and a slash joins what it separates.
  lemma {:induction false} SegmentsAreJoined(a: string, b: string)
    ensures (forall i :: 0 <= i < |a| ==> a[i] != '/') ==> Segments(a) == 1
    ensures Segments(a + "/" + b) == Segments(a) + Segments(b)
  {
    var joined := a + "/" + b;
    if a == [] {
      assert joined[1..] == b;
    } else {
      assert joined[1..] == a[1..] + "/" + b;
      SegmentsAreJoined(a[1..], b);
    }
  }

  // "orders/:id" has a variable in its second of two segments.
  lemma OrdersById()
    ensures HasSegmentVariable("orders/:id") && Segments("orders/:id") == 2
  {
    var path := "orders/:id";
    assert path[6] == '/' && path[7] == ':';
    SegmentsAreJoined("orders", ":id");
    SegmentsAreJoined(":id", "");
    assert path == "orders" + "/" + ":id";
  }
}
