// Repairing the credential references of a workflow with two lookup caches.
module CredentialRepair {
  import opened Wrappers

  datatype Ref =
    | Absent                                  // null or undefined
    | Managed(tag: string)                    // supplied by the gateway at run time
    | Bare(name: string)                      // the oldest style: just a name
    | Details(id: Option<string>, name: string)

  datatype Slot = Slot(kind: string, ref: Ref)

  datatype Node = Node(name: string, disabled: bool, credentials: Option<seq<Slot>>)

  datatype Record = Record(id: string, name: string)

  type Key = (string, string)

  // What the two queries return during one call: by name and type within the
  // project, and by id and type.
  datatype Database = Database(named: map<Key, seq<Record>>, identified: map<Key, Record>, unsafe: set<string>) {
    function FindByName(kind: string, name: string): seq<Record> {
      if (kind, name) in named then named[(kind, name)] else []
    }

    predicate Unique(kind: string, name: string) {
      |FindByName(kind, name)| == 1
    }

    // Both queries read the same table.
    ghost predicate Consistent() {
      && (forall key, r :: key in named && r in named[key] ==>
            r.name == key.1 && (key.0, r.id) in identified && identified[(key.0, r.id)] == r)
      && (forall key :: key in identified ==> identified[key].id == key.1)
    }
  }

  function Found(r: Record): Ref {
    Details(Some(r.id), r.name)
  }

  datatype Cache = Cache(byName: map<Key, Ref>, byId: map<Key, Ref>)

  const EMPTY: Cache := Cache(map[], map[])

  datatype Repaired = Repaired(cache: Cache, ref: Ref)

  // One turn of the inner loop.
  function RepairRef(db: Database, c: Cache, kind: string, ref: Ref): Repaired {
    if kind in db.unsafe || ref.Absent? || ref.Managed? then Repaired(c, ref)
    else if ref.Bare? || ref.id.None? then
      var key := (kind, ref.name);
      if key in c.byName then Repaired(c, c.byName[key])
      else if db.Unique(kind, ref.name) then
        var found := Found(db.FindByName(kind, ref.name)[0]);
        Repaired(c.(byName := c.byName[key := found]), found)
      else Repaired(c.(byName := c.byName[key := Details(None, ref.name)]), ref)
    else
      var key := (kind, ref.id.value);
      if key in c.byId then Repaired(c, c.byId[key])
      else if key in db.identified then
        var found := Found(db.identified[key]);
        Repaired(c.(byId := c.byId[key := found]), found)
      else if db.Unique(kind, ref.name) then
        var r := db.FindByName(kind, ref.name)[0];
        Repaired(c.(byId := c.byId[(kind, r.id) := Found(r)]), Found(r))
      else Repaired(c.(byId := c.byId[key := ref]), ref)
  }

  datatype Slots = Slots(cache: Cache, slots: seq<Slot>)

  function RepairSlots(db: Database, c: Cache, slots: seq<Slot>): (r: Slots)
    ensures |r.slots| == |slots|
    ensures forall i :: 0 <= i < |slots| ==> r.slots[i].kind == slots[i].kind
  {
    if slots == [] then Slots(c, [])
    else
      var before := RepairSlots(db, c, slots[..|slots| - 1]);
      var last := slots[|slots| - 1];
      var repaired := RepairRef(db, before.cache, last.kind, last.ref);
      Slots(repaired.cache, before.slots + [Slot(last.kind, repaired.ref)])
  }

  predicate Skipped(n: Node) {
    n.disabled || n.credentials.None?
  }

  datatype Nodes = Nodes(cache: Cache, nodes: seq<Node>)

  // One turn of the outer loop.
  function RepairOne(db: Database, before: Nodes, node: Node): (r: Nodes)
    ensures |r.nodes| == |before.nodes| + 1
  {
    if Skipped(node) then Nodes(before.cache, before.nodes + [node])
    else
      var inner := RepairSlots(db, before.cache, node.credentials.value);
      Nodes(inner.cache, before.nodes + [node.(credentials := Some(inner.slots))])
  }

  function RepairNodes(db: Database, c: Cache, nodes: seq<Node>): (r: Nodes)
    ensures |r.nodes| == |nodes|
  {
    if nodes == [] then Nodes(c, [])
    else RepairOne(db, RepairNodes(db, c, nodes[..|nodes| - 1]), nodes[|nodes| - 1])
  }

  // The source's nested loops over the workflow's nodes, in place.
  method ReplaceInvalidCredentials(db: Database, nodes: array<Node>)
    modifies nodes
    ensures nodes[..] == RepairNodes(db, EMPTY, old(nodes[..])).nodes
  {
    var cache := EMPTY;
    ghost var original := nodes[..];
    for n := 0 to nodes.Length
      invariant Nodes(cache, nodes[..n]) == RepairNodes(db, EMPTY, original[..n])
      invariant forall k :: n <= k < nodes.Length ==> nodes[k] == original[k]
    {
      assert original[..n + 1][..n] == original[..n];
      if !nodes[n].disabled && nodes[n].credentials.Some? {
        var repaired := RepairNode(db, cache, nodes[n].credentials.value);
        cache := repaired.cache;
        nodes[n] := nodes[n].(credentials := Some(repaired.slots));
      }
      assert nodes[..n + 1] == nodes[..n] + [nodes[n]];
    }
    assert original[..nodes.Length] == original && nodes[..nodes.Length] == nodes[..];
  }

  // The inner loop over one node's references.
  method RepairNode(db: Database, start: Cache, entries: seq<Slot>) returns (r: Slots)
    ensures r == RepairSlots(db, start, entries)
  {
    var cache, slots := start, entries;
    for i := 0 to |entries|
      invariant |slots| == |entries|
      invariant Slots(cache, slots[..i]) == RepairSlots(db, start, entries[..i])
    {
      assert entries[..i + 1][..i] == entries[..i];
      var repaired := RepairEntry(db, cache, entries[i]);
      ghost var done := slots[..i];
      cache := repaired.cache;
      slots := slots[i := Slot(entries[i].kind, repaired.ref)];
      assert slots[..i] == done;
      assert slots[..i + 1] == slots[..i] + [Slot(entries[i].kind, repaired.ref)];
    }
    assert entries[..|entries|] == entries && slots[..|entries|] == slots;
    return Slots(cache, slots);
  }

  // The body of the inner loop, as a statement sequence. From coherent caches it
  // leaves coherent caches, and returns the uncached answer exactly when the
  // entry meets no cached hopeless reference of another name.
  method RepairEntry(db: Database, c: Cache, entry: Slot) returns (r: Repaired)
    ensures db.Consistent() && Coherent(db, c) ==>
              && Coherent(db, r.cache)
              && (Normal(r.ref) == Resolve(db, entry.kind, entry.ref) <==> !Stale(db, c, entry))
    ensures r == RepairRef(db, c, entry.kind, entry.ref)
  {
    if db.Consistent() && Coherent(db, c) { StepRefines(db, c, entry); }
    var kind, ref := entry.kind, entry.ref;
    if kind in db.unsafe { return Repaired(c, ref); }
    if ref.Absent? || ref.Managed? { return Repaired(c, ref); }
    if ref.Bare? || ref.id.None? {
      var name := ref.name;
      if (kind, name) in c.byName { return Repaired(c, c.byName[(kind, name)]); }
      var credentials := db.FindByName(kind, name);
      if |credentials| == 1 {
        var found := Found(credentials[0]);
        return Repaired(c.(byName := c.byName[(kind, name) := found]), found);
      }
      return Repaired(c.(byName := c.byName[(kind, name) := Details(None, name)]), ref);
    }
    var id := ref.id.value;
    if (kind, id) in c.byId { return Repaired(c, c.byId[(kind, id)]); }
    if (kind, id) in db.identified {
      var found := Found(db.identified[(kind, id)]);
      return Repaired(c.(byId := c.byId[(kind, id) := found]), found);
    }
    var credsByName := db.FindByName(kind, ref.name);
    if |credsByName| == 1 {
      var found := Found(credsByName[0]);
      return Repaired(c.(byId := c.byId[(kind, credsByName[0].id) := found]), found);
    }
    return Repaired(c.(byId := c.byId[(kind, id) := ref]), ref);
  }

  // ---------------------------------------------------------------
  // The specification: each reference on its own, no cache
  // ---------------------------------------------------------------

  // A bare name means a reference without id.
  function Normal(ref: Ref): Ref {
    if ref.Bare? then Details(None, ref.name) else ref
  }

  function Resolve(db: Database, kind: string, ref: Ref): Ref {
    if kind in db.unsafe || ref.Absent? || ref.Managed? then Normal(ref)
    else if ref.Details? && ref.id.Some? && (kind, ref.id.value) in db.identified then
      Found(db.identified[(kind, ref.id.value)])
    else if db.Unique(kind, ref.name) then Found(db.FindByName(kind, ref.name)[0])
    else Normal(ref)
  }

  // An id that no record has, next to a name that does not single one out.
  predicate Hopeless(db: Database, s: Slot) {
    && s.kind !in db.unsafe && s.ref.Details? && s.ref.id.Some?
    && (s.kind, s.ref.id.value) !in db.identified
    && !db.Unique(s.kind, s.ref.name)
  }

  // `a` is hopeless and `b`, further on, has the same id but another name.
  predicate Conflict(db: Database, a: Slot, b: Slot) {
    && Hopeless(db, a) && b.kind == a.kind
    && b.ref.Details? && b.ref.id == a.ref.id && b.ref.name != a.ref.name
  }

  ghost predicate NamesAgree(db: Database, slots: seq<Slot>) {
    forall j, k :: 0 <= j < k < |slots| ==> !Conflict(db, slots[j], slots[k])
  }

  // Every repaired reference is what it would be on its own.
  ghost predicate Refines(db: Database, slots: seq<Slot>, repaired: seq<Slot>)
    requires |repaired| == |slots|
  {
    forall i :: 0 <= i < |slots| ==> Normal(repaired[i].ref) == Resolve(db, slots[i].kind, slots[i].ref)
  }

  ghost predicate NameEntryOk(db: Database, kind: string, name: string, entry: Ref) {
    kind !in db.unsafe && entry == Resolve(db, kind, Details(None, name))
  }

  ghost predicate IdEntryOk(db: Database, kind: string, id: string, entry: Ref) {
    if (kind, id) in db.identified then entry == Found(db.identified[(kind, id)])
    else entry.Details? && entry.id == Some(id) && Hopeless(db, Slot(kind, entry))
  }

  // Cached answers are the uncached ones; an id without record maps to a
  // hopeless reference.
  ghost predicate Coherent(db: Database, c: Cache) {
    && (forall key :: key in c.byName ==> NameEntryOk(db, key.0, key.1, c.byName[key]))
    && (forall key :: key in c.byId ==> IdEntryOk(db, key.0, key.1, c.byId[key]))
  }

  predicate Stale(db: Database, c: Cache, s: Slot) {
    && s.kind !in db.unsafe && s.ref.Details? && s.ref.id.Some?
    && (s.kind, s.ref.id.value) in c.byId && (s.kind, s.ref.id.value) !in db.identified
    && c.byId[(s.kind, s.ref.id.value)] != s.ref
  }

  lemma UniqueIsIdentified(db: Database, kind: string, name: string)
    requires db.Consistent() && db.Unique(kind, name)
    ensures var r := db.FindByName(kind, name)[0];
            r.name == name && (kind, r.id) in db.identified && db.identified[(kind, r.id)] == r
  {
    assert db.FindByName(kind, name)[0] in db.named[(kind, name)];
  }

  lemma NameAdded(db: Database, c: Cache, key: Key, entry: Ref)
    requires Coherent(db, c) && NameEntryOk(db, key.0, key.1, entry)
    ensures Coherent(db, c.(byName := c.byName[key := entry]))
  {
  }

  lemma IdAdded(db: Database, c: Cache, key: Key, entry: Ref)
    requires Coherent(db, c) && IdEntryOk(db, key.0, key.1, entry)
    ensures Coherent(db, c.(byId := c.byId[key := entry]))
  {
  }

  predicate ByName(db: Database, s: Slot) {
    s.kind !in db.unsafe && (s.ref.Bare? || (s.ref.Details? && s.ref.id.None?))
  }

  predicate ById(db: Database, s: Slot) {
    s.kind !in db.unsafe && s.ref.Details? && s.ref.id.Some?
  }

  lemma NameStep(db: Database, c: Cache, s: Slot)
    requires db.Consistent() && Coherent(db, c) && ByName(db, s)
    ensures var r := RepairRef(db, c, s.kind, s.ref);
            Coherent(db, r.cache) && Normal(r.ref) == Resolve(db, s.kind, s.ref)
  {
    var key := (s.kind, s.ref.name);
    if key in c.byName {
      assert NameEntryOk(db, key.0, key.1, c.byName[key]);
    } else {
      NameAdded(db, c, key, Resolve(db, s.kind, Details(None, s.ref.name)));
    }
  }

  lemma IdStep(db: Database, c: Cache, s: Slot)
    requires db.Consistent() && Coherent(db, c) && ById(db, s)
    ensures var r := RepairRef(db, c, s.kind, s.ref);
            Coherent(db, r.cache) && (r.ref == Resolve(db, s.kind, s.ref) <==> !Stale(db, c, s)) && r.ref.Details?
  {
    var key := (s.kind, s.ref.id.value);
    if db.Unique(s.kind, s.ref.name) { UniqueIsIdentified(db, s.kind, s.ref.name); }
    if key in c.byId {
      assert IdEntryOk(db, key.0, key.1, c.byId[key]);
    } else if key in db.identified {
      IdAdded(db, c, key, Found(db.identified[key]));
    } else if db.Unique(s.kind, s.ref.name) {
      var r := db.FindByName(s.kind, s.ref.name)[0];
      IdAdded(db, c, (s.kind, r.id), Found(r));
    } else {
      IdAdded(db, c, key, s.ref);
    }
  }

  // Both caches stay coherent, and one turn gives the uncached answer exactly
  // when it does not meet a cached hopeless reference of another name.
  lemma StepRefines(db: Database, c: Cache, s: Slot)
    requires db.Consistent() && Coherent(db, c)
    ensures Coherent(db, RepairRef(db, c, s.kind, s.ref).cache)
    ensures Normal(RepairRef(db, c, s.kind, s.ref).ref) == Resolve(db, s.kind, s.ref) <==> !Stale(db, c, s)
  {
    if ByName(db, s) { NameStep(db, c, s); }
    if ById(db, s) { IdStep(db, c, s); }
  }

  // What the id cache holds, in terms of the references seen so far.
  ghost predicate Remembers(db: Database, c: Cache, seen: seq<Slot>) {
    && (forall j :: 0 <= j < |seen| && Hopeless(db, seen[j]) ==>
          (seen[j].kind, seen[j].ref.id.value) in c.byId
          && c.byId[(seen[j].kind, seen[j].ref.id.value)] == seen[j].ref)
    && (forall key :: key in c.byId && key !in db.identified ==> Slot(key.0, c.byId[key]) in seen)
  }

  lemma {:induction false} RunRefinesIff(db: Database, slots: seq<Slot>)
    requires db.Consistent()
    ensures Coherent(db, RepairSlots(db, EMPTY, slots).cache)
    ensures Refines(db, slots, RepairSlots(db, EMPTY, slots).slots) <==> NamesAgree(db, slots)
    ensures NamesAgree(db, slots) ==> Remembers(db, RepairSlots(db, EMPTY, slots).cache, slots)
  {
    if slots != [] {
      var init, last := slots[..|slots| - 1], slots[|slots| - 1];
      assert slots == init + [last];
      RunRefinesIff(db, init);
      RunStep(db, init, RepairSlots(db, EMPTY, init), last);
    }
  }

  lemma RunStep(db: Database, init: seq<Slot>, before: Slots, last: Slot)
    requires db.Consistent() && Coherent(db, before.cache) && |before.slots| == |init|
    requires Refines(db, init, before.slots) <==> NamesAgree(db, init)
    requires NamesAgree(db, init) ==> Remembers(db, before.cache, init)
    ensures var r := RepairRef(db, before.cache, last.kind, last.ref);
            && Coherent(db, r.cache)
            && (Refines(db, init + [last], before.slots + [Slot(last.kind, r.ref)]) <==> NamesAgree(db, init + [last]))
            && (NamesAgree(db, init + [last]) ==> Remembers(db, r.cache, init + [last]))
  {
    var r := RepairRef(db, before.cache, last.kind, last.ref);
    StepRefines(db, before.cache, last);
    RefinesSnoc(db, init, before.slots, last, Slot(last.kind, r.ref));
    NamesAgreeSnoc(db, init, last);
    if NamesAgree(db, init) {
      StaleIsConflict(db, before.cache, init, last);
      if !Stale(db, before.cache, last) { RemembersMore(db, before.cache, init, last); }
    }
  }

  lemma RefinesSnoc(db: Database, init: seq<Slot>, repaired: seq<Slot>, last: Slot, lastRepaired: Slot)
    requires |repaired| == |init|
    ensures Refines(db, init + [last], repaired + [lastRepaired]) <==>
              Refines(db, init, repaired) && Normal(lastRepaired.ref) == Resolve(db, last.kind, last.ref)
  {
    var all, allRepaired := init + [last], repaired + [lastRepaired];
    if Refines(db, all, allRepaired) {
      forall i | 0 <= i < |init| ensures Normal(repaired[i].ref) == Resolve(db, init[i].kind, init[i].ref) {
        assert all[i] == init[i] && allRepaired[i] == repaired[i];
      }
      assert all[|init|] == last && allRepaired[|init|] == lastRepaired;
    }
  }

  lemma NamesAgreeSnoc(db: Database, init: seq<Slot>, last: Slot)
    ensures NamesAgree(db, init + [last]) <==>
              NamesAgree(db, init) && forall j :: 0 <= j < |init| ==> !Conflict(db, init[j], last)
  {
    var all := init + [last];
    if NamesAgree(db, all) {
      assert forall j, k :: 0 <= j < k < |init| ==> all[j] == init[j] && all[k] == init[k];
      forall j | 0 <= j < |init| ensures !Conflict(db, init[j], last) {
        assert !Conflict(db, all[j], all[|init|]);
      }
    }
  }

  lemma StaleIsConflict(db: Database, c: Cache, seen: seq<Slot>, s: Slot)
    requires Coherent(db, c) && Remembers(db, c, seen)
    ensures Stale(db, c, s) <==> exists j :: 0 <= j < |seen| && Conflict(db, seen[j], s)
  {
    if Stale(db, c, s) {
      var key := (s.kind, s.ref.id.value);
      assert Slot(key.0, c.byId[key]) in seen;
      var j :| 0 <= j < |seen| && seen[j] == Slot(key.0, c.byId[key]);
      assert Conflict(db, seen[j], s);
    }
  }

  lemma RemembersMore(db: Database, c: Cache, seen: seq<Slot>, s: Slot)
    requires db.Consistent() && Coherent(db, c) && Remembers(db, c, seen) && !Stale(db, c, s)
    ensures Remembers(db, RepairRef(db, c, s.kind, s.ref).cache, seen + [s])
  {
    var c' := RepairRef(db, c, s.kind, s.ref).cache;
    if ById(db, s) {
      IdCacheGrows(db, c, s);
      RemembersGrown(db, c, c', seen, s);
    } else {
      assert c'.byId == c.byId;
      RemembersGrown(db, c, c', seen, s);
    }
  }

  // As long as the id cache only gains the hopeless reference `s`.
  lemma RemembersGrown(db: Database, c: Cache, c': Cache, seen: seq<Slot>, s: Slot)
    requires Remembers(db, c, seen) && !Stale(db, c, s)
    requires forall key :: key in c.byId && key !in db.identified ==> key in c'.byId && c'.byId[key] == c.byId[key]
    requires forall key :: key in c'.byId && key !in db.identified && key !in c.byId ==>
               s == Slot(key.0, c'.byId[key]) && Hopeless(db, s)
    requires Hopeless(db, s) ==> (s.kind, s.ref.id.value) in c'.byId && c'.byId[(s.kind, s.ref.id.value)] == s.ref
    ensures Remembers(db, c', seen + [s])
  {
    forall key | key in c'.byId && key !in db.identified ensures Slot(key.0, c'.byId[key]) in seen + [s] {
      if key in c.byId { assert Slot(key.0, c.byId[key]) in seen; }
    }
  }

  // An id without record enters the cache only through a hopeless reference,
  // and then keeps its entry.
  lemma IdCacheGrows(db: Database, c: Cache, s: Slot)
    requires db.Consistent() && Coherent(db, c) && ById(db, s)
    ensures var c' := RepairRef(db, c, s.kind, s.ref).cache;
            && (forall key :: key in c.byId && key !in db.identified ==> key in c'.byId && c'.byId[key] == c.byId[key])
            && (forall key :: key in c'.byId && key !in db.identified && key !in c.byId ==>
                  key == (s.kind, s.ref.id.value) && c'.byId[key] == s.ref && Hopeless(db, s))
            && (Hopeless(db, s) ==> (s.kind, s.ref.id.value) in c'.byId)
  {
    if db.Unique(s.kind, s.ref.name) { UniqueIsIdentified(db, s.kind, s.ref.name); }
  }

  // ---------------------------------------------------------------
  // From nested loops to one list of references
  // ---------------------------------------------------------------

  // The references of all nodes that are not skipped, in loop order.
  function References(nodes: seq<Node>): seq<Slot> {
    if nodes == [] then []
    else
      var last := nodes[|nodes| - 1];
      References(nodes[..|nodes| - 1]) + (if Skipped(last) then [] else last.credentials.value)
  }

  lemma {:induction false} SlotsConcat(db: Database, c: Cache, a: seq<Slot>, b: seq<Slot>)
    ensures var first := RepairSlots(db, c, a);
            var second := RepairSlots(db, first.cache, b);
            RepairSlots(db, c, a + b) == Slots(second.cache, first.slots + second.slots)
  {
    if b == [] {
      assert a + b == a;
    } else {
      assert (a + b)[..|a + b| - 1] == a + b[..|b| - 1];
      SlotsConcat(db, c, a, b[..|b| - 1]);
    }
  }

  lemma ReferencesSnoc(init: seq<Node>, last: Node)
    ensures References(init + [last]) ==
              References(init) + (if Skipped(last) then [] else last.credentials.value)
  {
    assert (init + [last])[..|init|] == init;
  }

  // The nested loops treat the references as one list.
  lemma {:induction false} NestedLoopsAreFlat(db: Database, nodes: seq<Node>)
    ensures var r := RepairNodes(db, EMPTY, nodes);
            Slots(r.cache, References(r.nodes)) == RepairSlots(db, EMPTY, References(nodes))
  {
    if nodes != [] {
      var init, last := nodes[..|nodes| - 1], nodes[|nodes| - 1];
      assert nodes == init + [last];
      NestedLoopsAreFlat(db, init);
      FlatStep(db, init, RepairNodes(db, EMPTY, init), last);
    }
  }

  lemma FlatStep(db: Database, init: seq<Node>, before: Nodes, last: Node)
    requires Slots(before.cache, References(before.nodes)) == RepairSlots(db, EMPTY, References(init))
    ensures var r := RepairOne(db, before, last);
            Slots(r.cache, References(r.nodes)) == RepairSlots(db, EMPTY, References(init + [last]))
  {
    ReferencesSnoc(init, last);
    if Skipped(last) {
      ReferencesSnoc(before.nodes, last);
      assert References(init) + [] == References(init);
    } else {
      var inner := RepairSlots(db, before.cache, last.credentials.value);
      ReferencesSnoc(before.nodes, last.(credentials := Some(inner.slots)));
      SlotsConcat(db, EMPTY, References(init), last.credentials.value);
    }
  }

  // Skipped nodes stay as they were; in the others nothing but the references
  // changes, and each keeps its credential type.
  lemma {:induction false} OnlyReferencesChange(db: Database, nodes: seq<Node>, i: nat)
    requires i < |nodes|
    ensures var n, r := nodes[i], RepairNodes(db, EMPTY, nodes).nodes[i];
            if n.disabled || n.credentials.None? then r == n
            else
              && r.(credentials := n.credentials) == n && !Skipped(r)
              && |r.credentials.value| == |n.credentials.value|
              && forall j :: 0 <= j < |n.credentials.value| ==>
                   r.credentials.value[j].kind == n.credentials.value[j].kind
  {
    if i < |nodes| - 1 { OnlyReferencesChange(db, nodes[..|nodes| - 1], i); }
  }

  // The cached repair equals uncached resolution, reference by reference,
  // exactly when no hopeless reference is followed by one with its id and
  // another name.
  lemma RepairRefinesResolution(db: Database, nodes: seq<Node>)
    requires db.Consistent()
    ensures var repaired := References(RepairNodes(db, EMPTY, nodes).nodes);
            && |repaired| == |References(nodes)|
            && (Refines(db, References(nodes), repaired) <==> NamesAgree(db, References(nodes)))
  {
    NestedLoopsAreFlat(db, nodes);
    RunRefinesIff(db, References(nodes));
  }

  // A node with one reference.
  function Single(name: string, ref: Ref): Node {
    Node(name, false, Some([Slot("t", ref)]))
  }

  lemma SingleTurn(db: Database, before: Nodes, name: string, ref: Ref)
    ensures var r := RepairRef(db, before.cache, "t", ref);
            RepairOne(db, before, Single(name, ref)) == Nodes(r.cache, before.nodes + [Single(name, r.ref)])
  {
    assert [Slot("t", ref)][..0] == [];
    assert RepairSlots(db, before.cache, [Slot("t", ref)][..0]) == Slots(before.cache, []);
    var r := RepairRef(db, before.cache, "t", ref);
    assert RepairSlots(db, before.cache, [Slot("t", ref)]) == Slots(r.cache, [Slot("t", r.ref)]);
  }

  lemma TwoNodes(db: Database, one: Node, two: Node)
    ensures RepairNodes(db, EMPTY, [one, two]) == RepairOne(db, RepairOne(db, Nodes(EMPTY, []), one), two)
  {
    assert [one, two][..1] == [one] && [one][..0] == [];
    assert RepairNodes(db, EMPTY, []) == Nodes(EMPTY, []);
  }

  // "B" alone leads to a record; nobody has the id "1" or the name "A".
  const ONLY_B: Database := Database(map[("t", "B") := [Record("2", "B")]], map[("t", "2") := Record("2", "B")], {})

  // The second node's reference resolves to the record, yet after the first
  // one it is given the first one's.
  lemma SecondNameIsIgnored()
    ensures var a, b := Details(Some("1"), "A"), Details(Some("1"), "B");
            && ONLY_B.Consistent() && Resolve(ONLY_B, "t", b) == Details(Some("2"), "B")
            && RepairNodes(ONLY_B, EMPTY, [Single("x", a), Single("y", b)]).nodes == [Single("x", a), Single("y", a)]
  {
    var a, b := Details(Some("1"), "A"), Details(Some("1"), "B");
    TwoNodes(ONLY_B, Single("x", a), Single("y", b));
    SingleTurn(ONLY_B, Nodes(EMPTY, []), "x", a);
    var c := Cache(map[], map[("t", "1") := a]);
    assert RepairRef(ONLY_B, EMPTY, "t", a) == Repaired(c, a);
    assert [] + [Single("x", a)] == [Single("x", a)];
    SingleTurn(ONLY_B, Nodes(c, [Single("x", a)]), "y", b);
    assert RepairRef(ONLY_B, c, "t", b) == Repaired(c, a);
    assert [Single("x", a)] + [Single("y", a)] == [Single("x", a), Single("y", a)];
  }

  // So the cached repair does not refine uncached resolution there.
  lemma RefinementFails()
    ensures var nodes := [Single("x", Details(Some("1"), "A")), Single("y", Details(Some("1"), "B"))];
            var repaired := References(RepairNodes(ONLY_B, EMPTY, nodes).nodes);
            |repaired| == |References(nodes)| && !Refines(ONLY_B, References(nodes), repaired)
  {
    var a, b := Details(Some("1"), "A"), Details(Some("1"), "B");
    var nodes := [Single("x", a), Single("y", b)];
    assert nodes == [] + [Single("x", a)] + [Single("y", b)];
    ReferencesSnoc([], Single("x", a));
    ReferencesSnoc([] + [Single("x", a)], Single("y", b));
    assert References(nodes) == [Slot("t", a), Slot("t", b)];
    assert Conflict(ONLY_B, References(nodes)[0], References(nodes)[1]);
    SecondNameIsIgnored();
    RepairRefinesResolution(ONLY_B, nodes);
  }

  // ---------------------------------------------------------------
  // What a repaired reference may be
  // ---------------------------------------------------------------

  lemma {:induction false} SlotsStayCoherent(db: Database, c: Cache, slots: seq<Slot>)
    requires db.Consistent() && Coherent(db, c)
    ensures Coherent(db, RepairSlots(db, c, slots).cache)
  {
    if slots != [] {
      SlotsStayCoherent(db, c, slots[..|slots| - 1]);
      StepRefines(db, RepairSlots(db, c, slots[..|slots| - 1]).cache, slots[|slots| - 1]);
    }
  }

  lemma {:induction false} NodesStayCoherent(db: Database, nodes: seq<Node>)
    requires db.Consistent()
    ensures Coherent(db, RepairNodes(db, EMPTY, nodes).cache)
  {
    if nodes != [] {
      var before := RepairNodes(db, EMPTY, nodes[..|nodes| - 1]);
      NodesStayCoherent(db, nodes[..|nodes| - 1]);
      if !Skipped(nodes[|nodes| - 1]) { SlotsStayCoherent(db, before.cache, nodes[|nodes| - 1].credentials.value); }
    }
  }

  // Each reference comes out of one turn over coherent caches.
  lemma {:induction false} SlotHasTurn(db: Database, c: Cache, slots: seq<Slot>, j: nat) returns (at: Cache)
    requires db.Consistent() && Coherent(db, c) && j < |slots|
    ensures Coherent(db, at)
    ensures RepairSlots(db, c, slots).slots[j].ref == RepairRef(db, at, slots[j].kind, slots[j].ref).ref
  {
    var n := |slots| - 1;
    if j == n {
      at := RepairSlots(db, c, slots[..n]).cache;
      SlotsStayCoherent(db, c, slots[..n]);
    } else {
      at := SlotHasTurn(db, c, slots[..n], j);
    }
  }

  lemma {:induction false} NodeHasTurn(db: Database, nodes: seq<Node>, i: nat, j: nat) returns (at: Cache)
    requires db.Consistent() && i < |nodes| && !nodes[i].disabled && nodes[i].credentials.Some? && j < |nodes[i].credentials.value|
    ensures var r := RepairNodes(db, EMPTY, nodes).nodes[i];
            && r.credentials.Some? && j < |r.credentials.value| && Coherent(db, at)
            && r.credentials.value[j].ref
               == RepairRef(db, at, nodes[i].credentials.value[j].kind, nodes[i].credentials.value[j].ref).ref
  {
    var n := |nodes| - 1;
    if i == n {
      NodesStayCoherent(db, nodes[..n]);
      at := SlotHasTurn(db, RepairNodes(db, EMPTY, nodes[..n]).cache, nodes[n].credentials.value, j);
    } else {
      at := NodeHasTurn(db, nodes[..n], i, j);
    }
  }

  // A turn, in the database's terms: `named` are the records found by name.
  lemma TurnOutcome(db: Database, c: Cache, kind: string, ref: Ref, named: seq<Record>)
    requires db.Consistent() && Coherent(db, c)
    requires ref.Bare? || ref.Details? ==> named == if (kind, ref.name) in db.named then db.named[(kind, ref.name)] else []
    ensures var out := RepairRef(db, c, kind, ref).ref;
            && (kind in db.unsafe || ref.Absent? || ref.Managed? ==> out == ref)
            && (kind !in db.unsafe && (ref.Bare? || (ref.Details? && ref.id.None?)) ==>
                  if |named| == 1 then out == Details(Some(named[0].id), named[0].name)
                  else out == ref || out == Details(None, ref.name))
            && (kind !in db.unsafe && ref.Details? && ref.id.Some? ==>
                  if (kind, ref.id.value) in db.identified then
                    out == Details(Some(ref.id.value), db.identified[(kind, ref.id.value)].name)
                  else out.Details? && (out.id == ref.id || (|named| == 1 && out == Details(Some(named[0].id), named[0].name))))
  {
    if ByName(db, Slot(kind, ref)) { NameOutcome(db, c, Slot(kind, ref)); }
    if ById(db, Slot(kind, ref)) {
      IdOutcome(db, c, Slot(kind, ref));
      var key := (kind, ref.id.value);
      if key in c.byId { assert IdEntryOk(db, kind, ref.id.value, c.byId[key]); }
    }
  }

  // After the repair a reference names a record other than by its own id only
  // if its name leads to that record and no other. Without an id, and with a
  // name of no or of several records, it keeps its name and gets no id.
  lemma RepairedReference(db: Database, nodes: seq<Node>, i: nat, j: nat)
    requires db.Consistent() && i < |nodes| && !nodes[i].disabled && nodes[i].credentials.Some? && j < |nodes[i].credentials.value|
    ensures var r := RepairNodes(db, EMPTY, nodes).nodes[i];
            && r.credentials.Some? && |r.credentials.value| == |nodes[i].credentials.value|
            && var kind, ref, out := nodes[i].credentials.value[j].kind, nodes[i].credentials.value[j].ref, r.credentials.value[j].ref;
               && r.credentials.value[j].kind == kind
               && (kind in db.unsafe || ref.Absent? || ref.Managed? ==> out == ref)
               && (kind !in db.unsafe && (ref.Bare? || ref.Details?) ==>
                     var named := if (kind, ref.name) in db.named then db.named[(kind, ref.name)] else [];
                     if ref.Bare? || ref.id.None? then
                       (if |named| == 1 then out == Details(Some(named[0].id), named[0].name)
                        else out == ref || out == Details(None, ref.name))
                     else if (kind, ref.id.value) in db.identified then
                       out == Details(ref.id, db.identified[(kind, ref.id.value)].name)
                     else out.Details? && (out.id == ref.id || (|named| == 1 && out == Details(Some(named[0].id), named[0].name))))
  {
    OnlyReferencesChange(db, nodes, i);
    var kind, ref := nodes[i].credentials.value[j].kind, nodes[i].credentials.value[j].ref;
    var at := NodeHasTurn(db, nodes, i, j);
    TurnOutcome(db, at, kind, ref,
                if (ref.Bare? || ref.Details?) && (kind, ref.name) in db.named then db.named[(kind, ref.name)] else []);
  }

  // What a reference resolves to on its own, case by case: itself where nothing
  // is looked up, the record of its id, the only record of its name, itself.
  lemma ResolveMeans(db: Database, kind: string, ref: Ref)
    ensures kind in db.unsafe || ref.Absent? || ref.Managed? ==>
              Resolve(db, kind, ref) == if ref.Bare? then Details(None, ref.name) else ref
    ensures kind !in db.unsafe && (ref.Bare? || ref.Details?) ==>
              var named := if (kind, ref.name) in db.named then db.named[(kind, ref.name)] else [];
              Resolve(db, kind, ref) ==
                if ref.Details? && ref.id.Some? && (kind, ref.id.value) in db.identified then
                  Details(Some(db.identified[(kind, ref.id.value)].id), db.identified[(kind, ref.id.value)].name)
                else if |named| == 1 then Details(Some(named[0].id), named[0].name)
                else if ref.Bare? then Details(None, ref.name) else ref
  {
  }

  // Where the repair departs from that: an id without record and a name that
  // does not lead to one record, before the same id with another name.
  lemma DisagreementMeans(db: Database, slots: seq<Slot>)
    ensures !NamesAgree(db, slots) <==>
              exists j, k :: 0 <= j < k < |slots| && Conflict(db, slots[j], slots[k])
    ensures forall a, b :: Conflict(db, a, b) ==>
              && a.kind == b.kind && a.kind !in db.unsafe && a.ref.Details? && b.ref.Details?
              && a.ref.id.Some? && b.ref.id == a.ref.id && (a.kind, a.ref.id.value) !in db.identified
              && b.ref.name != a.ref.name
              && ((a.kind, a.ref.name) in db.named ==> |db.named[(a.kind, a.ref.name)]| != 1)
  {
  }

  // Two records of one name: a bare reference to it is left alone.
  lemma AmbiguousNameIsLeftAlone()
    ensures var one, two := Record("1", "S"), Record("2", "S");
            var db := Database(map[("t", "S") := [one, two]], map[("t", "1") := one, ("t", "2") := two], {});
            && db.Consistent()
            && RepairNodes(db, EMPTY, [Single("x", Bare("S"))]).nodes == [Single("x", Bare("S"))]
  {
    var one, two := Record("1", "S"), Record("2", "S");
    var db := Database(map[("t", "S") := [one, two]], map[("t", "1") := one, ("t", "2") := two], {});
    SingleTurn(db, Nodes(EMPTY, []), "x", Bare("S"));
    assert [Single("x", Bare("S"))][..0] == [];
    assert RepairRef(db, EMPTY, "t", Bare("S")).ref == Bare("S");
    assert RepairNodes(db, EMPTY, [Single("x", Bare("S"))]) == RepairOne(db, Nodes(EMPTY, []), Single("x", Bare("S")));
  }

  // ---------------------------------------------------------------
  // A second pass changes nothing
  // ---------------------------------------------------------------

  // The caches of a second pass over the first pass's results, at the same place.
  ghost predicate Follows(db: Database, first: Cache, second: Cache) {
    && Coherent(db, first) && Coherent(db, second)
    && second.byName.Keys <= first.byName.Keys
    && SameHopeless(db, first, second)
  }

  // What a turn by name and a turn by id come to.
  lemma NameOutcome(db: Database, c: Cache, s: Slot)
    requires Coherent(db, c) && ByName(db, s)
    ensures var r := RepairRef(db, c, s.kind, s.ref);
            && r.cache.byId == c.byId && r.cache.byName.Keys == c.byName.Keys + {(s.kind, s.ref.name)}
            && r.ref == if db.Unique(s.kind, s.ref.name) then Found(db.FindByName(s.kind, s.ref.name)[0])
                        else if (s.kind, s.ref.name) in c.byName then Details(None, s.ref.name)
                        else s.ref
  {
    var key := (s.kind, s.ref.name);
    if key in c.byName { assert NameEntryOk(db, key.0, key.1, c.byName[key]); }
  }

  lemma IdOutcome(db: Database, c: Cache, s: Slot)
    requires Coherent(db, c) && ById(db, s)
    ensures var r := RepairRef(db, c, s.kind, s.ref);
            var key := (s.kind, s.ref.id.value);
            && r.cache.byName == c.byName
            && r.ref == if key in db.identified then Found(db.identified[key])
                        else if key in c.byId then c.byId[key]
                        else if db.Unique(s.kind, s.ref.name) then Found(db.FindByName(s.kind, s.ref.name)[0])
                        else s.ref
  {
    var key := (s.kind, s.ref.id.value);
    if key in c.byId { assert IdEntryOk(db, key.0, key.1, c.byId[key]); }
  }

  // A reference to a record is its own repair and caches nothing hopeless.
  lemma FoundIsStable(db: Database, c: Cache, kind: string, r: Record)
    requires db.Consistent() && Coherent(db, c) && kind !in db.unsafe
    requires (kind, r.id) in db.identified && db.identified[(kind, r.id)] == r
    ensures var again := RepairRef(db, c, kind, Found(r));
            && again.ref == Found(r) && Coherent(db, again.cache) && again.cache.byName == c.byName
            && (forall key :: key in again.cache.byId && key !in db.identified ==>
                  key in c.byId && again.cache.byId[key] == c.byId[key])
  {
    IdOutcome(db, c, Slot(kind, Found(r)));
    IdStep(db, c, Slot(kind, Found(r)));
    IdCacheGrows(db, c, Slot(kind, Found(r)));
  }

  lemma SecondNameStep(db: Database, first: Cache, second: Cache, s: Slot)
    requires db.Consistent() && Follows(db, first, second) && ByName(db, s)
    ensures var once := RepairRef(db, first, s.kind, s.ref);
            var twice := RepairRef(db, second, s.kind, once.ref);
            twice.ref == once.ref && Follows(db, once.cache, twice.cache)
  {
    NameStep(db, first, s);
    NameOutcome(db, first, s);
    if db.Unique(s.kind, s.ref.name) {
      UniqueIsIdentified(db, s.kind, s.ref.name);
      FoundIsStable(db, second, s.kind, db.FindByName(s.kind, s.ref.name)[0]);
    } else {
      var once := RepairRef(db, first, s.kind, s.ref);
      NameStep(db, second, Slot(s.kind, once.ref));
      NameOutcome(db, second, Slot(s.kind, once.ref));
    }
  }

  // What a turn by id returns is a record, or hopeless and cached as it is.
  lemma IdResult(db: Database, c: Cache, s: Slot)
    requires db.Consistent() && Coherent(db, c) && ById(db, s)
    ensures var once := RepairRef(db, c, s.kind, s.ref);
            && ById(db, Slot(s.kind, once.ref))
            && var key := (s.kind, once.ref.id.value);
               if key in db.identified then once.ref == Found(db.identified[key])
               else key in once.cache.byId && once.cache.byId[key] == once.ref && Hopeless(db, Slot(s.kind, once.ref))
  {
    var key := (s.kind, s.ref.id.value);
    IdOutcome(db, c, s);
    if db.Unique(s.kind, s.ref.name) { UniqueIsIdentified(db, s.kind, s.ref.name); }
    if key in c.byId { assert IdEntryOk(db, key.0, key.1, c.byId[key]); }
  }

  // A hopeless reference, cached as it is or not at all, is its own repair.
  lemma HopelessIsStable(db: Database, c: Cache, s: Slot)
    requires db.Consistent() && Coherent(db, c) && Hopeless(db, s)
    requires (s.kind, s.ref.id.value) in c.byId ==> c.byId[(s.kind, s.ref.id.value)] == s.ref
    ensures var again := RepairRef(db, c, s.kind, s.ref);
            && again.ref == s.ref && Coherent(db, again.cache)
            && again.cache == c.(byId := c.byId[(s.kind, s.ref.id.value) := s.ref])
  {
    IdStep(db, c, s);
    var key := (s.kind, s.ref.id.value);
    if key in c.byId { assert c.byId == c.byId[key := s.ref]; }
  }

  // Entries of ids without record, as far as both caches have them.
  ghost predicate SameHopeless(db: Database, first: Cache, second: Cache) {
    forall key :: key in second.byId && key !in db.identified ==> key in first.byId && first.byId[key] == second.byId[key]
  }

  lemma SecondIdStep(db: Database, first: Cache, second: Cache, s: Slot)
    requires db.Consistent() && Follows(db, first, second) && ById(db, s)
    ensures var once := RepairRef(db, first, s.kind, s.ref);
            var twice := RepairRef(db, second, s.kind, once.ref);
            twice.ref == once.ref && Follows(db, once.cache, twice.cache)
  {
    IdStep(db, first, s);
    IdCacheGrows(db, first, s);
    IdOutcome(db, first, s);
    IdResult(db, first, s);
    AfterFirstIdStep(db, second, s.kind, RepairRef(db, first, s.kind, s.ref));
  }

  lemma AfterFirstIdStep(db: Database, second: Cache, kind: string, once: Repaired)
    requires db.Consistent() && Coherent(db, once.cache) && Coherent(db, second)
    requires second.byName.Keys <= once.cache.byName.Keys && SameHopeless(db, once.cache, second)
    requires ById(db, Slot(kind, once.ref))
    requires var key := (kind, once.ref.id.value);
             if key in db.identified then once.ref == Found(db.identified[key])
             else key in once.cache.byId && once.cache.byId[key] == once.ref && Hopeless(db, Slot(kind, once.ref))
    ensures var twice := RepairRef(db, second, kind, once.ref);
            twice.ref == once.ref && Follows(db, once.cache, twice.cache)
  {
    var key := (kind, once.ref.id.value);
    if key in db.identified {
      FoundIsStable(db, second, kind, db.identified[key]);
    } else {
      HopelessIsStable(db, second, Slot(kind, once.ref));
    }
  }

  lemma SecondStep(db: Database, first: Cache, second: Cache, kind: string, ref: Ref)
    requires db.Consistent() && Follows(db, first, second)
    ensures var once := RepairRef(db, first, kind, ref);
            var twice := RepairRef(db, second, kind, once.ref);
            twice.ref == once.ref && Follows(db, once.cache, twice.cache)
  {
    if ByName(db, Slot(kind, ref)) {
      SecondNameStep(db, first, second, Slot(kind, ref));
    } else if ById(db, Slot(kind, ref)) {
      SecondIdStep(db, first, second, Slot(kind, ref));
    }
  }

  // A second pass over repaired references, from caches that follow each other.
  lemma {:induction false} SecondSlots(db: Database, first: Cache, second: Cache, slots: seq<Slot>)
    requires db.Consistent() && Follows(db, first, second)
    ensures var once := RepairSlots(db, first, slots);
            var twice := RepairSlots(db, second, once.slots);
            twice.slots == once.slots && Follows(db, once.cache, twice.cache)
  {
    if slots != [] {
      var n := |slots| - 1;
      SecondSlots(db, first, second, slots[..n]);
      var before := RepairSlots(db, first, slots[..n]);
      assert RepairSlots(db, first, slots).slots[..n] == before.slots;
      SecondStep(db, before.cache, RepairSlots(db, second, before.slots).cache, slots[n].kind, slots[n].ref);
    }
  }

  // The caches after a second pass over the first pass's nodes are those of a
  // second pass over its references.
  lemma SecondCache(db: Database, nodes: seq<Node>)
    requires db.Consistent()
    ensures var once := RepairNodes(db, EMPTY, nodes);
            var twice := RepairNodes(db, EMPTY, once.nodes);
            Follows(db, once.cache, twice.cache)
  {
    NestedLoopsAreFlat(db, nodes);
    NestedLoopsAreFlat(db, RepairNodes(db, EMPTY, nodes).nodes);
    SecondSlots(db, EMPTY, EMPTY, References(nodes));
  }

  // For any workflow, whether or not its names agree, repairing a repaired
  // workflow with fresh caches returns every node as it is.
  lemma {:induction false} RepairIsIdempotent(db: Database, nodes: seq<Node>)
    requires db.Consistent()
    ensures var once := RepairNodes(db, EMPTY, nodes).nodes;
            RepairNodes(db, EMPTY, once).nodes == once
  {
    if nodes != [] {
      var n := |nodes| - 1;
      RepairIsIdempotent(db, nodes[..n]);
      SecondCache(db, nodes[..n]);
      var before := RepairNodes(db, EMPTY, nodes[..n]);
      var once := RepairNodes(db, EMPTY, nodes).nodes;
      assert once[..n] == before.nodes;
      if !Skipped(nodes[n]) {
        SecondSlots(db, before.cache, RepairNodes(db, EMPTY, before.nodes).cache, nodes[n].credentials.value);
      }
    }
  }
}
