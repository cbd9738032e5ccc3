// Inherited credential overwrites: the map that `setPlainData` resolves in
// place while iterating it, the reader `get` that callers go through, and
// `applyOverwrite`.
module CredentialsOverwrites {
  import opened Wrappers
  import opened CredentialTypes

  datatype Value = Undefined | Null | Text(text: string) | Number(number: int) | Flag(flag: bool) {
    // The values that count as "no data set".
    predicate IsEmpty() {
      this == Undefined || this == Null || this == Text("")
    }
  }

  type Entry = map<string, Value>
  type Overwrites = map<string, Entry>

  function Lookup(data: Overwrites, t: string): Option<Entry> {
    if t in data then Some(data[t]) else None
  }

  // Assigning nothing assigns no field.
  function OrEmpty(entry: Option<Entry>): Entry {
    if entry.Some? then entry.value else map[]
  }

  // ---------------------------------------------------------------
  // The reader: reverse, map, filter, reduce
  // ---------------------------------------------------------------

  // The stored entries of `ts` in reverse order, absent ones filtered out.
  function ReversedEntries(data: Overwrites, ts: seq<string>): seq<Entry> {
    if ts == [] then []
    else ReversedEntries(data, ts[1..]) + (if ts[0] in data then [data[ts[0]]] else [])
  }

  function AssignAll(entries: seq<Entry>): Entry {
    if entries == [] then map[]
    else AssignAll(entries[..|entries| - 1]) + entries[|entries| - 1]
  }

  function Get(h: Hierarchy, data: Overwrites, name: string): Option<Entry>
    requires h.Acyclic()
  {
    var entries := ReversedEntries(data, [name] + ParentTypes(h, name));
    if entries == [] then None else Some(AssignAll(entries))
  }

  // ---------------------------------------------------------------
  // The memoised resolver
  // ---------------------------------------------------------------

  datatype Resolved = Resolved(entry: Option<Entry>, types: seq<string>)

  function Overwritten(h: Hierarchy, data: Overwrites, types: seq<string>, t: string): Resolved
    requires h.Acyclic()
    decreases h.Rank(t)
  {
    if t in types then Resolved(Lookup(data, t), types)
    else if t !in h.recognized then Resolved(None, types)
    else if t !in h.parents then Resolved(Lookup(data, t), types + [t])
    else
      ParentsBelow(h, t);
      var inherited := Inherited(h, data, types, h.parents[t], h.Rank(t));
      Resolved(Some(OrEmpty(inherited.entry) + OrEmpty(Lookup(data, t))), inherited.types + [t])
  }

  // What the loop over `extends` has assigned after reading `parents`.
  function Inherited(h: Hierarchy, data: Overwrites, types: seq<string>, parents: seq<string>, ghost r: nat)
    : (merged: Resolved)
    requires h.Acyclic() && Below(h, parents, r)
    ensures merged.entry.Some?
    decreases r, |parents|
  {
    if parents == [] then Resolved(Some(map[]), types)
    else
      var before := Inherited(h, data, types, parents[..|parents| - 1], r);
      var last := Overwritten(h, data, before.types, parents[|parents| - 1]);
      Resolved(Some(before.entry.value + OrEmpty(last.entry)), last.types)
  }

  datatype Stored = Stored(data: Overwrites, types: seq<string>)

  // The map and the memo list after `setPlainData` has visited `order`.
  function PlainData(h: Hierarchy, raw: Overwrites, order: seq<string>): (s: Stored)
    requires h.Acyclic() && forall t :: t in order ==> t in raw
    ensures s.data.Keys == raw.Keys
  {
    if order == [] then Stored(raw, [])
    else Visited(h, PlainData(h, raw, order[..|order| - 1]), order[|order| - 1])
  }

  // One turn of its loop.
  function Visited(h: Hierarchy, before: Stored, t: string): (s: Stored)
    requires h.Acyclic() && t in before.data
    ensures s.data.Keys == before.data.Keys
    ensures forall u :: u in before.data && u != t ==> s.data[u] == before.data[u]
  {
    var found := Overwritten(h, before.data, before.types, t);
    Stored(if OrEmpty(found.entry) != map[] then before.data[t := found.entry.value] else before.data, found.types)
  }

  // `order` lists the keys of `raw`, each once.
  ghost predicate KeyOrder(raw: Overwrites, order: seq<string>) {
    && (forall t :: t in order <==> t in raw)
    && (forall i, j :: 0 <= i < j < |order| ==> order[i] != order[j])
  }

  // ---------------------------------------------------------------
  // Filling a credential
  // ---------------------------------------------------------------

  function Field(data: Entry, key: string): Value {
    if key in data then data[key] else Undefined
  }

  predicate IsCustomized(data: Entry, overwrites: Entry, key: string)
    requires key in overwrites
  {
    !Field(data, key).IsEmpty() && Field(data, key) != overwrites[key]
  }

  class Service {
    const types: Hierarchy
    const skipTypes: set<string>
    const persistence: bool
    var overwriteData: Overwrites
    var resolvedTypes: seq<string>
    // The settings row; encryption and JSON are the identity here.
    var saved: Option<Overwrites>

    constructor (types: Hierarchy, skipTypes: set<string>, persistence: bool)
      ensures this.types == types && this.skipTypes == skipTypes && this.persistence == persistence
      ensures overwriteData == map[] && resolvedTypes == [] && saved == None
    {
      this.types, this.skipTypes, this.persistence := types, skipTypes, persistence;
      overwriteData, resolvedTypes, saved := map[], [], None;
    }

    method GetOverwrites(t: string) returns (entry: Option<Entry>)
      requires types.Acyclic()
      modifies this`resolvedTypes
      ensures Resolved(entry, resolvedTypes) == Overwritten(types, overwriteData, old(resolvedTypes), t)
      decreases types.Rank(t)
    {
      if t in resolvedTypes { return Lookup(overwriteData, t); }
      if t !in types.recognized { return None; }
      if t !in types.parents {
        resolvedTypes := resolvedTypes + [t];
        return Lookup(overwriteData, t);
      }
      ParentsBelow(types, t);
      var parents := types.parents[t];
      var overwrites: Entry := map[];
      for i := 0 to |parents|
        invariant Resolved(Some(overwrites), resolvedTypes)
               == Inherited(types, overwriteData, old(resolvedTypes), parents[..i], types.Rank(t))
      {
        assert parents[..i + 1][..i] == parents[..i] && parents[i] in parents;
        var inherited := GetOverwrites(parents[i]);
        overwrites := overwrites + OrEmpty(inherited);
      }
      assert parents[..|parents|] == parents;
      if t in overwriteData {
        overwrites := overwrites + overwriteData[t];
      }
      assert forall m: Entry :: m + map[] == m;
      resolvedTypes := resolvedTypes + [t];
      return Some(overwrites);
    }

    // What callers see afterwards does not depend on the order of the keys.
    method SetPlainData(raw: Overwrites, order: seq<string>)
      requires types.Acyclic() && KeyOrder(raw, order)
      modifies this`overwriteData, this`resolvedTypes
      ensures Stored(overwriteData, resolvedTypes) == PlainData(types, raw, order)
      ensures types.SingleParent() ==> forall t :: Get(types, overwriteData, t) == Resolution(types, raw, t)
    {
      resolvedTypes := [];
      overwriteData := raw;
      for i := 0 to |order|
        invariant Stored(overwriteData, resolvedTypes) == PlainData(types, raw, order[..i])
      {
        assert order[..i + 1][..i] == order[..i] && order[i] in order;
        var overwrites := GetOverwrites(order[i]);
        if overwrites.Some? && overwrites.value != map[] {
          overwriteData := overwriteData[order[i] := overwrites.value];
        }
      }
      assert order[..|order|] == order;
      if types.SingleParent() {
        forall t ensures Get(types, overwriteData, t) == Resolution(types, raw, t) {
          OrderDoesNotMatter(types, raw, order, t);
        }
      }
    }

    // The map handed to storage is the one `setPlainData` has just rewritten.
    method SetData(raw: Overwrites, order: seq<string>, storeInDb: bool)
      requires types.Acyclic() && KeyOrder(raw, order)
      modifies this`overwriteData, this`resolvedTypes, this`saved
      ensures Stored(overwriteData, resolvedTypes) == PlainData(types, raw, order)
      ensures saved == if storeInDb && persistence then Some(overwriteData) else old(saved)
      ensures types.SingleParent() ==> forall t :: Get(types, overwriteData, t) == Resolution(types, raw, t)
    {
      SetPlainData(raw, order);
      if storeInDb && persistence { saved := Some(overwriteData); }
    }

    method LoadOverwriteDataFromDB(order: seq<string>)
      requires types.Acyclic() && (saved.Some? ==> KeyOrder(saved.value, order))
      modifies this`overwriteData, this`resolvedTypes
      ensures saved.None? ==> overwriteData == old(overwriteData) && resolvedTypes == old(resolvedTypes)
      ensures saved.Some? ==> Stored(overwriteData, resolvedTypes) == PlainData(types, saved.value, order)
      ensures saved.Some? && types.SingleParent() ==>
                forall t :: Get(types, overwriteData, t) == Get(types, saved.value, t)
    {
      if saved.Some? {
        SetPlainData(saved.value, order);
        if types.SingleParent() {
          forall t ensures Get(types, overwriteData, t) == Get(types, saved.value, t) {
            GetIsResolution(types, saved.value, t);
          }
        }
      }
    }

    method ApplyOverwrite(t: string, data: Entry) returns (filled: Entry)
      requires types.Acyclic()
      ensures filled == Applied(t in skipTypes, Get(types, overwriteData, t), data)
    {
      var found := Get(types, overwriteData, t);
      if found.None? { return data; }
      var overwrites := found.value;
      if t in skipTypes && exists key :: key in overwrites && IsCustomized(data, overwrites, key) {
        return data;
      }
      filled := data;
      var keys := overwrites.Keys;
      ghost var done: set<string> := {};
      assert Filled(data, overwrites, {}) == data;
      while keys != {}
        invariant done !! keys && done + keys == overwrites.Keys
        invariant filled == Filled(data, overwrites, done)
      {
        var key :| key in keys;
        FillStep(data, overwrites, done, key);
        if Field(filled, key).IsEmpty() {
          filled := filled[key := overwrites[key]];
        }
        keys, done := keys - {key}, done + {key};
      }
    }
  }

  // `data` once the empty fields among `keys` have been filled.
  function Filled(data: Entry, overwrites: Entry, keys: set<string>): Entry
    requires keys <= overwrites.Keys
  {
    var empty := set k | k in keys && Field(data, k).IsEmpty();
    map k | k in data.Keys + empty :: if k in empty then overwrites[k] else data[k]
  }

  lemma FillStep(data: Entry, overwrites: Entry, done: set<string>, key: string)
    requires done <= overwrites.Keys && key in overwrites && key !in done
    ensures var filled := Filled(data, overwrites, done);
            Filled(data, overwrites, done + {key}) ==
              if Field(filled, key).IsEmpty() then filled[key := overwrites[key]] else filled
  {
  }

  // `data` with every empty overwritten field filled, unless the type is on the
  // skip list and some overwritten field was customised.
  function Applied(skip: bool, found: Option<Entry>, data: Entry): Entry {
    if found.None? then data
    else if skip && exists key :: key in found.value && IsCustomized(data, found.value, key) then data
    else Filled(data, found.value, found.value.Keys)
  }

  // ---------------------------------------------------------------
  // The simple specification: nearest ancestor wins
  // ---------------------------------------------------------------

  // What a type inherits from its parent, overridden by its own raw entry.
  ghost function Resolution(h: Hierarchy, raw: Overwrites, t: string): Option<Entry>
    requires h.Acyclic()
    decreases h.Rank(t)
  {
    if h.ParentsOf(t) == [] then Lookup(raw, t)
    else
      ParentsBelow(h, t);
      assert h.ParentsOf(t)[0] in h.ParentsOf(t);
      var inherited := Resolution(h, raw, h.ParentsOf(t)[0]);
      if t !in raw then inherited else Some(OrEmpty(inherited) + raw[t])
  }

  ghost predicate Submap(a: Entry, b: Entry) {
    forall f :: f in a ==> f in b && b[f] == a[f]
  }

  // A partly resolved map: the raw keys are all there, nothing raw was lost,
  // and nothing was added that the full resolution lacks.
  ghost predicate Between(h: Hierarchy, raw: Overwrites, data: Overwrites)
    requires h.Acyclic()
  {
    && data.Keys == raw.Keys
    && (forall t :: t in raw ==> Submap(raw[t], data[t]))
    && (forall t :: t in raw ==> Submap(data[t], OrEmpty(Resolution(h, raw, t))))
  }

  lemma {:induction false} PartlyResolvedReadsTheSame(h: Hierarchy, raw: Overwrites, data: Overwrites, t: string)
    requires h.Acyclic() && Between(h, raw, data)
    ensures Resolution(h, data, t) == Resolution(h, raw, t)
    decreases h.Rank(t)
  {
    if h.ParentsOf(t) == [] {
      if t in raw { assert data[t] == raw[t]; }
    } else {
      ParentsBelow(h, t);
      var p := h.ParentsOf(t)[0];
      assert p in h.ParentsOf(t);
      PartlyResolvedReadsTheSame(h, raw, data, p);
      if t in raw {
        var inherited := OrEmpty(Resolution(h, raw, p));
        assert inherited + data[t] == inherited + raw[t];
      }
    }
  }

  // Whatever the memo says, the resolver returns part of the full resolution.
  lemma {:induction false} OverwrittenIsPartial(h: Hierarchy, raw: Overwrites, data: Overwrites, types: seq<string>, t: string)
    requires h.Acyclic() && h.SingleParent() && Between(h, raw, data)
    ensures Submap(OrEmpty(Overwritten(h, data, types, t).entry), OrEmpty(Resolution(h, raw, t)))
    ensures t in data && Overwritten(h, data, types, t).entry.Some? ==>
              Submap(data[t], Overwritten(h, data, types, t).entry.value)
    decreases h.Rank(t)
  {
    if t !in types && t in h.recognized && t in h.parents {
      ParentsBelow(h, t);
      var ps := h.parents[t];
      if ps != [] {
        assert ps == [ps[0]] && ps[..0] == [] && ps[0] in ps;
        OverwrittenIsPartial(h, raw, data, types, ps[0]);
        assert Inherited(h, data, types, ps[..0], h.Rank(t)) == Resolved(Some(map[]), types);
      }
    }
  }

  lemma {:induction false} PlainDataStaysBetween(h: Hierarchy, raw: Overwrites, order: seq<string>)
    requires h.Acyclic() && h.SingleParent() && forall t :: t in order ==> t in raw
    ensures Between(h, raw, PlainData(h, raw, order).data)
  {
    if order == [] {
      forall t | t in raw ensures Submap(raw[t], OrEmpty(Resolution(h, raw, t))) { }
    } else {
      PlainDataStaysBetween(h, raw, order[..|order| - 1]);
      var before := PlainData(h, raw, order[..|order| - 1]);
      OverwrittenIsPartial(h, raw, before.data, before.types, order[|order| - 1]);
    }
  }

  // ---------------------------------------------------------------
  // The reader agrees with the specification
  // ---------------------------------------------------------------

  // The first type of `ts` that has field `f` decides it.
  ghost function Nearest(data: Overwrites, ts: seq<string>, f: string): Option<Value> {
    if ts == [] then None
    else if ts[0] in data && f in data[ts[0]] then Some(data[ts[0]][f])
    else Nearest(data, ts[1..], f)
  }

  lemma {:induction false} AssignAllIsNearest(data: Overwrites, ts: seq<string>, f: string)
    ensures var merged := AssignAll(ReversedEntries(data, ts));
            Nearest(data, ts, f) == if f in merged then Some(merged[f]) else None
  {
    if ts != [] {
      AssignAllIsNearest(data, ts[1..], f);
      var rest := ReversedEntries(data, ts[1..]);
      if ts[0] in data {
        assert (rest + [data[ts[0]]])[..|rest|] == rest;
      } else {
        assert rest + [] == rest;
      }
    }
  }

  lemma {:induction false} SomeEntry(data: Overwrites, ts: seq<string>)
    ensures ReversedEntries(data, ts) != [] <==> exists t :: t in ts && t in data
  {
    if ts != [] {
      SomeEntry(data, ts[1..]);
      assert ts[0] in ts;
    }
  }

  lemma {:induction false} NearestSnoc(data: Overwrites, ts: seq<string>, t: string, f: string)
    ensures Nearest(data, ts + [t], f) ==
              if Nearest(data, ts, f).Some? then Nearest(data, ts, f) else Nearest(data, [t], f)
    ensures t in ts && Nearest(data, [t], f).Some? ==> Nearest(data, ts, f).Some?
  {
    if ts == [] {
      assert ts + [t] == [t];
    } else {
      assert (ts + [t])[1..] == ts[1..] + [t];
      NearestSnoc(data, ts[1..], t, f);
    }
  }

  lemma {:induction false} RepetitionsDoNotDecide(data: Overwrites, ts: seq<string>, f: string)
    ensures Nearest(data, FirstOccurrences(ts), f) == Nearest(data, ts, f)
  {
    if ts != [] {
      var init, last := ts[..|ts| - 1], ts[|ts| - 1];
      assert ts == init + [last];
      RepetitionsDoNotDecide(data, init, f);
      NearestSnoc(data, init, last, f);
      NearestSnoc(data, FirstOccurrences(init), last, f);
    }
  }

  lemma {:induction false} ResolutionIsNearest(h: Hierarchy, data: Overwrites, t: string, f: string)
    requires h.Acyclic()
    ensures var full := OrEmpty(Resolution(h, data, t));
            Nearest(data, [t] + Chain(h, t), f) == if f in full then Some(full[f]) else None
    ensures Resolution(h, data, t).Some? <==> exists u :: u in [t] + Chain(h, t) && u in data
    decreases h.Rank(t)
  {
    assert ([t] + Chain(h, t))[1..] == Chain(h, t);
    if h.ParentsOf(t) == [] {
      assert Chain(h, t) == [] && t in [t] + Chain(h, t);
    } else {
      ParentsBelow(h, t);
      var p := h.ParentsOf(t)[0];
      assert p in h.ParentsOf(t);
      ResolutionIsNearest(h, data, p, f);
      assert Chain(h, t) == [p] + Chain(h, p);
      assert t in [t] + Chain(h, t);
      assert forall u :: u in [t] + Chain(h, t) <==> u == t || u in [p] + Chain(h, p);
    }
  }

  // Only the first occurrence of a type in the reader's list matters, and those
  // are the chain.
  lemma ListReadsAsChain(h: Hierarchy, data: Overwrites, t: string, f: string)
    requires h.Acyclic() && h.SingleParent()
    ensures Nearest(data, [t] + ParentTypes(h, t), f) == Nearest(data, [t] + Chain(h, t), f)
    ensures forall u :: u in [t] + ParentTypes(h, t) <==> u in [t] + Chain(h, t)
  {
    var list := [t] + ParentTypes(h, t);
    ParentTypesNearestFirst(h, t);
    FreshHead(t, ParentTypes(h, t));
    RepetitionsDoNotDecide(data, list, f);
    forall u ensures u in list <==> u in [t] + Chain(h, t) { FirstOccurrencesKeeps(list, u); }
  }

  lemma GetHasEntryIff(h: Hierarchy, data: Overwrites, t: string)
    requires h.Acyclic() && h.SingleParent()
    ensures Get(h, data, t).Some? <==> Resolution(h, data, t).Some?
  {
    SomeEntry(data, [t] + ParentTypes(h, t));
    ListReadsAsChain(h, data, t, "");
    ResolutionIsNearest(h, data, t, "");
  }

  // For any stored map, what `get` returns is the nearest-ancestor-wins merge.
  lemma GetIsResolution(h: Hierarchy, data: Overwrites, t: string)
    requires h.Acyclic() && h.SingleParent()
    ensures Get(h, data, t) == Resolution(h, data, t)
  {
    GetHasEntryIff(h, data, t);
    var list := [t] + ParentTypes(h, t);
    var merged, full := AssignAll(ReversedEntries(data, list)), OrEmpty(Resolution(h, data, t));
    forall f ensures (f in merged <==> f in full) && (f in merged ==> merged[f] == full[f]) {
      AssignAllIsNearest(data, list, f);
      ListReadsAsChain(h, data, t, f);
      ResolutionIsNearest(h, data, t, f);
    }
    assert merged == full;
  }

  // The in-place cache, filled in any key order, agrees with the specification.
  lemma OrderDoesNotMatter(h: Hierarchy, raw: Overwrites, order: seq<string>, t: string)
    requires h.Acyclic() && h.SingleParent() && forall k :: k in order ==> k in raw
    ensures Get(h, PlainData(h, raw, order).data, t) == Resolution(h, raw, t)
  {
    var data := PlainData(h, raw, order).data;
    PlainDataStaysBetween(h, raw, order);
    PartlyResolvedReadsTheSame(h, raw, data, t);
    GetIsResolution(h, data, t);
  }

  // In terms of the raw entries: a type reads its own fields and, for the rest,
  // what its parent reads; a type without parent has its own entry or none.
  lemma ReadsOwnThenParent(h: Hierarchy, raw: Overwrites, order: seq<string>, t: string, f: string)
    requires h.Acyclic() && h.SingleParent() && forall k :: k in order ==> k in raw
    ensures var data := PlainData(h, raw, order).data;
            var parent := if t in h.parents && |h.parents[t]| == 1 then Get(h, data, h.parents[t][0]) else None;
            var own := Get(h, data, t);
            && (own.Some? <==> t in raw || parent.Some?)
            && (t in raw && f in raw[t] ==> f in own.value && own.value[f] == raw[t][f])
            && (own.Some? && !(t in raw && f in raw[t]) ==>
                  && (f in own.value <==> parent.Some? && f in parent.value)
                  && (f in own.value ==> own.value[f] == parent.value[f]))
  {
    OrderDoesNotMatter(h, raw, order, t);
    ParentsBelow(h, t);
    if t in h.parents && |h.parents[t]| == 1 {
      assert h.ParentsOf(t) == h.parents[t];
      OrderDoesNotMatter(h, raw, order, h.parents[t][0]);
    }
  }

  // Saving the rewritten map and resolving it again, in any other order, leaves
  // every reading as it was.
  lemma ReloadIsStable(h: Hierarchy, raw: Overwrites, first: seq<string>, second: seq<string>, t: string)
    requires h.Acyclic() && h.SingleParent()
    requires KeyOrder(raw, first) && KeyOrder(PlainData(h, raw, first).data, second)
    ensures var saved := PlainData(h, raw, first).data;
            Get(h, PlainData(h, saved, second).data, t) == Get(h, saved, t) == Resolution(h, raw, t)
  {
    OrderDoesNotMatter(h, raw, first, t);
    OrderDoesNotMatter(h, PlainData(h, raw, first).data, second, t);
    GetIsResolution(h, PlainData(h, raw, first).data, t);
  }

  // ---------------------------------------------------------------
  // Why one parent per type: with more, the two merges may disagree
  // ---------------------------------------------------------------

  lemma {:induction false} LeavesAddNothing(h: Hierarchy, pending: seq<string>, r: nat)
    requires h.Acyclic() && Below(h, pending, r) && forall t :: t in pending ==> h.ParentsOf(t) == []
    ensures Visit(h, pending, r) == pending
  {
    if pending != [] {
      assert pending[0] in pending;
      ParentsBelow(h, pending[0]);
      assert ParentTypes(h, pending[0]) == [];
      VisitHead(h, pending, r);
      assert pending[1..] + [] == pending[1..];
      LeavesAddNothing(h, pending[1..], r);
    }
  }

  // All parents of `t` are known types without parents of their own.
  ghost predicate LeafParents(h: Hierarchy, t: string, ps: seq<string>) {
    && h.Acyclic() && t in h.recognized && t in h.parents && h.parents[t] == ps
    && forall p :: p in ps ==> p in h.recognized && p !in h.parents
  }

  function Has(data: Overwrites, t: string, f: string): bool {
    t in data && f in data[t]
  }

  function At(entry: Option<Entry>, f: string): Option<Value> {
    if entry.Some? && f in entry.value then Some(entry.value[f]) else None
  }

  // The last type of `ts` that has field `f` decides it.
  ghost function Farthest(data: Overwrites, ts: seq<string>, f: string): Option<Value> {
    if ts == [] then None
    else if Has(data, ts[|ts| - 1], f) then Some(data[ts[|ts| - 1]][f])
    else Farthest(data, ts[..|ts| - 1], f)
  }

  lemma {:induction false} LeavesMergeInOrder(h: Hierarchy, data: Overwrites, types: seq<string>, ps: seq<string>, r: nat, f: string)
    requires h.Acyclic() && Below(h, ps, r) && forall p :: p in ps ==> p in h.recognized && p !in h.parents
    ensures At(Inherited(h, data, types, ps, r).entry, f) == Farthest(data, ps, f)
  {
    if ps != [] {
      assert ps[|ps| - 1] in ps;
      LeavesMergeInOrder(h, data, types, ps[..|ps| - 1], r, f);
      var before := Inherited(h, data, types, ps[..|ps| - 1], r);
      assert Overwritten(h, data, before.types, ps[|ps| - 1]).entry == Lookup(data, ps[|ps| - 1]);
    }
  }

  // The resolver lets the own entry win, then the last parent.
  lemma ResolverMergesInOrder(h: Hierarchy, data: Overwrites, types: seq<string>, t: string, ps: seq<string>, f: string)
    requires LeafParents(h, t, ps) && t !in types
    ensures At(Overwritten(h, data, types, t).entry, f)
         == if Has(data, t, f) then Some(data[t][f]) else Farthest(data, ps, f)
  {
    ParentsBelow(h, t);
    LeavesMergeInOrder(h, data, types, ps, h.Rank(t), f);
  }

  // The reader lets the own entry win, then the first parent.
  lemma ReaderMergesInOrder(h: Hierarchy, data: Overwrites, t: string, ps: seq<string>, f: string)
    requires LeafParents(h, t, ps)
    ensures At(Get(h, data, t), f) == if Has(data, t, f) then Some(data[t][f]) else Nearest(data, ps, f)
  {
    ParentsBelow(h, t);
    LeavesAddNothing(h, ps, h.Rank(t));
    ReadsNearest(h, data, t, f);
    assert ([t] + ps)[1..] == ps;
  }

  // Each field of what `get` returns is the first in its list of types.
  lemma ReadsNearest(h: Hierarchy, data: Overwrites, t: string, f: string)
    requires h.Acyclic()
    ensures At(Get(h, data, t), f) == Nearest(data, [t] + ParentTypes(h, t), f)
  {
    AssignAllIsNearest(data, [t] + ParentTypes(h, t), f);
    assert AssignAll([]) == map[];
  }

  // Resolver and reader agree on a field exactly when the type has it itself,
  // one of the parents lacks it, or both have the same value.
  lemma TwoParentsDisagree(h: Hierarchy, raw: Overwrites, t: string, p: string, q: string, f: string)
    requires LeafParents(h, t, [p, q])
    ensures At(Get(h, raw, t), f) == At(Overwritten(h, raw, [], t).entry, f) <==>
              Has(raw, t, f) || !Has(raw, p, f) || !Has(raw, q, f) || raw[p][f] == raw[q][f]
    ensures !Has(raw, t, f) && Has(raw, p, f) && Has(raw, q, f) ==>
              && At(Get(h, raw, t), f) == Some(raw[p][f])
              && At(Overwritten(h, raw, [], t).entry, f) == Some(raw[q][f])
  {
    ResolverMergesInOrder(h, raw, [], t, [p, q], f);
    ReaderMergesInOrder(h, raw, t, [p, q], f);
    assert [p, q][1..] == [q] && [q][1..] == [] && [p, q][..1] == [p] && [p][..0] == [];
    assert Nearest(raw, [q], f) == (if Has(raw, q, f) then Some(raw[q][f]) else None);
    assert Farthest(raw, [p], f) == (if Has(raw, p, f) then Some(raw[p][f]) else None);
  }

  // A key visited later leaves the entries of other types alone.
  lemma LaterKeyLeaves(h: Hierarchy, raw: Overwrites, order: seq<string>, k: string, t: string)
    requires h.Acyclic() && t in raw && k in raw && t != k && forall u :: u in order ==> u in raw
    ensures forall u :: u in order + [k] ==> u in raw
    ensures PlainData(h, raw, order + [k]).data[t] == PlainData(h, raw, order).data[t]
  {
    var all := order + [k];
    assert all[..|all| - 1] == order && all[|all| - 1] == k;
  }

  lemma {:induction false} LaterKeysLeave(h: Hierarchy, raw: Overwrites, order: seq<string>, rest: seq<string>, t: string)
    requires h.Acyclic() && t in raw && t !in rest
    requires forall k :: k in order + rest ==> k in raw
    ensures forall k :: k in order ==> k in raw
    ensures PlainData(h, raw, order + rest).data[t] == PlainData(h, raw, order).data[t]
  {
    assert forall k :: k in order ==> k in order + rest;
    if rest == [] {
      assert order + rest == order;
    } else {
      var front, last := rest[..|rest| - 1], rest[|rest| - 1];
      var before := order + front;
      assert order + rest == before + [last] && last in rest;
      assert last in before + [last];
      assert forall k :: k in before ==> k in before + [last];
      LaterKeysLeave(h, raw, order, front, t);
      LaterKeyLeaves(h, raw, before, last, t);
    }
  }

  // `t` has the parents `q` and `p`, `p` has the parent `g`, and `u` has the
  // parent `p` as well.
  ghost predicate SharedGrandparent(h: Hierarchy, t: string, u: string, p: string, q: string, g: string) {
    && h.Acyclic() && {t, u, p, q, g} <= h.recognized && t != u
    && t in h.parents && h.parents[t] == [q, p] && u in h.parents && h.parents[u] == [p]
    && p in h.parents && h.parents[p] == [g] && q !in h.parents && g !in h.parents && q != g
  }

  lemma FirstVisit(h: Hierarchy, data: Overwrites, types: seq<string>, p: string, g: string, f: string)
    requires h.Acyclic() && p in h.recognized && g in h.recognized && p in h.parents && h.parents[p] == [g] && g !in h.parents
    requires p !in types && g !in types
    ensures Overwritten(h, data, types, p).types == types + [g] + [p]
    ensures !Has(data, p, f) && Has(data, g, f) ==> At(Overwritten(h, data, types, p).entry, f) == Some(data[g][f])
  {
    ParentsBelow(h, p);
    assert [g][..0] == [] && Inherited(h, data, types, [g][..0], h.Rank(p)) == Resolved(Some(map[]), types);
    assert Inherited(h, data, types, [g], h.Rank(p)).types == types + [g];
    ResolverMergesInOrder(h, data, types, p, [g], f);
    assert Farthest(data, [g], f) == (if Has(data, g, f) then Some(data[g][f]) else Farthest(data, [g][..0], f));
  }

  lemma InheritedFromTwo(h: Hierarchy, data: Overwrites, types: seq<string>, q: string, p: string, r: nat)
    requires h.Acyclic() && Below(h, [q, p], r) && q in h.recognized && q !in h.parents && q !in types
    ensures Inherited(h, data, types, [q, p], r).entry
         == Some(OrEmpty(Lookup(data, q)) + OrEmpty(Overwritten(h, data, types + [q], p).entry))
  {
    assert [q, p][..1] == [q] && [q][..0] == [];
    assert Below(h, [q], r) && Below(h, [], r) && h.Rank(p) < r by { assert p in [q, p]; }
    assert Inherited(h, data, types, [q][..0], r) == Resolved(Some(map[]), types);
    assert map[] + OrEmpty(Lookup(data, q)) == OrEmpty(Lookup(data, q));
    assert Inherited(h, data, types, [q], r) == Resolved(Some(OrEmpty(Lookup(data, q))), types + [q]);
  }

  // What visiting `u` leaves behind.
  lemma AfterFirstKey(h: Hierarchy, raw: Overwrites, t: string, u: string, p: string, q: string, g: string)
    requires SharedGrandparent(h, t, u, p, q, g) && u in raw
    ensures var one := PlainData(h, raw, [u]);
            one.types == [g, p, u] && forall k :: k in raw && k != u ==> one.data[k] == raw[k]
  {
    ParentsBelow(h, u);
    assert [u][..0] == [] && PlainData(h, raw, [u][..0]) == Stored(raw, []);
    assert [p][..0] == [] && Inherited(h, raw, [], [p][..0], h.Rank(u)) == Resolved(Some(map[]), []);
    FirstVisit(h, raw, [], p, g, "");
    assert Inherited(h, raw, [], [p], h.Rank(u)).types == [] + [g] + [p];
    assert Overwritten(h, raw, [], u).types == [g, p] + [u];
  }

  lemma RememberedParent(h: Hierarchy, data: Overwrites, types: seq<string>, t: string, q: string, p: string)
    requires h.Acyclic() && t in h.recognized && t in h.parents && h.parents[t] == [q, p]
    requires q in h.recognized && q !in h.parents && q !in types && p in types && t !in types
    ensures Overwritten(h, data, types, t).entry
         == Some(OrEmpty(Lookup(data, q)) + OrEmpty(Lookup(data, p)) + OrEmpty(Lookup(data, t)))
  {
    ParentsBelow(h, t);
    InheritedFromTwo(h, data, types, q, p, h.Rank(t));
  }

  // What a visited key stores.
  lemma KeyStored(h: Hierarchy, raw: Overwrites, order: seq<string>, t: string)
    requires h.Acyclic() && t in raw && forall k :: k in order ==> k in raw
    requires var before := PlainData(h, raw, order);
             OrEmpty(Overwritten(h, before.data, before.types, t).entry) != map[]
    ensures forall k :: k in order + [t] ==> k in raw
    ensures var before := PlainData(h, raw, order);
            Overwritten(h, before.data, before.types, t).entry == Some(PlainData(h, raw, order + [t]).data[t])
  {
    assert (order + [t])[..|order|] == order;
  }

  // Visited after `u`, the parent `p` counts as resolved and contributes
  // nothing of `g`.
  lemma VisitedSecond(h: Hierarchy, raw: Overwrites, t: string, u: string, p: string, q: string, g: string, f: string)
    requires SharedGrandparent(h, t, u, p, q, g) && t in raw && u in raw
    requires Has(raw, q, f) && !Has(raw, p, f) && !Has(raw, t, f)
    ensures Has(PlainData(h, raw, [u] + [t]).data, t, f) && PlainData(h, raw, [u] + [t]).data[t][f] == raw[q][f]
  {
    AfterFirstKey(h, raw, t, u, p, q, g);
    var one := PlainData(h, raw, [u]);
    RememberedParent(h, one.data, one.types, t, q, p);
    assert At(Overwritten(h, one.data, one.types, t).entry, f) == Some(raw[q][f]);
    KeyStored(h, raw, [u], t);
  }

  lemma VisitedFirst(h: Hierarchy, raw: Overwrites, t: string, u: string, p: string, q: string, g: string, f: string)
    requires SharedGrandparent(h, t, u, p, q, g) && t in raw && u in raw
    requires Has(raw, g, f) && !Has(raw, p, f) && !Has(raw, t, f)
    ensures Has(PlainData(h, raw, [t]).data, t, f) && PlainData(h, raw, [t]).data[t][f] == raw[g][f]
  {
    ParentsBelow(h, t);
    InheritedFromTwo(h, raw, [], q, p, h.Rank(t));
    FirstVisit(h, raw, [] + [q], p, g, f);
    assert At(Overwritten(h, raw, [], t).entry, f) == Some(raw[g][f]);
    KeyStored(h, raw, [], t);
    assert [] + [t] == [t];
  }

  lemma ReadsOwn(h: Hierarchy, data: Overwrites, t: string, f: string)
    requires h.Acyclic() && Has(data, t, f)
    ensures At(Get(h, data, t), f) == Some(data[t][f])
  {
    ReadsNearest(h, data, t, f);
  }

  lemma ReadAfter(h: Hierarchy, raw: Overwrites, t: string, u: string, p: string, q: string, g: string, f: string, rest: seq<string>)
    requires SharedGrandparent(h, t, u, p, q, g) && KeyOrder(raw, [u] + [t] + rest)
    requires Has(raw, q, f) && !Has(raw, p, f) && !Has(raw, t, f)
    ensures At(Get(h, PlainData(h, raw, [u] + [t] + rest).data, t), f) == Some(raw[q][f])
  {
    KeyInFront(raw, [u], t, rest);
    VisitedSecond(h, raw, t, u, p, q, g, f);
    LaterKeysLeave(h, raw, [u] + [t], rest, t);
    ReadsOwn(h, PlainData(h, raw, [u] + [t] + rest).data, t, f);
  }

  lemma ReadBefore(h: Hierarchy, raw: Overwrites, t: string, u: string, p: string, q: string, g: string, f: string, rest: seq<string>)
    requires SharedGrandparent(h, t, u, p, q, g) && u in raw && KeyOrder(raw, [] + [t] + rest)
    requires Has(raw, g, f) && !Has(raw, p, f) && !Has(raw, t, f)
    ensures At(Get(h, PlainData(h, raw, [] + [t] + rest).data, t), f) == Some(raw[g][f])
  {
    KeyInFront(raw, [], t, rest);
    assert [] + [t] == [t];
    VisitedFirst(h, raw, t, u, p, q, g, f);
    LaterKeysLeave(h, raw, [t], rest, t);
    ReadsOwn(h, PlainData(h, raw, [] + [t] + rest).data, t, f);
  }

  lemma KeyInFront(raw: Overwrites, front: seq<string>, t: string, rest: seq<string>)
    requires KeyOrder(raw, front + [t] + rest)
    ensures t !in rest && t in raw && forall k :: k in front ==> k in raw
  {
    var order := front + [t] + rest;
    assert order[|front|] == t;
    assert forall i :: 0 <= i < |front| ==> order[i] == front[i];
    assert forall i :: 0 <= i < |rest| ==> order[|front| + 1 + i] == rest[i];
  }

  // With several parents the readings depend on the order of the keys: visited
  // after `u` the type reads the value of its parent `q`, visited first that of
  // its grandparent `g`, so they agree only if these are the same.
  lemma KeyOrderDecides(h: Hierarchy, raw: Overwrites, t: string, u: string, p: string, q: string, g: string, f: string,
                        after: seq<string>, before: seq<string>)
    requires SharedGrandparent(h, t, u, p, q, g) && u in raw
    requires KeyOrder(raw, [u] + [t] + after) && KeyOrder(raw, [] + [t] + before)
    requires Has(raw, q, f) && Has(raw, g, f) && !Has(raw, p, f) && !Has(raw, t, f)
    ensures At(Get(h, PlainData(h, raw, [u] + [t] + after).data, t), f)
         == At(Get(h, PlainData(h, raw, [] + [t] + before).data, t), f)
       <==> raw[q][f] == raw[g][f]
  {
    ReadAfter(h, raw, t, u, p, q, g, f, after);
    ReadBefore(h, raw, t, u, p, q, g, f, before);
  }

  // ---------------------------------------------------------------
  // What filling a credential promises
  // ---------------------------------------------------------------

  // A field is filled exactly when it is empty, has an overwrite, and the
  // credential is not a customised one of a skip-list type; it stays otherwise.
  lemma AppliedKeepsAndFills(skip: bool, found: Option<Entry>, data: Entry, key: string)
    ensures var filled := Applied(skip, found, data);
            && (!Field(data, key).IsEmpty() ==> Field(filled, key) == data[key])
            && (found.None? || key !in found.value ==> Field(filled, key) == Field(data, key))
            && (found.Some? && key in found.value && Field(data, key).IsEmpty() ==>
                  if skip && exists k :: k in found.value && IsCustomized(data, found.value, k)
                  then Field(filled, key) == Field(data, key)
                  else Field(filled, key) == found.value[key])
  {
  }

  // On a skip-list type: untouched, or every overwritten field is the overwrite.
  lemma SkipListIsAllOrNothing(found: Entry, data: Entry)
    ensures var filled := Applied(true, Some(found), data);
            if exists key :: key in found && IsCustomized(data, found, key) then filled == data
            else forall key :: key in found ==> Field(filled, key) == found[key]
  {
    if !(exists key :: key in found && IsCustomized(data, found, key)) {
      forall key | key in found ensures Field(Applied(true, Some(found), data), key) == found[key] {
        assert !IsCustomized(data, found, key);
      }
    }
  }

  // No data are undefined, null and the empty text; zero and false are data.
  lemma EmptyValues(text: string, number: int, flag: bool)
    ensures Undefined.IsEmpty() && Null.IsEmpty() && Text("").IsEmpty()
    ensures text != "" ==> !Text(text).IsEmpty()
    ensures !Number(number).IsEmpty() && !Flag(flag).IsEmpty()
  {
  }

  // What filling does with one field: an empty one is filled; on a skip-list
  // type a field equal to its overwrite is not customised, any other one is and
  // keeps the empty fields empty.
  lemma FillingOneField(value: Value, overwrite: Value, other: Value)
    requires other.Text? && other.text != ""
    ensures value in {Undefined, Null, Text("")} ==>
              Applied(false, Some(map["k" := overwrite]), map["k" := value]) == map["k" := overwrite]
    ensures value !in {Undefined, Null, Text("")} ==>
              Applied(false, Some(map["k" := overwrite]), map["k" := value]) == map["k" := value]
    ensures Applied(true, Some(map["k" := other, "e" := overwrite]), map["k" := other, "e" := Null])
         == map["k" := other, "e" := overwrite]
    ensures value !in {Undefined, Null, Text("")} && value != other ==>
              Applied(true, Some(map["k" := other, "e" := overwrite]), map["k" := value, "e" := Null])
              == map["k" := value, "e" := Null]
  {
    var found := map["k" := other, "e" := overwrite];
    var same := map["k" := other, "e" := Null];
    assert !IsCustomized(same, found, "k") && !IsCustomized(same, found, "e");
    if value !in {Undefined, Null, Text("")} && value != other {
      assert IsCustomized(map["k" := value, "e" := Null], found, "k");
    }
  }

  lemma AppliedIsIdempotent(skip: bool, found: Option<Entry>, data: Entry)
    ensures Applied(skip, found, Applied(skip, found, data)) == Applied(skip, found, data)
  {
    if found.Some? {
      var filled := Applied(skip, found, data);
      if skip {
        SkipListIsAllOrNothing(found.value, data);
        if forall key :: key in found.value ==> !IsCustomized(data, found.value, key) {
          assert forall key :: key in found.value ==> !IsCustomized(filled, found.value, key);
        }
      }
      assert forall key :: key in found.value && Field(filled, key).IsEmpty() && filled != data ==>
          key in filled && filled[key] == found.value[key];
    }
  }
}
