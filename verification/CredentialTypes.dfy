// The hierarchy of credential types and the ancestor list that
// `getParentTypes` collects with a worklist that grows while it is read.
module CredentialTypes {

  // `recognized` holds every type name the server knows; `parents` maps a type
  // to its `extends` list, and has no entry for a type that declares none.
  datatype Hierarchy = Hierarchy(recognized: set<string>, parents: map<string, seq<string>>) {
    function ParentsOf(t: string): seq<string> {
      if t in parents then parents[t] else []
    }

    ghost predicate Ranks(rank: string -> nat) {
      forall t, p :: t in parents && p in parents[t] ==> rank(p) < rank(t)
    }

    // No type extends itself, directly or through others.
    ghost predicate Acyclic() {
      exists rank: string -> nat :: Ranks(rank)
    }

    ghost function Ranking(): (rank: string -> nat)
      requires Acyclic()
      ensures Ranks(rank)
    {
      var rank: string -> nat :| Ranks(rank);
      rank
    }

    ghost function Rank(t: string): nat
      requires Acyclic()
    {
      Ranking()(t)
    }

    ghost predicate SingleParent() {
      forall t :: t in parents ==> |parents[t]| <= 1
    }
  }

  // ---------------------------------------------------------------
  // Why the growing worklist terminates
  // ---------------------------------------------------------------

  ghost function ListTotal(m: map<string, seq<string>>): (n: nat)
    ensures forall t :: t in m ==> |m[t]| <= n
  {
    if m == map[] then 0
    else
      var t :| t in m;
      var rest := m - {t};
      assert forall u :: u in m && u != t ==> u in rest && rest[u] == m[u];
      |m[t]| + ListTotal(rest)
  }

  lemma MulMono(a: nat, b: nat, c: nat)
    requires a <= b
    ensures a * c <= b * c
  {
  }

  lemma MulSucc(n: nat, w: nat)
    ensures (n + 1) * w == w + n * w
  {
  }

  // Visiting a type of rank r adds at most `b * w` entries of weight at most `w`.
  ghost function Step(b: nat, w: nat): nat {
    1 + (b * w) * w
  }

  lemma StepGrows(b: nat, w: nat)
    requires b > 0 && w > 0
    ensures w < Step(b, w)
  {
    MulMono(1, b, w);
    MulMono(1, b * w, w);
  }

  // A bound on how many entries visiting a type of rank `r` can cause.
  ghost function Weight(b: nat, r: nat): nat {
    if r == 0 then 1 else Step(b, Weight(b, r - 1))
  }

  lemma {:induction false} WeightPositive(b: nat, r: nat)
    ensures Weight(b, r) >= 1
  {
    if r > 0 {
      WeightPositive(b, r - 1);
      MulMono(0, b * Weight(b, r - 1), Weight(b, r - 1));
    }
  }

  lemma {:induction false} WeightGrows(b: nat, r: nat, s: nat)
    requires b > 0 && r <= s
    ensures Weight(b, r) <= Weight(b, s)
    decreases s
  {
    if r < s {
      WeightGrows(b, r, s - 1);
      WeightPositive(b, s - 1);
      StepGrows(b, Weight(b, s - 1));
    }
  }

  ghost function Bound(h: Hierarchy): (b: nat)
    ensures b > 0 && forall t :: |h.ParentsOf(t)| <= b
  {
    ListTotal(h.parents) + 1
  }

  ghost function Total(h: Hierarchy, pending: seq<string>): nat
    requires h.Acyclic()
  {
    if pending == [] then 0
    else Weight(Bound(h), h.Rank(pending[0])) + Total(h, pending[1..])
  }

  lemma {:induction false} TotalConcat(h: Hierarchy, a: seq<string>, b: seq<string>)
    requires h.Acyclic()
    ensures Total(h, a + b) == Total(h, a) + Total(h, b)
  {
    if a == [] {
      assert a + b == b;
    } else {
      assert (a + b)[1..] == a[1..] + b;
      TotalConcat(h, a[1..], b);
    }
  }

  ghost predicate Below(h: Hierarchy, ts: seq<string>, r: nat)
    requires h.Acyclic()
  {
    forall t :: t in ts ==> h.Rank(t) < r
  }

  lemma {:induction false} TotalBounded(h: Hierarchy, pending: seq<string>, r: nat)
    requires h.Acyclic() && r > 0
    requires Below(h, pending, r)
    ensures |pending| <= Total(h, pending) <= |pending| * Weight(Bound(h), r - 1)
  {
    if pending != [] {
      var w := Weight(Bound(h), r - 1);
      WeightGrows(Bound(h), h.Rank(pending[0]), r - 1);
      WeightPositive(Bound(h), h.Rank(pending[0]));
      TotalBounded(h, pending[1..], r);
      MulSucc(|pending[1..]|, w);
    }
  }

  // How long the ancestor list of a type of rank `r` can be.
  ghost function LengthBound(h: Hierarchy, r: nat): nat {
    if r == 0 then 0 else Bound(h) * Weight(Bound(h), r - 1)
  }

  lemma ParentsBelow(h: Hierarchy, t: string)
    requires h.Acyclic()
    ensures Below(h, h.ParentsOf(t), h.Rank(t))
    ensures Total(h, h.ParentsOf(t)) <= LengthBound(h, h.Rank(t))
  {
    var ps := h.ParentsOf(t);
    assert forall p :: p in ps ==> h.Ranking()(p) < h.Ranking()(t);
    if ps != [] {
      assert ps[0] in ps;
      TotalBounded(h, ps, h.Rank(t));
      MulMono(|ps|, Bound(h), Weight(Bound(h), h.Rank(t) - 1));
    }
  }

  lemma ListLighter(h: Hierarchy, t: string, list: seq<string>)
    requires h.Acyclic()
    requires Below(h, list, h.Rank(t)) && |list| <= LengthBound(h, h.Rank(t))
    ensures Total(h, list) < Weight(Bound(h), h.Rank(t))
  {
    if list == [] {
      WeightPositive(Bound(h), h.Rank(t));
    } else {
      assert list[0] in list;
      TotalBounded(h, list, h.Rank(t));
      MulMono(|list|, LengthBound(h, h.Rank(t)), Weight(Bound(h), h.Rank(t) - 1));
    }
  }

  // ---------------------------------------------------------------
  // The ancestor list
  // ---------------------------------------------------------------

  // Every entry the loop reads, in order: visiting an entry appends its own
  // ancestor list behind everything still pending.
  function Visit(h: Hierarchy, pending: seq<string>, ghost r: nat): (visited: seq<string>)
    requires h.Acyclic() && Below(h, pending, r)
    ensures Below(h, visited, r) && |visited| <= Total(h, pending)
    decreases r, Total(h, pending)
  {
    if pending == [] then []
    else
      var t := pending[0];
      var found := ParentTypes(h, t);
      assert Below(h, found, r) && Total(h, pending[1..] + found) < Total(h, pending) by {
        ListLighter(h, t, found);
        TotalConcat(h, pending[1..], found);
      }
      WeightPositive(Bound(h), h.Rank(t));
      [t] + Visit(h, pending[1..] + found, r)
  }

  function ParentTypes(h: Hierarchy, t: string): (ancestors: seq<string>)
    requires h.Acyclic()
    ensures Below(h, ancestors, h.Rank(t))
    ensures |ancestors| <= LengthBound(h, h.Rank(t))
    decreases h.Rank(t)
  {
    ParentsBelow(h, t);
    Visit(h, h.ParentsOf(t), h.Rank(t))
  }

  // Visiting the head of the pending entries costs less than its weight.
  lemma VisitHead(h: Hierarchy, pending: seq<string>, r: nat)
    requires h.Acyclic() && pending != [] && Below(h, pending, r)
    ensures var next := pending[1..] + ParentTypes(h, pending[0]);
            Below(h, next, r)
            && Visit(h, pending, r) == [pending[0]] + Visit(h, next, r)
            && Total(h, next) < Total(h, pending)
  {
    var found := ParentTypes(h, pending[0]);
    ListLighter(h, pending[0], found);
    TotalConcat(h, pending[1..], found);
  }

  lemma SliceAppended(list: seq<string>, more: seq<string>, i: nat)
    requires i < |list|
    ensures (list + more)[i + 1..] == list[i..][1..] + more
    ensures (list + more)[..i + 1] == list[..i] + [list[i..][0]]
  {
  }

  // Reading one entry and appending its ancestors leaves the final list as it was.
  lemma VisitStep(h: Hierarchy, list: seq<string>, i: nat, r: nat)
    requires h.Acyclic() && i < |list| && Below(h, list[i..], r)
    ensures var next := list + ParentTypes(h, list[i]);
            Below(h, next[i + 1..], r)
            && next[..i + 1] + Visit(h, next[i + 1..], r) == list[..i] + Visit(h, list[i..], r)
            && Total(h, next[i + 1..]) < Total(h, list[i..])
  {
    var found := ParentTypes(h, list[i]);
    VisitHead(h, list[i..], r);
    SliceAppended(list, found, i);
  }

  // The source's loop: the list grows at its end while the loop reads it, and
  // the recursion asks for the ancestors of each entry in turn.
  method GetParentTypes(h: Hierarchy, typeName: string) returns (ancestors: seq<string>)
    requires h.Acyclic()
    ensures ancestors == ParentTypes(h, typeName)
    decreases h.Rank(typeName)
  {
    ParentsBelow(h, typeName);
    var extendsArr := h.ParentsOf(typeName);
    if |extendsArr| == 0 { return []; }
    ancestors := extendsArr;
    var i := 0;
    ghost var r := h.Rank(typeName);
    assert ancestors[i..] == ancestors;
    while i < |ancestors|
      invariant 0 <= i <= |ancestors|
      invariant Below(h, ancestors[i..], r)
      invariant ancestors[..i] + Visit(h, ancestors[i..], r) == ParentTypes(h, typeName)
      decreases Total(h, ancestors[i..])
    {
      VisitStep(h, ancestors, i, r);
      assert ancestors[i] in ancestors[i..];
      var found := GetParentTypes(h, ancestors[i]);
      ancestors := ancestors + found;
      i := i + 1;
    }
    assert ancestors[i..] == [] && ancestors[..i] == ancestors;
  }

  // ---------------------------------------------------------------
  // What the list contains
  // ---------------------------------------------------------------

  // `a` is reached from `t` by one or more `extends` steps.
  ghost predicate IsAncestor(h: Hierarchy, a: string, t: string)
    requires h.Acyclic()
    decreases h.Rank(t)
  {
    exists p :: p in h.ParentsOf(t) && h.Rank(p) < h.Rank(t) && (a == p || IsAncestor(h, a, p))
  }

  lemma {:induction false} AncestorTransitive(h: Hierarchy, a: string, b: string, c: string)
    requires h.Acyclic() && IsAncestor(h, a, b) && IsAncestor(h, b, c)
    ensures IsAncestor(h, a, c)
    decreases h.Rank(c)
  {
    var p :| p in h.ParentsOf(c) && h.Rank(p) < h.Rank(c) && (b == p || IsAncestor(h, b, p));
    if b != p { AncestorTransitive(h, a, b, p); }
  }

  ghost predicate Reached(h: Hierarchy, a: string, from: seq<string>)
    requires h.Acyclic()
  {
    exists q :: q in from && (a == q || IsAncestor(h, a, q))
  }

  lemma ReachedStep(h: Hierarchy, a: string, t: string, rest: seq<string>, found: seq<string>)
    requires h.Acyclic() && forall q :: q in found <==> IsAncestor(h, q, t)
    ensures Reached(h, a, [t] + rest) <==> a == t || Reached(h, a, rest + found)
  {
    assert t in [t] + rest;
    if Reached(h, a, [t] + rest) && a != t {
      var q :| q in [t] + rest && (a == q || IsAncestor(h, a, q));
      if q == t {
        assert a in found && a in rest + found;
      } else {
        assert q in rest + found;
      }
    }
    if Reached(h, a, rest + found) {
      var q :| q in rest + found && (a == q || IsAncestor(h, a, q));
      if q in rest {
        assert q in [t] + rest;
      } else {
        if a != q { AncestorTransitive(h, a, q, t); }
      }
    }
  }

  lemma {:induction false} VisitReaches(h: Hierarchy, pending: seq<string>, r: nat, a: string)
    requires h.Acyclic() && Below(h, pending, r)
    ensures a in Visit(h, pending, r) <==> Reached(h, a, pending)
    decreases r, Total(h, pending)
  {
    if pending != [] {
      var t, rest := pending[0], pending[1..];
      var found := ParentTypes(h, t);
      ListLighter(h, t, found);
      TotalConcat(h, rest, found);
      WeightPositive(Bound(h), h.Rank(t));
      VisitReaches(h, rest + found, r, a);
      forall q ensures q in found <==> IsAncestor(h, q, t) { ParentTypesExact(h, t, q); }
      ReachedStep(h, a, t, rest, found);
      assert pending == [t] + rest;
    }
  }

  // The list holds exactly the strict ancestors, on every acyclic hierarchy.
  lemma {:induction false} ParentTypesExact(h: Hierarchy, t: string, a: string)
    requires h.Acyclic()
    ensures a in ParentTypes(h, t) <==> IsAncestor(h, a, t)
    decreases h.Rank(t)
  {
    ParentsBelow(h, t);
    VisitReaches(h, h.ParentsOf(t), h.Rank(t), a);
  }

  // In the hierarchy's own terms: the parents, and the ancestors of each.
  lemma AncestorsAreParentsAndTheirs(h: Hierarchy, t: string, a: string)
    requires h.Acyclic()
    ensures a in ParentTypes(h, t) <==>
              t in h.parents && exists p :: p in h.parents[t] && (a == p || a in ParentTypes(h, p))
  {
    ParentTypesExact(h, t, a);
    ParentsBelow(h, t);
    if t in h.parents {
      forall p | p in h.parents[t] ensures a in ParentTypes(h, p) <==> IsAncestor(h, a, p) { ParentTypesExact(h, p, a); }
    }
  }

  // ---------------------------------------------------------------
  // Order of first occurrences on single-parent chains
  // ---------------------------------------------------------------

  // `ts` without the repetitions that follow a first occurrence.
  ghost function FirstOccurrences(ts: seq<string>): seq<string> {
    if ts == [] then []
    else
      var kept := FirstOccurrences(ts[..|ts| - 1]);
      if ts[|ts| - 1] in kept then kept else kept + [ts[|ts| - 1]]
  }

  lemma {:induction false} FirstOccurrencesKeeps(ts: seq<string>, t: string)
    ensures t in FirstOccurrences(ts) <==> t in ts
  {
    if ts != [] {
      FirstOccurrencesKeeps(ts[..|ts| - 1], t);
      assert ts == ts[..|ts| - 1] + [ts[|ts| - 1]];
    }
  }

  lemma {:induction false} RepetitionsDrop(a: seq<string>, b: seq<string>)
    requires forall t :: t in b ==> t in a
    ensures FirstOccurrences(a + b) == FirstOccurrences(a)
  {
    if b == [] {
      assert a + b == a;
    } else {
      var last := b[|b| - 1];
      assert (a + b)[..|a + b| - 1] == a + b[..|b| - 1];
      RepetitionsDrop(a, b[..|b| - 1]);
      FirstOccurrencesKeeps(a, last);
    }
  }

  lemma {:induction false} FreshHead(t: string, ts: seq<string>)
    requires t !in ts
    ensures FirstOccurrences([t] + ts) == [t] + FirstOccurrences(ts)
  {
    if ts == [] {
      assert FirstOccurrences([t][..0]) == [];
      assert [t] + ts == [t];
    } else {
      assert ([t] + ts)[..|ts|] == [t] + ts[..|ts| - 1];
      FreshHead(t, ts[..|ts| - 1]);
    }
  }

  // The ancestors of `t`, nearest first, when nobody has two parents.
  ghost function Chain(h: Hierarchy, t: string): seq<string>
    requires h.Acyclic()
    decreases h.Rank(t)
  {
    if h.ParentsOf(t) == [] then []
    else
      ParentsBelow(h, t);
      assert h.ParentsOf(t)[0] in h.ParentsOf(t);
      [h.ParentsOf(t)[0]] + Chain(h, h.ParentsOf(t)[0])
  }

  lemma {:induction false} VisitPrefix(h: Hierarchy, pending: seq<string>, r: nat)
    requires h.Acyclic() && Below(h, pending, r)
    ensures pending <= Visit(h, pending, r)
    decreases r, Total(h, pending)
  {
    if pending != [] {
      var found := ParentTypes(h, pending[0]);
      ListLighter(h, pending[0], found);
      TotalConcat(h, pending[1..], found);
      WeightPositive(Bound(h), h.Rank(pending[0]));
      VisitPrefix(h, pending[1..] + found, r);
    }
  }

  // Re-reading an ancestor list only finds types it already holds.
  lemma RevisitAddsNothing(h: Hierarchy, p: string, r: nat)
    requires h.Acyclic() && h.Rank(p) < r
    ensures FirstOccurrences(Visit(h, ParentTypes(h, p), r)) == FirstOccurrences(ParentTypes(h, p))
  {
    var list := ParentTypes(h, p);
    var visited := Visit(h, list, r);
    VisitPrefix(h, list, r);
    var extra := visited[|list|..];
    assert visited == list + extra;
    forall t | t in extra ensures t in list {
      VisitReaches(h, list, r, t);
      var q :| q in list && (t == q || IsAncestor(h, t, q));
      if t != q {
        ParentTypesExact(h, p, q);
        AncestorTransitive(h, t, q, p);
        ParentTypesExact(h, p, t);
      }
    }
    RepetitionsDrop(list, extra);
  }

  // With single parents, first occurrences in the list run from the nearest
  // ancestor to the most distant one.
  lemma {:induction false} ParentTypesNearestFirst(h: Hierarchy, t: string)
    requires h.Acyclic() && h.SingleParent()
    ensures FirstOccurrences(ParentTypes(h, t)) == Chain(h, t)
    decreases h.Rank(t)
  {
    ParentsBelow(h, t);
    if h.ParentsOf(t) != [] {
      var p := h.ParentsOf(t)[0];
      assert h.ParentsOf(t) == [p] && p in [p];
      var found := ParentTypes(h, p);
      assert ([p] + found)[1..] == found && [] + found == found;
      assert [p][1..] + found == found;
      assert ParentTypes(h, t) == [p] + Visit(h, found, h.Rank(t));
      ParentTypesNearestFirst(h, p);
      RevisitAddsNothing(h, p, h.Rank(t));
      var tail := Visit(h, found, h.Rank(t));
      assert p !in found;
      FirstOccurrencesKeeps(tail, p);
      FirstOccurrencesKeeps(found, p);
      FreshHead(p, tail);
    }
  }

  // What first occurrences are: each type once, in the order in which they
  // first come up.
  lemma {:induction false} FirstOccurrencesMean(ts: seq<string>, n: nat)
    requires n <= |ts|
    ensures FirstOccurrences(ts[..n]) <= FirstOccurrences(ts)
    ensures forall t :: t in FirstOccurrences(ts) <==> t in ts
    ensures forall i, j :: 0 <= i < j < |FirstOccurrences(ts)| ==> FirstOccurrences(ts)[i] != FirstOccurrences(ts)[j]
    decreases |ts|
  {
    if ts != [] {
      var front := ts[..|ts| - 1];
      assert ts == front + [ts[|ts| - 1]];
      FirstOccurrencesMean(front, if n < |ts| then n else |ts| - 1);
      if n < |ts| { assert front[..n] == ts[..n]; } else { assert ts[..n] == ts; }
    }
  }

  // The nearest ancestor is the only parent, the next one its parent, and so on.
  lemma NearestFirst(h: Hierarchy, t: string)
    requires h.Acyclic() && h.SingleParent()
    ensures FirstOccurrences(ParentTypes(h, t)) ==
              if t in h.parents && |h.parents[t]| == 1
              then [h.parents[t][0]] + FirstOccurrences(ParentTypes(h, h.parents[t][0])) else []
  {
    ParentTypesNearestFirst(h, t);
    ParentsBelow(h, t);
    if t in h.parents && |h.parents[t]| == 1 {
      assert h.ParentsOf(t) == h.parents[t] && h.parents[t][0] in h.ParentsOf(t);
      ParentTypesNearestFirst(h, h.parents[t][0]);
    }
  }
}
