// The basic pass of node-group validation: ids, names, existing nodes, and one
// group per node.
module NodeGroups {
  import opened Wrappers

  datatype Group = Group(id: string, name: string, nodeIds: seq<string>)

  datatype Error =
    | DuplicateGroupId(id: string)
    | DuplicateGroupName(name: string)
    | MissingNode(group: string, nodeId: string)
    | NodeInTwoGroups(nodeId: string, first: string, second: string)

  // A reference from a group to a node.
  datatype Reference = Reference(group: string, nodeId: string)

  function ReferencesOf(g: Group, k: nat): seq<Reference>
    requires k <= |g.nodeIds|
  {
    seq(k, i requires 0 <= i < k => Reference(g.name, g.nodeIds[i]))
  }

  function References(groups: seq<Group>): seq<Reference> {
    if groups == [] then []
    else References(groups[..|groups| - 1]) + ReferencesOf(groups[|groups| - 1], |groups[|groups| - 1].nodeIds|)
  }

  // ---------------------------------------------------------------
  // The declarative specification
  // ---------------------------------------------------------------

  ghost predicate DistinctIds(groups: seq<Group>) {
    forall i, j :: 0 <= i < j < |groups| ==> groups[i].id != groups[j].id
  }

  ghost predicate DistinctNames(groups: seq<Group>) {
    forall i, j :: 0 <= i < j < |groups| ==> groups[i].name != groups[j].name
  }

  // Node ids that are set.
  function KnownNodes(nodeIds: seq<string>): set<string> {
    set id | id in nodeIds && id != ""
  }

  ghost predicate AllKnown(known: set<string>, refs: seq<Reference>) {
    forall r :: r in refs ==> r.nodeId in known
  }

  // A node referenced twice is noticed only if the earlier group has a name.
  ghost predicate NoVisibleOverlap(refs: seq<Reference>) {
    forall i, j :: 0 <= i < j < |refs| && refs[i].nodeId == refs[j].nodeId ==> refs[i].group == ""
  }

  ghost predicate Acceptable(nodeIds: seq<string>, groups: seq<Group>) {
    && DistinctIds(groups) && DistinctNames(groups)
    && AllKnown(KnownNodes(nodeIds), References(groups))
    && NoVisibleOverlap(References(groups))
  }

  // What each error says about the input.
  ghost predicate Explains(nodeIds: seq<string>, groups: seq<Group>, e: Error) {
    match e
    case DuplicateGroupId(id) =>
      exists i, j :: 0 <= i < j < |groups| && groups[i].id == groups[j].id == id
    case DuplicateGroupName(name) =>
      exists i, j :: 0 <= i < j < |groups| && groups[i].name == groups[j].name == name
    case _ => Blames(KnownNodes(nodeIds), References(groups), e)
  }

  // What it says about the references.
  ghost predicate Blames(known: set<string>, refs: seq<Reference>, e: Error) {
    match e
    case MissingNode(group, nodeId) => Reference(group, nodeId) in refs && nodeId !in known
    case NodeInTwoGroups(nodeId, first, second) => first != "" && OverlapIn(refs, nodeId, first, second)
    case _ => false
  }

  ghost predicate OverlapIn(refs: seq<Reference>, nodeId: string, first: string, second: string) {
    exists i, j :: 0 <= i < j < |refs| && refs[i] == Reference(first, nodeId) && refs[j] == Reference(second, nodeId)
  }

  // ---------------------------------------------------------------
  // The loops
  // ---------------------------------------------------------------

  // What `nodeToGroup` holds after `refs`: the last group that named each node.
  function LastGroups(refs: seq<Reference>): map<string, string> {
    if refs == [] then map[]
    else LastGroups(refs[..|refs| - 1])[refs[|refs| - 1].nodeId := refs[|refs| - 1].group]
  }

  // Position `i` is the last that references `nodeId`.
  ghost predicate LastAt(refs: seq<Reference>, nodeId: string, i: nat) {
    i < |refs| && refs[i].nodeId == nodeId && forall j :: i < j < |refs| ==> refs[j].nodeId != nodeId
  }

  // The map finds the last reference to a node, and nothing for other nodes.
  lemma {:induction false} LastGroupFound(refs: seq<Reference>, nodeId: string) returns (i: nat)
    ensures if nodeId in LastGroups(refs) then LastAt(refs, nodeId, i) && refs[i].group == LastGroups(refs)[nodeId]
            else forall j :: 0 <= j < |refs| ==> refs[j].nodeId != nodeId
  {
    i := 0;
    if refs != [] {
      var n := |refs| - 1;
      var before := LastGroupFound(refs[..n], nodeId);
      i := if refs[n].nodeId == nodeId then n else before;
      assert forall j :: 0 <= j < n ==> refs[j] == refs[..n][j];
    }
  }

  // A reference in a named group, met again.
  predicate Clashes(refs: seq<Reference>, r: Reference) {
    r.nodeId in LastGroups(refs) && LastGroups(refs)[r.nodeId] != ""
  }

  lemma ClashingReference(refs: seq<Reference>, r: Reference) returns (i: nat)
    requires Clashes(refs, r)
    ensures i < |refs| && refs[i] == Reference(LastGroups(refs)[r.nodeId], r.nodeId)
  {
    i := LastGroupFound(refs, r.nodeId);
  }

  lemma EarlierAreUnnamed(refs: seq<Reference>, r: Reference, i: nat)
    requires NoVisibleOverlap(refs) && !Clashes(refs, r)
    requires i < |refs| && refs[i].nodeId == r.nodeId
    ensures refs[i].group == ""
  {
    var last := LastGroupFound(refs, r.nodeId);
    if i < last { assert refs[i].nodeId == refs[last].nodeId; }
  }

  // The truthiness check on the stored group name, for one more reference.
  lemma NoClashNoOverlap(refs: seq<Reference>, r: Reference)
    requires NoVisibleOverlap(refs) && !Clashes(refs, r)
    ensures NoVisibleOverlap(refs + [r])
  {
    var all := refs + [r];
    forall i, j | 0 <= i < j < |all| && all[i].nodeId == all[j].nodeId ensures all[i].group == "" {
      assert all[i] == refs[i];
      if j == |refs| { EarlierAreUnnamed(refs, r, i); } else { assert all[j] == refs[j]; }
    }
  }

  ghost predicate Checked(known: set<string>, refs: seq<Reference>) {
    AllKnown(known, refs) && NoVisibleOverlap(refs)
  }

  // The references of one group, one at a time.
  lemma NextReference(before: seq<Reference>, g: Group, k: nat)
    requires k < |g.nodeIds|
    ensures var refs, ref := before + ReferencesOf(g, k), Reference(g.name, g.nodeIds[k]);
            && before + ReferencesOf(g, k + 1) == refs + [ref]
            && (before + ReferencesOf(g, |g.nodeIds|))[..|refs| + 1] == refs + [ref]
            && ref in ReferencesOf(g, |g.nodeIds|)
            && LastGroups(refs + [ref]) == LastGroups(refs)[ref.nodeId := ref.group]
  {
    var refs, ref := before + ReferencesOf(g, k), Reference(g.name, g.nodeIds[k]);
    assert (refs + [ref])[..|refs|] == refs;
    assert ReferencesOf(g, |g.nodeIds|)[k] == ref;
  }

  lemma BlamedIsUnchecked(known: set<string>, refs: seq<Reference>, e: Error)
    requires Blames(known, refs, e)
    ensures !Checked(known, refs)
  {
    if e.NodeInTwoGroups? {
      var i, j :| 0 <= i < j < |refs| && refs[i] == Reference(e.first, e.nodeId) && refs[j] == Reference(e.second, e.nodeId);
      assert refs[i].nodeId == refs[j].nodeId && refs[i].group != "";
    }
  }

  lemma ClashIsBlamed(known: set<string>, refs: seq<Reference>, r: Reference, all: seq<Reference>)
    requires Clashes(refs, r) && |refs| < |all| && all[..|refs| + 1] == refs + [r]
    ensures Blames(known, all, NodeInTwoGroups(r.nodeId, LastGroups(refs)[r.nodeId], r.group))
  {
    var i := ClashingReference(refs, r);
    assert all[i] == all[..|refs| + 1][i] && all[|refs|] == all[..|refs| + 1][|refs|];
  }

  // The inner loop over one group, after the references `before`.
  method CheckGroup(known: set<string>, g: Group, before: seq<Reference>, nodeToGroup: map<string, string>)
    returns (r: Result<map<string, string>, Error>)
    requires Checked(known, before) && nodeToGroup == LastGroups(before)
    ensures var refs := before + ReferencesOf(g, |g.nodeIds|);
            match r case Ok(m) => Checked(known, refs) && m == LastGroups(refs) case Err(e) => Blames(known, refs, e)
  {
    var groups := nodeToGroup;
    ghost var all := before + ReferencesOf(g, |g.nodeIds|);
    ghost var refs := before;
    assert before + ReferencesOf(g, 0) == before;
    for k := 0 to |g.nodeIds|
      invariant refs == before + ReferencesOf(g, k)
      invariant groups == LastGroups(refs) && Checked(known, refs)
    {
      var nodeId := g.nodeIds[k];
      ghost var ref := Reference(g.name, nodeId);
      NextReference(before, g, k);
      if nodeId !in known {
        assert ref in all;
        return Err(MissingNode(g.name, nodeId));
      }
      if nodeId in groups && groups[nodeId] != "" {
        ClashIsBlamed(known, refs, ref, all);
        return Err(NodeInTwoGroups(nodeId, groups[nodeId], g.name));
      }
      NoClashNoOverlap(refs, ref);
      refs := refs + [ref];
      groups := groups[nodeId := g.name];
    }
    return Ok(groups);
  }

  function Ids(groups: seq<Group>): set<string> {
    set g | g in groups :: g.id
  }

  function Names(groups: seq<Group>): set<string> {
    set g | g in groups :: g.name
  }

  lemma OneMoreId(groups: seq<Group>, n: nat)
    requires n < |groups| && DistinctIds(groups[..n])
    ensures Ids(groups[..n + 1]) == Ids(groups[..n]) + {groups[n].id}
    ensures groups[n].id !in Ids(groups[..n]) ==> DistinctIds(groups[..n + 1])
  {
    assert groups[..n + 1] == groups[..n] + [groups[n]];
    assert forall i :: 0 <= i < n ==> groups[..n + 1][i] == groups[..n][i] && groups[..n][i] in groups[..n];
  }

  lemma OneMoreName(groups: seq<Group>, n: nat)
    requires n < |groups| && DistinctNames(groups[..n])
    ensures Names(groups[..n + 1]) == Names(groups[..n]) + {groups[n].name}
    ensures groups[n].name !in Names(groups[..n]) ==> DistinctNames(groups[..n + 1])
  {
    assert groups[..n + 1] == groups[..n] + [groups[n]];
    assert forall i :: 0 <= i < n ==> groups[..n + 1][i] == groups[..n][i] && groups[..n][i] in groups[..n];
  }

  lemma OneMoreGroup(groups: seq<Group>, n: nat)
    requires n < |groups|
    ensures References(groups[..n + 1])
         == References(groups[..n]) + ReferencesOf(groups[n], |groups[n].nodeIds|)
  {
    assert groups[..n + 1][..n] == groups[..n];
  }

  lemma IdClash(groups: seq<Group>, n: nat)
    requires n < |groups| && groups[n].id in Ids(groups[..n])
    ensures !DistinctIds(groups)
    ensures exists i, j :: 0 <= i < j < |groups| && groups[i].id == groups[j].id == groups[n].id
  {
    var i :| 0 <= i < n && groups[..n][i].id == groups[n].id;
    assert groups[i].id == groups[n].id;
  }

  lemma NameClash(groups: seq<Group>, n: nat)
    requires n < |groups| && groups[n].name in Names(groups[..n])
    ensures !DistinctNames(groups)
    ensures exists i, j :: 0 <= i < j < |groups| && groups[i].name == groups[j].name == groups[n].name
  {
    var i :| 0 <= i < n && groups[..n][i].name == groups[n].name;
    assert groups[i].name == groups[n].name;
  }

  // A violation among the first groups is one among all.
  lemma EarlyViolation(nodeIds: seq<string>, groups: seq<Group>, n: nat, e: Error)
    requires n <= |groups| && Blames(KnownNodes(nodeIds), References(groups[..n]), e)
    ensures Blames(KnownNodes(nodeIds), References(groups), e) && !Acceptable(nodeIds, groups)
  {
    var rest := MoreReferences(groups, n);
    var refs := References(groups[..n]);
    if e.NodeInTwoGroups? {
      var i, j :| 0 <= i < j < |refs| && refs[i] == Reference(e.first, e.nodeId) && refs[j] == Reference(e.second, e.nodeId);
      assert References(groups)[i] == refs[i] && References(groups)[j] == refs[j];
    }
    BlamedIsUnchecked(KnownNodes(nodeIds), References(groups), e);
  }

  // Accepts exactly the acceptable inputs, and an error names a violation.
  method ValidateBasics(nodeIds: seq<string>, groups: seq<Group>) returns (r: Result<(), Error>)
    ensures r.Ok? <==> Acceptable(nodeIds, groups)
    ensures r.Err? ==> Explains(nodeIds, groups, r.error)
  {
    var known := KnownNodes(nodeIds);
    var seenIds: set<string>, seenNames: set<string>, nodeToGroup := {}, {}, map[];
    for n := 0 to |groups|
      invariant DistinctIds(groups[..n]) && DistinctNames(groups[..n])
      invariant seenIds == Ids(groups[..n]) && seenNames == Names(groups[..n])
      invariant Checked(known, References(groups[..n])) && nodeToGroup == LastGroups(References(groups[..n]))
    {
      var group := groups[n];
      OneMoreId(groups, n);
      OneMoreName(groups, n);
      OneMoreGroup(groups, n);
      if group.id in seenIds {
        IdClash(groups, n);
        return Err(DuplicateGroupId(group.id));
      }
      seenIds := seenIds + {group.id};
      if group.name in seenNames {
        NameClash(groups, n);
        return Err(DuplicateGroupName(group.name));
      }
      seenNames := seenNames + {group.name};
      var checked := CheckGroup(known, group, References(groups[..n]), nodeToGroup);
      if checked.Err? {
        EarlyViolation(nodeIds, groups, n + 1, checked.error);
        return Err(checked.error);
      }
      nodeToGroup := checked.value;
    }
    assert groups[..|groups|] == groups;
    return Ok(());
  }

  // The references of the first `n` groups are a prefix of all of them.
  lemma {:induction false} MoreReferences(groups: seq<Group>, n: nat) returns (rest: seq<Reference>)
    requires n <= |groups|
    ensures References(groups) == References(groups[..n]) + rest
  {
    if n == |groups| {
      rest := [];
      assert groups[..n] == groups;
    } else {
      var init := groups[..|groups| - 1];
      var inner := MoreReferences(init, n);
      assert init[..n] == groups[..n];
      rest := inner + ReferencesOf(groups[|groups| - 1], |groups[|groups| - 1].nodeIds|);
    }
  }

  // ---------------------------------------------------------------
  // The specification in terms of the groups
  // ---------------------------------------------------------------

  // Where the i-th node of group `g` stands among all references.
  lemma ReferenceAt(groups: seq<Group>, g: nat, i: nat)
    requires g < |groups| && i < |groups[g].nodeIds|
    ensures var k := |References(groups[..g])| + i;
            k < |References(groups)| && References(groups)[k] == Reference(groups[g].name, groups[g].nodeIds[i])
  {
    var rest := MoreReferences(groups, g + 1);
    OneMoreGroup(groups, g);
    var k := |References(groups[..g])| + i;
    assert References(groups)[k] == References(groups[..g + 1])[k];
  }

  lemma {:induction false} GroupOf(groups: seq<Group>, k: nat) returns (g: nat, i: nat)
    requires k < |References(groups)|
    ensures g < |groups| && i < |groups[g].nodeIds| && k == |References(groups[..g])| + i
  {
    var n := |groups| - 1;
    if k < |References(groups[..n])| {
      g, i := GroupOf(groups[..n], k);
      assert groups[..n][..g] == groups[..g];
    } else {
      g, i := n, k - |References(groups[..n])|;
    }
  }

  lemma {:induction false} LaterGroupsFollow(groups: seq<Group>, g: nat, h: nat)
    requires g < h <= |groups|
    ensures |References(groups[..g])| + |groups[g].nodeIds| <= |References(groups[..h])|
    decreases h
  {
    OneMoreGroup(groups, h - 1);
    if g < h - 1 { LaterGroupsFollow(groups, g, h - 1); }
  }

  predicate Precedes(g: nat, i: nat, h: nat, j: nat) {
    g < h || (g == h && i < j)
  }

  ghost predicate KnownInGroups(nodeIds: seq<string>, groups: seq<Group>) {
    forall g, i :: 0 <= g < |groups| && 0 <= i < |groups[g].nodeIds| ==>
      groups[g].nodeIds[i] in nodeIds && groups[g].nodeIds[i] != ""
  }

  ghost predicate OverlapsOnlyUnnamed(groups: seq<Group>) {
    forall g, i, h, j ::
      (&& 0 <= g < |groups| && 0 <= h < |groups| && 0 <= i < |groups[g].nodeIds| && 0 <= j < |groups[h].nodeIds|
       && Precedes(g, i, h, j) && groups[g].nodeIds[i] == groups[h].nodeIds[j]) ==> groups[g].name == ""
  }

  lemma KnownMeans(nodeIds: seq<string>, groups: seq<Group>)
    ensures AllKnown(KnownNodes(nodeIds), References(groups)) <==> KnownInGroups(nodeIds, groups)
  {
    if AllKnown(KnownNodes(nodeIds), References(groups)) {
      forall g, i | 0 <= g < |groups| && 0 <= i < |groups[g].nodeIds|
        ensures groups[g].nodeIds[i] in nodeIds && groups[g].nodeIds[i] != ""
      {
        ReferenceAt(groups, g, i);
        assert References(groups)[|References(groups[..g])| + i] in References(groups);
      }
    }
    if KnownInGroups(nodeIds, groups) {
      forall r | r in References(groups) ensures r.nodeId in KnownNodes(nodeIds) {
        var k :| 0 <= k < |References(groups)| && References(groups)[k] == r;
        var g, i := GroupOf(groups, k);
        ReferenceAt(groups, g, i);
      }
    }
  }

  lemma OverlapAt(groups: seq<Group>, g: nat, i: nat, h: nat, j: nat)
    requires g < |groups| && h < |groups| && i < |groups[g].nodeIds| && j < |groups[h].nodeIds|
    ensures |References(groups[..g])| + i < |References(groups[..h])| + j <==> Precedes(g, i, h, j)
  {
    if g < h { LaterGroupsFollow(groups, g, h); }
    if h < g { LaterGroupsFollow(groups, h, g); }
  }

  lemma OverlapMeans(groups: seq<Group>)
    ensures NoVisibleOverlap(References(groups)) <==> OverlapsOnlyUnnamed(groups)
  {
    var refs := References(groups);
    if NoVisibleOverlap(refs) {
      forall g, i, h, j | 0 <= g < |groups| && 0 <= h < |groups| && 0 <= i < |groups[g].nodeIds| && 0 <= j < |groups[h].nodeIds|
          && Precedes(g, i, h, j) && groups[g].nodeIds[i] == groups[h].nodeIds[j]
        ensures groups[g].name == ""
      {
        ReferenceAt(groups, g, i);
        ReferenceAt(groups, h, j);
        OverlapAt(groups, g, i, h, j);
      }
    }
    if OverlapsOnlyUnnamed(groups) {
      forall k, l | 0 <= k < l < |refs| && refs[k].nodeId == refs[l].nodeId ensures refs[k].group == "" {
        var g, i := GroupOf(groups, k);
        var h, j := GroupOf(groups, l);
        ReferenceAt(groups, g, i);
        ReferenceAt(groups, h, j);
        OverlapAt(groups, g, i, h, j);
      }
    }
  }

  // Acceptable are groups with distinct ids and distinct names, whose node ids
  // are those of nodes and not empty, and in which a node that comes up again
  // did so before in the group without a name.
  lemma AcceptableMeans(nodeIds: seq<string>, groups: seq<Group>)
    ensures Acceptable(nodeIds, groups) <==>
              && (forall g, h :: 0 <= g < h < |groups| ==> groups[g].id != groups[h].id)
              && (forall g, h :: 0 <= g < h < |groups| ==> groups[g].name != groups[h].name)
              && (forall g, i :: 0 <= g < |groups| && 0 <= i < |groups[g].nodeIds| ==>
                    groups[g].nodeIds[i] in nodeIds && groups[g].nodeIds[i] != "")
              && (forall g, i, h, j ::
                    (&& 0 <= g < |groups| && 0 <= h < |groups| && 0 <= i < |groups[g].nodeIds| && 0 <= j < |groups[h].nodeIds|
                     && (g < h || (g == h && i < j)) && groups[g].nodeIds[i] == groups[h].nodeIds[j]) ==> groups[g].name == "")
  {
    KnownMeans(nodeIds, groups);
    OverlapMeans(groups);
  }

  // With every group named, no node is referenced twice.
  lemma NamedGroupsDoNotOverlap(nodeIds: seq<string>, groups: seq<Group>)
    requires forall g :: g in groups ==> g.name != ""
    ensures NoVisibleOverlap(References(groups)) <==>
              forall i, j :: 0 <= i < j < |References(groups)| ==> References(groups)[i].nodeId != References(groups)[j].nodeId
  {
    ReferencesAreNamed(groups);
  }

  lemma {:induction false} ReferencesAreNamed(groups: seq<Group>)
    requires forall g :: g in groups ==> g.name != ""
    ensures forall r :: r in References(groups) ==> r.group != ""
  {
    if groups != [] {
      var last := groups[|groups| - 1];
      assert last in groups && forall g :: g in groups[..|groups| - 1] ==> g in groups;
      ReferencesAreNamed(groups[..|groups| - 1]);
    }
  }

  // A node in the unnamed group and in a later one is accepted.
  lemma UnnamedGroupHidesOverlap()
    ensures var groups := [Group("a", "", ["n"]), Group("b", "B", ["n"])];
            Acceptable(["n"], groups)
  {
    var a, b := Group("a", "", ["n"]), Group("b", "B", ["n"]);
    assert [a, b][..1] == [a] && [a][..0] == [];
    assert References([]) == [] && ReferencesOf(a, 1) == [Reference("", "n")] && ReferencesOf(b, 1) == [Reference("B", "n")];
    assert References([a]) == [Reference("", "n")];
    assert References([a, b]) == [Reference("", "n"), Reference("B", "n")];
  }
}
