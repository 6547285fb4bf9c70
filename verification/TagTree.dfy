/** Listing tags, collecting a tag's branch, and guarding a change of parent. */
module TagTree {
  import opened Options
  import Sorting
  import opened TagRows
  import opened TagForest

  // ---------------------------------------------------------------------------------------------
  // Listing
  // ---------------------------------------------------------------------------------------------

  /** Groups the tags by parent, a missing parent counting as none. */
  method ByParent(groups: seq<Group>) returns (children: map<Option<Id>, seq<Group>>)
    ensures forall parent :: ListOf(children, parent) == ChildrenAmong(Ids(groups), groups, parent)
  {
    children := map[];
    var ids := Ids(groups);
    for i := 0 to |groups|
      invariant forall parent :: ListOf(children, parent) == ChildrenAmong(ids, groups[..i], parent)
    {
      assert groups[..i + 1][..i] == groups[..i];
      var parent := Parent(ids, groups[i]);
      children := children[parent := ListOf(children, parent) + [groups[i]]];
    }
    assert groups[..|groups|] == groups;
  }

  ghost predicate ChildrenOf(groups: seq<Group>, children: map<Option<Id>, seq<Group>>) {
    forall parent :: ListOf(children, parent) == Children(groups, parent)
  }

  method SortedByParent(groups: seq<Group>) returns (children: map<Option<Id>, seq<Group>>)
    ensures ChildrenOf(groups, children)
  {
    children := ByParent(groups);
    ghost var unsorted := children;
    var rest := children.Keys;
    while rest != {}
      invariant rest <= children.Keys == unsorted.Keys
      invariant forall parent :: parent in children ==>
          children[parent] == if parent in rest then unsorted[parent] else Sorting.Sort(unsorted[parent], BY_NAME)
      decreases |rest|
    {
      var parent :| parent in rest;
      var sorted := Sorting.Sorted(children[parent], BY_NAME);
      children := children[parent := sorted];
      rest := rest - {parent};
    }
    forall parent ensures ListOf(children, parent) == Children(groups, parent) {
      assert ListOf(unsorted, parent) == ChildrenAmong(Ids(groups), groups, parent);
    }
  }

  lemma {:induction false} ListedChildren(groups: seq<Group>, children: map<Option<Id>, seq<Group>>, parent: Option<Id>)
    requires UniqueIds(groups) && ChildrenOf(groups, children)
    ensures ListOf(children, parent) == Children(groups, parent) && AllIn(Children(groups, parent), groups)
  {
    ChildrenAre(groups, parent);
  }

  lemma {:induction false} OneWalk(groups: seq<Group>, g: Group, depth: nat, prefix: seq<nat>, walked: set<Id>)
    requires g in groups
    ensures g.id in Ids(groups)
    ensures var path := prefix + [g.name];
      var below := Walk(groups, Children(groups, Some(g.id)), depth + 1, path, walked + {g.id});
      Walk(groups, [g], depth, prefix, walked) ==
        if g.id in walked then Walked([], walked) else Walked([Row(g, depth, path)] + below.rows, below.ids)
  {
    var i :| 0 <= i < |groups| && groups[i] == g;
    assert g.id in Ids(groups);
    assert [g][1..] == [];
  }

  lemma {:induction false} Associates<T>(a: seq<T>, b: seq<T>, c: seq<T>)
    ensures a + b + c == a + (b + c)
  {
  }

  class RowList {
    var rows: seq<Row>
    var walked: set<Id>

    constructor ()
      ensures rows == [] && walked == {}
    {
      rows, walked := [], {};
    }

    /** Adds the tag and, below it, its children, unless it was added before. */
    method Add(groups: seq<Group>, children: map<Option<Id>, seq<Group>>, g: Group, depth: nat, prefix: seq<nat>)
      requires g in groups && UniqueIds(groups) && ChildrenOf(groups, children)
      modifies this
      ensures var r := Walk(groups, [g], depth, prefix, old(walked));
        rows == old(rows) + r.rows && walked == r.ids
      decreases Ids(groups) - walked, 1
    {
      OneWalk(groups, g, depth, prefix, walked);
      if g.id in walked {
        return;
      }
      var path := prefix + [g.name];
      walked := walked + {g.id};
      rows := rows + [Row(g, depth, path)];
      var list := ListOf(children, Some(g.id));
      ListedChildren(groups, children, Some(g.id));
      ghost var below := Walk(groups, list, depth + 1, path, walked);
      AddAll(groups, children, list, depth + 1, path);
      Associates(old(rows), [Row(g, depth, path)], below.rows);
    }

    method AddAll(
        groups: seq<Group>, children: map<Option<Id>, seq<Group>>, list: seq<Group>, depth: nat, prefix: seq<nat>)
      requires AllIn(list, groups) && UniqueIds(groups) && ChildrenOf(groups, children)
      modifies this
      ensures var r := Walk(groups, list, depth, prefix, old(walked));
        rows == old(rows) + r.rows && walked == r.ids
      decreases Ids(groups) - walked, 2
    {
      ghost var all := Walk(groups, list, depth, prefix, walked);
      for i := 0 to |list|
        invariant old(walked) <= walked
        invariant var rest := Walk(groups, list[i..], depth, prefix, walked);
          rows + rest.rows == old(rows) + all.rows && rest.ids == all.ids
      {
        ghost var was, head := rows, Walk(groups, [list[i]], depth, prefix, walked);
        WalkOneMore(groups, list, i, depth, prefix, walked);
        Add(groups, children, list[i], depth, prefix);
        Associates(was, head.rows, Walk(groups, list[i + 1..], depth, prefix, head.ids).rows);
      }
    }

    method AddGroups(groups: seq<Group>, children: map<Option<Id>, seq<Group>>)
      requires UniqueIds(groups) && ChildrenOf(groups, children) && rows == [] && walked == {}
      modifies this
      ensures rows == Rows(groups)
    {
      ListedChildren(groups, children, None);
      ghost var roots := Walk(groups, Children(groups, None), 0, [], {});
      AddAll(groups, children, ListOf(children, None), 0, []);
      ghost var rest := Walk(groups, groups, 0, [], roots.ids);
      assert rows == roots.rows;
      AddAll(groups, children, groups, 0, []);
    }
  }

  lemma {:induction false} WalkOneMore(
      groups: seq<Group>, list: seq<Group>, i: nat, depth: nat, prefix: seq<nat>, walked: set<Id>)
    requires i < |list|
    ensures var head := Walk(groups, [list[i]], depth, prefix, walked);
      var rest := Walk(groups, list[i + 1..], depth, prefix, head.ids);
      Walk(groups, list[i..], depth, prefix, walked) == Walked(head.rows + rest.rows, rest.ids)
  {
    assert list[i..][0] == list[i] && list[i..][1..] == list[i + 1..];
  }

  /** The rows of all tags; afterwards every tag is listed exactly once. */
  method GroupRows(groups: seq<Group>) returns (rows: seq<Row>)
    requires UniqueIds(groups)
    ensures rows == Rows(groups)
    ensures UniqueRows(rows) && RowIds(rows) == Ids(groups) && |rows| == |groups|
  {
    var children := SortedByParent(groups);
    var list := new RowList();
    list.AddGroups(groups, children);
    rows := list.rows;
    EveryGroupOnce(groups);
  }

  // ---------------------------------------------------------------------------------------------
  // Branches
  // ---------------------------------------------------------------------------------------------

  lemma {:induction false} WalkNothing(
      groups: seq<Group>, list: seq<Group>, depth: nat, prefix: seq<nat>, walked: set<Id>)
    requires forall i :: 0 <= i < |list| ==> list[i].id in walked
    ensures Walk(groups, list, depth, prefix, walked) == Walked([], walked)
    decreases |list|
  {
    if list != [] {
      forall i | 0 <= i < |list[1..]| ensures list[1..][i].id in walked {
        assert list[1..][i] == list[i + 1];
      }
      WalkNothing(groups, list[1..], depth, prefix, walked);
    }
  }

  /** Over a forest everything hangs below a root, and every tag's branch is one block of rows. */
  lemma {:induction false} RowsOfForest(groups: seq<Group>, rank: map<Id, nat>)
    requires UniqueIds(groups) && Ranked(LinksOf(groups), rank)
    ensures BlocksHold(LinksOf(groups), rank, Rows(groups))
  {
    var links, roots := LinksOf(groups), Children(groups, None);
    ChildrenAre(groups, None);
    forall i | 0 <= i < |roots| ensures roots[i] in groups && roots[i].id in links && Up(links, roots[i].id) == None {
      UpIsParent(groups, roots[i]);
    }
    WalkBranches(groups, rank, roots, 0, [], {}, None);
    var r := Walk(groups, roots, 0, [], {});
    LinksAre(groups);
    forall i | 0 <= i < |groups| ensures groups[i].id in r.ids {
      assert groups[i].id in Ids(groups);
      var root := UnderSomeRoot(links, rank, groups[i].id);
      RootListed(groups, root);
      assert UnderOne(links, rank, roots, groups[i].id);
    }
    WalkNothing(groups, groups, 0, [], r.ids);
    assert Rows(groups) == r.rows;
  }

  lemma {:induction false} RootListed(groups: seq<Group>, root: Id)
    requires UniqueIds(groups) && root in LinksOf(groups) && Up(LinksOf(groups), root) == None
    ensures exists i :: 0 <= i < |Children(groups, None)| && Children(groups, None)[i].id == root
  {
    ChildrenAre(groups, None);
    LinksAre(groups);
    var k :| 0 <= k < |groups| && groups[k].id == root;
    UpIsParent(groups, groups[k]);
    assert groups[k] in Children(groups, None);
  }

  lemma {:induction false} BlockIsBranch(groups: seq<Group>, start: nat, end: nat)
    requires UniqueIds(groups) && Forest(LinksOf(groups)) && IsBlock(Rows(groups), start, end)
    ensures {Rows(groups)[start].group.id} + RowIds(Rows(groups)[start + 1..end]) ==
              Branch(LinksOf(groups), Rows(groups)[start].group.id)
  {
    var links, rows := LinksOf(groups), Rows(groups);
    var rank: map<Id, nat> :| Ranked(links, rank);
    var id := rows[start].group.id;
    RowsOfForest(groups, rank);
    EveryGroupOnce(groups);
    LinksAre(groups);
    assert id in RowIds(rows);
    assert HasBlock(links, rank, rows, start);
    var e: nat :| BlockHolds(links, rank, rows, start, e);
    assert e == end;
    forall x ensures x in Branch(links, id) <==> x == id || x in RowIds(rows[start + 1..end]) {
      BranchIsUnder(links, rank, x, id);
    }
  }

  /** The tag and the deeper rows right below it: over a forest, the tag and all its descendants. */
  method BranchIds(groups: seq<Group>, id: Id) returns (branch: set<Id>)
    requires UniqueIds(groups)
    ensures id !in Ids(groups) ==> branch == {id}
    ensures id in Ids(groups) && Forest(LinksOf(groups)) ==> branch == Branch(LinksOf(groups), id)
  {
    var rows := GroupRows(groups);
    var start := FindRow(rows, id);
    if start == |rows| {
      return {id};
    }
    ghost var end;
    branch, end := BlockIds(rows, start);
    if Forest(LinksOf(groups)) {
      BlockIsBranch(groups, start, end);
    }
  }

  method FindRow(rows: seq<Row>, id: Id) returns (start: nat)
    ensures start <= |rows| && (start < |rows| ==> rows[start].group.id == id)
    ensures start == |rows| <==> id !in RowIds(rows)
  {
    start := 0;
    while start < |rows| && rows[start].group.id != id
      invariant start <= |rows| && forall k :: 0 <= k < start ==> rows[k].group.id != id
    {
      start := start + 1;
    }
  }

  /** The row's tag and those of the deeper rows right below it. */
  method BlockIds(rows: seq<Row>, start: nat) returns (ids: set<Id>, ghost end: nat)
    requires start < |rows|
    ensures IsBlock(rows, start, end) && ids == {rows[start].group.id} + RowIds(rows[start + 1..end])
  {
    ids := {rows[start].group.id};
    var index := start + 1;
    while index < |rows| && rows[index].depth > rows[start].depth
      invariant start < index <= |rows| && ids == {rows[start].group.id} + RowIds(rows[start + 1..index])
      invariant forall k :: start < k < index ==> rows[k].depth > rows[start].depth
    {
      NextRow(rows, start + 1, index);
      ids := ids + {rows[index].group.id};
      index := index + 1;
    }
    end := index;
  }

  lemma {:induction false} NextRow(rows: seq<Row>, from: nat, index: nat)
    requires from <= index < |rows|
    ensures RowIds(rows[from..index + 1]) == RowIds(rows[from..index]) + {rows[index].group.id}
  {
    RowIdsJoin(rows[from..index], [rows[index]]);
    assert rows[from..index] + [rows[index]] == rows[from..index + 1];
    assert RowIds([rows[index]]) == {rows[index].group.id} by {
      assert [rows[index]][0] == rows[index];
    }
  }

  // ---------------------------------------------------------------------------------------------
  // A change of parent
  // ---------------------------------------------------------------------------------------------

  datatype Verdict = Accepted | NotFound | Looping

  ghost predicate Closed(links: Links, seen: set<Id>) {
    forall x :: x in seen && Up(links, x).Some? ==> Up(links, x).value in seen
  }

  lemma {:induction false} ClosedKeeps(links: Links, seen: set<Id>, chain: seq<Id>, x: Id, a: Id)
    requires Closed(links, seen) && x in seen && IsChain(links, chain, x, a)
    ensures a in seen
    decreases |chain|
  {
    if |chain| > 1 {
      assert Up(links, chain[0]) == Some(chain[1]);
      forall i | 0 <= i < |chain[1..]| - 1 ensures Up(links, chain[1..][i]) == Some(chain[1..][i + 1]) {
        assert Up(links, chain[i + 1]) == Some(chain[i + 2]);
      }
      ClosedKeeps(links, seen, chain[1..], chain[1], a);
    }
  }

  lemma {:induction false} ChainGrows(links: Links, x: Id, a: Id)
    requires Descends(links, x, a) && Up(links, a).Some?
    ensures Descends(links, x, Up(links, a).value)
  {
    var chain :| IsChain(links, chain, x, a);
    assert IsChain(links, chain + [Up(links, a).value], x, Up(links, a).value);
  }

  /** Stored parent links lead from `x` to `a`, which may itself not be stored. */
  ghost predicate Reaches(links: Links, x: Id, a: Id) {
    x == a || exists y :: Descends(links, x, y) && y in links && links[y] == Some(a)
  }

  lemma {:induction false} ReachesIffDescends(links: Links, x: Id, a: Id)
    requires a in links
    ensures Reaches(links, x, a) <==> Descends(links, x, a)
  {
    if x == a {
      assert IsChain(links, [x], x, a);
    } else if Descends(links, x, a) {
      var chain :| IsChain(links, chain, x, a);
      var front := chain[..|chain| - 1];
      assert IsChain(links, front, x, front[|front| - 1]);
      assert Up(links, chain[|chain| - 2]) == Some(chain[|chain| - 1]);
    } else {
      forall y | Descends(links, x, y) && y in links ensures links[y] != Some(a) {
        if links[y] == Some(a) {
          ChainGrows(links, x, y);
        }
      }
    }
  }

  /** Rejects a missing parent and one inside the tag's own branch; stops at a loop that is stored already. */
  method RequireTagParent(links: Links, id: Id, parentId: Id) returns (verdict: Verdict)
    ensures verdict == NotFound <==> parentId !in links
    ensures verdict == Looping <==> parentId in links && Reaches(links, parentId, id)
    ensures id in links ==> (verdict == Looping <==> parentId in links && Descends(links, parentId, id))
  {
    if id in links {
      ReachesIffDescends(links, parentId, id);
    }
    if parentId !in links {
      return NotFound;
    }
    var seen: set<Id> := {};
    var ancestor := Some(parentId);
    assert IsChain(links, [parentId], parentId, parentId);
    while ancestor.Some? && ancestor.value !in seen
      invariant parentId in seen || ancestor == Some(parentId)
      invariant id !in seen
      invariant ancestor.Some? && ancestor.value in links ==> Descends(links, parentId, ancestor.value)
      invariant ancestor.Some? ==> Reaches(links, parentId, ancestor.value)
      invariant forall x :: x in seen && x in links && links[x].Some? ==> links[x].value in seen || links[x] == ancestor
      decreases links.Keys - seen, ancestor.Some?
    {
      var a := ancestor.value;
      if a == id {
        return Looping;
      }
      if a in links && Up(links, a).Some? {
        ChainGrows(links, parentId, a);
      }
      seen := seen + {a};
      ancestor := if a in links then links[a] else None;
    }
    assert Closed(links, seen);
    forall y, chain | IsChain(links, chain, parentId, y) ensures y in seen {
      ClosedKeeps(links, seen, chain, parentId, y);
    }
    verdict := Accepted;
  }

  lemma {:induction false} NewRanks(links: Links, rank: map<Id, nat>, id: Id, parent: Id)
    requires Ranked(links, rank) && id in links && parent in links && !Under(links, rank, parent, id)
    ensures Forest(links[id := Some(parent)])
  {
    var after := links[id := Some(parent)];
    var lift := rank[parent] + 1;
    var ranks: map<Id, nat> := map x | x in links :: if Under(links, rank, x, id) then rank[x] + lift else rank[x];
    forall x | x in after
      ensures x in ranks && (Up(after, x).Some? ==> Up(after, x).value in ranks && ranks[Up(after, x).value] < ranks[x])
    {
      if x == id {
        assert Under(links, rank, id, id);
      } else {
        assert Up(after, x) == Up(links, x);
      }
    }
    assert Ranked(after, ranks);
  }

  lemma {:induction false} LoopRanks(links: Links, rank: map<Id, nat>, id: Id, parent: Id, ranks: map<Id, nat>, x: Id)
    requires Ranked(links, rank) && id in links && Under(links, rank, x, id)
    requires Ranked(links[id := Some(parent)], ranks)
    ensures ranks[id] <= ranks[x]
    decreases if x in rank then rank[x] else 0
  {
    if x != id {
      var after := links[id := Some(parent)];
      assert Up(after, x) == Up(links, x);
      LoopRanks(links, rank, id, parent, ranks, Up(links, x).value);
    }
  }

  /** A change of parent leaves a forest a forest exactly when the new parent is not in the tag's own branch. */
  lemma {:induction false} ReparentKeepsForestIff(links: Links, id: Id, parent: Id)
    requires Forest(links) && id in links && parent in links
    ensures Forest(links[id := Some(parent)]) <==> !Descends(links, parent, id)
  {
    var rank: map<Id, nat> :| Ranked(links, rank);
    BranchIsUnder(links, rank, parent, id);
    if !Under(links, rank, parent, id) {
      NewRanks(links, rank, id, parent);
    } else if Forest(links[id := Some(parent)]) {
      var after := links[id := Some(parent)];
      var ranks: map<Id, nat> :| Ranked(after, ranks);
      assert Up(after, id) == Some(parent);
      LoopRanks(links, rank, id, parent, ranks, parent);
    }
  }

  /** Making a tag a root never makes a loop. */
  lemma {:induction false} RootKeepsForest(links: Links, id: Id)
    requires Forest(links) && id in links
    ensures Forest(links[id := None])
  {
    var rank: map<Id, nat> :| Ranked(links, rank);
    var after := links[id := None];
    forall x | x in after
      ensures x in rank && (Up(after, x).Some? ==> Up(after, x).value in rank && rank[Up(after, x).value] < rank[x])
    {
      if x != id {
        assert Up(after, x) == Up(links, x);
      }
    }
    assert Ranked(after, rank);
  }

  /** The guarded change of parent, as the repository makes it; a tag that is not stored is refused at the end. */
  method UpdateParent(links: Links, id: Id, parentId: Option<Id>) returns (r: Option<Links>)
    ensures r.Some? <==>
        id in links && (parentId.None? || (parentId.value in links && !Descends(links, parentId.value, id)))
    ensures r.Some? ==> r.value == links[id := parentId]
    ensures r.Some? && Forest(links) ==> Forest(r.value)
  {
    if parentId.Some? {
      var verdict := RequireTagParent(links, id, parentId.value);
      if verdict != Accepted {
        return None;
      }
    }
    if id !in links {
      return None;
    }
    if Forest(links) {
      if parentId.Some? {
        ReparentKeepsForestIff(links, id, parentId.value);
      } else {
        RootKeepsForest(links, id);
      }
    }
    r := Some(links[id := parentId]);
  }
}
