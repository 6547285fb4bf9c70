/** The rows tags are listed in: depth first, siblings by name, every tag once even when parents form a loop. */
module TagRows {
  import opened Options
  import Sorting

  type Id = nat

  /** `name` is the name's place in the collation order. */
  datatype Group = Group(id: Id, name: nat, parentId: Option<Id>)

  /** `path` lists the names from the root down. */
  datatype Row = Row(group: Group, depth: nat, path: seq<nat>)

  const ID: Group -> nat := (g: Group) => g.id

  ghost predicate UniqueIds(groups: seq<Group>) {
    Sorting.UniqueBy(groups, ID)
  }

  function Ids(groups: seq<Group>): set<Id> {
    set i | 0 <= i < |groups| :: groups[i].id
  }

  /** A parent that is missing counts as none. */
  function Parent(ids: set<Id>, g: Group): Option<Id> {
    if g.parentId.Some? && g.parentId.value in ids then g.parentId else None
  }

  // ---------------------------------------------------------------------------------------------
  // Siblings by name
  // ---------------------------------------------------------------------------------------------

  function ChildrenAmong(ids: set<Id>, groups: seq<Group>, parent: Option<Id>): seq<Group> {
    if groups == [] then []
    else
      var last := groups[|groups| - 1];
      ChildrenAmong(ids, groups[..|groups| - 1], parent) + if Parent(ids, last) == parent then [last] else []
  }

  const BY_NAME: (Group, Group) -> bool := (a: Group, b: Group) => a.name < b.name

  function Children(groups: seq<Group>, parent: Option<Id>): seq<Group> {
    Sorting.Sort(ChildrenAmong(Ids(groups), groups, parent), BY_NAME)
  }

  lemma {:induction false} AmongAre(ids: set<Id>, groups: seq<Group>, parent: Option<Id>)
    ensures forall g :: g in ChildrenAmong(ids, groups, parent) <==> g in groups && Parent(ids, g) == parent
    ensures UniqueIds(groups) ==> UniqueIds(ChildrenAmong(ids, groups, parent))
    decreases |groups|
  {
    if groups != [] {
      var front, last := groups[..|groups| - 1], groups[|groups| - 1];
      assert groups == front + [last];
      AmongAre(ids, front, parent);
      var r := ChildrenAmong(ids, front, parent);
      if UniqueIds(groups) {
        forall i | 0 <= i < |r| ensures r[i].id != last.id {
          assert r[i] in front;
        }
      }
    }
  }

  /** The children of a parent are the groups that name it, each once, in the order of their names. */
  lemma {:induction false} ChildrenAre(groups: seq<Group>, parent: Option<Id>)
    requires UniqueIds(groups)
    ensures forall g :: g in Children(groups, parent) <==> g in groups && Parent(Ids(groups), g) == parent
    ensures UniqueIds(Children(groups, parent)) && Sorting.InOrder(Children(groups, parent), BY_NAME)
  {
    var among := ChildrenAmong(Ids(groups), groups, parent);
    AmongAre(Ids(groups), groups, parent);
    var sorted := Children(groups, parent);
    Sorting.SortSorts(among, BY_NAME);
    Sorting.SameElements(among, sorted);
    Sorting.UniqueSpread(among, sorted, ID);
  }

  lemma {:induction false} AmongInOrder(ids: set<Id>, groups: seq<Group>, parent: Option<Id>, k: nat, l: nat)
    returns (i: nat, j: nat)
    requires k < l < |ChildrenAmong(ids, groups, parent)|
    ensures i < j < |groups| && groups[i] == ChildrenAmong(ids, groups, parent)[k]
    ensures groups[j] == ChildrenAmong(ids, groups, parent)[l]
    decreases |groups|
  {
    var front := groups[..|groups| - 1];
    var among := ChildrenAmong(ids, front, parent);
    if l < |among| {
      i, j := AmongInOrder(ids, front, parent, k, l);
    } else {
      AmongAre(ids, front, parent);
      assert among[k] in front;
      i :| 0 <= i < |front| && front[i] == among[k];
      j := |front|;
    }
  }

  /** Siblings are listed by name upwards, and those with the same name as they were given. */
  lemma {:induction false} SiblingsByName(groups: seq<Group>, parent: Option<Id>, m: nat, n: nat)
    requires UniqueIds(groups) && m < n < |Children(groups, parent)|
    ensures var first, second := Children(groups, parent)[m], Children(groups, parent)[n];
      && first.name <= second.name
      && (first.name == second.name ==>
            exists i, j :: 0 <= i < j < |groups| && groups[i] == first && groups[j] == second)
  {
    ChildrenAre(groups, parent);
    var siblings := Children(groups, parent);
    if siblings[m].name == siblings[n].name {
      var among := ChildrenAmong(Ids(groups), groups, parent);
      var k, l := Sorting.TiesKeepOrder(among, BY_NAME, m, n);
      var i, j := AmongInOrder(Ids(groups), groups, parent, k, l);
    }
  }

  // ---------------------------------------------------------------------------------------------
  // The walk
  // ---------------------------------------------------------------------------------------------

  datatype Walked = Walked(rows: seq<Row>, ids: set<Id>)

  /** Lists the groups and, below each, its children, leaving out whatever was listed before. */
  function Walk(groups: seq<Group>, list: seq<Group>, depth: nat, prefix: seq<nat>, walked: set<Id>): (r: Walked)
    ensures walked <= r.ids
    decreases Ids(groups) - walked, |list|
  {
    if list == [] then Walked([], walked)
    else
      var g := list[0];
      if g.id in walked || g.id !in Ids(groups) then Walk(groups, list[1..], depth, prefix, walked)
      else
        var below := Walk(groups, Children(groups, Some(g.id)), depth + 1, prefix + [g.name], walked + {g.id});
        var after := Walk(groups, list[1..], depth, prefix, below.ids);
        Walked([Row(g, depth, prefix + [g.name])] + below.rows + after.rows, after.ids)
  }

  /** Roots first, then whatever only a loop leads to. */
  function Rows(groups: seq<Group>): seq<Row> {
    var roots := Walk(groups, Children(groups, None), 0, [], {});
    roots.rows + Walk(groups, groups, 0, [], roots.ids).rows
  }

  ghost function RowIds(rows: seq<Row>): set<Id> {
    set i | 0 <= i < |rows| :: rows[i].group.id
  }

  lemma {:induction false} RowIdsJoin(a: seq<Row>, b: seq<Row>)
    ensures RowIds(a + b) == RowIds(a) + RowIds(b)
  {
    forall id | id in RowIds(a) + RowIds(b) ensures id in RowIds(a + b) {
      if id in RowIds(a) {
        var i :| 0 <= i < |a| && a[i].group.id == id;
        assert (a + b)[i].group.id == id;
      } else {
        var i :| 0 <= i < |b| && b[i].group.id == id;
        assert (a + b)[|a| + i].group.id == id;
      }
    }
  }

  ghost predicate UniqueRows(rows: seq<Row>) {
    forall i, j :: 0 <= i < j < |rows| ==> rows[i].group.id != rows[j].group.id
  }

  lemma {:induction false} UniqueJoin(a: seq<Row>, b: seq<Row>)
    requires UniqueRows(a) && UniqueRows(b) && RowIds(a) !! RowIds(b)
    ensures UniqueRows(a + b)
  {
    forall i, j | 0 <= i < |a| && 0 <= j < |b| ensures a[i].group.id != b[j].group.id {
      assert a[i].group.id in RowIds(a) && b[j].group.id in RowIds(b);
    }
  }

  ghost predicate AllIn(list: seq<Group>, groups: seq<Group>) {
    forall i :: 0 <= i < |list| ==> list[i] in groups
  }

  ghost predicate RowsFrom(rows: seq<Row>, groups: seq<Group>) {
    forall i :: 0 <= i < |rows| ==> rows[i].group in groups
  }

  /** The walk lists what it had not listed before, once each, and nothing of the list is left out. */
  lemma {:induction false} WalkListsOnce(
      groups: seq<Group>, list: seq<Group>, depth: nat, prefix: seq<nat>, walked: set<Id>)
    requires UniqueIds(groups) && AllIn(list, groups)
    ensures var r := Walk(groups, list, depth, prefix, walked);
      && UniqueRows(r.rows) && RowsFrom(r.rows, groups)
      && r.ids == walked + RowIds(r.rows) && walked !! RowIds(r.rows)
      && (forall i :: 0 <= i < |list| ==> list[i].id in r.ids)
    decreases Ids(groups) - walked, |list|
  {
    if list != [] {
      var g := list[0];
      assert g.id in Ids(groups);
      forall i | 0 <= i < |list[1..]| ensures list[1..][i] in groups {
        assert list[1..][i] == list[i + 1];
      }
      if g.id in walked {
        WalkListsOnce(groups, list[1..], depth, prefix, walked);
      } else {
        var children := Children(groups, Some(g.id));
        ChildrenAre(groups, Some(g.id));
        WalkListsOnce(groups, children, depth + 1, prefix + [g.name], walked + {g.id});
        var below := Walk(groups, children, depth + 1, prefix + [g.name], walked + {g.id});
        WalkListsOnce(groups, list[1..], depth, prefix, below.ids);
        var after := Walk(groups, list[1..], depth, prefix, below.ids);
        JoinWalks(Row(g, depth, prefix + [g.name]), below.rows, after.rows, walked);
      }
      forall i | 0 < i < |list| ensures list[i].id in Walk(groups, list, depth, prefix, walked).ids {
        assert list[i] == list[1..][i - 1];
      }
    }
  }

  lemma {:induction false} JoinWalks(row: Row, below: seq<Row>, after: seq<Row>, walked: set<Id>)
    requires UniqueRows(below) && UniqueRows(after) && row.group.id !in walked
    requires walked + {row.group.id} !! RowIds(below) && walked + {row.group.id} + RowIds(below) !! RowIds(after)
    ensures UniqueRows([row] + below + after)
    ensures RowIds([row] + below + after) == {row.group.id} + RowIds(below) + RowIds(after)
  {
    assert RowIds([row]) == {row.group.id} by {
      assert [row][0] == row;
    }
    UniqueJoin([row], below);
    RowIdsJoin([row], below);
    UniqueJoin([row] + below, after);
    RowIdsJoin([row] + below, after);
  }

  /** Every tag is listed exactly once, whatever the parents are, loops included. */
  lemma {:induction false} EveryGroupOnce(groups: seq<Group>)
    requires UniqueIds(groups)
    ensures UniqueRows(Rows(groups)) && RowsFrom(Rows(groups), groups) && RowIds(Rows(groups)) == Ids(groups)
    ensures |Rows(groups)| == |groups|
  {
    ChildrenAre(groups, None);
    WalkListsOnce(groups, Children(groups, None), 0, [], {});
    var roots := Walk(groups, Children(groups, None), 0, [], {});
    WalkListsOnce(groups, groups, 0, [], roots.ids);
    var rest := Walk(groups, groups, 0, [], roots.ids);
    UniqueJoin(roots.rows, rest.rows);
    RowIdsJoin(roots.rows, rest.rows);
    SameCount(roots.rows + rest.rows, groups);
  }

  lemma {:induction false} SameCount(rows: seq<Row>, groups: seq<Group>)
    requires UniqueRows(rows) && UniqueIds(groups) && RowIds(rows) == Ids(groups)
    ensures |rows| == |groups|
  {
    CountRows(rows);
    CountGroups(groups);
  }

  lemma {:induction false} CountRows(rows: seq<Row>)
    requires UniqueRows(rows)
    ensures |RowIds(rows)| == |rows|
    decreases |rows|
  {
    if rows != [] {
      var front, last := rows[..|rows| - 1], rows[|rows| - 1];
      CountRows(front);
      assert rows == front + [last];
      RowIdsJoin(front, [last]);
      assert RowIds([last]) == {last.group.id} by {
        assert [last][0] == last;
      }
      assert last.group.id !in RowIds(front);
    }
  }

  lemma {:induction false} CountGroups(groups: seq<Group>)
    requires UniqueIds(groups)
    ensures |Ids(groups)| == |groups|
    decreases |groups|
  {
    if groups != [] {
      var front, last := groups[..|groups| - 1], groups[|groups| - 1];
      CountGroups(front);
      forall id | id in Ids(groups) ensures id in Ids(front) + {last.id} {
        var i :| 0 <= i < |groups| && groups[i].id == id;
        assert i < |front| ==> front[i] == groups[i];
      }
      forall id | id in Ids(front) ensures id in Ids(groups) {
        var i :| 0 <= i < |front| && front[i].id == id;
        assert groups[i] == front[i];
      }
      assert Ids(groups) == Ids(front) + {last.id};
      assert last.id !in Ids(front);
    }
  }
}
