/** Tags whose parents form no loop: a tag's branch is the block of rows below it, and reparenting keeps it that way. */
module TagForest {
  import opened Options
  import opened TagRows

  /** The stored parent of every tag. */
  type Links = map<Id, Option<Id>>

  function LinksOf(groups: seq<Group>): Links {
    if groups == [] then map[]
    else LinksOf(groups[..|groups| - 1])[groups[|groups| - 1].id := groups[|groups| - 1].parentId]
  }

  /** The parent, unless it is missing. */
  function Up(links: Links, x: Id): Option<Id> {
    if x in links && links[x].Some? && links[x].value in links then links[x] else None
  }

  ghost predicate Ranked(links: Links, rank: map<Id, nat>) {
    forall x :: x in links ==>
      && x in rank
      && (Up(links, x).Some? ==> Up(links, x).value in rank && rank[Up(links, x).value] < rank[x])
  }

  /** No tag is above itself. */
  ghost predicate Forest(links: Links) {
    exists rank: map<Id, nat> :: Ranked(links, rank)
  }

  ghost predicate IsChain(links: Links, chain: seq<Id>, x: Id, a: Id) {
    && chain != [] && chain[0] == x && chain[|chain| - 1] == a
    && forall i :: 0 <= i < |chain| - 1 ==> Up(links, chain[i]) == Some(chain[i + 1])
  }

  /** Some number of parent links, possibly none, leads from `x` to `a`. */
  ghost predicate Descends(links: Links, x: Id, a: Id) {
    exists chain: seq<Id> :: IsChain(links, chain, x, a)
  }

  ghost function Branch(links: Links, a: Id): set<Id> {
    set x | x in links && Descends(links, x, a)
  }

  lemma {:induction false} LinksAre(groups: seq<Group>)
    requires UniqueIds(groups)
    ensures LinksOf(groups).Keys == Ids(groups)
    ensures forall i :: 0 <= i < |groups| ==> LinksOf(groups)[groups[i].id] == groups[i].parentId
    decreases |groups|
  {
    if groups != [] {
      var front, last := groups[..|groups| - 1], groups[|groups| - 1];
      LinksAre(front);
      forall i | 0 <= i < |front| ensures front[i] == groups[i] {}
      forall id ensures id in LinksOf(groups).Keys <==> id in Ids(groups) {
        if id in Ids(front) {
          var i :| 0 <= i < |front| && front[i].id == id;
          assert groups[i].id == id;
        }
        if id in Ids(groups) {
          var i :| 0 <= i < |groups| && groups[i].id == id;
          assert i < |front| ==> front[i].id == id;
        }
      }
    }
  }

  lemma {:induction false} UpIsParent(groups: seq<Group>, g: Group)
    requires UniqueIds(groups) && g in groups
    ensures g.id in LinksOf(groups) && Up(LinksOf(groups), g.id) == Parent(Ids(groups), g)
  {
    LinksAre(groups);
    var i :| 0 <= i < |groups| && groups[i] == g;
    assert g.id in Ids(groups);
  }

  // ---------------------------------------------------------------------------------------------
  // Descending
  // ---------------------------------------------------------------------------------------------

  /** The same relation, by recursion along the ranks. */
  ghost predicate Under(links: Links, rank: map<Id, nat>, x: Id, a: Id)
    requires Ranked(links, rank)
    decreases if x in rank then rank[x] else 0
  {
    x in links && (x == a || (Up(links, x).Some? && Under(links, rank, Up(links, x).value, a)))
  }

  lemma {:induction false} UnderRank(links: Links, rank: map<Id, nat>, x: Id, a: Id)
    requires Ranked(links, rank) && Under(links, rank, x, a)
    ensures a in links && x in links && rank[a] <= rank[x] && (x != a ==> rank[a] < rank[x])
    decreases rank[x]
  {
    if x != a {
      UnderRank(links, rank, Up(links, x).value, a);
    }
  }

  lemma {:induction false} UnderDescends(links: Links, rank: map<Id, nat>, x: Id, a: Id)
    requires Ranked(links, rank) && Under(links, rank, x, a)
    ensures Descends(links, x, a)
    decreases if x in rank then rank[x] else 0
  {
    if x == a {
      assert IsChain(links, [x], x, a);
    } else {
      var p := Up(links, x).value;
      UnderDescends(links, rank, p, a);
      var chain :| IsChain(links, chain, p, a);
      assert IsChain(links, [x] + chain, x, a);
    }
  }

  lemma {:induction false} DescendsUnder(links: Links, rank: map<Id, nat>, chain: seq<Id>, x: Id, a: Id)
    requires Ranked(links, rank) && IsChain(links, chain, x, a) && x in links
    ensures Under(links, rank, x, a)
    decreases |chain|
  {
    if |chain| > 1 {
      assert Up(links, chain[0]) == Some(chain[1]);
      forall i | 0 <= i < |chain[1..]| - 1 ensures Up(links, chain[1..][i]) == Some(chain[1..][i + 1]) {
        assert Up(links, chain[i + 1]) == Some(chain[i + 2]);
      }
      DescendsUnder(links, rank, chain[1..], chain[1], a);
    }
  }

  lemma {:induction false} BranchIsUnder(links: Links, rank: map<Id, nat>, x: Id, a: Id)
    requires Ranked(links, rank)
    ensures x in Branch(links, a) <==> Under(links, rank, x, a)
  {
    if Under(links, rank, x, a) {
      UnderDescends(links, rank, x, a);
    }
    if x in Branch(links, a) {
      var chain :| IsChain(links, chain, x, a);
      DescendsUnder(links, rank, chain, x, a);
    }
  }

  /** Siblings have no descendant in common. */
  lemma {:induction false} SiblingsApart(links: Links, rank: map<Id, nat>, x: Id, a: Id, b: Id)
    requires Ranked(links, rank) && Under(links, rank, x, a) && Under(links, rank, x, b) && Up(links, a) == Up(links, b)
    ensures a == b
    decreases if x in rank then rank[x] else 0
  {
    if a != b {
      if x == a {
        UnderRank(links, rank, Up(links, a).value, b);
      } else if x == b {
        UnderRank(links, rank, Up(links, b).value, a);
      } else {
        SiblingsApart(links, rank, Up(links, x).value, a, b);
      }
    }
  }

  /** Below a tag lie its children and what is below them. */
  lemma {:induction false} UnderChild(links: Links, rank: map<Id, nat>, x: Id, a: Id) returns (child: Id)
    requires Ranked(links, rank) && Under(links, rank, x, a) && x != a
    ensures child in links && Up(links, child) == Some(a) && Under(links, rank, x, child)
    decreases if x in rank then rank[x] else 0
  {
    var p := Up(links, x).value;
    if p == a {
      child := x;
    } else {
      child := UnderChild(links, rank, p, a);
    }
  }

  lemma {:induction false} ChildUnder(links: Links, rank: map<Id, nat>, x: Id, child: Id, a: Id)
    requires Ranked(links, rank) && Under(links, rank, x, child) && Up(links, child) == Some(a)
    ensures Under(links, rank, x, a) && x != a
    decreases if x in rank then rank[x] else 0
  {
    UnderRank(links, rank, x, child);
    if x != child {
      ChildUnder(links, rank, Up(links, x).value, child, a);
    }
  }

  lemma {:induction false} UnderSomeRoot(links: Links, rank: map<Id, nat>, x: Id) returns (root: Id)
    requires Ranked(links, rank) && x in links
    ensures root in links && Up(links, root) == None && Under(links, rank, x, root)
    decreases rank[x]
  {
    if Up(links, x).None? {
      root := x;
    } else {
      root := UnderSomeRoot(links, rank, Up(links, x).value);
    }
  }

  // ---------------------------------------------------------------------------------------------
  // Blocks of rows
  // ---------------------------------------------------------------------------------------------

  /** The rows after `i` that lie deeper, up to `e`. */
  ghost predicate IsBlock(rows: seq<Row>, i: nat, e: nat) {
    && i < e <= |rows|
    && (forall k :: i < k < e ==> rows[k].depth > rows[i].depth)
    && (e < |rows| ==> rows[e].depth <= rows[i].depth)
  }

  ghost predicate BlockHolds(links: Links, rank: map<Id, nat>, rows: seq<Row>, i: nat, e: nat)
    requires Ranked(links, rank)
  {
    && IsBlock(rows, i, e)
    && forall x :: x in RowIds(rows[i + 1..e]) <==> x != rows[i].group.id && Under(links, rank, x, rows[i].group.id)
  }

  ghost predicate HasBlock(links: Links, rank: map<Id, nat>, rows: seq<Row>, i: nat)
    requires Ranked(links, rank)
  {
    exists e: nat :: BlockHolds(links, rank, rows, i, e)
  }

  /** The block below every row lists just what descends from it. */
  ghost predicate BlocksHold(links: Links, rank: map<Id, nat>, rows: seq<Row>)
    requires Ranked(links, rank)
  {
    forall i :: 0 <= i < |rows| ==> HasBlock(links, rank, rows, i)
  }

  ghost predicate Deep(rows: seq<Row>, depth: nat) {
    (forall i :: 0 <= i < |rows| ==> rows[i].depth >= depth) && (rows != [] ==> rows[0].depth == depth)
  }

  /** A part's blocks are blocks of the whole when what follows the part lies no deeper than any of its rows. */
  lemma {:induction false} BlockOfPart(
      links: Links, rank: map<Id, nat>, rows: seq<Row>, part: seq<Row>, at: nat, i: nat)
    requires Ranked(links, rank) && at + |part| <= |rows| && rows[at..at + |part|] == part
    requires i < |part| && HasBlock(links, rank, part, i)
    requires at + |part| < |rows| ==> rows[at + |part|].depth <= part[i].depth
    ensures HasBlock(links, rank, rows, at + i)
  {
    var e: nat :| BlockHolds(links, rank, part, i, e);
    ShiftedBlock(rows, part, at, i, e);
    assert BlockHolds(links, rank, rows, at + i, at + e);
  }

  lemma {:induction false} ShiftedBlock(rows: seq<Row>, part: seq<Row>, at: nat, i: nat, e: nat)
    requires at + |part| <= |rows| && rows[at..at + |part|] == part && IsBlock(part, i, e)
    requires at + |part| < |rows| ==> rows[at + |part|].depth <= part[i].depth
    ensures IsBlock(rows, at + i, at + e) && rows[at + i] == part[i] && rows[at + i + 1..at + e] == part[i + 1..e]
  {
    forall k | 0 <= k < |part| ensures rows[at + k] == part[k] {
      assert rows[at..at + |part|][k] == rows[at + k];
    }
    forall k | at + i < k < at + e ensures rows[k].depth > rows[at + i].depth {
      assert rows[k] == part[k - at];
    }
    assert at + e < |rows| && e < |part| ==> rows[at + e] == part[e];
    var whole, piece := rows[at + i + 1..at + e], part[i + 1..e];
    assert |whole| == |piece|;
    forall k | 0 <= k < |piece| ensures whole[k] == piece[k] {
      assert rows[at + (i + 1 + k)] == part[i + 1 + k];
    }
  }

  lemma {:induction false} JoinBlocks(links: Links, rank: map<Id, nat>, row: Row, below: seq<Row>, after: seq<Row>)
    requires Ranked(links, rank) && BlocksHold(links, rank, below) && BlocksHold(links, rank, after)
    requires Deep(below, row.depth + 1) && Deep(after, row.depth)
    requires forall x :: x in RowIds(below) <==> x != row.group.id && Under(links, rank, x, row.group.id)
    ensures BlocksHold(links, rank, [row] + below + after)
    ensures Deep([row] + below + after, row.depth)
  {
    var rows, s := [row] + below + after, 1 + |below|;
    assert rows[1..s] == below && rows[s..s + |after|] == after;
    forall i | 0 <= i < |rows| ensures HasBlock(links, rank, rows, i) {
      if i == 0 {
        assert BlockHolds(links, rank, rows, 0, s);
      } else if i < s {
        BlockOfPart(links, rank, rows, below, 1, i - 1);
      } else {
        BlockOfPart(links, rank, rows, after, s, i - s);
      }
    }
  }

  // ---------------------------------------------------------------------------------------------
  // The walk over a forest
  // ---------------------------------------------------------------------------------------------

  /** Siblings none of whose branches has been touched yet. */
  ghost predicate Untouched(links: Links, rank: map<Id, nat>, list: seq<Group>, walked: set<Id>)
    requires Ranked(links, rank)
  {
    forall i, x :: 0 <= i < |list| && x in walked ==> !Under(links, rank, x, list[i].id)
  }

  ghost predicate Siblings(links: Links, list: seq<Group>, up: Option<Id>) {
    UniqueIds(list) && forall i :: 0 <= i < |list| ==> list[i].id in links && Up(links, list[i].id) == up
  }

  ghost predicate UnderOne(links: Links, rank: map<Id, nat>, list: seq<Group>, x: Id)
    requires Ranked(links, rank)
  {
    exists i :: 0 <= i < |list| && Under(links, rank, x, list[i].id)
  }

  lemma {:induction false} ChildrenUntouched(groups: seq<Group>, rank: map<Id, nat>, g: Group, walked: set<Id>)
    requires UniqueIds(groups) && g in groups && Ranked(LinksOf(groups), rank)
    requires forall x :: x in walked ==> !Under(LinksOf(groups), rank, x, g.id)
    ensures var links, children := LinksOf(groups), Children(groups, Some(g.id));
      && Siblings(links, children, Some(g.id)) && AllIn(children, groups)
      && Untouched(links, rank, children, walked + {g.id})
      && forall x :: UnderOne(links, rank, children, x) <==> x != g.id && Under(links, rank, x, g.id)
  {
    var links, children := LinksOf(groups), Children(groups, Some(g.id));
    ChildrenAre(groups, Some(g.id));
    forall i | 0 <= i < |children|
      ensures children[i] in groups && children[i].id in links && Up(links, children[i].id) == Some(g.id)
    {
      UpIsParent(groups, children[i]);
    }
    forall i, x | 0 <= i < |children| && Under(links, rank, x, children[i].id)
      ensures x !in walked + {g.id} && Under(links, rank, x, g.id)
    {
      ChildUnder(links, rank, x, children[i].id, g.id);
    }
    forall x | x != g.id && Under(links, rank, x, g.id) ensures UnderOne(links, rank, children, x) {
      var c := UnderChild(links, rank, x, g.id);
      ChildListed(groups, c, g.id);
    }
  }

  lemma {:induction false} ChildListed(groups: seq<Group>, c: Id, parent: Id)
    requires UniqueIds(groups) && c in LinksOf(groups) && Up(LinksOf(groups), c) == Some(parent)
    ensures exists i :: 0 <= i < |Children(groups, Some(parent))| && Children(groups, Some(parent))[i].id == c
  {
    ChildrenAre(groups, Some(parent));
    LinksAre(groups);
    var k :| 0 <= k < |groups| && groups[k].id == c;
    UpIsParent(groups, groups[k]);
    assert groups[k] in Children(groups, Some(parent));
  }

  lemma {:induction false} RestUntouched(
      links: Links, rank: map<Id, nat>, list: seq<Group>, up: Option<Id>, walked: set<Id>, below: set<Id>)
    requires Ranked(links, rank) && list != [] && Siblings(links, list, up) && Untouched(links, rank, list, walked)
    requires forall x :: x in below ==> Under(links, rank, x, list[0].id)
    ensures Siblings(links, list[1..], up) && Untouched(links, rank, list[1..], walked + below)
  {
    forall i, x | 0 <= i < |list[1..]| && x in walked + below ensures !Under(links, rank, x, list[1..][i].id) {
      assert list[1..][i] == list[i + 1];
      if x in below && Under(links, rank, x, list[i + 1].id) {
        SiblingsApart(links, rank, x, list[0].id, list[i + 1].id);
      }
    }
  }

  /** Over a forest the walk lists exactly the branches of the siblings, each tag's own branch in one block. */
  lemma {:induction false} WalkBranches(
      groups: seq<Group>, rank: map<Id, nat>, list: seq<Group>, depth: nat, prefix: seq<nat>, walked: set<Id>,
      up: Option<Id>)
    requires UniqueIds(groups) && Ranked(LinksOf(groups), rank) && AllIn(list, groups)
    requires Siblings(LinksOf(groups), list, up) && Untouched(LinksOf(groups), rank, list, walked)
    ensures var links, r := LinksOf(groups), Walk(groups, list, depth, prefix, walked);
      && r.ids == walked + RowIds(r.rows)
      && (forall x :: x in RowIds(r.rows) <==> UnderOne(links, rank, list, x))
      && BlocksHold(links, rank, r.rows) && Deep(r.rows, depth)
    decreases Ids(groups) - walked, |list|
  {
    var links := LinksOf(groups);
    WalkListsOnce(groups, list, depth, prefix, walked);
    if list != [] {
      var g := list[0];
      LinksAre(groups);
      assert Under(links, rank, g.id, list[0].id);
      assert g.id in Ids(groups) && g.id !in walked;
      ChildrenUntouched(groups, rank, g, walked);
      var children := Children(groups, Some(g.id));
      WalkBranches(groups, rank, children, depth + 1, prefix + [g.name], walked + {g.id}, Some(g.id));
      var below := Walk(groups, children, depth + 1, prefix + [g.name], walked + {g.id});
      RestUntouched(links, rank, list, up, walked, {g.id} + RowIds(below.rows));
      assert below.ids == walked + ({g.id} + RowIds(below.rows));
      forall i | 0 <= i < |list[1..]| ensures list[1..][i] in groups {
        assert list[1..][i] == list[i + 1];
      }
      WalkBranches(groups, rank, list[1..], depth, prefix, below.ids, up);
      var after := Walk(groups, list[1..], depth, prefix, below.ids);
      var row := Row(g, depth, prefix + [g.name]);
      JoinBlocks(links, rank, row, below.rows, after.rows);
      FirstOrRest(links, rank, list, row, below.rows, after.rows);
    }
  }

  lemma {:induction false} FirstOrRest(
      links: Links, rank: map<Id, nat>, list: seq<Group>, row: Row, below: seq<Row>, after: seq<Row>)
    requires Ranked(links, rank) && list != [] && row.group == list[0] && list[0].id in links
    requires forall x :: x in RowIds(below) <==> x != list[0].id && Under(links, rank, x, list[0].id)
    requires forall x :: x in RowIds(after) <==> UnderOne(links, rank, list[1..], x)
    ensures forall x :: x in RowIds([row] + below + after) <==> UnderOne(links, rank, list, x)
  {
    RowIdsJoin([row], below);
    RowIdsJoin([row] + below, after);
    assert RowIds([row]) == {row.group.id} by {
      assert [row][0] == row;
    }
    forall x
      ensures UnderOne(links, rank, list, x) <==>
          Under(links, rank, x, list[0].id) || UnderOne(links, rank, list[1..], x)
    {
      if i :| 0 <= i < |list| && Under(links, rank, x, list[i].id) {
        assert i > 0 ==> list[1..][i - 1] == list[i];
      }
      if i :| 0 <= i < |list[1..]| && Under(links, rank, x, list[1..][i].id) {
        assert list[1..][i] == list[i + 1];
      }
    }
  }
}
