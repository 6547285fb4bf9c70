/** The round-robin queue: everyone's first print, then everyone's second, and so on. */
module Queue {
  import opened Options
  import Sorting

  /** Texts are compared by their place in the collation order; ids are all different, names need not be. */
  type Text = nat

  /** `order` is the print's place chosen for the stage, if it has one. */
  datatype Item = Item(id: Text, requesterId: Option<Text>, requesterName: Option<Text>, order: Option<int>,
    createdAt: int)

  datatype Priority = Priority(position: nat, queuedAt: int, slotId: Text)

  function QueueOrder(x: Item): int {
    if x.order.Some? then x.order.value else -x.createdAt
  }

  function Requester(x: Item): Text {
    if x.requesterId.Some? then x.requesterId.value else x.id
  }

  const BY_ORDER: (Item, Item) -> bool :=
    (x: Item, y: Item) => QueueOrder(x) < QueueOrder(y) || (QueueOrder(x) == QueueOrder(y) && x.id < y.id)

  const NEWEST_FIRST: (Item, Item) -> bool :=
    (x: Item, y: Item) => x.createdAt > y.createdAt || (x.createdAt == y.createdAt && x.id < y.id)

  const ID: Item -> nat := (x: Item) => x.id

  ghost predicate UniqueIds(xs: seq<Item>) {
    Sorting.UniqueBy(xs, ID)
  }

  function OwnedBy(xs: seq<Item>, r: Text): seq<Item> {
    if xs == [] then [] else OwnedBy(xs[..|xs| - 1], r) + if Requester(xs[|xs| - 1]) == r then [xs[|xs| - 1]] else []
  }

  /** A requester's prints as they rank them, and their prints as slots, the newest first. */
  function Ordered(xs: seq<Item>, r: Text): seq<Item> {
    Sorting.Sort(OwnedBy(xs, r), BY_ORDER)
  }

  function Slots(xs: seq<Item>, r: Text): seq<Item> {
    Sorting.Sort(OwnedBy(xs, r), NEWEST_FIRST)
  }

  // ---------------------------------------------------------------------------------------------
  // A requester's prints
  // ---------------------------------------------------------------------------------------------

  lemma {:induction false} OwnedAre(xs: seq<Item>, r: Text)
    ensures forall x :: x in OwnedBy(xs, r) <==> x in xs && Requester(x) == r
    ensures UniqueIds(xs) ==> UniqueIds(OwnedBy(xs, r))
    decreases |xs|
  {
    if xs != [] {
      var front, last := xs[..|xs| - 1], xs[|xs| - 1];
      assert xs == front + [last];
      OwnedAre(front, r);
      var owned := OwnedBy(front, r);
      if UniqueIds(xs) {
        forall i | 0 <= i < |owned| ensures owned[i].id != last.id {
          assert owned[i] in front;
        }
      }
    }
  }

  /** Both orders list just the requester's prints, each once. */
  lemma {:induction false} QueuesAre(xs: seq<Item>, r: Text)
    requires UniqueIds(xs)
    ensures UniqueIds(Ordered(xs, r)) && UniqueIds(Slots(xs, r))
    ensures |Ordered(xs, r)| == |Slots(xs, r)| == |OwnedBy(xs, r)|
    ensures forall x :: x in Ordered(xs, r) <==> x in xs && Requester(x) == r
    ensures forall x :: x in Slots(xs, r) <==> x in xs && Requester(x) == r
    ensures Sorting.InOrder(Ordered(xs, r), BY_ORDER) && Sorting.InOrder(Slots(xs, r), NEWEST_FIRST)
  {
    OwnedAre(xs, r);
    Sorting.SortSorts(OwnedBy(xs, r), BY_ORDER);
    Sorting.SortSorts(OwnedBy(xs, r), NEWEST_FIRST);
    Sorting.SameElements(OwnedBy(xs, r), Ordered(xs, r));
    Sorting.SameElements(OwnedBy(xs, r), Slots(xs, r));
    Sorting.UniqueSpread(OwnedBy(xs, r), Ordered(xs, r), ID);
    Sorting.UniqueSpread(OwnedBy(xs, r), Slots(xs, r), ID);
  }

  // ---------------------------------------------------------------------------------------------
  // Priorities
  // ---------------------------------------------------------------------------------------------

  /** The requester's k-th print is at position k and takes the k-th slot. */
  ghost predicate Assigned(xs: seq<Item>, r: Text, priorities: map<Text, Priority>, n: nat)
    requires n <= |Ordered(xs, r)| && |Ordered(xs, r)| == |Slots(xs, r)|
  {
    forall k :: 0 <= k < n ==>
      var x, slot := Ordered(xs, r)[k], Slots(xs, r)[k];
      x.id in priorities && priorities[x.id] == Priority(k, slot.createdAt, slot.id)
  }

  /** Every print has the position and slot its requester's orders give it, and nothing else has one. */
  ghost predicate Prioritized(xs: seq<Item>, priorities: map<Text, Priority>) {
    && (forall r :: |Ordered(xs, r)| == |Slots(xs, r)| && Assigned(xs, r, priorities, |Ordered(xs, r)|))
    && (forall id :: id in priorities ==> exists i :: 0 <= i < |xs| && xs[i].id == id)
  }

  method ByRequester(xs: seq<Item>) returns (owned: map<Text, seq<Item>>)
    ensures forall r :: ListOf(owned, r) == OwnedBy(xs, r)
  {
    owned := map[];
    for i := 0 to |xs|
      invariant forall r :: ListOf(owned, r) == OwnedBy(xs[..i], r)
    {
      assert xs[..i + 1][..i] == xs[..i];
      var r := Requester(xs[i]);
      owned := owned[r := ListOf(owned, r) + [xs[i]]];
    }
    assert xs[..|xs|] == xs;
  }

  ghost predicate KnownIds(xs: seq<Item>, priorities: map<Text, Priority>) {
    forall id :: id in priorities ==> exists i :: 0 <= i < |xs| && xs[i].id == id
  }

  /** Positions of one requester's prints; those of the others stay. */
  method Assign(
      xs: seq<Item>, r: Text, owned: seq<Item>, before: map<Text, Priority>) returns (priorities: map<Text, Priority>)
    requires UniqueIds(xs) && owned == OwnedBy(xs, r) && KnownIds(xs, before)
    ensures |Ordered(xs, r)| == |Slots(xs, r)| && Assigned(xs, r, priorities, |Ordered(xs, r)|)
    ensures forall x :: x in xs && Requester(x) != r ==> Look(priorities, x.id) == Look(before, x.id)
    ensures KnownIds(xs, priorities)
  {
    QueuesAre(xs, r);
    var ordered := Sorting.Sorted(owned, BY_ORDER);
    var slots := Sorting.Sorted(owned, NEWEST_FIRST);
    priorities := before;
    for position := 0 to |ordered|
      invariant Assigned(xs, r, priorities, position) && KnownIds(xs, priorities)
      invariant forall x :: x in xs && Requester(x) != r ==> Look(priorities, x.id) == Look(before, x.id)
    {
      var x, slot := ordered[position], slots[position];
      AssignNext(xs, r, priorities, position);
      OthersKept(xs, r, x, before, priorities, Priority(position, slot.createdAt, slot.id));
      priorities := priorities[x.id := Priority(position, slot.createdAt, slot.id)];
    }
  }

  lemma {:induction false} AssignNext(xs: seq<Item>, r: Text, priorities: map<Text, Priority>, n: nat)
    requires UniqueIds(xs) && |Ordered(xs, r)| == |Slots(xs, r)| && n < |Ordered(xs, r)|
    requires Assigned(xs, r, priorities, n)
    ensures var x, slot := Ordered(xs, r)[n], Slots(xs, r)[n];
      Assigned(xs, r, priorities[x.id := Priority(n, slot.createdAt, slot.id)], n + 1)
  {
    QueuesAre(xs, r);
  }

  lemma {:induction false} OthersKept(
      xs: seq<Item>, r: Text, x: Item, before: map<Text, Priority>, priorities: map<Text, Priority>, p: Priority)
    requires UniqueIds(xs) && x in xs && Requester(x) == r && KnownIds(xs, priorities)
    requires forall y :: y in xs && Requester(y) != r ==> Look(priorities, y.id) == Look(before, y.id)
    ensures KnownIds(xs, priorities[x.id := p])
    ensures forall y :: y in xs && Requester(y) != r ==> Look(priorities[x.id := p], y.id) == Look(before, y.id)
  {
    OtherIds(xs, x);
  }

  lemma {:induction false} OtherIds(xs: seq<Item>, x: Item)
    requires UniqueIds(xs) && x in xs
    ensures exists i :: 0 <= i < |xs| && xs[i].id == x.id
    ensures forall y :: y in xs && Requester(y) != Requester(x) ==> y.id != x.id
  {
    var k :| 0 <= k < |xs| && xs[k] == x;
    forall y | y in xs && Requester(y) != Requester(x) ensures y.id != x.id {
      var l :| 0 <= l < |xs| && xs[l] == y;
      assert k != l;
    }
  }

  lemma {:induction false} AssignedKept(
      xs: seq<Item>, r: Text, before: map<Text, Priority>, after: map<Text, Priority>, other: Text)
    requires UniqueIds(xs) && |Ordered(xs, other)| == |Slots(xs, other)|
    requires Assigned(xs, other, before, |Ordered(xs, other)|) && other != r
    requires forall x :: x in xs && Requester(x) != r ==> Look(after, x.id) == Look(before, x.id)
    ensures Assigned(xs, other, after, |Ordered(xs, other)|)
  {
    QueuesAre(xs, other);
    forall k | 0 <= k < |Ordered(xs, other)|
      ensures var x, slot := Ordered(xs, other)[k], Slots(xs, other)[k];
        x.id in after && after[x.id] == Priority(k, slot.createdAt, slot.id)
    {
      var x := Ordered(xs, other)[k];
      assert x in xs && Requester(x) == other;
      assert Look(after, x.id) == Look(before, x.id);
    }
  }

  ghost predicate Done(xs: seq<Item>, priorities: map<Text, Priority>, r: Text) {
    |Ordered(xs, r)| == |Slots(xs, r)| && Assigned(xs, r, priorities, |Ordered(xs, r)|)
  }

  method RequesterQueuePriorities(xs: seq<Item>) returns (priorities: map<Text, Priority>)
    requires UniqueIds(xs)
    ensures Prioritized(xs, priorities)
  {
    var owned := ByRequester(xs);
    priorities := map[];
    var rest := owned.Keys;
    forall r | r !in rest ensures Done(xs, priorities, r) {
      assert ListOf(owned, r) == OwnedBy(xs, r);
    }
    while rest != {}
      invariant rest <= owned.Keys && KnownIds(xs, priorities)
      invariant forall r :: r !in rest ==> Done(xs, priorities, r)
      decreases |rest|
    {
      var r :| r in rest;
      assert ListOf(owned, r) == OwnedBy(xs, r);
      var next := Assign(xs, r, owned[r], priorities);
      forall other | other !in rest - {r} ensures Done(xs, next, other) {
        if other != r {
          assert Done(xs, priorities, other);
          AssignedKept(xs, r, priorities, next, other);
        }
      }
      priorities := next;
      rest := rest - {r};
    }
    forall r ensures |Ordered(xs, r)| == |Slots(xs, r)| && Assigned(xs, r, priorities, |Ordered(xs, r)|) {
      assert Done(xs, priorities, r);
    }
  }

  /** Where a print stands among its requester's prints. */
  lemma {:induction false} PlaceOf(xs: seq<Item>, priorities: map<Text, Priority>, x: Item) returns (k: nat)
    requires UniqueIds(xs) && Prioritized(xs, priorities) && x in xs
    ensures k < |Ordered(xs, Requester(x))| == |Slots(xs, Requester(x))| && Ordered(xs, Requester(x))[k] == x
    ensures x.id in priorities
    ensures priorities[x.id] == Priority(k, Slots(xs, Requester(x))[k].createdAt, Slots(xs, Requester(x))[k].id)
  {
    var r := Requester(x);
    QueuesAre(xs, r);
    k :| 0 <= k < |Ordered(xs, r)| && Ordered(xs, r)[k] == x;
    assert Assigned(xs, r, priorities, |Ordered(xs, r)|);
  }

  ghost predicate HasPlace(xs: seq<Item>, priorities: map<Text, Priority>, r: Text, k: nat) {
    exists x :: x in xs && Requester(x) == r && x.id in priorities && priorities[x.id].position == k
  }

  ghost predicate TakesSlot(xs: seq<Item>, priorities: map<Text, Priority>, slot: Item) {
    exists x :: x in xs && Requester(x) == Requester(slot) && x.id in priorities
      && priorities[x.id].slotId == slot.id && priorities[x.id].queuedAt == slot.createdAt
  }

  lemma {:induction false} PositionsTaken(xs: seq<Item>, priorities: map<Text, Priority>, r: Text, k: nat)
    requires UniqueIds(xs) && Prioritized(xs, priorities)
    ensures HasPlace(xs, priorities, r, k) <==> k < |OwnedBy(xs, r)|
  {
    QueuesAre(xs, r);
    if k < |OwnedBy(xs, r)| {
      var x := Ordered(xs, r)[k];
      assert x in xs && Requester(x) == r;
      assert Assigned(xs, r, priorities, |Ordered(xs, r)|);
    }
    if HasPlace(xs, priorities, r, k) {
      var x :| x in xs && Requester(x) == r && x.id in priorities && priorities[x.id].position == k;
      var place := PlaceOf(xs, priorities, x);
    }
  }

  lemma {:induction false} SlotTaken(xs: seq<Item>, priorities: map<Text, Priority>, slot: Item)
    requires UniqueIds(xs) && Prioritized(xs, priorities) && slot in xs
    ensures TakesSlot(xs, priorities, slot)
  {
    var r := Requester(slot);
    QueuesAre(xs, r);
    var k :| 0 <= k < |Slots(xs, r)| && Slots(xs, r)[k] == slot;
    var x := Ordered(xs, r)[k];
    assert x in xs && Requester(x) == r;
    assert Assigned(xs, r, priorities, |Ordered(xs, r)|);
  }

  lemma {:induction false} NoneShared(xs: seq<Item>, priorities: map<Text, Priority>, x: Item, y: Item)
    requires UniqueIds(xs) && Prioritized(xs, priorities) && x in xs && y in xs && Requester(x) == Requester(y)
    requires x != y
    ensures x.id in priorities && y.id in priorities
    ensures priorities[x.id].position != priorities[y.id].position && priorities[x.id].slotId != priorities[y.id].slotId
  {
    var k := PlaceOf(xs, priorities, x);
    var l := PlaceOf(xs, priorities, y);
    QueuesAre(xs, Requester(x));
    assert k < l ==> ID(Slots(xs, Requester(x))[k]) != ID(Slots(xs, Requester(x))[l]);
    assert l < k ==> ID(Slots(xs, Requester(x))[l]) != ID(Slots(xs, Requester(x))[k]);
  }

  ghost predicate Apart(priorities: map<Text, Priority>, x: Item, y: Item) {
    && x.id in priorities && y.id in priorities
    && priorities[x.id].position != priorities[y.id].position && priorities[x.id].slotId != priorities[y.id].slotId
  }

  /** A requester's n prints take the positions 0 to n-1 and each of their slots, no two the same. */
  lemma {:induction false} PositionsAndSlots(xs: seq<Item>, priorities: map<Text, Priority>, r: Text)
    requires UniqueIds(xs) && Prioritized(xs, priorities)
    ensures forall k: nat :: HasPlace(xs, priorities, r, k) <==> k < |OwnedBy(xs, r)|
    ensures forall slot :: slot in xs && Requester(slot) == r ==> TakesSlot(xs, priorities, slot)
    ensures forall x, y :: x in xs && y in xs && Requester(x) == r && Requester(y) == r && x != y ==>
        Apart(priorities, x, y)
  {
    forall k: nat ensures HasPlace(xs, priorities, r, k) <==> k < |OwnedBy(xs, r)| {
      PositionsTaken(xs, priorities, r, k);
    }
    forall slot | slot in xs && Requester(slot) == r ensures TakesSlot(xs, priorities, slot) {
      SlotTaken(xs, priorities, slot);
    }
    forall x, y | x in xs && y in xs && Requester(x) == r && Requester(y) == r && x != y
      ensures Apart(priorities, x, y)
    {
      NoneShared(xs, priorities, x, y);
    }
  }

  /** A requester's positions follow the order they chose. */
  lemma {:induction false} PositionsFollowOrder(xs: seq<Item>, priorities: map<Text, Priority>, x: Item, y: Item)
    requires UniqueIds(xs) && Prioritized(xs, priorities) && x in xs && y in xs && Requester(x) == Requester(y)
    requires x != y
    ensures x.id in priorities && y.id in priorities
    ensures priorities[x.id].position < priorities[y.id].position <==> BY_ORDER(x, y)
  {
    var k := PlaceOf(xs, priorities, x);
    var l := PlaceOf(xs, priorities, y);
    QueuesAre(xs, Requester(x));
    assert k < l ==> !BY_ORDER(Ordered(xs, Requester(x))[l], Ordered(xs, Requester(x))[k]);
    assert l < k ==> !BY_ORDER(Ordered(xs, Requester(x))[k], Ordered(xs, Requester(x))[l]);
    IdsDiffer(xs, x, y);
  }

  /**
   * Of two prints of one requester the one with the smaller chosen place comes first; of two without a place the newer
   * one; a place competes with a print's age counted back from zero; and ids decide the rest.
   */
  lemma {:induction false} ChosenPlacesDecide(xs: seq<Item>, priorities: map<Text, Priority>, x: Item, y: Item)
    requires UniqueIds(xs) && Prioritized(xs, priorities) && x in xs && y in xs && Requester(x) == Requester(y)
    requires x != y
    ensures x.id in priorities && y.id in priorities
    ensures var first := priorities[x.id].position < priorities[y.id].position;
      && (x.order.Some? && y.order.Some? && x.order != y.order ==> (first <==> x.order.value < y.order.value))
      && (x.order.None? && y.order.None? && x.createdAt != y.createdAt ==> (first <==> x.createdAt > y.createdAt))
      && (x.order.Some? && y.order.None? && x.order.value + y.createdAt != 0 ==>
            (first <==> x.order.value + y.createdAt < 0))
      && (x.order.Some? && x.order == y.order ==> (first <==> x.id < y.id))
      && (x.order.None? && y.order.None? && x.createdAt == y.createdAt ==> (first <==> x.id < y.id))
      && (x.order.Some? && y.order.None? && x.order.value + y.createdAt == 0 ==> (first <==> x.id < y.id))
  {
    PositionsFollowOrder(xs, priorities, x, y);
  }

  /** Prints without a requester are each a requester of their own. */
  lemma {:induction false} RequestersAre(x: Item, y: Item)
    ensures x.requesterId.Some? && y.requesterId.Some? ==>
        (Requester(x) == Requester(y) <==> x.requesterId == y.requesterId)
    ensures x.requesterId.None? && y.requesterId.None? ==> (Requester(x) == Requester(y) <==> x.id == y.id)
  {
  }

  /** The earlier a requester's print comes, the newer is the slot it takes; ids decide between slots of one age. */
  lemma {:induction false} NewestSlotsFirst(xs: seq<Item>, priorities: map<Text, Priority>, x: Item, y: Item)
    requires UniqueIds(xs) && Prioritized(xs, priorities) && x in xs && y in xs && Requester(x) == Requester(y)
    ensures x.id in priorities && y.id in priorities
    ensures var p, q := priorities[x.id], priorities[y.id];
      p.position < q.position ==> p.queuedAt > q.queuedAt || (p.queuedAt == q.queuedAt && p.slotId < q.slotId)
  {
    var k := PlaceOf(xs, priorities, x);
    var l := PlaceOf(xs, priorities, y);
    var r := Requester(x);
    QueuesAre(xs, r);
    if k < l {
      assert !NEWEST_FIRST(Slots(xs, r)[l], Slots(xs, r)[k]);
      assert ID(Slots(xs, r)[k]) != ID(Slots(xs, r)[l]);
    }
  }

  lemma {:induction false} IdsDiffer(xs: seq<Item>, x: Item, y: Item)
    requires UniqueIds(xs) && x in xs && y in xs && x != y
    ensures x.id != y.id
  {
    var k :| 0 <= k < |xs| && xs[k] == x;
    var l :| 0 <= l < |xs| && xs[l] == y;
  }

  /** Another requester's prints do not matter to a requester's positions and slots. */
  lemma {:induction false} OthersDoNotMatter(
      xs: seq<Item>, ys: seq<Item>, before: map<Text, Priority>, after: map<Text, Priority>, x: Item)
    requires UniqueIds(xs) && UniqueIds(ys) && Prioritized(xs, before) && Prioritized(ys, after)
    requires x in xs && x in ys && OwnedBy(xs, Requester(x)) == OwnedBy(ys, Requester(x))
    ensures x.id in before && x.id in after && before[x.id] == after[x.id]
  {
    var k := PlaceOf(xs, before, x);
    var l := PlaceOf(ys, after, x);
    QueuesAre(xs, Requester(x));
  }

  // ---------------------------------------------------------------------------------------------
  // The order of the queue
  // ---------------------------------------------------------------------------------------------

  function Name(x: Item): Text {
    if x.requesterName.Some? then x.requesterName.value else if x.requesterId.Some? then x.requesterId.value else x.id
  }

  function Compare(x: int, y: int): int {
    if x < y then -1 else if x > y then 1 else 0
  }

  /** Negative when `x` comes first; prints without a priority are compared by id. */
  function CompareRoundRobin(x: Item, y: Item, priorities: map<Text, Priority>): int {
    if x.id !in priorities || y.id !in priorities then Compare(x.id, y.id)
    else
      var p, q := priorities[x.id], priorities[y.id];
      if p.position != q.position then p.position - q.position
      else if Compare(Name(x), Name(y)) != 0 then Compare(Name(x), Name(y))
      else Compare(p.slotId, q.slotId)
  }

  /** Two prints never tie: with the same position they belong to different requesters, whose slots differ. */
  lemma {:induction false} SlotsDiffer(xs: seq<Item>, priorities: map<Text, Priority>, x: Item, y: Item)
    requires UniqueIds(xs) && Prioritized(xs, priorities) && x in xs && y in xs && x != y
    ensures x.id in priorities && y.id in priorities && priorities[x.id].slotId != priorities[y.id].slotId
  {
    var k := PlaceOf(xs, priorities, x);
    var l := PlaceOf(xs, priorities, y);
    QueuesAre(xs, Requester(x));
    QueuesAre(xs, Requester(y));
    var a, b := Slots(xs, Requester(x))[k], Slots(xs, Requester(y))[l];
    assert a in xs && b in xs && Requester(a) == Requester(x) && Requester(b) == Requester(y);
    if Requester(x) == Requester(y) {
      assert k != l;
    } else {
      IdsDiffer(xs, a, b);
    }
  }

  /** The comparison is a strict total order on the prints of the queue. */
  lemma {:induction false} StrictTotalOrder(xs: seq<Item>, priorities: map<Text, Priority>, x: Item, y: Item, z: Item)
    requires UniqueIds(xs) && Prioritized(xs, priorities) && x in xs && y in xs && z in xs
    ensures CompareRoundRobin(x, y, priorities) == 0 <==> x == y
    ensures CompareRoundRobin(x, y, priorities) < 0 <==> CompareRoundRobin(y, x, priorities) > 0
    ensures CompareRoundRobin(x, y, priorities) < 0 && CompareRoundRobin(y, z, priorities) < 0 ==>
        CompareRoundRobin(x, z, priorities) < 0
  {
    var i := PlaceOf(xs, priorities, x);
    var j := PlaceOf(xs, priorities, y);
    var k := PlaceOf(xs, priorities, z);
    if x != y {
      SlotsDiffer(xs, priorities, x, y);
    }
  }

  /** What a print is listed under: its requester's name, for want of it the requester, or else the print itself. */
  ghost predicate ListedUnder(x: Item, name: Text) {
    || x.requesterName == Some(name)
    || (x.requesterName.None? && x.requesterId == Some(name))
    || (x.requesterName.None? && x.requesterId.None? && x.id == name)
  }

  /** Lower places come first; at the same place what the prints are listed under decides, and then their slots. */
  lemma {:induction false} PlaceThenNameThenSlot(
      xs: seq<Item>, priorities: map<Text, Priority>, x: Item, y: Item, a: Text, b: Text)
    requires UniqueIds(xs) && Prioritized(xs, priorities) && x in xs && y in xs
    requires ListedUnder(x, a) && ListedUnder(y, b)
    ensures x.id in priorities && y.id in priorities
    ensures var p, q := priorities[x.id], priorities[y.id];
      CompareRoundRobin(x, y, priorities) < 0 <==>
        || p.position < q.position
        || (p.position == q.position && a < b)
        || (p.position == q.position && a == b && p.slotId < q.slotId)
  {
    var k := PlaceOf(xs, priorities, x);
    var l := PlaceOf(xs, priorities, y);
  }

  /** Prints that have no place are compared by their ids alone. */
  lemma {:induction false} WithoutPlaceById(x: Item, y: Item, priorities: map<Text, Priority>)
    requires x.id !in priorities || y.id !in priorities
    ensures CompareRoundRobin(x, y, priorities) < 0 <==> x.id < y.id
  {
  }

  ghost predicate RoundRobin(queue: seq<Item>, priorities: map<Text, Priority>) {
    forall i, j :: 0 <= i < j < |queue| ==> CompareRoundRobin(queue[i], queue[j], priorities) < 0
  }

  /** Before anyone's next print comes up, everyone who has a print at the place before had it come up. */
  lemma {:induction false} EveryoneInTurn(
      xs: seq<Item>, priorities: map<Text, Priority>, queue: seq<Item>, i: nat, j: nat)
    requires UniqueIds(xs) && Prioritized(xs, priorities) && RoundRobin(queue, priorities)
    requires i < |queue| && j < |queue| && queue[i] in xs && queue[j] in xs
    ensures queue[i].id in priorities && queue[j].id in priorities
    ensures priorities[queue[i].id].position < priorities[queue[j].id].position ==> i < j
  {
    var k := PlaceOf(xs, priorities, queue[i]);
    var l := PlaceOf(xs, priorities, queue[j]);
    if j < i {
      assert CompareRoundRobin(queue[j], queue[i], priorities) < 0;
    }
  }

  /** The queue: the prints sorted by the comparison. */
  method RoundRobinQueue(xs: seq<Item>) returns (queue: seq<Item>)
    requires UniqueIds(xs)
    ensures multiset(queue) == multiset(xs)
    ensures exists priorities :: Prioritized(xs, priorities) && RoundRobin(queue, priorities)
  {
    var priorities := RequesterQueuePriorities(xs);
    var before := (x: Item, y: Item) => CompareRoundRobin(x, y, priorities) < 0;
    forall x, y, z | x in xs && y in xs && z in xs
      ensures before(x, y) ==> !before(y, x)
      ensures !before(y, x) && !before(z, y) ==> !before(z, x)
    {
      StrictTotalOrder(xs, priorities, x, y, z);
      StrictTotalOrder(xs, priorities, z, y, x);
    }
    Sorting.SortSorts(xs, before);
    queue := Sorting.Sorted(xs, before);
    Sorting.SameElements(xs, queue);
    Sorting.UniqueSpread(xs, queue, ID);
    forall i, j | 0 <= i < j < |queue| ensures CompareRoundRobin(queue[i], queue[j], priorities) < 0 {
      assert ID(queue[i]) != ID(queue[j]);
      assert !before(queue[j], queue[i]);
      StrictTotalOrder(xs, priorities, queue[i], queue[j], queue[i]);
    }
  }
}
