/**
 * The `order` column of a test's questions, and the list it stands for: what
 * each way of writing the column does to the list.
 */
module OrderColumn {
  import opened Basics
  import opened Snapshots

  /** Each question's place, by id. Gaps are allowed, equal places are not. */
  type Orders = map<Id, int>

  /** The rows by ascending `order` are this list. */
  ghost predicate Represents(orders: Orders, list: seq<Id>) {
    (forall id :: id in list <==> id in orders) && Ascending(orders, list)
  }

  ghost predicate Ascending(orders: Orders, list: seq<Id>) {
    forall i, j :: 0 <= i < j < |list| ==> list[i] in orders && list[j] in orders && orders[list[i]] < orders[list[j]]
  }

  function ItemSet(list: seq<Id>): (s: set<Id>)
    ensures forall id :: id in s <==> id in list
    ensures |s| <= |list|
  {
    if list == [] then {} else ItemSet(list[..|list| - 1]) + {list[|list| - 1]}
  }

  lemma {:induction false} DistinctCounts(list: seq<Id>)
    requires Distinct(list)
    ensures |ItemSet(list)| == |list|
  {
    if list != [] {
      var n := |list| - 1;
      DistinctCounts(list[..n]);
      assert list[n] !in list[..n];
    }
  }

  lemma {:induction false} CountsDistinct(list: seq<Id>)
    requires |ItemSet(list)| == |list|
    ensures Distinct(list)
  {
    if list != [] {
      var n := |list| - 1;
      assert list[n] !in ItemSet(list[..n]);
      CountsDistinct(list[..n]);
      LastNew(list);
    }
  }

  lemma LastNew(list: seq<Id>)
    requires list != [] && Distinct(list[..|list| - 1]) && list[|list| - 1] !in list[..|list| - 1]
    ensures Distinct(list)
  {
  }

  lemma {:induction false} SubsetSize(s: set<Id>, t: set<Id>)
    requires s <= t
    ensures |s| <= |t| && (|s| == |t| ==> s == t)
    decreases s
  {
    if s != {} {
      var x :| x in s;
      SubsetSize(s - {x}, t - {x});
    } else if t != {} {
      var x :| x in t;
      assert |t| > 0;
    }
  }

  /** The list holds every row once. */
  lemma ListsRows(orders: Orders, list: seq<Id>)
    requires Represents(orders, list)
    ensures Distinct(list) && ItemSet(list) == orders.Keys && |orders| == |list|
  {
    DistinctCounts(list);
    assert ItemSet(list) == orders.Keys;
    assert |orders| == |orders.Keys|;
  }

  /** Distinct orders leave only one list to read: whatever sorts by them finds it. */
  lemma OneList(orders: Orders, list: seq<Id>, other: seq<Id>)
    requires Represents(orders, list) && Represents(orders, other)
    ensures list == other
  {
    ListsRows(orders, list);
    ListsRows(orders, other);
    SameList(orders, list, other);
  }

  lemma {:induction false} SameList(orders: Orders, list: seq<Id>, other: seq<Id>)
    requires Ascending(orders, list) && Ascending(orders, other) && |list| == |other|
    requires forall id :: id in list <==> id in other
    ensures list == other
    decreases |list|
  {
    if list != [] {
      LastSame(orders, list, other);
      var n := |list| - 1;
      WithoutLast(orders, list);
      WithoutLast(orders, other);
      forall id ensures id in list[..n] <==> id in other[..n] {
        assert id in list[..n] <==> id in list && id != list[n];
        assert id in other[..n] <==> id in other && id != other[n];
      }
      SameList(orders, list[..n], other[..n]);
      SplitLast(list);
      SplitLast(other);
    }
  }

  lemma LastSame(orders: Orders, list: seq<Id>, other: seq<Id>)
    requires Ascending(orders, list) && Ascending(orders, other) && |list| == |other| > 0
    requires forall id :: id in list <==> id in other
    ensures list[|list| - 1] == other[|list| - 1]
  {
    var n := |list| - 1;
    assert list[n] in other && other[n] in list;
    var i :| 0 <= i <= n && other[i] == list[n];
    var j :| 0 <= j <= n && list[j] == other[n];
  }

  lemma WithoutLast(orders: Orders, list: seq<Id>)
    requires Ascending(orders, list) && list != []
    ensures Ascending(orders, list[..|list| - 1])
    ensures forall id :: id in list[..|list| - 1] <==> id in list && id != list[|list| - 1]
  {
    var n := |list| - 1;
    SplitLast(list);
    forall id | id in list[..n] ensures id in list && id != list[n] {
      var i :| 0 <= i < n && list[..n][i] == id;
      assert list[i] == id;
    }
  }

  // ----- Appending ---------------------------------------------------------------------------

  /** `nextOrder`: past every order in use, and not below zero. */
  ghost predicate IsNextOrder(orders: Orders, next: int) {
    next >= 0 && (forall id <- orders.Keys :: orders[id] < next)
    && (next == 0 || exists id <- orders.Keys :: orders[id] + 1 == next)
  }

  method NextOrder(orders: Orders) returns (next: int)
    ensures IsNextOrder(orders, next)
  {
    next := 0;
    var todo := orders.Keys;
    while todo != {}
      invariant todo <= orders.Keys && next >= 0
      invariant forall id <- orders.Keys :: id in todo || orders[id] < next
      invariant next == 0 || exists id <- orders.Keys :: orders[id] + 1 == next
      decreases |todo|
    {
      var id :| id in todo;
      if orders[id] + 1 > next { next := orders[id] + 1; }
      todo := todo - {id};
    }
  }

  lemma Appended(orders: Orders, list: seq<Id>, id: Id, order: int)
    requires Represents(orders, list) && id !in orders && forall other <- orders.Keys :: orders[other] < order
    ensures Represents(orders[id := order], list + [id])
  {
  }

  // ----- Inserting ---------------------------------------------------------------------------

  /** `updateMany` where the order is above `order`: one more each. */
  function MakeRoom(orders: Orders, order: int): (r: Orders)
    ensures r.Keys == orders.Keys
  {
    map id | id in orders :: if orders[id] > order then orders[id] + 1 else orders[id]
  }

  lemma RoomMade(orders: Orders, list: seq<Id>, order: int)
    requires Represents(orders, list)
    ensures Represents(MakeRoom(orders, order), list)
    ensures forall id <- orders.Keys :: MakeRoom(orders, order)[id] != order + 1
  {
  }

  /** The list with an item right after place i. */
  function InsertAfter(list: seq<Id>, i: nat, id: Id): (r: seq<Id>)
    requires i < |list|
    ensures |r| == |list| + 1
  {
    list[..i + 1] + [id] + list[i + 1..]
  }

  /** The list without the item at place i. */
  function RemoveAt(list: seq<Id>, i: nat): (r: seq<Id>)
    requires i < |list|
    ensures |r| == |list| - 1
    ensures forall k :: 0 <= k < |r| ==> r[k] == if k < i then list[k] else list[k + 1]
  {
    list[..i] + list[i + 1..]
  }

  /** A row placed just above the row at index i comes right after it. */
  lemma Inserted(orders: Orders, list: seq<Id>, i: nat, id: Id)
    requires Represents(orders, list) && i < |list| && list[i] in orders && id !in orders
    requires forall k :: i < k < |list| ==> list[k] in orders && orders[list[k]] > orders[list[i]] + 1
    ensures Represents(orders[id := orders[list[i]] + 1], InsertAfter(list, i, id))
  {
  }

  /** Making room above the row at index i and placing a new one there puts it right after that row. */
  lemma RoomInserted(orders: Orders, list: seq<Id>, i: nat, id: Id)
    requires Represents(orders, list) && i < |list| && list[i] in orders && id !in orders
    ensures var order := orders[list[i]];
      Represents(MakeRoom(orders, order)[id := order + 1], InsertAfter(list, i, id))
  {
    var order := orders[list[i]];
    RoomMade(orders, list, order);
    RoomAbove(orders, list, i);
    Inserted(MakeRoom(orders, order), list, i, id);
  }

  lemma RoomAbove(orders: Orders, list: seq<Id>, at: nat)
    requires Represents(orders, list) && at < |list| && list[at] in orders
    ensures var made := MakeRoom(orders, orders[list[at]]);
      made[list[at]] == orders[list[at]]
      && forall k :: at < k < |list| ==> list[k] in made && made[list[k]] > orders[list[at]] + 1
  {
  }

  // ----- Removing ----------------------------------------------------------------------------

  lemma Removed(orders: Orders, list: seq<Id>, i: nat)
    requires Represents(orders, list) && i < |list|
    ensures Represents(orders - {list[i]}, RemoveAt(list, i))
  {
    forall a, b | 0 <= a < b < |list| - 1
      ensures var rest, left := RemoveAt(list, i), orders - {list[i]};
        rest[a] in left && rest[b] in left && left[rest[a]] < left[rest[b]]
    {
      RemovedPair(orders, list, i, a, b);
    }
  }

  lemma RemovedPair(orders: Orders, list: seq<Id>, i: nat, a: nat, b: nat)
    requires Ascending(orders, list) && i < |list| && a < b < |list| - 1
    ensures var rest, left := RemoveAt(list, i), orders - {list[i]};
      rest[a] in left && rest[b] in left && left[rest[a]] < left[rest[b]]
  {
  }

  // ----- Reordering ----------------------------------------------------------------------------

  /** `assertSameIds`: as many ids as rows, none twice, each a row's. */
  predicate SameIds(rows: set<Id>, ids: seq<Id>) {
    |ids| == |rows| && |ItemSet(ids)| == |ids| && forall id <- ids :: id in rows
  }

  /** A new order is accepted exactly when it rearranges the list. */
  lemma AcceptedWhenRearranged(orders: Orders, list: seq<Id>, ids: seq<Id>)
    requires Represents(orders, list)
    ensures SameIds(orders.Keys, ids) <==> multiset(ids) == multiset(list)
  {
    ListsRows(orders, list);
    if SameIds(orders.Keys, ids) {
      CountsDistinct(ids);
      SubsetSize(ItemSet(ids), orders.Keys);
      SameMultiset(ids, list);
    } else if multiset(ids) == multiset(list) {
      assert |multiset(ids)| == |ids|;
      assert |multiset(list)| == |list|;
      forall id ensures id in ids <==> id in list { assert id in multiset(ids) <==> id in multiset(list); }
      DistinctByMultiset(list, ids);
      DistinctCounts(ids);
    }
  }

  lemma {:induction false} OnceEach(list: seq<Id>, id: Id)
    requires Distinct(list)
    ensures multiset(list)[id] == if id in list then 1 else 0
  {
    if list != [] {
      var n := |list| - 1;
      SplitLast(list);
      OnceEach(list[..n], id);
      assert list[n] !in list[..n];
    }
  }

  lemma SameMultiset(a: seq<Id>, b: seq<Id>)
    requires Distinct(a) && Distinct(b) && ItemSet(a) == ItemSet(b)
    ensures multiset(a) == multiset(b)
  {
    forall id ensures multiset(a)[id] == multiset(b)[id] {
      OnceEach(a, id);
      OnceEach(b, id);
      assert id in ItemSet(a) <==> id in ItemSet(b);
    }
  }

  lemma DistinctByMultiset(a: seq<Id>, b: seq<Id>)
    requires Distinct(a) && multiset(a) == multiset(b)
    ensures Distinct(b)
  {
    forall i, j | 0 <= i < j < |b| ensures b[i] != b[j] {
      OnceEach(a, b[i]);
      if b[i] == b[j] {
        TwoInMultiset(b, i, j);
        assert false;
      }
    }
  }

  lemma TwoInMultiset(b: seq<Id>, i: nat, j: nat)
    requires i < j < |b| && b[i] == b[j]
    ensures multiset(b)[b[i]] >= 2
  {
    assert b == b[..i] + [b[i]] + b[i + 1..j] + [b[j]] + b[j + 1..];
  }

  /** Numbers the rows in the order of the ids. */
  method Renumber(orders: Orders, ids: seq<Id>) returns (r: Orders)
    requires SameIds(orders.Keys, ids)
    ensures Represents(r, ids) && r.Keys == orders.Keys
  {
    CountsDistinct(ids);
    SubsetSize(ItemSet(ids), orders.Keys);
    r := orders;
    for i := 0 to |ids|
      invariant r.Keys == orders.Keys && NumberedUpTo(r, ids, i)
    {
      assert ids[i] in ids;
      NumberNext(r, ids, i);
      r := r[ids[i] := i];
    }
    Numbered(orders.Keys, ids, r);
  }

  ghost predicate NumberedUpTo(orders: Orders, ids: seq<Id>, n: nat)
    requires n <= |ids|
  {
    forall k :: 0 <= k < n ==> ids[k] in orders && orders[ids[k]] == k
  }

  lemma NumberNext(orders: Orders, ids: seq<Id>, n: nat)
    requires n < |ids| && Distinct(ids) && NumberedUpTo(orders, ids, n)
    ensures NumberedUpTo(orders[ids[n] := n], ids, n + 1)
  {
  }

  lemma Numbered(rows: set<Id>, ids: seq<Id>, orders: Orders)
    requires ItemSet(ids) == rows == orders.Keys
    requires NumberedUpTo(orders, ids, |ids|)
    ensures Represents(orders, ids)
  {
  }

  lemma SameLength(ids: seq<Id>, list: seq<Id>)
    requires multiset(ids) == multiset(list)
    ensures |ids| == |list|
  {
    assert |multiset(ids)| == |ids| && |multiset(list)| == |list|;
  }

  /** The rows numbered in the order of the ids, when those are every row's once. */
  method NewOrder(orders: Orders, ghost list: seq<Id>, ids: seq<Id>) returns (renumbered: Option<Orders>)
    requires Represents(orders, list)
    ensures renumbered.Some? <==> multiset(ids) == multiset(list)
    ensures renumbered.Some? ==>
      Represents(renumbered.value, ids) && renumbered.value.Keys == orders.Keys && |ids| == |list|
  {
    AcceptedWhenRearranged(orders, list, ids);
    if !SameIds(orders.Keys, ids) { return None; }
    SameLength(ids, list);
    var r := Renumber(orders, ids);
    renumbered := Some(r);
  }
}
