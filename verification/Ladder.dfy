/** Flat price-time lists. A side of the book, or one side of the stop registry, is one
  sequence in the order in which its orders would be reached. */
module Ladder {
  import opened Orders

  /** Which price a list is ordered by, and in which direction. Stops of both sides are
    kept by ascending stop price. */
  datatype Shelf = BidShelf | AskShelf | StopShelf

  function ShelfOf(side: Side): Shelf {
    if side == Buy then BidShelf else AskShelf
  }

  function KeyOf(shelf: Shelf, o: Order): int {
    if shelf == StopShelf then o.stopPrice.Or(0) else o.price.Or(0)
  }

  /** Smaller ranks come first. */
  function Rank(shelf: Shelf, key: int): int {
    if shelf == BidShelf then -key else key
  }

  function RankOf(shelf: Shelf, o: Order): int {
    Rank(shelf, KeyOf(shelf, o))
  }

  ghost predicate Sorted(shelf: Shelf, s: seq<Order>) {
    forall i, j :: 0 <= i < j < |s| ==> RankOf(shelf, s[i]) <= RankOf(shelf, s[j])
  }

  /** Puts `o` behind every order of its own price and of better prices. */
  function Insert(shelf: Shelf, s: seq<Order>, o: Order): (r: seq<Order>)
    ensures |r| == |s| + 1
  {
    if s == [] || RankOf(shelf, o) < RankOf(shelf, s[0]) then [o] + s
    else [s[0]] + Insert(shelf, s[1..], o)
  }

  /** Position of the order called `id`, or `|s|` when there is none. */
  function Find(s: seq<Order>, id: Id): (i: nat)
    ensures i <= |s|
    ensures i < |s| ==> s[i].id == id
    ensures forall j :: 0 <= j < i ==> s[j].id != id
  {
    if s == [] || s[0].id == id then 0 else 1 + Find(s[1..], id)
  }

  predicate Has(s: seq<Order>, id: Id) {
    Find(s, id) < |s|
  }

  function RemoveAt(s: seq<Order>, i: nat): (r: seq<Order>)
    requires i < |s|
    ensures |r| == |s| - 1
  {
    s[..i] + s[i + 1..]
  }

  /** The last position of the run of equal stop prices that contains `i`. */
  function LastOfKey(s: seq<Order>, i: nat): (j: nat)
    requires i < |s|
    ensures i <= j < |s|
    ensures KeyOf(StopShelf, s[j]) == KeyOf(StopShelf, s[i])
    ensures j + 1 < |s| ==> KeyOf(StopShelf, s[j + 1]) != KeyOf(StopShelf, s[i])
    ensures forall k :: i <= k <= j ==> KeyOf(StopShelf, s[k]) == KeyOf(StopShelf, s[i])
    decreases |s| - i
  {
    if i + 1 < |s| && KeyOf(StopShelf, s[i + 1]) == KeyOf(StopShelf, s[i])
    then LastOfKey(s, i + 1)
    else i
  }

  /** Removal from a stop bucket: the bucket's last order takes the place of the removed one. */
  function SwapOut(s: seq<Order>, i: nat): (r: seq<Order>)
    requires i < |s|
    ensures |r| == |s| - 1
  {
    var j := LastOfKey(s, i);
    RemoveAt(s[i := s[j]], j)
  }

  // ---- Measures of a list --------------------------------------------------------

  /** How many orders a list holds under an id, how much they have left, their price, or
    how much everything in the list has left. */
  datatype Gauge = Count(id: Id) | Amount(id: Id) | Tag(id: Id) | Depth

  function Weigh(g: Gauge, o: Order): int {
    match g
    case Count(x) => if o.id == x then 1 else 0
    case Amount(x) => if o.id == x then o.remaining else 0
    case Tag(x) => if o.id == x then o.price.Or(0) else 0
    case Depth => o.remaining
  }

  function Sum(g: Gauge, s: seq<Order>): int {
    if s == [] then 0 else Weigh(g, s[0]) + Sum(g, s[1..])
  }

  lemma {:induction false} SumConcat(g: Gauge, a: seq<Order>, b: seq<Order>)
    ensures Sum(g, a + b) == Sum(g, a) + Sum(g, b)
  {
    if a == [] {
      assert a + b == b;
    } else {
      assert (a + b)[1..] == a[1..] + b;
      SumConcat(g, a[1..], b);
    }
  }

  lemma SumOne(g: Gauge, o: Order)
    ensures Sum(g, [o]) == Weigh(g, o)
  {
    assert [o][1..] == [];
  }

  lemma SumFront(g: Gauge, s: seq<Order>, o: Order)
    ensures Sum(g, [o] + s) == Weigh(g, o) + Sum(g, s)
  {
    assert ([o] + s)[1..] == s;
  }

  lemma SumSplit(g: Gauge, s: seq<Order>, i: nat)
    requires i < |s|
    ensures Sum(g, s) == Sum(g, s[..i]) + Weigh(g, s[i]) + Sum(g, s[i + 1..])
  {
    assert s == s[..i] + ([s[i]] + s[i + 1..]);
    SumConcat(g, s[..i], [s[i]] + s[i + 1..]);
    SumConcat(g, [s[i]], s[i + 1..]);
    SumOne(g, s[i]);
  }

  lemma SumRemoveAt(g: Gauge, s: seq<Order>, i: nat)
    requires i < |s|
    ensures Sum(g, RemoveAt(s, i)) == Sum(g, s) - Weigh(g, s[i])
  {
    SumSplit(g, s, i);
    SumConcat(g, s[..i], s[i + 1..]);
  }

  lemma {:induction false} SumInsert(g: Gauge, shelf: Shelf, s: seq<Order>, o: Order)
    ensures Sum(g, Insert(shelf, s, o)) == Sum(g, s) + Weigh(g, o)
  {
    if s == [] || RankOf(shelf, o) < RankOf(shelf, s[0]) {
      assert ([o] + s)[1..] == s;
    } else {
      SumInsert(g, shelf, s[1..], o);
      assert ([s[0]] + Insert(shelf, s[1..], o))[1..] == Insert(shelf, s[1..], o);
    }
  }

  lemma SumUpdate(g: Gauge, s: seq<Order>, i: nat, o: Order)
    requires i < |s|
    ensures Sum(g, s[i := o]) == Sum(g, s) - Weigh(g, s[i]) + Weigh(g, o)
  {
    SumSplit(g, s, i);
    SumSplit(g, s[i := o], i);
    assert s[i := o][..i] == s[..i] && s[i := o][i + 1..] == s[i + 1..];
  }

  lemma SumSwapOut(g: Gauge, s: seq<Order>, i: nat)
    requires i < |s|
    ensures Sum(g, SwapOut(s, i)) == Sum(g, s) - Weigh(g, s[i])
  {
    var j := LastOfKey(s, i);
    SumUpdate(g, s, i, s[j]);
    SumRemoveAt(g, s[i := s[j]], j);
  }

  // ---- What the list operations keep ---------------------------------------------

  lemma {:induction false} InsertMembers(shelf: Shelf, s: seq<Order>, o: Order)
    ensures forall x :: x in Insert(shelf, s, o) <==> x in s || x == o
  {
    if s == [] || RankOf(shelf, o) < RankOf(shelf, s[0]) {
    } else {
      InsertMembers(shelf, s[1..], o);
      assert s == [s[0]] + s[1..];
    }
  }

  lemma {:induction false} InsertSorted(shelf: Shelf, s: seq<Order>, o: Order)
    requires Sorted(shelf, s)
    ensures Sorted(shelf, Insert(shelf, s, o))
  {
    if s == [] || RankOf(shelf, o) < RankOf(shelf, s[0]) {
    } else {
      InsertSorted(shelf, s[1..], o);
      var rest := Insert(shelf, s[1..], o);
      InsertMembers(shelf, s[1..], o);
      assert forall i :: 0 <= i < |rest| ==> rest[i] in rest;
    }
  }

  /** Insertion lands between the orders that are reached no later and those reached later. */
  lemma {:induction false} InsertBetween(shelf: Shelf, p: seq<Order>, z: seq<Order>, o: Order)
    requires forall x :: x in p ==> RankOf(shelf, x) <= RankOf(shelf, o)
    requires forall x :: x in z ==> RankOf(shelf, o) < RankOf(shelf, x)
    ensures Insert(shelf, p + z, o) == p + [o] + z
  {
    if p == [] {
      assert p + z == z;
      if z != [] { assert z[0] in z; }
    } else {
      assert p[0] in p;
      assert (p + z)[1..] == p[1..] + z;
      InsertBetween(shelf, p[1..], z, o);
    }
  }

  lemma RemoveAtMembers(s: seq<Order>, i: nat)
    requires i < |s|
    ensures forall x :: x in RemoveAt(s, i) ==> x in s
  {
  }

  lemma SwapOutMembers(s: seq<Order>, i: nat)
    requires i < |s|
    ensures forall x :: x in SwapOut(s, i) ==> x in s
  {
  }

  lemma RemoveAtSorted(shelf: Shelf, s: seq<Order>, i: nat)
    requires i < |s| && Sorted(shelf, s)
    ensures Sorted(shelf, RemoveAt(s, i))
  {
  }

  lemma SwapOutSorted(s: seq<Order>, i: nat)
    requires i < |s| && Sorted(StopShelf, s)
    ensures Sorted(StopShelf, SwapOut(s, i))
  {
    var j := LastOfKey(s, i);
    var t := s[i := s[j]];
    assert forall k :: 0 <= k < |s| ==> RankOf(StopShelf, t[k]) == RankOf(StopShelf, s[k]);
    assert Sorted(StopShelf, t);
    RemoveAtSorted(StopShelf, t, j);
  }

  ghost predicate DistinctIds(s: seq<Order>) {
    forall i, j :: 0 <= i < j < |s| ==> s[i].id != s[j].id
  }

  /** Swapping the bucket's last order in keeps the order in which the stops came if and only if
    the one removed is the last of its price or the last but one. */
  lemma SwapKeepsOrderIff(s: seq<Order>, i: nat)
    requires i < |s| && DistinctIds(s)
    ensures SwapOut(s, i) == RemoveAt(s, i) <==> LastOfKey(s, i) <= i + 1
  {
    var j := LastOfKey(s, i);
    var a, b := SwapOut(s, i), RemoveAt(s, i);
    if j <= i + 1 {
      forall k | 0 <= k < |b| ensures a[k] == b[k] { }
    } else {
      assert a[i] == s[j] && b[i] == s[i + 1];
    }
  }

  /** An id counted zero times is on no order of the list, and one counted is found. */
  lemma {:induction false} CountIsPresence(s: seq<Order>, x: Id)
    ensures Sum(Count(x), s) >= 0
    ensures Sum(Count(x), s) == 0 <==> forall o :: o in s ==> o.id != x
    ensures Sum(Count(x), s) == 0 <==> !Has(s, x)
  {
    if s != [] {
      CountIsPresence(s[1..], x);
      assert s == [s[0]] + s[1..];
    }
  }

  /** With one order under the id, the tag is its price. */
  lemma {:induction false} TagOfOnly(s: seq<Order>, x: Id)
    requires Sum(Count(x), s) == 1
    ensures Has(s, x) && Sum(Tag(x), s) == s[Find(s, x)].price.Or(0)
  {
    if s[0].id == x {
      NoTag(s[1..], x);
    } else {
      TagOfOnly(s[1..], x);
    }
  }

  lemma {:induction false} NoTag(s: seq<Order>, x: Id)
    requires Sum(Count(x), s) == 0
    ensures Sum(Tag(x), s) == 0
  {
    if s != [] {
      CountIsPresence(s[1..], x);
      NoTag(s[1..], x);
    }
  }

  /** With one order under the id at most, the amount under it is that order's remainder. */
  lemma {:induction false} AmountOfOnly(s: seq<Order>, x: Id)
    requires Sum(Count(x), s) <= 1
    ensures Sum(Amount(x), s) == if Has(s, x) then s[Find(s, x)].remaining else 0
  {
    if s != [] {
      CountIsPresence(s[1..], x);
      AmountOfOnly(s[1..], x);
    }
  }
}
