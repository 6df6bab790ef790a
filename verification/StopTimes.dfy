/** In which order stops of one price are set off. They are kept in the order in which they came
  until one of them is cancelled: the last of the price then takes its place
  (engine/crates/core/src/stop.rs). */
module StopTimes {
  import opened Orders
  import opened Ladder
  import opened Matcher
  import opened BookInvariants
  import opened Cascade
  import opened Conservation
  import opened Histories

  lemma {:induction false} UpToIff(s: seq<Order>, price: int)
    requires Sorted(StopShelf, s)
    ensures forall k :: 0 <= k < |s| ==> (k < UpTo(s, price) <==> KeyOf(StopShelf, s[k]) <= price)
  {
    if s != [] {
      var rest := s[1..];
      assert forall k :: 0 <= k < |rest| ==> rest[k] == s[k + 1];
      UpToIff(rest, price);
      assert forall k :: 0 < k < |s| ==> RankOf(StopShelf, s[0]) <= RankOf(StopShelf, s[k]) && s[k] == rest[k - 1];
    }
  }

  lemma {:induction false} ActivateSame(a: seq<Order>, b: seq<Order>)
    requires |a| == |b|
    ensures ActivateAll(a) == ActivateAll(b) ==> forall k :: 0 <= k < |a| ==> a[k].id == b[k].id
  {
    if a != [] && ActivateAll(a) == ActivateAll(b) {
      assert ActivateAll(a)[0] == ActivateAll(b)[0];
      assert ActivateAll(a)[1..] == ActivateAll(a[1..]) && ActivateAll(b)[1..] == ActivateAll(b[1..]);
      ActivateSame(a[1..], b[1..]);
      assert forall k :: 0 < k < |a| ==> a[k] == a[1..][k - 1] && b[k] == b[1..][k - 1];
    }
  }

  /** Both ways of closing the gap leave the same prices at the same places. */
  lemma SamePrices(s: seq<Order>, i: nat)
    requires i < |s|
    ensures forall k :: 0 <= k < |s| - 1 ==> KeyOf(StopShelf, SwapOut(s, i)[k]) == KeyOf(StopShelf, RemoveAt(s, i)[k])
    ensures forall k :: 0 <= k < |s| - 1 && SwapOut(s, i)[k] != RemoveAt(s, i)[k] ==>
      KeyOf(StopShelf, RemoveAt(s, i)[k]) == KeyOf(StopShelf, s[i])
  {
  }

  lemma {:induction false} SameCut(a: seq<Order>, b: seq<Order>, price: int)
    requires |a| == |b| && forall k :: 0 <= k < |a| ==> KeyOf(StopShelf, a[k]) == KeyOf(StopShelf, b[k])
    ensures UpTo(a, price) == UpTo(b, price)
  {
    if a != [] {
      assert forall k :: 0 <= k < |a| - 1 ==> a[1..][k] == a[k + 1] && b[1..][k] == b[k + 1];
      SameCut(a[1..], b[1..], price);
    }
  }

  /** The two lists part at the gap, if they part at all. */
  lemma WhereTheyPart(s: seq<Order>, i: nat)
    requires i < |s| && DistinctIds(s)
    ensures LastOfKey(s, i) <= i + 1 ==> SwapOut(s, i) == RemoveAt(s, i)
    ensures i + 1 < LastOfKey(s, i) ==>
      && i < |s| - 1 && SwapOut(s, i)[i].id != RemoveAt(s, i)[i].id
      && KeyOf(StopShelf, RemoveAt(s, i)[i]) == KeyOf(StopShelf, s[i])
  {
    SwapKeepsOrderIff(s, i);
    if i + 1 < LastOfKey(s, i) {
      assert SwapOut(s, i)[i] == s[LastOfKey(s, i)] && RemoveAt(s, i)[i] == s[i + 1];
    }
  }

  lemma BuysDrainAlikeIff(buys: seq<Order>, sells: seq<Order>, i: nat, price: int)
    requires i < |buys| && Sorted(StopShelf, buys) && DistinctIds(buys)
    ensures DueStops(SwapOut(buys, i), sells, price) == DueStops(RemoveAt(buys, i), sells, price) <==>
      price < KeyOf(StopShelf, buys[i]) || LastOfKey(buys, i) <= i + 1
  {
    hide SwapOut, RemoveAt, UpTo, LastOfKey, DistinctIds, Sorted, ActivateAll, KeyOf;
    var a, b := SwapOut(buys, i), RemoveAt(buys, i);
    SamePrices(buys, i);
    SameCut(a, b, price);
    RemoveAtSorted(StopShelf, buys, i);
    UpToIff(b, price);
    WhereTheyPart(buys, i);
    var n, rest := UpTo(a, price), ActivateAll(sells[UpTo(sells, price - 1)..]);
    CancelConcat(ActivateAll(a[..n]), ActivateAll(b[..n]), rest);
    if i < n && i + 1 < LastOfKey(buys, i) { FrontsDiffer(a, b, n, i); }
    if price < KeyOf(StopShelf, buys[i]) { FrontsAgree(buys, i, price); }
  }

  lemma FrontsDiffer(a: seq<Order>, b: seq<Order>, n: nat, i: nat)
    requires |a| == |b| && i < n <= |a| && a[i].id != b[i].id
    ensures ActivateAll(a[..n]) != ActivateAll(b[..n])
  {
    ActivateSame(a[..n], b[..n]);
    assert a[..n][i] == a[i] && b[..n][i] == b[i];
  }

  lemma BacksDiffer(a: seq<Order>, b: seq<Order>, n: nat, i: nat)
    requires |a| == |b| && n <= i < |a| && a[i].id != b[i].id
    ensures ActivateAll(a[n..]) != ActivateAll(b[n..])
  {
    ActivateSame(a[n..], b[n..]);
    assert a[n..][i - n] == a[i] && b[n..][i - n] == b[i];
  }

  /** Below the price of the stop that is taken out the two lists agree, and above it. */
  lemma FrontsAgree(s: seq<Order>, i: nat, price: int)
    requires i < |s| && Sorted(StopShelf, s) && price < KeyOf(StopShelf, s[i])
    ensures UpTo(RemoveAt(s, i), price) == UpTo(SwapOut(s, i), price)
    ensures var n := UpTo(SwapOut(s, i), price); SwapOut(s, i)[..n] == RemoveAt(s, i)[..n]
  {
    var a, b := SwapOut(s, i), RemoveAt(s, i);
    SamePrices(s, i);
    SameCut(a, b, price);
    RemoveAtSorted(StopShelf, s, i);
    UpToIff(b, price);
    var n := UpTo(a, price);
    hide SwapOut, RemoveAt, UpTo, LastOfKey, DistinctIds, Sorted, KeyOf;
    forall k | 0 <= k < n ensures a[k] == b[k] { }
  }

  lemma BacksAgree(s: seq<Order>, i: nat, price: int)
    requires i < |s| && Sorted(StopShelf, s) && KeyOf(StopShelf, s[i]) <= price
    ensures UpTo(RemoveAt(s, i), price) == UpTo(SwapOut(s, i), price)
    ensures var n := UpTo(SwapOut(s, i), price); SwapOut(s, i)[n..] == RemoveAt(s, i)[n..]
  {
    var a, b := SwapOut(s, i), RemoveAt(s, i);
    SamePrices(s, i);
    SameCut(a, b, price);
    RemoveAtSorted(StopShelf, s, i);
    UpToIff(b, price);
    var n := UpTo(a, price);
    hide SwapOut, RemoveAt, UpTo, LastOfKey, DistinctIds, Sorted, KeyOf;
    forall k | n <= k < |a| ensures a[k] == b[k] { }
  }

  lemma CancelConcat(a: seq<Order>, b: seq<Order>, z: seq<Order>)
    requires |a| == |b|
    ensures a + z == b + z <==> a == b
  {
    if a + z == b + z {
      assert a == (a + z)[..|a|] && b == (b + z)[..|b|];
    }
  }

  lemma CancelFront(z: seq<Order>, a: seq<Order>, b: seq<Order>)
    ensures z + a == z + b <==> a == b
  {
    if z + a == z + b {
      assert a == (z + a)[|z|..] && b == (z + b)[|z|..];
    }
  }

  lemma SellsDrainAlikeIff(buys: seq<Order>, sells: seq<Order>, i: nat, price: int)
    requires i < |sells| && Sorted(StopShelf, sells) && DistinctIds(sells)
    ensures DueStops(buys, SwapOut(sells, i), price) == DueStops(buys, RemoveAt(sells, i), price) <==>
      KeyOf(StopShelf, sells[i]) < price || LastOfKey(sells, i) <= i + 1
  {
    hide SwapOut, RemoveAt, UpTo, LastOfKey, DistinctIds, Sorted, ActivateAll, KeyOf;
    var a, b := SwapOut(sells, i), RemoveAt(sells, i);
    SamePrices(sells, i);
    SameCut(a, b, price - 1);
    RemoveAtSorted(StopShelf, sells, i);
    UpToIff(b, price - 1);
    WhereTheyPart(sells, i);
    var n, first := UpTo(a, price - 1), ActivateAll(buys[..UpTo(buys, price)]);
    CancelFront(first, ActivateAll(a[n..]), ActivateAll(b[n..]));
    if n <= i && i + 1 < LastOfKey(sells, i) { BacksDiffer(a, b, n, i); }
    if KeyOf(StopShelf, sells[i]) < price { BacksAgree(sells, i, price - 1); }
  }

  /** The stops of a valid book satisfy what the lemmas above ask of their lists. */
  lemma StopsAreDistinct(b: Book)
    requires BookInvariants.Valid(b)
    ensures Sorted(StopShelf, b.buyStops) && DistinctIds(b.buyStops)
    ensures Sorted(StopShelf, b.sellStops) && DistinctIds(b.sellStops)
  {
    forall x ensures Sum(Count(x), b.buyStops) <= 1 && Sum(Count(x), b.sellStops) <= 1 {
      assert Total(Count(x), b) + Sum(Count(x), []) <= 1;
      CountIsPresence(b.bids, x);
      CountIsPresence(b.asks, x);
      CountIsPresence(b.buyStops, x);
      CountIsPresence(b.sellStops, x);
    }
    OnceIsDistinct(b.buyStops);
    OnceIsDistinct(b.sellStops);
  }

  lemma OnceIsDistinct(s: seq<Order>)
    requires forall x :: Sum(Count(x), s) <= 1
    ensures DistinctIds(s)
  {
    forall i, j | 0 <= i < j < |s| ensures s[i].id != s[j].id {
      SumSplit(Count(s[j].id), s, j);
      CountIsPresence(s[..j], s[j].id);
      CountIsPresence(s[j + 1..], s[j].id);
      assert s[i] in s[..j];
      assert Sum(Count(s[j].id), s) <= 1;
    }
  }

  // ---- The order of arrival ------------------------------------------------------

  /** Stops of one price stand in the order of their times. */
  ghost predicate InOrder(s: seq<Order>, at: Id -> nat) {
    forall i, j :: 0 <= i < j < |s| && KeyOf(StopShelf, s[i]) == KeyOf(StopShelf, s[j]) ==> at(s[i].id) < at(s[j].id)
  }

  /** From a list in order: closing the gap by a swap leaves it in order if and only if the stop
    that goes is the last of its price or the last but one. */
  lemma SwapInOrderIff(s: seq<Order>, i: nat, at: Id -> nat)
    requires i < |s| && InOrder(s, at)
    ensures InOrder(SwapOut(s, i), at) <==> LastOfKey(s, i) <= i + 1
  {
    var j, a := LastOfKey(s, i), SwapOut(s, i);
    if j <= i + 1 {
      assert forall k :: 0 <= k < |a| ==> a[k] == RemoveAt(s, i)[k];
    } else {
      assert a[i] == s[j] && a[i + 1] == s[i + 1];
    }
  }

  lemma {:induction false} ActivatedAlike(s: seq<Order>)
    ensures forall k :: 0 <= k < |s| ==>
      ActivateAll(s)[k].id == s[k].id && KeyOf(StopShelf, ActivateAll(s)[k]) == KeyOf(StopShelf, s[k])
  {
    forall k | 0 <= k < |s|
      ensures ActivateAll(s)[k].id == s[k].id && KeyOf(StopShelf, ActivateAll(s)[k]) == KeyOf(StopShelf, s[k])
    {
      ActivateAllAt(s, k);
    }
  }

  lemma ActivatedInOrder(s: seq<Order>, at: Id -> nat)
    ensures InOrder(ActivateAll(s), at) <==> InOrder(s, at)
  {
    ActivatedAlike(s);
    hide KeyOf, ActivateAll;
  }

  lemma RemovedInOrder(s: seq<Order>, i: nat, at: Id -> nat)
    requires i < |s| && InOrder(s, at)
    ensures InOrder(RemoveAt(s, i), at)
  {
  }

  lemma FrontInOrder(s: seq<Order>, n: nat, at: Id -> nat)
    requires n <= |s| && InOrder(s, at)
    ensures InOrder(s[..n], at) && InOrder(s[n..], at)
  {
  }

  /** Two neighbours that stand the wrong way round. */
  lemma OutOfOrder(s: seq<Order>, i: nat, at: Id -> nat)
    requires i + 1 < |s| && KeyOf(StopShelf, s[i]) == KeyOf(StopShelf, s[i + 1]) && at(s[i + 1].id) < at(s[i].id)
    ensures !InOrder(s, at)
  {
  }

  /** Where a swap puts a list out of order. */
  lemma WrongWayRound(s: seq<Order>, i: nat, at: Id -> nat)
    requires i < |s| && InOrder(s, at) && i + 1 < LastOfKey(s, i)
    ensures var a := SwapOut(s, i);
      && i + 1 < |a| && KeyOf(StopShelf, a[i]) == KeyOf(StopShelf, a[i + 1]) == KeyOf(StopShelf, s[i])
      && at(a[i + 1].id) < at(a[i].id)
  {
    var a := SwapOut(s, i);
    assert a[i] == s[LastOfKey(s, i)] && a[i + 1] == s[i + 1];
  }

  lemma BuysInOrderIff(s: seq<Order>, i: nat, price: int, at: Id -> nat)
    requires i < |s| && Sorted(StopShelf, s) && InOrder(s, at)
    ensures var a := SwapOut(s, i);
      InOrder(ActivateAll(a[..UpTo(a, price)]), at) <==> price < KeyOf(StopShelf, s[i]) || LastOfKey(s, i) <= i + 1
  {
    var a := SwapOut(s, i);
    var n := UpTo(a, price);
    ActivatedInOrder(a[..n], at);
    RemovedInOrder(s, i, at);
    SwapInOrderIff(s, i, at);
    SwapOutSorted(s, i);
    UpToIff(a, price);
    hide SwapOut, RemoveAt, UpTo, LastOfKey, InOrder, Sorted, ActivateAll, KeyOf;
    if price < KeyOf(StopShelf, s[i]) {
      FrontsAgree(s, i, price);
      FrontInOrder(RemoveAt(s, i), n, at);
    } else if LastOfKey(s, i) <= i + 1 {
      FrontInOrder(a, n, at);
    } else {
      WrongWayRound(s, i, at);
      assert a[..n][i] == a[i] && a[..n][i + 1] == a[i + 1];
      OutOfOrder(a[..n], i, at);
    }
  }

  lemma SellsInOrderIff(s: seq<Order>, i: nat, price: int, at: Id -> nat)
    requires i < |s| && Sorted(StopShelf, s) && InOrder(s, at)
    ensures var a := SwapOut(s, i);
      InOrder(ActivateAll(a[UpTo(a, price)..]), at) <==> KeyOf(StopShelf, s[i]) <= price || LastOfKey(s, i) <= i + 1
  {
    var a := SwapOut(s, i);
    var n := UpTo(a, price);
    ActivatedInOrder(a[n..], at);
    RemovedInOrder(s, i, at);
    SwapInOrderIff(s, i, at);
    SwapOutSorted(s, i);
    UpToIff(a, price);
    hide SwapOut, RemoveAt, UpTo, LastOfKey, InOrder, Sorted, ActivateAll, KeyOf;
    if KeyOf(StopShelf, s[i]) <= price {
      BacksAgree(s, i, price);
      FrontInOrder(RemoveAt(s, i), n, at);
    } else if LastOfKey(s, i) <= i + 1 {
      FrontInOrder(a, n, at);
    } else {
      WrongWayRound(s, i, at);
      BackOut(s, i, n, at);
    }
  }

  /** After the cancel of a buy stop of a valid book: what a price sets off is what it would set off
    with the gap just closed, and is in order of arrival if the stops were, if and only if the
    cancelled stop's price is not reached or at most one other of its price stood behind it. */
  lemma BuysDrainInOrderIff(b: Book, i: nat, price: int, at: Id -> nat)
    requires BookInvariants.Valid(b) && i < |b.buyStops|
    ensures var s, a := b.buyStops, SwapOut(b.buyStops, i);
      var kept := price < KeyOf(StopShelf, s[i]) || LastOfKey(s, i) <= i + 1;
      && (DueStops(a, b.sellStops, price) == DueStops(RemoveAt(s, i), b.sellStops, price) <==> kept)
      && (InOrder(s, at) ==> (InOrder(ActivateAll(a[..UpTo(a, price)]), at) <==> kept))
  {
    hide SwapOut, RemoveAt, UpTo, LastOfKey, InOrder, Sorted, ActivateAll, KeyOf, DueStops, DistinctIds, Shaped, Distinct;
    StopsAreDistinct(b);
    BuysDrainAlikeIff(b.buyStops, b.sellStops, i, price);
    if InOrder(b.buyStops, at) { BuysInOrderIff(b.buyStops, i, price, at); }
  }

  /** And after the cancel of a sell stop. */
  lemma SellsDrainInOrderIff(b: Book, i: nat, price: int, at: Id -> nat)
    requires BookInvariants.Valid(b) && i < |b.sellStops|
    ensures var s, a := b.sellStops, SwapOut(b.sellStops, i);
      var kept := KeyOf(StopShelf, s[i]) < price || LastOfKey(s, i) <= i + 1;
      && (DueStops(b.buyStops, a, price) == DueStops(b.buyStops, RemoveAt(s, i), price) <==> kept)
      && (InOrder(s, at) ==> (InOrder(ActivateAll(a[UpTo(a, price - 1)..]), at) <==> kept))
  {
    hide SwapOut, RemoveAt, UpTo, LastOfKey, InOrder, Sorted, ActivateAll, KeyOf, DueStops, DistinctIds, Shaped, Distinct;
    StopsAreDistinct(b);
    SellsDrainAlikeIff(b.buyStops, b.sellStops, i, price);
    if InOrder(b.sellStops, at) { SellsInOrderIff(b.sellStops, i, price - 1, at); }
  }

  lemma BackOut(s: seq<Order>, i: nat, n: nat, at: Id -> nat)
    requires n <= i < |s| && InOrder(s, at) && i + 1 < LastOfKey(s, i)
    ensures !InOrder(SwapOut(s, i)[n..], at)
  {
    var a := SwapOut(s, i);
    WrongWayRound(s, i, at);
    hide SwapOut, LastOfKey, InOrder, KeyOf;
    assert a[n..][i - n] == a[i] && a[n..][i - n + 1] == a[i + 1];
    OutOfOrder(a[n..], i - n, at);
  }

  // ---- Over a history of the registry --------------------------------------------

  /** What happens to the stops of one side: one comes, one is cancelled, or a price is reached that
    sets off a part of them. */
  datatype Act = Arrive(order: Order) | Leave(id: Id) | Reach(price: int)

  function Acted(side: Side, s: seq<Order>, act: Act): seq<Order> {
    match act
    case Arrive(o) => Insert(StopShelf, s, o)
    case Leave(id) => if Has(s, id) then SwapOut(s, Find(s, id)) else s
    case Reach(price) => if side == Buy then LaterBuys(s, price) else LaterSells(s, price)
  }

  /** The stops of a side after a history, as the registry holds them. */
  function Line(side: Side, acts: seq<Act>): seq<Order> {
    if acts == [] then [] else Acted(side, Line(side, acts[..|acts| - 1]), acts[|acts| - 1])
  }

  /** When an id last arrived. */
  function Arrival(acts: seq<Act>, x: Id): nat {
    if acts == [] then 0
    else if acts[|acts| - 1].Arrive? && acts[|acts| - 1].order.id == x then |acts|
    else Arrival(acts[..|acts| - 1], x)
  }

  /** No stop comes under an id that came before. */
  predicate FreshArrivals(acts: seq<Act>) {
    acts == [] ||
    (FreshArrivals(acts[..|acts| - 1]) &&
     (acts[|acts| - 1].Arrive? ==> Arrival(acts[..|acts| - 1], acts[|acts| - 1].order.id) == 0))
  }

  /** Every cancel was of the last of its price or the last but one. */
  predicate OrderlyCancels(side: Side, acts: seq<Act>) {
    acts == [] ||
    (OrderlyCancels(side, acts[..|acts| - 1]) &&
     (acts[|acts| - 1].Leave? ==>
       var s, id := Line(side, acts[..|acts| - 1]), acts[|acts| - 1].id;
       Has(s, id) ==> LastOfKey(s, Find(s, id)) <= Find(s, id) + 1))
  }

  ghost predicate Arrived(s: seq<Order>, acts: seq<Act>) {
    forall o :: o in s ==> 0 < Arrival(acts, o.id) <= |acts|
  }

  lemma {:induction false} LineArrived(side: Side, acts: seq<Act>)
    ensures Arrived(Line(side, acts), acts) && Sorted(StopShelf, Line(side, acts))
  {
    if acts != [] {
      var before := acts[..|acts| - 1];
      var s := Line(side, before);
      LineArrived(side, before);
      match acts[|acts| - 1]
      case Arrive(o) =>
        InsertMembers(StopShelf, s, o);
        InsertSorted(StopShelf, s, o);
      case Leave(id) =>
        if Has(s, id) {
          SwapOutMembers(s, Find(s, id));
          SwapOutSorted(s, Find(s, id));
        }
      case Reach(price) =>
    }
  }

  lemma InOrderBehind(front: Order, rest: seq<Order>, at: Id -> nat)
    requires InOrder(rest, at)
    requires forall o :: o in rest && KeyOf(StopShelf, front) == KeyOf(StopShelf, o) ==> at(front.id) < at(o.id)
    ensures InOrder([front] + rest, at)
  {
    assert forall j :: 0 <= j < |rest| ==> rest[j] in rest;
  }

  lemma {:induction false} InsertInOrder(s: seq<Order>, o: Order, at: Id -> nat)
    requires Sorted(StopShelf, s) && InOrder(s, at)
    requires forall x :: x in s ==> at(x.id) < at(o.id)
    ensures InOrder(Insert(StopShelf, s, o), at)
  {
    if s == [] || RankOf(StopShelf, o) < RankOf(StopShelf, s[0]) {
      FirstOfAll(s, o);
      hide InOrder, KeyOf;
      InOrderBehind(o, s, at);
    } else {
      FrontLater(s, at);
      InsertInOrder(s[1..], o, at);
      InsertMembers(StopShelf, s[1..], o);
      hide InOrder, KeyOf, Sorted;
      InOrderBehind(s[0], Insert(StopShelf, s[1..], o), at);
    }
  }

  lemma FirstOfAll(s: seq<Order>, o: Order)
    requires Sorted(StopShelf, s) && (s == [] || RankOf(StopShelf, o) < RankOf(StopShelf, s[0]))
    ensures forall x :: x in s ==> KeyOf(StopShelf, o) != KeyOf(StopShelf, x)
  {
    assert forall k :: 0 < k < |s| ==> RankOf(StopShelf, s[0]) <= RankOf(StopShelf, s[k]);
  }

  lemma FrontLater(s: seq<Order>, at: Id -> nat)
    requires s != [] && Sorted(StopShelf, s) && InOrder(s, at)
    ensures Sorted(StopShelf, s[1..]) && InOrder(s[1..], at) && s[0] in s && forall x :: x in s[1..] ==> x in s
    ensures forall x :: x in s[1..] && KeyOf(StopShelf, s[0]) == KeyOf(StopShelf, x) ==> at(s[0].id) < at(x.id)
  {
    assert forall k :: 0 <= k < |s| - 1 ==> s[1..][k] == s[k + 1];
  }

  lemma SameTimes(s: seq<Order>, at: Id -> nat, later: Id -> nat)
    requires InOrder(s, at) && forall o :: o in s ==> at(o.id) == later(o.id)
    ensures InOrder(s, later)
  {
  }

  lemma ActInOrder(side: Side, s: seq<Order>, last: Act, at: Id -> nat)
    requires Sorted(StopShelf, s) && InOrder(s, at)
    requires last.Arrive? ==> forall x :: x in s ==> at(x.id) < at(last.order.id)
    requires last.Leave? && Has(s, last.id) ==> LastOfKey(s, Find(s, last.id)) <= Find(s, last.id) + 1
    ensures InOrder(Acted(side, s, last), at)
  {
    hide SwapOut, LastOfKey, Insert, InOrder, Sorted, UpTo, KeyOf, Find;
    match last
    case Arrive(o) => InsertInOrder(s, o, at);
    case Leave(id) => if Has(s, id) { SwapInOrderIff(s, Find(s, id), at); }
    case Reach(price) =>
      FrontInOrder(s, UpTo(s, price), at);
      FrontInOrder(s, UpTo(s, price - 1), at);
  }

  /** Over every history of a side: the stops stand in order of arrival as long as every cancel was
    orderly; and from stops in order a cancel leaves them in order if and only if it is. */
  lemma {:induction false} OrderlyCancelsKeepOrder(side: Side, acts: seq<Act>)
    requires FreshArrivals(acts) && OrderlyCancels(side, acts)
    ensures InOrder(Line(side, acts), x => Arrival(acts, x))
  {
    if acts != [] {
      var before := acts[..|acts| - 1];
      var s := Line(side, before);
      var at, later := x => Arrival(before, x), x => Arrival(acts, x);
      hide SwapOut, LastOfKey, Insert, InOrder, Sorted, UpTo, KeyOf, Find, LaterBuys, LaterSells;
      OrderlyCancelsKeepOrder(side, before);
      LineArrived(side, before);
      assert forall o :: o in s ==> at(o.id) == later(o.id);
      SameTimes(s, at, later);
      ActInOrder(side, s, acts[|acts| - 1], later);
    } else {
      NoneInOrder(x => Arrival(acts, x));
    }
  }

  lemma NoneInOrder(at: Id -> nat)
    ensures InOrder([], at)
  {
  }

  lemma CancelKeepsOrderIff(side: Side, acts: seq<Act>, id: Id)
    requires InOrder(Line(side, acts), x => Arrival(acts, x)) && Has(Line(side, acts), id)
    ensures var s, later := Line(side, acts), acts + [Leave(id)];
      InOrder(Line(side, later), x => Arrival(later, x)) <==> LastOfKey(s, Find(s, id)) <= Find(s, id) + 1
  {
    var later, s := acts + [Leave(id)], Line(side, acts);
    assert later[..|later| - 1] == acts;
    var at, after := x => Arrival(acts, x), x => Arrival(later, x);
    assert forall x :: at(x) == after(x);
    SameTimes(s, at, after);
    SwapInOrderIff(s, Find(s, id), after);
  }

  // ---- A run in which the order is lost ------------------------------------------

  ghost predicate WaitsAt(o: Order, price: int) {
    o.kind == StopMarket && o.side == Buy && o.stopPrice == Some(price) && o.Ready()
  }

  lemma PlayStep(cmds: seq<Command>, last: Command)
    ensures (cmds + [last])[..|cmds|] == cmds && (cmds + [last])[|cmds|] == last
  {
  }

  /** A book in which only buy stops wait, all at one price. */
  ghost predicate Lined(b: Book, price: int) {
    b == EmptyBook.(buyStops := b.buyStops) && forall o :: o in b.buyStops ==> o.stopPrice == Some(price)
  }

  lemma Parks(b: Book, o: Order, price: int)
    requires Lined(b, price) && WaitsAt(o, price)
    ensures Park(b, o).0 == EmptyBook.(buyStops := b.buyStops + [o]) && Lined(Park(b, o).0, price)
  {
    InsertBetween(StopShelf, b.buyStops, [], o);
    assert b.buyStops + [] == b.buyStops && b.buyStops + [o] + [] == b.buyStops + [o];
  }

  /** Registering a stop of the price of all that wait. */
  lemma StopJoins(cmds: seq<Command>, o: Order, price: int) returns (later: seq<Command>)
    requires FreshIds(cmds) && WaitsAt(o, price) && Brought(Count(o.id), cmds) == 0 && Lined(Play(cmds).0, price)
    ensures later == cmds + [Place(o)] && FreshIds(later)
    ensures Lined(Play(later).0, price) && Play(later).0.buyStops == Play(cmds).0.buyStops + [o]
    ensures forall x :: Brought(Count(x), later) == Brought(Count(x), cmds) + if x == o.id then 1 else 0
  {
    hide Park, Known, Shaped, Distinct, Lined, Insert, BookInvariants.Valid;
    later := cmds + [Place(o)];
    PlayStep(cmds, Place(o));
    Parks(Play(cmds).0, o, price);
  }

  /** Three stops of one price, the first of them cancelled: the third is set off before the
    second. */
  lemma CancelReorders(x: Order, y: Order, z: Order, price: int) returns (cmds: seq<Command>)
    requires WaitsAt(x, price) && WaitsAt(y, price) && WaitsAt(z, price)
    requires x.id != y.id && x.id != z.id && y.id != z.id
    ensures cmds == [Place(x), Place(y), Place(z), Cancel(x.id)] && FreshIds(cmds)
    ensures Due(Play(cmds).0, price) == [Activate(z), Activate(y)]
  {
    hide Lined, WaitsAt, Brought, FreshIds, Play;
    NothingLined(price);
    var first := StopJoins([], x, price);
    var second := StopJoins(first, y, price);
    var third := StopJoins(second, z, price);
    assert [] + [x] + [y] + [z] == [x, y, z];
    cmds := third + [Cancel(x.id)];
    CancelledFirst(third, x, y, z, price);
  }

  lemma NothingLined(price: int)
    ensures FreshIds([]) && Lined(Play([]).0, price) && Play([]).0.buyStops == []
    ensures forall x :: Brought(Count(x), []) == 0
  {
  }

  lemma SwappedIn(x: Order, y: Order, z: Order, price: int)
    requires WaitsAt(x, price) && WaitsAt(y, price) && WaitsAt(z, price)
    ensures LastOfKey([x, y, z], 0) == 2 && SwapOut([x, y, z], 0) == [z, y] && Has([x, y, z], x.id)
    ensures Find([x, y, z], x.id) == 0
    ensures UpTo([z, y], price) == 2 && ActivateAll([z, y]) == [Activate(z), Activate(y)]
  {
    assert [x, y, z][0 := z] == [z, y, z];
    assert [z, y][1..] == [y] && [y][1..] == [];
    assert UpTo([], price) == 0 && UpTo([y], price) == 1;
    assert ActivateAll([]) == [] && ActivateAll([y]) == [Activate(y)];
    assert LastOfKey([x, y, z], 1) == 2;
  }

  lemma TakenOut(b: Book, x: Order, y: Order, z: Order, price: int)
    requires WaitsAt(x, price) && WaitsAt(y, price) && WaitsAt(z, price)
    requires b == EmptyBook.(buyStops := [x, y, z])
    ensures CancelOrder(b, x.id).0 == EmptyBook.(buyStops := [z, y])
  {
    hide WaitsAt, SwapOut, Find, UpTo;
    SwappedIn(x, y, z, price);
  }

  lemma AllDue(buys: seq<Order>, none: seq<Order>, price: int)
    requires UpTo(buys, price) == |buys| && none == []
    ensures DueStops(buys, none, price) == ActivateAll(buys)
  {
    assert buys[..|buys|] == buys;
    assert ActivateAll(none) == [];
    assert ActivateAll(buys) + [] == ActivateAll(buys);
  }

  lemma BothDue(b: Book, x: Order, y: Order, z: Order, price: int)
    requires WaitsAt(x, price) && WaitsAt(y, price) && WaitsAt(z, price)
    requires b == EmptyBook.(buyStops := [z, y])
    ensures Due(b, price) == [Activate(z), Activate(y)]
  {
    hide WaitsAt, SwapOut, Find, UpTo, ActivateAll, DueStops;
    SwappedIn(x, y, z, price);
    AllDue(b.buyStops, b.sellStops, price);
  }

  lemma CancelledFirst(third: seq<Command>, x: Order, y: Order, z: Order, price: int)
    requires WaitsAt(x, price) && WaitsAt(y, price) && WaitsAt(z, price)
    requires FreshIds(third) && Lined(Play(third).0, price) && Play(third).0.buyStops == [x, y, z]
    ensures FreshIds(third + [Cancel(x.id)])
    ensures Due(Play(third + [Cancel(x.id)]).0, price) == [Activate(z), Activate(y)]
  {
    var b := Play(third).0;
    TakenOut(b, x, y, z, price);
    BothDue(CancelOrder(b, x.id).0, x, y, z, price);
    PlayStep(third, Cancel(x.id));
    hide Known, Shaped, Distinct, WaitsAt, Due, CancelOrder, Lined, BookInvariants.Valid;
  }
}
