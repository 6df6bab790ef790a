/** The stop registry (engine/crates/core/src/stop.rs): buckets of stop orders by stop
  price, one map for each side, changed in place. */
module Stops {
  import opened Orders
  import opened Ladder
  import opened Levels
  import opened Matcher

  // ---- Cutting a map of buckets at a price ---------------------------------------

  function KeysUpTo(m: map<int, Level>, price: int): set<int> {
    set k | k in m && k <= price
  }

  /** The buckets up to a price hold exactly the list's orders up to that stop price. */
  lemma CutAt(m: map<int, Level>, price: int)
    requires Keyed(StopShelf, m)
    ensures var low, high := Restrict(m, KeysUpTo(m, price)), m - KeysUpTo(m, price);
      && Flat(StopShelf, m) == Flat(StopShelf, low) + Flat(StopShelf, high)
      && UpTo(Flat(StopShelf, m), price) == |Flat(StopShelf, low)|
  {
    hide Flat, UpTo;
    var low, high := Restrict(m, KeysUpTo(m, price)), m - KeysUpTo(m, price);
    assert Above(StopShelf, low, price) == Above(StopShelf, m, price);
    assert Below(StopShelf, low, price) == map[];
    assert Below(StopShelf, m, price) == high;
    Split(StopShelf, m, price);
    Split(StopShelf, low, price);
    FlatEmpty(StopShelf);
    assert At(low, price) == At(m, price);
    CutRanks(m, price);
    UpToConcat(Flat(StopShelf, low), Flat(StopShelf, high), price);
  }

  lemma CutRanks(m: map<int, Level>, price: int)
    requires Keyed(StopShelf, m)
    ensures forall o :: o in Flat(StopShelf, Restrict(m, KeysUpTo(m, price))) ==> KeyOf(StopShelf, o) <= price
    ensures forall o :: o in Flat(StopShelf, m - KeysUpTo(m, price)) ==> KeyOf(StopShelf, o) > price
  {
    FlatMembers(StopShelf, Restrict(m, KeysUpTo(m, price)));
    FlatMembers(StopShelf, m - KeysUpTo(m, price));
  }

  lemma {:induction false} UpToConcat(a: seq<Order>, b: seq<Order>, price: int)
    requires forall o :: o in a ==> KeyOf(StopShelf, o) <= price
    requires forall o :: o in b ==> KeyOf(StopShelf, o) > price
    ensures UpTo(a + b, price) == |a|
  {
    if a == [] {
      assert a + b == b;
      if b != [] { assert b[0] in b; }
    } else {
      assert a[0] in a;
      assert (a + b)[1..] == a[1..] + b;
      UpToConcat(a[1..], b, price);
    }
  }

  lemma {:induction false} ActivateConcat(a: seq<Order>, b: seq<Order>)
    ensures ActivateAll(a + b) == ActivateAll(a) + ActivateAll(b)
  {
    if a == [] {
      assert a + b == b;
    } else {
      assert (a + b)[1..] == a[1..] + b;
      ActivateConcat(a[1..], b);
    }
  }

  /** Takes the buckets with the given keys out of a map, in ascending order, activating
    their orders. */
  method RemoveBuckets(m: map<int, Level>, keys: set<int>) returns (out: seq<Order>, rest: map<int, Level>)
    requires keys <= m.Keys
    ensures out == ActivateAll(Flat(StopShelf, Restrict(m, keys)))
    ensures rest == m - keys
  {
    hide Flat, ActivateAll;
    var todo := keys;
    out, rest := [], m;
    ghost var taken: seq<Order> := [];
    ActivateNone();
    while todo != {}
      invariant todo <= keys
      invariant rest == m - (keys - todo)
      invariant out == ActivateAll(taken)
      invariant taken + Flat(StopShelf, Restrict(m, todo)) == Flat(StopShelf, Restrict(m, keys))
      decreases todo
    {
      var k := BestKey(StopShelf, todo);
      FlatNext(StopShelf, m, todo, k);
      ActivateConcat(taken, m[k]);
      assert (taken + m[k]) + Flat(StopShelf, Restrict(m, todo - {k}))
          == taken + (m[k] + Flat(StopShelf, Restrict(m, todo - {k})));
      out := out + ActivateAll(m[k]);
      taken := taken + m[k];
      rest := rest - {k};
      todo := todo - {k};
    }
    FlatEmpty(StopShelf);
    assert Restrict(m, {}) == map[];
    assert taken + [] == taken;
  }

  lemma ActivateNone()
    ensures ActivateAll([]) == []
  {
  }

  /** Looks through the buckets in ascending order for an order's id. */
  method FindBucket(m: map<int, Level>, id: Id) returns (key: Option<int>)
    ensures key.None? ==> !Has(Flat(StopShelf, m), id)
    ensures key.Some? ==>
      && key.value in m && Has(m[key.value], id)
      && !Has(Flat(StopShelf, Above(StopShelf, m, key.value)), id)
  {
    hide Flat, Find;
    var todo := m.Keys;
    while todo != {}
      invariant todo <= m.Keys
      invariant forall k :: k in m && k !in todo ==> !Has(m[k], id)
      decreases todo
    {
      var k := BestKey(StopShelf, todo);
      if Has(m[k], id) {
        NotInLevels(Above(StopShelf, m, k), id);
        return Some(k);
      }
      todo := todo - {k};
    }
    NotInLevels(m, id);
    key := None;
  }

  lemma NotInLevels(m: map<int, Level>, id: Id)
    requires forall k :: k in m ==> !Has(m[k], id)
    ensures !Has(Flat(StopShelf, m), id)
  {
    FlatMembers(StopShelf, m);
    hide Flat;
    var s := Flat(StopShelf, m);
    forall o | o in s ensures o.id != id {
      var k :| k in m && o in m[k];
      CountIsPresence(m[k], id);
    }
    CountIsPresence(s, id);
  }

  /** `swap_remove` in one bucket, which stays behind even when it is empty. */
  method RemoveFrom(m: map<int, Level>, key: int, id: Id) returns (r: map<int, Level>)
    requires Keyed(StopShelf, m) && key in m && Has(m[key], id)
    requires !Has(Flat(StopShelf, Above(StopShelf, m, key)), id)
    ensures Keyed(StopShelf, r)
    ensures var s := Flat(StopShelf, m);
      Has(s, id) && Flat(StopShelf, r) == SwapOut(s, Find(s, id))
  {
    var pos := Find(m[key], id);
    r := m[key := SwapRemove(m[key], pos)];
    SwapIsSwapOut(m, key, id);
  }

  lemma SwapIsSwapOut(m: map<int, Level>, key: int, id: Id)
    requires Keyed(StopShelf, m) && key in m && Has(m[key], id)
    requires !Has(Flat(StopShelf, Above(StopShelf, m, key)), id)
    ensures var r, s := m[key := SwapRemove(m[key], Find(m[key], id))], Flat(StopShelf, m);
      Keyed(StopShelf, r) && Has(s, id) && Flat(StopShelf, r) == SwapOut(s, Find(s, id))
  {
    var q, pos := m[key], Find(m[key], id);
    SwapRemoveMembers(q, pos);
    AboveBelowRanks(StopShelf, m, key);
    Split(StopShelf, m, key);
    SplitUpdate(StopShelf, m, key, SwapRemove(q, pos));
    hide Flat, Find, SwapOut, SwapRemove;
    SwapFound(Flat(StopShelf, Above(StopShelf, m, key)), q, Flat(StopShelf, Below(StopShelf, m, key)), id, key);
  }

  lemma SwapFound(p: seq<Order>, q: Level, z: seq<Order>, id: Id, key: int)
    requires !Has(p, id) && Has(q, id)
    requires forall o :: o in q ==> KeyOf(StopShelf, o) == key
    requires forall o :: o in z ==> KeyOf(StopShelf, o) > key
    ensures Has(p + q + z, id)
    ensures SwapOut(p + q + z, Find(p + q + z, id)) == p + SwapRemove(q, Find(q, id)) + z
  {
    hide Find, SwapOut, SwapRemove, KeyOf;
    FindInLevel(p, q, z, id);
    SwapInLevel(p, q, z, Find(q, id), key);
  }

  lemma SwapRemoveMembers(q: Level, i: nat)
    requires i < |q|
    ensures forall o :: o in SwapRemove(q, i) ==> o in q
  {
  }

  lemma KeepsOrderIff(s: seq<Order>, id: Id)
    ensures Has(s, id) && DistinctIds(s) ==>
      (SwapOut(s, Find(s, id)) == RemoveAt(s, Find(s, id)) <==> LastOfKey(s, Find(s, id)) <= Find(s, id) + 1)
  {
    if Has(s, id) && DistinctIds(s) { SwapKeepsOrderIff(s, Find(s, id)); }
  }

  class StopRegistry {
    var buyStops: map<int, Level>
    var sellStops: map<int, Level>

    ghost predicate Valid()
      reads this
    {
      Keyed(StopShelf, buyStops) && Keyed(StopShelf, sellStops)
    }

    /** The stops of a side in the order in which the buckets hold them. */
    ghost function Waiting(side: Side): seq<Order>
      reads this
    {
      Flat(StopShelf, if side == Buy then buyStops else sellStops)
    }

    constructor ()
      ensures Valid() && Waiting(Buy) == [] && Waiting(Sell) == []
    {
      buyStops, sellStops := map[], map[];
    }

    /** Refuses an order without a stop price; otherwise it joins its bucket's back. */
    method Insert(order: Order) returns (ok: bool)
      requires Valid()
      modifies this
      ensures Valid()
      ensures ok == order.stopPrice.Some?
      ensures Waiting(order.side) ==
        if ok then Ladder.Insert(StopShelf, old(Waiting(order.side)), order) else old(Waiting(order.side))
      ensures Waiting(order.side.Opposite()) == old(Waiting(order.side.Opposite()))
    {
      if order.stopPrice.None? {
        return false;
      }
      var k := order.stopPrice.value;
      if order.side == Buy {
        PushIsInsert(StopShelf, buyStops, order);
        buyStops := buyStops[k := At(buyStops, k) + [order]];
      } else {
        PushIsInsert(StopShelf, sellStops, order);
        sellStops := sellStops[k := At(sellStops, k) + [order]];
      }
      return true;
    }

    /** Removes the stop called `id`; buy stops are searched first. */
    method Cancel(id: Id) returns (found: bool)
      requires Valid()
      modifies this
      ensures Valid()
      ensures found == (old(Has(Waiting(Buy), id)) || old(Has(Waiting(Sell), id)))
      ensures Waiting(Buy) ==
        if old(Has(Waiting(Buy), id)) then SwapOut(old(Waiting(Buy)), Find(old(Waiting(Buy)), id))
        else old(Waiting(Buy))
      ensures Waiting(Sell) ==
        if old(!Has(Waiting(Buy), id) && Has(Waiting(Sell), id))
        then SwapOut(old(Waiting(Sell)), Find(old(Waiting(Sell)), id))
        else old(Waiting(Sell))
      ensures found ==>
        var side := if old(Has(Waiting(Buy), id)) then Buy else Sell;
        var s := old(Waiting(side));
        Has(s, id) && (DistinctIds(s) ==>
          (Waiting(side) == RemoveAt(s, Find(s, id)) <==> LastOfKey(s, Find(s, id)) <= Find(s, id) + 1))
    {
      hide Find, Flat, SwapOut, RemoveAt, LastOfKey, DistinctIds;
      var key := FindBucket(buyStops, id);
      if key.Some? {
        KeepsOrderIff(Waiting(Buy), id);
        buyStops := RemoveFrom(buyStops, key.value, id);
        return true;
      }
      key := FindBucket(sellStops, id);
      if key.Some? {
        KeepsOrderIff(Waiting(Sell), id);
        sellStops := RemoveFrom(sellStops, key.value, id);
        return true;
      }
      return false;
    }

    /** Takes out and activates every stop that the trade price triggers. */
    method DrainTriggered(price: int) returns (out: seq<Order>)
      requires Valid()
      modifies this
      ensures Valid()
      ensures out == DueStops(old(Waiting(Buy)), old(Waiting(Sell)), price)
      ensures Waiting(Buy) == LaterBuys(old(Waiting(Buy)), price)
      ensures Waiting(Sell) == LaterSells(old(Waiting(Sell)), price)
    {
      var bought := DrainBuyStops(price);
      var sold := DrainSellStops(price);
      out := bought + sold;
    }

    method DrainBuyStops(price: int) returns (out: seq<Order>)
      requires Valid()
      modifies this`buyStops
      ensures Valid()
      ensures var s := old(Waiting(Buy));
        Waiting(Buy) == s[UpTo(s, price)..] && out == ActivateAll(s[..UpTo(s, price)])
    {
      CutAt(buyStops, price);
      out, buyStops := RemoveBuckets(buyStops, KeysUpTo(buyStops, price));
    }

    method DrainSellStops(price: int) returns (out: seq<Order>)
      requires Valid()
      modifies this`sellStops
      ensures Valid()
      ensures var s := old(Waiting(Sell));
        Waiting(Sell) == s[..UpTo(s, price - 1)] && out == ActivateAll(s[UpTo(s, price - 1)..])
    {
      CutAt(sellStops, price - 1);
      var keys := sellStops.Keys - KeysUpTo(sellStops, price - 1);
      assert Restrict(sellStops, keys) == sellStops - KeysUpTo(sellStops, price - 1);
      assert sellStops - keys == Restrict(sellStops, KeysUpTo(sellStops, price - 1));
      out, sellStops := RemoveBuckets(sellStops, keys);
    }
  }
}
