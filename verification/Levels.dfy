/** Sorted maps from a price to the queue of orders at that price, and the flat price-time
  list such a map stands for. */
module Levels {
  import opened Orders
  import opened Ladder
  import opened Sets

  type Level = seq<Order>

  /** The key reached first: the highest bid, otherwise the lowest price. */
  function BestKey(shelf: Shelf, keys: set<int>): (k: int)
    requires keys != {}
    ensures k in keys && forall j :: j in keys ==> Rank(shelf, k) <= Rank(shelf, j)
  {
    BestKeyExists(shelf, keys);
    var k :| k in keys && forall j :: j in keys ==> Rank(shelf, k) <= Rank(shelf, j);
    k
  }

  lemma {:induction false} BestKeyExists(shelf: Shelf, keys: set<int>)
    ensures keys == {} || exists k :: k in keys && forall j :: j in keys ==> Rank(shelf, k) <= Rank(shelf, j)
  {
    if keys != {} {
      var x := Element(keys);
      var rest := keys - {x};
      BestKeyExists(shelf, rest);
      if rest == {} {
        assert keys == {x};
      } else {
        var k :| k in rest && forall j :: j in rest ==> Rank(shelf, k) <= Rank(shelf, j);
        var best := if Rank(shelf, k) < Rank(shelf, x) then k else x;
        forall j | j in keys ensures Rank(shelf, best) <= Rank(shelf, j) {
          if j != x { assert j in rest; }
        }
        assert best in keys;
      }
    }
  }

  /** The whole map as one list, best level first. */
  ghost function Flat(shelf: Shelf, m: map<int, Level>): seq<Order>
    decreases m.Keys
  {
    if m == map[] then []
    else
      var k := BestKey(shelf, m.Keys);
      assert k in m.Keys && (m - {k}).Keys == m.Keys - {k};
      m[k] + Flat(shelf, m - {k})
  }

  /** The levels strictly better, and strictly worse, than a key. */
  ghost function Above(shelf: Shelf, m: map<int, Level>, k: int): map<int, Level> {
    map j | j in m && Rank(shelf, j) < Rank(shelf, k) :: m[j]
  }

  ghost function Below(shelf: Shelf, m: map<int, Level>, k: int): map<int, Level> {
    map j | j in m && Rank(shelf, k) < Rank(shelf, j) :: m[j]
  }

  function At(m: map<int, Level>, k: int): Level {
    if k in m then m[k] else []
  }

  lemma FlatEmpty(shelf: Shelf)
    ensures Flat(shelf, map[]) == []
  {
  }

  /** The best level comes first. */
  lemma FlatUnfold(shelf: Shelf, m: map<int, Level>, b: int)
    requires b in m && forall j :: j in m ==> Rank(shelf, b) <= Rank(shelf, j)
    ensures Flat(shelf, m) == m[b] + Flat(shelf, m - {b})
    ensures (m - {b}).Keys == m.Keys - {b}
  {
    assert b in m.Keys && BestKey(shelf, m.Keys) == b;
  }

  function Restrict(m: map<int, Level>, keys: set<int>): map<int, Level> {
    map k | k in m && k in keys :: m[k]
  }

  /** Walking a map level by level, best key first. */
  lemma FlatNext(shelf: Shelf, m: map<int, Level>, todo: set<int>, k: int)
    requires todo <= m.Keys && k in todo && forall j :: j in todo ==> Rank(shelf, k) <= Rank(shelf, j)
    ensures Flat(shelf, Restrict(m, todo)) == m[k] + Flat(shelf, Restrict(m, todo - {k}))
  {
    FlatUnfold(shelf, Restrict(m, todo), k);
    assert Restrict(m, todo) - {k} == Restrict(m, todo - {k});
  }

  /** Any key cuts the list into what is reached before, at and after it. */
  lemma {:induction false} Split(shelf: Shelf, m: map<int, Level>, k: int)
    ensures Flat(shelf, m) == Flat(shelf, Above(shelf, m, k)) + At(m, k) + Flat(shelf, Below(shelf, m, k))
    decreases m.Keys
  {
    hide Flat;
    FlatEmpty(shelf);
    if m == map[] {
      assert Above(shelf, m, k) == map[] && Below(shelf, m, k) == map[];
    } else {
      var b := BestKey(shelf, m.Keys);
      FlatUnfold(shelf, m, b);
      if Rank(shelf, b) < Rank(shelf, k) {
        Split(shelf, m - {b}, k);
        SplitStep(shelf, m, k, b);
        var fa, q, fb := Flat(shelf, Above(shelf, m - {b}, k)), At(m, k), Flat(shelf, Below(shelf, m, k));
        assert m[b] + (fa + q + fb) == (m[b] + fa) + q + fb;
      } else {
        SplitBase(shelf, m, k, b);
        assert [] + At(m, k) == At(m, k);
      }
    }
  }

  lemma SplitStep(shelf: Shelf, m: map<int, Level>, k: int, b: int)
    requires b in m && forall j :: j in m ==> Rank(shelf, b) <= Rank(shelf, j)
    requires Rank(shelf, b) < Rank(shelf, k)
    ensures Flat(shelf, Above(shelf, m, k)) == m[b] + Flat(shelf, Above(shelf, m - {b}, k))
    ensures At(m - {b}, k) == At(m, k)
    ensures Below(shelf, m - {b}, k) == Below(shelf, m, k)
  {
    hide Flat;
    assert b in Above(shelf, m, k);
    FlatUnfold(shelf, Above(shelf, m, k), b);
    assert Above(shelf, m - {b}, k) == Above(shelf, m, k) - {b};
  }

  lemma SplitBase(shelf: Shelf, m: map<int, Level>, k: int, b: int)
    requires b in m && forall j :: j in m ==> Rank(shelf, b) <= Rank(shelf, j)
    requires Rank(shelf, k) <= Rank(shelf, b)
    ensures Above(shelf, m, k) == map[]
    ensures Flat(shelf, m) == At(m, k) + Flat(shelf, Below(shelf, m, k))
  {
    hide Flat;
    FlatUnfold(shelf, m, b);
    if b == k {
      assert Below(shelf, m, k) == m - {k};
    } else {
      assert Below(shelf, m, k) == m;
    }
  }

  /** Changing or removing one level changes only its stretch of the list. */
  lemma SplitUpdate(shelf: Shelf, m: map<int, Level>, k: int, q: Level)
    ensures Flat(shelf, m[k := q]) == Flat(shelf, Above(shelf, m, k)) + q + Flat(shelf, Below(shelf, m, k))
  {
    hide Flat;
    Split(shelf, m[k := q], k);
    assert Above(shelf, m[k := q], k) == Above(shelf, m, k);
    assert Below(shelf, m[k := q], k) == Below(shelf, m, k);
  }

  lemma SplitRemove(shelf: Shelf, m: map<int, Level>, k: int)
    ensures Flat(shelf, m - {k}) == Flat(shelf, Above(shelf, m, k)) + Flat(shelf, Below(shelf, m, k))
  {
    hide Flat;
    Split(shelf, m - {k}, k);
    assert Above(shelf, m - {k}, k) == Above(shelf, m, k);
    assert Below(shelf, m - {k}, k) == Below(shelf, m, k);
    assert Flat(shelf, Above(shelf, m, k)) + [] == Flat(shelf, Above(shelf, m, k));
  }

  /** Every order sits in the queue of its own key. */
  ghost predicate Keyed(shelf: Shelf, m: map<int, Level>) {
    forall k, o :: k in m && o in m[k] ==> KeyOf(shelf, o) == k
  }

  lemma {:induction false} FlatMembers(shelf: Shelf, m: map<int, Level>)
    ensures forall o :: o in Flat(shelf, m) <==> exists k :: k in m && o in m[k]
    decreases m.Keys
  {
    if m != map[] {
      var b := BestKey(shelf, m.Keys);
      assert b in m.Keys && (m - {b}).Keys == m.Keys - {b};
      FlatMembers(shelf, m - {b});
      forall o ensures o in Flat(shelf, m) <==> exists k :: k in m && o in m[k] {
        if o in Flat(shelf, m - {b}) {
          var k :| k in m - {b} && o in (m - {b})[k];
          assert k in m && o in m[k];
        }
        if exists k :: k in m && o in m[k] {
          var k :| k in m && o in m[k];
          if k != b { assert k in m - {b} && o in (m - {b})[k]; }
        }
      }
    }
  }

  lemma AboveBelowRanks(shelf: Shelf, m: map<int, Level>, k: int)
    requires Keyed(shelf, m)
    ensures forall o :: o in Flat(shelf, Above(shelf, m, k)) ==> RankOf(shelf, o) < Rank(shelf, k)
    ensures forall o :: o in Flat(shelf, Below(shelf, m, k)) ==> Rank(shelf, k) < RankOf(shelf, o)
  {
    FlatMembers(shelf, Above(shelf, m, k));
    FlatMembers(shelf, Below(shelf, m, k));
  }

  /** Joining the back of the queue at the order's own key is insertion into the list. */
  lemma PushIsInsert(shelf: Shelf, m: map<int, Level>, o: Order)
    requires Keyed(shelf, m)
    ensures var k := KeyOf(shelf, o);
      && Keyed(shelf, m[k := At(m, k) + [o]])
      && Flat(shelf, m[k := At(m, k) + [o]]) == Insert(shelf, Flat(shelf, m), o)
  {
    hide Flat, Insert;
    var k := KeyOf(shelf, o);
    var p, z := Flat(shelf, Above(shelf, m, k)), Flat(shelf, Below(shelf, m, k));
    AboveBelowRanks(shelf, m, k);
    Split(shelf, m, k);
    SplitUpdate(shelf, m, k, At(m, k) + [o]);
    InsertBetween(shelf, p + At(m, k), z, o);
    assert p + (At(m, k) + [o]) + z == p + At(m, k) + [o] + z;
  }

  ghost predicate NoEmpty(m: map<int, Level>) {
    forall k :: k in m ==> m[k] != []
  }

  // ---- Finding by id -------------------------------------------------------------

  lemma {:induction false} FindConcat(a: seq<Order>, b: seq<Order>, id: Id)
    ensures Find(a + b, id) == if Has(a, id) then Find(a, id) else |a| + Find(b, id)
  {
    if a == [] {
      assert a + b == b;
    } else {
      assert (a + b)[1..] == a[1..] + b;
      FindConcat(a[1..], b, id);
    }
  }

  /** Removing an order from its level is removing it from the list. */
  lemma FindInLevel(p: seq<Order>, q: Level, z: seq<Order>, id: Id)
    requires !Has(p, id) && Has(q, id)
    ensures Has(p + q + z, id) && Find(p + q + z, id) == |p| + Find(q, id)
  {
    hide Find;
    FindConcat(p, q + z, id);
    FindConcat(q, z, id);
    assert p + q + z == p + (q + z);
  }

  lemma RemoveInLevel(p: seq<Order>, q: Level, z: seq<Order>, i: nat)
    requires i < |q|
    ensures RemoveAt(p + q + z, |p| + i) == p + RemoveAt(q, i) + z
  {
    var s := p + q + z;
    assert s[..|p| + i] == p + q[..i];
    assert s[|p| + i + 1..] == q[i + 1..] + z;
  }

  /** Removal of a bucket's entry by moving the bucket's last entry into its place. */
  function SwapRemove(q: Level, i: nat): (r: Level)
    requires i < |q|
    ensures |r| == |q| - 1
  {
    q[i := q[|q| - 1]][..|q| - 1]
  }

  lemma LastInLevel(p: seq<Order>, q: Level, z: seq<Order>, i: nat, k: int)
    requires i < |q|
    requires forall o :: o in q ==> KeyOf(StopShelf, o) == k
    requires forall o :: o in z ==> KeyOf(StopShelf, o) > k
    ensures LastOfKey(p + q + z, |p| + i) == |p| + |q| - 1
  {
    hide LastOfKey;
    var s := p + q + z;
    assert forall n :: |p| <= n < |p| + |q| ==> s[n] in q;
    assert forall n :: |p| + |q| <= n < |s| ==> s[n] in z;
  }

  lemma UpdateInLevel(p: seq<Order>, q: Level, z: seq<Order>, i: nat, o: Order)
    requires i < |q|
    ensures (p + q + z)[|p| + i := o] == p + q[i := o] + z
  {
  }

  lemma SwapSteps(s: seq<Order>, i: nat, j: nat, t: seq<Order>)
    requires i <= j < |s| && LastOfKey(s, i) == j && t == s[i := s[j]]
    ensures SwapOut(s, i) == RemoveAt(t, j)
  {
  }

  lemma IndexInLevel(p: seq<Order>, q: Level, z: seq<Order>, i: nat)
    requires i < |q|
    ensures (p + q + z)[|p| + i] == q[i]
  {
  }

  lemma SwapAtLast(p: seq<Order>, q: Level, z: seq<Order>, i: nat)
    requires i < |q| && LastOfKey(p + q + z, |p| + i) == |p| + |q| - 1
    ensures SwapOut(p + q + z, |p| + i) == p + SwapRemove(q, i) + z
  {
    hide *;
    IndexInLevel(p, q, z, |q| - 1);
    UpdateInLevel(p, q, z, i, q[|q| - 1]);
    SwapSteps(p + q + z, |p| + i, |p| + |q| - 1, p + q[i := q[|q| - 1]] + z);
    SwapRemoveIs(q, i);
    RemoveInLevel(p, q[i := q[|q| - 1]], z, |q| - 1);
  }

  lemma SwapRemoveIs(q: Level, i: nat)
    requires i < |q|
    ensures SwapRemove(q, i) == RemoveAt(q[i := q[|q| - 1]], |q| - 1)
  {
  }

  /** A bucket's swap removal is the same removal from the list. */
  lemma SwapInLevel(p: seq<Order>, q: Level, z: seq<Order>, i: nat, k: int)
    requires i < |q|
    requires forall o :: o in q ==> KeyOf(StopShelf, o) == k
    requires forall o :: o in z ==> KeyOf(StopShelf, o) > k
    ensures SwapOut(p + q + z, |p| + i) == p + SwapRemove(q, i) + z
  {
    LastInLevel(p, q, z, i, k);
    hide *;
    SwapAtLast(p, q, z, i);
  }
}
