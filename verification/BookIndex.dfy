/** The order index and the price levels of a book, and how the changes made to them in
  place show in the flat lists (engine/crates/core/src/book.rs). */
module BookIndex {
  import opened Orders
  import opened Ladder
  import opened Levels
  import opened Matcher
  import opened BookInvariants

  type Index = map<Id, (Side, int)>

  // ---- The index -----------------------------------------------------------------

  function Resters(g: Gauge, b: Book): int {
    Sum(g, b.bids) + Sum(g, b.asks)
  }

  /** The index knows an id exactly when a side holds it, and then that side and price. */
  ghost predicate IndexedAt(index: Index, b: Book, x: Id) {
    && (x in index <==> Resters(Count(x), b) > 0)
    && (x in index ==> index[x] == (if Sum(Count(x), b.bids) > 0 then Buy else Sell, Resters(Tag(x), b)))
  }

  ghost predicate Indexed(index: Index, b: Book) {
    forall x :: IndexedAt(index, b, x)
  }

  ghost predicate AtMostOnce(b: Book) {
    forall x :: 0 <= Sum(Count(x), b.bids) && 0 <= Sum(Count(x), b.asks) && Resters(Count(x), b) <= 1
  }

  lemma DistinctIsAtMostOnce(b: Book, queue: seq<Order>)
    requires Distinct(b, queue)
    ensures AtMostOnce(b)
  {
    forall x ensures 0 <= Sum(Count(x), b.bids) && 0 <= Sum(Count(x), b.asks) && Resters(Count(x), b) <= 1 {
      assert Total(Count(x), b) + Sum(Count(x), queue) <= 1;
      CountIsPresence(b.bids, x);
      CountIsPresence(b.asks, x);
      CountIsPresence(b.buyStops, x);
      CountIsPresence(b.sellStops, x);
      CountIsPresence(queue, x);
    }
  }

  ghost predicate SameTags(t: seq<Order>, s: seq<Order>) {
    && (forall x :: Sum(Count(x), t) == Sum(Count(x), s))
    && (forall x :: Sum(Tag(x), t) == Sum(Tag(x), s))
  }

  lemma IndexKept(index: Index, b: Book, side: Side, t: seq<Order>)
    requires Indexed(index, b) && SameTags(t, b.Resting(side))
    ensures Indexed(index, b.WithResting(side, t))
  {
    forall x ensures IndexedAt(index, b.WithResting(side, t), x) {
      assert IndexedAt(index, b, x);
      assert Sum(Count(x), t) == Sum(Count(x), b.Resting(side));
      assert Sum(Tag(x), t) == Sum(Tag(x), b.Resting(side));
    }
  }

  lemma IndexRemoved(index: Index, b: Book, side: Side, i: nat)
    requires Indexed(index, b) && AtMostOnce(b) && i < |b.Resting(side)|
    ensures var s := b.Resting(side);
      Indexed(index - {s[i].id}, b.WithResting(side, RemoveAt(s, i)))
  {
    var s := b.Resting(side);
    forall x ensures IndexedAt(index - {s[i].id}, b.WithResting(side, RemoveAt(s, i)), x) {
      SumRemoveAt(Count(x), s, i);
      SumRemoveAt(Tag(x), s, i);
      assert IndexedAt(index, b, x);
      CountIsPresence(RemoveAt(s, i), x);
      hide Sum, RemoveAt;
      assert 0 <= Sum(Count(x), b.bids) && 0 <= Sum(Count(x), b.asks) && Resters(Count(x), b) <= 1;
    }
  }

  /** The front order with less remaining keeps its id and price. */
  lemma FrontTags(shelf: Shelf, s: seq<Order>, left: Order)
    requires s != [] && left == s[0].(remaining := left.remaining)
    ensures SameTags([left] + s[1..], s)
    ensures SameTags(Insert(shelf, s[1..], left), s)
  {
    forall g: Gauge | g.Count? || g.Tag?
      ensures Sum(g, [left] + s[1..]) == Sum(g, s) && Sum(g, Insert(shelf, s[1..], left)) == Sum(g, s)
    {
      assert s == [s[0]] + s[1..];
      SumFront(g, s[1..], left);
      SumFront(g, s[1..], s[0]);
      SumInsert(g, shelf, s[1..], left);
    }
  }

  lemma IndexInserted(index: Index, b: Book, o: Order)
    requires Indexed(index, b) && o.price.Some?
    requires AtMostOnce(b) && Resters(Count(o.id), b) == 0 && Resters(Tag(o.id), b) == 0
    ensures Indexed(index[o.id := (o.side, o.price.value)],
                    b.WithResting(o.side, Insert(ShelfOf(o.side), b.Resting(o.side), o)))
  {
    var s, shelf := b.Resting(o.side), ShelfOf(o.side);
    var c, added := b.WithResting(o.side, Insert(shelf, s, o)), index[o.id := (o.side, o.price.value)];
    forall x ensures IndexedAt(added, c, x) {
      SumInsert(Count(x), shelf, s, o);
      SumInsert(Tag(x), shelf, s, o);
      assert IndexedAt(index, b, x);
      hide Sum, Insert;
      assert 0 <= Sum(Count(x), b.bids) && 0 <= Sum(Count(x), b.asks) && Resters(Count(x), b) <= 1;
    }
  }

  lemma EmptyIndex()
    ensures Indexed(map[], EmptyBook)
  {
    forall x ensures IndexedAt(map[], EmptyBook, x) {
    }
  }

  /** There is one exact index for a book. */
  lemma IndexIsUnique(i: Index, j: Index, b: Book)
    requires Indexed(i, b) && Indexed(j, b)
    ensures i == j
  {
    forall x ensures (x in i <==> x in j) && (x in i ==> i[x] == j[x]) {
      assert IndexedAt(i, b, x) && IndexedAt(j, b, x);
    }
  }

  lemma IndexAppended(index: Index, b: Book, side: Side, o: Order, price: int)
    requires Indexed(index, b) && o.price.Or(0) == price
    requires AtMostOnce(b) && Resters(Count(o.id), b) == 0 && Resters(Tag(o.id), b) == 0
    ensures Indexed(index[o.id := (side, price)], b.WithResting(side, b.Resting(side) + [o]))
  {
    var s, added := b.Resting(side), index[o.id := (side, price)];
    forall x ensures IndexedAt(added, b.WithResting(side, s + [o]), x) {
      SumConcat(Count(x), s, [o]);
      SumConcat(Tag(x), s, [o]);
      SumOne(Count(x), o);
      SumOne(Tag(x), o);
      assert IndexedAt(index, b, x);
      hide Sum;
      assert 0 <= Sum(Count(x), b.bids) && 0 <= Sum(Count(x), b.asks) && Resters(Count(x), b) <= 1;
    }
  }

  /** In a list without repeated ids, the order after a prefix is new to the prefix. */
  lemma NextIsNew(b: Book, side: Side, part: seq<Order>, o: Order, later: seq<Order>)
    requires AtMostOnce(b.WithResting(side, part + [o] + later))
    ensures var c := b.WithResting(side, part);
      AtMostOnce(c) && Resters(Count(o.id), c) == 0 && Resters(Tag(o.id), c) == 0
  {
    var full, c := b.WithResting(side, part + [o] + later), b.WithResting(side, part);
    forall x ensures 0 <= Sum(Count(x), c.bids) && 0 <= Sum(Count(x), c.asks)
                  && Resters(Count(x), c) + Weigh(Count(x), o) <= 1
    {
      SumConcat(Count(x), part + [o], later);
      SumConcat(Count(x), part, [o]);
      SumOne(Count(x), o);
      CountIsPresence(part, x);
      CountIsPresence(later, x);
      hide Sum;
      assert 0 <= Sum(Count(x), full.bids) && 0 <= Sum(Count(x), full.asks) && Resters(Count(x), full) <= 1;
    }
    assert Resters(Count(o.id), c) + Weigh(Count(o.id), o) <= 1;
    NoTag(c.bids, o.id);
    NoTag(c.asks, o.id);
  }

  /** One side alone repeats no id either. */
  lemma PartlyOnce(b: Book)
    requires AtMostOnce(b)
    ensures AtMostOnce(EmptyBook.(bids := b.bids)) && AtMostOnce(EmptyBook.(bids := b.bids, asks := b.asks))
  {
    forall x ensures 0 <= Sum(Count(x), b.bids) && 0 <= Sum(Count(x), b.asks) && Resters(Count(x), b) <= 1 {
    }
  }

  lemma NewcomerUntagged(b: Book, o: Order, queue: seq<Order>)
    requires Distinct(b, [o] + queue)
    ensures AtMostOnce(b) && Resters(Count(o.id), b) == 0 && Resters(Tag(o.id), b) == 0
  {
    DistinctIsAtMostOnce(b, [o] + queue);
    assert ([o] + queue)[1..] == queue;
    assert Total(Count(o.id), b) + Sum(Count(o.id), [o] + queue) <= 1;
    CountIsPresence(queue, o.id);
    CountIsPresence(b.buyStops, o.id);
    CountIsPresence(b.sellStops, o.id);
    NoTag(b.bids, o.id);
    NoTag(b.asks, o.id);
  }

  // ---- The best level ------------------------------------------------------------

  /** Writing a queue back to its level; an emptied level is removed. */
  function Stored(m: map<int, Level>, k: int, q: Level): map<int, Level> {
    if q == [] then m - {k} else m[k := q]
  }

  ghost predicate LevelsOk(shelf: Shelf, m: map<int, Level>) {
    Keyed(shelf, m) && NoEmpty(m)
  }

  lemma StoredOk(shelf: Shelf, m: map<int, Level>, k: int, q: Level)
    requires LevelsOk(shelf, m) && forall o :: o in q ==> KeyOf(shelf, o) == k
    ensures LevelsOk(shelf, Stored(m, k, q))
    ensures Flat(shelf, Stored(m, k, q)) == Flat(shelf, Above(shelf, m, k)) + q + Flat(shelf, Below(shelf, m, k))
  {
    SplitUpdate(shelf, m, k, q);
    SplitRemove(shelf, m, k);
    hide Flat;
    assert Flat(shelf, Above(shelf, m, k)) + [] == Flat(shelf, Above(shelf, m, k));
  }

  /** The list begins with the best level's queue. */
  lemma BestIsFront(shelf: Shelf, m: map<int, Level>)
    requires m != map[] && LevelsOk(shelf, m)
    ensures var k := BestKey(shelf, m.Keys);
      && k in m && m[k] != [] && Flat(shelf, m) != []
      && Flat(shelf, m)[0] == m[k][0] && KeyOf(shelf, m[k][0]) == k
  {
    var k := BestKey(shelf, m.Keys);
    FlatUnfold(shelf, m, k);
    assert m[k][0] in m[k];
  }

  /** What the three changes to the best level's queue do to the list. */
  lemma BestChanges(shelf: Shelf, m: map<int, Level>, left: Order)
    requires m != map[] && LevelsOk(shelf, m)
    requires var k := BestKey(shelf, m.Keys); k in m && KeyOf(shelf, left) == k
    ensures var k, s := BestKey(shelf, m.Keys), Flat(shelf, m); var q := m[k][1..];
      && s != []
      && LevelsOk(shelf, Stored(m, k, q)) && Flat(shelf, Stored(m, k, q)) == s[1..]
      && LevelsOk(shelf, Stored(m, k, [left] + q)) && Flat(shelf, Stored(m, k, [left] + q)) == [left] + s[1..]
      && LevelsOk(shelf, Stored(m, k, q + [left])) && Flat(shelf, Stored(m, k, q + [left])) == Insert(shelf, s[1..], left)
  {
    var k := BestKey(shelf, m.Keys);
    var q, z := m[k][1..], Flat(shelf, Below(shelf, m, k));
    assert forall o :: o in q ==> o in m[k];
    assert Above(shelf, m, k) == map[];
    FlatEmpty(shelf);
    Split(shelf, m, k);
    AboveBelowRanks(shelf, m, k);
    hide Flat, Insert;
    StoredOk(shelf, m, k, q);
    StoredOk(shelf, m, k, [left] + q);
    StoredOk(shelf, m, k, q + [left]);
    InsertBetween(shelf, q, z, left);
    LevelPieces(m[k], z, left);
  }

  lemma LevelPieces(q: Level, z: seq<Order>, left: Order)
    requires q != []
    ensures ([] + q + z)[1..] == q[1..] + z
    ensures [] + q[1..] + z == q[1..] + z
    ensures [] + ([left] + q[1..]) + z == [left] + (q[1..] + z)
    ensures [] + (q[1..] + [left]) + z == q[1..] + [left] + z
  {
  }

  // ---- Finding an indexed order --------------------------------------------------

  /** The index entry of an order on the book leads to the order. */
  lemma EntryLeads(index: Index, b: Book, id: Id)
    requires Indexed(index, b) && AtMostOnce(b) && id in index
    ensures var (side, price) := index[id];
      var s := b.Resting(side);
      && Sum(Count(id), s) == 1 && Has(s, id) && price == s[Find(s, id)].price.Or(0)
      && !Has(b.Resting(side.Opposite()), id)
      && (Has(b.bids, id) <==> side == Buy)
  {
    assert IndexedAt(index, b, id);
    assert 0 <= Sum(Count(id), b.bids) && 0 <= Sum(Count(id), b.asks) && Resters(Count(id), b) <= 1;
    var side := index[id].0;
    TagOfOnly(b.Resting(side), id);
    NoTag(b.Resting(side.Opposite()), id);
    CountIsPresence(b.Resting(side.Opposite()), id);
  }

  /** An id without an entry is on neither side. */
  lemma NoEntry(index: Index, b: Book, id: Id)
    requires Indexed(index, b) && id !in index
    ensures !Has(b.bids, id) && !Has(b.asks, id)
  {
    assert IndexedAt(index, b, id);
    CountIsPresence(b.bids, id);
    CountIsPresence(b.asks, id);
  }

  /** The order is in the queue at its own price. */
  lemma InOwnLevel(shelf: Shelf, m: map<int, Level>, id: Id)
    requires Keyed(shelf, m) && Has(Flat(shelf, m), id)
    ensures var s := Flat(shelf, m); var k := KeyOf(shelf, s[Find(s, id)]);
      k in m && Has(m[k], id)
  {
    var s := Flat(shelf, m);
    var o := s[Find(s, id)];
    FlatMembers(shelf, m);
    hide Flat;
    assert o in s;
    var k :| k in m && o in m[k];
    CountIsPresence(m[k], id);
  }

  lemma {:induction false} OnlyOnce(p: seq<Order>, q: seq<Order>, z: seq<Order>, id: Id)
    requires Sum(Count(id), p + q + z) == 1 && Has(q, id)
    ensures !Has(p, id)
  {
    SumConcat(Count(id), p + q, z);
    SumConcat(Count(id), p, q);
    CountIsPresence(p, id);
    CountIsPresence(q, id);
    CountIsPresence(z, id);
  }

  lemma RemoveIsRemove(shelf: Shelf, m: map<int, Level>, k: int, id: Id)
    requires LevelsOk(shelf, m) && k in m && Has(m[k], id)
    requires Sum(Count(id), Flat(shelf, m)) == 1
    ensures var s, q := Flat(shelf, m), m[k];
      var stored := Stored(m, k, RemoveAt(q, Find(q, id)));
      && LevelsOk(shelf, stored)
      && Has(s, id) && Flat(shelf, stored) == RemoveAt(s, Find(s, id))
  {
    var q, pos := m[k], Find(m[k], id);
    var p, z := Flat(shelf, Above(shelf, m, k)), Flat(shelf, Below(shelf, m, k));
    RemoveAtMembers(q, pos);
    Split(shelf, m, k);
    StoredOk(shelf, m, k, RemoveAt(q, pos));
    hide Flat, Find, Sum, RemoveAt;
    OnlyOnce(p, q, z, id);
    FindInLevel(p, q, z, id);
    RemoveInLevel(p, q, z, pos);
  }

  // ---- Adding up a level ---------------------------------------------------------

  /** A level the limit admits adds everything left in it. */
  lemma {:induction false} EligibleLevel(q: Level, z: seq<Order>, taker: Order, price: int)
    requires forall o :: o in q ==> o.price.Or(0) == price
    requires Admits(taker, price)
    ensures Eligible(q + z, taker) == Sum(Depth, q) + Eligible(z, taker)
  {
    if q == [] {
      assert q + z == z;
    } else {
      assert q[0] in q;
      assert (q + z)[1..] == q[1..] + z;
      EligibleLevel(q[1..], z, taker, price);
    }
  }

  lemma {:induction false} EligibleNonNegative(s: seq<Order>, taker: Order)
    requires forall o :: o in s ==> 0 < o.remaining
    ensures Eligible(s, taker) >= 0
  {
    if s != [] {
      assert s[0] in s;
      EligibleNonNegative(s[1..], taker);
    }
  }

  lemma LevelPrices(side: Side, m: map<int, Level>, k: int)
    requires LevelsOk(ShelfOf(side), m) && k in m
    ensures m[k] != [] && forall o :: o in m[k] ==> o.price.Or(0) == k
  {
    forall o | o in m[k] ensures o.price.Or(0) == k {
      assert KeyOf(ShelfOf(side), o) == k;
    }
  }

  lemma UnreachedLevel(q: Level, z: seq<Order>, taker: Order, price: int)
    requires q != [] && (forall o :: o in q ==> o.price.Or(0) == price) && !Admits(taker, price)
    ensures Eligible(q + z, taker) == 0
  {
    assert q[0] in q && (q + z)[0] == q[0];
  }

  lemma EligibleNone(taker: Order)
    ensures Eligible([], taker) == 0
  {
  }

  lemma RestrictedReady(side: Side, m: map<int, Level>, keys: set<int>)
    requires SideOk(side, Flat(ShelfOf(side), m))
    ensures forall o :: o in Flat(ShelfOf(side), Restrict(m, keys)) ==> 0 < o.remaining
  {
    FlatMembers(ShelfOf(side), m);
    FlatMembers(ShelfOf(side), Restrict(m, keys));
    hide Flat, Sorted;
    forall o | o in Flat(ShelfOf(side), Restrict(m, keys)) ensures 0 < o.remaining {
      var k :| k in Restrict(m, keys) && o in Restrict(m, keys)[k];
      assert k in m && o in m[k];
      assert o in Flat(ShelfOf(side), m) && RestsOk(side, o);
    }
  }
}
