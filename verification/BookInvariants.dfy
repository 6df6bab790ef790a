/** What every reachable book satisfies, and why the elementary changes keep it. */
module BookInvariants {
  import opened Orders
  import opened Ladder
  import opened Matcher

  // ---- The invariant -------------------------------------------------------------

  /** Only these order types can be found on the book. */
  predicate MayRest(kind: OrderType) {
    kind in {Limit, PostOnly, Iceberg, Oco}
  }

  predicate RestsOk(side: Side, o: Order) {
    o.side == side && o.Ready() && o.price.Some? && MayRest(o.kind)
  }

  predicate WaitsOk(side: Side, o: Order) {
    o.side == side && o.Ready() && o.stopPrice.Some? && o.kind.IsStop()
  }

  ghost predicate SideOk(side: Side, s: seq<Order>) {
    Sorted(ShelfOf(side), s) && forall o :: o in s ==> RestsOk(side, o)
  }

  ghost predicate StopsOk(side: Side, s: seq<Order>) {
    Sorted(StopShelf, s) && forall o :: o in s ==> WaitsOk(side, o)
  }

  /** Best bid below best ask whenever both exist. */
  predicate Uncrossed(b: Book) {
    b.bids != [] && b.asks != [] ==>
      KeyOf(BidShelf, b.bids[0]) < KeyOf(AskShelf, b.asks[0])
  }

  function Total(g: Gauge, b: Book): int {
    Sum(g, b.bids) + Sum(g, b.asks) + Waits(g, b)
  }

  function Waits(g: Gauge, b: Book): int {
    Sum(g, b.buyStops) + Sum(g, b.sellStops)
  }

  /** No id occurs twice among the book, the registry and the orders in flight. */
  ghost predicate Distinct(b: Book, inFlight: seq<Order>) {
    forall x :: Total(Count(x), b) + Sum(Count(x), inFlight) <= 1
  }

  ghost predicate Shaped(b: Book) {
    && SideOk(Buy, b.bids) && SideOk(Sell, b.asks)
    && StopsOk(Buy, b.buyStops) && StopsOk(Sell, b.sellStops)
    && Uncrossed(b)
  }

  ghost predicate Valid(b: Book) {
    Shaped(b) && Distinct(b, [])
  }

  /** A taker may be used up, but never overdrawn. */
  predicate InFlightOk(o: Order) {
    && 0 <= o.remaining <= o.quantity
    && (o.displayQty.Some? ==> 0 < o.displayQty.value)
    && !o.kind.IsStop()
  }

  /** A run beside orders that still wait in the work queue. */
  ghost predicate Live(r: Run, queue: seq<Order>) {
    Shaped(r.book) && InFlightOk(r.taker) && Distinct(r.book, [r.taker] + queue)
  }

  // ---- Taking orders away keeps everything ---------------------------------------

  ghost predicate Within(shelf: Shelf, t: seq<Order>, s: seq<Order>) {
    && |t| <= |s|
    && (forall o :: o in t ==> o in s)
    && (Sorted(shelf, s) ==> Sorted(shelf, t))
    && (forall x :: Sum(Count(x), t) <= Sum(Count(x), s))
  }

  ghost predicate BookWithin(c: Book, b: Book) {
    && Within(BidShelf, c.bids, b.bids) && Within(AskShelf, c.asks, b.asks)
    && Within(StopShelf, c.buyStops, b.buyStops) && Within(StopShelf, c.sellStops, b.sellStops)
  }

  lemma RemoveAtWithin(shelf: Shelf, s: seq<Order>, i: nat)
    requires i < |s|
    ensures Within(shelf, RemoveAt(s, i), s)
  {
    forall x ensures Sum(Count(x), RemoveAt(s, i)) <= Sum(Count(x), s) {
      SumRemoveAt(Count(x), s, i);
    }
  }

  lemma SwapOutWithin(s: seq<Order>, i: nat)
    requires i < |s|
    ensures Within(StopShelf, SwapOut(s, i), s)
  {
    SwapOutMembers(s, i);
    if Sorted(StopShelf, s) { SwapOutSorted(s, i); }
    forall x ensures Sum(Count(x), SwapOut(s, i)) <= Sum(Count(x), s) {
      SumSwapOut(Count(x), s, i);
    }
  }

  /** Dropping the front order of a list. */
  lemma TailWithin(shelf: Shelf, s: seq<Order>)
    requires s != []
    ensures Within(shelf, s[1..], s)
  {
    assert RemoveAt(s, 0) == s[1..];
    RemoveAtWithin(shelf, s, 0);
  }

  lemma SliceWithin(shelf: Shelf, s: seq<Order>, lo: nat, hi: nat)
    requires lo <= hi <= |s|
    ensures Within(shelf, s[lo..hi], s)
  {
    forall x ensures Sum(Count(x), s[lo..hi]) <= Sum(Count(x), s) {
      assert s == (s[..lo] + s[lo..hi]) + s[hi..];
      SumConcat(Count(x), s[..lo] + s[lo..hi], s[hi..]);
      SumConcat(Count(x), s[..lo], s[lo..hi]);
      CountIsPresence(s[..lo], x);
      CountIsPresence(s[hi..], x);
    }
  }

  lemma WithdrawWithin(b: Book, id: Id, reason: CancelReason)
    ensures BookWithin(Withdraw(b, id, reason).0, b)
  {
    if Has(b.buyStops, id) {
      SwapOutWithin(b.buyStops, Find(b.buyStops, id));
    } else if Has(b.sellStops, id) {
      SwapOutWithin(b.sellStops, Find(b.sellStops, id));
    } else if Has(b.bids, id) {
      RemoveAtWithin(BidShelf, b.bids, Find(b.bids, id));
    } else if Has(b.asks, id) {
      RemoveAtWithin(AskShelf, b.asks, Find(b.asks, id));
    }
  }

  lemma CancelLinkedWithin(b: Book, id: Id)
    ensures BookWithin(CancelLinked(b, id).0, b)
  {
    if id in b.links {
      WithdrawWithin(b.(links := b.links - {id, b.links[id]}), b.links[id], OcoCancel);
    }
  }

  lemma WithinSideOk(side: Side, t: seq<Order>, s: seq<Order>)
    requires Within(ShelfOf(side), t, s) && SideOk(side, s)
    ensures SideOk(side, t)
    ensures t != [] ==> s != [] && RankOf(ShelfOf(side), s[0]) <= RankOf(ShelfOf(side), t[0])
  {
    if t != [] {
      assert t[0] in t;
      var k :| 0 <= k < |s| && s[k] == t[0];
    }
  }

  lemma WithinShaped(c: Book, b: Book)
    requires BookWithin(c, b) && Shaped(b)
    ensures Shaped(c)
  {
    WithinSideOk(Buy, c.bids, b.bids);
    WithinSideOk(Sell, c.asks, b.asks);
  }

  lemma WithinDistinct(c: Book, b: Book, inFlight: seq<Order>)
    requires BookWithin(c, b) && Distinct(b, inFlight)
    ensures Distinct(c, inFlight)
  {
    forall x ensures Total(Count(x), c) + Sum(Count(x), inFlight) <= 1 {
      assert Total(Count(x), b) + Sum(Count(x), inFlight) <= 1;
    }
  }

  // ---- Changing the front order --------------------------------------------------

  /** `left` is the front order of `s` with less remaining. */
  predicate Lessened(left: Order, s: seq<Order>) {
    s != [] && 0 < left.remaining <= s[0].remaining && left == s[0].(remaining := left.remaining)
  }

  lemma FrontKept(side: Side, s: seq<Order>, left: Order)
    requires SideOk(side, s) && Lessened(left, s)
    ensures SideOk(side, [left] + s[1..])
    ensures RankOf(ShelfOf(side), left) == RankOf(ShelfOf(side), s[0])
    ensures forall x :: Sum(Count(x), [left] + s[1..]) == Sum(Count(x), s)
  {
    assert s[0] in s;
    assert forall o :: o in s[1..] ==> o in s;
    forall x ensures Sum(Count(x), [left] + s[1..]) == Sum(Count(x), s) {
      assert ([left] + s[1..])[1..] == s[1..];
    }
  }

  lemma FrontRequeued(side: Side, s: seq<Order>, left: Order)
    requires SideOk(side, s) && Lessened(left, s)
    ensures var t := Insert(ShelfOf(side), s[1..], left);
      && SideOk(side, t)
      && RankOf(ShelfOf(side), s[0]) <= RankOf(ShelfOf(side), t[0])
      && forall x :: Sum(Count(x), t) == Sum(Count(x), s)
  {
    var shelf := ShelfOf(side);
    var t := Insert(shelf, s[1..], left);
    assert s[0] in s;
    InsertMembers(shelf, s[1..], left);
    InsertSorted(shelf, s[1..], left);
    forall x ensures Sum(Count(x), t) == Sum(Count(x), s) {
      SumInsert(Count(x), shelf, s[1..], left);
    }
    assert t[0] in t;
  }

  /** Replacing one side by a list with the same ids, no better front and sound orders. */
  lemma ReplaceSide(b: Book, side: Side, t: seq<Order>, inFlight: seq<Order>)
    requires Shaped(b) && Distinct(b, inFlight)
    requires SideOk(side, t)
    requires t != [] ==> b.Resting(side) != []
                         && RankOf(ShelfOf(side), b.Resting(side)[0]) <= RankOf(ShelfOf(side), t[0])
    requires forall x :: Sum(Count(x), t) <= Sum(Count(x), b.Resting(side))
    ensures Shaped(b.WithResting(side, t))
    ensures Distinct(b.WithResting(side, t), inFlight)
  {
    var c := b.WithResting(side, t);
    forall x ensures Total(Count(x), c) + Sum(Count(x), inFlight) <= 1 {
      assert Total(Count(x), b) + Sum(Count(x), inFlight) <= 1;
      assert Sum(Count(x), t) <= Sum(Count(x), b.Resting(side));
    }
  }

  lemma SameFlight(b: Book, o: Order, p: Order, queue: seq<Order>)
    requires Distinct(b, [o] + queue) && o.id == p.id
    ensures Distinct(b, [p] + queue)
  {
    forall x ensures Total(Count(x), b) + Sum(Count(x), [p] + queue) <= 1 {
      assert ([o] + queue)[1..] == ([p] + queue)[1..];
      assert Total(Count(x), b) + Sum(Count(x), [o] + queue) <= 1;
    }
  }

  // ---- One step of a run ---------------------------------------------------------

  lemma PopFront(b: Book, side: Side, inFlight: seq<Order>)
    requires Shaped(b) && Distinct(b, inFlight) && b.Resting(side) != []
    ensures Shaped(b.WithResting(side, b.Resting(side)[1..]))
    ensures Distinct(b.WithResting(side, b.Resting(side)[1..]), inFlight)
  {
    TailWithin(ShelfOf(side), b.Resting(side));
    WithinSideOk(side, b.Resting(side)[1..], b.Resting(side));
    ReplaceSide(b, side, b.Resting(side)[1..], inFlight);
  }

  lemma TradeStepKeeps(r: Run, queue: seq<Order>)
    requires Live(r, queue) && r.Active()
    ensures Live(TradeStep(r), queue)
  {
    var side, s := r.taker.side.Opposite(), r.Opposing();
    var maker, rest := s[0], s[1..];
    assert maker in s && RestsOk(side, maker);
    var qty := Min(r.taker.remaining, maker.Effective());
    var left := maker.(remaining := maker.remaining - qty);
    if left.remaining == 0 {
      PopFront(r.book, side, [r.taker] + queue);
      var popped := r.book.WithResting(side, rest);
      CancelLinkedWithin(popped, maker.id);
      WithinShaped(CancelLinked(popped, maker.id).0, popped);
      WithinDistinct(CancelLinked(popped, maker.id).0, popped, [r.taker] + queue);
    } else if maker.displayQty.Some? && qty == maker.Effective() {
      FrontRequeued(side, s, left);
      ReplaceSide(r.book, side, Insert(ShelfOf(side), rest, left), [r.taker] + queue);
    } else {
      FrontKept(side, s, left);
      ReplaceSide(r.book, side, [left] + rest, [r.taker] + queue);
    }
    SameFlight(TradeStep(r).book, r.taker, TradeStep(r).taker, queue);
  }

  lemma DecrementKeeps(r: Run, queue: seq<Order>)
    requires Live(r, queue) && r.Active()
    ensures Live(DecrementBoth(r), queue)
  {
    var side, s := r.taker.side.Opposite(), r.Opposing();
    assert s[0] in s && RestsOk(side, s[0]);
    if r.taker.remaining < s[0].remaining {
      DecrementMakerKeeps(r, queue);
    } else {
      PopFront(r.book, side, [r.taker] + queue);
    }
    SameFlight(DecrementBoth(r).book, r.taker, DecrementBoth(r).taker, queue);
  }

  lemma DecrementMakerKeeps(r: Run, queue: seq<Order>)
    requires Live(r, queue) && r.Active() && r.taker.remaining < r.Opposing()[0].remaining
    ensures Shaped(DecrementBoth(r).book) && Distinct(DecrementBoth(r).book, [r.taker] + queue)
  {
    hide Sum, Sorted, Distinct;
    var side, s := r.taker.side.Opposite(), r.Opposing();
    var left := s[0].(remaining := s[0].remaining - r.taker.remaining);
    FrontKept(side, s, left);
    ReplaceSide(r.book, side, [left] + s[1..], [r.taker] + queue);
  }

  lemma SelfTradeKeeps(r: Run, queue: seq<Order>)
    requires Live(r, queue) && r.Active()
    ensures Live(PreventSelfTrade(r), queue)
  {
    match r.taker.stpMode
    case Decrement => DecrementKeeps(r, queue);
    case CancelMaker => PopFront(r.book, r.taker.side.Opposite(), [r.taker] + queue);
    case CancelTaker => SameFlight(r.book, r.taker, PreventSelfTrade(r).taker, queue);
  }

  lemma StepKeeps(r: Run, queue: seq<Order>)
    requires Live(r, queue) && r.Active()
    ensures Live(Step(r), queue)
  {
    if r.Opposing()[0].user == r.taker.user { SelfTradeKeeps(r, queue); } else { TradeStepKeeps(r, queue); }
  }

  /** A step leaves only the taker's remainder different, and uses up some of the taker or
    one of the orders it could meet. */
  ghost predicate Progress(q: Run, r: Run) {
    && q.taker == r.taker.(remaining := q.taker.remaining)
    && (|| 0 <= q.taker.remaining < r.taker.remaining
        || (q.taker.remaining == r.taker.remaining && |q.Opposing()| < |r.Opposing()|))
    && q.book.WaitingCount() <= r.book.WaitingCount()
  }

  lemma TradeStepShrinks(r: Run)
    requires r.Active() && Shaped(r.book)
    ensures Progress(TradeStep(r), r)
  {
    var side, s := r.taker.side.Opposite(), r.Opposing();
    assert s[0] in s && RestsOk(side, s[0]);
    CancelLinkedWithin(r.book.WithResting(side, s[1..]), s[0].id);
  }

  lemma StepShrinks(r: Run)
    requires r.Active() && Shaped(r.book)
    ensures Progress(Step(r), r)
  {
    var side, s := r.taker.side.Opposite(), r.Opposing();
    assert s[0] in s && RestsOk(side, s[0]);
    if s[0].user != r.taker.user { TradeStepShrinks(r); }
  }

  // ---- Resting -------------------------------------------------------------------

  /** A taker that cannot reach the opposite front rests without crossing it. */
  lemma SettleKeeps(r: Run, queue: seq<Order>)
    requires Live(r, queue) && !r.dead && !r.Active() && 0 < r.taker.remaining
    requires MayRest(r.taker.kind)
    ensures Shaped(Settle(r).book) && Distinct(Settle(r).book, queue)
  {
    var side, o := r.taker.side, r.taker;
    var s, shelf := r.book.Resting(side), ShelfOf(side);
    if o.price.Some? {
      var t := Insert(shelf, s, o);
      InsertMembers(shelf, s, o);
      InsertSorted(shelf, s, o);
      assert t[0] == o || (s != [] && t[0] == s[0]);
    }
    forall x ensures Total(Count(x), Settle(r).book) + Sum(Count(x), queue) <= 1 {
      SumInsert(Count(x), shelf, s, o);
      assert ([o] + queue)[1..] == queue;
      assert Total(Count(x), r.book) + Sum(Count(x), [o] + queue) <= 1;
    }
  }

  lemma TerminateKeeps(r: Run, voids: seq<Move>, queue: seq<Order>)
    requires Live(r, queue)
    ensures Shaped(Terminate(r, voids).book) && Distinct(Terminate(r, voids).book, queue)
    ensures Terminate(r, voids).book.WaitingCount() <= r.book.WaitingCount()
  {
    CancelLinkedWithin(r.book, r.taker.id);
    var c := CancelLinked(r.book, r.taker.id).0;
    WithinShaped(c, r.book);
    WithinDistinct(c, r.book, [r.taker] + queue);
    Landed(c, r.taker, queue);
  }

  /** An order that is done leaves the rest in flight. */
  lemma Landed(b: Book, o: Order, queue: seq<Order>)
    requires Distinct(b, [o] + queue)
    ensures Distinct(b, queue)
  {
    forall x ensures Total(Count(x), b) + Sum(Count(x), queue) <= 1 {
      assert ([o] + queue)[1..] == queue;
      assert Total(Count(x), b) + Sum(Count(x), [o] + queue) <= 1;
    }
  }

  lemma FinishKeeps(r: Run, queue: seq<Order>)
    requires Live(r, queue) && !r.Active()
    ensures Shaped(Finish(r).book) && Distinct(Finish(r).book, queue)
    ensures Finish(r).book.WaitingCount() <= r.book.WaitingCount()
  {
    hide Sum, Sorted, Insert, Find, Withdraw;
    if r.dead {
      Landed(r.book, r.taker, queue);
    } else if 0 < r.taker.remaining && Disposal(r.taker.kind, r.last.Some?).None? {
      SettleKeeps(r, queue);
    } else {
      CancelLinkedWithin(r.book, r.taker.id);
      TerminateKeeps(r, [], queue);
    }
  }

  // ---- Stops ---------------------------------------------------------------------

  lemma UndueKeeps(b: Book, price: int, queue: seq<Order>)
    requires Shaped(b) && Distinct(b, queue)
    ensures Shaped(Undue(b, price))
    ensures Distinct(Undue(b, price), queue + Due(b, price))
    ensures Undue(b, price).WaitingCount() + |Due(b, price)| == b.WaitingCount()
  {
    var n, k := UpTo(b.buyStops, price), UpTo(b.sellStops, price - 1);
    SliceWithin(StopShelf, b.buyStops, n, |b.buyStops|);
    SliceWithin(StopShelf, b.sellStops, 0, k);
    forall x ensures Total(Count(x), Undue(b, price)) + Sum(Count(x), queue + Due(b, price)) <= 1 {
      StopsMove(Count(x), b, price);
      SumConcat(Count(x), queue, Due(b, price));
      assert Total(Count(x), b) + Sum(Count(x), queue) <= 1;
    }
  }

  /** Drained stops leave the registry for the queue with nothing lost. */
  lemma StopsMove(g: Gauge, b: Book, price: int)
    ensures Waits(g, Undue(b, price)) + Sum(g, Due(b, price)) == Waits(g, b)
  {
    var n, k := UpTo(b.buyStops, price), UpTo(b.sellStops, price - 1);
    assert b.buyStops == b.buyStops[..n] + b.buyStops[n..];
    assert b.sellStops == b.sellStops[..k] + b.sellStops[k..];
    SumConcat(g, b.buyStops[..n], b.buyStops[n..]);
    SumConcat(g, b.sellStops[..k], b.sellStops[k..]);
    SumActivate(g, b.buyStops[..n]);
    SumActivate(g, b.sellStops[k..]);
    SumConcat(g, ActivateAll(b.buyStops[..n]), ActivateAll(b.sellStops[k..]));
  }

  lemma {:induction false} SumActivate(g: Gauge, s: seq<Order>)
    ensures Sum(g, ActivateAll(s)) == Sum(g, s)
  {
    if s != [] {
      SumActivate(g, s[1..]);
      assert ActivateAll(s)[1..] == ActivateAll(s[1..]);
    }
  }

  lemma {:induction false} ActivateAllAt(s: seq<Order>, i: nat)
    requires i < |s|
    ensures ActivateAll(s)[i] == Activate(s[i])
  {
    if i > 0 { ActivateAllAt(s[1..], i - 1); }
  }

  predicate Restless(o: Order) {
    InFlightOk(o) && 0 < o.remaining
  }

  lemma ActivateOk(side: Side, s: seq<Order>)
    requires forall o :: o in s ==> WaitsOk(side, o)
    ensures forall o :: o in ActivateAll(s) ==> Restless(o)
  {
    forall i | 0 <= i < |s| ensures Restless(ActivateAll(s)[i]) {
      ActivateAllAt(s, i);
      assert s[i] in s;
    }
  }

  /** Triggered stops are ready to trade. */
  lemma DueOk(b: Book, price: int)
    requires Shaped(b)
    ensures forall o :: o in Due(b, price) ==> Restless(o)
  {
    var n, k := UpTo(b.buyStops, price), UpTo(b.sellStops, price - 1);
    assert forall o :: o in b.buyStops[..n] ==> o in b.buyStops;
    assert forall o :: o in b.sellStops[k..] ==> o in b.sellStops;
    ActivateOk(Buy, b.buyStops[..n]);
    ActivateOk(Sell, b.sellStops[k..]);
  }

  lemma ParkKeeps(b: Book, o: Order)
    requires Valid(b) && Distinct(b, [o]) && o.Ready() && o.kind.IsStop()
    ensures Valid(Park(b, o).0)
  {
    if o.stopPrice.Some? {
      var s := b.Stops(o.side);
      InsertMembers(StopShelf, s, o);
      InsertSorted(StopShelf, s, o);
      forall x ensures Total(Count(x), Park(b, o).0) + Sum(Count(x), []) <= 1 {
        SumInsert(Count(x), StopShelf, s, o);
        SumOne(Count(x), o);
        assert Total(Count(x), b) + Sum(Count(x), [o]) <= 1;
      }
    }
  }
}
