/** The order book of one symbol (engine/crates/core/src/book.rs): two sorted maps of
  queues, an index derived from them, the stop registry and the OCO links, all changed in
  place. Every method is proved to compute the flat-list function it stands for. */
module Books {
  import opened Orders
  import opened Ladder
  import opened Levels
  import opened Matcher
  import opened BookInvariants
  import opened Cascade
  import opened Stops
  import opened BookIndex

  /** What the matcher reads of the order at the front of a level. */
  datatype PeekedMaker = PeekedMaker(
    id: Id, user: UserId, effectiveQty: int, remaining: int, hasDisplayQty: bool)

  class OrderBook {
    var bids: map<int, Level>
    var asks: map<int, Level>
    var orderIndex: Index
    var ocoLinks: map<Id, Id>
    const stops: StopRegistry

    /** The book as flat lists. */
    ghost function Value(): Book
      reads this, stops
    {
      Book(Flat(BidShelf, bids), Flat(AskShelf, asks), stops.Waiting(Buy), stops.Waiting(Sell), ocoLinks)
    }

    /** Orders sit under their own prices, no level is empty and the index is exact. */
    ghost predicate Wired()
      reads this, stops
    {
      && LevelsOk(BidShelf, bids) && LevelsOk(AskShelf, asks)
      && stops.Valid() && Indexed(orderIndex, Value())
    }

    ghost predicate Valid()
      reads this, stops
    {
      Wired() && BookInvariants.Valid(Value())
    }

    function LevelsOn(side: Side): map<int, Level>
      reads this
    {
      if side == Buy then bids else asks
    }

    constructor ()
      ensures Valid() && fresh(stops) && Value() == EmptyBook
    {
      bids, asks, orderIndex, ocoLinks := map[], map[], map[], map[];
      stops := new StopRegistry();
      new;
      FlatEmpty(BidShelf);
      FlatEmpty(AskShelf);
    }

    // ---- Reading -------------------------------------------------------------------

    method BestBid() returns (price: Option<int>)
      requires Wired()
      ensures price == if Value().bids == [] then None else Some(KeyOf(BidShelf, Value().bids[0]))
    {
      price := BestOppositePrice(Sell);
    }

    method BestAsk() returns (price: Option<int>)
      requires Wired()
      ensures price == if Value().asks == [] then None else Some(KeyOf(AskShelf, Value().asks[0]))
    {
      price := BestOppositePrice(Buy);
    }

    /** The best price on the side a taker would meet. */
    method BestOppositePrice(takerSide: Side) returns (price: Option<int>)
      requires Wired()
      ensures var s, side := Value().Resting(takerSide.Opposite()), takerSide.Opposite();
        && price == (if s == [] then None else Some(KeyOf(ShelfOf(side), s[0])))
        && (price.Some? ==>
             && LevelsOn(side) != map[] && price.value in LevelsOn(side)
             && price.value == BestKey(ShelfOf(side), LevelsOn(side).Keys)
             && LevelsOn(side)[price.value] != [] && LevelsOn(side)[price.value][0] == s[0])
    {
      hide Flat, Indexed, Keyed;
      var side := takerSide.Opposite();
      var m := LevelsOn(side);
      if m == map[] {
        FlatEmpty(ShelfOf(side));
        return None;
      }
      BestIsFront(ShelfOf(side), m);
      return Some(BestKey(ShelfOf(side), m.Keys));
    }

    method PeekFrontMaker(makerSide: Side, price: int) returns (peeked: PeekedMaker)
      requires price in LevelsOn(makerSide) && LevelsOn(makerSide)[price] != []
      ensures var o := LevelsOn(makerSide)[price][0];
        peeked == PeekedMaker(o.id, o.user, o.Effective(), o.remaining, o.displayQty.Some?)
    {
      var o := LevelsOn(makerSide)[price][0];
      var effective := match o.displayQty { case Some(d) => Min(d, o.remaining) case None => o.remaining };
      return PeekedMaker(o.id, o.user, effective, o.remaining, o.displayQty.Some?);
    }

    // ---- Changing the best level ---------------------------------------------------

    /** Writes a queue back to its level, and removes the level when it has become empty. */
    method StoreLevel(side: Side, price: int, queue: Level)
      modifies this`bids, this`asks
      ensures LevelsOn(side) == Stored(old(LevelsOn(side)), price, queue)
      ensures LevelsOn(side.Opposite()) == old(LevelsOn(side.Opposite()))
    {
      var m := LevelsOn(side);
      m := if queue == [] then m - {price} else m[price := queue];
      if side == Buy { bids := m; } else { asks := m; }
    }

    /** The level and its front order, as the taker meets them. */
    ghost predicate AtFront(side: Side, price: int)
      reads this
    {
      && LevelsOn(side) != map[] && price == BestKey(ShelfOf(side), LevelsOn(side).Keys)
      && price in LevelsOn(side)
    }

    /** Removes the front order and its index entry. */
    method PopFrontMaker(makerSide: Side, price: int, makerId: Id)
      requires Wired() && AtMostOnce(Value()) && AtFront(makerSide, price)
      requires Value().Resting(makerSide) != [] && Value().Resting(makerSide)[0].id == makerId
      modifies this`bids, this`asks, this`orderIndex
      ensures Wired()
      ensures Value() == old(Value()).WithResting(makerSide, old(Value()).Resting(makerSide)[1..])
    {
      hide Flat, Indexed, Keyed;
      ghost var b := Value();
      var queue := LevelsOn(makerSide)[price];
      BestIsFront(ShelfOf(makerSide), LevelsOn(makerSide));
      BestChanges(ShelfOf(makerSide), LevelsOn(makerSide), queue[0]);
      IndexRemoved(orderIndex, b, makerSide, 0);
      assert RemoveAt(b.Resting(makerSide), 0) == b.Resting(makerSide)[1..];
      StoreLevel(makerSide, price, queue[1..]);
      orderIndex := orderIndex - {makerId};
      assert Value() == b.WithResting(makerSide, b.Resting(makerSide)[1..]);
    }

    /** Takes some of the front order's quantity away; it goes when nothing is left. */
    method DecrementFrontMaker(makerSide: Side, price: int, amount: int)
      requires Wired() && AtMostOnce(Value()) && AtFront(makerSide, price)
      requires Value().Resting(makerSide) != []
      modifies this`bids, this`asks, this`orderIndex
      ensures Wired()
      ensures var s := old(Value()).Resting(makerSide);
        var left := s[0].(remaining := s[0].remaining - amount);
        Value() == old(Value()).WithResting(makerSide, if left.remaining == 0 then s[1..] else [left] + s[1..])
    {
      hide Flat, Indexed, Keyed, Insert;
      ghost var b, s := Value(), Value().Resting(makerSide);
      var queue := LevelsOn(makerSide)[price];
      BestIsFront(ShelfOf(makerSide), LevelsOn(makerSide));
      var left := queue[0].(remaining := queue[0].remaining - amount);
      if left.remaining == 0 {
        PopFrontMaker(makerSide, price, left.id);
      } else {
        BestChanges(ShelfOf(makerSide), LevelsOn(makerSide), left);
        FrontTags(ShelfOf(makerSide), s, left);
        IndexKept(orderIndex, b, makerSide, [left] + s[1..]);
        StoreLevel(makerSide, price, [left] + queue[1..]);
        assert Value() == b.WithResting(makerSide, [left] + s[1..]);
      }
    }

    /** Takes a fill off the front order. An iceberg whose shown slice is used up goes to the
      back of its level; a filled order leaves the book. */
    method ApplyFillToMaker(makerSide: Side, price: int, fillQty: int, peeked: PeekedMaker) returns (done: bool)
      requires Wired() && AtMostOnce(Value()) && AtFront(makerSide, price)
      requires Value().Resting(makerSide) != []
      requires var o := Value().Resting(makerSide)[0];
        peeked == PeekedMaker(o.id, o.user, o.Effective(), o.remaining, o.displayQty.Some?)
      modifies this`bids, this`asks, this`orderIndex
      ensures Wired()
      ensures var s := old(Value()).Resting(makerSide);
        var maker, left := s[0], s[0].(remaining := s[0].remaining - fillQty);
        && done == (left.remaining == 0)
        && Value() == old(Value()).WithResting(makerSide,
             if left.remaining == 0 then s[1..]
             else if maker.displayQty.Some? && fillQty == maker.Effective() then Insert(ShelfOf(makerSide), s[1..], left)
             else [left] + s[1..])
    {
      hide Flat, Indexed, Keyed, Insert;
      ghost var b, s := Value(), Value().Resting(makerSide);
      var peakConsumed := peeked.hasDisplayQty && fillQty == peeked.effectiveQty;
      var queue := LevelsOn(makerSide)[price];
      BestIsFront(ShelfOf(makerSide), LevelsOn(makerSide));
      var maker := queue[0].(remaining := queue[0].remaining - fillQty);
      done := maker.remaining == 0;
      if done {
        PopFrontMaker(makerSide, price, maker.id);
      } else {
        BestChanges(ShelfOf(makerSide), LevelsOn(makerSide), maker);
        FrontTags(ShelfOf(makerSide), s, maker);
        if peakConsumed {
          IndexKept(orderIndex, b, makerSide, Insert(ShelfOf(makerSide), s[1..], maker));
          StoreLevel(makerSide, price, queue[1..] + [maker]);
          assert Value() == b.WithResting(makerSide, Insert(ShelfOf(makerSide), s[1..], maker));
        } else {
          IndexKept(orderIndex, b, makerSide, [maker] + s[1..]);
          StoreLevel(makerSide, price, [maker] + queue[1..]);
          assert Value() == b.WithResting(makerSide, [maker] + s[1..]);
        }
      }
    }

    /** Joins the back of the order's own price level; without a price it is not kept. */
    method InsertMaker(order: Order)
      requires Wired() && Distinct(Value(), [order])
      modifies this`bids, this`asks, this`orderIndex
      ensures Wired()
      ensures Value() == if order.price.None? then old(Value()) else
        old(Value()).WithResting(order.side, Insert(ShelfOf(order.side), old(Value()).Resting(order.side), order))
    {
      hide Flat, Indexed, Insert;
      if order.price.None? {
        return;
      }
      ghost var b, shelf := Value(), ShelfOf(order.side);
      var price := order.price.value;
      assert [order] + [] == [order];
      NewcomerUntagged(b, order, []);
      IndexInserted(orderIndex, b, order);
      PushIsInsert(shelf, LevelsOn(order.side), order);
      orderIndex := orderIndex[order.id := (order.side, price)];
      StoreLevel(order.side, price, At(LevelsOn(order.side), price) + [order]);
      assert Value() == b.WithResting(order.side, Insert(shelf, b.Resting(order.side), order));
    }

    // ---- Cancelling ----------------------------------------------------------------

    /** Cancels one order, wherever it is, without following its OCO link. */
    method CancelOrderInternal(orderId: Id, reason: CancelReason) returns (events: seq<Event>)
      requires Wired() && AtMostOnce(Value())
      modifies this`bids, this`asks, this`orderIndex, stops
      ensures Wired()
      ensures var (b, moves) := Withdraw(old(Value()), orderId, reason);
        Value() == b && events == EventsOf(moves)
    {
      hide Flat, Indexed, Keyed, Find, SwapOut, RemoveAt;
      ghost var b := Value();
      OneCancel(orderId, reason);
      var stopped := stops.Cancel(orderId);
      if stopped {
        assert Resters(Count(orderId), b) == Resters(Count(orderId), Value());
        SameIndex(orderIndex, b, Value());
        return [Cancelled(orderId, reason)];
      }
      assert Value() == b;
      if orderId !in orderIndex {
        NoEntry(orderIndex, b, orderId);
        return [];
      }
      var (side, price) := orderIndex[orderId];
      EntryLeads(orderIndex, b, orderId);
      InOwnLevel(ShelfOf(side), LevelsOn(side), orderId);
      RemoveIsRemove(ShelfOf(side), LevelsOn(side), price, orderId);
      IndexRemoved(orderIndex, b, side, Find(b.Resting(side), orderId));
      FindIsFound(b.Resting(side), orderId);
      var queue := LevelsOn(side)[price];
      orderIndex := orderIndex - {orderId};
      StoreLevel(side, price, RemoveAt(queue, Find(queue, orderId)));
      assert Value() == b.WithResting(side, RemoveAt(b.Resting(side), Find(b.Resting(side), orderId)));
      return [Cancelled(orderId, reason)];
    }

    /** When an order is done, cancels the other leg of its OCO pair. */
    method MaybeCancelOco(orderId: Id) returns (events: seq<Event>)
      requires Wired() && AtMostOnce(Value())
      modifies this, stops
      ensures Wired()
      ensures var (b, moves) := CancelLinked(old(Value()), orderId);
        Value() == b && events == EventsOf(moves)
    {
      hide Flat, Indexed, Keyed, Withdraw;
      if orderId !in ocoLinks {
        return [];
      }
      var linked := ocoLinks[orderId];
      ghost var b := Value();
      SameIndex(orderIndex, b, b.(links := b.links - {orderId, linked}));
      ocoLinks := ocoLinks - {orderId};
      ocoLinks := ocoLinks - {linked};
      assert Value() == b.(links := b.links - {orderId, linked});
      events := CancelOrderInternal(linked, OcoCancel);
    }

    /** Cancels a resting or waiting order, and the other leg of its OCO pair. */
    method CancelOrder(orderId: Id) returns (events: seq<Event>)
      requires Valid()
      modifies this, stops
      ensures Valid()
      ensures var (b, moves) := Matcher.CancelOrder(old(Value()), orderId);
        Value() == b && events == EventsOf(moves)
    {
      hide Flat, Indexed, Keyed, Withdraw, Distinct, Shaped;
      ghost var b := Value();
      CancelKeeps(b, orderId);
      DistinctIsAtMostOnce(b, []);
      var linked := if orderId in ocoLinks then Some(ocoLinks[orderId]) else None;
      if linked.Some? {
        ghost var b0 := b.(links := b.links - {orderId, linked.value});
        SameIndex(orderIndex, b, b0);
        ocoLinks := ocoLinks - {orderId};
        ocoLinks := ocoLinks - {linked.value};
        assert Value() == b0;
      }
      events := CancelOrderInternal(orderId, AdminCancel);
      if linked.Some? {
        ghost var b0 := b.(links := b.links - {orderId, linked.value});
        WithdrawWithin(b0, orderId, AdminCancel);
        WithinOnce(Value(), b0);
        EventsConcat(Withdraw(b0, orderId, AdminCancel).1, Withdraw(Value(), linked.value, OcoCancel).1);
        var more := CancelOrderInternal(linked.value, OcoCancel);
        events := events + more;
      }
    }

    // ---- Pre-checks ----------------------------------------------------------------

    /** Adds up the levels the taker's limit admits, until they suffice. */
    method CanFullyFill(taker: Order) returns (ok: bool)
      requires Valid() && 0 < taker.remaining
      ensures ok == Matcher.CanFullyFill(Value(), taker)
    {
      hide Flat, Eligible, Indexed, Distinct, Sum;
      var side := taker.side.Opposite();
      var m, todo, available := LevelsOn(side), LevelsOn(side).Keys, 0;
      assert Restrict(m, todo) == m;
      while todo != {}
        invariant todo <= m.Keys
        invariant available < taker.remaining
        invariant available + Eligible(Flat(ShelfOf(side), Restrict(m, todo)), taker) == Eligible(Flat(ShelfOf(side), m), taker)
        decreases todo
      {
        var k := BestKey(ShelfOf(side), todo);
        FlatNext(ShelfOf(side), m, todo, k);
        LevelPrices(side, m, k);
        if !Admits(taker, k) {
          UnreachedLevel(m[k], Flat(ShelfOf(side), Restrict(m, todo - {k})), taker, k);
          return false;
        }
        EligibleLevel(m[k], Flat(ShelfOf(side), Restrict(m, todo - {k})), taker, k);
        available := available + Sum(Depth, m[k]);
        todo := todo - {k};
        if available >= taker.remaining {
          RestrictedReady(side, m, todo);
          EligibleNonNegative(Flat(ShelfOf(side), Restrict(m, todo)), taker);
          return true;
        }
      }
      assert Restrict(m, todo) == map[];
      FlatEmpty(ShelfOf(side));
      EligibleNone(taker);
      return false;
    }

    method WouldCrossPostOnly(taker: Order) returns (crosses: bool)
      requires Valid()
      ensures crosses == WouldCross(Value(), taker)
    {
      hide Flat, Indexed, Distinct;
      if taker.price.None? {
        return false;
      }
      var best := BestOppositePrice(taker.side);
      return best.Some? && Admits(taker, best.value);
    }

    /** Refuses a fill-or-kill or post-only order before anything has changed. */
    method PreCheck(taker: Order) returns (reject: Option<Event>)
      requires Valid() && 0 < taker.remaining
      ensures reject == match Refusal(Value(), taker) {
        case Some(reason) => Some(Cancelled(taker.id, reason))
        case None => None
      }
    {
      if taker.kind == Fok {
        var ok := CanFullyFill(taker);
        return if ok then None else Some(Cancelled(taker.id, FokUnfilled));
      }
      if taker.kind == PostOnly {
        var crosses := WouldCrossPostOnly(taker);
        return if crosses then Some(Cancelled(taker.id, PostOnlyCrossed)) else None;
      }
      return None;
    }

    // ---- Self-trade prevention -----------------------------------------------------

    /** Acts on the taker's self-trade mode; a consumed taker ends its run. */
    method ApplyStp(order: Order, price: int, peeked: PeekedMaker, ghost r: Run)
      returns (taker: Order, events: seq<Event>, consumed: bool)
      requires Wired() && AtMostOnce(Value()) && AtFront(order.side.Opposite(), price)
      requires r.Active() && r.book == Value() && r.taker == order
      requires peeked.id == r.Opposing()[0].id && peeked.remaining == r.Opposing()[0].remaining
      modifies this`bids, this`asks, this`orderIndex
      ensures Wired()
      ensures var q := PreventSelfTrade(r);
        && Value() == q.book && consumed == q.dead && (!consumed ==> taker == q.taker)
        && EventsOf(q.moves) == EventsOf(r.moves) + events
    {
      hide Flat, Indexed, EventsOf;
      taker := order;
      match order.stpMode {
        case CancelTaker =>
          EventsPush(r.moves, Void(order.id, order.remaining, SelfTradePrevented, Incoming));
          events, consumed := [Cancelled(order.id, SelfTradePrevented)], true;
        case CancelMaker =>
          EventsPush(r.moves, Void(peeked.id, peeked.remaining, SelfTradePrevented, Booked));
          PopFrontMaker(order.side.Opposite(), price, peeked.id);
          events, consumed := [Cancelled(peeked.id, SelfTradePrevented)], false;
        case Decrement =>
          taker, events, consumed := ApplyStpDecrement(order, price, peeked, r);
      }
    }

    method ApplyStpDecrement(order: Order, price: int, peeked: PeekedMaker, ghost r: Run)
      returns (taker: Order, events: seq<Event>, consumed: bool)
      requires Wired() && AtMostOnce(Value()) && AtFront(order.side.Opposite(), price)
      requires r.Active() && r.book == Value() && r.taker == order
      requires peeked.id == r.Opposing()[0].id && peeked.remaining == r.Opposing()[0].remaining
      modifies this`bids, this`asks, this`orderIndex
      ensures Wired()
      ensures var q := DecrementBoth(r);
        && Value() == q.book && (consumed <==> q.dead || r.dead) && (!consumed ==> taker == q.taker)
        && EventsOf(q.moves) == EventsOf(r.moves) + events
    {
      hide Flat, Indexed, EventsOf;
      taker := order;
      var makerSide := order.side.Opposite();
      ghost var voidTaker := Void(order.id, order.remaining, SelfTradePrevented, Incoming);
      ghost var voidMaker := Void(peeked.id, peeked.remaining, SelfTradePrevented, Booked);
      if order.remaining < peeked.remaining {
        EventsPush2(r.moves, voidTaker, Shrink(peeked.id, order.remaining));
        events, consumed := [Cancelled(order.id, SelfTradePrevented)], true;
        DecrementFrontMaker(makerSide, price, order.remaining);
        taker := taker.(remaining := 0);
      } else if order.remaining > peeked.remaining {
        EventsPush2(r.moves, voidMaker, Shrink(order.id, peeked.remaining));
        events, consumed := [Cancelled(peeked.id, SelfTradePrevented)], false;
        taker := taker.(remaining := taker.remaining - peeked.remaining);
        PopFrontMaker(makerSide, price, peeked.id);
      } else {
        EventsPush2(r.moves, voidMaker, voidTaker);
        events := [Cancelled(peeked.id, SelfTradePrevented), Cancelled(order.id, SelfTradePrevented)];
        consumed := true;
        taker := taker.(remaining := 0);
        PopFrontMaker(makerSide, price, peeked.id);
      }
    }

    // ---- The matching loop ---------------------------------------------------------

    /** Trades the taker with the front order and reports it; when that order is filled its
      OCO partner is cancelled. */
    method TradeWithFront(order: Order, price: int, peeked: PeekedMaker, ghost r: Run, ghost queue: seq<Order>)
      returns (taker: Order, events: seq<Event>)
      requires Wired() && Live(r, queue) && AtFront(order.side.Opposite(), price)
      requires r.Active() && r.book == Value() && r.taker == order && price == r.Opposing()[0].price.Or(0)
      requires var o := r.Opposing()[0];
        peeked == PeekedMaker(o.id, o.user, o.Effective(), o.remaining, o.displayQty.Some?)
      modifies this, stops
      ensures Wired()
      ensures var q := TradeStep(r);
        Value() == q.book && taker == q.taker && EventsOf(q.moves) == EventsOf(r.moves) + events
    {
      hide Flat, Indexed, EventsOf, Insert, Sum, Sorted, CancelLinked, LevelsOk;
      var makerSide := order.side.Opposite();
      var fillQty := Min(order.remaining, peeked.effectiveQty);
      var fill := Fill(order.id, peeked.id, price, fillQty, order.side);
      DistinctIsAtMostOnce(r.book, [r.taker] + queue);
      PopFront(r.book, makerSide, [r.taker] + queue);
      DistinctIsAtMostOnce(r.book.WithResting(makerSide, r.Opposing()[1..]), [r.taker] + queue);
      EventsPush(r.moves, Trade(fill));
      events := [Filled(fill)];
      taker := order.(remaining := order.remaining - fillQty);
      var done := ApplyFillToMaker(makerSide, price, fillQty, peeked);
      if done {
        ghost var cancels := CancelLinked(Value(), peeked.id).1;
        EventsConcat(r.moves + [Trade(fill)], cancels);
        EventsRegroup(EventsOf(r.moves), [Filled(fill)], EventsOf(cancels));
        var more := MaybeCancelOco(peeked.id);
        events := events + more;
      }
    }

    /** Rests what is left of the taker, or says why it is cancelled. */
    method FinalizeTaker(taker: Order, hadFills: bool, ghost r: Run, ghost queue: seq<Order>)
      returns (events: seq<Event>)
      requires Wired() && Live(r, queue) && !r.dead
      requires r.book == Value() && r.taker == taker && hadFills == r.last.Some?
      modifies this`bids, this`asks, this`orderIndex
      ensures Wired()
      ensures
        if taker.remaining == 0 then events == [] && Value() == r.book
        else match Disposal(taker.kind, hadFills)
          case Some(reason) => events == [Cancelled(taker.id, reason)] && Value() == r.book
          case None => events == [Rested(taker.id, taker.remaining)] && Value() == Settle(r).book
    {
      hide Flat, Indexed, Insert, Sum, Sorted, LevelsOk;
      if taker.remaining == 0 {
        return [];
      }
      match Disposal(taker.kind, hadFills) {
        case Some(reason) =>
          return [Cancelled(taker.id, reason)];
        case None =>
          OnlyTaker(Value(), taker, queue);
          InsertMaker(taker);
          return [Rested(taker.id, taker.remaining)];
      }
    }

    /** Rests or cancels what is left of the taker, and cancels its OCO partner when it is
      filled or cancelled. */
    method EndRun(taker: Order, hadFills: bool, ghost r: Run, ghost queue: seq<Order>) returns (events: seq<Event>)
      requires Wired() && Live(r, queue) && !r.dead
      requires r.book == Value() && r.taker == taker && hadFills == r.last.Some?
      modifies this, stops
      ensures Wired()
      ensures Value() == Finish(r).book && EventsOf(Finish(r).moves) == EventsOf(r.moves) + events
    {
      hide Flat, Indexed, EventsOf, Insert, Sum, Sorted, CancelLinked, LevelsOk;
      DistinctIsAtMostOnce(r.book, [r.taker] + queue);
      FinishEvents(r);
      events := FinalizeTaker(taker, hadFills, r, queue);
      var takerTerminal := taker.remaining == 0 || exists e :: e in events && e.Cancelled?;
      assert takerTerminal <==> taker.remaining == 0 || Disposal(taker.kind, hadFills).Some? by {
        if events != [] { assert events[0] in events; }
      }
      if takerTerminal {
        var more := MaybeCancelOco(taker.id);
        events := events + more;
      }
    }

    /** Matches an order against the book and takes out the stops its last trade triggers. */
    method RunMatchingLoop(order: Order, ghost w: Work) returns (events: seq<Event>, triggered: seq<Order>)
      requires Wired() && WorkOk(w) && w.book == Value()
      requires w.queue != [] && w.queue[|w.queue| - 1] == order
      modifies this, stops
      ensures Wired()
      ensures var r := RunOne(w);
        && EventsOf(r.moves) == EventsOf(w.moves) + events
        && (match r.last
            case None => triggered == [] && Value() == r.book
            case Some(price) => triggered == Due(r.book, price) && Value() == Undue(r.book, price))
    {
      hide Flat, Indexed, EventsOf, Insert, Sum, Sorted, LevelsOk, TradeStep, PreventSelfTrade, Settle, Terminate,
           Distinct, Shaped, Due, Undue;
      ghost var others := w.queue[..|w.queue| - 1];
      ghost var r := Run(w.book, order, w.moves, None, false);
      ghost var start := r;
      PopQueue(w.book, w.queue);
      assert order in w.queue;
      var taker, lastTradePrice, hadFills := order, None, false;
      events := [];
      while taker.remaining > 0
        invariant Wired() && r.book == Value() && r.taker == taker
        invariant !r.dead && r.last == lastTradePrice && hadFills == r.last.Some?
        invariant Live(r, others) && Loop(r, others) == Loop(start, others)
        invariant EventsOf(r.moves) == EventsOf(w.moves) + events
        decreases r.taker.remaining, |r.Opposing()|
      {
        var best := BestOppositePrice(taker.side);
        if best.None? || !Admits(taker, best.value) {
          break;
        }
        var price := best.value;
        // No level is empty, so there is always an order at its front.
        var peeked := PeekFrontMaker(taker.side.Opposite(), price);
        ghost var before := r;
        StepKeeps(r, others);
        StepShrinks(r);
        StepOutcome(r);
        r := Step(r);
        if taker.user == peeked.user {
          var more, consumed;
          DistinctIsAtMostOnce(before.book, [before.taker] + others);
          taker, more, consumed := ApplyStp(taker, price, peeked, before);
          EventsRegroup(EventsOf(w.moves), events, more);
          events := events + more;
          if consumed {
            assert Loop(r, others) == r && Finish(r) == r;
            triggered := TakeTriggered(lastTradePrice);
            return;
          }
        } else {
          var more;
          taker, more := TradeWithFront(taker, price, peeked, before, others);
          EventsRegroup(EventsOf(w.moves), events, more);
          events := events + more;
          hadFills := true;
          lastTradePrice := Some(price);
        }
      }
      assert Loop(r, others) == r;
      FinishLast(r);
      var more := EndRun(taker, hadFills, r, others);
      EventsRegroup(EventsOf(w.moves), events, more);
      events := events + more;
      triggered := TakeTriggered(lastTradePrice);
    }

    /** The stops that a run's last trade price triggers, if it traded at all. */
    method TakeTriggered(last: Option<int>) returns (triggered: seq<Order>)
      requires Wired()
      modifies stops
      ensures Wired()
      ensures match last
        case None => triggered == [] && Value() == old(Value())
        case Some(price) => triggered == Due(old(Value()), price) && Value() == Undue(old(Value()), price)
    {
      hide Flat, Indexed, LevelsOk, DueStops, LaterBuys, LaterSells;
      if last.None? {
        return [];
      }
      ghost var b := Value();
      triggered := stops.DrainTriggered(last.value);
      SameIndex(orderIndex, b, Value());
    }

    // ---- Whole orders --------------------------------------------------------------

    /** A stop waits in the registry until a trade triggers it. */
    method RegisterStopOrder(order: Order) returns (events: seq<Event>)
      requires Wired()
      modifies stops
      ensures Wired()
      ensures var (b, moves) := Park(old(Value()), order);
        Value() == b && events == EventsOf(moves)
    {
      hide Flat, Indexed, LevelsOk, Insert;
      ghost var b := Value();
      var ok := stops.Insert(order);
      SameIndex(orderIndex, b, Value());
      OneCancel(order.id, AdminCancel);
      EventsPush([], Rest(order.id, order.remaining));
      assert [] + [Rest(order.id, order.remaining)] == [Rest(order.id, order.remaining)];
      events := if ok then [Rested(order.id, order.remaining)] else [Cancelled(order.id, AdminCancel)];
    }

    /** Processes an incoming order with everything it sets off. */
    method MatchOrder(taker: Order) returns (events: seq<Event>)
      requires Valid() && Fresh(Value(), taker)
      modifies this, stops
      ensures Valid()
      ensures var (b, moves) := Submit(old(Value()), taker);
        Value() == b && events == EventsOf(moves)
    {
      var reject := PreCheck(taker);
      if reject.Some? {
        OneCancel(taker.id, reject.value.reason);
        return [reject.value];
      }
      if taker.kind.IsStop() {
        ParkKeeps(Value(), taker);
        events := RegisterStopOrder(taker);
        return;
      }
      events := RunCascade(taker);
    }

    /** Runs the order, then the stops it triggers, last triggered first, until none is left. */
    method RunCascade(taker: Order) returns (events: seq<Event>)
      requires Valid() && Fresh(Value(), taker) && !taker.kind.IsStop()
      modifies this, stops
      ensures Valid()
      ensures var w := RunAll(Start(old(Value()), taker));
        Value() == w.book && events == EventsOf(w.moves)
    {
      hide Flat, Indexed, EventsOf, LevelsOk, Sum, Sorted, Due, Undue, Triggered, Dropped;
      var workQueue, stopDepth := [taker], 0;
      events := [];
      ghost var w := Start(Value(), taker);
      ghost var start := w;
      NoEvents();
      while workQueue != []
        invariant Wired() && WorkOk(w) && w.book == Value()
        invariant w.queue == workQueue && w.depth == stopDepth
        invariant RunAll(w) == RunAll(start) && EventsOf(w.moves) == events
        decreases |w.queue| + w.book.WaitingCount()
      {
        var order := workQueue[|workQueue| - 1];
        workQueue := workQueue[..|workQueue| - 1];
        var more, triggered := RunMatchingLoop(order, w);
        TurnEvents(w);
        ghost var r := RunOne(w);
        w := Turn(w);
        events := events + more;
        if stopDepth < MAX_STOP_CHAIN_DEPTH {
          stopDepth := Min(DEPTH_CEILING, stopDepth + Min(DEPTH_CEILING, |triggered|));
          var announced := Announce(triggered);
          events := events + announced;
          workQueue := workQueue + triggered;
        }
      }
      assert w.queue == [];
    }

    /** Announces triggered stops in the order in which they were drained. */
    method Announce(triggered: seq<Order>) returns (events: seq<Event>)
      ensures events == EventsOf(Triggered(triggered))
    {
      hide EventsOf;
      NoEvents();
      events := [];
      for i := 0 to |triggered|
        invariant events == EventsOf(Triggered(triggered[..i]))
      {
        var t := triggered[i];
        assert triggered[..i + 1][..i] == triggered[..i];
        EventsPush(Triggered(triggered[..i]), Trigger(t.id));
        events := events + [StopTriggered(t.id)];
      }
      assert triggered[..|triggered|] == triggered;
    }

    // ---- The index -----------------------------------------------------------------

    /** Derives the index from the resting orders alone: an exact index is restored. */
    method RebuildIndex()
      requires LevelsOk(BidShelf, bids) && LevelsOk(AskShelf, asks) && AtMostOnce(Value())
      modifies this`orderIndex
      ensures Indexed(orderIndex, Value())
      ensures old(Indexed(orderIndex, Value())) ==> orderIndex == old(orderIndex)
    {
      hide Flat, Sum, LevelsOk, IndexedAt;
      ghost var b, before := Value(), orderIndex;
      orderIndex := map[];
      EmptyIndex();
      PartlyOnce(b);
      IndexLevels(Buy, EmptyBook);
      IndexLevels(Sell, EmptyBook.(bids := b.bids));
      SameIndex(orderIndex, EmptyBook.(bids := b.bids, asks := b.asks), b);
      if Indexed(before, b) {
        IndexIsUnique(before, orderIndex, b);
      }
    }

    /** Enters the orders of one side, level by level, beside what is entered already. */
    method IndexLevels(side: Side, ghost entered: Book)
      requires LevelsOk(ShelfOf(side), LevelsOn(side))
      requires entered.Resting(side) == [] && Indexed(orderIndex, entered)
      requires AtMostOnce(entered.WithResting(side, Flat(ShelfOf(side), LevelsOn(side))))
      modifies this`orderIndex
      ensures Indexed(orderIndex, entered.WithResting(side, Flat(ShelfOf(side), LevelsOn(side))))
    {
      hide Flat, Sum, Indexed, LevelsOk, AtMostOnce, Resters;
      var m, todo := LevelsOn(side), LevelsOn(side).Keys;
      ghost var seen: seq<Order> := [];
      assert Restrict(m, todo) == m;
      assert entered.WithResting(side, seen) == entered;
      while todo != {}
        invariant todo <= m.Keys
        invariant seen + Flat(ShelfOf(side), Restrict(m, todo)) == Flat(ShelfOf(side), m)
        invariant Indexed(orderIndex, entered.WithResting(side, seen))
        decreases todo
      {
        var k := BestKey(ShelfOf(side), todo);
        FlatNext(ShelfOf(side), m, todo, k);
        LevelPrices(side, m, k);
        ghost var later := Flat(ShelfOf(side), Restrict(m, todo - {k}));
        assert seen + (m[k] + later) == (seen + m[k]) + later;
        IndexQueue(side, k, m[k], entered, seen, later);
        seen := seen + m[k];
        todo := todo - {k};
      }
      assert Restrict(m, todo) == map[];
      FlatEmpty(ShelfOf(side));
      assert seen + [] == seen;
    }

    /** Enters one level's queue. */
    method IndexQueue(side: Side, price: int, queue: Level, ghost entered: Book, ghost seen: seq<Order>, ghost later: seq<Order>)
      requires entered.Resting(side) == [] && Indexed(orderIndex, entered.WithResting(side, seen))
      requires AtMostOnce(entered.WithResting(side, (seen + queue) + later))
      requires forall o :: o in queue ==> o.price.Or(0) == price
      modifies this`orderIndex
      ensures Indexed(orderIndex, entered.WithResting(side, seen + queue))
    {
      hide Sum, Indexed, AtMostOnce, Resters;
      assert seen + queue[..0] == seen;
      for i := 0 to |queue|
        invariant Indexed(orderIndex, entered.WithResting(side, seen + queue[..i]))
      {
        var order := queue[i];
        assert order in queue;
        ghost var part := seen + queue[..i];
        assert (seen + queue) + later == part + [order] + (queue[i + 1..] + later);
        assert seen + queue[..i + 1] == part + [order];
        NextIsNew(entered, side, part, order, queue[i + 1..] + later);
        IndexAppended(orderIndex, entered.WithResting(side, part), side, order, price);
        orderIndex := orderIndex[order.id := (side, price)];
      }
      assert queue[..|queue|] == queue;
    }

    /** Pairs two orders so that when one is done the other is cancelled. */
    method RegisterOco(legA: Id, legB: Id)
      requires Valid()
      modifies this`ocoLinks
      ensures Valid() && Value() == Matcher.RegisterOco(old(Value()), legA, legB)
    {
      hide Flat, Indexed, Keyed;
      SameIndex(orderIndex, Value(), Matcher.RegisterOco(Value(), legA, legB));
      ocoLinks := ocoLinks[legA := legB];
      ocoLinks := ocoLinks[legB := legA];
    }
  }

  lemma OnlyTaker(b: Book, o: Order, queue: seq<Order>)
    requires Distinct(b, [o] + queue)
    ensures Distinct(b, [o])
  {
    forall x ensures Total(Count(x), b) + Sum(Count(x), [o]) <= 1 {
      SumConcat(Count(x), [o], queue);
      CountIsPresence(queue, x);
      assert Total(Count(x), b) + Sum(Count(x), [o] + queue) <= 1;
    }
  }

  /** Only a trade has a price, and only self-trade prevention can consume the taker. */
  lemma StepOutcome(r: Run)
    requires r.Active()
    ensures !TradeStep(r).dead && TradeStep(r).last == Some(r.Opposing()[0].price.Or(0))
    ensures PreventSelfTrade(r).last == r.last
  {
  }

  lemma FinishLast(r: Run)
    ensures Finish(r).last == r.last
  {
  }

  lemma NoEvents()
    ensures EventsOf([]) == [] && Triggered([]) == []
  {
  }

  /** A turn announces its run, and then the stops it admits. */
  lemma TurnEvents(w: Work)
    requires WorkOk(w) && w.queue != []
    ensures var r := RunOne(w);
      EventsOf(Turn(w).moves) == EventsOf(r.moves) + (
        match r.last
        case None => []
        case Some(price) =>
          if w.depth < MAX_STOP_CHAIN_DEPTH then EventsOf(Triggered(Due(r.book, price))) else [])
  {
    hide EventsOf, RunOne, Due, Undue;
    var r := RunOne(w);
    match r.last
    case None => EventsPush(r.moves, RunEnd(None, 0));
    case Some(price) =>
      var due := Due(r.book, price);
      var n := if w.depth < MAX_STOP_CHAIN_DEPTH then |due| else 0;
      EventsPush(r.moves, RunEnd(r.last, n));
      EventsConcat(r.moves + [RunEnd(r.last, n)], Triggered(due));
      EventsConcat(r.moves + [RunEnd(r.last, n)], Dropped(due));
      DroppedEvents(due);
  }

  lemma {:induction false} DroppedEvents(s: seq<Order>)
    ensures EventsOf(Dropped(s)) == []
  {
    if s != [] {
      DroppedEvents(s[..|s| - 1]);
      EventsPush(Dropped(s[..|s| - 1]), Drop(s[|s| - 1].id, s[|s| - 1].remaining));
    }
  }

  /** What finishing a run announces. */
  lemma FinishEvents(r: Run)
    requires !r.dead
    ensures var cancels := CancelLinked(r.book, r.taker.id).1;
      EventsOf(Finish(r).moves) == EventsOf(r.moves) + (
        if r.taker.remaining == 0 then [] + EventsOf(cancels)
        else match Disposal(r.taker.kind, r.last.Some?)
          case Some(reason) => [Cancelled(r.taker.id, reason)] + EventsOf(cancels)
          case None => [Rested(r.taker.id, r.taker.remaining)])
  {
    hide EventsOf, CancelLinked;
    var cancels := CancelLinked(r.book, r.taker.id).1;
    if r.taker.remaining == 0 {
      assert r.moves + [] + cancels == r.moves + cancels;
      EventsConcat(r.moves, cancels);
    } else if Disposal(r.taker.kind, r.last.Some?).Some? {
      var void := Void(r.taker.id, r.taker.remaining, Disposal(r.taker.kind, r.last.Some?).value, Incoming);
      EventsPush(r.moves, void);
      EventsConcat(r.moves + [void], cancels);
      EventsRegroup(EventsOf(r.moves), EventOf(void), EventsOf(cancels));
    } else {
      EventsPush(r.moves, Rest(r.taker.id, r.taker.remaining));
      EventsPush2(r.moves, Rest(r.taker.id, r.taker.remaining), Stray(r.taker.id, r.taker.remaining));
    }
  }

  lemma OneCancel(id: Id, reason: CancelReason)
    ensures forall qty, from :: EventsOf([Void(id, qty, reason, from)]) == [Cancelled(id, reason)]
    ensures EventsOf([]) == []
  {
    forall qty, from ensures EventsOf([Void(id, qty, reason, from)]) == [Cancelled(id, reason)] {
      OneEvent(Void(id, qty, reason, from));
    }
  }

  /** The index only looks at the two sides. */
  lemma SameIndex(index: Index, b: Book, c: Book)
    requires Indexed(index, b) && b.bids == c.bids && b.asks == c.asks
    ensures Indexed(index, c)
  {
    forall x ensures IndexedAt(index, c, x) {
      assert IndexedAt(index, b, x);
    }
  }

  lemma WithinOnce(c: Book, b: Book)
    requires BookWithin(c, b) && AtMostOnce(b)
    ensures AtMostOnce(c)
  {
    forall x ensures 0 <= Sum(Count(x), c.bids) && 0 <= Sum(Count(x), c.asks) && Resters(Count(x), c) <= 1 {
      CountIsPresence(c.bids, x);
      CountIsPresence(c.asks, x);
      assert Resters(Count(x), b) <= 1;
    }
  }

  lemma FindIsFound(s: seq<Order>, id: Id)
    requires Has(s, id)
    ensures s[Find(s, id)].id == id
  {
  }
}
