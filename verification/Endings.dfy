/** How an order ends by its type: what becomes of what its run leaves over, for the order submitted
  and for the stops it sets off (engine/crates/core/src/book.rs, engine/crates/core/src/stop.rs). */
module Endings {
  import opened Orders
  import opened Ladder
  import opened Matcher
  import opened BookInvariants
  import opened Cascade
  import opened Conservation
  import opened Histories
  import opened OpenOrders
  import opened StopOrders
  import opened Wire
  import opened Voids
  import opened TimePriority
  import Discards
  import FillOrKill
  import Partners
  import Rejects
  import Walk

  // ---- What a run may do with its order ------------------------------------------

  /** Why an order that runs with this type may be cancelled. */
  predicate EndsFor(kind: OrderType, reason: CancelReason) {
    match reason
    case SelfTradePrevented => true
    case NoLiquidity => kind == Market || kind == Ioc
    case FokUnfilled => kind == Fok
    case PostOnlyCrossed => kind == PostOnly
    case _ => false
  }

  predicate MayStay(kind: OrderType) {
    kind == Limit || kind == Oco || kind == Iceberg || kind == PostOnly
  }

  /** A move that concerns `x` is one that its type allows; where it rests or waits it is cancelled as
    a partner only, or by self-trade prevention. */
  predicate Suits(x: Id, kind: OrderType, m: Move) {
    match m
    case Rest(id, _) => id == x ==> MayStay(kind)
    case Void(id, _, reason, from) =>
      id == x ==>
        && (from == Incoming ==> EndsFor(kind, reason))
        && (from == Place.Booked ==> reason == OcoCancel || reason == SelfTradePrevented)
        && (from == Place.Waiting ==> reason == OcoCancel)
    case _ => true
  }

  ghost predicate Fated(moves: seq<Move>, x: Id, kind: OrderType) {
    forall m :: m in moves ==> Suits(x, kind, m)
  }

  ghost predicate Booked(moves: seq<Move>, x: Id) {
    exists m :: m in moves && m.Void? && m.voidId == x && m.from == Place.Booked
  }

  /** Of the `whole` of `x`, what is announced as resting is what has not gone before. */
  ghost predicate Accounted(moves: seq<Move>, x: Id, whole: int) {
    forall i :: 0 <= i < |moves| && moves[i].Rest? && moves[i].restId == x ==>
      moves[i].restQty + Gone(Amount(x), moves[..i]) == whole
  }

  lemma FatedConcat(a: seq<Move>, b: seq<Move>, x: Id, kind: OrderType)
    ensures Fated(a + b, x, kind) <==> Fated(a, x, kind) && Fated(b, x, kind)
  {
    assert forall m :: m in a + b <==> m in a || m in b;
  }

  lemma AccountedMore(a: seq<Move>, b: seq<Move>, x: Id, whole: int)
    requires Accounted(a, x, whole) && forall m :: m in b ==> !(m.Rest? && m.restId == x)
    ensures Accounted(a + b, x, whole)
  {
    assert forall i :: |a| <= i < |a + b| ==> (a + b)[i] in b;
    forall i | 0 <= i < |a| ensures (a + b)[..i] == a[..i] && (a + b)[i] == a[i] { }
  }

  lemma AccountedNext(a: seq<Move>, m: Move, x: Id, whole: int)
    requires Accounted(a, x, whole) && m.Rest? && m.restId == x && m.restQty + Gone(Amount(x), a) == whole
    ensures Accounted(a + [m], x, whole)
  {
    assert (a + [m])[..|a|] == a;
    forall i | 0 <= i < |a| ensures (a + [m])[..i] == a[..i] { }
  }

  /** So far: `x` was treated as its type says, and was on neither side unless announced. */
  ghost predicate Kept(b: Book, moves: seq<Move>, x: Id, kind: OrderType, whole: int) {
    && Fated(moves, x, kind) && Accounted(moves, x, whole)
    && (!Rests(x, moves) ==> Without(b.bids, x) && Without(b.asks, x) && !Booked(moves, x))
  }

  lemma BookedEither(x: Id, a: seq<Move>, b: seq<Move>)
    ensures Booked(a + b, x) <==> Booked(a, x) || Booked(b, x)
  {
    assert forall m :: m in a + b <==> m in a || m in b;
  }

  // ---- A run ---------------------------------------------------------------------

  /** Only what is on a side is cancelled there. */
  lemma LinkedBooked(b: Book, id: Id, x: Id)
    requires Without(b.bids, x) && Without(b.asks, x)
    ensures !Booked(CancelLinked(b, id).1, x)
  {
    CountIsPresence(b.bids, x);
    CountIsPresence(b.asks, x);
    hide Find, SwapOut, RemoveAt, Sum;
  }

  lemma NewBooked(r: Run, x: Id)
    requires r.Active() && Without(r.book.bids, x) && Without(r.book.asks, x)
    ensures !Booked(New(r), x)
  {
    var side := r.taker.side.Opposite();
    var popped := r.book.WithResting(side, r.Opposing()[1..]);
    assert r.Opposing()[0] in r.Opposing() && forall o :: o in r.Opposing()[1..] ==> o in r.Opposing();
    assert Without(r.book.Resting(side), x);
    LinkedBooked(popped, r.Opposing()[0].id, x);
    hide CancelLinked, Insert;
  }

  lemma NewFated(r: Run, x: Id, kind: OrderType)
    requires r.Active()
    ensures Fated(New(r), x, kind) && Discards.NoneRests(New(r))
  {
    Discards.NewNone(r);
    LinkedFated(r.book.WithResting(r.taker.side.Opposite(), r.Opposing()[1..]), r.Opposing()[0].id, x, kind);
    hide CancelLinked, Insert;
  }

  lemma LinkedFated(b: Book, id: Id, x: Id, kind: OrderType)
    ensures Fated(CancelLinked(b, id).1, x, kind) && Discards.NoneRests(CancelLinked(b, id).1)
  {
  }

  lemma RestsEither(x: Id, a: seq<Move>, b: seq<Move>)
    ensures Rests(x, a + b) <==> Rests(x, a) || Rests(x, b)
  {
    assert forall m :: m in a + b <==> m in a || m in b;
  }

  lemma StepKept(r: Run, x: Id, kind: OrderType, whole: int)
    requires r.Active() && Kept(r.book, r.moves, x, kind, whole)
    ensures Kept(Step(r).book, Step(r).moves, x, kind, whole)
  {
    StepAppends(r);
    NewFated(r, x, kind);
    FatedConcat(r.moves, New(r), x, kind);
    RestsEither(x, r.moves, New(r));
    AccountedMore(r.moves, New(r), x, whole);
    var b, c := r.book, Step(r).book;
    assert b.Resting(Buy) == b.bids && b.Resting(Sell) == b.asks && c.Resting(Buy) == c.bids && c.Resting(Sell) == c.asks;
    BookedEither(x, r.moves, New(r));
    if !Rests(x, r.moves) {
      StepWithout(r, Buy, x);
      StepWithout(r, Sell, x);
      NewBooked(r, x);
    }
    hide Step, New, Fated, Accounted, Without, Booked;
  }

  lemma {:induction false} LoopKept(r: Run, queue: seq<Order>, x: Id, kind: OrderType, whole: int)
    requires Live(r, queue) && Kept(r.book, r.moves, x, kind, whole)
    ensures Kept(Loop(r, queue).book, Loop(r, queue).moves, x, kind, whole)
    decreases r.taker.remaining, |r.Opposing()|
  {
    if r.Active() {
      StepKeeps(r, queue);
      StepShrinks(r);
      StepKept(r, x, kind, whole);
      hide Kept, Step, Shaped, Distinct;
      LoopKept(Step(r), queue, x, kind, whole);
    }
  }

  /** The types with which orders run: triggered stops are limit or market orders by then. */
  predicate Runs(kind: OrderType) {
    kind != StopLimit && kind != StopMarket
  }

  lemma EndingFated(q: Run, x: Id, kind: OrderType)
    requires q.taker.id == x ==> q.dead || q.taker.remaining == 0 || (q.taker.kind == kind && Runs(kind))
    ensures Fated(Partners.Ending(q), x, kind)
    ensures q.taker.id != x ==> forall m :: m in Partners.Ending(q) && m.Rest? ==> m.restId != x
  {
    LinkedFated(q.book, q.taker.id, x, kind);
    hide CancelLinked, Insert;
  }

  /** What the end of its own run adds: news that it rests, with all that is left, or nothing of
    the kind. */
  lemma EndingRests(q: Run, x: Id)
    requires q.taker.id == x
    ensures var more := Partners.Ending(q);
      if !q.dead && q.taker.remaining != 0 && Disposal(q.taker.kind, q.last.Some?).None? then
        && |more| >= 1 && more[0] == Rest(x, q.taker.remaining)
        && forall m :: m in more[1..] ==> !m.Rest?
      else forall m :: m in more ==> !m.Rest?
  {
    LinkedFated(q.book, q.taker.id, x, Limit);
    hide CancelLinked, Insert;
  }

  lemma FinishAccounted(q: Run, x: Id, whole: int)
    requires Accounted(q.moves, x, whole)
    requires q.taker.id == x ==> q.taker.remaining + Gone(Amount(x), q.moves) == whole
    ensures Accounted(Finish(q).moves, x, whole)
  {
    var more := Partners.Ending(q);
    if q.taker.id == x {
      EndingRests(q, x);
      hide Accounted, Gone, Finish, Partners.Ending;
      if more != [] && more[0].Rest? {
        AccountedNext(q.moves, more[0], x, whole);
        assert more == [more[0]] + more[1..];
        assert q.moves + more == (q.moves + [more[0]]) + more[1..];
        AccountedMore(q.moves + [more[0]], more[1..], x, whole);
      } else {
        assert more != [] ==> more[0] in more;
        AccountedMore(q.moves, more, x, whole);
      }
    } else {
      EndingFated(q, x, Limit);
      hide Accounted, Gone, Finish, Partners.Ending;
      AccountedMore(q.moves, more, x, whole);
    }
  }

  lemma FinishWithoutUnlessRests(q: Run, side: Side, x: Id)
    requires Without(q.book.Resting(side), x)
    ensures !Rests(x, Finish(q).moves) ==> Without(Finish(q).book.Resting(side), x)
  {
    if q.taker.id != x {
      FinishWithout(q, side, x);
    } else if q.dead || q.taker.remaining == 0 || Disposal(q.taker.kind, q.last.Some?).Some? {
      LinkedMembers(q.book, q.taker.id, side);
      hide CancelLinked, Insert;
    } else {
      assert Rest(x, q.taker.remaining) in Finish(q).moves;
    }
  }

  lemma EndingBooked(q: Run, x: Id)
    requires Without(q.book.bids, x) && Without(q.book.asks, x)
    ensures !Booked(Partners.Ending(q), x)
  {
    LinkedBooked(q.book, q.taker.id, x);
    hide CancelLinked, Insert;
  }

  lemma FinishKept(q: Run, x: Id, kind: OrderType, whole: int)
    requires Kept(q.book, q.moves, x, kind, whole)
    requires q.taker.id == x ==> q.dead || q.taker.remaining == 0 || (q.taker.kind == kind && Runs(kind))
    requires q.taker.id == x ==> q.taker.remaining + Gone(Amount(x), q.moves) == whole
    ensures Kept(Finish(q).book, Finish(q).moves, x, kind, whole)
  {
    hide Fated, Accounted, Gone, Without, CancelLinked, Insert, Terminate, Settle;
    FinishAccounted(q, x, whole);
    EndingFated(q, x, kind);
    FatedConcat(q.moves, Partners.Ending(q), x, kind);
    RestsEither(x, q.moves, Partners.Ending(q));
    var b, c := q.book, Finish(q).book;
    assert b.Resting(Buy) == b.bids && b.Resting(Sell) == b.asks && c.Resting(Buy) == c.bids && c.Resting(Sell) == c.asks;
    BookedEither(x, q.moves, Partners.Ending(q));
    if !Rests(x, q.moves) {
      FinishWithoutUnlessRests(q, Buy, x);
      FinishWithoutUnlessRests(q, Sell, x);
      EndingBooked(q, x);
    }
    hide Finish, Rests;
  }

  // ---- The cascade ---------------------------------------------------------------

  /** In the queue `x` has the type it runs with; a stop-limit order will run as a limit order, a
    stop-market order as a market order. */
  ghost predicate Destined(b: Book, queue: seq<Order>, x: Id, kind: OrderType) {
    && Runs(kind) && (forall o :: o in queue && o.id == x ==> o.kind == kind)
    && Comes(b.buyStops, x, kind) && Comes(b.sellStops, x, kind)
  }

  ghost predicate Comes(stops: seq<Order>, x: Id, kind: OrderType) {
    forall o :: o in stops && o.id == x ==> if o.kind == StopLimit then kind == Limit else o.kind == StopMarket && kind == Market
  }

  ghost predicate WorkKept(w: Work, x: Id, kind: OrderType, whole: int) {
    && Kept(w.book, w.moves, x, kind, whole) && Destined(w.book, w.queue, x, kind)
    && Supply(Amount(x), w) == whole
  }

  /** When its run is over, what is left of `x` and what is gone of it make up the whole. */
  lemma AtItsEnd(w: Work, x: Id, whole: int)
    requires WorkOk(w) && w.queue != [] && Supply(Amount(x), w) == whole && w.queue[|w.queue| - 1].id == x
    ensures var others, taker := w.queue[..|w.queue| - 1], w.queue[|w.queue| - 1];
      var r0 := Run(w.book, taker, w.moves, None, false);
      && Live(r0, others)
      && Loop(r0, others).taker.remaining + Gone(Amount(x), Loop(r0, others).moves) == whole
  {
    var others, taker := w.queue[..|w.queue| - 1], w.queue[|w.queue| - 1];
    var r0 := Run(w.book, taker, w.moves, None, false);
    PopQueue(w.book, w.queue);
    assert taker in w.queue && w.queue == others + [taker];
    SumConcat(Amount(x), others, [taker]);
    SumOne(Amount(x), taker);
    LoopConserves(Amount(x), r0, others);
    FillOrKill.LoopSameTaker(r0, others);
    var q := Loop(r0, others);
    Alone(r0.book, taker, others);
    Alone(q.book, q.taker, others);
    hide Loop, Sum, Gone, Shaped, Distinct;
  }

  lemma DestinedFewer(c: Book, b: Book, queue: seq<Order>, others: seq<Order>, x: Id, kind: OrderType)
    requires Destined(b, queue, x, kind) && FewerStops(c, b) && forall o :: o in others ==> o in queue
    ensures Destined(c, others, x, kind)
  {
  }

  lemma RunOneDestined(w: Work, x: Id, kind: OrderType)
    requires WorkOk(w) && w.queue != [] && Destined(w.book, w.queue, x, kind)
    ensures Destined(RunOne(w).book, w.queue[..|w.queue| - 1], x, kind)
  {
    var others, taker := w.queue[..|w.queue| - 1], w.queue[|w.queue| - 1];
    var r0 := Run(w.book, taker, w.moves, None, false);
    PopQueue(w.book, w.queue);
    assert taker in w.queue && forall o :: o in others ==> o in w.queue;
    hide Loop, Finish, Shaped, Distinct, Destined;
    LoopFewer(r0, others);
    FinishFewer(Loop(r0, others));
    DestinedFewer(Loop(r0, others).book, w.book, w.queue, others, x, kind);
    DestinedFewer(RunOne(w).book, Loop(r0, others).book, others, others, x, kind);
  }

  lemma RunOneKept(w: Work, x: Id, kind: OrderType, whole: int)
    requires WorkOk(w) && w.queue != [] && WorkKept(w, x, kind, whole)
    ensures Kept(RunOne(w).book, RunOne(w).moves, x, kind, whole)
  {
    var others, taker := w.queue[..|w.queue| - 1], w.queue[|w.queue| - 1];
    var r0 := Run(w.book, taker, w.moves, None, false);
    PopQueue(w.book, w.queue);
    assert taker in w.queue;
    hide Loop, Finish, Kept, Supply, Shaped, Distinct, Gone;
    LoopKept(r0, others, x, kind, whole);
    FillOrKill.LoopSameTaker(r0, others);
    if taker.id == x { AtItsEnd(w, x, whole); }
    FinishKept(Loop(r0, others), x, kind, whole);
  }

  lemma DueDestined(b: Book, price: int, others: seq<Order>, x: Id, kind: OrderType)
    requires Destined(b, others, x, kind)
    ensures Destined(Undue(b, price), others + Due(b, price), x, kind) && Destined(Undue(b, price), others, x, kind)
  {
    ActivatedComes(b.buyStops[..UpTo(b.buyStops, price)], b.buyStops, x, kind);
    ActivatedComes(b.sellStops[UpTo(b.sellStops, price - 1)..], b.sellStops, x, kind);
  }

  /** Triggered, a stop-limit order is a limit order and a stop-market order a market order. */
  lemma ActivatedComes(t: seq<Order>, s: seq<Order>, x: Id, kind: OrderType)
    requires Comes(s, x, kind) && forall o :: o in t ==> o in s
    ensures forall o :: o in ActivateAll(t) && o.id == x ==> o.kind == kind
  {
    forall i | 0 <= i < |t| ensures ActivateAll(t)[i].id == x ==> ActivateAll(t)[i].kind == kind {
      ActivateAllAt(t, i);
      assert t[i] in t;
    }
  }

  lemma {:induction false} MarkersFated(s: seq<Order>, x: Id, kind: OrderType)
    ensures Fated(Triggered(s), x, kind) && Fated(Cascade.Dropped(s), x, kind)
  {
    if s != [] { MarkersFated(s[..|s| - 1], x, kind); }
  }

  lemma CheckKept(b: Book, price: int, others: seq<Order>, moves: seq<Move>, depth: nat, x: Id, kind: OrderType, whole: int)
    requires Kept(b, moves, x, kind, whole) && Destined(b, others, x, kind)
    ensures var v := CheckStops(b, price, others, moves, depth);
      Kept(v.book, v.moves, x, kind, whole) && Destined(v.book, v.queue, x, kind)
  {
    var due, v := Due(b, price), CheckStops(b, price, others, moves, depth);
    var more := Markers(due, price, depth);
    DueDestined(b, price, others, x, kind);
    MarkersFated(due, x, kind);
    Discards.MarkersNone(due);
    CheckAppends(b, price, others, moves, depth);
    hide Due, UpTo, Triggered, Cascade.Dropped, Destined, Without, Rests, Accounted, Fated, Discards.NoneRests;
    MarkersAdd(due, price, depth, x, kind);
    FatedConcat(moves, more, x, kind);
    RestsEither(x, moves, more);
    BookedEither(x, moves, more);
    AccountedMore(moves, more, x, whole);
    hide Booked;
  }

  lemma MarkersAdd(due: seq<Order>, price: int, depth: nat, x: Id, kind: OrderType)
    requires Fated(Triggered(due), x, kind) && Fated(Cascade.Dropped(due), x, kind)
    requires Discards.NoneRests(Triggered(due)) && Discards.NoneRests(Cascade.Dropped(due))
    ensures Fated(Markers(due, price, depth), x, kind)
    ensures forall m :: m in Markers(due, price, depth) ==> !(m.Rest? && m.restId == x)
    ensures !Booked(Markers(due, price, depth), x)
  {
    MarkersCancelNone(due, x);
    hide Triggered, Cascade.Dropped;
    FatedConcat([RunEnd(Some(price), |due|)], Triggered(due), x, kind);
    FatedConcat([RunEnd(Some(price), 0)], Cascade.Dropped(due), x, kind);
  }

  lemma TurnKept(w: Work, x: Id, kind: OrderType, whole: int)
    requires WorkOk(w) && w.queue != [] && WorkKept(w, x, kind, whole)
    ensures WorkKept(Turn(w), x, kind, whole)
  {
    var others, r := w.queue[..|w.queue| - 1], RunOne(w);
    RunOneKept(w, x, kind, whole);
    RunOneDestined(w, x, kind);
    TurnConserves(Amount(x), w);
    hide RunOne, CheckStops, Shaped, Distinct, Destined, Supply, Gone;
    match r.last
    case None => EndKept(r.book, r.moves, x, kind, whole);
    case Some(price) => CheckKept(r.book, price, others, r.moves, w.depth, x, kind, whole);
  }

  lemma EndKept(b: Book, moves: seq<Move>, x: Id, kind: OrderType, whole: int)
    requires Kept(b, moves, x, kind, whole)
    ensures Kept(b, moves + [RunEnd(None, 0)], x, kind, whole)
  {
    FatedConcat(moves, [RunEnd(None, 0)], x, kind);
    RestsEither(x, moves, [RunEnd(None, 0)]);
    BookedEither(x, moves, [RunEnd(None, 0)]);
    AccountedMore(moves, [RunEnd(None, 0)], x, whole);
  }

  lemma {:induction false} RunAllKept(w: Work, x: Id, kind: OrderType, whole: int)
    requires WorkOk(w) && WorkKept(w, x, kind, whole)
    ensures WorkKept(RunAll(w), x, kind, whole)
    decreases |w.queue| + w.book.WaitingCount()
  {
    if w.queue != [] {
      TurnKept(w, x, kind, whole);
      hide WorkKept, Turn;
      RunAllKept(Turn(w), x, kind, whole);
    }
  }

  // ---- Stops that a call sets off ------------------------------------------------

  lemma StopKept(b: Book, o: Order, stop: Order, kind: OrderType)
    requires Valid(b) && Fresh(b, o) && Refusal(b, o).None? && !o.kind.IsStop()
    requires stop in b.buyStops || stop in b.sellStops
    requires if stop.kind == StopLimit then kind == Limit else kind == Market
    ensures WorkKept(RunAll(Start(b, o)), stop.id, kind, stop.remaining)
  {
    var w, x := Start(b, o), stop.id;
    StopAlone(b, o, stop);
    PopQueue(b, [o]);
    hide Turn, Shaped, Distinct, Refusal;
    RunAllKept(w, x, kind, stop.remaining);
  }

  /** Before the call the stop is the only order under its id. */
  lemma StopAlone(b: Book, o: Order, stop: Order)
    requires Valid(b) && Fresh(b, o) && (stop in b.buyStops || stop in b.sellStops)
    ensures stop.id != o.id && Without(b.bids, stop.id) && Without(b.asks, stop.id)
    ensures forall s :: (s in b.buyStops || s in b.sellStops) && s.id == stop.id ==> s == stop
    ensures Total(Amount(stop.id), b) == stop.remaining && (stop.kind == StopLimit || stop.kind == StopMarket)
    ensures Sum(Amount(stop.id), [o]) == 0
  {
    var x := stop.id;
    assert Total(Count(x), b) + Sum(Count(x), [o]) <= 1;
    SumOne(Count(x), o);
    SumOne(Amount(x), o);
    CountIsPresence(b.bids, x);
    CountIsPresence(b.asks, x);
    CountIsPresence(b.buyStops, x);
    CountIsPresence(b.sellStops, x);
    NoneIsNothing(b.bids, x);
    NoneIsNothing(b.asks, x);
    if stop in b.buyStops {
      NoneIsNothing(b.sellStops, x);
      OnlyOne(b.buyStops, stop);
      assert WaitsOk(Buy, stop);
    } else {
      NoneIsNothing(b.buyStops, x);
      OnlyOne(b.sellStops, stop);
      assert WaitsOk(Sell, stop);
    }
  }

  lemma {:induction false} OnlyOne(s: seq<Order>, o: Order)
    requires o in s && Sum(Count(o.id), s) <= 1
    ensures Sum(Amount(o.id), s) == o.remaining && forall p :: p in s && p.id == o.id ==> p == o
  {
    var i :| 0 <= i < |s| && s[i] == o;
    SumSplit(Count(o.id), s, i);
    SumSplit(Amount(o.id), s, i);
    CountIsPresence(s[..i], o.id);
    CountIsPresence(s[i + 1..], o.id);
    NoneIsNothing(s[..i], o.id);
    NoneIsNothing(s[i + 1..], o.id);
    assert s == s[..i] + [o] + s[i + 1..];
    assert forall p :: p in s ==> p in s[..i] || p == o || p in s[i + 1..];
  }

  /** The order was cancelled for meeting its owner's. */
  ghost predicate Prevented(x: Id, moves: seq<Move>) {
    exists m :: m in moves && m.Void? && m.voidId == x && m.reason == SelfTradePrevented
  }

  /** A stop-limit order that a call sets off runs as a limit order: it is never cancelled for want of
    liquidity; what is announced of it as resting is all that is left of it then; and if nothing
    is, and self-trade prevention did not end it, all of it was filled, or taken by a Decrement. */
  lemma StopLimitsRest(b: Book, o: Order, stop: Order)
    requires Valid(b) && Fresh(b, o) && StopsPriced(b) && Priced(o) && Refusal(b, o).None? && !o.kind.IsStop()
    requires (stop in b.buyStops || stop in b.sellStops) && stop.kind == StopLimit
    ensures var moves, x := Submit(b, o).1, stop.id;
      && Cancelled(x, NoLiquidity) !in EventsOf(moves)
      && (forall i :: 0 <= i < |moves| && moves[i].Rest? && moves[i].restId == x ==>
           moves[i].restQty + Gone(Amount(x), moves[..i]) == stop.remaining)
      && (Trigger(x) in moves && !Prevented(x, moves) && !Rests(x, moves) ==>
           FilledQty(x, EventsOf(moves)) + GoneBy(Shrunk, Amount(x), moves) == stop.remaining)
  {
    var moves, x := Submit(b, o).1, stop.id;
    StopKept(b, o, stop, Limit);
    NeverCancelledFor(x, Limit, moves, NoLiquidity);
    if Trigger(x) in moves && !Prevented(x, moves) && !Rests(x, moves) {
      TriggeredSpent(b, o, stop, Limit);
      NoVoids(x, Limit, moves);
      NoneVoidedBy(x, moves);
      EventsTellFills(x, moves);
    }
    hide RunAll, Submit, Fated, GoneBy, Gone, FilledQty, EventsOf;
  }

  /** A stop-market order that a call sets off runs as a market order: it never rests, and if
    self-trade prevention did not end it, it is cancelled for want of liquidity or all of it was
    filled, or taken by a Decrement. */
  lemma StopMarketsNeverRest(b: Book, o: Order, stop: Order)
    requires Valid(b) && Fresh(b, o) && StopsPriced(b) && Priced(o) && Refusal(b, o).None? && !o.kind.IsStop()
    requires (stop in b.buyStops || stop in b.sellStops) && stop.kind == StopMarket
    ensures var moves, x := Submit(b, o).1, stop.id;
      && (forall q :: Rested(x, q) !in EventsOf(moves))
      && (Trigger(x) in moves && !Prevented(x, moves) && Cancelled(x, NoLiquidity) !in EventsOf(moves) ==>
           FilledQty(x, EventsOf(moves)) + GoneBy(Shrunk, Amount(x), moves) == stop.remaining)
  {
    var moves, x := Submit(b, o).1, stop.id;
    StopKept(b, o, stop, Market);
    NeverRests(x, Market, moves);
    if Trigger(x) in moves && !Prevented(x, moves) && Cancelled(x, NoLiquidity) !in EventsOf(moves) {
      TriggeredSpent(b, o, stop, Market);
      NoVoids(x, Market, moves);
      NoneVoidedBy(x, moves);
      EventsTellFills(x, moves);
    }
    hide RunAll, Submit, Fated, GoneBy, Gone, FilledQty, EventsOf;
  }

  lemma CancelledHasVoid(x: Id, moves: seq<Move>, reason: CancelReason)
    requires Cancelled(x, reason) in EventsOf(moves)
    ensures exists m :: m in moves && m.Void? && m.voidId == x && m.reason == reason
  {
    var m := EventHasMove(moves, Cancelled(x, reason));
  }

  lemma RestedHasRest(x: Id, moves: seq<Move>, qty: int)
    requires Rested(x, qty) in EventsOf(moves)
    ensures Rest(x, qty) in moves
  {
    var m := EventHasMove(moves, Rested(x, qty));
  }

  lemma NeverCancelledFor(x: Id, kind: OrderType, moves: seq<Move>, reason: CancelReason)
    requires Fated(moves, x, kind) && !EndsFor(kind, reason) && reason != OcoCancel
    ensures Cancelled(x, reason) !in EventsOf(moves)
  {
    forall m | m in moves ensures !(m.Void? && m.voidId == x && m.reason == reason) { assert Suits(x, kind, m); }
    if Cancelled(x, reason) in EventsOf(moves) { CancelledHasVoid(x, moves, reason); }
  }

  lemma NeverRests(x: Id, kind: OrderType, moves: seq<Move>)
    requires Fated(moves, x, kind) && !MayStay(kind)
    ensures !Rests(x, moves) && forall q :: Rested(x, q) !in EventsOf(moves)
  {
    forall m | m in moves ensures !(m.Rest? && m.restId == x) { assert Suits(x, kind, m); }
    forall q ensures Rested(x, q) !in EventsOf(moves) {
      if Rested(x, q) in EventsOf(moves) { RestedHasRest(x, moves, q); }
    }
  }

  /** A triggered stop that never rested is gone: all of it was filled, cancelled or taken. */
  lemma TriggeredSpent(b: Book, o: Order, stop: Order, kind: OrderType)
    requires Valid(b) && Fresh(b, o) && StopsPriced(b) && Priced(o) && Refusal(b, o).None? && !o.kind.IsStop()
    requires stop in b.buyStops || stop in b.sellStops
    requires WorkKept(RunAll(Start(b, o)), stop.id, kind, stop.remaining)
    requires Trigger(stop.id) in Submit(b, o).1 && !Rests(stop.id, Submit(b, o).1)
    ensures var moves, g := Submit(b, o).1, Amount(stop.id);
      && GoneBy(Traded, g, moves) + GoneBy(Voided, g, moves) + GoneBy(Shrunk, g, moves) == stop.remaining
      && Times(CancelledByOco, stop.id, moves) == 0
  {
    hide RunAll, Submit, Gone, GoneBy, Times, Total, Sum, Kept, Destined, Shaped, Distinct, Refusal, StopsPriced, Checked;
    var moves, x := Submit(b, o).1, stop.id;
    EachStopEndsOnce(b, o, stop);
    TriggeredTimes(x, moves);
    TimesSplit(b, o, stop);
    SubmitPriced(b, o);
    GoneIsAll(Amount(x), moves);
    NoneDroppedOrStray(x, moves);
    AllGone(b, o, stop, kind);
  }

  /** Once it left the registry by being triggered, it is there no more. */
  lemma TimesSplit(b: Book, o: Order, stop: Order)
    requires Valid(b) && Fresh(b, o)
    requires var (c, moves) := Submit(b, o);
      Waits(Count(stop.id), c) + Times(CancelledByOco, stop.id, moves) + Times(Activated, stop.id, moves) +
        Times(StopOrders.Discarded, stop.id, moves) == 1 && 0 < Times(Activated, stop.id, moves)
    ensures var (c, moves) := Submit(b, o);
      Waits(Count(stop.id), c) <= 0 && Times(CancelledByOco, stop.id, moves) == 0 && Times(StopOrders.Discarded, stop.id, moves) == 0
  {
    WaitsNone(Submit(b, o).0, stop.id);
    hide Submit, Times, Waits;
  }

  lemma WaitsNone(b: Book, x: Id)
    ensures 0 <= Waits(Count(x), b)
  {
    CountIsPresence(b.buyStops, x);
    CountIsPresence(b.sellStops, x);
  }

  lemma AllGone(b: Book, o: Order, stop: Order, kind: OrderType)
    requires Valid(b) && Fresh(b, o) && Refusal(b, o).None? && !o.kind.IsStop() && (stop in b.buyStops || stop in b.sellStops)
    requires WorkKept(RunAll(Start(b, o)), stop.id, kind, stop.remaining)
    requires !Rests(stop.id, Submit(b, o).1) && Waits(Count(stop.id), Submit(b, o).0) <= 0
    ensures Gone(Amount(stop.id), Submit(b, o).1) == stop.remaining
  {
    hide RunAll, Gone, Sum, Destined, Shaped, Distinct, Refusal, Rests, Waits;
    StopAlone(b, o, stop);
    SubmitConserves(Amount(stop.id), b, o);
    Absent(Submit(b, o).0, stop.id);
    hide Total;
    SumOne(Amount(stop.id), o);
  }

  lemma Absent(c: Book, x: Id)
    requires Without(c.bids, x) && Without(c.asks, x) && Waits(Count(x), c) <= 0
    ensures Total(Amount(x), c) == 0
  {
    CountIsPresence(c.bids, x);
    CountIsPresence(c.asks, x);
    AbsentAmount(c, x);
  }

  lemma {:induction false} TriggeredTimes(x: Id, moves: seq<Move>)
    requires Trigger(x) in moves
    ensures 0 < Times(Activated, x, moves)
  {
    var front, last := moves[..|moves| - 1], moves[|moves| - 1];
    assert moves == front + [last];
    if Trigger(x) in front { TriggeredTimes(x, front); }
  }

  lemma {:induction false} NoneDroppedOrStray(x: Id, moves: seq<Move>)
    requires Times(StopOrders.Discarded, x, moves) == 0 && NoStrays(moves)
    ensures GoneBy(Conservation.Dropped, Amount(x), moves) == 0 && GoneBy(Strayed, Amount(x), moves) == 0
  {
    if moves != [] {
      assert moves[|moves| - 1] in moves && forall m :: m in moves[..|moves| - 1] ==> m in moves;
      NoneDroppedOrStray(x, moves[..|moves| - 1]);
    }
  }

  ghost predicate VoidOf(x: Id, moves: seq<Move>) {
    exists m :: m in moves && m.Void? && m.voidId == x
  }

  /** Not announced as resting, not cancelled as a partner while it waited, not prevented: then it was
    not cancelled, unless for want of liquidity. */
  lemma NoVoids(x: Id, kind: OrderType, moves: seq<Move>)
    requires Fated(moves, x, kind) && !Booked(moves, x) && Times(CancelledByOco, x, moves) == 0 && !Prevented(x, moves)
    requires kind == Limit || (kind == Market && Cancelled(x, NoLiquidity) !in EventsOf(moves))
    ensures !VoidOf(x, moves)
  {
    if m :| m in moves && m.Void? && m.voidId == x {
      assert Suits(x, kind, m);
      if m.from == Place.Waiting {
        WaitingTimes(x, moves, m);
      } else if m.from == Incoming {
        assert m.reason == NoLiquidity;
        Rejects.MoveHasEvent(moves, m, Cancelled(x, NoLiquidity));
      }
    }
  }

  lemma {:induction false} WaitingTimes(x: Id, moves: seq<Move>, m: Move)
    requires m in moves && m.Void? && m.voidId == x && m.from == Place.Waiting && m.reason == OcoCancel
    ensures 0 < Times(CancelledByOco, x, moves)
  {
    var front, last := moves[..|moves| - 1], moves[|moves| - 1];
    assert moves == front + [last];
    if m in front { WaitingTimes(x, front, m); }
  }

  lemma {:induction false} NoneVoidedBy(x: Id, moves: seq<Move>)
    requires !VoidOf(x, moves)
    ensures GoneBy(Voided, Amount(x), moves) == 0
  {
    if moves != [] {
      assert moves[|moves| - 1] in moves && forall m :: m in moves[..|moves| - 1] ==> m in moves;
      NoneVoidedBy(x, moves[..|moves| - 1]);
    }
  }

  // ---- The order submitted -------------------------------------------------------

  /** What the order's run leaves over, as the book before the call tells. */
  function LeftOver(b: Book, o: Order): int
    requires Walk.Shown(b.Resting(o.side.Opposite()))
  {
    Walk.Short(Walk.Ahead(b, o), o.remaining)
  }

  /** The last order of its price. */
  ghost predicate Stands(shelf: Shelf, s: seq<Order>, o: Order) {
    exists i :: 0 <= i < |s| && s[i] == o
      && (forall j :: 0 <= j < i ==> RankOf(shelf, s[j]) <= RankOf(shelf, o))
      && (forall j :: i < j < |s| ==> RankOf(shelf, o) < RankOf(shelf, s[j]))
  }

  lemma StandsFirst(shelf: Shelf, s: seq<Order>, o: Order)
    requires Sorted(shelf, s) && (s == [] || RankOf(shelf, o) < RankOf(shelf, s[0]))
    ensures Stands(shelf, [o] + s, o)
  {
    var t := [o] + s;
    assert forall j :: 0 <= j < |s| ==> RankOf(shelf, s[0]) <= RankOf(shelf, s[j]);
    assert t[0] == o && forall j :: 0 < j < |t| ==> t[j] == s[j - 1];
  }

  lemma StandsBehind(shelf: Shelf, front: Order, rest: seq<Order>, o: Order)
    requires Stands(shelf, rest, o) && RankOf(shelf, front) <= RankOf(shelf, o)
    ensures Stands(shelf, [front] + rest, o)
  {
    var t := [front] + rest;
    var i :| 0 <= i < |rest| && rest[i] == o
      && (forall j :: 0 <= j < i ==> RankOf(shelf, rest[j]) <= RankOf(shelf, o))
      && (forall j :: i < j < |rest| ==> RankOf(shelf, o) < RankOf(shelf, rest[j]));
    assert t[i + 1] == o && forall j :: 0 < j < |t| ==> t[j] == rest[j - 1];
  }

  lemma {:induction false} InsertStands(shelf: Shelf, s: seq<Order>, o: Order)
    requires Sorted(shelf, s)
    ensures Stands(shelf, Insert(shelf, s, o), o)
  {
    hide Stands;
    if s == [] || RankOf(shelf, o) < RankOf(shelf, s[0]) {
      StandsFirst(shelf, s, o);
    } else {
      InsertStands(shelf, s[1..], o);
      StandsBehind(shelf, s[0], Insert(shelf, s[1..], o), o);
    }
  }

  /** A run of a limit, OCO or iceberg order that leaves something over ends with the news that just
    that rests, as the last order of its price; of a market or immediate-or-cancel order, with its
    cancellation for want of liquidity; of a fill-or-kill order, as unfilled. */
  lemma RunEnds(q: Run, queue: seq<Order>)
    requires Live(q, queue) && !q.Active() && !q.dead && 0 < q.taker.remaining
    ensures q.taker.kind in {Limit, Oco, Iceberg} && q.taker.price.Some? ==>
      && Finish(q).moves == q.moves + [Rest(q.taker.id, q.taker.remaining)]
      && Stands(ShelfOf(q.taker.side), Finish(q).book.Resting(q.taker.side), q.taker)
    ensures q.taker.kind in {Market, Ioc} ==> Void(q.taker.id, q.taker.remaining, NoLiquidity, Incoming) in Finish(q).moves
    ensures q.taker.kind == Fok ==> Void(q.taker.id, q.taker.remaining, FokUnfilled, Incoming) in Finish(q).moves
  {
    hide CancelLinked, Insert, Stands;
    InsertStands(ShelfOf(q.taker.side), q.book.Resting(q.taker.side), q.taker);
  }

  /** What a fill takes of the resting order, and where it leaves it. It takes no more than the order shows,
    which is its display size if more than that is left of it. An order of which not all that
    it shows is taken keeps its place; one that shows no more for now goes behind all others of its
    price; and one that is used up is gone. */
  lemma FillLeaves(r: Run, queue: seq<Order>)
    requires Live(r, queue) && r.Active() && r.Opposing()[0].user != r.taker.user
    ensures var maker, rest, shelf, q := r.Opposing()[0], r.Opposing()[1..], ShelfOf(r.taker.side.Opposite()), Step(r);
      var shown := if maker.displayQty.Some? then Min(maker.displayQty.value, maker.remaining) else maker.remaining;
      && q.taker == r.taker.(remaining := if r.taker.remaining <= shown then 0 else r.taker.remaining - shown)
      && (r.taker.remaining < shown ==> q.Opposing() == [maker.(remaining := maker.remaining - r.taker.remaining)] + rest)
      && (shown <= r.taker.remaining && shown < maker.remaining ==>
           && Stands(shelf, q.Opposing(), maker.(remaining := maker.remaining - shown))
           && multiset(q.Opposing()) == multiset(rest) + multiset{maker.(remaining := maker.remaining - shown)})
      && (shown <= r.taker.remaining && shown == maker.remaining ==> Without(q.Opposing(), maker.id))
  {
    var maker := r.Opposing()[0];
    assert maker in r.Opposing() && RestsOk(r.taker.side.Opposite(), maker);
    hide Step, Stands, Shaped, Distinct, Sorted;
    StillThere(r);
    if maker.Effective() < maker.remaining && maker.Effective() <= r.taker.remaining {
      SliceUsed(r, queue);
    } else if maker.Effective() <= r.taker.remaining {
      FrontUsed(r, queue);
    }
  }

  lemma StillThere(r: Run)
    requires r.Active() && r.Opposing()[0].user != r.taker.user
    ensures var maker, q := r.Opposing()[0], Step(r);
      && q.taker == r.taker.(remaining := r.taker.remaining - Min(r.taker.remaining, maker.Effective()))
      && (r.taker.remaining < maker.Effective() <= maker.remaining ==>
           q.Opposing() == [maker.(remaining := maker.remaining - r.taker.remaining)] + r.Opposing()[1..])
  {
    hide CancelLinked, Insert;
  }

  lemma SliceUsed(r: Run, queue: seq<Order>)
    requires Live(r, queue) && r.Active() && r.Opposing()[0].user != r.taker.user
    requires r.Opposing()[0].Effective() < r.Opposing()[0].remaining && r.Opposing()[0].Effective() <= r.taker.remaining
    ensures var maker, rest, shelf, q := r.Opposing()[0], r.Opposing()[1..], ShelfOf(r.taker.side.Opposite()), Step(r);
      var left := maker.(remaining := maker.remaining - maker.Effective());
      Stands(shelf, q.Opposing(), left) && multiset(q.Opposing()) == multiset(rest) + multiset{left}
  {
    var maker, rest, shelf := r.Opposing()[0], r.Opposing()[1..], ShelfOf(r.taker.side.Opposite());
    RestSorted(shelf, r.Opposing());
    hide CancelLinked, Insert, Stands, Shaped, Distinct, Sorted;
    InsertStands(shelf, rest, maker.(remaining := maker.remaining - maker.Effective()));
    InsertBag(shelf, rest, maker.(remaining := maker.remaining - maker.Effective()));
  }

  lemma FrontUsed(r: Run, queue: seq<Order>)
    requires Live(r, queue) && r.Active() && r.Opposing()[0].user != r.taker.user
    requires r.Opposing()[0].Effective() == r.Opposing()[0].remaining <= r.taker.remaining
    ensures Without(Step(r).Opposing(), r.Opposing()[0].id)
  {
    FrontIsAlone(r, queue);
    hide CancelLinked, Insert, Shaped, Distinct, Sorted;
    LinkedMembers(r.book.WithResting(r.taker.side.Opposite(), r.Opposing()[1..]), r.Opposing()[0].id, r.taker.side.Opposite());
  }

  lemma RestSorted(shelf: Shelf, s: seq<Order>)
    requires Sorted(shelf, s) && s != []
    ensures Sorted(shelf, s[1..])
  {
  }

  /** No other order on its side has the front order's id. */
  lemma FrontIsAlone(r: Run, queue: seq<Order>)
    requires Live(r, queue) && r.Active()
    ensures Without(r.Opposing()[1..], r.Opposing()[0].id)
  {
    var s, x := r.Opposing(), r.Opposing()[0].id;
    assert s == [s[0]] + s[1..];
    assert Total(Count(x), r.book) + Sum(Count(x), [r.taker] + queue) <= 1;
    SumConcat(Count(x), [s[0]], s[1..]);
    SumOne(Count(x), s[0]);
    CountIsPresence(r.book.bids, x);
    CountIsPresence(r.book.asks, x);
    CountIsPresence(r.book.buyStops, x);
    CountIsPresence(r.book.sellStops, x);
    CountIsPresence([r.taker] + queue, x);
    CountIsPresence(s[1..], x);
    hide Sum;
  }

  lemma {:induction false} InsertBag(shelf: Shelf, s: seq<Order>, o: Order)
    ensures multiset(Insert(shelf, s, o)) == multiset(s) + multiset{o}
  {
    if s != [] && RankOf(shelf, s[0]) <= RankOf(shelf, o) {
      InsertBag(shelf, s[1..], o);
      assert s == [s[0]] + s[1..];
    }
  }

  lemma OwnRun(b: Book, o: Order)
    requires Valid(b) && Fresh(b, o) && Refusal(b, o).None? && !o.kind.IsStop()
    ensures Walk.Shown(b.Resting(o.side.Opposite())) && WorkOk(Start(b, o)) && Live(Rejects.Opening(b, o), [])
    ensures var q := Loop(Rejects.Opening(b, o), []);
      && RunOne(Start(b, o)) == Finish(q) && q.taker == o.(remaining := LeftOver(b, o))
      && (q.dead ==> q.taker.remaining == 0) && !q.Active() && Live(q, [])
      && Finish(q).moves <= Turn(Start(b, o)).moves <= Submit(b, o).1
  {
    var w := Start(b, o);
    Rejects.OpeningRun(b, o);
    Walk.LoopSpends(Rejects.Opening(b, o), []);
    TurnExtends(w);
    RunAllExtends(Turn(w));
    assert w.queue[..0] == [];
    hide Loop, Finish, Turn, Shaped, Distinct, Refusal, Walk.Slices, FillOrKill.Got;
  }

  lemma InLonger(a: seq<Move>, b: seq<Move>, m: Move)
    requires a <= b && m in a
    ensures m in b
  {
  }

  lemma OrderKept(b: Book, o: Order)
    requires Valid(b) && Fresh(b, o) && Refusal(b, o).None? && !o.kind.IsStop()
    ensures WorkKept(RunAll(Start(b, o)), o.id, o.kind, o.remaining)
  {
    PopQueue(b, [o]);
    Partners.FirstAlone(b, o);
    Rejects.OnlyItself(b, o);
    SumOne(Amount(o.id), o);
    hide Turn, Shaped, Distinct, Refusal;
    RunAllKept(Start(b, o), o.id, o.kind, o.remaining);
  }

  /** What becomes of what an order's run leaves over: a limit, OCO or iceberg order is announced as
    resting with just that, if there is any; a market or immediate-or-cancel order is cancelled
    for want of liquidity, and a fill-or-kill order as unfilled, if and only if there is any; and
    these never rest, nor are those ever cancelled for such reasons. */
  lemma LeftOverEnds(b: Book, o: Order)
    requires Valid(b) && Fresh(b, o) && Priced(o) && Refusal(b, o).None? && !o.kind.IsStop()
    ensures Walk.Shown(b.Resting(o.side.Opposite()))
    ensures var left, events := LeftOver(b, o), EventsOf(Submit(b, o).1);
      && (o.kind in {Limit, Oco, Iceberg} ==>
           && (0 < left ==> Rested(o.id, left) in events)
           && Cancelled(o.id, NoLiquidity) !in events && Cancelled(o.id, FokUnfilled) !in events)
      && (o.kind in {Market, Ioc} ==>
           && (Cancelled(o.id, NoLiquidity) in events <==> 0 < left)
           && forall q :: Rested(o.id, q) !in events)
      && (o.kind == Fok ==>
           && (Cancelled(o.id, FokUnfilled) in events <==> 0 < left)
           && forall q :: Rested(o.id, q) !in events)
  {
    hide Loop, Finish, Turn, Submit, Fated, Shaped, Distinct, Refusal, EventsOf, LeftOver, Accounted, Supply, Destined;
    var x, moves := o.id, Submit(b, o).1;
    LeftOverAnnounced(b, o);
    if LeftOver(b, o) == 0 { SpentIsNotCancelled(b, o); }
    OrderFated(b, o);
    if !MayStay(o.kind) {
      NeverRests(x, o.kind, moves);
    } else {
      NeverCancelledFor(x, o.kind, moves, NoLiquidity);
      NeverCancelledFor(x, o.kind, moves, FokUnfilled);
    }
  }

  lemma OrderFated(b: Book, o: Order)
    requires Valid(b) && Fresh(b, o) && Refusal(b, o).None? && !o.kind.IsStop()
    ensures Fated(Submit(b, o).1, o.id, o.kind)
  {
    hide RunAll, Shaped, Distinct, Refusal, Fated, Accounted, Supply, Destined;
    OrderKept(b, o);
  }

  /** What is left over is announced as what it is. */
  lemma LeftOverAnnounced(b: Book, o: Order)
    requires Valid(b) && Fresh(b, o) && Priced(o) && Refusal(b, o).None? && !o.kind.IsStop()
    ensures Walk.Shown(b.Resting(o.side.Opposite())) && 0 <= LeftOver(b, o)
    ensures var left, events := LeftOver(b, o), EventsOf(Submit(b, o).1);
      0 < left ==>
        && (o.kind in {Limit, Oco, Iceberg} ==> Rested(o.id, left) in events)
        && (o.kind in {Market, Ioc} ==> Cancelled(o.id, NoLiquidity) in events)
        && (o.kind == Fok ==> Cancelled(o.id, FokUnfilled) in events)
  {
    hide Loop, Finish, Turn, Submit, Shaped, Distinct, Refusal, EventsOf, LeftOver;
    var moves := Submit(b, o).1;
    OwnRun(b, o);
    var q := Loop(Rejects.Opening(b, o), []);
    if q.taker.remaining > 0 {
      RunEnds(q, []);
      if o.kind in {Limit, Oco, Iceberg} { RestAnnounced(q, moves); }
      if o.kind in {Market, Ioc} { VoidAnnounced(q, moves, NoLiquidity); }
      if o.kind == Fok { VoidAnnounced(q, moves, FokUnfilled); }
    }
  }

  lemma RestAnnounced(q: Run, moves: seq<Move>)
    requires Finish(q).moves == q.moves + [Rest(q.taker.id, q.taker.remaining)] && Finish(q).moves <= moves
    ensures Rested(q.taker.id, q.taker.remaining) in EventsOf(moves)
  {
    var m := Rest(q.taker.id, q.taker.remaining);
    assert m in q.moves + [m];
    InLonger(Finish(q).moves, moves, m);
    Rejects.MoveHasEvent(moves, m, Rested(q.taker.id, q.taker.remaining));
  }

  lemma VoidAnnounced(q: Run, moves: seq<Move>, reason: CancelReason)
    requires Void(q.taker.id, q.taker.remaining, reason, Incoming) in Finish(q).moves && Finish(q).moves <= moves
    ensures Cancelled(q.taker.id, reason) in EventsOf(moves)
  {
    var m := Void(q.taker.id, q.taker.remaining, reason, Incoming);
    InLonger(Finish(q).moves, moves, m);
    Rejects.MoveHasEvent(moves, m, Cancelled(q.taker.id, reason));
  }

  lemma SpentRun(b: Book, o: Order)
    requires Valid(b) && Fresh(b, o) && Live(Rejects.Opening(b, o), []) && WorkOk(Start(b, o))
    requires Start(b, o).queue == [o]
    requires Loop(Rejects.Opening(b, o), []).taker.remaining == 0
    ensures var r := Finish(Loop(Rejects.Opening(b, o), [])); Kept(r.book, r.moves, o.id, Limit, o.remaining)
  {
    var x, r0 := o.id, Rejects.Opening(b, o);
    Partners.FirstAlone(b, o);
    FillOrKill.LoopSameTaker(r0, []);
    Rejects.OnlyItself(b, o);
    SumOne(Amount(x), o);
    assert Start(b, o).queue[..0] == [];
    AtItsEnd(Start(b, o), x, o.remaining);
    assert Kept(b, [], x, Limit, o.remaining);
    hide Loop, Finish, Kept, Gone, Shaped, Distinct;
    LoopKept(r0, [], x, Limit, o.remaining);
    FinishKept(Loop(r0, []), x, Limit, o.remaining);
  }

  lemma SpentDestined(b: Book, o: Order)
    requires Valid(b) && Fresh(b, o) && Live(Rejects.Opening(b, o), [])
    ensures Destined(Finish(Loop(Rejects.Opening(b, o), [])).book, [], o.id, Limit)
  {
    hide Loop, Finish, Shaped, Distinct;
    Partners.FirstAlone(b, o);
    LoopFewer(Rejects.Opening(b, o), []);
    FinishFewer(Loop(Rejects.Opening(b, o), []));
  }

  /** An order that its run leaves nothing of is treated from then on as one of any type would be. */
  lemma SpentKept(b: Book, o: Order)
    requires Valid(b) && Fresh(b, o) && Refusal(b, o).None? && !o.kind.IsStop()
    requires Live(Rejects.Opening(b, o), []) && WorkOk(Start(b, o))
    requires Loop(Rejects.Opening(b, o), []).taker.remaining == 0
    requires RunOne(Start(b, o)) == Finish(Loop(Rejects.Opening(b, o), []))
    ensures WorkKept(Turn(Start(b, o)), o.id, Limit, o.remaining)
  {
    hide RunOne, Loop, Finish, Kept, Destined, Supply, Shaped, Distinct, Refusal, CheckStops;
    var x, w := o.id, Start(b, o);
    var r := RunOne(w);
    SpentRun(b, o);
    SpentDestined(b, o);
    assert w.queue[..0] == [];
    TurnConserves(Amount(x), w);
    WholeIsRemaining(b, o);
    match r.last
    case None => EndKept(r.book, r.moves, x, Limit, o.remaining);
    case Some(price) => CheckKept(r.book, price, [], r.moves, w.depth, x, Limit, o.remaining);
  }

  lemma WholeIsRemaining(b: Book, o: Order)
    requires Valid(b) && Fresh(b, o)
    ensures Supply(Amount(o.id), Work(b, [o], [], 0)) == o.remaining
  {
    Rejects.OnlyItself(b, o);
    SumOne(Amount(o.id), o);
  }

  lemma SpentIsNotCancelled(b: Book, o: Order)
    requires Valid(b) && Fresh(b, o) && Refusal(b, o).None? && !o.kind.IsStop()
    requires Walk.Shown(b.Resting(o.side.Opposite())) && LeftOver(b, o) == 0
    ensures Cancelled(o.id, NoLiquidity) !in EventsOf(Submit(b, o).1) && Cancelled(o.id, FokUnfilled) !in EventsOf(Submit(b, o).1)
  {
    hide Loop, Finish, Turn, Fated, Shaped, Distinct, Refusal, EventsOf, LeftOver, Accounted, Supply, Destined;
    var moves := Submit(b, o).1;
    OwnRun(b, o);
    SpentKept(b, o);
    RunAllKept(Turn(Start(b, o)), o.id, Limit, o.remaining);
    NeverCancelledFor(o.id, Limit, moves, NoLiquidity);
    NeverCancelledFor(o.id, Limit, moves, FokUnfilled);
  }

  // ---- Where it rests ------------------------------------------------------------

  /** The order is in no queue and waits for nothing. */
  ghost predicate Landed(w: Work, x: Id) {
    Without(w.queue, x) && Without(w.book.buyStops, x) && Without(w.book.sellStops, x)
  }

  lemma RunOneStops(w: Work)
    requires WorkOk(w) && w.queue != []
    ensures FewerStops(RunOne(w).book, w.book)
  {
    var others, taker := w.queue[..|w.queue| - 1], w.queue[|w.queue| - 1];
    var r0 := Run(w.book, taker, w.moves, None, false);
    PopQueue(w.book, w.queue);
    assert taker in w.queue;
    LoopFewer(r0, others);
    FinishFewer(Loop(r0, others));
    hide Loop, Finish, Shaped, Distinct;
  }

  lemma TurnLanded(w: Work, x: Id)
    requires WorkOk(w) && w.queue != [] && Without(w.queue[..|w.queue| - 1], x)
    requires Without(w.book.buyStops, x) && Without(w.book.sellStops, x)
    ensures Landed(Turn(w), x)
  {
    hide RunOne, Shaped, Distinct, CheckStops;
    var others, r := w.queue[..|w.queue| - 1], RunOne(w);
    RunOneStops(w);
    if r.last.Some? { CheckLanded(r.book, r.last.value, others, r.moves, w.depth, x); }
  }

  lemma CheckLanded(b: Book, price: int, others: seq<Order>, moves: seq<Move>, depth: nat, x: Id)
    requires Without(others, x) && Without(b.buyStops, x) && Without(b.sellStops, x)
    ensures Landed(CheckStops(b, price, others, moves, depth), x)
  {
    hide Triggered, Cascade.Dropped;
    ActivatedWithout(b.buyStops, b.buyStops[..UpTo(b.buyStops, price)], x);
    ActivatedWithout(b.sellStops, b.sellStops[UpTo(b.sellStops, price - 1)..], x);
  }

  lemma {:induction false} LandedRestsNoMore(w: Work, x: Id, n: nat)
    requires WorkOk(w) && Landed(w, x)
    ensures Discards.RestsFrom(x, n, RunAll(w).moves) ==> Discards.RestsFrom(x, n, w.moves)
    decreases |w.queue| + w.book.WaitingCount()
  {
    if w.queue != [] {
      assert w.queue[|w.queue| - 1] in w.queue && forall o :: o in w.queue[..|w.queue| - 1] ==> o in w.queue;
      Discards.TurnRests(w, x, n);
      TurnLanded(w, x);
      hide Turn, Landed, Discards.RestsFrom;
      LandedRestsNoMore(Turn(w), x, n);
    }
  }

  /** Nothing but what was left over is ever announced as resting of the order. */
  lemma RestsWithWhatIsLeft(b: Book, o: Order, qty: int)
    requires Valid(b) && Fresh(b, o) && Refusal(b, o).None? && !o.kind.IsStop()
    requires Rested(o.id, qty) in EventsOf(Submit(b, o).1)
    ensures Walk.Shown(b.Resting(o.side.Opposite())) && qty == LeftOver(b, o)
  {
    var x, w, moves := o.id, Start(b, o), Submit(b, o).1;
    RestedHasRest(x, moves, qty);
    OwnRun(b, o);
    var q, n := Loop(Rejects.Opening(b, o), []), |RunOne(w).moves|;
    Discards.LoopRests(Rejects.Opening(b, o), [], x, 0);
    Partners.FirstAlone(b, o);
    assert w.queue[..0] == [];
    TurnLanded(w, x);
    LandedRestsNoMore(Turn(w), x, n);
    NoRestInTurn(w, x);
    EndingRests(q, x);
    hide Loop, RunAll, Turn, Finish, Shaped, Distinct, Refusal, EventsOf, LeftOver, Partners.Ending;
    var i :| 0 <= i < |moves| && moves[i] == Rest(x, qty);
    assert i < n && moves[i] == Finish(q).moves[i];
    EndingPart(q, i);
  }

  lemma EndingPart(q: Run, i: nat)
    requires i < |Finish(q).moves|
    ensures if i < |q.moves| then Finish(q).moves[i] == q.moves[i] else
      i - |q.moves| < |Partners.Ending(q)| && Finish(q).moves[i] == Partners.Ending(q)[i - |q.moves|]
  {
  }

  lemma NoRestInTurn(w: Work, x: Id)
    requires WorkOk(w) && w.queue != []
    ensures !Discards.RestsFrom(x, |RunOne(w).moves|, Turn(w).moves)
  {
    var r := RunOne(w);
    hide RunOne, Due, Undue, Triggered, Cascade.Dropped, Shaped, Distinct;
    match r.last
    case None =>
    case Some(price) =>
      var due := Due(r.book, price);
      Discards.MarkersNone(due);
      CheckAppends(r.book, price, w.queue[..|w.queue| - 1], r.moves, w.depth);
      MarkersNoRest(due, price, w.depth);
      NoneFrom(r.moves, Markers(due, price, w.depth), x);
  }

  lemma MarkersNoRest(due: seq<Order>, price: int, depth: nat)
    requires Discards.NoneRests(Triggered(due)) && Discards.NoneRests(Cascade.Dropped(due))
    ensures Discards.NoneRests(Markers(due, price, depth))
  {
    hide Triggered, Cascade.Dropped;
  }

  lemma NoneFrom(a: seq<Move>, b: seq<Move>, x: Id)
    requires Discards.NoneRests(b)
    ensures !Discards.RestsFrom(x, |a|, a + b)
  {
    assert forall i :: |a| <= i < |a + b| ==> (a + b)[i] in b;
  }

  /** The rest of a limit, OCO or iceberg order stands on the book, last of its price, when its run is
    over; from then on it has what it rests with, but for what a stop that the call sets off takes
    of it; and without stops that is how the call leaves the book. */
  lemma RestStands(b: Book, o: Order) returns (mid: Book, n: nat)
    requires Valid(b) && Fresh(b, o) && Priced(o) && Refusal(b, o).None? && o.kind in {Limit, Oco, Iceberg}
    requires Walk.Shown(b.Resting(o.side.Opposite())) && 0 < LeftOver(b, o)
    ensures var (c, moves), left := Submit(b, o), LeftOver(b, o);
      && Stands(ShelfOf(o.side), mid.Resting(o.side), o.(remaining := left))
      && 0 < n <= |moves| && moves[n - 1] == Rest(o.id, left)
      && Total(Amount(o.id), c) + Gone(Amount(o.id), moves[n..]) == left
      && (b.WaitingCount() == 0 ==> c == mid)
  {
    hide Loop, Finish, Shaped, Distinct, Refusal, LeftOver, Stands, Total, Gone, Turn, Submit, RunOne;
    var w := Start(b, o);
    OwnRun(b, o);
    var q := Loop(Rejects.Opening(b, o), []);
    RunEnds(q, []);
    mid, n := RunOne(w).book, |RunOne(w).moves|;
    RestConserved(b, o, q);
    if b.WaitingCount() == 0 { NoStopsNoMore(b, o); }
  }

  lemma RestConserved(b: Book, o: Order, q: Run)
    requires Valid(b) && Fresh(b, o) && Refusal(b, o).None? && !o.kind.IsStop()
    requires Live(Rejects.Opening(b, o), []) && WorkOk(Start(b, o)) && q == Loop(Rejects.Opening(b, o), [])
    requires q.moves + [Rest(o.id, q.taker.remaining)] <= Submit(b, o).1
    ensures Total(Amount(o.id), Submit(b, o).0) + Gone(Amount(o.id), Submit(b, o).1[|q.moves| + 1..]) == q.taker.remaining
  {
    hide Loop, Submit, Gone, Total, Shaped, Distinct, Refusal;
    var g, moves, own := Amount(o.id), Submit(b, o).1, q.moves + [Rest(o.id, q.taker.remaining)];
    Rejects.OnlyItself(b, o);
    WholeIsRemaining(b, o);
    assert Start(b, o).queue[..0] == [];
    AtItsEnd(Start(b, o), o.id, o.remaining);
    SubmitConserves(g, b, o);
    assert moves == own + moves[|own|..];
    GoneConcat(g, own, moves[|own|..]);
    GonePush(g, q.moves, Rest(o.id, q.taker.remaining));
  }

  lemma NoStopsNoMore(b: Book, o: Order)
    requires Valid(b) && Fresh(b, o) && Refusal(b, o).None? && !o.kind.IsStop() && b.WaitingCount() == 0
    requires WorkOk(Start(b, o))
    ensures Submit(b, o).0 == RunOne(Start(b, o)).book
  {
    hide RunOne, Turn, Shaped, Distinct, Refusal;
    var w := Start(b, o);
    assert w.queue[..0] == [];
    RunOneStops(w);
    TurnEnds(w);
    assert RunAll(Turn(w)) == Turn(w);
  }

  lemma TurnEnds(w: Work)
    requires WorkOk(w) && |w.queue| == 1 && w.queue[..0] == []
    requires RunOne(w).book.buyStops == [] && RunOne(w).book.sellStops == []
    ensures Turn(w).queue == [] && Turn(w).book == RunOne(w).book
  {
    hide RunOne, CheckStops, Shaped, Distinct;
    var r := RunOne(w);
    if r.last.Some? { NoneToCheck(r.book, r.last.value, r.moves, w.depth); }
  }

  lemma NoneToCheck(b: Book, price: int, moves: seq<Move>, depth: nat)
    requires b.buyStops == [] && b.sellStops == []
    ensures var v := CheckStops(b, price, [], moves, depth); v.book == b && v.queue == []
  {
    assert Due(b, price) == [];
  }

  // ---- Where a stop-limit order rests --------------------------------------------

  /** The stop waits, or runs as the limit order it was registered to become. */
  ghost predicate GoesAs(b: Book, queue: seq<Order>, stop: Order) {
    && (forall o :: o in queue && o.id == stop.id ==> o.(remaining := 0) == stop.(kind := Limit, remaining := 0))
    && (forall o :: (o in b.buyStops || o in b.sellStops) && o.id == stop.id ==> o == stop)
  }

  lemma ActivatedGoesAs(s: seq<Order>, stop: Order)
    requires stop.kind == StopLimit && forall o :: o in s && o.id == stop.id ==> o == stop
    ensures forall o :: o in ActivateAll(s) && o.id == stop.id ==> o.(remaining := 0) == stop.(kind := Limit, remaining := 0)
  {
    forall i | 0 <= i < |s| ensures ActivateAll(s)[i] == Activate(s[i]) && s[i] in s { ActivateAllAt(s, i); }
  }

  lemma CheckGoesAs(b: Book, price: int, others: seq<Order>, moves: seq<Move>, depth: nat, stop: Order)
    requires GoesAs(b, others, stop) && stop.kind == StopLimit
    ensures var v := CheckStops(b, price, others, moves, depth); GoesAs(v.book, v.queue, stop)
  {
    hide Triggered, Cascade.Dropped;
    var buys, sells := b.buyStops[..UpTo(b.buyStops, price)], b.sellStops[UpTo(b.sellStops, price - 1)..];
    ActivatedGoesAs(buys, stop);
    ActivatedGoesAs(sells, stop);
  }

  lemma RunOneGoesAs(w: Work, stop: Order)
    requires WorkOk(w) && w.queue != [] && GoesAs(w.book, w.queue, stop)
    ensures GoesAs(RunOne(w).book, w.queue[..|w.queue| - 1], stop)
  {
    RunOneStops(w);
    hide RunOne, Shaped, Distinct;
    assert forall o :: o in w.queue[..|w.queue| - 1] ==> o in w.queue;
  }

  lemma TurnGoesAs(w: Work, stop: Order)
    requires WorkOk(w) && w.queue != [] && GoesAs(w.book, w.queue, stop) && stop.kind == StopLimit
    ensures GoesAs(Turn(w).book, Turn(w).queue, stop)
  {
    hide RunOne, Shaped, Distinct, CheckStops, GoesAs;
    RunOneGoesAs(w, stop);
    var r := RunOne(w);
    if r.last.Some? { CheckGoesAs(r.book, r.last.value, w.queue[..|w.queue| - 1], r.moves, w.depth, stop); }
  }

  lemma NoRestInLoop(r: Run, queue: seq<Order>, x: Id, i: nat)
    requires Live(r, queue) && |r.moves| <= i < |Loop(r, queue).moves|
    ensures !(Loop(r, queue).moves[i].Rest? && Loop(r, queue).moves[i].restId == x)
  {
    hide Loop, Shaped, Distinct;
    Discards.LoopRests(r, queue, x, |r.moves|);
  }

  lemma RestOfRun(q: Run, others: seq<Order>, stop: Order, i: nat)
    requires Live(q, others) && !q.Active() && stop.price.Some?
    requires q.taker.id == stop.id ==> q.taker.(remaining := 0) == stop.(kind := Limit, remaining := 0)
    requires |q.moves| <= i < |Finish(q).moves| && Finish(q).moves[i].Rest? && Finish(q).moves[i].restId == stop.id
    ensures var r := Finish(q);
      && |r.moves| == i + 1
      && Stands(ShelfOf(stop.side), r.book.Resting(stop.side), stop.(kind := Limit, remaining := r.moves[i].restQty))
  {
    hide Finish, Shaped, Distinct, Stands, Partners.Ending;
    EndingPart(q, i);
    OwnRest(q, others, i - |q.moves|, stop.id);
  }

  lemma InLoop(q: Run, i: nat)
    requires i < |q.moves|
    ensures i < |Finish(q).moves| && Finish(q).moves[i] == q.moves[i]
  {
    hide CancelLinked, Insert, Terminate, Settle;
    assert Finish(q).moves == q.moves + Partners.Ending(q);
    hide Finish;
  }

  /** A rest is announced at the very end of a run only, of the order that ran. */
  lemma RestEndsRun(w: Work, stop: Order, i: nat)
    requires WorkOk(w) && w.queue != [] && GoesAs(w.book, w.queue, stop) && stop.price.Some?
    requires |w.moves| <= i < |RunOne(w).moves| && RunOne(w).moves[i].Rest? && RunOne(w).moves[i].restId == stop.id
    ensures var r := RunOne(w);
      && |r.moves| == i + 1
      && Stands(ShelfOf(stop.side), r.book.Resting(stop.side), stop.(kind := Limit, remaining := r.moves[i].restQty))
  {
    hide Loop, Finish, Shaped, Distinct, Stands;
    var others, taker := w.queue[..|w.queue| - 1], w.queue[|w.queue| - 1];
    var r0 := Run(w.book, taker, w.moves, None, false);
    PopQueue(w.book, w.queue);
    assert taker in w.queue;
    var q := Loop(r0, others);
    if i < |q.moves| {
      InLoop(q, i);
      NoRestInLoop(r0, others, stop.id, i);
    }
    FillOrKill.LoopSameTaker(r0, others);
    RestOfRun(q, others, stop, i);
  }

  lemma OwnRest(q: Run, others: seq<Order>, k: nat, x: Id)
    requires Live(q, others) && !q.Active()
    requires k < |Partners.Ending(q)| && Partners.Ending(q)[k].Rest? && Partners.Ending(q)[k].restId == x
    requires q.taker.id == x ==> q.taker.kind == Limit && q.taker.price.Some?
    ensures q.taker.id == x && |Finish(q).moves| == |q.moves| + k + 1 && Partners.Ending(q)[k].restQty == q.taker.remaining
    ensures Stands(ShelfOf(q.taker.side), Finish(q).book.Resting(q.taker.side), q.taker)
  {
    assert Partners.Ending(q)[k] in Partners.Ending(q);
    hide Stands, Shaped, Distinct;
    if q.taker.id != x {
      EndingFated(q, x, Limit);
      assert false;
    }
    EndingRests(q, x);
    RunEnds(q, others);
    hide CancelLinked, Insert;
  }

  lemma NoRestBetween(w: Work, x: Id, i: nat)
    requires WorkOk(w) && w.queue != [] && |RunOne(w).moves| <= i < |Turn(w).moves|
    ensures !(Turn(w).moves[i].Rest? && Turn(w).moves[i].restId == x)
  {
    hide Turn, RunOne, Shaped, Distinct;
    NoRestInTurn(w, x);
  }

  lemma {:induction false} RestingRun(w: Work, stop: Order, i: nat) returns (v: Work)
    requires WorkOk(w) && GoesAs(w.book, w.queue, stop) && stop.kind == StopLimit && stop.price.Some?
    requires |w.moves| <= i < |RunAll(w).moves| && RunAll(w).moves[i].Rest? && RunAll(w).moves[i].restId == stop.id
    ensures WorkOk(v) && v.queue != [] && RunAll(v) == RunAll(w) && RunOne(v).moves == RunAll(w).moves[..i + 1]
    ensures Stands(ShelfOf(stop.side), RunOne(v).book.Resting(stop.side),
      stop.(kind := Limit, remaining := RunAll(w).moves[i].restQty))
    decreases |w.queue| + w.book.WaitingCount()
  {
    hide Turn, RunOne, Shaped, Distinct, Stands, GoesAs;
    assert w.queue != [];
    TurnExtends(w);
    RunAllExtends(Turn(w));
    if i < |RunOne(w).moves| {
      RestEndsRun(w, stop, i);
      v := w;
    } else {
      if i < |Turn(w).moves| { NoRestBetween(w, stop.id, i); }
      TurnGoesAs(w, stop);
      v := RestingRun(Turn(w), stop, i);
    }
  }

  /** Where a stop-limit order that a call sets off is announced as resting, there a run of that call
    has come to its end, and the order stands on the book with just that amount, as the last
    order of its limit price. */
  lemma StopLimitStands(b: Book, o: Order, stop: Order, i: nat) returns (v: Work)
    requires Valid(b) && Fresh(b, o) && StopsPriced(b) && Refusal(b, o).None? && !o.kind.IsStop()
    requires (stop in b.buyStops || stop in b.sellStops) && stop.kind == StopLimit
    requires i < |Submit(b, o).1| && Submit(b, o).1[i].Rest? && Submit(b, o).1[i].restId == stop.id
    ensures var moves := Submit(b, o).1;
      && WorkOk(v) && v.queue != [] && RunAll(v).moves == moves && RunOne(v).moves == moves[..i + 1]
      && Stands(ShelfOf(stop.side), RunOne(v).book.Resting(stop.side), stop.(kind := Limit, remaining := moves[i].restQty))
  {
    hide RunAll, RunOne, Shaped, Distinct, Refusal, Stands;
    StopAlone(b, o, stop);
    PopQueue(b, [o]);
    v := RestingRun(Start(b, o), stop, i);
  }
}
