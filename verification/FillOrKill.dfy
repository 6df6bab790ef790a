/** How much of its quantity a taker gets, and when a fill-or-kill order is all-or-nothing.
  The pre-check adds up everything the limit reaches, the taker's own orders included, but
  self-trade prevention never fills those. */
module FillOrKill {
  import opened Orders
  import opened Ladder
  import opened Matcher
  import opened BookInvariants
  import opened Cascade
  import opened Conservation
  import opened Histories

  /** The price of the first of the taker's own orders within its limit, where a run with
    CancelTaker or Decrement stops being able to fill the taker completely. */
  function OwnPrice(s: seq<Order>, taker: Order): Option<int> {
    if taker.stpMode == CancelMaker || s == [] || !Admits(taker, s[0].price.Or(0)) then None
    else if s[0].user == taker.user then Some(s[0].price.Or(0))
    else OwnPrice(s[1..], taker)
  }

  /** What the others' orders within the limit can give. With CancelMaker the taker's own
    orders are skipped. Otherwise its first own order ends the count, and of an iceberg at
    that order's price only the shown slice comes before it. */
  function Given(s: seq<Order>, taker: Order, own: Option<int>): int {
    if s == [] || !Admits(taker, s[0].price.Or(0)) then 0
    else if s[0].user == taker.user then
      if taker.stpMode == CancelMaker then Given(s[1..], taker, own) else 0
    else
      (if own == Some(s[0].price.Or(0)) then s[0].Effective() else s[0].remaining) + Given(s[1..], taker, own)
  }

  function Capacity(s: seq<Order>, taker: Order): int {
    Given(s, taker, OwnPrice(s, taker))
  }

  /** No order within the limit has an OCO partner. */
  predicate Unlinked(s: seq<Order>, taker: Order, links: map<Id, Id>) {
    s == [] || !Admits(taker, s[0].price.Or(0)) || (s[0].id !in links && Unlinked(s[1..], taker, links))
  }

  /** None of the taker's own orders is within its limit. */
  predicate NoneOwn(s: seq<Order>, taker: Order) {
    s == [] || !Admits(taker, s[0].price.Or(0)) || (s[0].user != taker.user && NoneOwn(s[1..], taker))
  }

  ghost predicate Makers(s: seq<Order>, taker: Order) {
    SideOk(taker.side.Opposite(), s)
  }

  lemma TailMakers(s: seq<Order>, taker: Order)
    requires Makers(s, taker) && s != []
    ensures Makers(s[1..], taker) && 0 < s[0].Effective() <= s[0].remaining && s[0].price.Some?
    ensures s[1..] != [] ==> RankOf(ShelfOf(taker.side.Opposite()), s[0]) <= RankOf(ShelfOf(taker.side.Opposite()), s[1])
  {
    assert s[0] in s && RestsOk(taker.side.Opposite(), s[0]);
    assert forall o :: o in s[1..] ==> o in s;
  }

  lemma {:induction false} GivenNonNegative(s: seq<Order>, taker: Order, own: Option<int>)
    requires Makers(s, taker)
    ensures Given(s, taker, own) >= 0
  {
    if s != [] {
      TailMakers(s, taker);
      GivenNonNegative(s[1..], taker, own);
    }
  }

  /** What comes later does not change with the taker's remainder. */
  lemma {:induction false} SameLimit(s: seq<Order>, taker: Order, t: Order, own: Option<int>)
    requires t == taker.(remaining := t.remaining)
    ensures OwnPrice(s, t) == OwnPrice(s, taker) && Given(s, t, own) == Given(s, taker, own)
  {
    if s != [] { SameLimit(s[1..], taker, t, own); }
  }

  // ---- Re-queued icebergs --------------------------------------------------------

  /** `left` is another's order that the limit reaches and that `s` does not precede. */
  ghost predicate Requeues(s: seq<Order>, taker: Order, left: Order) {
    && Makers(s, taker)
    && left.user != taker.user && Admits(taker, left.price.Or(0))
  }

  lemma {:induction false} RequeueOwnPrice(s: seq<Order>, taker: Order, left: Order)
    requires Requeues(s, taker, left)
    ensures OwnPrice(Insert(ShelfOf(taker.side.Opposite()), s, left), taker) == OwnPrice(s, taker)
  {
    var shelf := ShelfOf(taker.side.Opposite());
    var t := Insert(shelf, s, left);
    if s == [] || RankOf(shelf, left) < RankOf(shelf, s[0]) {
      assert t[1..] == s;
    } else {
      TailMakers(s, taker);
      RequeueOwnPrice(s[1..], taker, left);
      assert t[1..] == Insert(shelf, s[1..], left);
    }
  }

  /** Prices up to an own order's are within the limit, and reached before a worse one. */
  lemma {:induction false} OwnPriceFacts(s: seq<Order>, taker: Order)
    requires Makers(s, taker) && OwnPrice(s, taker).Some?
    ensures s != [] && Admits(taker, s[0].price.Or(0))
    ensures var shelf := ShelfOf(taker.side.Opposite());
      RankOf(shelf, s[0]) <= Rank(shelf, OwnPrice(s, taker).value)
  {
    TailMakers(s, taker);
    if s[0].user != taker.user { OwnPriceFacts(s[1..], taker); }
  }

  /** A re-queued order still counts unless it now stands behind an own order. */
  lemma {:induction false} RequeueGiven(s: seq<Order>, taker: Order, left: Order, own: Option<int>)
    requires Requeues(s, taker, left) && own == OwnPrice(s, taker)
    requires own.Some? ==>
      RankOf(ShelfOf(taker.side.Opposite()), left) <= Rank(ShelfOf(taker.side.Opposite()), own.value)
    ensures Given(Insert(ShelfOf(taker.side.Opposite()), s, left), taker, own) ==
      Given(s, taker, own) + if own == Some(left.price.Or(0)) then 0 else left.remaining
  {
    var shelf := ShelfOf(taker.side.Opposite());
    var t := Insert(shelf, s, left);
    if s == [] || RankOf(shelf, left) < RankOf(shelf, s[0]) {
      assert t[1..] == s;
      if own.Some? { OwnPriceFacts(s, taker); }
    } else {
      TailMakers(s, taker);
      assert t[1..] == Insert(shelf, s[1..], left);
      assert Admits(taker, s[0].price.Or(0));
      if s[0].user == taker.user && taker.stpMode != CancelMaker {
        assert own == Some(s[0].price.Or(0));
      } else {
        RequeueGiven(s[1..], taker, left, own);
      }
    }
  }

  lemma {:induction false} RequeueUnlinked(s: seq<Order>, taker: Order, left: Order, links: map<Id, Id>)
    requires Makers(s, taker) && Unlinked(s, taker, links) && left.id !in links
    ensures Unlinked(Insert(ShelfOf(taker.side.Opposite()), s, left), taker, links)
  {
    var shelf := ShelfOf(taker.side.Opposite());
    var t := Insert(shelf, s, left);
    if s == [] || RankOf(shelf, left) < RankOf(shelf, s[0]) {
      assert t[1..] == s;
    } else {
      TailMakers(s, taker);
      assert t[1..] == Insert(shelf, s[1..], left);
      if Admits(taker, s[0].price.Or(0)) { RequeueUnlinked(s[1..], taker, left, links); }
    }
  }

  lemma {:induction false} UnlinkedSameLimit(s: seq<Order>, taker: Order, t: Order, links: map<Id, Id>)
    requires Unlinked(s, taker, links) && t == taker.(remaining := t.remaining)
    ensures Unlinked(s, t, links)
  {
    if s != [] && Admits(taker, s[0].price.Or(0)) { UnlinkedSameLimit(s[1..], taker, t, links); }
  }

  // ---- Runs ----------------------------------------------------------------------

  /** What the taker's fills add up to so far. */
  function Got(r: Run): int {
    GoneBy(Traded, Amount(r.taker.id), r.moves)
  }

  function CapacityOf(r: Run): int {
    Capacity(r.Opposing(), r.taker)
  }

  ghost predicate Meets(r: Run, queue: seq<Order>) {
    Live(r, queue) && Unlinked(r.Opposing(), r.taker, r.book.links)
  }

  lemma MakerIsAnother(r: Run, queue: seq<Order>)
    requires Live(r, queue) && r.Active()
    ensures r.Opposing()[0].id != r.taker.id
  {
    NotTwice(r.book, r.taker.side.Opposite(), r.taker, queue);
  }

  lemma NotTwice(b: Book, side: Side, o: Order, queue: seq<Order>)
    requires Distinct(b, [o] + queue) && b.Resting(side) != []
    ensures b.Resting(side)[0].id != o.id
  {
    var x := b.Resting(side)[0].id;
    assert ([o] + queue)[1..] == queue;
    assert Total(Count(x), b) + Sum(Count(x), [o] + queue) <= 1;
    CountIsPresence(b.bids, x);
    CountIsPresence(b.asks, x);
    CountIsPresence(b.buyStops, x);
    CountIsPresence(b.sellStops, x);
    CountIsPresence(queue, x);
    assert b.Resting(side)[0] in b.Resting(side);
  }

  /** A fill takes its quantity from what the others' orders can give. */
  lemma TradeStepCapacity(r: Run, queue: seq<Order>)
    requires Meets(r, queue) && r.Active() && r.Opposing()[0].user != r.taker.user
    ensures var q := TradeStep(r); var qty := r.taker.remaining - q.taker.remaining;
      && qty <= CapacityOf(r)
      && (q.taker.remaining > 0 ==>
           CapacityOf(q) == CapacityOf(r) - qty && Unlinked(q.Opposing(), q.taker, q.book.links))
  {
    var s, taker := r.Opposing(), r.taker;
    var maker, rest := s[0], s[1..];
    TailMakers(s, taker);
    GivenNonNegative(rest, taker, OwnPrice(s, taker));
    var q := TradeStep(r);
    var left := maker.(remaining := maker.remaining - Min(taker.remaining, maker.Effective()));
    if q.taker.remaining > 0 {
      if left.remaining == 0 {
        UnlinkedSameLimit(rest, taker, q.taker, r.book.links);
        SameLimit(rest, taker, q.taker, OwnPrice(s, taker));
      } else {
        RequeueCapacity(s, taker, left, r.book.links);
        var t := Insert(ShelfOf(taker.side.Opposite()), rest, left);
        UnlinkedSameLimit(t, taker, q.taker, r.book.links);
        SameLimit(t, taker, q.taker, OwnPrice(s, taker));
      }
    }
  }

  /** Sending the front order to the back of its level costs its shown slice if an own order
    stands there, and nothing more than the fill otherwise. */
  lemma RequeueCapacity(s: seq<Order>, taker: Order, left: Order, links: map<Id, Id>)
    requires Makers(s, taker) && s != [] && Admits(taker, s[0].price.Or(0)) && s[0].user != taker.user
    requires left == s[0].(remaining := s[0].remaining - s[0].Effective())
    requires Unlinked(s, taker, links)
    ensures var t := Insert(ShelfOf(taker.side.Opposite()), s[1..], left);
      && OwnPrice(t, taker) == OwnPrice(s, taker)
      && Given(t, taker, OwnPrice(s, taker)) == Given(s, taker, OwnPrice(s, taker)) - s[0].Effective()
      && Unlinked(t, taker, links)
  {
    TailMakers(s, taker);
    var rest := s[1..];
    RequeueOwnPrice(rest, taker, left);
    if OwnPrice(rest, taker).Some? { OwnPriceFacts(rest, taker); }
    RequeueGiven(rest, taker, left, OwnPrice(rest, taker));
    RequeueUnlinked(rest, taker, left, links);
  }

  lemma TradeStepGot(r: Run, queue: seq<Order>)
    requires Live(r, queue) && r.Active()
    ensures Got(TradeStep(r)) == Got(r) + (r.taker.remaining - TradeStep(r).taker.remaining)
  {
    var maker := r.Opposing()[0];
    MakerIsAnother(r, queue);
    var qty := Min(r.taker.remaining, maker.Effective());
    var trade := Trade(Fill(r.taker.id, maker.id, maker.price.Or(0), qty, r.taker.side));
    GoneByPush(Traded, Amount(r.taker.id), r.moves, trade);
    assert r.moves + [trade] + [] == r.moves + [trade];
  }

  lemma SelfTradeGot(r: Run)
    requires r.Active()
    ensures Got(PreventSelfTrade(r)) == Got(r)
  {
    var q, n, g := PreventSelfTrade(r), |r.moves|, Amount(r.taker.id);
    assert q.moves == r.moves + q.moves[n..];
    var more := q.moves[n..];
    GoneByConcat(Traded, g, r.moves, more);
    if |more| == 2 {
      assert more == [more[0]] + [more[1]];
      GoneByConcat(Traded, g, [more[0]], [more[1]]);
      GoneByOne(Traded, g, more[0]);
      GoneByOne(Traded, g, more[1]);
    } else {
      assert more == [more[0]];
      GoneByOne(Traded, g, more[0]);
    }
  }

  lemma GoneByOne(k: Exit, g: Gauge, m: Move)
    ensures GoneBy(k, g, [m]) == OutBy(k, g, m)
  {
    assert [m][..0] == [];
    assert GoneBy(k, g, []) == 0;
  }

  /** Up to its remainder the taker gets just what the others' orders can give. Decrement
    lets a taker that has met its own order go on, but never to its full quantity. */
  ghost predicate FillsAreCapacity(r: Run, q: Run) {
    var got := Got(q) - Got(r);
    && q.taker.id == r.taker.id && got <= r.taker.remaining
    && (got == r.taker.remaining <==> r.taker.remaining <= CapacityOf(r))
    && (r.taker.stpMode != Decrement ==> got == Min(r.taker.remaining, CapacityOf(r)))
  }

  lemma {:induction false} LoopFills(r: Run, queue: seq<Order>)
    requires Meets(r, queue) && !r.dead
    ensures FillsAreCapacity(r, Loop(r, queue))
    decreases r.taker.remaining, |r.Opposing()|
  {
    if !r.Active() {
      GivenNonNegative(r.Opposing(), r.taker, OwnPrice(r.Opposing(), r.taker));
    } else {
      var q := Step(r);
      StepKeeps(r, queue);
      StepShrinks(r);
      TailMakers(r.Opposing(), r.taker);
      if r.Opposing()[0].user != r.taker.user {
        TradeStepCapacity(r, queue);
        TradeStepGot(r, queue);
        if q.taker.remaining > 0 { LoopFills(q, queue); }
      } else {
        SelfTradeGot(r);
        OwnFront(r, queue);
        if !q.dead { LoopFills(q, queue); }
      }
    }
  }

  /** Meeting an own order: with CancelMaker it is skipped, otherwise the taker is spent or
    shrunk. */
  lemma OwnFront(r: Run, queue: seq<Order>)
    requires Meets(r, queue) && r.Active() && r.Opposing()[0].user == r.taker.user && !r.dead
    ensures var q := PreventSelfTrade(r);
      && (r.taker.stpMode == CancelMaker ==> !q.dead && CapacityOf(q) == CapacityOf(r) && q.taker == r.taker)
      && (r.taker.stpMode != CancelMaker ==> CapacityOf(r) == 0)
      && (r.taker.stpMode == CancelTaker ==> q.dead)
      && (!q.dead ==> Unlinked(q.Opposing(), q.taker, q.book.links))
      && (r.taker.stpMode == Decrement ==> q.taker.remaining < r.taker.remaining)
  {
    var s, q := r.Opposing(), PreventSelfTrade(r);
    TailMakers(s, r.taker);
    UnlinkedSameLimit(s[1..], r.taker, q.taker, r.book.links);
  }

  // ---- Whole orders --------------------------------------------------------------

  ghost predicate NoTrades(moves: seq<Move>) {
    forall m :: m in moves ==> !m.Trade?
  }

  lemma {:induction false} NoTradesNoFills(g: Gauge, moves: seq<Move>)
    requires NoTrades(moves)
    ensures GoneBy(Traded, g, moves) == 0
  {
    if moves != [] {
      assert moves[|moves| - 1] in moves;
      NoTradesNoFills(g, moves[..|moves| - 1]);
    }
  }

  /** Once its run is over, the rest of the turn fills nothing. */
  lemma TurnFills(w: Work, g: Gauge)
    requires WorkOk(w) && w.queue != []
    ensures var others, taker := w.queue[..|w.queue| - 1], w.queue[|w.queue| - 1];
      var start := Run(w.book, taker, w.moves, None, false);
      Live(start, others) && GoneBy(Traded, g, Turn(w).moves) == GoneBy(Traded, g, Loop(start, others).moves)
  {
    var others, taker := w.queue[..|w.queue| - 1], w.queue[|w.queue| - 1];
    PopQueue(w.book, w.queue);
    assert taker in w.queue;
    var q := Loop(Run(w.book, taker, w.moves, None, false), others);
    var r := RunOne(w);
    FinishAdds(q);
    assert r.moves == q.moves + r.moves[|q.moves|..];
    GoneByConcat(Traded, g, q.moves, r.moves[|q.moves|..]);
    NoTradesNoFills(g, r.moves[|q.moves|..]);
    CheckNoTrades(w);
    GoneByConcat(Traded, g, r.moves, Turn(w).moves[|r.moves|..]);
    NoTradesNoFills(g, Turn(w).moves[|r.moves|..]);
  }

  lemma CheckNoTrades(w: Work)
    requires WorkOk(w) && w.queue != []
    ensures var r, v := RunOne(w), Turn(w);
      |r.moves| <= |v.moves| && v.moves == r.moves + v.moves[|r.moves|..] && NoTrades(v.moves[|r.moves|..])
  {
    hide RunOne, Due, Undue;
    var r := RunOne(w);
    if r.last.Some? { MarkersQuiet(Due(r.book, r.last.value)); }
    hide Triggered, Cascade.Dropped;
  }

  /** These never rest: what is not filled at once is cancelled. */
  predicate Immediate(kind: OrderType) {
    kind in {Market, Ioc, Fok}
  }

  lemma ImmediateIsOut(r: Run, queue: seq<Order>)
    requires Live(r, queue) && Immediate(r.taker.kind)
    ensures Distinct(Finish(r).book, [r.taker] + queue)
  {
    hide Sum, Shaped, Settle, Within;
    CancelLinkedWithin(r.book, r.taker.id);
    WithinDistinct(CancelLinked(r.book, r.taker.id).0, r.book, [r.taker] + queue);
  }

  /** After its own run nothing is left under the order's id. */
  lemma OutAfterRun(b: Book, o: Order)
    requires Valid(b) && Fresh(b, o) && Immediate(o.kind)
    ensures WorkOk(Start(b, o)) && Total(Count(o.id), RunOne(Start(b, o)).book) <= 0
  {
    var x, w := o.id, Start(b, o);
    PopQueue(b, [o]);
    assert o in w.queue;
    var r0 := Run(b, o, [], None, false);
    var q := Loop(r0, []);
    LoopSameTaker(r0, []);
    ImmediateIsOut(q, []);
    hide Loop, Finish, Shaped, Sum;
    var c := RunOne(w).book;
    assert c == Finish(q).book;
    assert Total(Count(x), c) + Sum(Count(x), [q.taker] + []) <= 1;
    SumConcat(Count(x), [q.taker], []);
    SumOne(Count(x), q.taker);
    CountIsPresence([], x);
  }

  lemma OutAfterTurn(b: Book, o: Order)
    requires Valid(b) && Fresh(b, o) && Immediate(o.kind)
    ensures var w := Turn(Start(b, o)); Total(Amount(o.id), w.book) + Sum(Amount(o.id), w.queue) == 0
  {
    OutAfterRun(b, o);
    var w := Start(b, o);
    var r := RunOne(w);
    AbsentAmount(r.book, o.id);
    assert w.queue[..0] == [];
    NothingUnder(o.id);
    hide RunOne, Shaped, Distinct, Sum, Due, Undue;
    if r.last.Some? {
      GivenUp(r.book, o.id, r.last.value);
      assert [] + Due(r.book, r.last.value) == Due(r.book, r.last.value);
    }
  }

  lemma NothingUnder(x: Id)
    ensures Sum(Amount(x), []) == 0
  {
  }

  lemma AbsentStops(b: Book, x: Id)
    requires Total(Count(x), b) <= 0
    ensures Waits(Count(x), b) == 0
  {
    CountIsPresence(b.bids, x);
    CountIsPresence(b.asks, x);
    CountIsPresence(b.buyStops, x);
    CountIsPresence(b.sellStops, x);
  }

  lemma GivenUp(b: Book, x: Id, price: int)
    requires Total(Count(x), b) <= 0
    ensures Total(Amount(x), Undue(b, price)) == 0 && Sum(Amount(x), Due(b, price)) == 0
  {
    StopsMove(Count(x), b, price);
    AbsentStops(b, x);
    var c := Undue(b, price);
    CountIsPresence(b.bids, x);
    CountIsPresence(b.asks, x);
    CountIsPresence(c.buyStops, x);
    CountIsPresence(c.sellStops, x);
    CountIsPresence(Due(b, price), x);
    AbsentAmount(c, x);
    NoneIsNothing(Due(b, price), x);
  }

  lemma {:induction false} LoopSameTaker(r: Run, queue: seq<Order>)
    requires Live(r, queue)
    ensures var q := Loop(r, queue); q.taker == r.taker.(remaining := q.taker.remaining)
    decreases r.taker.remaining, |r.Opposing()|
  {
    if r.Active() {
      StepKeeps(r, queue);
      StepShrinks(r);
      LoopSameTaker(Step(r), queue);
    }
  }

  /** An id that is nowhere gets no fills from the runs that follow. */
  lemma LaterRunsGiveNothing(w: Work, x: Id)
    requires WorkOk(w) && AllSound(w.moves)
    requires Total(Amount(x), w.book) + Sum(Amount(x), w.queue) == 0
    ensures GoneBy(Traded, Amount(x), RunAll(w).moves) == GoneBy(Traded, Amount(x), w.moves)
  {
    hide RunAll, Shaped, Distinct, Sum, Gone, GoneBy;
    var v, g := RunAll(w), Amount(x);
    RunAllConserves(g, w);
    NothingUnder(x);
    RunAllExtends(w);
    RunAllSound(w);
    var more := v.moves[|w.moves|..];
    assert v.moves == w.moves + more;
    GoneConcat(g, w.moves, more);
    GoneByConcat(Traded, g, w.moves, more);
    PresentIffAmount(v.book, x);
    assert AllSound(more);
    GoneIsPositive(g, more);
    GoneIsAll(g, more);
    GoneNonNegative(Traded, g, more);
    GoneNonNegative(Voided, g, more);
    GoneNonNegative(Shrunk, g, more);
    GoneNonNegative(Conservation.Dropped, g, more);
    GoneNonNegative(Strayed, g, more);
  }

  /** An order that never rests gets its fills in its own run. */
  lemma FilledInItsRun(b: Book, o: Order)
    requires Valid(b) && Fresh(b, o) && Immediate(o.kind) && Refusal(b, o).None?
    ensures var r0 := Run(b, o, [], None, false);
      Live(r0, []) && FilledQty(o.id, EventsOf(Submit(b, o).1)) == Got(Loop(r0, []))
  {
    var w := Start(b, o);
    PopQueue(b, [o]);
    assert o in w.queue && w.queue[..0] == [];
    var r0 := Run(b, o, [], None, false);
    LoopSameTaker(r0, []);
    TurnFills(w, Amount(o.id));
    OutAfterTurn(b, o);
    TurnSound(w);
    LaterRunsGiveNothing(Turn(w), o.id);
    EventsTellFills(o.id, Submit(b, o).1);
  }

  /** What a market, immediate-or-cancel or accepted fill-or-kill order is filled for, with
    all the stops it sets off: its quantity exactly when the others' reachable orders can
    give it, and otherwise, unless it is in Decrement mode, just what these can give. */
  lemma ImmediateFill(b: Book, o: Order)
    requires Valid(b) && Fresh(b, o) && Immediate(o.kind) && Refusal(b, o).None?
    requires Unlinked(b.Resting(o.side.Opposite()), o, b.links)
    ensures var filled, capacity := FilledQty(o.id, EventsOf(Submit(b, o).1)), Capacity(b.Resting(o.side.Opposite()), o);
      && filled <= o.remaining
      && (filled == o.remaining <==> o.remaining <= capacity)
      && (o.stpMode != Decrement ==> filled == Min(o.remaining, capacity))
  {
    FilledInItsRun(b, o);
    LoopFills(Run(b, o, [], None, false), []);
    hide Submit, Loop, Capacity, FilledQty, Shaped, Distinct, Refusal;
  }

  lemma {:induction false} NoneOwnCapacity(s: seq<Order>, taker: Order)
    requires NoneOwn(s, taker)
    ensures OwnPrice(s, taker) == None && Given(s, taker, None) == Eligible(s, taker)
  {
    if s != [] && Admits(taker, s[0].price.Or(0)) { NoneOwnCapacity(s[1..], taker); }
  }

  /** A fill-or-kill order is refused, with nothing changed, exactly when what its limit
    reaches is too little. When it is not refused, it is filled completely exactly when the
    others' orders suffice: always, if none of its own orders is within its limit. */
  lemma AllOrNothing(b: Book, o: Order)
    requires Valid(b) && Fresh(b, o) && o.kind == Fok
    requires Unlinked(b.Resting(o.side.Opposite()), o, b.links)
    ensures var s, (c, moves) := b.Resting(o.side.Opposite()), Submit(b, o);
      if Eligible(s, o) < o.remaining then
        c == b && EventsOf(moves) == [Cancelled(o.id, FokUnfilled)]
      else
        && (FilledQty(o.id, EventsOf(moves)) == o.remaining <==> o.remaining <= Capacity(s, o))
        && (NoneOwn(s, o) ==> FilledQty(o.id, EventsOf(moves)) == o.remaining)
  {
    var s := b.Resting(o.side.Opposite());
    if Eligible(s, o) < o.remaining {
      EventsPush([], Void(o.id, o.remaining, FokUnfilled, Incoming));
      assert [] + [Void(o.id, o.remaining, FokUnfilled, Incoming)] == [Void(o.id, o.remaining, FokUnfilled, Incoming)];
    } else {
      ImmediateFill(b, o);
      if NoneOwn(s, o) { NoneOwnCapacity(s, o); }
    }
  }

  /** The pre-check counts the taker's own orders: here it lets a fill-or-kill order for 2
    through against one foreign and one own unit, and only one unit is filled. */
  lemma OwnOrdersBreakFillOrKill() returns (b: Book, o: Order)
    ensures Valid(b) && Fresh(b, o) && o.kind == Fok && Refusal(b, o).None?
    ensures FilledQty(o.id, EventsOf(Submit(b, o).1)) == 1 && o.remaining == 2
  {
    var a1 := Order(1, 10, "S", Sell, Limit, Some(100), 1, 1, CancelTaker, None, None, None);
    var a2 := Order(2, 20, "S", Sell, Limit, Some(100), 1, 1, CancelTaker, None, None, None);
    o := Order(3, 20, "S", Buy, Fok, Some(100), 2, 2, CancelTaker, None, None, None);
    b := EmptyBook.(asks := [a1, a2]);
    SmallBook(a1, a2, o);
    assert b.asks[1..] == [a2];
    assert [a2][1..] == [];
    assert Eligible([], o) == 0;
    assert Eligible([a2], o) == 1;
    assert Eligible(b.asks, o) == 2;
    assert Given([a2], o, Some(100)) == 0;
    assert OwnPrice([a2], o) == Some(100);
    assert Unlinked([], o, b.links) && Unlinked([a2], o, b.links);
    ImmediateFill(b, o);
  }

  lemma SmallBook(a1: Order, a2: Order, o: Order)
    requires a1.id != a2.id && a1.id != o.id && a2.id != o.id
    requires RestsOk(Sell, a1) && RestsOk(Sell, a2) && a1.price == a2.price && o.Ready()
    ensures Valid(EmptyBook.(asks := [a1, a2])) && Fresh(EmptyBook.(asks := [a1, a2]), o)
  {
    var b := EmptyBook.(asks := [a1, a2]);
    forall x ensures Total(Count(x), b) + Sum(Count(x), [o]) <= 1 && Total(Count(x), b) + Sum(Count(x), []) <= 1 {
      assert b.asks == [a1] + [a2];
      SumConcat(Count(x), [a1], [a2]);
      SumOne(Count(x), a1);
      SumOne(Count(x), a2);
      SumOne(Count(x), o);
    }
  }

  /** A pair of asks of 1, and a fill-or-kill order for 2 of another user. */
  lemma PairedBook() returns (b: Book, o: Order)
    ensures Valid(b) && Fresh(b, o) && o.kind == Fok && Refusal(b, o).None? && o.remaining == 2
    ensures NoneOwn(b.asks, o) && |b.asks| == 2 && o.side == Buy && b.buyStops == [] && b.sellStops == [] && b.bids == []
    ensures forall a :: a in b.asks ==> a.remaining == 1 && a.displayQty.None? && Admits(o, a.price.Or(0)) && a.user != o.user
    ensures b.links == map[b.asks[0].id := b.asks[1].id, b.asks[1].id := b.asks[0].id] && b.asks[0].id != b.asks[1].id
  {
    var a1 := Order(1, 10, "S", Sell, Limit, Some(100), 1, 1, CancelTaker, None, None, None);
    var a2 := Order(2, 10, "S", Sell, Limit, Some(100), 1, 1, CancelTaker, None, None, None);
    o := Order(3, 20, "S", Buy, Fok, Some(100), 2, 2, CancelTaker, None, None, None);
    var b0 := EmptyBook.(asks := [a1, a2]);
    b := RegisterOco(b0, 1, 2);
    SmallBook(a1, a2, o);
    LinksDoNotCount(b0, b, o);
    assert b.asks[1..] == [a2];
    assert [a2][1..] == [];
    assert Eligible([], o) == 0;
    assert Eligible([a2], o) == 1;
    assert Eligible(b.asks, o) == 2;
    assert NoneOwn([a2], o);
  }

  lemma LinksDoNotCount(b: Book, c: Book, o: Order)
    requires Valid(b) && Fresh(b, o) && c == b.(links := c.links)
    ensures Valid(c) && Fresh(c, o)
  {
    forall x ensures Total(Count(x), c) + Sum(Count(x), [o]) <= 1 && Total(Count(x), c) + Sum(Count(x), []) <= 1 {
      assert Total(Count(x), b) + Sum(Count(x), [o]) <= 1 && Total(Count(x), b) + Sum(Count(x), []) <= 1;
    }
  }

  /** The pre-check counts both legs of a pair: here it lets a fill-or-kill order for 2 through,
    though none of its own orders is in reach; its fill of one leg cancels the other. */
  lemma PairsBreakFillOrKill() returns (b: Book, o: Order)
    ensures Valid(b) && Fresh(b, o) && o.kind == Fok && Refusal(b, o).None? && NoneOwn(b.asks, o)
    ensures FilledQty(o.id, EventsOf(Submit(b, o).1)) == 1 && o.remaining == 2
  {
    b, o := PairedBook();
    FilledInItsRun(b, o);
    var r := Run(b, o, [], None, false);
    assert b.asks[0] in b.asks && b.asks[1] in b.asks;
    StepKeeps(r, []);
    StepShrinks(r);
    TakesOneLeg(r);
    TradeStepGot(r, []);
    hide Shaped, Distinct, Step, FilledQty, Submit, Refusal;
    assert Loop(r, []) == Step(r);
  }

  lemma TakesOneLeg(r: Run)
    requires r.Active() && |r.Opposing()| == 2 && r.book.buyStops == [] && r.book.sellStops == [] && r.taker.side == Buy
    requires var s := r.Opposing();
      && s[0].id != s[1].id && s[0].remaining == 1 && s[0].displayQty.None? && s[0].user != r.taker.user
      && r.taker.remaining == 2 && r.book.links == map[s[0].id := s[1].id, s[1].id := s[0].id]
      && r.book.bids == []
    ensures Step(r) == TradeStep(r) && !Step(r).Active() && Step(r).taker.remaining == 1
  {
    var s := r.Opposing();
    var popped := r.book.WithResting(Sell, s[1..]);
    var bare := popped.(links := popped.links - {s[0].id, s[1].id});
    assert bare.asks == [s[1]];
    assert Find([s[1]], s[1].id) == 0;
    assert !Has([], s[1].id);
    assert RemoveAt([s[1]], 0) == [];
  }
}
