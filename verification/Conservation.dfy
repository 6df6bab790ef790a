/** Quantity is neither created nor lost: whatever enters the core leaves it by a fill, a
  cancellation, self-trade Decrement or the cascade limit, or is still there. */
module Conservation {
  import opened Orders
  import opened Ladder
  import opened Matcher
  import opened BookInvariants
  import opened Cascade

  /** The ways in which quantity leaves. */
  datatype Exit = Traded | Voided | Shrunk | Dropped | Strayed

  /** `qty` under `id`, as the gauge sees it. */
  function Share(g: Gauge, id: Id, qty: int): int {
    match g
    case Count(_) => 0
    case Tag(_) => 0
    case Amount(x) => if id == x then qty else 0
    case Depth => qty
  }

  function OutBy(k: Exit, g: Gauge, m: Move): int {
    match m
    case Trade(f) => if k == Traded then Share(g, f.makerId, f.quantity) + Share(g, f.takerId, f.quantity) else 0
    case Void(id, qty, _, _) => if k == Voided then Share(g, id, qty) else 0
    case Shrink(id, qty) => if k == Shrunk then Share(g, id, qty) else 0
    case Drop(id, qty) => if k == Dropped then Share(g, id, qty) else 0
    case Stray(id, qty) => if k == Strayed then Share(g, id, qty) else 0
    case _ => 0
  }

  function Out(g: Gauge, m: Move): int {
    match m
    case Trade(f) => Share(g, f.makerId, f.quantity) + Share(g, f.takerId, f.quantity)
    case Void(id, qty, _, _) => Share(g, id, qty)
    case Shrink(id, qty) => Share(g, id, qty)
    case Drop(id, qty) => Share(g, id, qty)
    case Stray(id, qty) => Share(g, id, qty)
    case _ => 0
  }

  function Gone(g: Gauge, moves: seq<Move>): int {
    if moves == [] then 0 else Gone(g, moves[..|moves| - 1]) + Out(g, moves[|moves| - 1])
  }

  function GoneBy(k: Exit, g: Gauge, moves: seq<Move>): int {
    if moves == [] then 0 else GoneBy(k, g, moves[..|moves| - 1]) + OutBy(k, g, moves[|moves| - 1])
  }

  lemma {:induction false} GoneIsAll(g: Gauge, moves: seq<Move>)
    ensures Gone(g, moves) ==
            GoneBy(Traded, g, moves) + GoneBy(Voided, g, moves) + GoneBy(Shrunk, g, moves) +
            GoneBy(Dropped, g, moves) + GoneBy(Strayed, g, moves)
  {
    if moves != [] { GoneIsAll(g, moves[..|moves| - 1]); }
  }

  lemma {:induction false} GoneConcat(g: Gauge, a: seq<Move>, b: seq<Move>)
    ensures Gone(g, a + b) == Gone(g, a) + Gone(g, b)
  {
    if b == [] {
      assert a + b == a;
    } else {
      assert (a + b)[..|a + b| - 1] == a + b[..|b| - 1];
      GoneConcat(g, a, b[..|b| - 1]);
    }
  }

  lemma GoneOne(g: Gauge, m: Move)
    ensures Gone(g, [m]) == Out(g, m)
  {
    assert [m][..0] == [];
    assert Gone(g, []) == 0;
  }

  lemma GonePush(g: Gauge, a: seq<Move>, m: Move)
    ensures Gone(g, a + [m]) == Gone(g, a) + Out(g, m)
  {
    assert (a + [m])[..|a|] == a;
  }

  lemma GonePush2(g: Gauge, a: seq<Move>, m: Move, n: Move)
    ensures Gone(g, a + [m, n]) == Gone(g, a) + Out(g, m) + Out(g, n)
  {
    assert a + [m, n] == (a + [m]) + [n];
    GonePush(g, a, m);
    GonePush(g, a + [m], n);
  }

  lemma GoneByPush(k: Exit, g: Gauge, a: seq<Move>, m: Move)
    ensures GoneBy(k, g, a + [m]) == GoneBy(k, g, a) + OutBy(k, g, m)
  {
    assert (a + [m])[..|a|] == a;
  }

  lemma {:induction false} GoneByConcat(k: Exit, g: Gauge, a: seq<Move>, b: seq<Move>)
    ensures GoneBy(k, g, a + b) == GoneBy(k, g, a) + GoneBy(k, g, b)
  {
    if b == [] {
      assert a + b == a;
    } else {
      assert (a + b)[..|a + b| - 1] == a + b[..|b| - 1];
      GoneByConcat(k, g, a, b[..|b| - 1]);
    }
  }

  predicate Measures(g: Gauge) {
    g.Amount? || g.Depth?
  }

  // ---- Elementary changes --------------------------------------------------------

  lemma WithdrawConserves(g: Gauge, b: Book, id: Id, reason: CancelReason)
    requires Measures(g)
    ensures var (c, moves) := Withdraw(b, id, reason);
      Total(g, c) + Gone(g, moves) == Total(g, b)
  {
    var (c, moves) := Withdraw(b, id, reason);
    if moves != [] { GoneOne(g, moves[0]); }
    if Has(b.buyStops, id) {
      SumSwapOut(g, b.buyStops, Find(b.buyStops, id));
    } else if Has(b.sellStops, id) {
      SumSwapOut(g, b.sellStops, Find(b.sellStops, id));
    } else if Has(b.bids, id) {
      SumRemoveAt(g, b.bids, Find(b.bids, id));
    } else if Has(b.asks, id) {
      SumRemoveAt(g, b.asks, Find(b.asks, id));
    }
  }

  lemma CancelLinkedConserves(g: Gauge, b: Book, id: Id)
    requires Measures(g)
    ensures var (c, moves) := CancelLinked(b, id);
      Total(g, c) + Gone(g, moves) == Total(g, b)
  {
    if id in b.links {
      WithdrawConserves(g, b.(links := b.links - {id, b.links[id]}), b.links[id], OcoCancel);
    }
  }

  lemma CancelConserves(g: Gauge, b: Book, id: Id)
    requires Measures(g)
    ensures var (c, moves) := CancelOrder(b, id);
      Total(g, c) + Gone(g, moves) == Total(g, b)
  {
    if id in b.links {
      var b0 := b.(links := b.links - {id, b.links[id]});
      var (b1, m1) := Withdraw(b0, id, AdminCancel);
      var (b2, m2) := Withdraw(b1, b.links[id], OcoCancel);
      WithdrawConserves(g, b0, id, AdminCancel);
      WithdrawConserves(g, b1, b.links[id], OcoCancel);
      GoneConcat(g, m1, m2);
    } else {
      WithdrawConserves(g, b, id, AdminCancel);
    }
  }

  lemma SideTotal(g: Gauge, b: Book, side: Side, t: seq<Order>)
    ensures Total(g, b.WithResting(side, t)) == Total(g, b) - Sum(g, b.Resting(side)) + Sum(g, t)
  {
  }

  // ---- Runs ----------------------------------------------------------------------

  /** On the book, in the taker's hand, and already gone. */
  function Stock(g: Gauge, r: Run): int {
    Total(g, r.book) + Weigh(g, r.taker) + Gone(g, r.moves)
  }

  /** The maker at the front is used up and its OCO partner goes. */
  lemma PopConserves(g: Gauge, b: Book, side: Side, moves: seq<Move>)
    requires Measures(g) && b.Resting(side) != []
    ensures var maker := b.Resting(side)[0];
      var (c, cancels) := CancelLinked(b.WithResting(side, b.Resting(side)[1..]), maker.id);
      Total(g, c) + Gone(g, moves + cancels) == Total(g, b) - Weigh(g, maker) + Gone(g, moves)
  {
    assert b.Resting(side) == [b.Resting(side)[0]] + b.Resting(side)[1..];
    SumFront(g, b.Resting(side)[1..], b.Resting(side)[0]);
    hide Sum, Gone;
    var maker, rest := b.Resting(side)[0], b.Resting(side)[1..];
    var popped := b.WithResting(side, rest);
    SideTotal(g, b, side, rest);
    CancelLinkedConserves(g, popped, maker.id);
    GoneConcat(g, moves, CancelLinked(popped, maker.id).1);
  }

  /** A fill takes its quantity from the maker at the front and from the taker. */
  lemma TradeStepConserves(g: Gauge, r: Run)
    requires Measures(g) && r.Active()
    ensures Stock(g, TradeStep(r)) == Stock(g, r)
  {
    hide Sum, Gone;
    var side, maker, rest := r.taker.side.Opposite(), r.Opposing()[0], r.Opposing()[1..];
    var qty := Min(r.taker.remaining, maker.Effective());
    var trade := Trade(Fill(r.taker.id, maker.id, maker.price.Or(0), qty, r.taker.side));
    var left := maker.(remaining := maker.remaining - qty);
    GonePush(g, r.moves, trade);
    if left.remaining == 0 {
      PopConserves(g, r.book, side, r.moves + [trade]);
    } else {
      SideTotal(g, r.book, side, TradeStep(r).book.Resting(side));
      assert r.Opposing() == [maker] + rest;
      SumFront(g, rest, maker);
      if maker.displayQty.Some? && qty == maker.Effective() {
        SumInsert(g, ShelfOf(side), rest, left);
      } else {
        SumFront(g, rest, left);
      }
    }
  }

  lemma DecrementConserves(g: Gauge, r: Run)
    requires Measures(g) && r.Active()
    ensures Stock(g, DecrementBoth(r)) == Stock(g, r)
  {
    assert r.Opposing() == [r.Opposing()[0]] + r.Opposing()[1..];
    SumFront(g, r.Opposing()[1..], r.Opposing()[0]);
    hide Sum, Gone;
    var side, maker, rest := r.taker.side.Opposite(), r.Opposing()[0], r.Opposing()[1..];
    var voidTaker := Void(r.taker.id, r.taker.remaining, SelfTradePrevented, Incoming);
    var voidMaker := Void(maker.id, maker.remaining, SelfTradePrevented, Booked);
    if r.taker.remaining < maker.remaining {
      var left := maker.(remaining := maker.remaining - r.taker.remaining);
      SumFront(g, rest, left);
      SideTotal(g, r.book, side, [left] + rest);
      GonePush2(g, r.moves, voidTaker, Shrink(maker.id, r.taker.remaining));
    } else {
      SideTotal(g, r.book, side, rest);
      if r.taker.remaining > maker.remaining {
        GonePush2(g, r.moves, voidMaker, Shrink(r.taker.id, maker.remaining));
      } else {
        GonePush2(g, r.moves, voidMaker, voidTaker);
      }
    }
  }

  lemma SelfTradeConserves(g: Gauge, r: Run)
    requires Measures(g) && r.Active()
    ensures Stock(g, PreventSelfTrade(r)) == Stock(g, r)
  {
    match r.taker.stpMode
    case Decrement =>
      DecrementConserves(g, r);
    case CancelMaker =>
      var side, maker := r.taker.side.Opposite(), r.Opposing()[0];
      SideTotal(g, r.book, side, r.Opposing()[1..]);
      GonePush(g, r.moves, Void(maker.id, maker.remaining, SelfTradePrevented, Booked));
    case CancelTaker =>
      GonePush(g, r.moves, Void(r.taker.id, r.taker.remaining, SelfTradePrevented, Incoming));
  }

  lemma {:induction false} LoopConserves(g: Gauge, r: Run, queue: seq<Order>)
    requires Measures(g) && Live(r, queue)
    ensures Stock(g, Loop(r, queue)) == Stock(g, r)
    decreases r.taker.remaining, |r.Opposing()|
  {
    if r.Active() {
      if r.Opposing()[0].user == r.taker.user { SelfTradeConserves(g, r); } else { TradeStepConserves(g, r); }
      StepKeeps(r, queue);
      StepShrinks(r);
      LoopConserves(g, Step(r), queue);
    }
  }

  lemma TerminateConserves(g: Gauge, r: Run, reason: CancelReason)
    requires Measures(g)
    ensures var q := Terminate(r, [Void(r.taker.id, r.taker.remaining, reason, Incoming)]);
      Total(g, q.book) + Gone(g, q.moves) == Stock(g, r)
  {
    var void := Void(r.taker.id, r.taker.remaining, reason, Incoming);
    CancelLinkedConserves(g, r.book, r.taker.id);
    GonePush(g, r.moves, void);
    GoneConcat(g, r.moves + [void], CancelLinked(r.book, r.taker.id).1);
  }

  lemma FilledConserves(g: Gauge, r: Run)
    requires Measures(g) && r.taker.remaining == 0
    ensures var q := Terminate(r, []);
      Total(g, q.book) + Gone(g, q.moves) == Stock(g, r)
  {
    CancelLinkedConserves(g, r.book, r.taker.id);
    GoneConcat(g, r.moves, CancelLinked(r.book, r.taker.id).1);
    assert r.moves + [] == r.moves;
  }

  lemma SettleConserves(g: Gauge, r: Run)
    requires Measures(g)
    ensures Total(g, Settle(r).book) + Gone(g, Settle(r).moves) == Stock(g, r)
  {
    hide Sum, Gone;
    var rested := Rest(r.taker.id, r.taker.remaining);
    if r.taker.price.None? {
      GonePush2(g, r.moves, rested, Stray(r.taker.id, r.taker.remaining));
    } else {
      GonePush(g, r.moves, rested);
      SumInsert(g, ShelfOf(r.taker.side), r.book.Resting(r.taker.side), r.taker);
      SideTotal(g, r.book, r.taker.side, Settle(r).book.Resting(r.taker.side));
    }
  }

  /** The order at hand is gone entirely when its run is finished. */
  lemma FinishConserves(g: Gauge, r: Run)
    requires Measures(g) && (r.dead ==> r.taker.remaining == 0)
    ensures Total(g, Finish(r).book) + Gone(g, Finish(r).moves) == Stock(g, r)
  {
    if r.dead {
    } else if r.taker.remaining == 0 {
      FilledConserves(g, r);
    } else {
      match Disposal(r.taker.kind, r.last.Some?)
      case Some(reason) => TerminateConserves(g, r, reason);
      case None => SettleConserves(g, r);
    }
  }

  /** A dead taker has nothing left. */
  lemma {:induction false} DeadIsSpent(r: Run, queue: seq<Order>)
    requires Live(r, queue) && (r.dead ==> r.taker.remaining == 0)
    ensures var q := Loop(r, queue); q.dead ==> q.taker.remaining == 0
    decreases r.taker.remaining, |r.Opposing()|
  {
    if r.Active() {
      StepKeeps(r, queue);
      StepShrinks(r);
      DeadIsSpent(Step(r), queue);
    }
  }

  function Supply(g: Gauge, w: Work): int {
    Total(g, w.book) + Sum(g, w.queue) + Gone(g, w.moves)
  }

  lemma RunOneConserves(g: Gauge, w: Work)
    requires Measures(g) && WorkOk(w) && w.queue != []
    ensures var r := RunOne(w);
      Total(g, r.book) + Sum(g, w.queue[..|w.queue| - 1]) + Gone(g, r.moves) == Supply(g, w)
  {
    var others, taker := w.queue[..|w.queue| - 1], w.queue[|w.queue| - 1];
    var r0 := Run(w.book, taker, w.moves, None, false);
    assert w.queue == others + [taker];
    SumConcat(g, others, [taker]);
    SumOne(g, taker);
    PopQueue(w.book, w.queue);
    assert taker in w.queue;
    LoopConserves(g, r0, others);
    DeadIsSpent(r0, others);
    FinishConserves(g, Loop(r0, others));
  }

  lemma {:induction false} TriggeredGone(g: Gauge, s: seq<Order>)
    ensures Gone(g, Triggered(s)) == 0
  {
    if s != [] {
      TriggeredGone(g, s[..|s| - 1]);
      GonePush(g, Triggered(s[..|s| - 1]), Trigger(s[|s| - 1].id));
    }
  }

  lemma {:induction false} DroppedGone(g: Gauge, s: seq<Order>)
    requires Measures(g)
    ensures Gone(g, Cascade.Dropped(s)) == Sum(g, s)
  {
    if s != [] {
      var last := s[|s| - 1];
      DroppedGone(g, s[..|s| - 1]);
      GonePush(g, Cascade.Dropped(s[..|s| - 1]), Drop(last.id, last.remaining));
      assert s == s[..|s| - 1] + [last];
      SumConcat(g, s[..|s| - 1], [last]);
      SumOne(g, last);
    }
  }

  /** Due stops leave the registry for the queue or for good. */
  lemma CheckStopsConserves(g: Gauge, b: Book, price: int, others: seq<Order>, moves: seq<Move>, depth: nat)
    requires Measures(g)
    ensures Supply(g, CheckStops(b, price, others, moves, depth)) == Total(g, b) + Sum(g, others) + Gone(g, moves)
  {
    hide Sum, Gone;
    var due := Due(b, price);
    StopsMove(g, b, price);
    if depth < MAX_STOP_CHAIN_DEPTH {
      var end := RunEnd(Some(price), |due|);
      SumConcat(g, others, due);
      TriggeredGone(g, due);
      GonePush(g, moves, end);
      GoneConcat(g, moves + [end], Triggered(due));
    } else {
      var end := RunEnd(Some(price), 0);
      DroppedGone(g, due);
      GonePush(g, moves, end);
      GoneConcat(g, moves + [end], Cascade.Dropped(due));
    }
  }

  lemma TurnConserves(g: Gauge, w: Work)
    requires Measures(g) && WorkOk(w) && w.queue != []
    ensures Supply(g, Turn(w)) == Supply(g, w)
  {
    hide Sum, Gone;
    var others, r := w.queue[..|w.queue| - 1], RunOne(w);
    RunOneConserves(g, w);
    match r.last
    case None => GonePush(g, r.moves, RunEnd(None, 0));
    case Some(price) => CheckStopsConserves(g, r.book, price, others, r.moves, w.depth);
  }

  lemma {:induction false} RunAllConserves(g: Gauge, w: Work)
    requires Measures(g) && WorkOk(w)
    ensures Supply(g, RunAll(w)) == Supply(g, w)
    decreases |w.queue| + w.book.WaitingCount()
  {
    if w.queue != [] {
      TurnConserves(g, w);
      RunAllConserves(g, Turn(w));
    }
  }

  lemma ParkConserves(g: Gauge, b: Book, o: Order)
    requires Measures(g)
    ensures var (c, moves) := Park(b, o);
      Total(g, c) + Gone(g, moves) == Total(g, b) + Weigh(g, o)
  {
    hide Sum;
    if o.stopPrice.None? {
      GoneOne(g, Void(o.id, o.remaining, AdminCancel, Incoming));
    } else {
      GoneOne(g, Rest(o.id, o.remaining));
      SumInsert(g, StopShelf, b.Stops(o.side), o);
    }
  }

  /** What an order brings in, the book it leaves and what is gone account for each other. */
  lemma SubmitConserves(g: Gauge, b: Book, o: Order)
    requires Measures(g) && Valid(b) && Fresh(b, o)
    ensures var (c, moves) := Submit(b, o);
      Total(g, c) + Gone(g, moves) == Total(g, b) + Weigh(g, o)
  {
    if Refusal(b, o).Some? {
      GoneOne(g, Void(o.id, o.remaining, Refusal(b, o).value, Incoming));
    } else if o.kind.IsStop() {
      ParkConserves(g, b, o);
    } else {
      RunAllConserves(g, Start(b, o));
      SumOne(g, o);
    }
  }

  // ---- Every move carries a positive quantity ------------------------------------

  predicate Sound(m: Move) {
    match m
    case Trade(f) => 0 < f.quantity
    case Rest(_, qty) => 0 < qty
    case Void(_, qty, _, _) => 0 < qty
    case Shrink(_, qty) => 0 < qty
    case Drop(_, qty) => 0 < qty
    case Stray(_, qty) => 0 < qty
    case _ => true
  }

  predicate AllSound(moves: seq<Move>) {
    forall m :: m in moves ==> Sound(m)
  }

  lemma WithdrawSound(b: Book, id: Id, reason: CancelReason)
    requires Shaped(b)
    ensures AllSound(Withdraw(b, id, reason).1)
  {
    if Has(b.buyStops, id) {
      assert b.buyStops[Find(b.buyStops, id)] in b.buyStops;
    } else if Has(b.sellStops, id) {
      assert b.sellStops[Find(b.sellStops, id)] in b.sellStops;
    } else if Has(b.bids, id) {
      assert b.bids[Find(b.bids, id)] in b.bids;
    } else if Has(b.asks, id) {
      assert b.asks[Find(b.asks, id)] in b.asks;
    }
  }

  lemma CancelLinkedSound(b: Book, id: Id)
    requires Shaped(b)
    ensures AllSound(CancelLinked(b, id).1)
  {
    if id in b.links {
      WithdrawSound(b.(links := b.links - {id, b.links[id]}), b.links[id], OcoCancel);
    }
  }

  lemma CancelSound(b: Book, id: Id)
    requires Shaped(b)
    ensures AllSound(CancelOrder(b, id).1)
  {
    if id in b.links {
      var b0 := b.(links := b.links - {id, b.links[id]});
      WithdrawSound(b0, id, AdminCancel);
      WithdrawWithin(b0, id, AdminCancel);
      WithinShaped(Withdraw(b0, id, AdminCancel).0, b0);
      WithdrawSound(Withdraw(b0, id, AdminCancel).0, b.links[id], OcoCancel);
    } else {
      WithdrawSound(b, id, AdminCancel);
    }
  }

  lemma StepSound(r: Run, queue: seq<Order>)
    requires Live(r, queue) && r.Active() && AllSound(r.moves)
    ensures AllSound(Step(r).moves)
  {
    hide Sum, Sorted, Insert, Withdraw, CancelLinked;
    var side, s := r.taker.side.Opposite(), r.Opposing();
    assert s[0] in s && RestsOk(side, s[0]);
    PopFront(r.book, side, [r.taker] + queue);
    CancelLinkedSound(r.book.WithResting(side, s[1..]), s[0].id);
  }

  lemma {:induction false} LoopSound(r: Run, queue: seq<Order>)
    requires Live(r, queue) && AllSound(r.moves)
    ensures AllSound(Loop(r, queue).moves)
    decreases r.taker.remaining, |r.Opposing()|
  {
    if r.Active() {
      StepSound(r, queue);
      StepKeeps(r, queue);
      StepShrinks(r);
      LoopSound(Step(r), queue);
    }
  }

  lemma FinishSound(r: Run, queue: seq<Order>)
    requires Live(r, queue) && AllSound(r.moves)
    ensures AllSound(Finish(r).moves)
  {
    hide Sum, Sorted, Insert, Withdraw, CancelLinked;
    CancelLinkedSound(r.book, r.taker.id);
  }

  lemma {:induction false} MarkersSound(s: seq<Order>)
    requires forall o :: o in s ==> Restless(o)
    ensures AllSound(Triggered(s)) && AllSound(Cascade.Dropped(s))
  {
    if s != [] {
      assert s[|s| - 1] in s;
      MarkersSound(s[..|s| - 1]);
    }
  }

  lemma TurnSound(w: Work)
    requires WorkOk(w) && w.queue != [] && AllSound(w.moves)
    ensures AllSound(Turn(w).moves)
  {
    hide Sum;
    var others, taker := w.queue[..|w.queue| - 1], w.queue[|w.queue| - 1];
    PopQueue(w.book, w.queue);
    assert taker in w.queue;
    var r0 := Run(w.book, taker, w.moves, None, false);
    LoopSound(r0, others);
    FinishSound(Loop(r0, others), others);
    if RunOne(w).last.Some? {
      var price := RunOne(w).last.value;
      DueOk(RunOne(w).book, price);
      MarkersSound(Due(RunOne(w).book, price));
    }
  }

  lemma {:induction false} RunAllSound(w: Work)
    requires WorkOk(w) && AllSound(w.moves)
    ensures AllSound(RunAll(w).moves)
    decreases |w.queue| + w.book.WaitingCount()
  {
    if w.queue != [] {
      TurnSound(w);
      RunAllSound(Turn(w));
    }
  }

  lemma SubmitSound(b: Book, o: Order)
    requires Valid(b) && Fresh(b, o)
    ensures AllSound(Submit(b, o).1)
  {
    if Refusal(b, o).None? && !o.kind.IsStop() { RunAllSound(Start(b, o)); }
  }

  lemma {:induction false} GoneNonNegative(k: Exit, g: Gauge, moves: seq<Move>)
    requires AllSound(moves)
    ensures GoneBy(k, g, moves) >= 0
  {
    if moves != [] {
      assert moves[|moves| - 1] in moves && Sound(moves[|moves| - 1]);
      GoneNonNegative(k, g, moves[..|moves| - 1]);
    }
  }
}
