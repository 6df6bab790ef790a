/** A cancellation is the last that happens to an order: once it is announced, nothing under
  that id is traded, cancelled or taken any more, within the call and after it. */
module Voids {
  import opened Orders
  import opened Ladder
  import opened Matcher
  import opened BookInvariants
  import opened Cascade
  import opened Conservation
  import opened Histories
  import opened OpenOrders
  import FillOrKill

  ghost predicate Cancels(x: Id, moves: seq<Move>) {
    exists m :: m in moves && m.Void? && m.voidId == x
  }

  /** What happens to an order after a cancellation of it. */
  ghost function Late(x: Id, moves: seq<Move>): int {
    if moves == [] then 0
    else
      var front := moves[..|moves| - 1];
      Late(x, front) + if Cancels(x, front) then Out(Amount(x), moves[|moves| - 1]) else 0
  }

  /** Nothing happens late, and a cancelled order leaves nothing. */
  ghost predicate Final(x: Id, moves: seq<Move>, left: int) {
    Late(x, moves) == 0 && (Cancels(x, moves) ==> left == 0)
  }

  lemma CancelsConcat(x: Id, a: seq<Move>, b: seq<Move>)
    ensures Cancels(x, a + b) <==> Cancels(x, a) || Cancels(x, b)
  {
    assert forall m :: m in a + b <==> m in a || m in b;
  }

  lemma {:induction false} LateConcat(x: Id, a: seq<Move>, b: seq<Move>)
    ensures Late(x, a + b) == Late(x, a) + if Cancels(x, a) then Gone(Amount(x), b) else Late(x, b)
  {
    hide Cancels, Out;
    if b == [] {
      assert a + b == a;
    } else {
      assert (a + b)[..|a + b| - 1] == a + b[..|b| - 1];
      LateConcat(x, a, b[..|b| - 1]);
      CancelsConcat(x, a, b[..|b| - 1]);
    }
  }

  lemma {:induction false} QuietIsFinal(x: Id, moves: seq<Move>, left: int)
    requires !Cancels(x, moves)
    ensures Final(x, moves, left)
  {
    if moves != [] {
      var front := moves[..|moves| - 1];
      assert forall m :: m in front ==> m in moves;
      QuietIsFinal(x, front, left);
    }
  }

  lemma LastIsFinal(x: Id, front: seq<Move>, m: Move, left: int)
    requires !Cancels(x, front) && (m.Void? && m.voidId == x ==> left == 0)
    ensures Final(x, front + [m], left)
  {
    assert (front + [m])[..|front|] == front;
    QuietIsFinal(x, front, left);
    CancelsConcat(x, front, [m]);
  }

  lemma OneIsFinal(x: Id, m: Move, left: int)
    requires m.Void? && m.voidId == x ==> left == 0
    ensures Final(x, [m], left)
  {
    LastIsFinal(x, [], m, left);
    assert [] + [m] == [m];
  }

  /** What leaves nothing to happen late can be continued. */
  lemma FinalExtends(x: Id, earlier: seq<Move>, more: seq<Move>, before: int, after: int)
    requires Final(x, earlier, before) && Final(x, more, after)
    requires AllSound(more) && 0 <= after && before == after + Gone(Amount(x), more)
    ensures Final(x, earlier + more, after)
  {
    hide Gone;
    LateConcat(x, earlier, more);
    CancelsConcat(x, earlier, more);
    GoneIsPositive(Amount(x), more);
  }

  // ---- A step --------------------------------------------------------------------

  /** Under `x`: on the book, in hand and in the queue. */
  function Held(r: Run, queue: seq<Order>, x: Id): int {
    Total(Amount(x), r.book) + Weigh(Amount(x), r.taker) + Sum(Amount(x), queue)
  }

  ghost predicate Waiting(queue: seq<Order>) {
    forall o :: o in queue ==> 0 < o.remaining
  }

  lemma HeldNonNegative(r: Run, queue: seq<Order>, x: Id)
    requires Live(r, queue) && Waiting(queue)
    ensures 0 <= Held(r, queue, x)
  {
    PresentIffAmount(r.book, x);
    SomeIsSomething(queue, x);
  }

  /** Beside an order in flight there is nothing under its id. */
  lemma Alone(b: Book, o: Order, queue: seq<Order>)
    requires Distinct(b, [o] + queue)
    ensures Total(Amount(o.id), b) == 0 && Sum(Amount(o.id), queue) == 0
  {
    var x := o.id;
    assert Total(Count(x), b) + Sum(Count(x), [o] + queue) <= 1;
    SumFront(Count(x), queue, o);
    Counts(b, x);
    CountIsPresence(queue, x);
    AbsentAmount(b, x);
    NoneIsNothing(queue, x);
  }

  lemma Counts(b: Book, x: Id)
    ensures 0 <= Total(Count(x), b)
  {
    CountIsPresence(b.bids, x);
    CountIsPresence(b.asks, x);
    CountIsPresence(b.buyStops, x);
    CountIsPresence(b.sellStops, x);
  }

  /** Once the front order is taken off its side there is nothing under its id. */
  lemma FrontAlone(b: Book, side: Side, flight: seq<Order>)
    requires Distinct(b, flight) && b.Resting(side) != []
    ensures var x := b.Resting(side)[0].id;
      && Total(Amount(x), b.WithResting(side, b.Resting(side)[1..])) == 0 && Sum(Amount(x), flight) == 0
  {
    var s := b.Resting(side);
    var x, c := s[0].id, b.WithResting(side, s[1..]);
    assert s == [s[0]] + s[1..];
    SumFront(Count(x), s[1..], s[0]);
    SideTotal(Count(x), b, side, s[1..]);
    assert Total(Count(x), b) + Sum(Count(x), flight) <= 1;
    Counts(c, x);
    CountIsPresence(flight, x);
    AbsentAmount(c, x);
    NoneIsNothing(flight, x);
  }

  lemma WithdrawFinal(b: Book, id: Id, reason: CancelReason, flight: seq<Order>, x: Id)
    requires Distinct(b, flight)
    ensures Final(x, Withdraw(b, id, reason).1, Total(Amount(x), Withdraw(b, id, reason).0) + Sum(Amount(x), flight))
  {
    var (c, moves) := Withdraw(b, id, reason);
    WithdrawShape(b, id, reason);
    assert Total(Count(x), b) + Sum(Count(x), flight) <= 1;
    CountIsPresence(flight, x);
    var left := Total(Amount(x), c) + Sum(Amount(x), flight);
    if moves != [] && id == x {
      WithdrawnIsGone(b, x, reason);
      NoneIsNothing(flight, x);
      OneIsFinal(x, moves[0], left);
    } else {
      hide Withdraw;
      QuietIsFinal(x, moves, left);
    }
  }

  lemma CancelLinkedFinal(b: Book, id: Id, flight: seq<Order>, x: Id)
    requires Distinct(b, flight)
    ensures Final(x, CancelLinked(b, id).1, Total(Amount(x), CancelLinked(b, id).0) + Sum(Amount(x), flight))
  {
    hide Sum, Withdraw, Final;
    if id in b.links {
      var b0 := b.(links := b.links - {id, b.links[id]});
      forall y ensures Total(Count(y), b0) + Sum(Count(y), flight) <= 1 {
        assert Total(Count(y), b) + Sum(Count(y), flight) <= 1;
      }
      WithdrawFinal(b0, b.links[id], OcoCancel, flight, x);
    } else {
      QuietIsFinal(x, [], Total(Amount(x), b) + Sum(Amount(x), flight));
    }
  }

  /** A step's new moves. */
  function New(r: Run): seq<Move>
    requires r.Active()
  {
    Step(r.(moves := [])).moves
  }

  lemma StepAppends(r: Run)
    requires r.Active()
    ensures Step(r).moves == r.moves + New(r) && Step(r.(moves := [])) == Step(r).(moves := New(r))
  {
    hide CancelLinked, Insert;
    var maker := r.Opposing()[0];
    if maker.user != r.taker.user {
      var trade := Trade(Fill(r.taker.id, maker.id, maker.price.Or(0), Min(r.taker.remaining, maker.Effective()), r.taker.side));
      var popped := r.book.WithResting(r.taker.side.Opposite(), r.Opposing()[1..]);
      var cancels := CancelLinked(popped, maker.id).1;
      assert [] + [trade] == [trade];
      assert r.moves + [trade] + cancels == r.moves + ([trade] + cancels);
    } else if r.taker.stpMode == Decrement {
      DecrementAppends(r);
    } else {
      assert forall m: Move :: [] + [m] == [m];
    }
  }

  lemma DecrementAppends(r: Run)
    requires r.Active()
    ensures var q := DecrementBoth(r.(moves := []));
      DecrementBoth(r).moves == r.moves + q.moves && q == DecrementBoth(r).(moves := q.moves)
  {
    assert forall m: Move, n: Move :: [] + [m, n] == [m, n];
  }

  /** The maker is used up: it leaves the book, and its OCO partner with it. */
  lemma PopFinal(b: Book, side: Side, taker: Order, left: Order, queue: seq<Order>, trade: Move, x: Id)
    requires Shaped(b) && Distinct(b, [taker] + queue) && b.Resting(side) != [] && left.id == taker.id && trade.Trade?
    ensures var (c, cancels) := CancelLinked(b.WithResting(side, b.Resting(side)[1..]), b.Resting(side)[0].id);
      Final(x, [trade] + cancels, Total(Amount(x), c) + Weigh(Amount(x), left) + Sum(Amount(x), queue))
  {
    hide Sum, Total, Shaped, Distinct, CancelLinked, Final;
    var popped, id := b.WithResting(side, b.Resting(side)[1..]), b.Resting(side)[0].id;
    PopFront(b, side, [taker] + queue);
    SameFlight(popped, taker, left, queue);
    CancelLinkedFinal(popped, id, [left] + queue, x);
    SumFront(Amount(x), queue, left);
    var (c, cancels) := CancelLinked(popped, id);
    AfterTrade(x, trade, cancels, Total(Amount(x), c) + Weigh(Amount(x), left) + Sum(Amount(x), queue));
  }

  lemma TradeFinal(r: Run, queue: seq<Order>, x: Id)
    requires Live(r, queue) && r.Active() && r.moves == []
    ensures Final(x, TradeStep(r).moves, Held(TradeStep(r), queue, x))
  {
    hide CancelLinked, Insert, Sum, Total, Shaped, Distinct, Final;
    var side, maker := r.taker.side.Opposite(), r.Opposing()[0];
    var q := TradeStep(r);
    var qty := Min(r.taker.remaining, maker.Effective());
    var trade := Trade(Fill(r.taker.id, maker.id, maker.price.Or(0), qty, r.taker.side));
    assert [] + [trade] == [trade];
    if maker.remaining == qty {
      PopFinal(r.book, side, r.taker, q.taker, queue, trade, x);
    } else {
      assert !Cancels(x, [trade]);
      QuietIsFinal(x, [trade], Held(q, queue, x));
    }
  }

  lemma AfterTrade(x: Id, trade: Move, cancels: seq<Move>, left: int)
    requires trade.Trade? && Final(x, cancels, left)
    ensures Final(x, [trade] + cancels, left)
  {
    assert !Cancels(x, [trade]);
    QuietIsFinal(x, [trade], left);
    LateConcat(x, [trade], cancels);
    CancelsConcat(x, [trade], cancels);
  }

  lemma DecrementFinal(r: Run, queue: seq<Order>, x: Id)
    requires Live(r, queue) && r.Active() && r.moves == []
    ensures Final(x, DecrementBoth(r).moves, Held(DecrementBoth(r), queue, x))
  {
    var side, maker := r.taker.side.Opposite(), r.Opposing()[0];
    var q := DecrementBoth(r);
    FillOrKill.MakerIsAnother(r, queue);
    Alone(r.book, r.taker, queue);
    FrontAlone(r.book, side, [r.taker] + queue);
    SumFront(Amount(x), queue, r.taker);
    if x == r.taker.id { Alone(q.book, q.taker, queue) by { DecrementKeeps(r, queue); } }
    assert q.moves == [q.moves[0]] + [q.moves[1]];
    hide Sum, Total, Shaped;
    TwoFinal(x, q.moves[0], q.moves[1], Held(q, queue, x));
  }

  lemma TwoFinal(x: Id, m: Move, n: Move, left: int)
    requires m.Void? && m.voidId == x ==> left == 0 && Out(Amount(x), n) == 0
    requires n.Void? && n.voidId == x ==> left == 0
    ensures Final(x, [m] + [n], left)
  {
    OneIsFinal(x, m, left);
    OneIsFinal(x, n, left);
    LateConcat(x, [m], [n]);
    CancelsConcat(x, [m], [n]);
    GoneOne(Amount(x), n);
  }

  lemma SelfTradeFinal(r: Run, queue: seq<Order>, x: Id)
    requires Live(r, queue) && r.Active() && r.moves == []
    ensures Final(x, PreventSelfTrade(r).moves, Held(PreventSelfTrade(r), queue, x))
  {
    var side, maker := r.taker.side.Opposite(), r.Opposing()[0];
    var q := PreventSelfTrade(r);
    match r.taker.stpMode
    case Decrement =>
      DecrementFinal(r, queue, x);
    case CancelMaker =>
      FillOrKill.MakerIsAnother(r, queue);
      FrontAlone(r.book, side, [r.taker] + queue);
      SumFront(Amount(maker.id), queue, r.taker);
      assert q.moves == [q.moves[0]];
      OneIsFinal(x, q.moves[0], Held(q, queue, x));
    case CancelTaker =>
      Alone(r.book, r.taker, queue);
      assert q.moves == [q.moves[0]];
      OneIsFinal(x, q.moves[0], Held(q, queue, x));
  }

  lemma StepFinal(r: Run, queue: seq<Order>, x: Id)
    requires Live(r, queue) && r.Active()
    ensures Final(x, New(r), Held(Step(r), queue, x))
  {
    var bare := r.(moves := []);
    StepAppends(r);
    if r.Opposing()[0].user == r.taker.user { SelfTradeFinal(bare, queue, x); } else { TradeFinal(bare, queue, x); }
    hide PreventSelfTrade, TradeStep, Final;
  }

  lemma StepHolds(r: Run, queue: seq<Order>, x: Id)
    requires Live(r, queue) && r.Active()
    ensures Held(r, queue, x) == Held(Step(r), queue, x) + Gone(Amount(x), New(r))
  {
    var g := Amount(x);
    if r.Opposing()[0].user == r.taker.user { SelfTradeConserves(g, r); } else { TradeStepConserves(g, r); }
    StepAppends(r);
    GoneConcat(g, r.moves, New(r));
    hide Total, Sum, PreventSelfTrade, TradeStep, New;
  }

  lemma NewSound(r: Run, queue: seq<Order>)
    requires Live(r, queue) && r.Active()
    ensures AllSound(New(r))
  {
    StepSound(r.(moves := []), queue);
  }

  ghost predicate RunFinal(r: Run, queue: seq<Order>, x: Id) {
    Final(x, r.moves, Held(r, queue, x))
  }

  lemma {:induction false} LoopFinal(r: Run, queue: seq<Order>, x: Id)
    requires Live(r, queue) && Waiting(queue) && RunFinal(r, queue, x)
    ensures RunFinal(Loop(r, queue), queue, x)
    decreases r.taker.remaining, |r.Opposing()|
  {
    if r.Active() {
      StepKeeps(r, queue);
      StepShrinks(r);
      StepFinal(r, queue, x);
      StepHolds(r, queue, x);
      NewSound(r, queue);
      StepAppends(r);
      HeldNonNegative(Step(r), queue, x);
      hide Step, New, Final, Held, Shaped, Distinct;
      FinalExtends(x, r.moves, New(r), Held(r, queue, x), Held(Step(r), queue, x));
      LoopFinal(Step(r), queue, x);
    }
  }

  // ---- The end of a run ----------------------------------------------------------

  lemma ClearQueue(b: Book, o: Order, queue: seq<Order>)
    requires Distinct(b, [o] + queue)
    ensures Distinct(b, queue)
  {
    Landed(b, o, queue);
  }

  /** What a finished run holds under `x`: its taker is used up. */
  function HeldAtEnd(b: Book, queue: seq<Order>, x: Id): int {
    Total(Amount(x), b) + Sum(Amount(x), queue)
  }

  lemma LinkedHolds(b: Book, id: Id, queue: seq<Order>, x: Id)
    requires Shaped(b) && Distinct(b, queue) && Waiting(queue)
    ensures var (c, cancels) := CancelLinked(b, id);
      && AllSound(cancels) && 0 <= HeldAtEnd(c, queue, x)
      && HeldAtEnd(b, queue, x) == HeldAtEnd(c, queue, x) + Gone(Amount(x), cancels)
      && Final(x, cancels, HeldAtEnd(c, queue, x))
  {
    hide CancelLinked, Sum, Shaped, Final, Withdraw, Distinct;
    CancelLinkedSound(b, id);
    CancelLinkedConserves(Amount(x), b, id);
    CancelLinkedFinal(b, id, queue, x);
    CancelLinkedWithin(b, id);
    WithinShaped(CancelLinked(b, id).0, b);
    PresentIffAmount(CancelLinked(b, id).0, x);
    SomeIsSomething(queue, x);
    hide Total;
  }

  lemma TerminateFinal(r: Run, void: Move, queue: seq<Order>, x: Id)
    requires Live(r, queue) && Waiting(queue) && RunFinal(r, queue, x) && 0 < r.taker.remaining
    requires void.Void? && void.voidId == r.taker.id && void.voidQty == r.taker.remaining
    ensures Final(x, Terminate(r, [void]).moves, HeldAtEnd(Terminate(r, [void]).book, queue, x))
  {
    hide Withdraw;
    var (c, cancels) := CancelLinked(r.book, r.taker.id);
    ClearQueue(r.book, r.taker, queue);
    LinkedHolds(r.book, r.taker.id, queue, x);
    Alone(r.book, r.taker, queue);
    hide CancelLinked, Distinct, Total, Sum, Final, Gone;
    var mid := HeldAtEnd(r.book, queue, x);
    OneIsFinal(x, void, mid);
    GoneOne(Amount(x), void);
    SomeHeld(r, queue, x);
    FinalExtends(x, r.moves, [void], Held(r, queue, x), mid);
    FinalExtends(x, r.moves + [void], cancels, mid, HeldAtEnd(c, queue, x));
  }

  lemma SomeHeld(r: Run, queue: seq<Order>, x: Id)
    requires Live(r, queue) && Waiting(queue)
    ensures 0 <= HeldAtEnd(r.book, queue, x)
  {
    PresentIffAmount(r.book, x);
    SomeIsSomething(queue, x);
  }

  lemma FilledFinal(r: Run, queue: seq<Order>, x: Id)
    requires Live(r, queue) && Waiting(queue) && RunFinal(r, queue, x) && r.taker.remaining == 0
    ensures Final(x, Terminate(r, []).moves, HeldAtEnd(Terminate(r, []).book, queue, x))
  {
    hide Withdraw;
    var (c, cancels) := CancelLinked(r.book, r.taker.id);
    ClearQueue(r.book, r.taker, queue);
    LinkedHolds(r.book, r.taker.id, queue, x);
    assert Held(r, queue, x) == HeldAtEnd(r.book, queue, x);
    hide CancelLinked, Distinct, Total, Sum, Final, Gone;
    FinalExtends(x, r.moves, cancels, Held(r, queue, x), HeldAtEnd(c, queue, x));
    assert r.moves + [] == r.moves;
  }

  lemma SettleFinal(r: Run, queue: seq<Order>, x: Id)
    requires RunFinal(r, queue, x) && Live(r, queue) && Waiting(queue) && 0 < r.taker.remaining
    requires Shaped(Settle(r).book)
    ensures Final(x, Settle(r).moves, HeldAtEnd(Settle(r).book, queue, x))
  {
    var rested, stray := Rest(r.taker.id, r.taker.remaining), Stray(r.taker.id, r.taker.remaining);
    var more := if r.taker.price.None? then [rested, stray] else [rested];
    hide Insert, Sum, Sorted;
    SettleConserves(Amount(x), r);
    GoneConcat(Amount(x), r.moves, more);
    PresentIffAmount(Settle(r).book, x);
    SomeIsSomething(queue, x);
    hide Total, Sum, Final, Gone, Insert, Shaped;
    QuietIsFinal(x, more, HeldAtEnd(Settle(r).book, queue, x));
    FinalExtends(x, r.moves, more, Held(r, queue, x), HeldAtEnd(Settle(r).book, queue, x));
  }

  lemma FinishFinal(r: Run, queue: seq<Order>, x: Id)
    requires Live(r, queue) && !r.Active() && Waiting(queue) && RunFinal(r, queue, x)
    requires r.dead ==> r.taker.remaining == 0
    ensures Final(x, Finish(r).moves, HeldAtEnd(Finish(r).book, queue, x))
  {
    FinishKeeps(r, queue);
    hide Terminate, Settle, Shaped, Distinct, Final, Sum, Total;
    if r.dead {
      assert Held(r, queue, x) == HeldAtEnd(r.book, queue, x);
    } else if r.taker.remaining == 0 {
      FilledFinal(r, queue, x);
    } else {
      match Disposal(r.taker.kind, r.last.Some?)
      case Some(reason) => TerminateFinal(r, Void(r.taker.id, r.taker.remaining, reason, Incoming), queue, x);
      case None => SettleFinal(r, queue, x);
    }
  }

  // ---- The cascade ---------------------------------------------------------------

  ghost predicate WorkFinal(w: Work, x: Id) {
    Final(x, w.moves, HeldAtEnd(w.book, w.queue, x))
  }

  lemma {:induction false} MarkersCancelNone(s: seq<Order>, x: Id)
    ensures !Cancels(x, Triggered(s)) && !Cancels(x, Cascade.Dropped(s))
  {
    if s != [] { MarkersCancelNone(s[..|s| - 1], x); }
  }

  lemma RunOneFinal(w: Work, x: Id)
    requires WorkOk(w) && w.queue != [] && WorkFinal(w, x)
    ensures var r, others := RunOne(w), w.queue[..|w.queue| - 1];
      Final(x, r.moves, HeldAtEnd(r.book, others, x))
  {
    var others, taker := w.queue[..|w.queue| - 1], w.queue[|w.queue| - 1];
    var r0 := Run(w.book, taker, w.moves, None, false);
    assert w.queue == others + [taker];
    SumConcat(Amount(x), others, [taker]);
    SumOne(Amount(x), taker);
    PopQueue(w.book, w.queue);
    assert taker in w.queue;
    assert forall o :: o in others ==> o in w.queue;
    hide Sum, Total, Final, Finish;
    LoopFinal(r0, others, x);
    DeadIsSpent(r0, others);
    hide Loop;
    FinishFinal(Loop(r0, others), others, x);
  }

  /** The moves with which a turn ends. */
  function Markers(due: seq<Order>, price: int, depth: nat): seq<Move> {
    if depth < MAX_STOP_CHAIN_DEPTH then [RunEnd(Some(price), |due|)] + Triggered(due)
    else [RunEnd(Some(price), 0)] + Cascade.Dropped(due)
  }

  lemma MarkersAreQuiet(due: seq<Order>, price: int, depth: nat, x: Id)
    requires forall o :: o in due ==> Restless(o)
    ensures AllSound(Markers(due, price, depth)) && !Cancels(x, Markers(due, price, depth))
  {
    var m := Markers(due, price, depth)[0];
    MarkersSound(due);
    MarkersCancelNone(due, x);
    hide Triggered, Cascade.Dropped;
    assert !Cancels(x, [m]);
    CancelsConcat(x, [m], Triggered(due));
    CancelsConcat(x, [m], Cascade.Dropped(due));
  }

  lemma CheckAppends(b: Book, price: int, others: seq<Order>, moves: seq<Move>, depth: nat)
    ensures CheckStops(b, price, others, moves, depth).moves == moves + Markers(Due(b, price), price, depth)
  {
    hide Due, Triggered, Cascade.Dropped;
  }

  lemma WorkHolds(v: Work, x: Id)
    requires WorkOk(v)
    ensures 0 <= HeldAtEnd(v.book, v.queue, x)
  {
    PresentIffAmount(v.book, x);
    SomeIsSomething(v.queue, x);
  }

  lemma CheckFinal(b: Book, price: int, others: seq<Order>, moves: seq<Move>, depth: nat, x: Id)
    requires Shaped(b) && Distinct(b, others) && forall o :: o in others ==> Restless(o)
    requires Final(x, moves, HeldAtEnd(b, others, x))
    ensures WorkFinal(CheckStops(b, price, others, moves, depth), x)
  {
    hide Sum, Total, Final, Gone, Due, Undue, Shaped, Distinct, CheckStops, Markers, Cancels;
    var g, v, more := Amount(x), CheckStops(b, price, others, moves, depth), Markers(Due(b, price), price, depth);
    CheckStopsKeeps(b, price, others, moves, depth);
    CheckStopsConserves(g, b, price, others, moves, depth);
    CheckAppends(b, price, others, moves, depth);
    WorkHolds(v, x);
    DueOk(b, price);
    MarkersAreQuiet(Due(b, price), price, depth, x);
    GoneConcat(g, moves, more);
    QuietIsFinal(x, more, HeldAtEnd(v.book, v.queue, x));
    FinalExtends(x, moves, more, HeldAtEnd(b, others, x), HeldAtEnd(v.book, v.queue, x));
  }

  lemma TurnFinal(w: Work, x: Id)
    requires WorkOk(w) && w.queue != [] && WorkFinal(w, x)
    ensures WorkFinal(Turn(w), x)
  {
    var others, r := w.queue[..|w.queue| - 1], RunOne(w);
    assert forall o :: o in others ==> o in w.queue;
    RunOneFinal(w, x);
    hide RunOne, Final, HeldAtEnd, Shaped, Distinct, CheckStops;
    match r.last
    case None => EndFinal(x, r.moves, HeldAtEnd(r.book, others, x));
    case Some(price) => CheckFinal(r.book, price, others, r.moves, w.depth, x);
  }

  lemma EndFinal(x: Id, moves: seq<Move>, left: int)
    requires Final(x, moves, left)
    ensures Final(x, moves + [RunEnd(None, 0)], left)
  {
    assert (moves + [RunEnd(None, 0)])[..|moves|] == moves;
    CancelsConcat(x, moves, [RunEnd(None, 0)]);
  }

  lemma {:induction false} RunAllFinal(w: Work, x: Id)
    requires WorkOk(w) && WorkFinal(w, x)
    ensures WorkFinal(RunAll(w), x)
    decreases |w.queue| + w.book.WaitingCount()
  {
    if w.queue != [] {
      TurnFinal(w, x);
      hide WorkFinal;
      RunAllFinal(Turn(w), x);
    }
  }

  /** After an order and everything it set off: whatever was announced as cancelled was not
    touched again, and is nowhere on the book. */
  lemma CancelledStaysCancelled(b: Book, o: Order, x: Id)
    requires Valid(b) && Fresh(b, o)
    ensures Final(x, Submit(b, o).1, Total(Amount(x), Submit(b, o).0))
  {
    var (c, moves) := Submit(b, o);
    Alone(b, o, []) by { assert [o] + [] == [o]; }
    if Refusal(b, o).Some? {
      OneIsFinal(x, moves[0], Total(Amount(x), c));
      assert moves == [moves[0]];
    } else if o.kind.IsStop() {
      ParkFinal(b, o, x);
    } else {
      QuietIsFinal(x, [], HeldAtEnd(b, [o], x));
      RunAllFinal(Start(b, o), x);
      EmptyQueue(c, x);
      hide Final, RunAll, HeldAtEnd, Total;
    }
  }

  lemma ParkFinal(b: Book, o: Order, x: Id)
    requires Total(Amount(o.id), b) == 0
    ensures Final(x, Park(b, o).1, Total(Amount(x), Park(b, o).0))
  {
    var (c, moves) := Park(b, o);
    OneIsFinal(x, moves[0], Total(Amount(x), c));
    assert moves == [moves[0]];
  }

  lemma EmptyQueue(b: Book, x: Id)
    ensures HeldAtEnd(b, [], x) == Total(Amount(x), b)
  {
  }

  /** And after a cancel. */
  lemma CancelIsFinal(b: Book, id: Id, x: Id)
    requires Valid(b)
    ensures Final(x, CancelOrder(b, id).1, Total(Amount(x), CancelOrder(b, id).0))
  {
    hide Withdraw, Final, Sum, Total;
    if id in b.links {
      var b0 := b.(links := b.links - {id, b.links[id]});
      var (b1, m1) := Withdraw(b0, id, AdminCancel);
      var (b2, m2) := Withdraw(b1, b.links[id], OcoCancel);
      StillValid(b, b0);
      WithdrawWithin(b0, id, AdminCancel);
      WithinShaped(b1, b0);
      WithinDistinct(b1, b0, []);
      WithdrawWithin(b1, b.links[id], OcoCancel);
      WithinShaped(b2, b1);
      WithdrawFinal(b0, id, AdminCancel, [], x);
      WithdrawFinal(b1, b.links[id], OcoCancel, [], x);
      WithdrawConserves(Amount(x), b1, b.links[id], OcoCancel);
      WithdrawSound(b1, b.links[id], OcoCancel);
      PresentIffAmount(b2, x);
      NoFlight(x);
      FinalExtends(x, m1, m2, Total(Amount(x), b1), Total(Amount(x), b2));
    } else {
      WithdrawFinal(b, id, AdminCancel, [], x);
      NoFlight(x);
    }
  }

  lemma NoFlight(x: Id)
    ensures Sum(Amount(x), []) == 0
  {
  }

  lemma StillValid(b: Book, c: Book)
    requires Valid(b) && c == b.(links := c.links)
    ensures Valid(c)
  {
    forall x ensures Total(Count(x), c) + Sum(Count(x), []) <= 1 {
      assert Total(Count(x), b) + Sum(Count(x), []) <= 1;
    }
  }
}
