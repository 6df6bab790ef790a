/** Time priority over whole calls and histories: of two orders resting on one side, the one that
  is ahead goes first (engine/crates/core/src/book.rs). */
module TimePriority {
  import opened Orders
  import opened Ladder
  import opened Matcher
  import opened BookInvariants
  import opened Cascade
  import opened Conservation
  import opened Histories
  import opened StopOrders
  import opened PriceTime
  import FillOrKill

  // ---- An order that rests on one side is nowhere else ---------------------------

  ghost predicate Without(s: seq<Order>, x: Id) {
    forall o :: o in s ==> o.id != x
  }

  /** Nothing is called `x` but on this side of the book. */
  ghost predicate OnlyOn(side: Side, b: Book, queue: seq<Order>, x: Id) {
    && Without(b.Resting(side.Opposite()), x) && Without(b.buyStops, x) && Without(b.sellStops, x)
    && Without(queue, x)
  }

  lemma OnlyOnFewer(side: Side, c: Book, b: Book, queue: seq<Order>, x: Id)
    requires OnlyOn(side, b, queue, x) && FewerStops(c, b)
    requires Without(c.Resting(side.Opposite()), x)
    ensures OnlyOn(side, c, queue, x)
  {
  }

  lemma WithdrawMembers(b: Book, id: Id, reason: CancelReason, side: Side)
    ensures forall o :: o in Withdraw(b, id, reason).0.Resting(side) ==> o in b.Resting(side)
  {
    hide Find, SwapOut;
  }

  lemma LinkedMembers(b: Book, id: Id, side: Side)
    ensures forall o :: o in CancelLinked(b, id).0.Resting(side) ==> o in b.Resting(side)
  {
    if id in b.links { WithdrawMembers(b.(links := b.links - {id, b.links[id]}), b.links[id], OcoCancel, side); }
    hide Withdraw;
  }

  /** A step puts no order where none of its name was. */
  lemma StepWithout(r: Run, side: Side, x: Id)
    requires r.Active() && Without(r.book.Resting(side), x)
    ensures Without(Step(r).book.Resting(side), x)
  {
    var opp, maker, rest := r.taker.side.Opposite(), r.Opposing()[0], r.Opposing()[1..];
    assert maker in r.Opposing();
    assert forall o :: o in rest ==> o in r.Opposing();
    var left := maker.(remaining := maker.remaining - Min(r.taker.remaining, maker.Effective()));
    LinkedMembers(r.book.WithResting(opp, rest), maker.id, side);
    InsertMembers(ShelfOf(opp), rest, left);
    hide CancelLinked, Insert;
  }

  lemma {:induction false} LoopOnly(r: Run, queue: seq<Order>, side: Side, x: Id)
    requires Live(r, queue) && OnlyOn(side, r.book, queue, x)
    ensures OnlyOn(side, Loop(r, queue).book, queue, x)
    decreases r.taker.remaining, |r.Opposing()|
  {
    if r.Active() {
      StepKeeps(r, queue);
      StepShrinks(r);
      StepWithout(r, side.Opposite(), x);
      StepFewer(r);
      hide Step, Shaped, Distinct, Without;
      OnlyOnFewer(side, Step(r).book, r.book, queue, x);
      LoopOnly(Step(r), queue, side, x);
    }
  }

  lemma FinishWithout(r: Run, side: Side, x: Id)
    requires Without(r.book.Resting(side), x) && r.taker.id != x
    ensures Without(Finish(r).book.Resting(side), x)
  {
    LinkedMembers(r.book, r.taker.id, side);
    InsertMembers(ShelfOf(r.taker.side), r.book.Resting(r.taker.side), r.taker);
    hide CancelLinked, Insert;
  }

  // ---- A run on the other side ---------------------------------------------------

  /** `a` is ahead of `b`, shows its whole size, and is gone if `b` traded more than `n` times. */
  ghost predicate InTurn(side: Side, b: Book, moves: seq<Move>, x: Id, y: Id, n: nat) {
    && Ahead(b.Resting(side), x, y) && Plain(b.Resting(side), x)
    && (TradesWith(y, moves) > n ==> !Has(b.Resting(side), x))
  }

  /** A taker of their own side changes that side at most by cancelling a partner. */
  lemma OwnSideBook(r: Run)
    requires r.Active()
    ensures var side, popped := r.taker.side, r.book.WithResting(r.taker.side.Opposite(), r.Opposing()[1..]);
      || Step(r).book.Resting(side) == r.book.Resting(side)
      || Step(r).book.Resting(side) == CancelLinked(popped, r.Opposing()[0].id).0.Resting(side)
  {
    hide CancelLinked, Insert;
  }

  /** And it meets neither. */
  lemma OwnSideStep(r: Run, queue: seq<Order>, x: Id, y: Id, n: nat)
    requires Live(r, queue) && r.Active() && Without(r.Opposing(), y)
    requires InTurn(r.taker.side, r.book, r.moves, x, y, n)
    ensures InTurn(r.taker.side, Step(r).book, Step(r).moves, x, y, n)
  {
    assert r.Opposing()[0] in r.Opposing();
    hide CancelLinked, Insert, Ahead, PriceTime.Plain, Has, TradesWith, Shaped, Distinct, Without;
    OwnSideBook(r);
    StepTrades(r, y);
    var popped := r.book.WithResting(r.taker.side.Opposite(), r.Opposing()[1..]);
    CancelLinkedOutlasts(popped, r.Opposing()[0].id, r.taker.side, x, y);
    SameOutlasts(r.book.Resting(r.taker.side), x, y);
    hide Step;
  }

  lemma {:induction false} OwnSideLoop(r: Run, queue: seq<Order>, x: Id, y: Id, n: nat)
    requires Live(r, queue) && Without(r.Opposing(), y) && InTurn(r.taker.side, r.book, r.moves, x, y, n)
    ensures InTurn(r.taker.side, Loop(r, queue).book, Loop(r, queue).moves, x, y, n)
    decreases r.taker.remaining, |r.Opposing()|
  {
    if r.Active() {
      StepKeeps(r, queue);
      StepShrinks(r);
      OwnSideStep(r, queue, x, y, n);
      StepWithout(r, r.taker.side.Opposite(), y);
      hide Step, InTurn, Without, Shaped, Distinct;
      OwnSideLoop(Step(r), queue, x, y, n);
    }
  }

  /** A taker of the other side meets the one ahead first. */
  lemma {:induction false} OtherSideAhead(r: Run, queue: seq<Order>, x: Id, y: Id)
    requires Live(r, queue) && Ahead(r.Opposing(), x, y) && Plain(r.Opposing(), x)
    ensures var t := Loop(r, queue).Opposing();
      Ahead(t, x, y) && Plain(t, x) && (Has(t, x) ==> Has(r.Opposing(), x))
    decreases r.taker.remaining, |r.Opposing()|
  {
    if r.Active() {
      StepKeeps(r, queue);
      StepShrinks(r);
      StepAhead(r, x, y);
      hide Step, Ahead, PriceTime.Plain, Has, Shaped, Distinct;
      OtherSideAhead(Step(r), queue, x, y);
    }
  }

  lemma LoopInTurn(r: Run, queue: seq<Order>, side: Side, x: Id, y: Id, n: nat)
    requires Live(r, queue) && OnlyOn(side, r.book, queue, y) && InTurn(side, r.book, r.moves, x, y, n)
    ensures InTurn(side, Loop(r, queue).book, Loop(r, queue).moves, x, y, n)
  {
    FillOrKill.LoopSameTaker(r, queue);
    if r.taker.side == side {
      OwnSideLoop(r, queue, x, y, n);
    } else {
      OtherSideAhead(r, queue, x, y);
      EarlierGoesFirst(r, queue, x, y);
    }
    hide Loop, Ahead, PriceTime.Plain, Has, TradesWith;
  }

  lemma FinishInTurn(r: Run, side: Side, x: Id, y: Id, n: nat)
    requires InTurn(side, r.book, r.moves, x, y, n) && r.taker.id != x && r.taker.id != y
    ensures InTurn(side, Finish(r).book, Finish(r).moves, x, y, n)
  {
    hide CancelLinked, Insert, Ahead, Has, TradesWith;
    var q := Finish(r);
    FinishAdds(r);
    assert q.moves == r.moves + q.moves[|r.moves|..];
    TradesConcat(y, r.moves, q.moves[|r.moves|..]);
    CancelLinkedOutlasts(r.book, r.taker.id, side, x, y);
    InsertAhead(ShelfOf(side), r.book.Resting(side), r.taker, x, y);
    InsertMembers(ShelfOf(side), r.book.Resting(side), r.taker);
  }

  // ---- Whole calls ---------------------------------------------------------------

  ghost predicate WorkInTurn(w: Work, side: Side, x: Id, y: Id, n: nat) {
    && OnlyOn(side, w.book, w.queue, x) && OnlyOn(side, w.book, w.queue, y)
    && InTurn(side, w.book, w.moves, x, y, n)
  }

  lemma RunOneInTurn(w: Work, side: Side, x: Id, y: Id, n: nat)
    requires WorkOk(w) && w.queue != [] && WorkInTurn(w, side, x, y, n)
    ensures var r, others := RunOne(w), w.queue[..|w.queue| - 1];
      OnlyOn(side, r.book, others, x) && OnlyOn(side, r.book, others, y) && InTurn(side, r.book, r.moves, x, y, n)
  {
    var others, taker := w.queue[..|w.queue| - 1], w.queue[|w.queue| - 1];
    PopQueue(w.book, w.queue);
    assert taker in w.queue && forall o :: o in others ==> o in w.queue;
    var r0 := Run(w.book, taker, w.moves, None, false);
    var q := Loop(r0, others);
    LoopOnly(r0, others, side, x);
    LoopOnly(r0, others, side, y);
    LoopInTurn(r0, others, side, x, y, n);
    FillOrKill.LoopSameTaker(r0, others);
    FinishWithout(q, side.Opposite(), x);
    FinishWithout(q, side.Opposite(), y);
    FinishFewer(q);
    hide Loop, Finish, InTurn, Without, Shaped, Distinct;
    OnlyOnFewer(side, Finish(q).book, q.book, others, x);
    OnlyOnFewer(side, Finish(q).book, q.book, others, y);
    FinishInTurn(q, side, x, y, n);
  }

  lemma ActivatedWithout(s: seq<Order>, t: seq<Order>, x: Id)
    requires Without(s, x) && forall o :: o in t ==> o in s
    ensures Without(ActivateAll(t), x)
  {
    forall i | 0 <= i < |t| ensures ActivateAll(t)[i].id != x {
      ActivateAllAt(t, i);
      assert t[i] in t;
    }
  }

  lemma CheckOnly(side: Side, b: Book, price: int, others: seq<Order>, moves: seq<Move>, depth: nat, x: Id)
    requires OnlyOn(side, b, others, x)
    ensures var v := CheckStops(b, price, others, moves, depth); OnlyOn(side, v.book, v.queue, x)
  {
    ActivatedWithout(b.buyStops, b.buyStops[..UpTo(b.buyStops, price)], x);
    ActivatedWithout(b.sellStops, b.sellStops[UpTo(b.sellStops, price - 1)..], x);
    hide Triggered, Cascade.Dropped;
  }

  lemma CheckInTurn(side: Side, b: Book, price: int, others: seq<Order>, moves: seq<Move>, depth: nat, x: Id, y: Id, n: nat)
    requires InTurn(side, b, moves, x, y, n)
    ensures var v := CheckStops(b, price, others, moves, depth); InTurn(side, v.book, v.moves, x, y, n)
  {
    var due := Due(b, price);
    MarkersQuiet(due);
    hide Due, Triggered, Cascade.Dropped, Ahead, PriceTime.Plain, Has, TradesWith, UpTo;
    if depth < MAX_STOP_CHAIN_DEPTH {
      TradesEnd(y, moves, RunEnd(Some(price), |due|));
      TradesConcat(y, moves + [RunEnd(Some(price), |due|)], Triggered(due));
    } else {
      TradesEnd(y, moves, RunEnd(Some(price), 0));
      TradesConcat(y, moves + [RunEnd(Some(price), 0)], Cascade.Dropped(due));
    }
  }

  lemma TradesEnd(x: Id, moves: seq<Move>, m: Move)
    requires !m.Trade?
    ensures TradesWith(x, moves + [m]) == TradesWith(x, moves)
  {
    assert (moves + [m])[..|moves|] == moves;
  }

  lemma TurnInTurn(w: Work, side: Side, x: Id, y: Id, n: nat)
    requires WorkOk(w) && w.queue != [] && WorkInTurn(w, side, x, y, n)
    ensures WorkInTurn(Turn(w), side, x, y, n)
  {
    var others, r := w.queue[..|w.queue| - 1], RunOne(w);
    RunOneInTurn(w, side, x, y, n);
    hide RunOne, CheckStops, OnlyOn, Ahead, PriceTime.Plain, Has, TradesWith, Shaped, Distinct;
    match r.last
    case None => TradesEnd(y, r.moves, RunEnd(None, 0));
    case Some(price) =>
      CheckOnly(side, r.book, price, others, r.moves, w.depth, x);
      CheckOnly(side, r.book, price, others, r.moves, w.depth, y);
      CheckInTurn(side, r.book, price, others, r.moves, w.depth, x, y, n);
  }

  lemma {:induction false} RunAllInTurn(w: Work, side: Side, x: Id, y: Id, n: nat)
    requires WorkOk(w) && WorkInTurn(w, side, x, y, n)
    ensures WorkInTurn(RunAll(w), side, x, y, n)
    decreases |w.queue| + w.book.WaitingCount()
  {
    if w.queue != [] {
      TurnInTurn(w, side, x, y, n);
      hide WorkInTurn, Turn;
      RunAllInTurn(Turn(w), side, x, y, n);
    }
  }

  /** An order that rests on one side is on that side only, and is not the one submitted. */
  lemma RestsOnlyThere(b: Book, queue: seq<Order>, side: Side, x: Id)
    requires Distinct(b, queue) && Has(b.Resting(side), x)
    ensures OnlyOn(side, b, queue, x)
  {
    assert Total(Count(x), b) + Sum(Count(x), queue) <= 1;
    CountIsPresence(b.bids, x);
    CountIsPresence(b.asks, x);
    CountIsPresence(b.buyStops, x);
    CountIsPresence(b.sellStops, x);
    CountIsPresence(queue, x);
  }

  /** The two are known on this side only, `x` ahead of `y` and showing its whole size. */
  ghost predicate Lined(b: Book, queue: seq<Order>, side: Side, x: Id, y: Id) {
    && OnlyOn(side, b, queue, x) && OnlyOn(side, b, queue, y)
    && Ahead(b.Resting(side), x, y) && PriceTime.Plain(b.Resting(side), x)
  }

  lemma QuietCall(b: Book, o: Order, side: Side, y: Id)
    requires Valid(b) && Fresh(b, o) && (Refusal(b, o).Some? || o.kind.IsStop())
    ensures TradesWith(y, Submit(b, o).1) == 0 && Submit(b, o).0.Resting(side) == b.Resting(side)
  {
    var moves := Submit(b, o).1;
    assert Quiet(moves);
    TradesConcat(y, [], moves);
    assert [] + moves == moves;
    hide Refusal, Insert;
  }

  lemma ParkedElsewhere(b: Book, o: Order, side: Side, x: Id)
    requires Valid(b) && Fresh(b, o) && (Refusal(b, o).Some? || o.kind.IsStop()) && OnlyOn(side, b, [o], x)
    ensures OnlyOn(side, Submit(b, o).0, [], x)
  {
    assert o in [o];
    InsertMembers(StopShelf, b.Stops(o.side), o);
    hide Refusal, Insert;
  }

  /** Two orders rest on one side, the one ahead showing its whole size. If the one behind trades
    in a call, with the order submitted or any stop it sets off, the one ahead is gone by its
    end; and otherwise the two stand as they stood. */
  lemma EarlierGoesFirstInCall(b: Book, o: Order, side: Side, x: Id, y: Id)
    requires Valid(b) && Fresh(b, o) && Lined(b, [o], side, x, y)
    ensures var (c, moves) := Submit(b, o);
      Lined(c, [], side, x, y) && (TradesWith(y, moves) > 0 ==> !Has(c.Resting(side), x))
  {
    hide RunAll, Refusal, Ahead, PriceTime.Plain, Has, OnlyOn;
    if Refusal(b, o).Some? || o.kind.IsStop() {
      QuietCall(b, o, side, y);
      ParkedElsewhere(b, o, side, x);
      ParkedElsewhere(b, o, side, y);
    } else {
      RunAllInTurn(Start(b, o), side, x, y, 0);
    }
  }

  // ---- Histories -----------------------------------------------------------------

  lemma WithdrawLined(b: Book, id: Id, reason: CancelReason, side: Side, x: Id, y: Id)
    requires Lined(b, [], side, x, y)
    ensures Lined(Withdraw(b, id, reason).0, [], side, x, y)
    ensures Has(Withdraw(b, id, reason).0.Resting(side), x) ==> Has(b.Resting(side), x)
    ensures Quiet(Withdraw(b, id, reason).1)
  {
    var c := Withdraw(b, id, reason).0;
    assert c == Withdraw(b, id, OcoCancel).0;
    WithdrawOutlasts(b, id, side, x, y);
    WithdrawMembers(b, id, reason, side.Opposite());
    WithdrawFewer(b, id, reason);
    hide Withdraw, Ahead, PriceTime.Plain, Has;
    OnlyOnFewer(side, c, b, [], x);
    OnlyOnFewer(side, c, b, [], y);
  }

  lemma WithdrawFewer(b: Book, id: Id, reason: CancelReason)
    ensures FewerStops(Withdraw(b, id, reason).0, b)
  {
    hide Find;
    if Has(b.buyStops, id) {
      SwapOutMembers(b.buyStops, Find(b.buyStops, id));
    } else if Has(b.sellStops, id) {
      SwapOutMembers(b.sellStops, Find(b.sellStops, id));
    }
    hide SwapOut, RemoveAt;
  }

  lemma CancelLined(b: Book, id: Id, side: Side, x: Id, y: Id)
    requires Lined(b, [], side, x, y)
    ensures var (c, moves) := CancelOrder(b, id);
      Lined(c, [], side, x, y) && (Has(c.Resting(side), x) ==> Has(b.Resting(side), x)) && TradesWith(y, moves) == 0
  {
    var (c, moves) := CancelOrder(b, id);
    hide Withdraw, Lined, Has, Quiet;
    if id in b.links {
      var b0 := b.(links := b.links - {id, b.links[id]});
      var (b1, m1) := Withdraw(b0, id, AdminCancel);
      SameLined(b, b0, side, x, y);
      WithdrawLined(b0, id, AdminCancel, side, x, y);
      WithdrawLined(b1, b.links[id], OcoCancel, side, x, y);
      BothQuiet(m1, Withdraw(b1, b.links[id], OcoCancel).1);
    } else {
      WithdrawLined(b, id, AdminCancel, side, x, y);
    }
    TradesConcat(y, [], moves);
    assert [] + moves == moves;
  }

  lemma BothQuiet(a: seq<Move>, b: seq<Move>)
    requires Quiet(a) && Quiet(b)
    ensures Quiet(a + b)
  {
  }

  lemma SameLined(b: Book, c: Book, side: Side, x: Id, y: Id)
    requires Lined(b, [], side, x, y) && c == b.(links := c.links)
    ensures Lined(c, [], side, x, y)
  {
  }

  lemma {:induction false} TradesMore(x: Id, a: seq<Move>, b: seq<Move>)
    ensures TradesWith(x, a + b) == TradesWith(x, a) + TradesWith(x, b)
  {
    if b == [] {
      assert a + b == a;
    } else {
      assert (a + b)[..|a + b| - 1] == a + b[..|b| - 1];
      TradesMore(x, a, b[..|b| - 1]);
    }
  }

  /** Nothing of `x` on its side is nothing of it at all, and stays so. */
  lemma GoneForGood(b: Book, o: Order, side: Side, x: Id)
    requires Valid(b) && Fresh(b, o) && OnlyOn(side, b, [o], x) && !Has(b.Resting(side), x)
    ensures !Has(Submit(b, o).0.Resting(side), x)
  {
    var c := Submit(b, o).0;
    assert o in [o];
    SubmitAddsOnly(b, o, x);
    CountIsPresence(b.bids, x);
    CountIsPresence(b.asks, x);
    CountIsPresence(b.buyStops, x);
    CountIsPresence(b.sellStops, x);
    CountIsPresence(c.bids, x);
    CountIsPresence(c.asks, x);
    CountIsPresence(c.buyStops, x);
    CountIsPresence(c.sellStops, x);
    hide Submit, Has, Sum;
  }

  /** What a history keeps of the two after they came to stand in line, when `y` had traded `n`
    times. */
  ghost predicate StillInLine(cmds: seq<Command>, side: Side, x: Id, y: Id, n: nat)
    requires FreshIds(cmds)
  {
    var (b, moves) := Play(cmds);
    && Lined(b, [], side, x, y) && n <= TradesWith(y, moves)
    && (TradesWith(y, moves) > n ==> !Has(b.Resting(side), x))
    && 0 < Brought(Count(x), cmds) && 0 < Brought(Count(y), cmds)
  }

  lemma {:induction false} BroughtOnce(x: Id, cmds: seq<Command>)
    ensures 0 <= Brought(Count(x), cmds)
  {
    if cmds != [] { BroughtOnce(x, cmds[..|cmds| - 1]); }
  }

  lemma AnotherComes(b: Book, o: Order, side: Side, x: Id, y: Id)
    requires Lined(b, [], side, x, y) && o.id != x && o.id != y
    ensures Lined(b, [o], side, x, y)
  {
  }

  lemma PlaceInLine(b: Book, moves: seq<Move>, o: Order, side: Side, x: Id, y: Id, n: nat)
    requires Valid(b) && Fresh(b, o) && Lined(b, [], side, x, y) && o.id != x && o.id != y
    requires n <= TradesWith(y, moves) && (TradesWith(y, moves) > n ==> !Has(b.Resting(side), x))
    ensures var (c, more) := Submit(b, o);
      && Lined(c, [], side, x, y) && n <= TradesWith(y, moves + more)
      && (TradesWith(y, moves + more) > n ==> !Has(c.Resting(side), x))
  {
    AnotherComes(b, o, side, x, y);
    EarlierGoesFirstInCall(b, o, side, x, y);
    TradesMore(y, moves, Submit(b, o).1);
    if !Has(b.Resting(side), x) { GoneForGood(b, o, side, x); }
    hide Submit, Has, OnlyOn, Ahead, PriceTime.Plain, TradesWith;
  }

  lemma CommandInLine(cmds: seq<Command>, side: Side, x: Id, y: Id, n: nat)
    requires cmds != [] && FreshIds(cmds) && StillInLine(cmds[..|cmds| - 1], side, x, y, n)
    ensures StillInLine(cmds, side, x, y, n)
  {
    var before := cmds[..|cmds| - 1];
    var (b, moves) := Play(before);
    BroughtOnce(x, before);
    BroughtOnce(y, before);
    hide Lined, TradesWith, Has, Submit, CancelOrder, Known, Shaped, Distinct;
    match cmds[|cmds| - 1]
    case Place(o) =>
      NewIdIsFresh(b, o);
      FreshInPlay(before, o);
      PlaceInLine(b, moves, o, side, x, y, n);
    case Cancel(id) =>
      CancelLined(b, id, side, x, y);
      TradesMore(y, moves, CancelOrder(b, id).1);
    case Link(legA, legB) =>
      SameLined(b, RegisterOco(b, legA, legB), side, x, y);
  }

  lemma FreshInPlay(cmds: seq<Command>, o: Order)
    requires FreshIds(cmds) && o.Ready() && Brought(Count(o.id), cmds) == 0
    ensures Fresh(Play(cmds).0, o)
  {
    NewIdIsFresh(Play(cmds).0, o);
    assert Total(Count(o.id), Play(cmds).0) <= Brought(Count(o.id), cmds);
  }

  lemma {:induction false} InLineToTheEnd(cmds: seq<Command>, m: nat, side: Side, x: Id, y: Id, n: nat)
    requires FreshIds(cmds) && m <= |cmds| && FreshIds(cmds[..m]) && StillInLine(cmds[..m], side, x, y, n)
    ensures StillInLine(cmds, side, x, y, n)
    decreases |cmds|
  {
    if m == |cmds| {
      assert cmds[..m] == cmds;
    } else {
      assert cmds[..|cmds| - 1][..m] == cmds[..m];
      InLineToTheEnd(cmds[..|cmds| - 1], m, side, x, y, n);
      CommandInLine(cmds, side, x, y, n);
    }
  }

  /** Two orders come to rest on one side, `x`, which shows its whole size, ahead of `y`. However
    the history goes on, `y` trades after that only once `x` is gone, and while both rest they
    stand as they stood. */
  lemma EarlierGoesFirstForGood(cmds: seq<Command>, m: nat, side: Side, x: Id, y: Id)
    requires FreshIds(cmds) && m <= |cmds| && FreshIds(cmds[..m])
    requires var s := Play(cmds[..m]).0.Resting(side); Has(s, x) && Has(s, y) && Ahead(s, x, y) && PriceTime.Plain(s, x)
    ensures var (before, after) := (Play(cmds[..m]), Play(cmds));
      && Ahead(after.0.Resting(side), x, y)
      && (TradesWith(y, after.1) > TradesWith(y, before.1) ==> !Has(after.0.Resting(side), x))
  {
    var b := Play(cmds[..m]).0;
    RestsOnlyThere(b, [], side, x);
    RestsOnlyThere(b, [], side, y);
    WasBrought(cmds[..m], side, x);
    WasBrought(cmds[..m], side, y);
    hide Ahead, PriceTime.Plain, Has, OnlyOn, TradesWith, Known, Shaped;
    InLineToTheEnd(cmds, m, side, x, y, TradesWith(y, Play(cmds[..m]).1));
  }

  lemma WasBrought(cmds: seq<Command>, side: Side, x: Id)
    requires FreshIds(cmds) && Has(Play(cmds).0.Resting(side), x)
    ensures 0 < Brought(Count(x), cmds)
  {
    var b := Play(cmds).0;
    assert Total(Count(x), b) <= Brought(Count(x), cmds);
    CountIsPresence(b.bids, x);
    CountIsPresence(b.asks, x);
    CountIsPresence(b.buyStops, x);
    CountIsPresence(b.sellStops, x);
  }
}
