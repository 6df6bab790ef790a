/** The terms of every fill: two different orders of different owners that were placed on
  opposite sides of one market, at the resting order's price, within the other's limit, and of
  no more than the resting order shows. */
module Terms {
  import opened Orders
  import opened Ladder
  import opened Matcher
  import opened BookInvariants
  import opened Cascade
  import opened Origins
  import FillOrKill

  predicate TradeFits(m: Move, placed: Register) {
    m.Trade? ==>
      var f := m.fill;
      && f.takerId in placed && f.makerId in placed && f.takerId != f.makerId
      && var taker, maker := placed[f.takerId], placed[f.makerId];
      && taker.side == f.takerSide && maker.side == f.takerSide.Opposite() && taker.symbol == maker.symbol
      && taker.user != maker.user && maker.price == Some(f.price)
      && (taker.price.Some? ==> if f.takerSide == Buy then f.price <= taker.price.value else taker.price.value <= f.price)
      && (maker.displayQty.Some? ==> f.quantity <= maker.displayQty.value)
  }

  ghost predicate AllFits(moves: seq<Move>, placed: Register) {
    forall m :: m in moves ==> TradeFits(m, placed)
  }

  /** The register of one market. */
  ghost predicate OneSymbol(placed: Register) {
    forall x, y :: x in placed && y in placed ==> placed[x].symbol == placed[y].symbol
  }

  lemma TradeStepFits(r: Run, queue: seq<Order>, placed: Register)
    requires Live(r, queue) && r.Active() && AllFrom(r.book, placed) && From(r.taker, placed) && OneSymbol(placed)
    requires AllFits(r.moves, placed) && r.Opposing()[0].user != r.taker.user
    ensures AllFits(TradeStep(r).moves, placed)
  {
    var side, s := r.taker.side.Opposite(), r.Opposing();
    var maker := s[0];
    assert maker in s && RestsOk(side, maker) && From(maker, placed);
    FillOrKill.MakerIsAnother(r, queue);
    var fill := Fill(r.taker.id, maker.id, maker.price.Or(0), Min(r.taker.remaining, maker.Effective()), r.taker.side);
    assert TradeFits(Trade(fill), placed);
    hide ListFrom, Sorted, Insert, CancelLinked, TradeFits;
    LinkedFits(r.book.WithResting(side, s[1..]), maker.id, placed);
  }

  lemma LinkedFits(b: Book, id: Id, placed: Register)
    ensures AllFits(CancelLinked(b, id).1, placed)
  {
  }

  lemma SelfTradeFits(r: Run, placed: Register)
    requires r.Active() && AllFits(r.moves, placed)
    ensures AllFits(PreventSelfTrade(r).moves, placed)
  {
  }

  lemma {:induction false} LoopFits(r: Run, queue: seq<Order>, placed: Register)
    requires Live(r, queue) && AllFrom(r.book, placed) && From(r.taker, placed) && OneSymbol(placed)
    requires AllFits(r.moves, placed)
    ensures AllFits(Loop(r, queue).moves, placed)
    decreases r.taker.remaining, |r.Opposing()|
  {
    if r.Active() {
      StepKeeps(r, queue);
      StepShrinks(r);
      SameTaker(r);
      if r.Opposing()[0].user == r.taker.user {
        SelfTradeFrom(r, placed);
        SelfTradeFits(r, placed);
      } else {
        TradeStepFrom(r, placed);
        TradeStepFits(r, queue, placed);
      }
      hide TradeStep, PreventSelfTrade, AllFrom, AllFits, Shaped, Distinct, OneSymbol;
      LoopFits(Step(r), queue, placed);
    }
  }

  lemma SameTaker(r: Run)
    requires r.Active()
    ensures Step(r).taker == r.taker.(remaining := Step(r).taker.remaining)
  {
  }

  lemma FinishFits(r: Run, placed: Register)
    requires AllFits(r.moves, placed)
    ensures AllFits(Finish(r).moves, placed)
  {
    LinkedFits(r.book, r.taker.id, placed);
    hide CancelLinked, Insert;
  }

  lemma {:induction false} MarkersFit(s: seq<Order>, placed: Register)
    ensures AllFits(Triggered(s), placed) && AllFits(Dropped(s), placed)
  {
    if s != [] { MarkersFit(s[..|s| - 1], placed); }
  }

  lemma TurnFits(w: Work, placed: Register)
    requires WorkOk(w) && w.queue != [] && WorkFrom(w, placed) && OneSymbol(placed) && AllFits(w.moves, placed)
    ensures AllFits(Turn(w).moves, placed)
  {
    var others, taker := w.queue[..|w.queue| - 1], w.queue[|w.queue| - 1];
    PopQueue(w.book, w.queue);
    assert taker in w.queue;
    var r0 := Run(w.book, taker, w.moves, None, false);
    LoopFits(r0, others, placed);
    FinishFits(Loop(r0, others), placed);
    hide Loop, Finish, Due, Undue, AllFrom, Triggered, Dropped, AllFits, Shaped, Distinct;
    var r := RunOne(w);
    match r.last
    case None => EndFits(r.moves, None, 0, placed);
    case Some(price) =>
      var due := Due(r.book, price);
      var n := if w.depth < MAX_STOP_CHAIN_DEPTH then |due| else 0;
      MarkersFit(due, placed);
      EndFits(r.moves, Some(price), n, placed);
      FitsConcat(r.moves + [RunEnd(Some(price), n)], Triggered(due), placed);
      FitsConcat(r.moves + [RunEnd(Some(price), n)], Dropped(due), placed);
  }

  lemma EndFits(moves: seq<Move>, last: Option<int>, n: nat, placed: Register)
    requires AllFits(moves, placed)
    ensures AllFits(moves + [RunEnd(last, n)], placed)
  {
  }

  lemma FitsConcat(a: seq<Move>, b: seq<Move>, placed: Register)
    requires AllFits(a, placed) && AllFits(b, placed)
    ensures AllFits(a + b, placed)
  {
  }

  lemma {:induction false} RunAllFits(w: Work, placed: Register)
    requires WorkOk(w) && WorkFrom(w, placed) && OneSymbol(placed) && AllFits(w.moves, placed)
    ensures AllFits(RunAll(w).moves, placed)
    decreases |w.queue| + w.book.WaitingCount()
  {
    if w.queue != [] {
      TurnFrom(w, placed);
      TurnFits(w, placed);
      hide AllFits, WorkFrom, OneSymbol;
      RunAllFits(Turn(w), placed);
    }
  }

  /** Every fill that an order causes, its own or that of a stop it sets off, is on these terms. */
  lemma FillsAreOnTerms(b: Book, o: Order, placed: Register)
    requires Valid(b) && Fresh(b, o) && AllFrom(b, placed) && From(o, placed) && OneSymbol(placed)
    ensures AllFits(Submit(b, o).1, placed)
  {
    if Refusal(b, o).None? && !o.kind.IsStop() { RunAllFits(Start(b, o), placed); }
  }

  // ---- Post-only orders ----------------------------------------------------------

  lemma PassiveRun(b: Book, o: Order)
    requires Valid(b) && Fresh(b, o) && !o.kind.IsStop() && !Run(b, o, [], None, false).Active()
    ensures WorkOk(Start(b, o)) && RunOne(Start(b, o)) == Finish(Run(b, o, [], None, false))
  {
    PopQueue(b, [o]);
    assert [o][..0] == [];
    hide Finish, Shaped, Distinct;
  }

  /** Without a trade the order's own run is all there is. */
  lemma TradelessCall(b: Book, o: Order)
    requires Valid(b) && Fresh(b, o) && Refusal(b, o).None? && !o.kind.IsStop() && WorkOk(Start(b, o))
    requires RunOne(Start(b, o)).last.None?
    ensures Submit(b, o) == (RunOne(Start(b, o)).book, RunOne(Start(b, o)).moves + [RunEnd(None, 0)])
  {
    assert Start(b, o).queue[..0] == [];
    hide RunOne, Refusal, Shaped, Distinct;
    var v := Turn(Start(b, o));
    assert v.queue == [];
    assert RunAll(v) == v;
    assert RunAll(Start(b, o)) == v;
  }

  lemma PassiveFinish(b: Book, o: Order)
    requires Disposal(o.kind, false).None? && o.price.Some? && 0 < o.remaining
    ensures var r := Finish(Run(b, o, [], None, false));
      && r.last.None? && r.moves == [Rest(o.id, o.remaining)]
      && r.book == b.WithResting(o.side, Insert(ShelfOf(o.side), b.Resting(o.side), o))
  {
    hide Insert;
    assert [] + [Rest(o.id, o.remaining)] == [Rest(o.id, o.remaining)];
  }

  lemma PassiveEvents(m: Move)
    ensures EventsOf([m] + [RunEnd(None, 0)]) == EventOf(m)
  {
    OneEvent(m);
    EventsPush([m], RunEnd(None, 0));
    assert EventOf(m) + [] == EventOf(m);
  }

  /** An order that may rest and does not cross rests whole, behind the orders of its price,
    with nothing else changed. */
  lemma PassiveRests(b: Book, o: Order)
    requires Valid(b) && Fresh(b, o) && Disposal(o.kind, false).None? && o.price.Some? && !WouldCross(b, o)
    ensures Submit(b, o).0 == b.WithResting(o.side, Insert(ShelfOf(o.side), b.Resting(o.side), o))
    ensures Submit(b, o).1 == [Rest(o.id, o.remaining)] + [RunEnd(None, 0)]
    ensures EventsOf(Submit(b, o).1) == [Rested(o.id, o.remaining)]
  {
    PassiveRun(b, o);
    PassiveFinish(b, o);
    PassiveEvents(Rest(o.id, o.remaining));
    hide Insert, Shaped, Distinct, Submit, RunOne, Finish, EventsOf;
    TradelessCall(b, o);
  }

  /** A post-only order never takes: it is refused with the book unchanged if it would cross,
    and otherwise rests whole, behind the orders of its price, with nothing else changed. */
  lemma PostOnlyNeverTakes(b: Book, o: Order)
    requires Valid(b) && Fresh(b, o) && o.kind == PostOnly && o.price.Some?
    ensures var (c, moves) := Submit(b, o);
      if WouldCross(b, o) then c == b && EventsOf(moves) == [Cancelled(o.id, PostOnlyCrossed)]
      else c == b.WithResting(o.side, Insert(ShelfOf(o.side), b.Resting(o.side), o))
           && EventsOf(moves) == [Rested(o.id, o.remaining)]
  {
    OneEvent(Void(o.id, o.remaining, PostOnlyCrossed, Incoming));
    hide Insert, EventsOf, RunAll;
    if !WouldCross(b, o) { PassiveRests(b, o); }
  }
}
