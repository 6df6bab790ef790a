/** Price-time priority: fills start at the best price and only move away from it, and an
  order that shows its whole size trades before anything that came behind it. */
module PriceTime {
  import opened Orders
  import opened Ladder
  import opened Matcher
  import opened BookInvariants
  import opened Cascade
  import opened StopOrders

  // ---- Prices move away from the best --------------------------------------------

  /** The fills since the last run ended. */
  function CurrentFills(moves: seq<Move>): seq<Fill> {
    if moves == [] || moves[|moves| - 1].RunEnd? then []
    else
      CurrentFills(moves[..|moves| - 1]) +
      match moves[|moves| - 1]
      case Trade(f) => [f]
      case _ => []
  }

  /** A buyer pays no less, and a seller gets no more, than in the fill before. */
  predicate NoBetter(f: Fill, g: Fill) {
    f.takerId == g.takerId && f.takerSide == g.takerSide &&
    if f.takerSide == Buy then f.price <= g.price else f.price >= g.price
  }

  ghost predicate Marching(fills: seq<Fill>) {
    forall i, j :: 0 <= i < j < |fills| ==> NoBetter(fills[i], fills[j])
  }

  /** The fills of a run so far: this taker's, within its limit, at prices no worse than
    the front of what it can still meet. */
  ghost predicate March(r: Run) {
    && Marching(CurrentFills(r.moves))
    && forall f :: f in CurrentFills(r.moves) ==> Reached(r, f)
  }

  predicate Reached(r: Run, f: Fill) {
    && f.takerId == r.taker.id && f.takerSide == r.taker.side && Admits(r.taker, f.price)
    && (r.Opposing() != [] ==>
         if f.takerSide == Buy then f.price <= r.Opposing()[0].price.Or(0) else f.price >= r.Opposing()[0].price.Or(0))
  }

  lemma {:induction false} NoFillsAdded(a: seq<Move>, b: seq<Move>)
    requires forall m :: m in b ==> !m.Trade? && !m.RunEnd?
    ensures CurrentFills(a + b) == CurrentFills(a)
  {
    if b == [] {
      assert a + b == a;
    } else {
      assert b[|b| - 1] in b;
      assert (a + b)[..|a + b| - 1] == a + b[..|b| - 1];
      NoFillsAdded(a, b[..|b| - 1]);
    }
  }

  lemma FillAdded(a: seq<Move>, f: Fill)
    ensures CurrentFills(a + [Trade(f)]) == CurrentFills(a) + [f]
  {
    assert (a + [Trade(f)])[..|a|] == a;
  }

  /** The front never gets better while a run goes on. */
  lemma FrontNoBetter(r: Run, queue: seq<Order>)
    requires Live(r, queue) && r.Active()
    ensures var q, shelf := Step(r), ShelfOf(r.taker.side.Opposite());
      q.Opposing() != [] ==> RankOf(shelf, r.Opposing()[0]) <= RankOf(shelf, q.Opposing()[0])
  {
    if r.Opposing()[0].user != r.taker.user { TradeFrontNoBetter(r); } else { StpFrontNoBetter(r); }
  }

  lemma StpFrontNoBetter(r: Run)
    requires Shaped(r.book) && r.Active()
    ensures var q, shelf := PreventSelfTrade(r), ShelfOf(r.taker.side.Opposite());
      q.Opposing() != [] ==> RankOf(shelf, r.Opposing()[0]) <= RankOf(shelf, q.Opposing()[0])
  {
    hide Sum;
  }

  lemma TradeFrontNoBetter(r: Run)
    requires Shaped(r.book) && r.Active()
    ensures var q, shelf := TradeStep(r), ShelfOf(r.taker.side.Opposite());
      q.Opposing() != [] ==> RankOf(shelf, r.Opposing()[0]) <= RankOf(shelf, q.Opposing()[0])
  {
    var side, s := r.taker.side.Opposite(), r.Opposing();
    var maker, rest := s[0], s[1..];
    assert maker in s && RestsOk(side, maker);
    var left := maker.(remaining := maker.remaining - Min(r.taker.remaining, maker.Effective()));
    if left.remaining == 0 {
      var popped := r.book.WithResting(side, rest);
      TailWithin(ShelfOf(side), s);
      WithinSideOk(side, rest, s);
      CancelLinkedWithin(popped, maker.id);
      WithinSideOk(side, CancelLinked(popped, maker.id).0.Resting(side), rest);
    } else {
      FrontRequeued(side, s, left);
    }
  }

  lemma StepMarch(r: Run, queue: seq<Order>)
    requires Live(r, queue) && r.Active() && March(r)
    ensures March(Step(r))
  {
    FrontNoBetter(r, queue);
    StepShrinks(r);
    StepFills(r);
    var q, s := Step(r), r.Opposing();
    assert s[0] in s && RestsOk(r.taker.side.Opposite(), s[0]);
    if q.Opposing() != [] {
      StepKeeps(r, queue);
      assert q.Opposing()[0] in q.Opposing() && RestsOk(r.taker.side.Opposite(), q.Opposing()[0]);
    }
    var before, after := CurrentFills(r.moves), CurrentFills(q.moves);
    hide Step, Live, CurrentFills;
    forall f | f in after ensures Reached(q, f) {
      if f in before { assert Reached(r, f); }
    }
    if after != before {
      forall f | f in before ensures NoBetter(f, after[|after| - 1]) {
        assert Reached(r, f);
      }
      MarchOn(before, after[|after| - 1]);
    }
  }

  lemma MarchOn(fills: seq<Fill>, f: Fill)
    requires Marching(fills) && forall g :: g in fills ==> NoBetter(g, f)
    ensures Marching(fills + [f])
  {
    assert forall i :: 0 <= i < |fills| ==> fills[i] in fills;
  }

  /** A step adds one fill at the front order's price, or none. */
  lemma StepFills(r: Run)
    requires r.Active()
    ensures var before, after := CurrentFills(r.moves), CurrentFills(Step(r).moves);
      after == before ||
      exists f :: after == before + [f] && f.takerId == r.taker.id && f.takerSide == r.taker.side
               && f.price == r.Opposing()[0].price.Or(0)
  {
    if r.Opposing()[0].user != r.taker.user {
      var maker, side := r.Opposing()[0], r.taker.side.Opposite();
      var f := Fill(r.taker.id, maker.id, maker.price.Or(0), Min(r.taker.remaining, maker.Effective()), r.taker.side);
      FillAdded(r.moves, f);
      NoFillsAdded(r.moves + [Trade(f)], CancelLinked(r.book.WithResting(side, r.Opposing()[1..]), maker.id).1);
    } else {
      StpFills(r);
    }
  }

  lemma StpFills(r: Run)
    requires r.Active()
    ensures CurrentFills(PreventSelfTrade(r).moves) == CurrentFills(r.moves)
  {
    var q, n := PreventSelfTrade(r), |r.moves|;
    assert q.moves == r.moves + q.moves[n..];
    NoFillsAdded(r.moves, q.moves[n..]);
  }

  /** Over a whole run the fill prices move only away from the best, within the limit. */
  lemma {:induction false} LoopMarch(r: Run, queue: seq<Order>)
    requires Live(r, queue) && March(r)
    ensures March(Loop(r, queue))
    decreases r.taker.remaining, |r.Opposing()|
  {
    if r.Active() {
      StepMarch(r, queue);
      StepKeeps(r, queue);
      StepShrinks(r);
      LoopMarch(Step(r), queue);
    }
  }

  /** In every run that has ended. */
  ghost predicate RunsMarch(moves: seq<Move>) {
    forall i :: 0 <= i < |moves| && moves[i].RunEnd? ==> Marching(CurrentFills(moves[..i]))
  }

  lemma RunsMarchExtend(a: seq<Move>, b: seq<Move>)
    requires RunsMarch(a) && NoEnds(a, b)
    ensures RunsMarch(b)
  {
    forall i | 0 <= i < |b| && b[i].RunEnd? ensures Marching(CurrentFills(b[..i])) {
      assert forall k :: |a| <= k < |b| ==> b[k] in b[|a|..];
      assert b[..i] == a[..i] && a[i] == b[i];
    }
  }

  lemma RunsMarchEnd(a: seq<Move>, m: Move)
    requires RunsMarch(a) && Marching(CurrentFills(a))
    ensures RunsMarch(a + [m])
  {
    var b := a + [m];
    forall i | 0 <= i < |b| && b[i].RunEnd? ensures Marching(CurrentFills(b[..i])) {
      if i < |a| { assert b[..i] == a[..i]; } else { assert b[..i] == a; }
    }
  }

  lemma FinishFills(r: Run)
    ensures CurrentFills(Finish(r).moves) == CurrentFills(r.moves)
  {
    FinishAdds(r);
    assert Finish(r).moves == r.moves + Finish(r).moves[|r.moves|..];
    NoFillsAdded(r.moves, Finish(r).moves[|r.moves|..]);
  }

  lemma {:induction false} FreshRun(moves: seq<Move>)
    ensures (moves == [] || moves[|moves| - 1].RunEnd?) ==> CurrentFills(moves) == []
  {
  }

  /** Between runs nothing is filled. */
  ghost predicate BetweenRuns(moves: seq<Move>) {
    CurrentFills(moves) == [] && RunsMarch(moves)
  }

  lemma TurnMarch(w: Work)
    requires WorkOk(w) && w.queue != [] && BetweenRuns(w.moves)
    ensures BetweenRuns(Turn(w).moves)
  {
    var others, taker := w.queue[..|w.queue| - 1], w.queue[|w.queue| - 1];
    PopQueue(w.book, w.queue);
    assert taker in w.queue;
    var r0 := Run(w.book, taker, w.moves, None, false);
    var q := Loop(r0, others);
    LoopMarch(r0, others);
    LoopNoEnds(r0, others);
    FinishAdds(q);
    FinishFills(q);
    hide Loop, Finish, Live, CurrentFills, WorkOk, RunsMarch;
    var r := RunOne(w);
    NoEndsTrans(w.moves, q.moves, r.moves);
    RunsMarchExtend(w.moves, r.moves);
    match r.last
    case None =>
      RunsMarchEnd(r.moves, RunEnd(None, 0));
      FreshRun(r.moves + [RunEnd(None, 0)]);
    case Some(price) =>
      var due := Due(r.book, price);
      var n := if w.depth < MAX_STOP_CHAIN_DEPTH then |due| else 0;
      EndedRun(r.moves, RunEnd(r.last, n), due);
  }

  lemma EndedRun(a: seq<Move>, end: Move, due: seq<Order>)
    requires RunsMarch(a) && Marching(CurrentFills(a)) && end.RunEnd?
    ensures BetweenRuns(a + [end] + Triggered(due)) && BetweenRuns(a + [end] + Dropped(due))
  {
    RunsMarchEnd(a, end);
    FreshRun(a + [end]);
    MarkersQuiet(due);
    NoFillsAdded(a + [end], Triggered(due));
    NoFillsAdded(a + [end], Dropped(due));
    hide CurrentFills, RunsMarch;
    RunsMarchExtend(a + [end], a + [end] + Triggered(due));
    RunsMarchExtend(a + [end], a + [end] + Dropped(due));
  }

  lemma {:induction false} RunAllMarch(w: Work)
    requires WorkOk(w) && BetweenRuns(w.moves)
    ensures BetweenRuns(RunAll(w).moves)
    decreases |w.queue| + w.book.WaitingCount()
  {
    if w.queue != [] {
      TurnMarch(w);
      RunAllMarch(Turn(w));
    }
  }

  /** In each run an order sets off, its own and those of the stops it triggers, the fill
    prices move monotonically away from the best. */
  lemma PricesMarch(b: Book, o: Order)
    requires Valid(b) && Fresh(b, o)
    ensures RunsMarch(Submit(b, o).1)
  {
    if Refusal(b, o).None? && !o.kind.IsStop() { RunAllMarch(Start(b, o)); }
  }

  // ---- Time priority -------------------------------------------------------------

  /** Every order called `a` comes before every order called `b`. */
  predicate Ahead(s: seq<Order>, a: Id, b: Id) {
    s == [] || ((s[0].id == b ==> !Has(s, a)) && Ahead(s[1..], a, b))
  }

  /** The orders called `a` show their whole size. */
  ghost predicate Plain(s: seq<Order>, a: Id) {
    forall o :: o in s && o.id == a ==> o.displayQty.None?
  }

  /** How often an order was the maker of a fill. */
  function TradesWith(x: Id, moves: seq<Move>): nat {
    if moves == [] then 0
    else TradesWith(x, moves[..|moves| - 1]) +
         if moves[|moves| - 1].Trade? && moves[|moves| - 1].fill.makerId == x then 1 else 0
  }

  lemma {:induction false} TradesConcat(x: Id, a: seq<Move>, b: seq<Move>)
    requires Quiet(b)
    ensures TradesWith(x, a + b) == TradesWith(x, a)
  {
    if b == [] {
      assert a + b == a;
    } else {
      assert b[|b| - 1] in b;
      assert (a + b)[..|a + b| - 1] == a + b[..|b| - 1];
      TradesConcat(x, a, b[..|b| - 1]);
    }
  }

  lemma TradesPush(x: Id, a: seq<Move>, f: Fill)
    ensures TradesWith(x, a + [Trade(f)]) == TradesWith(x, a) + if f.makerId == x then 1 else 0
  {
    assert (a + [Trade(f)])[..|a|] == a;
  }

  lemma {:induction false} AbsentAhead(s: seq<Order>, a: Id, b: Id)
    requires !Has(s, a)
    ensures Ahead(s, a, b)
  {
    if s != [] { AbsentAhead(s[1..], a, b); }
  }

  lemma {:induction false} RemoveAtAhead(s: seq<Order>, i: nat, a: Id, b: Id)
    requires i < |s| && Ahead(s, a, b)
    ensures Ahead(RemoveAt(s, i), a, b) && (Has(RemoveAt(s, i), a) ==> Has(s, a))
  {
    var t := RemoveAt(s, i);
    if i == 0 {
      assert t == s[1..];
    } else {
      RemoveAtAhead(s[1..], i - 1, a, b);
      assert t[1..] == RemoveAt(s[1..], i - 1);
      assert t[0] == s[0];
    }
  }

  lemma {:induction false} InsertAhead(shelf: Shelf, s: seq<Order>, o: Order, a: Id, b: Id)
    requires Ahead(s, a, b) && o.id != a && (o.id == b ==> !Has(s, a))
    ensures Ahead(Insert(shelf, s, o), a, b) && (Has(Insert(shelf, s, o), a) ==> Has(s, a))
  {
    var t := Insert(shelf, s, o);
    if s == [] || RankOf(shelf, o) < RankOf(shelf, s[0]) {
      assert t[1..] == s;
    } else {
      InsertAhead(shelf, s[1..], o, a, b);
      assert t[1..] == Insert(shelf, s[1..], o);
    }
  }

  /** The front order with less remaining stands where it stood. */
  lemma FrontAhead(s: seq<Order>, left: Order, a: Id, b: Id)
    requires s != [] && left.id == s[0].id && Ahead(s, a, b)
    ensures Ahead([left] + s[1..], a, b) && (Has([left] + s[1..], a) ==> Has(s, a))
  {
    assert ([left] + s[1..])[1..] == s[1..];
  }

  ghost predicate Outlasts(t: seq<Order>, s: seq<Order>, a: Id, b: Id) {
    (Has(t, a) ==> Has(s, a)) && (Ahead(s, a, b) && Plain(s, a) ==> Ahead(t, a, b) && Plain(t, a))
  }

  lemma RemoveAtOutlasts(s: seq<Order>, i: nat, a: Id, b: Id)
    requires i < |s|
    ensures Outlasts(RemoveAt(s, i), s, a, b)
  {
    RemoveHas(s, i, a);
    RemoveAtMembers(s, i);
    if Ahead(s, a, b) { RemoveAtAhead(s, i, a, b); }
    hide RemoveAt, Ahead, Find;
  }

  lemma WithdrawOutlasts(c: Book, id: Id, side: Side, a: Id, b: Id)
    ensures Outlasts(Withdraw(c, id, OcoCancel).0.Resting(side), c.Resting(side), a, b)
  {
    var s := c.Resting(side);
    if Has(s, id) { RemoveAtOutlasts(s, Find(s, id), a, b); }
    hide Outlasts, Find, RemoveAt, SwapOut;
    SameOutlasts(s, a, b);
  }

  lemma SameOutlasts(s: seq<Order>, a: Id, b: Id)
    ensures Outlasts(s, s, a, b)
  {
  }

  lemma RemoveHas(s: seq<Order>, i: nat, a: Id)
    requires i < |s|
    ensures Has(RemoveAt(s, i), a) ==> Has(s, a)
  {
    CountIsPresence(s, a);
    CountIsPresence(RemoveAt(s, i), a);
  }

  lemma CancelLinkedOutlasts(c: Book, id: Id, side: Side, a: Id, b: Id)
    ensures Outlasts(CancelLinked(c, id).0.Resting(side), c.Resting(side), a, b)
  {
    if id in c.links {
      WithdrawOutlasts(c.(links := c.links - {id, c.links[id]}), c.links[id], side, a, b);
    }
  }

  lemma TailOutlasts(s: seq<Order>, a: Id, b: Id)
    requires s != []
    ensures Outlasts(s[1..], s, a, b)
  {
    assert forall o :: o in s[1..] ==> o in s;
    CountIsPresence(s, a);
    CountIsPresence(s[1..], a);
  }

  lemma TradeStepAhead(r: Run, a: Id, b: Id)
    requires r.Active() && Plain(r.Opposing(), a) && Ahead(r.Opposing(), a, b)
    ensures var t := TradeStep(r).Opposing();
      Ahead(t, a, b) && Plain(t, a) && (Has(t, a) ==> Has(r.Opposing(), a))
  {
    hide Ahead, Has;
    var side, s := r.taker.side.Opposite(), r.Opposing();
    var maker, rest := s[0], s[1..];
    assert maker in s;
    var left := maker.(remaining := maker.remaining - Min(r.taker.remaining, maker.Effective()));
    TailOutlasts(s, a, b);
    if left.remaining == 0 {
      var popped := r.book.WithResting(side, rest);
      CancelLinkedOutlasts(popped, maker.id, side, a, b);
    } else if maker.displayQty.Some? && Min(r.taker.remaining, maker.Effective()) == maker.Effective() {
      FrontOfAhead(s, a, b);
      InsertAhead(ShelfOf(side), rest, left, a, b);
      InsertMembers(ShelfOf(side), rest, left);
    } else {
      FrontAhead(s, left, a, b);
    }
  }

  /** No order called `a` is behind a front order called `b`. */
  lemma FrontOfAhead(s: seq<Order>, a: Id, b: Id)
    requires s != [] && Ahead(s, a, b)
    ensures s[0].id == b ==> !Has(s, a)
    ensures Ahead(s[1..], a, b) && (Has(s[1..], a) ==> Has(s, a))
  {
    CountIsPresence(s, a);
    CountIsPresence(s[1..], a);
  }

  lemma SelfTradeAhead(r: Run, a: Id, b: Id)
    requires r.Active() && Plain(r.Opposing(), a) && Ahead(r.Opposing(), a, b)
    ensures var t := PreventSelfTrade(r).Opposing();
      Ahead(t, a, b) && Plain(t, a) && (Has(t, a) ==> Has(r.Opposing(), a))
  {
    hide Ahead, Has;
    var s := r.Opposing();
    assert s[0] in s;
    TailOutlasts(s, a, b);
    FrontAhead(s, s[0].(remaining := s[0].remaining - r.taker.remaining), a, b);
  }

  lemma StepAhead(r: Run, a: Id, b: Id)
    requires r.Active() && Plain(r.Opposing(), a) && Ahead(r.Opposing(), a, b)
    ensures var t := Step(r).Opposing();
      Ahead(t, a, b) && Plain(t, a) && (Has(t, a) ==> Has(r.Opposing(), a))
  {
    if r.Opposing()[0].user == r.taker.user { SelfTradeAhead(r, a, b); } else { TradeStepAhead(r, a, b); }
  }

  lemma StepTrades(r: Run, b: Id)
    requires r.Active() && r.Opposing()[0].id != b
    ensures TradesWith(b, Step(r).moves) == TradesWith(b, r.moves)
  {
    var q, n := Step(r), |r.moves|;
    var maker, side := r.Opposing()[0], r.taker.side.Opposite();
    if maker.user == r.taker.user {
      assert q.moves == r.moves + q.moves[n..];
      TradesConcat(b, r.moves, q.moves[n..]);
    } else {
      var f := Fill(r.taker.id, maker.id, maker.price.Or(0), Min(r.taker.remaining, maker.Effective()), r.taker.side);
      TradesPush(b, r.moves, f);
      TradesConcat(b, r.moves + [Trade(f)], CancelLinked(r.book.WithResting(side, r.Opposing()[1..]), maker.id).1);
    }
  }

  /** An id that is not among the orders a run can meet does not get there. */
  lemma {:induction false} LoopAbsent(r: Run, queue: seq<Order>, a: Id)
    requires Live(r, queue) && !Has(r.Opposing(), a)
    ensures !Has(Loop(r, queue).Opposing(), a)
    decreases r.taker.remaining, |r.Opposing()|
  {
    if r.Active() {
      AbsentAhead(r.Opposing(), a, a);
      CountIsPresence(r.Opposing(), a);
      StepAhead(r, a, a);
      StepKeeps(r, queue);
      StepShrinks(r);
      LoopAbsent(Step(r), queue, a);
    }
  }

  /** Time priority: while an order that shows its whole size is on the book, nothing behind
    it trades. So if an order behind it was filled, it is gone. */
  lemma {:induction false} EarlierGoesFirst(r: Run, queue: seq<Order>, a: Id, b: Id)
    requires Live(r, queue) && Ahead(r.Opposing(), a, b) && Plain(r.Opposing(), a)
    ensures var q := Loop(r, queue);
      TradesWith(b, q.moves) > TradesWith(b, r.moves) ==> !Has(q.Opposing(), a)
    decreases r.taker.remaining, |r.Opposing()|
  {
    if r.Active() {
      var q := Step(r);
      StepAhead(r, a, b);
      StepKeeps(r, queue);
      StepShrinks(r);
      if r.Opposing()[0].id == b {
        FrontOfAhead(r.Opposing(), a, b);
        LoopAbsent(q, queue, a);
      } else {
        StepTrades(r, b);
        EarlierGoesFirst(q, queue, a, b);
      }
    }
  }

  /** Resting puts an order behind everything at its price and at better prices. */
  lemma {:induction false} RestsBehind(shelf: Shelf, s: seq<Order>, o: Order, a: Order)
    requires Sorted(shelf, s) && a in s && RankOf(shelf, a) <= RankOf(shelf, o)
    requires !Has(s, o.id) && Sum(Count(a.id), s) <= 1
    ensures Ahead(Insert(shelf, s, o), a.id, o.id)
  {
    var t := Insert(shelf, s, o);
    CountIsPresence(s, a.id);
    var i :| 0 <= i < |s| && s[i] == a;
    assert RankOf(shelf, s[0]) <= RankOf(shelf, s[i]);
    assert t[1..] == Insert(shelf, s[1..], o);
    CountIsPresence(s[1..], a.id);
    if s[0].id == a.id {
      NotBehind(shelf, s[1..], o, a.id);
    } else {
      RestsBehind(shelf, s[1..], o, a);
    }
  }

  lemma NotBehind(shelf: Shelf, s: seq<Order>, o: Order, a: Id)
    requires Sum(Count(a), s) == 0 && o.id != a
    ensures Ahead(Insert(shelf, s, o), a, o.id)
  {
    SumInsert(Count(a), shelf, s, o);
    CountIsPresence(Insert(shelf, s, o), a);
    AbsentAhead(Insert(shelf, s, o), a, o.id);
  }
}
