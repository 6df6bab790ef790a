/** What becomes of waiting stops during one submitted order and the cascade it sets off. */
module StopOrders {
  import opened Orders
  import opened Ladder
  import opened Matcher
  import opened BookInvariants
  import opened Cascade

  /** The ways out of the registry while an order is processed. */
  datatype Fate = CancelledByOco | Activated | Discarded

  predicate Suffers(f: Fate, x: Id, m: Move) {
    match m
    case Void(id, _, reason, from) => f == CancelledByOco && id == x && from == Waiting && reason == OcoCancel
    case Trigger(id) => f == Activated && id == x
    case Drop(id, _) => f == Discarded && id == x
    case _ => false
  }

  function Times(f: Fate, x: Id, moves: seq<Move>): nat {
    if moves == [] then 0
    else Times(f, x, moves[..|moves| - 1]) + if Suffers(f, x, moves[|moves| - 1]) then 1 else 0
  }

  function ExitsAt(x: Id, m: Move): nat {
    if Suffers(CancelledByOco, x, m) || Suffers(Activated, x, m) || Suffers(Discarded, x, m) then 1 else 0
  }

  function Exits(x: Id, moves: seq<Move>): nat {
    if moves == [] then 0 else Exits(x, moves[..|moves| - 1]) + ExitsAt(x, moves[|moves| - 1])
  }

  lemma {:induction false} ExitsAreFates(x: Id, moves: seq<Move>)
    ensures Exits(x, moves) == Times(CancelledByOco, x, moves) + Times(Activated, x, moves) + Times(Discarded, x, moves)
  {
    if moves != [] { ExitsAreFates(x, moves[..|moves| - 1]); }
  }

  lemma {:induction false} ExitsConcat(x: Id, a: seq<Move>, b: seq<Move>)
    ensures Exits(x, a + b) == Exits(x, a) + Exits(x, b)
  {
    if b == [] {
      assert a + b == a;
    } else {
      assert (a + b)[..|a + b| - 1] == a + b[..|b| - 1];
      ExitsConcat(x, a, b[..|b| - 1]);
    }
  }

  lemma ExitsPush(x: Id, a: seq<Move>, m: Move)
    ensures Exits(x, a + [m]) == Exits(x, a) + ExitsAt(x, m)
  {
    assert (a + [m])[..|a|] == a;
  }

  lemma ExitsPush2(x: Id, a: seq<Move>, m: Move, n: Move)
    ensures Exits(x, a + [m, n]) == Exits(x, a) + ExitsAt(x, m) + ExitsAt(x, n)
  {
    assert a + [m, n] == (a + [m]) + [n];
    ExitsPush(x, a, m);
    ExitsPush(x, a + [m], n);
  }

  // ---- Registered or out, never both and never lost ------------------------------

  lemma WithdrawExits(x: Id, b: Book, id: Id)
    ensures var (c, moves) := Withdraw(b, id, OcoCancel);
      Waits(Count(x), c) + Exits(x, moves) == Waits(Count(x), b)
  {
    hide Sum, Exits, SwapOut, RemoveAt, Find;
    var moves := Withdraw(b, id, OcoCancel).1;
    NoExits(x);
    if moves != [] {
      assert moves == [] + [moves[0]];
      ExitsPush(x, [], moves[0]);
    }
    if Has(b.buyStops, id) {
      SumSwapOut(Count(x), b.buyStops, Find(b.buyStops, id));
      NamedSo(b.buyStops, id);
    } else if Has(b.sellStops, id) {
      SumSwapOut(Count(x), b.sellStops, Find(b.sellStops, id));
      NamedSo(b.sellStops, id);
    }
  }

  lemma NamedSo(s: seq<Order>, id: Id)
    requires Has(s, id)
    ensures s[Find(s, id)].id == id
  {
  }

  lemma NoExits(x: Id)
    ensures Exits(x, []) == 0
  {
  }

  lemma CancelLinkedExits(x: Id, b: Book, id: Id)
    ensures var (c, moves) := CancelLinked(b, id);
      Waits(Count(x), c) + Exits(x, moves) == Waits(Count(x), b)
  {
    hide Withdraw;
    NoExits(x);
    if id in b.links {
      WithdrawExits(x, b.(links := b.links - {id, b.links[id]}), b.links[id]);
    }
  }

  function Ever(x: Id, b: Book, moves: seq<Move>): int {
    Waits(Count(x), b) + Exits(x, moves)
  }

  lemma TradeStepExits(x: Id, r: Run)
    requires r.Active()
    ensures Ever(x, TradeStep(r).book, TradeStep(r).moves) == Ever(x, r.book, r.moves)
  {
    hide Sum, Exits;
    var side, maker, rest := r.taker.side.Opposite(), r.Opposing()[0], r.Opposing()[1..];
    var qty := Min(r.taker.remaining, maker.Effective());
    var trade := Trade(Fill(r.taker.id, maker.id, maker.price.Or(0), qty, r.taker.side));
    ExitsPush(x, r.moves, trade);
    var popped := r.book.WithResting(side, rest);
    CancelLinkedExits(x, popped, maker.id);
    ExitsConcat(x, r.moves + [trade], CancelLinked(popped, maker.id).1);
  }

  lemma SelfTradeExits(x: Id, r: Run)
    requires r.Active()
    ensures Ever(x, PreventSelfTrade(r).book, PreventSelfTrade(r).moves) == Ever(x, r.book, r.moves)
  {
    hide Sum, Exits;
    var maker := r.Opposing()[0];
    var voidTaker := Void(r.taker.id, r.taker.remaining, SelfTradePrevented, Incoming);
    var voidMaker := Void(maker.id, maker.remaining, SelfTradePrevented, Booked);
    match r.taker.stpMode
    case CancelTaker => ExitsPush(x, r.moves, voidTaker);
    case CancelMaker => ExitsPush(x, r.moves, voidMaker);
    case Decrement =>
      if r.taker.remaining < maker.remaining {
        ExitsPush2(x, r.moves, voidTaker, Shrink(maker.id, r.taker.remaining));
      } else if r.taker.remaining > maker.remaining {
        ExitsPush2(x, r.moves, voidMaker, Shrink(r.taker.id, maker.remaining));
      } else {
        ExitsPush2(x, r.moves, voidMaker, voidTaker);
      }
  }

  lemma {:induction false} LoopExits(x: Id, r: Run, queue: seq<Order>)
    requires Live(r, queue)
    ensures Ever(x, Loop(r, queue).book, Loop(r, queue).moves) == Ever(x, r.book, r.moves)
    decreases r.taker.remaining, |r.Opposing()|
  {
    if r.Active() {
      if r.Opposing()[0].user == r.taker.user { SelfTradeExits(x, r); } else { TradeStepExits(x, r); }
      StepKeeps(r, queue);
      StepShrinks(r);
      LoopExits(x, Step(r), queue);
    }
  }

  lemma TerminateExits(x: Id, r: Run, voids: seq<Move>)
    requires voids == [] || exists qty, reason :: voids == [Void(r.taker.id, qty, reason, Incoming)]
    ensures Ever(x, Terminate(r, voids).book, Terminate(r, voids).moves) == Ever(x, r.book, r.moves)
  {
    hide Sum;
    CancelLinkedExits(x, r.book, r.taker.id);
    ExitsConcat(x, r.moves + voids, CancelLinked(r.book, r.taker.id).1);
    ExitsConcat(x, r.moves, voids);
    if voids != [] {
      assert voids == [] + [voids[0]];
      ExitsPush(x, [], voids[0]);
    }
  }

  lemma FinishExits(x: Id, r: Run)
    ensures Ever(x, Finish(r).book, Finish(r).moves) == Ever(x, r.book, r.moves)
  {
    hide Sum, Exits, Terminate;
    if r.dead {
    } else if r.taker.remaining == 0 {
      TerminateExits(x, r, []);
    } else if Disposal(r.taker.kind, r.last.Some?).Some? {
      TerminateExits(x, r,
        [Void(r.taker.id, r.taker.remaining, Disposal(r.taker.kind, r.last.Some?).value, Incoming)]);
    } else {
      var rested := Rest(r.taker.id, r.taker.remaining);
      ExitsPush(x, r.moves, rested);
      ExitsPush2(x, r.moves, rested, Stray(r.taker.id, r.taker.remaining));
    }
  }

  lemma SumLast(g: Gauge, s: seq<Order>)
    requires s != []
    ensures Sum(g, s) == Sum(g, s[..|s| - 1]) + Weigh(g, s[|s| - 1])
  {
    assert s == s[..|s| - 1] + [s[|s| - 1]];
    SumConcat(g, s[..|s| - 1], [s[|s| - 1]]);
    SumOne(g, s[|s| - 1]);
  }

  lemma {:induction false} TriggeredExit(x: Id, s: seq<Order>)
    ensures Exits(x, Triggered(s)) == Sum(Count(x), s)
  {
    if s != [] {
      SumLast(Count(x), s);
      TriggeredExit(x, s[..|s| - 1]);
      hide Sum, Exits;
      ExitsPush(x, Triggered(s[..|s| - 1]), Trigger(s[|s| - 1].id));
    }
  }

  lemma {:induction false} DroppedExit(x: Id, s: seq<Order>)
    ensures Exits(x, Dropped(s)) == Sum(Count(x), s)
  {
    if s != [] {
      SumLast(Count(x), s);
      DroppedExit(x, s[..|s| - 1]);
      hide Sum, Exits;
      ExitsPush(x, Dropped(s[..|s| - 1]), Drop(s[|s| - 1].id, s[|s| - 1].remaining));
    }
  }

  lemma CheckStopsExits(x: Id, b: Book, price: int, others: seq<Order>, moves: seq<Move>, depth: nat)
    ensures var v := CheckStops(b, price, others, moves, depth);
      Ever(x, v.book, v.moves) == Ever(x, b, moves)
  {
    hide Sum, Exits, Undue, Due;
    var due := Due(b, price);
    StopsMove(Count(x), b, price);
    TriggeredExit(x, due);
    DroppedExit(x, due);
    ExitsPush(x, moves, RunEnd(Some(price), |due|));
    ExitsPush(x, moves, RunEnd(Some(price), 0));
    ExitsConcat(x, moves + [RunEnd(Some(price), |due|)], Triggered(due));
    ExitsConcat(x, moves + [RunEnd(Some(price), 0)], Dropped(due));
  }

  lemma RunOneExits(x: Id, w: Work)
    requires WorkOk(w) && w.queue != []
    ensures Ever(x, RunOne(w).book, RunOne(w).moves) == Ever(x, w.book, w.moves)
    ensures Waits(Count(x), RunOne(w).book) <= Waits(Count(x), w.book)
  {
    hide Sum, Exits;
    var others, taker := w.queue[..|w.queue| - 1], w.queue[|w.queue| - 1];
    PopQueue(w.book, w.queue);
    assert taker in w.queue;
    var r0 := Run(w.book, taker, w.moves, None, false);
    LoopExits(x, r0, others);
    FinishExits(x, Loop(r0, others));
    LoopExtends(r0, others);
    FinishAdds(Loop(r0, others));
    var more := RunOne(w).moves[|w.moves|..];
    assert RunOne(w).moves == w.moves + more;
    ExitsConcat(x, w.moves, more);
  }

  lemma TurnExits(x: Id, w: Work)
    requires WorkOk(w) && w.queue != []
    ensures Ever(x, Turn(w).book, Turn(w).moves) == Ever(x, w.book, w.moves)
  {
    hide Sum, Exits;
    var others, r := w.queue[..|w.queue| - 1], RunOne(w);
    RunOneExits(x, w);
    match r.last
    case None => ExitsPush(x, r.moves, RunEnd(None, 0));
    case Some(price) => CheckStopsExits(x, r.book, price, others, r.moves, w.depth);
  }

  lemma {:induction false} RunAllExits(x: Id, w: Work)
    requires WorkOk(w)
    ensures Ever(x, RunAll(w).book, RunAll(w).moves) == Ever(x, w.book, w.moves)
    decreases |w.queue| + w.book.WaitingCount()
  {
    if w.queue != [] {
      TurnExits(x, w);
      RunAllExits(x, Turn(w));
    }
  }

  // ---- The cascade's bounds ------------------------------------------------------

  /** How many runs there were, and how many of them had stops admitted. */
  function Runs(moves: seq<Move>): nat {
    if moves == [] then 0 else Runs(moves[..|moves| - 1]) + if moves[|moves| - 1].RunEnd? then 1 else 0
  }

  function Batches(moves: seq<Move>): nat {
    if moves == [] then 0
    else Batches(moves[..|moves| - 1]) +
         if moves[|moves| - 1].RunEnd? && moves[|moves| - 1].admitted > 0 then 1 else 0
  }

  lemma {:induction false} RunsExtend(a: seq<Move>, b: seq<Move>)
    requires forall m :: m in b ==> !m.RunEnd?
    ensures Runs(a + b) == Runs(a) && Batches(a + b) == Batches(a)
  {
    if b == [] {
      assert a + b == a;
    } else {
      assert b[|b| - 1] in b;
      assert (a + b)[..|a + b| - 1] == a + b[..|b| - 1];
      RunsExtend(a, b[..|b| - 1]);
    }
  }

  lemma RunsPush(a: seq<Move>, m: Move)
    ensures Runs(a + [m]) == Runs(a) + if m.RunEnd? then 1 else 0
    ensures Batches(a + [m]) == Batches(a) + if m.RunEnd? && m.admitted > 0 then 1 else 0
  {
    assert (a + [m])[..|a|] == a;
  }

  ghost predicate NoEnds(a: seq<Move>, b: seq<Move>) {
    a <= b && forall m :: m in b[|a|..] ==> !m.RunEnd?
  }

  lemma NoEndsRuns(a: seq<Move>, b: seq<Move>)
    requires NoEnds(a, b)
    ensures Runs(b) == Runs(a) && Batches(b) == Batches(a)
  {
    assert b == a + b[|a|..];
    RunsExtend(a, b[|a|..]);
  }

  lemma NoEndsTrans(a: seq<Move>, b: seq<Move>, c: seq<Move>)
    requires NoEnds(a, b) && NoEnds(b, c)
    ensures NoEnds(a, c)
  {
    forall m | m in c[|a|..] ensures !m.RunEnd? {
      var i :| |a| <= i < |c| && c[i] == m;
      if i < |b| { assert m == b[i] && b[i] in b[|a|..]; } else { assert m in c[|b|..]; }
    }
  }

  lemma StepNoEnds(r: Run)
    requires r.Active()
    ensures NoEnds(r.moves, Step(r).moves)
  {
  }

  lemma {:induction false} LoopNoEnds(r: Run, queue: seq<Order>)
    requires Live(r, queue)
    ensures NoEnds(r.moves, Loop(r, queue).moves)
    decreases r.taker.remaining, |r.Opposing()|
  {
    if r.Active() {
      StepNoEnds(r);
      StepKeeps(r, queue);
      StepShrinks(r);
      LoopNoEnds(Step(r), queue);
      NoEndsTrans(r.moves, Step(r).moves, Loop(r, queue).moves);
    }
  }

  /** Every turn ends one run; it admits stops only below the depth limit, and then the
    depth grows. */
  lemma TurnBounds(w: Work)
    requires WorkOk(w) && w.queue != [] && Batches(w.moves) <= w.depth && Batches(w.moves) <= MAX_STOP_CHAIN_DEPTH
    ensures Runs(Turn(w).moves) == Runs(w.moves) + 1
    ensures Batches(Turn(w).moves) <= Turn(w).depth && Batches(Turn(w).moves) <= MAX_STOP_CHAIN_DEPTH
  {
    var others, taker := w.queue[..|w.queue| - 1], w.queue[|w.queue| - 1];
    PopQueue(w.book, w.queue);
    assert taker in w.queue;
    var q := Loop(Run(w.book, taker, w.moves, None, false), others);
    LoopNoEnds(Run(w.book, taker, w.moves, None, false), others);
    FinishAdds(q);
    hide Loop, Finish, Runs, Batches, Shaped, Distinct;
    var r := RunOne(w);
    NoEndsTrans(w.moves, q.moves, r.moves);
    NoEndsRuns(w.moves, r.moves);
    match r.last
    case None => RunsPush(r.moves, RunEnd(None, 0));
    case Some(price) => CheckStopsBounds(r.book, price, others, r.moves, w.depth);
  }

  lemma CheckStopsBounds(b: Book, price: int, others: seq<Order>, moves: seq<Move>, depth: nat)
    requires Batches(moves) <= depth && Batches(moves) <= MAX_STOP_CHAIN_DEPTH
    ensures var v := CheckStops(b, price, others, moves, depth);
      Runs(v.moves) == Runs(moves) + 1 && Batches(v.moves) <= v.depth && Batches(v.moves) <= MAX_STOP_CHAIN_DEPTH
  {
    hide Runs, Batches, Due, Undue;
    var due := Due(b, price);
    MarkersQuiet(due);
    RunsPush(moves, RunEnd(Some(price), |due|));
    RunsPush(moves, RunEnd(Some(price), 0));
    RunsExtend(moves + [RunEnd(Some(price), |due|)], Triggered(due));
    RunsExtend(moves + [RunEnd(Some(price), 0)], Dropped(due));
  }

  lemma {:induction false} RunAllBounds(w: Work)
    requires WorkOk(w) && Batches(w.moves) <= w.depth && Batches(w.moves) <= MAX_STOP_CHAIN_DEPTH
    ensures Batches(RunAll(w).moves) <= MAX_STOP_CHAIN_DEPTH
    ensures Runs(RunAll(w).moves) <= Runs(w.moves) + |w.queue| + w.book.WaitingCount()
    decreases |w.queue| + w.book.WaitingCount()
  {
    if w.queue != [] {
      TurnBounds(w);
      RunAllBounds(Turn(w));
    }
  }

  // ---- What stays registered was not triggered -----------------------------------

  /** None of the stops that still wait is triggered by the price. */
  ghost predicate Untouched(b: Book, price: int) {
    && (forall o :: o in b.buyStops ==> !Triggers(o, price))
    && (forall o :: o in b.sellStops ==> !Triggers(o, price))
  }

  ghost predicate Checked(b: Book, moves: seq<Move>) {
    forall m :: m in moves && m.RunEnd? && m.last.Some? ==> Untouched(b, m.last.value)
  }

  ghost predicate FewerStops(c: Book, b: Book) {
    && (forall o :: o in c.buyStops ==> o in b.buyStops)
    && (forall o :: o in c.sellStops ==> o in b.sellStops)
  }

  lemma StepFewer(r: Run)
    requires r.Active()
    ensures FewerStops(Step(r).book, r.book)
  {
    hide Sum, Sorted, CancelLinked, Insert;
    var side, s := r.taker.side.Opposite(), r.Opposing();
    CancelLinkedWithin(r.book.WithResting(side, s[1..]), s[0].id);
  }

  lemma {:induction false} LoopFewer(r: Run, queue: seq<Order>)
    requires Live(r, queue)
    ensures FewerStops(Loop(r, queue).book, r.book)
    decreases r.taker.remaining, |r.Opposing()|
  {
    if r.Active() {
      StepFewer(r);
      StepKeeps(r, queue);
      StepShrinks(r);
      LoopFewer(Step(r), queue);
    }
  }

  lemma FinishFewer(r: Run)
    ensures FewerStops(Finish(r).book, r.book)
  {
    CancelLinkedWithin(r.book, r.taker.id);
    hide CancelLinked, Sum, Sorted;
  }

  lemma CheckedFewer(c: Book, b: Book, a: seq<Move>, moves: seq<Move>)
    requires FewerStops(c, b) && Checked(b, a) && NoEnds(a, moves)
    ensures Checked(c, moves)
  {
    forall m | m in moves && m.RunEnd? && m.last.Some? ensures Untouched(c, m.last.value) {
      assert m in a + moves[|a|..];
      assert m in a;
      assert Untouched(b, m.last.value);
    }
  }

  lemma UndueUntouched(b: Book, price: int)
    requires Shaped(b)
    ensures Untouched(Undue(b, price), price) && FewerStops(Undue(b, price), b)
  {
    UpToCuts(b.buyStops, price);
    UpToCuts(b.sellStops, price - 1);
    hide UpTo, Sorted;
    forall o | o in LaterBuys(b.buyStops, price) ensures !Triggers(o, price) && o in b.buyStops {
      assert WaitsOk(Buy, o);
    }
    forall o | o in LaterSells(b.sellStops, price) ensures !Triggers(o, price) && o in b.sellStops {
      assert WaitsOk(Sell, o);
    }
  }

  lemma {:induction false} UpToCuts(s: seq<Order>, price: int)
    requires Sorted(StopShelf, s)
    ensures forall o :: o in s[..UpTo(s, price)] ==> KeyOf(StopShelf, o) <= price
    ensures forall o :: o in s[UpTo(s, price)..] ==> KeyOf(StopShelf, o) > price
  {
    if s != [] && KeyOf(StopShelf, s[0]) <= price {
      UpToCuts(s[1..], price);
      var n := UpTo(s[1..], price);
      assert s[..n + 1] == [s[0]] + s[1..][..n];
      assert s[n + 1..] == s[1..][n..];
    } else if s != [] {
      forall o | o in s ensures KeyOf(StopShelf, o) > price {
        var i :| 0 <= i < |s| && s[i] == o;
        assert RankOf(StopShelf, s[0]) <= RankOf(StopShelf, s[i]);
      }
    }
  }

  lemma CheckStopsChecked(b: Book, price: int, others: seq<Order>, moves: seq<Move>, depth: nat)
    requires Shaped(b) && Checked(b, moves)
    ensures var v := CheckStops(b, price, others, moves, depth); Checked(v.book, v.moves)
  {
    var v := CheckStops(b, price, others, moves, depth);
    UndueUntouched(b, price);
    MarkersQuiet(Due(b, price));
    hide Due, Undue, Triggered, Dropped, Shaped;
    forall m | m in v.moves && m.RunEnd? && m.last.Some? ensures Untouched(v.book, m.last.value) {
      if m in moves { assert Untouched(b, m.last.value); }
    }
  }

  lemma TurnChecked(w: Work)
    requires WorkOk(w) && w.queue != [] && Checked(w.book, w.moves)
    ensures Checked(Turn(w).book, Turn(w).moves)
  {
    var others, taker := w.queue[..|w.queue| - 1], w.queue[|w.queue| - 1];
    PopQueue(w.book, w.queue);
    assert taker in w.queue;
    var r0 := Run(w.book, taker, w.moves, None, false);
    var q := Loop(r0, others);
    LoopFewer(r0, others);
    LoopNoEnds(r0, others);
    FinishFewer(q);
    FinishAdds(q);
    hide Loop, Finish, Distinct;
    var r := RunOne(w);
    CheckedFewer(q.book, w.book, w.moves, q.moves);
    CheckedFewer(r.book, q.book, q.moves, r.moves);
    match r.last
    case None =>
    case Some(price) => CheckStopsChecked(r.book, price, others, r.moves, w.depth);
  }

  lemma {:induction false} RunAllChecked(w: Work)
    requires WorkOk(w) && Checked(w.book, w.moves)
    ensures Checked(RunAll(w).book, RunAll(w).moves)
    decreases |w.queue| + w.book.WaitingCount()
  {
    if w.queue != [] {
      TurnChecked(w);
      RunAllChecked(Turn(w));
    }
  }

  // ---- The results ---------------------------------------------------------------

  /** A stop that waited when an order came in is still waiting, untouched by the last trade
    price of every run, or it left once: by its OCO partner's end, by being triggered, or by
    being discarded at the depth limit. */
  lemma EachStopEndsOnce(b: Book, o: Order, stop: Order)
    requires Valid(b) && Fresh(b, o) && !o.kind.IsStop()
    requires stop in b.buyStops || stop in b.sellStops
    ensures var (c, moves) := Submit(b, o);
      && Waits(Count(stop.id), c) + Times(CancelledByOco, stop.id, moves)
         + Times(Activated, stop.id, moves) + Times(Discarded, stop.id, moves) == 1
      && Checked(c, moves)
  {
    var x := stop.id;
    assert Total(Count(x), b) + Sum(Count(x), []) <= 1;
    CountIsPresence(b.bids, x);
    CountIsPresence(b.asks, x);
    CountIsPresence(b.buyStops, x);
    CountIsPresence(b.sellStops, x);
    hide Sum, Times, Exits;
    var moves := Submit(b, o).1;
    ExitsAreFates(x, moves);
    NoExits(x);
    if Refusal(b, o).Some? {
      assert moves == [] + [moves[0]];
      ExitsPush(x, [], moves[0]);
    } else {
      RunAllExits(x, Start(b, o));
      RunAllChecked(Start(b, o));
    }
  }

  /** An order causes at most one run more than there were stops, and at most 16 batches of
    stops are admitted. */
  lemma CascadeIsBounded(b: Book, o: Order)
    requires Valid(b) && Fresh(b, o)
    ensures Runs(Submit(b, o).1) <= 1 + b.WaitingCount()
    ensures Batches(Submit(b, o).1) <= 16
  {
    var moves := Submit(b, o).1;
    if Refusal(b, o).None? && !o.kind.IsStop() {
      RunAllBounds(Start(b, o));
    } else {
      assert moves == [] + [moves[0]];
      RunsPush([], moves[0]);
    }
  }
}
