/** Calls in which nothing goes silently, so that the table of open orders hears of everything: what
  can be seen of that on the book before the call (engine/crates/core/src/book.rs). */
module Audible {
  import opened Orders
  import opened Ladder
  import opened Matcher
  import opened BookInvariants
  import opened Cascade
  import opened Conservation
  import opened Histories
  import opened StopOrders
  import opened OpenOrders
  import opened Wire
  import opened Voids
  import Partners
  import FillOrKill

  ghost predicate NoneInDecrement(s: seq<Order>) {
    forall o :: o in s ==> o.stpMode != Decrement
  }

  /** The order takes no quantity off its owner's orders: it is not in Decrement mode, or has none
    of them in reach. */
  ghost predicate Gentle(r: Run) {
    r.taker.stpMode != Decrement || Partners.NoneReached(r.Opposing(), r.taker)
  }

  ghost predicate NoShrinks(moves: seq<Move>) {
    forall m :: m in moves ==> !m.Shrink?
  }

  ghost predicate NoDrops(moves: seq<Move>) {
    forall m :: m in moves ==> !m.Drop?
  }

  ghost predicate Loud(moves: seq<Move>) {
    NoShrinks(moves) && NoDrops(moves)
  }

  lemma LoudConcat(a: seq<Move>, b: seq<Move>)
    ensures Loud(a + b) <==> Loud(a) && Loud(b)
  {
    assert forall m :: m in a + b <==> m in a || m in b;
  }

  // ---- A run ---------------------------------------------------------------------

  lemma LinkedLoud(b: Book, id: Id)
    ensures Loud(CancelLinked(b, id).1)
  {
  }

  lemma StepGentle(r: Run)
    requires r.Active() && Gentle(r)
    ensures Loud(New(r))
  {
    assert r.Opposing()[0] in r.Opposing();
    LinkedLoud(r.book.WithResting(r.taker.side.Opposite(), r.Opposing()[1..]), r.Opposing()[0].id);
    hide CancelLinked, Insert;
  }

  lemma StaysGentle(r: Run)
    requires r.Active() && Shaped(r.book) && Gentle(r)
    ensures Gentle(Step(r))
  {
    Partners.StepMembers(r, r.taker.side.Opposite());
    StepShrinks(r);
    hide Step, Shaped;
  }

  lemma {:induction false} LoopLoud(r: Run, queue: seq<Order>)
    requires Live(r, queue) && Gentle(r) && Loud(r.moves)
    ensures Loud(Loop(r, queue).moves)
    decreases r.taker.remaining, |r.Opposing()|
  {
    if r.Active() {
      StepKeeps(r, queue);
      StepShrinks(r);
      StepGentle(r);
      StaysGentle(r);
      StepAppends(r);
      hide Step, New, Gentle, Loud, Shaped, Distinct;
      LoudConcat(r.moves, New(r));
      LoopLoud(Step(r), queue);
    }
  }

  lemma FinishLoud(q: Run)
    requires Loud(q.moves)
    ensures Loud(Finish(q).moves)
  {
    hide CancelLinked, Insert, Finish;
    LinkedLoud(q.book, q.taker.id);
    LoudConcat(q.moves, Partners.Ending(q));
  }

  // ---- The cascade ---------------------------------------------------------------

  /** No stop that may still be set off takes off its owner's orders, and there are too few for
    the limit. */
  ghost predicate Ready(w: Work) {
    && NoneInDecrement(w.book.buyStops) && NoneInDecrement(w.book.sellStops)
    && w.depth + w.book.WaitingCount() <= MAX_STOP_CHAIN_DEPTH
  }

  lemma {:induction false} TriggeredLoud(s: seq<Order>)
    ensures Loud(Triggered(s))
  {
    if s != [] { TriggeredLoud(s[..|s| - 1]); }
  }

  lemma ActivatedMode(t: seq<Order>, s: seq<Order>)
    requires NoneInDecrement(s) && forall o :: o in t ==> o in s
    ensures NoneInDecrement(ActivateAll(t))
  {
    forall i | 0 <= i < |t| ensures ActivateAll(t)[i].stpMode != Decrement {
      ActivateAllAt(t, i);
      assert t[i] in t;
    }
  }

  lemma DueMode(b: Book, price: int)
    requires NoneInDecrement(b.buyStops) && NoneInDecrement(b.sellStops)
    ensures NoneInDecrement(Due(b, price))
    ensures NoneInDecrement(Undue(b, price).buyStops) && NoneInDecrement(Undue(b, price).sellStops)
  {
    ActivatedMode(b.buyStops[..UpTo(b.buyStops, price)], b.buyStops);
    ActivatedMode(b.sellStops[UpTo(b.sellStops, price - 1)..], b.sellStops);
  }

  lemma CheckLoud(b: Book, price: int, others: seq<Order>, moves: seq<Move>, depth: nat)
    requires Shaped(b) && Distinct(b, others) && Ready(Work(b, others, moves, depth)) && NoneInDecrement(others) && Loud(moves)
    ensures var v := CheckStops(b, price, others, moves, depth); Ready(v) && NoneInDecrement(v.queue) && Loud(v.moves)
  {
    var due := Due(b, price);
    DueMode(b, price);
    UndueKeeps(b, price, others);
    TriggeredLoud(due);
    hide Due, Undue, Triggered, Cascade.Dropped, Shaped, Distinct;
    LoudConcat(moves, [RunEnd(Some(price), |due|)]);
    LoudConcat(moves, [RunEnd(Some(price), 0)]);
    LoudConcat(moves + [RunEnd(Some(price), |due|)], Triggered(due));
    if depth >= MAX_STOP_CHAIN_DEPTH {
      assert due == [];
      NoneDropped(due);
      LoudConcat(moves + [RunEnd(Some(price), 0)], Cascade.Dropped(due));
    }
  }

  lemma NoneDropped(s: seq<Order>)
    requires s == []
    ensures Loud(Cascade.Dropped(s))
  {
  }

  /** A turn with a gentle order, and none in Decrement mode queued behind it. */
  lemma TurnLoud(w: Work)
    requires WorkOk(w) && w.queue != [] && Ready(w) && Loud(w.moves)
    requires NoneInDecrement(w.queue[..|w.queue| - 1]) && Gentle(Run(w.book, w.queue[|w.queue| - 1], w.moves, None, false))
    ensures Ready(Turn(w)) && NoneInDecrement(Turn(w).queue) && Loud(Turn(w).moves)
  {
    var others, taker := w.queue[..|w.queue| - 1], w.queue[|w.queue| - 1];
    PopQueue(w.book, w.queue);
    assert taker in w.queue && forall o :: o in others ==> o in w.queue;
    var r0 := Run(w.book, taker, w.moves, None, false);
    LoopLoud(r0, others);
    FinishLoud(Loop(r0, others));
    LoopFewer(r0, others);
    FinishFewer(Loop(r0, others));
    hide Loop, Finish, CheckStops, Loud, Gentle, Shaped, Distinct;
    var r := RunOne(w);
    match r.last
    case None => EndLoud(r.moves);
    case Some(price) => CheckLoud(r.book, price, others, r.moves, w.depth);
  }

  lemma EndLoud(moves: seq<Move>)
    requires Loud(moves)
    ensures Loud(moves + [RunEnd(None, 0)])
  {
    LoudConcat(moves, [RunEnd(None, 0)]);
  }

  lemma {:induction false} RunAllLoud(w: Work)
    requires WorkOk(w) && Ready(w) && NoneInDecrement(w.queue) && Loud(w.moves)
    ensures Loud(RunAll(w).moves)
    decreases |w.queue| + w.book.WaitingCount()
  {
    if w.queue != [] {
      assert w.queue[|w.queue| - 1] in w.queue && forall o :: o in w.queue[..|w.queue| - 1] ==> o in w.queue;
      hide Loud, Turn, Ready;
      TurnLoud(w);
      RunAllLoud(Turn(w));
    }
  }

  // ---- A call --------------------------------------------------------------------

  /** What a caller can see before the call: the order, if it is in Decrement mode, has none of its
    owner's orders in reach; no stop in Decrement mode waits, and no more than 16 stops do. */
  ghost predicate Calm(b: Book, o: Order) {
    && (o.stpMode == Decrement ==> Partners.NoneReached(b.Resting(o.side.Opposite()), o))
    && NoneInDecrement(b.buyStops) && NoneInDecrement(b.sellStops) && b.WaitingCount() <= MAX_STOP_CHAIN_DEPTH
  }

  lemma {:induction false} LoudIsHeard(x: Id, sub: Option<Id>, moves: seq<Move>)
    requires Loud(moves) && NoStrays(moves)
    ensures Unheard(x, sub, moves) == 0
  {
    if moves != [] {
      var front, last := moves[..|moves| - 1], moves[|moves| - 1];
      assert moves == front + [last];
      assert last in moves && forall m :: m in front ==> m in moves;
      LoudIsHeard(x, sub, front);
      hide Rests;
    }
  }

  /** On a calm book nothing of the call goes unheard. */
  lemma CalmIsHeard(b: Book, o: Order, x: Id)
    requires Valid(b) && Fresh(b, o) && StopsPriced(b) && Priced(o) && Calm(b, o)
    ensures Unheard(x, Some(o.id), Submit(b, o).1) == 0
  {
    SubmitPriced(b, o);
    CalmIsLoud(b, o);
    hide Submit, Loud, Shaped, Distinct, Calm;
    LoudIsHeard(x, Some(o.id), Submit(b, o).1);
  }

  lemma CalmIsLoud(b: Book, o: Order)
    requires Valid(b) && Fresh(b, o) && Calm(b, o)
    ensures Loud(Submit(b, o).1)
  {
    if Refusal(b, o).None? && !o.kind.IsStop() {
      var w := Start(b, o);
      PopQueue(b, [o]);
      assert w.queue[..0] == [];
      hide Turn, Shaped, Distinct, Refusal;
      TurnLoud(w);
      RunAllLoud(Turn(w));
    }
  }
}
