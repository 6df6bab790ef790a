/** What the open-order table makes of a stop that the cascade limit discards: the books have
  lost it, and the table goes on showing it (engine/crates/core/src/book.rs,
  engine/crates/server/src/state.rs). */
module Discards {
  import opened Orders
  import opened Ladder
  import opened Matcher
  import opened BookInvariants
  import opened Cascade
  import opened Conservation
  import opened Histories
  import opened OpenOrders
  import Voids

  ghost predicate Discarded(x: Id, moves: seq<Move>) {
    exists m :: m in moves && m.Drop? && m.dropId == x
  }

  // ---- Only a run's own order comes to rest, and none is discarded in a run ------

  ghost predicate RestsFrom(x: Id, n: nat, moves: seq<Move>) {
    exists i :: n <= i < |moves| && moves[i].Rest? && moves[i].restId == x
  }

  ghost predicate NoneRests(moves: seq<Move>) {
    forall m :: m in moves ==> !m.Rest?
  }

  ghost predicate NoneDropped(moves: seq<Move>) {
    forall m :: m in moves ==> !m.Drop?
  }

  lemma RestsInFront(x: Id, n: nat, a: seq<Move>, b: seq<Move>)
    requires NoneRests(b)
    ensures RestsFrom(x, n, a + b) ==> RestsFrom(x, n, a)
  {
    assert forall i :: |a| <= i < |a + b| ==> (a + b)[i] in b;
    assert forall i :: 0 <= i < |a| ==> (a + b)[i] == a[i];
  }

  lemma DiscardInFront(x: Id, a: seq<Move>, b: seq<Move>)
    requires NoneDropped(b)
    ensures Discarded(x, a + b) ==> Discarded(x, a)
  {
    assert forall m :: m in a + b <==> m in a || m in b;
  }

  lemma LinkedNone(b: Book, id: Id)
    ensures NoneRests(CancelLinked(b, id).1) && NoneDropped(CancelLinked(b, id).1)
  {
  }

  lemma NewNone(r: Run)
    requires r.Active()
    ensures NoneRests(Voids.New(r)) && NoneDropped(Voids.New(r))
  {
    LinkedNone(r.book.WithResting(r.taker.side.Opposite(), r.Opposing()[1..]), r.Opposing()[0].id);
    hide CancelLinked, Insert;
  }

  lemma {:induction false} LoopRests(r: Run, queue: seq<Order>, x: Id, n: nat)
    requires Live(r, queue)
    ensures RestsFrom(x, n, Loop(r, queue).moves) ==> RestsFrom(x, n, r.moves)
    ensures Discarded(x, Loop(r, queue).moves) ==> Discarded(x, r.moves)
    decreases r.taker.remaining, |r.Opposing()|
  {
    if r.Active() {
      StepKeeps(r, queue);
      StepShrinks(r);
      Voids.StepAppends(r);
      NewNone(r);
      hide Step, Voids.New, RestsFrom, NoneRests, NoneDropped, Discarded, Shaped, Distinct;
      RestsInFront(x, n, r.moves, Voids.New(r));
      DiscardInFront(x, r.moves, Voids.New(r));
      LoopRests(Step(r), queue, x, n);
    }
  }

  lemma FinishRests(q: Run, x: Id, n: nat)
    ensures q.taker.id != x ==> RestsFrom(x, n, Finish(q).moves) ==> RestsFrom(x, n, q.moves)
    ensures Discarded(x, Finish(q).moves) ==> Discarded(x, q.moves)
  {
    LinkedNone(q.book, q.taker.id);
    hide CancelLinked, Insert;
  }

  lemma {:induction false} MarkersNone(s: seq<Order>)
    ensures NoneRests(Triggered(s)) && NoneRests(Cascade.Dropped(s)) && NoneDropped(Triggered(s))
  {
    if s != [] { MarkersNone(s[..|s| - 1]); }
  }

  lemma RunOneRests(w: Work, x: Id, n: nat)
    requires WorkOk(w) && w.queue != []
    ensures w.queue[|w.queue| - 1].id != x ==> RestsFrom(x, n, RunOne(w).moves) ==> RestsFrom(x, n, w.moves)
    ensures Discarded(x, RunOne(w).moves) ==> Discarded(x, w.moves)
  {
    var others, taker := w.queue[..|w.queue| - 1], w.queue[|w.queue| - 1];
    PopQueue(w.book, w.queue);
    assert taker in w.queue;
    var r0 := Run(w.book, taker, w.moves, None, false);
    LoopRests(r0, others, x, n);
    Voids.FillOrKill.LoopSameTaker(r0, others);
    hide Loop, Finish, RestsFrom, Discarded, Shaped, Distinct;
    FinishRests(Loop(r0, others), x, n);
  }

  lemma TurnRests(w: Work, x: Id, n: nat)
    requires WorkOk(w) && w.queue != [] && w.queue[|w.queue| - 1].id != x
    ensures RestsFrom(x, n, Turn(w).moves) ==> RestsFrom(x, n, w.moves)
  {
    var others, r := w.queue[..|w.queue| - 1], RunOne(w);
    RunOneRests(w, x, n);
    hide RunOne, Due, Undue, Triggered, Cascade.Dropped, RestsFrom, Shaped, Distinct;
    match r.last
    case None => RestsInFront(x, n, r.moves, [RunEnd(None, 0)]);
    case Some(price) =>
      var due := Due(r.book, price);
      MarkersNone(due);
      RestsInFront(x, n, r.moves, [RunEnd(Some(price), |due|)]);
      RestsInFront(x, n, r.moves, [RunEnd(Some(price), 0)]);
      RestsInFront(x, n, r.moves + [RunEnd(Some(price), |due|)], Triggered(due));
      RestsInFront(x, n, r.moves + [RunEnd(Some(price), 0)], Cascade.Dropped(due));
  }

  // ---- What is gone stays unheard ------------------------------------------------

  /** Moves that take nothing from `x` and do not let it rest leave unheard what was. */
  lemma {:induction false} Untouched(x: Id, sub: Option<Id>, p: seq<Move>, q: seq<Move>)
    requires AllSound(q) && Gone(Amount(x), q) == 0 && !RestsFrom(x, |p|, p + q)
    ensures Unheard(x, sub, p + q) == Unheard(x, sub, p) && (Discarded(x, p + q) ==> Discarded(x, p))
  {
    if q == [] {
      assert p + q == p;
    } else {
      var front, last := q[..|q| - 1], q[|q| - 1];
      assert last in q && Sound(last) && forall m :: m in front ==> m in q;
      assert p + q == (p + front) + [last];
      GoneIsPositive(Amount(x), front);
      RestsLess(x, |p|, p + front, last);
      Untouched(x, sub, p, front);
      UnheardPush(x, sub, p + front, last);
      hide Gone, Unheard, RestsFrom;
    }
  }

  lemma RestsLess(x: Id, n: nat, p: seq<Move>, m: Move)
    requires !RestsFrom(x, n, p + [m])
    ensures !RestsFrom(x, n, p) && (n <= |p| ==> !(m.Rest? && m.restId == x))
  {
    assert forall i :: 0 <= i < |p| ==> (p + [m])[i] == p[i];
    assert (p + [m])[|p|] == m;
  }

  /** A discarded order is nowhere any more, and the table has not heard of it. */
  ghost predicate Lost(w: Work, x: Id, sub: Option<Id>) {
    Discarded(x, w.moves) ==> Voids.HeldAtEnd(w.book, w.queue, x) == 0 && 0 < Unheard(x, sub, w.moves)
  }

  lemma TurnBalance(w: Work, x: Id)
    requires WorkOk(w) && w.queue != [] && AllSound(w.moves)
    ensures w.moves <= Turn(w).moves && AllSound(Turn(w).moves)
    ensures Voids.HeldAtEnd(w.book, w.queue, x) ==
      Voids.HeldAtEnd(Turn(w).book, Turn(w).queue, x) + Gone(Amount(x), Turn(w).moves[|w.moves|..])
    ensures 0 <= Voids.HeldAtEnd(Turn(w).book, Turn(w).queue, x)
  {
    hide Turn, RunOne, Gone, Sum, Total, Shaped, Distinct, AllSound;
    var v := Turn(w);
    TurnExtends(w);
    TurnSound(w);
    TurnConserves(Amount(x), w);
    assert v.moves == w.moves + v.moves[|w.moves|..];
    GoneConcat(Amount(x), w.moves, v.moves[|w.moves|..]);
    Voids.WorkHolds(v, x);
  }

  lemma NotInQueue(w: Work, x: Id)
    requires WorkOk(w) && w.queue != [] && Voids.HeldAtEnd(w.book, w.queue, x) == 0
    ensures w.queue[|w.queue| - 1].id != x
  {
    var taker := w.queue[|w.queue| - 1];
    assert taker in w.queue && Restless(taker);
    PresentIffAmount(w.book, x);
    SomeIsSomething(w.queue, x);
    CountIsPresence(w.queue, x);
  }

  /** An order lost before a turn stays lost in it. */
  lemma TurnLost(w: Work, x: Id, sub: Option<Id>)
    requires WorkOk(w) && w.queue != [] && AllSound(w.moves) && Lost(w, x, sub) && Discarded(x, w.moves)
    ensures Lost(Turn(w), x, sub)
  {
    hide Turn, Voids.HeldAtEnd, Gone, Unheard, Discarded, Shaped, Distinct;
    var v := Turn(w);
    TurnBalance(w, x);
    var more := v.moves[|w.moves|..];
    assert v.moves == w.moves + more;
    GoneIsPositive(Amount(x), more);
    NotInQueue(w, x);
    TurnRests(w, x, |w.moves|);
    Untouched(x, sub, w.moves, more);
  }

  // ---- A turn that discards ------------------------------------------------------

  lemma {:induction false} DroppedIsThere(x: Id, s: seq<Order>)
    ensures Discarded(x, Cascade.Dropped(s)) ==> Has(s, x)
  {
    if s != [] {
      var front := s[..|s| - 1];
      DroppedIsThere(x, front);
      assert s == front + [s[|s| - 1]];
      if Has(front, x) { assert s[Find(front, x)].id == x; }
    }
  }

  /** Stops that are due are not waiting or queued besides. */
  lemma DueAlone(b: Book, price: int, others: seq<Order>, x: Id)
    requires Shaped(b) && Distinct(b, others) && Has(Due(b, price), x)
    ensures Voids.HeldAtEnd(Undue(b, price), others, x) == 0 && 0 < Sum(Amount(x), Due(b, price))
  {
    var c, due := Undue(b, price), Due(b, price);
    UndueKeeps(b, price, others);
    DueOk(b, price);
    hide Due, Undue, Shaped;
    assert Total(Count(x), c) + Sum(Count(x), others + due) <= 1;
    SumConcat(Count(x), others, due);
    CountIsPresence(due, x);
    CountIsPresence(others, x);
    Voids.Counts(c, x);
    SomeIsSomething(due, x);
    AbsentAmount(c, x);
    NoneIsNothing(others, x);
  }

  /** What a turn discards is lost. */
  lemma CheckLoses(b: Book, price: int, others: seq<Order>, moves: seq<Move>, depth: nat, x: Id, sub: Option<Id>)
    requires Shaped(b) && Distinct(b, others) && AllSound(moves)
    requires !Discarded(x, moves)
    ensures Lost(CheckStops(b, price, others, moves, depth), x, sub)
  {
    var due := Due(b, price);
    MarkersNone(due);
    hide Due, Undue, Triggered, Cascade.Dropped, Shaped, Distinct, Discarded, Unheard, Voids.HeldAtEnd;
    if depth < MAX_STOP_CHAIN_DEPTH {
      DiscardInFront(x, moves, [RunEnd(Some(price), |due|)]);
      DiscardInFront(x, moves + [RunEnd(Some(price), |due|)], Triggered(due));
    } else {
      var p := moves + [RunEnd(Some(price), 0)];
      DiscardInFront(x, moves, [RunEnd(Some(price), 0)]);
      if Discarded(x, p + Cascade.Dropped(due)) {
        DiscardBehind(x, p, Cascade.Dropped(due));
        DroppedIsThere(x, due);
        DueAlone(b, price, others, x);
        DroppedUnheard(x, sub, p, due);
        UnheardAtMost(x, sub, p);
      }
    }
  }

  lemma DiscardBehind(x: Id, a: seq<Move>, b: seq<Move>)
    requires Discarded(x, a + b) && !Discarded(x, a)
    ensures Discarded(x, b)
  {
    assert forall m :: m in a + b <==> m in a || m in b;
  }

  lemma TurnLoses(w: Work, x: Id, sub: Option<Id>)
    requires WorkOk(w) && w.queue != [] && AllSound(w.moves) && Lost(w, x, sub)
    ensures Lost(Turn(w), x, sub)
  {
    if Discarded(x, w.moves) {
      TurnLost(w, x, sub);
    } else {
      var others, r := w.queue[..|w.queue| - 1], RunOne(w);
      RunOneRests(w, x, 0);
      RunOneSound(w);
      hide RunOne, CheckStops, Shaped, Distinct, Discarded, Unheard, AllSound, Voids.HeldAtEnd, Lost;
      match r.last
      case None => UndiscardedEnd(r.book, others, r.moves, w.depth, x, sub);
      case Some(price) => CheckLoses(r.book, price, others, r.moves, w.depth, x, sub);
    }
  }

  lemma UndiscardedEnd(b: Book, others: seq<Order>, moves: seq<Move>, depth: nat, x: Id, sub: Option<Id>)
    requires !Discarded(x, moves)
    ensures Lost(Work(b, others, moves + [RunEnd(None, 0)], depth), x, sub)
  {
    DiscardInFront(x, moves, [RunEnd(None, 0)]);
  }

  lemma RunOneSound(w: Work)
    requires WorkOk(w) && w.queue != [] && AllSound(w.moves)
    ensures AllSound(RunOne(w).moves)
  {
    TurnSound(w);
    TurnExtends(w);
    hide RunOne, Turn;
    assert forall m :: m in RunOne(w).moves ==> m in Turn(w).moves;
  }

  lemma {:induction false} RunAllLoses(w: Work, x: Id, sub: Option<Id>)
    requires WorkOk(w) && AllSound(w.moves) && Lost(w, x, sub)
    ensures Lost(RunAll(w), x, sub)
    decreases |w.queue| + w.book.WaitingCount()
  {
    if w.queue != [] {
      TurnLoses(w, x, sub);
      TurnSound(w);
      hide Lost, Turn, AllSound;
      RunAllLoses(Turn(w), x, sub);
    }
  }

  /** A stop that a call discards is on no list afterwards, and what was left of it goes unheard
    to the end of the call. */
  lemma DiscardedIsLost(b: Book, o: Order, x: Id)
    requires Valid(b) && Fresh(b, o) && Discarded(x, Submit(b, o).1)
    ensures Total(Amount(x), Submit(b, o).0) == 0 && 0 < Unheard(x, Some(o.id), Submit(b, o).1)
  {
    if Refusal(b, o).None? && !o.kind.IsStop() {
      RunAllLoses(Start(b, o), x, Some(o.id));
      hide RunAll, Unheard, Discarded;
      Voids.EmptyQueue(Submit(b, o).0, x);
    }
  }
}
