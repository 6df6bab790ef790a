/** What becomes of an OCO pair over a whole call. The book's documentation promises that when one
  leg is done the other is cancelled; that fails for the exits that do not look at links and for a
  leg that is in flight, and holds otherwise. When exactly is in `Partners`, for the moment at which
  a leg is done (engine/crates/core/src/book.rs). */
module Legs {
  import opened Orders
  import opened Ladder
  import opened Matcher
  import opened BookInvariants
  import opened Cascade
  import opened Conservation
  import opened Histories
  import opened Voids
  import opened Pairs

  /** The order left by an exit that does not look at links: self-trade prevention, the cascade
    limit, or, without a price, into nothing. */
  predicate LeftUnlinked(x: Id, m: Move) {
    match m
    case Void(id, _, reason, _) => id == x && reason == SelfTradePrevented
    case Drop(id, _) => id == x
    case Stray(id, _) => id == x
    case _ => false
  }

  ghost predicate Excused(x: Id, moves: seq<Move>) {
    exists m :: m in moves && LeftUnlinked(x, m)
  }

  /** The order was in flight during the call: submitted, or triggered. */
  ghost predicate Flew(x: Id, first: Id, moves: seq<Move>) {
    x == first || exists m :: m in moves && m.Trigger? && m.triggerId == x
  }

  lemma MoreMoves(x: Id, first: Id, a: seq<Move>, b: seq<Move>)
    requires a <= b
    ensures Excused(x, a) ==> Excused(x, b)
    ensures Flew(x, first, a) ==> Flew(x, first, b)
  {
    assert forall m :: m in a ==> m in b;
  }

  /** There at the start of the call. */
  predicate Alive(base: Book, first: Id, x: Id) {
    0 < Total(Amount(x), base) || x == first
  }

  /** Links are never new; one that is gone has left its order off the book, or in flight, and one
    that is there has its order still held, or excused. The taker's own link is looked at when its run ends. */
  ghost predicate Kept(b: Book, queue: seq<Order>, moves: seq<Move>, base: Book, first: Id, x: Id) {
    x in b.links && Alive(base, first, x) ==> 0 < HeldAtEnd(b, queue, x) || Excused(x, moves)
  }

  ghost predicate Dissolved(b: Book, moves: seq<Move>, base: Book, first: Id, x: Id) {
    && (x in b.links ==> x in base.links && b.links[x] == base.links[x])
    && (x in base.links && x !in b.links ==> Total(Amount(x), b) == 0 || Flew(x, first, moves))
  }

  ghost predicate RunPair(r: Run, queue: seq<Order>, base: Book, first: Id, x: Id) {
    && Dissolved(r.book, r.moves, base, first, x)
    && (x != r.taker.id ==> Kept(r.book, queue, r.moves, base, first, x))
  }

  // ---- A step --------------------------------------------------------------------

  /** What a step takes from any order but the taker comes off the book. */
  lemma StepTakes(r: Run, queue: seq<Order>, x: Id)
    requires Live(r, queue) && r.Active() && x != r.taker.id
    ensures Total(Amount(x), r.book) == Total(Amount(x), Step(r).book) + Gone(Amount(x), New(r))
    ensures 0 <= Gone(Amount(x), New(r)) && 0 <= Total(Amount(x), Step(r).book)
  {
    StepHolds(r, queue, x);
    NewSound(r, queue);
    StepKeeps(r, queue);
    StepShrinks(r);
    PresentIffAmount(Step(r).book, x);
    GoneIsPositive(Amount(x), New(r));
    hide Step, New, Total, Gone, Shaped, Distinct;
  }

  /** The front order and those whose link goes are all that a step touches. */
  lemma StepSpares(r: Run, x: Id)
    requires r.Active() && x != r.taker.id && x != r.Opposing()[0].id && x in Step(r).book.links
    ensures Gone(Amount(x), New(r)) == 0
  {
    var maker, moves := r.Opposing()[0], New(r);
    if maker.user != r.taker.user {
      hide CancelLinked, Insert, Gone;
      var popped := r.book.WithResting(r.taker.side.Opposite(), r.Opposing()[1..]);
      var cancels := CancelLinked(popped, maker.id).1;
      LinkedSpares(popped, maker.id, x);
      assert moves == [moves[0]] || moves == [moves[0]] + cancels;
      GoneOne(Amount(x), moves[0]);
      GoneConcat(Amount(x), [moves[0]], cancels);
    } else {
      hide Gone, Insert;
      GoneOne(Amount(x), moves[0]);
      if |moves| == 1 {
        assert moves == [moves[0]];
      } else {
        assert moves == [moves[0]] + [moves[1]];
        GoneOne(Amount(x), moves[1]);
        GoneConcat(Amount(x), [moves[0]], [moves[1]]);
      }
    }
  }

  lemma LinkedSpares(b: Book, id: Id, x: Id)
    ensures x in CancelLinked(b, id).0.links ==> Gone(Amount(x), CancelLinked(b, id).1) == 0
  {
    var moves := CancelLinked(b, id).1;
    if id in b.links { LinksKept(b.(links := b.links - {id, b.links[id]}), b.links[id], OcoCancel); }
    if moves != [] {
      assert moves == [moves[0]];
      GoneOne(Amount(x), moves[0]);
    }
  }

  /** After the step the front order is still on the book, excused, or its pair is dissolved. */
  lemma FrontKept(r: Run, queue: seq<Order>)
    requires Live(r, queue) && r.Active()
    ensures var id, q := r.Opposing()[0].id, Step(r);
      id in q.book.links ==> 0 < Total(Amount(id), q.book) || Excused(id, q.moves)
  {
    var side, maker, q := r.taker.side.Opposite(), r.Opposing()[0], Step(r);
    StepKeeps(r, queue);
    StepShrinks(r);
    PresentIffAmount(q.book, maker.id);
    CountIsPresence(q.book.bids, maker.id);
    CountIsPresence(q.book.asks, maker.id);
    CountIsPresence(q.book.buyStops, maker.id);
    CountIsPresence(q.book.sellStops, maker.id);
    if maker.user == r.taker.user {
      OwnFrontKept(r);
    } else {
      ForeignFrontKept(r, queue);
    }
  }

  lemma OwnFrontKept(r: Run)
    requires r.Active() && r.Opposing()[0].user == r.taker.user
    ensures var id, q := r.Opposing()[0].id, Step(r);
      Excused(id, q.moves) || exists o :: o in q.book.Resting(r.taker.side.Opposite()) && o.id == id
  {
    var maker, q := r.Opposing()[0], Step(r);
    var void := Void(maker.id, maker.remaining, SelfTradePrevented, Booked);
    if void in q.moves {
      assert LeftUnlinked(maker.id, void);
    } else {
      assert q.book.Resting(r.taker.side.Opposite())[0].id == maker.id;
    }
  }

  lemma ForeignFrontKept(r: Run, queue: seq<Order>)
    requires Live(r, queue) && r.Active() && r.Opposing()[0].user != r.taker.user
    ensures var id, q := r.Opposing()[0].id, Step(r);
      id in q.book.links ==> exists o :: o in q.book.Resting(r.taker.side.Opposite()) && o.id == id
  {
    var side, maker, rest := r.taker.side.Opposite(), r.Opposing()[0], r.Opposing()[1..];
    var left := maker.(remaining := maker.remaining - Min(r.taker.remaining, maker.Effective()));
    if left.remaining == 0 {
      UsedUpMakerTakesPartner(r, queue);
    } else {
      InsertMembers(ShelfOf(side), rest, left);
      assert left in Step(r).book.Resting(side);
    }
  }

  /** A step only takes links away, those of the front order and its partner, and only when it
    uses the front order up. */
  lemma StepUnlinks(r: Run, queue: seq<Order>)
    requires Live(r, queue) && r.Active()
    ensures var id, links := r.Opposing()[0].id, Step(r).book.links;
      || links == r.book.links
      || (id in r.book.links && links == r.book.links - {id, r.book.links[id]} && PartnerGone(r.book, Step(r).book, id)
          && Total(Amount(id), Step(r).book) == 0)
  {
    var side, maker := r.taker.side.Opposite(), r.Opposing()[0];
    var popped := r.book.WithResting(side, r.Opposing()[1..]);
    hide CancelLinked, Insert, Total, Shaped, Distinct, PartnerGone;
    if maker.user != r.taker.user && maker.remaining == Min(r.taker.remaining, maker.Effective()) && maker.id in r.book.links {
      UsedUpMakerTakesPartner(r, queue);
      FrontAlone(r.book, side, [r.taker] + queue);
      PopFront(r.book, side, [r.taker] + queue);
      LinkedLinks(popped, maker.id);
      UsedUpIsGone(popped, maker.id);
    }
  }

  lemma UsedUpIsGone(b: Book, id: Id)
    requires Total(Amount(id), b) == 0 && Shaped(b)
    ensures Total(Amount(id), CancelLinked(b, id).0) == 0
  {
    CancelLinkedConserves(Amount(id), b, id);
    CancelLinkedSound(b, id);
    GoneIsPositive(Amount(id), CancelLinked(b, id).1);
    CancelLinkedWithin(b, id);
    WithinShaped(CancelLinked(b, id).0, b);
    PresentIffAmount(CancelLinked(b, id).0, id);
  }

  lemma QueueHolds(b: Book, queue: seq<Order>, x: Id)
    requires Voids.Waiting(queue)
    ensures Total(Amount(x), b) <= HeldAtEnd(b, queue, x)
  {
    SomeIsSomething(queue, x);
  }

  lemma PartnerOff(b: Book, c: Book, id: Id)
    requires PartnerGone(b, c, id) && id in b.links
    ensures Total(Amount(b.links[id]), c) == 0
  {
    AbsentAmount(c, b.links[id]);
  }

  lemma TotalNonNegative(b: Book, x: Id)
    requires Shaped(b)
    ensures 0 <= Total(Amount(x), b)
  {
    PresentIffAmount(b, x);
  }

  lemma StepDissolves(r: Run, queue: seq<Order>, base: Book, first: Id, x: Id)
    requires Live(r, queue) && r.Active() && Flew(r.taker.id, first, r.moves)
    requires Dissolved(r.book, r.moves, base, first, x)
    ensures Dissolved(Step(r).book, Step(r).moves, base, first, x)
  {
    var q, id := Step(r), r.Opposing()[0].id;
    StepUnlinks(r, queue);
    StepExtends(r);
    MoreMoves(x, first, r.moves, q.moves);
    hide Step, Flew, Total, New, Shaped, Distinct;
    if x != r.taker.id {
      StepTakes(r, queue, x);
      TotalNonNegative(r.book, x);
      if id in r.book.links && q.book.links != r.book.links { PartnerOff(r.book, q.book, id); }
    }
  }

  lemma StepKeepsPair(r: Run, queue: seq<Order>, base: Book, first: Id, x: Id)
    requires Live(r, queue) && r.Active() && Voids.Waiting(queue) && x != r.taker.id
    requires Kept(r.book, queue, r.moves, base, first, x)
    ensures Kept(Step(r).book, queue, Step(r).moves, base, first, x)
  {
    var q := Step(r);
    StepExtends(r);
    MoreMoves(x, first, r.moves, q.moves);
    StepUnlinks(r, queue);
    QueueHolds(q.book, queue, x);
    FrontKept(r, queue);
    if x in q.book.links && x != r.Opposing()[0].id {
      StepSpares(r, x);
      StepTakes(r, queue, x);
    }
    hide Step, Total, New, Shaped, Distinct, Excused;
  }

  // ---- A run ---------------------------------------------------------------------

  lemma DeadIsExcused(r: Run)
    requires r.Active() && Step(r).dead
    ensures Excused(r.taker.id, Step(r).moves)
  {
    var void := Void(r.taker.id, r.taker.remaining, SelfTradePrevented, Incoming);
    assert void in Step(r).moves && LeftUnlinked(r.taker.id, void);
  }

  /** The taker is in flight, and excused once self-trade prevention has ended its run. */
  ghost predicate TakerFlies(r: Run, first: Id) {
    Flew(r.taker.id, first, r.moves) && (r.dead ==> Excused(r.taker.id, r.moves))
  }

  lemma StepFlies(r: Run, first: Id)
    requires r.Active() && TakerFlies(r, first)
    ensures TakerFlies(Step(r), first) && Step(r).taker.id == r.taker.id
  {
    StepExtends(r);
    MoreMoves(r.taker.id, first, r.moves, Step(r).moves);
    if Step(r).dead { DeadIsExcused(r); }
    hide Flew, Excused;
  }

  lemma {:induction false} LoopPair(r: Run, queue: seq<Order>, base: Book, first: Id, x: Id)
    requires Live(r, queue) && Voids.Waiting(queue) && RunPair(r, queue, base, first, x) && TakerFlies(r, first)
    ensures RunPair(Loop(r, queue), queue, base, first, x) && TakerFlies(Loop(r, queue), first)
    decreases r.taker.remaining, |r.Opposing()|
  {
    if r.Active() {
      StepKeeps(r, queue);
      StepShrinks(r);
      StepFlies(r, first);
      StepDissolves(r, queue, base, first, x);
      if x != r.taker.id { StepKeepsPair(r, queue, base, first, x); }
      hide Step, Dissolved, Kept, TakerFlies, Shaped, Distinct;
      LoopPair(Step(r), queue, base, first, x);
    }
  }

  /** Its run over, what a finished order was linked to goes with it. */
  lemma TerminatePair(r: Run, voids: seq<Move>, queue: seq<Order>, base: Book, first: Id, x: Id)
    requires Live(r, queue) && Voids.Waiting(queue) && RunPair(r, queue, base, first, x) && TakerFlies(r, first)
    ensures var q := Terminate(r, voids);
      Dissolved(q.book, q.moves, base, first, x) && Kept(q.book, queue, q.moves, base, first, x)
  {
    var q, id := Terminate(r, voids), r.taker.id;
    var (c, cancels) := CancelLinked(r.book, id);
    AtMostOne(r.book, [r.taker] + queue);
    LinkedGoes(r.book, id);
    LinkedSpares(r.book, id, x);
    CancelLinkedConserves(Amount(x), r.book, id);
    CancelLinkedSound(r.book, id);
    GoneIsPositive(Amount(x), cancels);
    CancelLinkedWithin(r.book, id);
    WithinShaped(c, r.book);
    TotalNonNegative(c, x);
    LinkedLinks(r.book, id);
    hide CancelLinked, Total, Gone, Flew, Excused, Shaped, Distinct, AllSound;
    MoreMoves(x, first, r.moves, q.moves);
    if id in r.book.links { PartnerOff(r.book, c, id); }
  }

  lemma LinkedLinks(b: Book, id: Id)
    ensures CancelLinked(b, id).0.links == if id in b.links then b.links - {id, b.links[id]} else b.links
  {
    if id in b.links { LinksKept(b.(links := b.links - {id, b.links[id]}), b.links[id], OcoCancel); }
    hide Withdraw;
  }

  /** The order that comes to rest is on the book from then on, and the others are where they were. */
  lemma SettleHolds(r: Run, x: Id)
    requires 0 < r.taker.remaining && r.taker.price.Some?
    ensures Settle(r).book.links == r.book.links
    ensures Total(Amount(x), Settle(r).book) == Total(Amount(x), r.book) + Weigh(Amount(x), r.taker)
  {
    var side := r.taker.side;
    hide Insert, Sum;
    SumInsert(Amount(x), ShelfOf(side), r.book.Resting(side), r.taker);
    SideTotal(Amount(x), r.book, side, Settle(r).book.Resting(side));
  }

  lemma SettlePair(r: Run, queue: seq<Order>, base: Book, first: Id, x: Id)
    requires Live(r, queue) && Voids.Waiting(queue) && RunPair(r, queue, base, first, x) && TakerFlies(r, first)
    requires 0 < r.taker.remaining
    ensures var q := Settle(r);
      Dissolved(q.book, q.moves, base, first, x) && Kept(q.book, queue, q.moves, base, first, x)
  {
    var q := Settle(r);
    TotalNonNegative(r.book, x);
    SettleAdds(r);
    MoreMoves(x, first, r.moves, q.moves);
    if r.taker.price.None? {
      var stray := Stray(r.taker.id, r.taker.remaining);
      assert stray in q.moves && LeftUnlinked(r.taker.id, stray);
      hide Sum, Flew, Shaped, Distinct;
    } else {
      hide Settle, Flew, Excused, Shaped, Distinct, Total;
      QueueHolds(q.book, queue, x);
      SettleHolds(r, x);
    }
  }

  lemma FinishPair(r: Run, queue: seq<Order>, base: Book, first: Id, x: Id)
    requires Live(r, queue) && !r.Active() && Voids.Waiting(queue)
    requires RunPair(r, queue, base, first, x) && TakerFlies(r, first)
    ensures var q := Finish(r);
      Dissolved(q.book, q.moves, base, first, x) && Kept(q.book, queue, q.moves, base, first, x)
  {
    FinishKeeps(r, queue);
    hide Terminate, Settle, Dissolved, Shaped, Distinct, Excused, Flew;
    if !r.dead {
      if r.taker.remaining == 0 {
        TerminatePair(r, [], queue, base, first, x);
      } else {
        match Disposal(r.taker.kind, r.last.Some?)
        case Some(reason) =>
          TerminatePair(r, [Void(r.taker.id, r.taker.remaining, reason, Incoming)], queue, base, first, x);
        case None => SettlePair(r, queue, base, first, x);
      }
    }
  }

  // ---- The cascade ---------------------------------------------------------------

  ghost predicate AllFly(queue: seq<Order>, first: Id, moves: seq<Move>) {
    forall o :: o in queue ==> Flew(o.id, first, moves)
  }

  ghost predicate WorkPair(w: Work, base: Book, first: Id, x: Id) {
    && Dissolved(w.book, w.moves, base, first, x) && Kept(w.book, w.queue, w.moves, base, first, x)
    && AllFly(w.queue, first, w.moves)
  }

  lemma StillFly(queue: seq<Order>, first: Id, a: seq<Move>, b: seq<Move>)
    requires AllFly(queue, first, a) && a <= b
    ensures AllFly(queue, first, b)
  {
    forall o | o in queue ensures Flew(o.id, first, b) { MoreMoves(o.id, first, a, b); }
  }

  lemma RunOnePair(w: Work, base: Book, first: Id, x: Id)
    requires WorkOk(w) && w.queue != [] && WorkPair(w, base, first, x)
    ensures var r, others := RunOne(w), w.queue[..|w.queue| - 1];
      Dissolved(r.book, r.moves, base, first, x) && Kept(r.book, others, r.moves, base, first, x)
  {
    var others, taker := w.queue[..|w.queue| - 1], w.queue[|w.queue| - 1];
    var r0 := Run(w.book, taker, w.moves, None, false);
    assert w.queue == others + [taker];
    SumConcat(Amount(x), others, [taker]);
    SumOne(Amount(x), taker);
    PopQueue(w.book, w.queue);
    assert taker in w.queue;
    assert forall o :: o in others ==> o in w.queue;
    hide Sum, Total, Finish, Dissolved, Excused, Flew;
    LoopPair(r0, others, base, first, x);
    hide Loop;
    FinishPair(Loop(r0, others), others, base, first, x);
  }

  lemma {:induction false} TriggeredFly(s: seq<Order>, first: Id)
    ensures AllFly(s, first, Triggered(s))
  {
    if s != [] {
      var front, last := s[..|s| - 1], s[|s| - 1];
      TriggeredFly(front, first);
      StillFly(front, first, Triggered(front), Triggered(s));
      assert s == front + [last];
      assert Trigger(last.id) in Triggered(s);
    }
  }

  lemma FlyBehind(queue: seq<Order>, first: Id, a: seq<Move>, b: seq<Move>)
    requires AllFly(queue, first, b)
    ensures AllFly(queue, first, a + b)
  {
    assert forall m :: m in b ==> m in a + b;
  }

  lemma {:induction false} DroppedExcuses(s: seq<Order>, x: Id)
    requires Has(s, x)
    ensures Excused(x, Cascade.Dropped(s))
  {
    var front, last := s[..|s| - 1], s[|s| - 1];
    var moves := Cascade.Dropped(s);
    assert s == front + [last];
    if last.id == x {
      assert Drop(x, last.remaining) in moves && LeftUnlinked(x, Drop(x, last.remaining));
    } else {
      var i := Find(s, x);
      assert front[i].id == x;
      DroppedExcuses(front, x);
      MoreMoves(x, 0, Cascade.Dropped(front), moves);
    }
  }

  lemma ExcusedBehind(x: Id, a: seq<Move>, b: seq<Move>)
    requires Excused(x, b)
    ensures Excused(x, a + b)
  {
    assert forall m :: m in b ==> m in a + b;
  }

  lemma CheckPair(b: Book, price: int, others: seq<Order>, moves: seq<Move>, depth: nat, base: Book, first: Id, x: Id)
    requires Shaped(b) && AllFly(others, first, moves)
    requires Dissolved(b, moves, base, first, x) && Kept(b, others, moves, base, first, x)
    ensures WorkPair(CheckStops(b, price, others, moves, depth), base, first, x)
  {
    var due, v := Due(b, price), CheckStops(b, price, others, moves, depth);
    StopsMove(Amount(x), b, price);
    SumConcat(Amount(x), others, due);
    DueOk(b, price);
    SomeIsSomething(due, x);
    TotalOfUndue(b, price, x);
    TriggeredFly(due, first);
    hide Due, Undue, Triggered, Cascade.Dropped, Sum, Flew, Excused, Shaped;
    MoreMoves(x, first, moves, v.moves);
    StillFly(others, first, moves, v.moves);
    if depth < MAX_STOP_CHAIN_DEPTH {
      FlyBehind(due, first, moves + [RunEnd(Some(price), |due|)], Triggered(due));
    } else if 0 < Sum(Amount(x), due) {
      SumIsThere(due, x);
      DroppedExcuses(due, x);
      ExcusedBehind(x, moves + [RunEnd(Some(price), 0)], Cascade.Dropped(due));
    }
  }

  lemma SumIsThere(s: seq<Order>, x: Id)
    requires 0 < Sum(Amount(x), s)
    ensures Has(s, x)
  {
    if !Has(s, x) {
      CountIsPresence(s, x);
      NoneIsNothing(s, x);
    }
  }

  lemma TotalOfUndue(b: Book, price: int, x: Id)
    requires Shaped(b)
    ensures 0 <= Total(Amount(x), Undue(b, price)) <= Total(Amount(x), b)
    ensures Undue(b, price).links == b.links
  {
    var c := Undue(b, price);
    StopsMove(Amount(x), b, price);
    DueOk(b, price);
    SomeIsSomething(Due(b, price), x);
    var n, k := UpTo(b.buyStops, price), UpTo(b.sellStops, price - 1);
    SliceWithin(StopShelf, b.buyStops, n, |b.buyStops|);
    SliceWithin(StopShelf, b.sellStops, 0, k);
    assert Shaped(c);
    PresentIffAmount(c, x);
  }

  lemma TurnPair(w: Work, base: Book, first: Id, x: Id)
    requires WorkOk(w) && w.queue != [] && WorkPair(w, base, first, x)
    ensures WorkPair(Turn(w), base, first, x)
  {
    var others, r := w.queue[..|w.queue| - 1], RunOne(w);
    assert forall o :: o in others ==> o in w.queue;
    RunOnePair(w, base, first, x);
    TurnExtends(w);
    hide RunOne, CheckStops, Dissolved, Flew, Excused, Shaped, Distinct;
    StillFly(others, first, w.moves, r.moves);
    match r.last
    case None =>
      MoreMoves(x, first, r.moves, r.moves + [RunEnd(None, 0)]);
      StillFly(others, first, r.moves, r.moves + [RunEnd(None, 0)]);
      DissolvedStays(r.book, r.moves, r.moves + [RunEnd(None, 0)], base, first, x);
    case Some(price) => CheckPair(r.book, price, others, r.moves, w.depth, base, first, x);
  }

  lemma DissolvedStays(b: Book, moves: seq<Move>, more: seq<Move>, base: Book, first: Id, x: Id)
    requires Dissolved(b, moves, base, first, x) && moves <= more
    ensures Dissolved(b, more, base, first, x)
  {
    MoreMoves(x, first, moves, more);
  }

  lemma {:induction false} RunAllPair(w: Work, base: Book, first: Id, x: Id)
    requires WorkOk(w) && WorkPair(w, base, first, x)
    ensures WorkPair(RunAll(w), base, first, x)
    decreases |w.queue| + w.book.WaitingCount()
  {
    if w.queue != [] {
      TurnPair(w, base, first, x);
      hide WorkPair, Turn;
      RunAllPair(Turn(w), base, first, x);
    }
  }

  lemma StartPair(b: Book, o: Order, x: Id)
    requires Valid(b) && Fresh(b, o)
    ensures WorkPair(Start(b, o), b, o.id, x)
  {
    SumOne(Amount(x), o);
    PresentIffAmount(b, x);
    hide Sum;
  }

  // ---- A whole call --------------------------------------------------------------

  /** Two orders are a pair, and one of them was in the book or is the one submitted. When the
    call is over and that one is gone, by fills or by any cancellation but those that do not look
    at links, the other is in no list of the book either, unless it was in flight itself. */
  lemma LegGoesWithItsPartner(b: Book, o: Order, x: Id)
    requires Valid(b) && Fresh(b, o) && Paired(b.links) && x in b.links && Alive(b, o.id, x)
    requires Refusal(b, o).None? && !o.kind.IsStop()
    ensures var (c, moves) := Submit(b, o);
      Total(Amount(x), c) == 0 && !Excused(x, moves) && !Flew(b.links[x], o.id, moves) ==>
        x !in c.links && b.links[x] !in c.links && Total(Amount(b.links[x]), c) == 0
  {
    var (c, moves) := Submit(b, o);
    var y := b.links[x];
    StartPair(b, o, x);
    StartPair(b, o, y);
    RunAllPair(Start(b, o), b, o.id, x);
    RunAllPair(Start(b, o), b, o.id, y);
    RunAllPaired(Start(b, o));
    EmptyQueue(c, x);
    hide RunAll, Excused, Flew, Total, Sum, Refusal, Shaped, Distinct;
  }
}
