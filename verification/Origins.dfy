/** Orders on a book keep the owner, symbol, side, price and display size they were placed with. */
module Origins {
  import opened Orders
  import opened Ladder
  import opened Matcher
  import opened BookInvariants
  import opened Cascade

  type Register = map<Id, Order>

  /** The register holds the order under its id, as it was placed but for type and remainder. */
  predicate From(o: Order, placed: Register) {
    && o.id in placed && o.user == placed[o.id].user && o.symbol == placed[o.id].symbol
    && o.side == placed[o.id].side && o.price == placed[o.id].price && o.displayQty == placed[o.id].displayQty
  }

  ghost predicate ListFrom(s: seq<Order>, placed: Register) {
    forall o :: o in s ==> From(o, placed)
  }

  ghost predicate AllFrom(b: Book, placed: Register) {
    ListFrom(b.bids, placed) && ListFrom(b.asks, placed) && ListFrom(b.buyStops, placed) && ListFrom(b.sellStops, placed)
  }

  lemma WithinFrom(c: Book, b: Book, placed: Register)
    requires BookWithin(c, b) && AllFrom(b, placed)
    ensures AllFrom(c, placed)
  {
  }

  lemma CancelFrom(b: Book, id: Id, placed: Register)
    requires AllFrom(b, placed)
    ensures AllFrom(CancelOrder(b, id).0, placed)
  {
    if id in b.links {
      var b0 := b.(links := b.links - {id, b.links[id]});
      WithdrawWithin(b0, id, AdminCancel);
      WithinFrom(Withdraw(b0, id, AdminCancel).0, b0, placed);
      WithdrawWithin(Withdraw(b0, id, AdminCancel).0, b.links[id], OcoCancel);
      WithinFrom(CancelOrder(b, id).0, Withdraw(b0, id, AdminCancel).0, placed);
    } else {
      WithdrawWithin(b, id, AdminCancel);
      WithinFrom(Withdraw(b, id, AdminCancel).0, b, placed);
    }
  }

  lemma CancelLinkedFrom(b: Book, id: Id, placed: Register)
    requires AllFrom(b, placed)
    ensures AllFrom(CancelLinked(b, id).0, placed)
  {
    CancelLinkedWithin(b, id);
    WithinFrom(CancelLinked(b, id).0, b, placed);
  }

  lemma ReplaceFrom(b: Book, side: Side, t: seq<Order>, placed: Register)
    requires AllFrom(b, placed) && ListFrom(t, placed)
    ensures AllFrom(b.WithResting(side, t), placed)
  {
  }

  /** The three lists a step can leave on the maker's side. */
  lemma FrontFrom(shelf: Shelf, s: seq<Order>, left: Order, placed: Register)
    requires s != [] && ListFrom(s, placed) && left == s[0].(remaining := left.remaining)
    ensures ListFrom(s[1..], placed) && ListFrom([left] + s[1..], placed) && ListFrom(Insert(shelf, s[1..], left), placed)
  {
    assert s[0] in s;
    assert forall o :: o in s[1..] ==> o in s;
    InsertMembers(shelf, s[1..], left);
  }

  lemma TradeStepFrom(r: Run, placed: Register)
    requires r.Active() && AllFrom(r.book, placed)
    ensures AllFrom(TradeStep(r).book, placed)
  {
    var side, s := r.taker.side.Opposite(), r.Opposing();
    var left := s[0].(remaining := s[0].remaining - Min(r.taker.remaining, s[0].Effective()));
    FrontFrom(ShelfOf(side), s, left, placed);
    hide ListFrom, CancelLinked, Insert;
    if left.remaining == 0 {
      ReplaceFrom(r.book, side, s[1..], placed);
      CancelLinkedFrom(r.book.WithResting(side, s[1..]), s[0].id, placed);
    } else {
      ReplaceFrom(r.book, side, TradeStep(r).book.Resting(side), placed);
    }
  }

  lemma SelfTradeFrom(r: Run, placed: Register)
    requires r.Active() && AllFrom(r.book, placed)
    ensures AllFrom(PreventSelfTrade(r).book, placed)
  {
    var side, s := r.taker.side.Opposite(), r.Opposing();
    FrontFrom(ShelfOf(side), s, s[0].(remaining := s[0].remaining - r.taker.remaining), placed);
    hide ListFrom;
  }

  lemma {:induction false} LoopFrom(r: Run, queue: seq<Order>, placed: Register)
    requires Live(r, queue) && AllFrom(r.book, placed)
    ensures AllFrom(Loop(r, queue).book, placed)
    ensures var q := Loop(r, queue); q.taker == r.taker.(remaining := q.taker.remaining)
    decreases r.taker.remaining, |r.Opposing()|
  {
    if r.Active() {
      StepKeeps(r, queue);
      StepShrinks(r);
      if r.Opposing()[0].user == r.taker.user { SelfTradeFrom(r, placed); } else { TradeStepFrom(r, placed); }
      LoopFrom(Step(r), queue, placed);
    }
  }

  lemma FinishFrom(r: Run, placed: Register)
    requires AllFrom(r.book, placed) && From(r.taker, placed)
    ensures AllFrom(Finish(r).book, placed)
  {
    CancelLinkedFrom(r.book, r.taker.id, placed);
    InsertMembers(ShelfOf(r.taker.side), r.book.Resting(r.taker.side), r.taker);
    hide CancelLinked, Insert;
  }

  lemma ActivateFrom(s: seq<Order>, placed: Register)
    requires ListFrom(s, placed)
    ensures ListFrom(ActivateAll(s), placed)
  {
    forall i | 0 <= i < |s| ensures From(ActivateAll(s)[i], placed) {
      ActivateAllAt(s, i);
      assert s[i] in s;
    }
  }

  lemma DueFrom(b: Book, price: int, placed: Register)
    requires AllFrom(b, placed)
    ensures AllFrom(Undue(b, price), placed) && ListFrom(Due(b, price), placed)
  {
    var n, k := UpTo(b.buyStops, price), UpTo(b.sellStops, price - 1);
    assert forall o :: o in b.buyStops[..n] ==> o in b.buyStops;
    assert forall o :: o in b.buyStops[n..] ==> o in b.buyStops;
    assert forall o :: o in b.sellStops[..k] ==> o in b.sellStops;
    assert forall o :: o in b.sellStops[k..] ==> o in b.sellStops;
    ActivateFrom(b.buyStops[..n], placed);
    ActivateFrom(b.sellStops[k..], placed);
  }

  ghost predicate WorkFrom(w: Work, placed: Register) {
    AllFrom(w.book, placed) && ListFrom(w.queue, placed)
  }

  lemma TurnFrom(w: Work, placed: Register)
    requires WorkOk(w) && w.queue != [] && WorkFrom(w, placed)
    ensures WorkFrom(Turn(w), placed)
  {
    var others, taker := w.queue[..|w.queue| - 1], w.queue[|w.queue| - 1];
    PopQueue(w.book, w.queue);
    assert taker in w.queue;
    assert forall o :: o in others ==> o in w.queue;
    var r0 := Run(w.book, taker, w.moves, None, false);
    LoopFrom(r0, others, placed);
    FinishFrom(Loop(r0, others), placed);
    hide Loop, Finish, Due, Undue, AllFrom, Triggered, Dropped;
    var r := RunOne(w);
    if r.last.Some? { DueFrom(r.book, r.last.value, placed); }
  }

  lemma {:induction false} RunAllFrom(w: Work, placed: Register)
    requires WorkOk(w) && WorkFrom(w, placed)
    ensures WorkFrom(RunAll(w), placed)
    decreases |w.queue| + w.book.WaitingCount()
  {
    if w.queue != [] {
      TurnFrom(w, placed);
      RunAllFrom(Turn(w), placed);
    }
  }

  lemma SubmitFrom(b: Book, o: Order, placed: Register)
    requires Valid(b) && Fresh(b, o) && AllFrom(b, placed) && From(o, placed)
    ensures AllFrom(Submit(b, o).0, placed)
  {
    if Refusal(b, o).Some? {
    } else if o.kind.IsStop() {
      InsertMembers(StopShelf, b.Stops(o.side), o);
    } else {
      RunAllFrom(Start(b, o), placed);
    }
  }

  /** Registering another order under a new id changes nothing for the orders known. */
  lemma StillFrom(b: Book, placed: Register, o: Order)
    requires AllFrom(b, placed) && o.id !in placed
    ensures AllFrom(b, placed[o.id := o])
  {
  }

  /** An id on a book is one that was placed. */
  lemma PresentIsPlaced(b: Book, placed: Register, x: Id)
    requires AllFrom(b, placed) && Total(Count(x), b) > 0
    ensures x in placed
  {
    CountIsPresence(b.bids, x);
    CountIsPresence(b.asks, x);
    CountIsPresence(b.buyStops, x);
    CountIsPresence(b.sellStops, x);
  }
}
