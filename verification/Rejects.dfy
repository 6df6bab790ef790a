/** When an order is rejected: a fill-or-kill or post-only order by the pre-check, with nothing
  changed, and a fill-or-kill order in CancelMaker mode also after it has taken from the book
  (engine/crates/core/src/book.rs, engine/crates/server/src/wire.rs). */
module Rejects {
  import opened Orders
  import opened Ladder
  import opened Matcher
  import opened BookInvariants
  import opened Cascade
  import opened Conservation
  import opened Histories
  import opened OpenOrders
  import opened Wire
  import FillOrKill
  import Walk
  import Terms

  function Opening(b: Book, o: Order): Run {
    Run(b, o, [], None, false)
  }

  lemma OpeningLive(b: Book, o: Order)
    requires Valid(b) && Fresh(b, o)
    ensures !o.kind.IsStop() ==> WorkOk(Start(b, o)) && Live(Opening(b, o), [])
  {
    PopQueue(b, [o]);
    assert [o][..0] == [];
  }

  // ---- An order that meets another takes from it ---------------------------------

  /** Trades and cancellations are announced. */
  predicate Loud(m: Move) {
    m.Trade? || m.Void?
  }

  /** What was announced of an order does not count among what went unheard. */
  lemma {:induction false} LoudIsHeard(x: Id, sub: Option<Id>, moves: seq<Move>, m: Move)
    requires AllSound(moves) && m in moves && Loud(m) && Out(Amount(x), m) > 0
    ensures Unheard(x, sub, moves) < Gone(Amount(x), moves)
  {
    var front, last := moves[..|moves| - 1], moves[|moves| - 1];
    assert moves == front + [last];
    assert last in moves && Sound(last);
    UnheardAtMost(x, sub, front);
    hide Rests;
    if m in front { LoudIsHeard(x, sub, front, m); }
  }

  /** The order's first step leaves it alive: it does not just end by self-trade prevention. */
  predicate Meets(b: Book, o: Order) {
    Opening(b, o).Active() && !Step(Opening(b, o)).dead
  }

  lemma FirstMove(r: Run, queue: seq<Order>) returns (m: Move)
    requires Live(r, queue) && r.Active() && r.moves == [] && !Step(r).dead
    ensures m in Step(r).moves && Loud(m) && Out(Amount(r.Opposing()[0].id), m) > 0
  {
    var maker := r.Opposing()[0];
    assert maker in r.Opposing() && RestsOk(r.taker.side.Opposite(), maker);
    hide CancelLinked, Insert, Sum, Sorted;
    m := Step(r).moves[0];
  }

  lemma FirstMoveStays(b: Book, o: Order, m: Move)
    requires Valid(b) && Fresh(b, o) && Refusal(b, o).None? && !o.kind.IsStop()
    requires Opening(b, o).Active() && m in Step(Opening(b, o)).moves
    ensures m in Submit(b, o).1
  {
    var r, w := Opening(b, o), Start(b, o);
    OpeningLive(b, o);
    StepKeeps(r, []);
    StepShrinks(r);
    LoopExtends(Step(r), []);
    FinishAdds(Loop(r, []));
    TurnExtends(w);
    RunAllExtends(Turn(w));
    assert w.queue[..0] == [];
    hide Step, Finish, Shaped, Distinct, Turn;
    assert Loop(r, []).moves <= RunOne(w).moves;
  }

  /** The order it meets loses more than what goes unheard. */
  lemma MeetingTakes(b: Book, o: Order)
    requires Valid(b) && Fresh(b, o) && Refusal(b, o).None? && !o.kind.IsStop() && Meets(b, o)
    ensures var x := Opening(b, o).Opposing()[0].id; var (c, moves) := Submit(b, o);
      x != o.id && Total(Amount(x), c) + Unheard(x, Some(o.id), moves) < Total(Amount(x), b)
  {
    var r := Opening(b, o);
    var x := r.Opposing()[0].id;
    OpeningLive(b, o);
    FillOrKill.MakerIsAnother(r, []);
    var m := FirstMove(r, []);
    FirstMoveStays(b, o, m);
    SubmitSound(b, o);
    SubmitConserves(Amount(x), b, o);
    LoudIsHeard(x, Some(o.id), Submit(b, o).1, m);
    hide Submit, Total, Gone, Unheard;
  }

  // ---- Cancellations that are no rejects -----------------------------------------

  ghost predicate NoCode(moves: seq<Move>) {
    forall m :: m in moves && m.Void? ==> CodeOf(m.reason).None?
  }

  lemma NoCodeNoReject(id: Id, moves: seq<Move>)
    requires NoCode(moves)
    ensures PreReject(id, EventsOf(moves)).None?
  {
    if PreReject(id, EventsOf(moves)).Some? {
      PreRejectIsThere(id, EventsOf(moves));
      var e :| e in EventsOf(moves) && e.Cancelled? && CodeOf(e.reason).Some?;
      var m := EventHasMove(moves, e);
    }
  }

  lemma CodelessConcat(a: seq<Move>, b: seq<Move>)
    requires NoCode(a) && NoCode(b)
    ensures NoCode(a + b)
  {
  }

  lemma LinkedNoCode(b: Book, id: Id)
    ensures NoCode(CancelLinked(b, id).1)
  {
  }

  lemma StepNoCode(r: Run)
    requires r.Active() && NoCode(r.moves)
    ensures NoCode(Step(r).moves)
  {
    LinkedNoCode(r.book.WithResting(r.taker.side.Opposite(), r.Opposing()[1..]), r.Opposing()[0].id);
    hide CancelLinked, Insert;
  }

  lemma {:induction false} LoopNoCode(r: Run, queue: seq<Order>)
    requires Live(r, queue) && NoCode(r.moves)
    ensures NoCode(Loop(r, queue).moves)
    decreases r.taker.remaining, |r.Opposing()|
  {
    if r.Active() {
      StepKeeps(r, queue);
      StepShrinks(r);
      StepNoCode(r);
      hide NoCode, Step, Shaped, Distinct;
      LoopNoCode(Step(r), queue);
    }
  }

  /** Only these can be cancelled for a reason that is a reject. */
  predicate Rejectable(kind: OrderType) {
    kind == Fok || kind == PostOnly
  }

  lemma FinishNoCode(q: Run)
    requires NoCode(q.moves) && (q.dead || q.taker.remaining == 0 || !Rejectable(q.taker.kind))
    ensures NoCode(Finish(q).moves)
  {
    LinkedNoCode(q.book, q.taker.id);
    hide CancelLinked, Insert;
  }

  lemma {:induction false} MarkersNoCode(s: seq<Order>)
    ensures NoCode(Triggered(s)) && NoCode(Cascade.Dropped(s))
  {
    if s != [] { MarkersNoCode(s[..|s| - 1]); }
  }

  ghost predicate Harmless(queue: seq<Order>) {
    forall o :: o in queue ==> !Rejectable(o.kind)
  }

  /** Triggered stops trade as limit or market orders. */
  lemma DuePlain(b: Book, price: int)
    requires Shaped(b)
    ensures Harmless(Due(b, price))
  {
    ActivatePlain(b.buyStops[..UpTo(b.buyStops, price)], b.buyStops, Buy);
    ActivatePlain(b.sellStops[UpTo(b.sellStops, price - 1)..], b.sellStops, Sell);
  }

  lemma ActivatePlain(t: seq<Order>, s: seq<Order>, side: Side)
    requires StopsOk(side, s) && forall o :: o in t ==> o in s
    ensures Harmless(ActivateAll(t))
  {
    forall i | 0 <= i < |t| ensures !Rejectable(ActivateAll(t)[i].kind) {
      ActivateAllAt(t, i);
      assert t[i] in t && WaitsOk(side, t[i]);
    }
  }

  lemma CheckNoCode(b: Book, price: int, others: seq<Order>, moves: seq<Move>, depth: nat)
    requires Shaped(b) && NoCode(moves) && Harmless(others)
    ensures var v := CheckStops(b, price, others, moves, depth); NoCode(v.moves) && Harmless(v.queue)
  {
    var due := Due(b, price);
    DuePlain(b, price);
    MarkersNoCode(due);
    hide Due, Undue, Triggered, Cascade.Dropped, Shaped;
    CodelessConcat(moves, [RunEnd(Some(price), |due|)]);
    CodelessConcat(moves, [RunEnd(Some(price), 0)]);
    CodelessConcat(moves + [RunEnd(Some(price), |due|)], Triggered(due));
    CodelessConcat(moves + [RunEnd(Some(price), 0)], Cascade.Dropped(due));
  }

  /** A turn adds no reject if the run it starts with does not. */
  lemma AfterRunNoCode(w: Work)
    requires WorkOk(w) && w.queue != [] && NoCode(RunOne(w).moves) && Harmless(w.queue[..|w.queue| - 1])
    ensures NoCode(Turn(w).moves) && Harmless(Turn(w).queue)
  {
    hide RunOne, CheckStops, Shaped, Distinct, NoCode;
    var others, r := w.queue[..|w.queue| - 1], RunOne(w);
    match r.last
    case None => EndNoCode(r.moves);
    case Some(price) => CheckNoCode(r.book, price, others, r.moves, w.depth);
  }

  lemma EndNoCode(moves: seq<Move>)
    requires NoCode(moves)
    ensures NoCode(moves + [RunEnd(None, 0)])
  {
  }

  lemma RunOneNoCode(w: Work)
    requires WorkOk(w) && w.queue != [] && NoCode(w.moves) && Harmless(w.queue)
    ensures NoCode(RunOne(w).moves)
  {
    var others, taker := w.queue[..|w.queue| - 1], w.queue[|w.queue| - 1];
    PopQueue(w.book, w.queue);
    assert taker in w.queue;
    var r0 := Run(w.book, taker, w.moves, None, false);
    LoopNoCode(r0, others);
    FillOrKill.LoopSameTaker(r0, others);
    hide Loop, NoCode, Finish, Shaped, Distinct;
    FinishNoCode(Loop(r0, others));
  }

  lemma {:induction false} RunAllNoCode(w: Work)
    requires WorkOk(w) && NoCode(w.moves) && Harmless(w.queue)
    ensures NoCode(RunAll(w).moves)
    decreases |w.queue| + w.book.WaitingCount()
  {
    if w.queue != [] {
      assert forall o :: o in w.queue[..|w.queue| - 1] ==> o in w.queue;
      RunOneNoCode(w);
      AfterRunNoCode(w);
      hide NoCode, Turn, RunOne;
      RunAllNoCode(Turn(w));
    }
  }

  /** When the order's own run brings no reject, nor does the call. */
  lemma CallNoCode(b: Book, o: Order)
    requires Valid(b) && Fresh(b, o) && Refusal(b, o).None? && !o.kind.IsStop() && WorkOk(Start(b, o))
    requires NoCode(RunOne(Start(b, o)).moves)
    ensures PreReject(o.id, EventsOf(Submit(b, o).1)).None?
  {
    assert Start(b, o).queue[..0] == [];
    AfterRunNoCode(Start(b, o));
    hide NoCode, RunOne, Turn, Refusal;
    RunAllNoCode(Turn(Start(b, o)));
    NoCodeNoReject(o.id, Submit(b, o).1);
  }

  lemma OpeningRun(b: Book, o: Order)
    requires Valid(b) && Fresh(b, o) && !o.kind.IsStop()
    ensures WorkOk(Start(b, o)) && Live(Opening(b, o), [])
    ensures RunOne(Start(b, o)) == Finish(Loop(Opening(b, o), []))
    ensures Loop(Opening(b, o), []).taker == o.(remaining := Loop(Opening(b, o), []).taker.remaining)
  {
    OpeningLive(b, o);
    FillOrKill.LoopSameTaker(Opening(b, o), []);
    assert [o][..0] == [];
    hide Loop, Finish, Shaped, Distinct;
  }

  lemma CanMeet(b: Book, o: Order)
    requires o.kind == Fok && Refusal(b, o).None? && 0 < o.remaining
    ensures Opening(b, o).Active()
  {
  }

  /** A run that comes to its end without ending in a reject of its order. */
  predicate EndsWell(q: Run) {
    q.dead || q.taker.remaining == 0 || !Rejectable(q.taker.kind)
  }

  lemma EndsWellNoReject(b: Book, o: Order)
    requires Valid(b) && Fresh(b, o) && Refusal(b, o).None? && !o.kind.IsStop() && Live(Opening(b, o), [])
    requires EndsWell(Loop(Opening(b, o), []))
    ensures PreReject(o.id, EventsOf(Submit(b, o).1)).None?
  {
    OpeningRun(b, o);
    LoopNoCode(Opening(b, o), []);
    hide Loop, Finish, Refusal, Shaped, Distinct, NoCode;
    FinishNoCode(Loop(Opening(b, o), []));
    CallNoCode(b, o);
  }

  lemma DeadEnds(b: Book, o: Order)
    requires Valid(b) && Fresh(b, o) && Refusal(b, o).None? && !o.kind.IsStop() && !Meets(b, o) && Opening(b, o).Active()
    ensures Live(Opening(b, o), []) && EndsWell(Loop(Opening(b, o), []))
  {
    var r := Opening(b, o);
    OpeningLive(b, o);
    StepKeeps(r, []);
    StepShrinks(r);
    hide Step, Shaped, Distinct, Refusal;
    assert Loop(r, []) == Step(r);
  }

  /** An order that meets none is rejected by the pre-check or not at all. */
  lemma UnmetIsNoReject(b: Book, o: Order)
    requires Valid(b) && Fresh(b, o) && Refusal(b, o).None? && (o.kind.IsStop() || !Meets(b, o))
    ensures PreReject(o.id, EventsOf(Submit(b, o).1)).None?
  {
    if o.kind.IsStop() {
      assert NoCode(Submit(b, o).1);
      NoCodeNoReject(o.id, Submit(b, o).1);
    } else {
      OpeningLive(b, o);
      if o.kind == Fok { CanMeet(b, o); }
      hide Submit, Shaped, Distinct, Refusal, EndsWell;
      if Opening(b, o).Active() {
        DeadEnds(b, o);
        EndsWellNoReject(b, o);
      } else {
        InactiveNoReject(b, o);
      }
    }
  }

  /** Without a fill a post-only order rests. */
  lemma InactiveNoReject(b: Book, o: Order)
    requires Valid(b) && Fresh(b, o) && Refusal(b, o).None? && !o.kind.IsStop() && !Opening(b, o).Active() && o.kind != Fok
    ensures PreReject(o.id, EventsOf(Submit(b, o).1)).None?
  {
    var r := Opening(b, o);
    OpeningRun(b, o);
    assert Loop(r, []) == r;
    LinkedNoCode(b, o.id);
    hide Submit, Shaped, Distinct, Refusal, CancelLinked, Insert, Loop;
    assert NoCode(Finish(r).moves);
    CallNoCode(b, o);
  }

  // ---- Which orders are rejected late --------------------------------------------

  /** A taker in CancelMaker mode loses quantity to fills only. */
  lemma {:induction false} CancelMakerLoop(r: Run, queue: seq<Order>)
    requires Live(r, queue) && !r.dead && r.taker.stpMode == CancelMaker
    ensures var q := Loop(r, queue);
      !q.dead && q.taker.id == r.taker.id && q.taker.kind == r.taker.kind &&
      FillOrKill.Got(q) == FillOrKill.Got(r) + (r.taker.remaining - q.taker.remaining)
    decreases r.taker.remaining, |r.Opposing()|
  {
    if r.Active() {
      var q := Step(r);
      StepKeeps(r, queue);
      StepShrinks(r);
      if r.Opposing()[0].user == r.taker.user { FillOrKill.SelfTradeGot(r); } else { FillOrKill.TradeStepGot(r, queue); }
      CancelMakerStep(r);
      CancelMakerLoop(q, queue);
    }
  }

  lemma CancelMakerStep(r: Run)
    requires r.Active() && r.taker.stpMode == CancelMaker
    ensures var q := Step(r); !q.dead && q.taker == r.taker.(remaining := q.taker.remaining)
    ensures r.Opposing()[0].user == r.taker.user ==> Step(r).taker == r.taker
  {
  }

  lemma {:induction false} EventIsReject(id: Id, events: seq<Event>, e: Event)
    requires e in events && e.Cancelled? && e.cancelledId == id && CodeOf(e.reason).Some?
    ensures PreReject(id, events).Some?
  {
    if !(events[0].Cancelled? && events[0].cancelledId == id && CodeOf(events[0].reason).Some?) {
      EventIsReject(id, events[1..], e);
    }
  }

  lemma {:induction false} MoveHasEvent(moves: seq<Move>, m: Move, e: Event)
    requires m in moves && EventOf(m) == [e]
    ensures e in EventsOf(moves)
  {
    var front, last := moves[..|moves| - 1], moves[|moves| - 1];
    assert moves == front + [last];
    if m in front { MoveHasEvent(front, m, e); }
  }

  lemma UnfilledIsVoided(q: Run)
    requires !q.dead && 0 < q.taker.remaining && q.taker.kind == Fok
    ensures Void(q.taker.id, q.taker.remaining, FokUnfilled, Incoming) in Finish(q).moves
  {
    hide CancelLinked;
  }

  /** A fill-or-kill run that ends unfilled and alive is rejected. */
  lemma UnfilledIsRejected(b: Book, o: Order)
    requires Valid(b) && Fresh(b, o) && o.kind == Fok && Refusal(b, o).None?
    requires Live(Opening(b, o), [])
    requires var q := Loop(Opening(b, o), []);
      !q.dead && 0 < q.taker.remaining && q.taker.id == o.id && q.taker.kind == Fok
    ensures PreReject(o.id, EventsOf(Submit(b, o).1)).Some?
  {
    var q, w := Loop(Opening(b, o), []), Start(b, o);
    var void := Void(o.id, q.taker.remaining, FokUnfilled, Incoming);
    OpeningLive(b, o);
    TurnExtends(w);
    RunAllExtends(Turn(w));
    assert w.queue[..0] == [];
    UnfilledIsVoided(q);
    hide Loop, Finish, Turn, Shaped, Distinct, Refusal;
    assert RunOne(w) == Finish(q);
    MoveHasEvent(Submit(b, o).1, void, Cancelled(o.id, FokUnfilled));
    EventIsReject(o.id, EventsOf(Submit(b, o).1), Cancelled(o.id, FokUnfilled));
  }

  /** A filled order was not cancelled. */
  lemma FilledIsNotRejected(b: Book, o: Order)
    requires Valid(b) && Fresh(b, o) && FilledQty(o.id, EventsOf(Submit(b, o).1)) == o.remaining
    ensures PreReject(o.id, EventsOf(Submit(b, o).1)).None?
  {
    var (c, moves) := Submit(b, o);
    var g := Amount(o.id);
    if PreReject(o.id, EventsOf(moves)).Some? {
      PreRejectIsThere(o.id, EventsOf(moves));
      assert AnnouncedCancelled(o.id, EventsOf(moves));
      SubmitSound(b, o);
      SubmitConserves(g, b, o);
      OnlyItself(b, o);
      PresentIffAmount(c, o.id);
      EventsTellFills(o.id, moves);
      EventsTellCancels(o.id, moves);
      GoneIsAll(g, moves);
      GoneNonNegative(Shrunk, g, moves);
      GoneNonNegative(Conservation.Dropped, g, moves);
      GoneNonNegative(Strayed, g, moves);
      hide Submit, Total, GoneBy, Gone, FilledQty, AnnouncedCancelled, EventsOf;
    }
  }

  lemma OnlyItself(b: Book, o: Order)
    requires Valid(b) && Fresh(b, o)
    ensures Total(Amount(o.id), b) == 0
  {
    assert Total(Count(o.id), b) + Sum(Count(o.id), [o]) <= 1;
    SumOne(Count(o.id), o);
    AbsentAmount(b, o.id);
  }

  /** What the limit reaches covers what is left of the order. */
  ghost predicate Covered(r: Run) {
    r.taker.remaining <= Eligible(r.Opposing(), r.taker)
  }

  lemma {:induction false} EligibleSame(s: seq<Order>, taker: Order, t: Order)
    requires t == taker.(remaining := t.remaining)
    ensures Eligible(s, t) == Eligible(s, taker)
  {
    if s != [] { EligibleSame(s[1..], taker, t); }
  }

  lemma {:induction false} EligibleRequeued(s: seq<Order>, taker: Order, left: Order)
    requires FillOrKill.Makers(s, taker) && Admits(taker, left.price.Or(0))
    ensures Eligible(Insert(ShelfOf(taker.side.Opposite()), s, left), taker) == Eligible(s, taker) + left.remaining
  {
    var shelf := ShelfOf(taker.side.Opposite());
    var t := Insert(shelf, s, left);
    if s == [] || RankOf(shelf, left) < RankOf(shelf, s[0]) {
      assert t[1..] == s;
    } else {
      FillOrKill.TailMakers(s, taker);
      assert t[1..] == Insert(shelf, s[1..], left);
      assert Admits(taker, s[0].price.Or(0));
      EligibleRequeued(s[1..], taker, left);
    }
  }

  /** A fill takes as much from what the limit reaches as from the order. */
  lemma TradeCovers(r: Run, queue: seq<Order>)
    requires FillOrKill.Meets(r, queue) && r.Active() && Covered(r) && r.Opposing()[0].user != r.taker.user
    ensures Covered(TradeStep(r))
  {
    var s, q := r.Opposing(), TradeStep(r);
    var maker, rest := s[0], s[1..];
    var left := maker.(remaining := maker.remaining - Min(r.taker.remaining, maker.Effective()));
    FillOrKill.TailMakers(s, r.taker);
    EligibleRequeued(rest, r.taker, left);
    EligibleSame(q.Opposing(), r.taker, q.taker);
    assert ([left] + rest)[1..] == rest;
  }

  /** In every mode but CancelMaker, meeting an own order ends the run or takes as much from
    the order as from what the limit reaches. */
  lemma OwnCovers(r: Run, queue: seq<Order>)
    requires FillOrKill.Meets(r, queue) && r.Active() && Covered(r) && r.Opposing()[0].user == r.taker.user
    requires r.taker.stpMode != CancelMaker
    ensures PreventSelfTrade(r).dead || Covered(PreventSelfTrade(r))
  {
    var q := PreventSelfTrade(r);
    EligibleSame(q.Opposing(), r.taker, q.taker);
  }

  /** So an order that passed the pre-check ends filled, or dead by self-trade prevention. */
  lemma {:induction false} CoveredEnds(r: Run, queue: seq<Order>)
    requires FillOrKill.Meets(r, queue) && !r.dead && Covered(r) && r.taker.stpMode != CancelMaker
    ensures var q := Loop(r, queue); q.dead || q.taker.remaining == 0
    decreases r.taker.remaining, |r.Opposing()|
  {
    if r.Active() {
      var q := Step(r);
      StepKeeps(r, queue);
      StepShrinks(r);
      if r.Opposing()[0].user != r.taker.user {
        TradeCovers(r, queue);
        FillOrKill.TradeStepCapacity(r, queue);
        StillAlive(r);
        hide Covered, Shaped, Distinct, Step, FillOrKill.Unlinked;
        if q.taker.remaining > 0 { CoveredEnds(q, queue); }
      } else {
        OwnCovers(r, queue);
        FillOrKill.OwnFront(r, queue);
        hide Covered, Shaped, Distinct, PreventSelfTrade, FillOrKill.Unlinked;
        if !q.dead { CoveredEnds(q, queue); }
      }
    }
  }

  lemma StillAlive(r: Run)
    requires r.Active()
    ensures !TradeStep(r).dead && TradeStep(r).taker == r.taker.(remaining := TradeStep(r).taker.remaining)
    ensures TradeStep(r).taker.remaining == 0 ==> !TradeStep(r).Active()
  {
  }

  /** No order but a fill-or-kill order in CancelMaker mode is rejected after the pre-check. */
  lemma OthersAreNotRejected(b: Book, o: Order)
    requires Valid(b) && Fresh(b, o) && Priced(o) && Refusal(b, o).None?
    requires FillOrKill.Unlinked(b.Resting(o.side.Opposite()), o, b.links)
    requires !(o.kind == Fok && o.stpMode == CancelMaker)
    ensures PreReject(o.id, EventsOf(Submit(b, o).1)).None?
  {
    if o.kind.IsStop() || !Meets(b, o) {
      UnmetIsNoReject(b, o);
    } else {
      var r := Opening(b, o);
      OpeningRun(b, o);
      if o.kind == Fok { CoveredEnds(r, []); }
      hide Loop, Submit, Shaped, Distinct, Step, FillOrKill.Unlinked;
      EndsWellNoReject(b, o);
    }
  }

  /** A fill-or-kill order for which the limit reaches enough, though what it meets, own and
    others' orders alike and without the partners that go on the way, comes to less. */
  predicate LeftShort(b: Book, o: Order)
    requires Walk.Shown(b.Resting(o.side.Opposite()))
  {
    o.kind == Fok && o.remaining <= Eligible(b.Resting(o.side.Opposite()), o) && 0 < Walk.Short(Walk.Ahead(b, o), o.remaining)
  }

  /** On every book, and for orders of any type and mode: one is rejected after the pre-check let
    it pass if and only if it is left short. */
  lemma LateRejectIff(b: Book, o: Order)
    requires Valid(b) && Fresh(b, o) && Priced(o)
    ensures Walk.Shown(b.Resting(o.side.Opposite()))
    ensures Refusal(b, o).None? && PreReject(o.id, EventsOf(Submit(b, o).1)).Some? <==> LeftShort(b, o)
  {
    Walk.ValidIsShown(b, o.side.Opposite());
    if Refusal(b, o).None? {
      if o.kind == Fok {
        FokRejectIff(b, o);
      } else {
        OtherKindsAreNotRejected(b, o);
      }
    }
  }

  lemma FokRejectIff(b: Book, o: Order)
    requires Valid(b) && Fresh(b, o) && o.kind == Fok && Refusal(b, o).None?
    ensures Walk.Shown(b.Resting(o.side.Opposite()))
    ensures PreReject(o.id, EventsOf(Submit(b, o).1)).Some? <==> 0 < Walk.Short(Walk.Ahead(b, o), o.remaining)
  {
    var r := Opening(b, o);
    OpeningRun(b, o);
    Walk.LoopSpends(r, []);
    hide Loop, Submit, Shaped, Distinct, Walk.Slices, FillOrKill.Got, PreReject;
    if Loop(r, []).taker.remaining > 0 { UnfilledIsRejected(b, o); } else { EndsWellNoReject(b, o); }
  }

  /** No order but a fill-or-kill order is rejected after the pre-check. */
  lemma OtherKindsAreNotRejected(b: Book, o: Order)
    requires Valid(b) && Fresh(b, o) && Refusal(b, o).None? && o.kind != Fok && Priced(o)
    ensures PreReject(o.id, EventsOf(Submit(b, o).1)).None?
  {
    if o.kind.IsStop() || !Meets(b, o) {
      UnmetIsNoReject(b, o);
    } else {
      OpeningRun(b, o);
      CrossingIsNotPostOnly(b, o);
      hide Loop, Submit, Shaped, Distinct, Step, Meets;
      EndsWellNoReject(b, o);
    }
  }

  lemma CrossingIsNotPostOnly(b: Book, o: Order)
    requires Refusal(b, o).None? && Opening(b, o).Active() && Priced(o)
    ensures o.kind != PostOnly
  {
  }

  /** An order is rejected after the pre-check let it pass if and only if it is fill-or-kill, in
    CancelMaker mode, and what its limit reaches suffices only with its owner's orders. */
  lemma LateRejectIffShort(b: Book, o: Order)
    requires Valid(b) && Fresh(b, o) && Priced(o)
    requires FillOrKill.Unlinked(b.Resting(o.side.Opposite()), o, b.links)
    ensures Refusal(b, o).None? && PreReject(o.id, EventsOf(Submit(b, o).1)).Some? <==>
      var s := b.Resting(o.side.Opposite());
      o.kind == Fok && o.stpMode == CancelMaker && FillOrKill.Capacity(s, o) < o.remaining <= Eligible(s, o)
  {
    if Refusal(b, o).None? {
      if o.kind == Fok && o.stpMode == CancelMaker {
        FillOrKill.ImmediateFill(b, o);
        if FillOrKill.Capacity(b.Resting(o.side.Opposite()), o) < o.remaining {
          ShortIsRejected(b, o);
        } else {
          FilledIsNotRejected(b, o);
        }
      } else {
        OthersAreNotRejected(b, o);
      }
    }
  }

  lemma ShortIsRejected(b: Book, o: Order)
    requires Valid(b) && Fresh(b, o) && o.kind == Fok && o.stpMode == CancelMaker && Refusal(b, o).None?
    requires FillOrKill.Unlinked(b.Resting(o.side.Opposite()), o, b.links)
    requires FillOrKill.Capacity(b.Resting(o.side.Opposite()), o) < o.remaining
    ensures PreReject(o.id, EventsOf(Submit(b, o).1)).Some?
  {
    var r := Opening(b, o);
    OpeningLive(b, o);
    CancelMakerLoop(r, []);
    FillOrKill.LoopFills(r, []);
    hide Loop, FillOrKill.Capacity, FillOrKill.Got;
    UnfilledIsRejected(b, o);
  }

}
