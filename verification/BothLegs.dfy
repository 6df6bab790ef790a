/** A run of requests in which both legs of an OCO pair are filled: the one used up while the
  other, a triggered stop, waits in the queue (engine/crates/core/src/book.rs). */
module BothLegs {
  import opened Orders
  import opened Ladder
  import opened Matcher
  import opened BookInvariants
  import opened Cascade
  import opened Wire
  import opened Rejects
  import opened Engine
  import opened ExactTable
  import opened Divergence
  import opened Counterexamples

  const Bid := WireOrder(1, 30, "S", Buy, Limit, Some(90), 1, CancelMaker, None, None, None)
  const BuyLeg := WireOrder(2, 30, "S", Buy, StopMarket, None, 1, CancelMaker, Some(100), Some(1), None)
  const SellStop := WireOrder(3, 40, "S", Sell, StopMarket, None, 1, CancelMaker, Some(100), None, None)
  const Trader := WireOrder(6, 20, "S", Buy, Limit, Some(100), 1, CancelMaker, None, None, None)

  /** Two asks, a bid with a buy stop as its other leg, and another user's sell stop. */
  function Poised(low: Order, high: Order): Book {
    Book([ToCore(Bid)], [low, high], [ToCore(BuyLeg)], [ToCore(SellStop)], map[1 := 2, 2 := 1])
  }

  ghost predicate Asks(low: Order, high: Order) {
    low == ToCore(Ask(4, 10, 100, 1)) && high == ToCore(Ask(5, 10, 101, 1))
  }

  lemma AllSimple()
    ensures Simple(Bid) && Simple(BuyLeg) && Simple(SellStop) && Validate(Trader).None?
  {
    NotBlank();
  }

  lemma BidJoins(low: Order, high: Order)
    requires Asks(low, high)
    ensures var b, o := EmptyBook.(asks := [low, high]), ToCore(Bid);
      Comes(WithLink(b, o), o) && With(WithLink(b, o), o) == b.(bids := [o])
  {
    assert Insert(BidShelf, [], ToCore(Bid)) == [ToCore(Bid)];
  }

  lemma LegJoins(low: Order, high: Order)
    ensures var b, o := Book([ToCore(Bid)], [low, high], [], [], map[]), ToCore(BuyLeg);
      && Comes(WithLink(b, o), o)
      && With(WithLink(b, o), o) == Book([ToCore(Bid)], [low, high], [o], [], map[1 := 2, 2 := 1])
  {
    assert Insert(StopShelf, [], ToCore(BuyLeg)) == [ToCore(BuyLeg)];
  }

  lemma StopJoins(low: Order, high: Order)
    ensures var b, o := Book([ToCore(Bid)], [low, high], [ToCore(BuyLeg)], [], map[1 := 2, 2 := 1]), ToCore(SellStop);
      Comes(WithLink(b, o), o) && With(WithLink(b, o), o) == Poised(low, high)
  {
    assert Insert(StopShelf, [], ToCore(SellStop)) == [ToCore(SellStop)];
  }

  lemma Preparing(low: Order, high: Order) returns (reqs: seq<Request>)
    requires Asks(low, high)
    ensures Reached(reqs, Poised(low, high), {4, 5, 1, 2, 3})
  {
    hide Reached, Simple, Comes, With, WithLink;
    AllSimple();
    BidJoins(low, high);
    LegJoins(low, high);
    StopJoins(low, high);
    reqs := TwoAsks(Ask(4, 10, 100, 1), Ask(5, 10, 101, 1));
    reqs := Next(reqs, Bid, EmptyBook.(asks := [low, high]), {4, 5});
    reqs := Next(reqs, BuyLeg, Book([ToCore(Bid)], [low, high], [], [], map[]), {4, 5} + {1});
    reqs := Next(reqs, SellStop, Book([ToCore(Bid)], [low, high], [ToCore(BuyLeg)], [], map[1 := 2, 2 := 1]), {4, 5} + {1} + {2});
    assert {4, 5} + {1} + {2} + {3} == {4, 5, 1, 2, 3};
  }

  const BidFill := Fill(3, 1, 90, 1, Sell)
  const LegFill := Fill(2, 5, 101, 1, Buy)

  // ---- The call ------------------------------------------------------------------

  function ActiveLeg(): Order {
    ToCore(BuyLeg).(kind := Market)
  }

  function ActiveStop(): Order {
    ToCore(SellStop).(kind := Market)
  }

  lemma BothDue(b: Book)
    requires b.buyStops == [ToCore(BuyLeg)] && b.sellStops == [ToCore(SellStop)]
    ensures Due(b, 100) == [ActiveLeg()] + [ActiveStop()] && Undue(b, 100) == b.(buyStops := [], sellStops := [])
  {
    var leg, stop := ToCore(BuyLeg), ToCore(SellStop);
    assert UpTo([leg][1..], 100) == 0;
    assert ActivateAll([leg]) == [ActiveLeg()] && ActivateAll([stop]) == [ActiveStop()];
    assert [leg][..1] == [leg] && [stop][0..] == [stop];
  }

  lemma NoneDue(b: Book, price: int)
    requires b.buyStops == [] && b.sellStops == []
    ensures Due(b, price) == [] && Undue(b, price) == b
  {
  }

  /** The bid is still there, and its partner in no list. */
  function Sprung(high: Order): Book {
    Book([ToCore(Bid)], [high], [], [], map[1 := 2, 2 := 1])
  }

  lemma NothingFollows(b: Book, price: int, others: seq<Order>, moves: seq<Move>, depth: nat)
    requires b.buyStops == [] && b.sellStops == [] && depth < MAX_STOP_CHAIN_DEPTH
    ensures var v := CheckStops(b, price, others, moves, depth); v.book == b && v.queue == others && moves <= v.moves
  {
    NoneDue(b, price);
    assert others + [] == others;
  }

  /** The trader's fill sets off both stops. */
  lemma TurnOne(w: Work, low: Order, high: Order)
    requires Asks(low, high) && WorkOk(w) && w.book == Poised(low, high) && w.queue == [ToCore(Trader)] && w.depth == 0
    ensures var v := Turn(w);
      v.book == Sprung(high) && v.queue == [ActiveLeg(), ActiveStop()] && v.depth == 2
  {
    var o, c := ToCore(Trader), Poised(low, high).(asks := [high]);
    assert [low, high][1..] == [high];
    assert Matches(w.book, o) && Cleared(w.book, o) == c && Fronts(w.book, o).price == 100;
    BothDue(c);
    hide Due, Undue, Shaped, Distinct, Turn, Matches, Fronts, Cleared;
    OneFill(w);
    assert w.queue[..0] + ([ActiveLeg()] + [ActiveStop()]) == [ActiveLeg(), ActiveStop()];
  }

  /** The sell stop, last in and first out, uses the bid up: its partner is in no list. */
  lemma BidUsedUp(b: Book, high: Order)
    requires b == Sprung(high) && high.id == 5
    ensures var o := ActiveStop();
      && Matches(b, o) && Fronts(b, o) == Fill(3, 1, 90, 1, Sell)
      && Cleared(b, o) == EmptyBook.(asks := [high])
  {
    var popped := b.WithResting(Buy, b.bids[1..]);
    var bare := popped.(links := popped.links - {1, 2});
    assert bare == EmptyBook.(asks := [high]);
    assert Find([high], 2) == 1 by { assert [high][1..] == []; }
    assert Withdraw(bare, 2, OcoCancel) == (bare, []);
  }

  lemma TurnTwo(w: Work, high: Order)
    requires WorkOk(w) && w.queue == [ActiveLeg(), ActiveStop()] && w.depth == 2 && high.id == 5
    requires w.book == Sprung(high)
    ensures var v := Turn(w);
      && v.book == EmptyBook.(asks := [high]) && v.queue == [ActiveLeg()]
      && Trade(BidFill) in v.moves
  {
    hide CheckStops, Shaped, Distinct, Turn, Matches, Fronts, Cleared;
    BidUsedUp(w.book, high);
    OneFill(w);
    hide Sprung, ActiveLeg, ActiveStop;
    var moves := w.moves + [Trade(BidFill)];
    NothingFollows(EmptyBook.(asks := [high]), 90, w.queue[..1], moves, w.depth);
    assert w.queue[..1] == [ActiveLeg()];
    assert Trade(BidFill) in moves;
  }

  /** And the buy stop buys. */
  lemma TurnThree(w: Work, high: Order)
    requires WorkOk(w) && w.queue == [ActiveLeg()] && w.book == EmptyBook.(asks := [high])
    requires high == ToCore(Ask(5, 10, 101, 1))
    ensures Trade(Fill(2, 5, 101, 1, Buy)) in Turn(w).moves
  {
    var o := ActiveLeg();
    assert [high][1..] == [];
    assert Matches(w.book, o) && Fronts(w.book, o) == Fill(2, 5, 101, 1, Buy);
    hide CheckStops, Shaped, Distinct, Turn, Matches, Fronts, Cleared;
    OneFill(w);
    CheckAdds(Cleared(w.book, o), 101, w.queue[..0], w.moves + [Trade(Fill(2, 5, 101, 1, Buy))], w.depth);
    assert Trade(Fill(2, 5, 101, 1, Buy)) in w.moves + [Trade(Fill(2, 5, 101, 1, Buy))];
  }

  lemma CheckAdds(b: Book, price: int, others: seq<Order>, moves: seq<Move>, depth: nat)
    ensures moves <= CheckStops(b, price, others, moves, depth).moves
  {
    hide Due, Undue, Triggered, Cascade.Dropped;
  }

  /** Both legs trade in the one call. */
  lemma CallFillsBoth(b: Book, low: Order, high: Order)
    requires Asks(low, high) && b == Poised(low, high) && Valid(b) && Fresh(b, ToCore(Trader))
    ensures Trade(BidFill) in Submit(b, ToCore(Trader)).1 && Trade(LegFill) in Submit(b, ToCore(Trader)).1
  {
    hide Shaped, Distinct, Poised, RunAll;
    OpeningLive(b, ToCore(Trader));
    AllTurns(Start(b, ToCore(Trader)), low, high);
  }

  lemma AllTurns(w: Work, low: Order, high: Order)
    requires Asks(low, high) && WorkOk(w) && w.book == Poised(low, high) && w.queue == [ToCore(Trader)] && w.depth == 0
    ensures Trade(BidFill) in RunAll(w).moves && Trade(LegFill) in RunAll(w).moves
  {
    hide Shaped, Distinct, Turn, Poised, Sprung, ActiveLeg, ActiveStop;
    TurnOne(w, low, high);
    LaterTurns(Turn(w), high);
  }

  lemma LaterTurns(w: Work, high: Order)
    requires WorkOk(w) && w.queue == [ActiveLeg(), ActiveStop()] && w.depth == 2 && w.book == Sprung(high)
    requires high == ToCore(Ask(5, 10, 101, 1))
    ensures Trade(BidFill) in RunAll(w).moves && Trade(LegFill) in RunAll(w).moves
  {
    hide Shaped, Distinct, Turn, Sprung;
    TurnTwo(w, high);
    var v := Turn(w);
    hide ActiveStop, ToCore;
    TurnThree(v, high);
    assert RunAll(w) == RunAll(v) == RunAll(Turn(v));
    hide RunAll, ActiveLeg;
    RunAllExtends(v);
    RunAllExtends(Turn(v));
  }

  lemma TraderIsServed(b: Book, low: Order, high: Order)
    requires Asks(low, high) && b == Poised(low, high) && Valid(b) && Fresh(b, ToCore(Trader))
    ensures PreReject(6, EventsOf(Submit(b, ToCore(Trader)).1)).None?
  {
    hide Shaped, Distinct, EventsOf, PreReject, Submit;
    OtherKindsAreNotRejected(b, ToCore(Trader));
  }

  /** What the server answers to an order that is not rejected. */
  lemma Answers(s: Server, w: WireOrder, moves: seq<Move>)
    requires ServerSane(s) && Acceptable(s, w) && Reaches(s, w)
    requires Yields(s, w, moves) && PreReject(w.id, EventsOf(moves)).None?
    ensures Handle(s, PlaceRequest(w)).1 == Served(EventsOf(moves))
  {
    hide Sane, Submit, PlaceInBook, PreReject, EventsOf;
    ValidatedIsReady(w);
  }

  lemma TraderReaches(s: Server, b: Book, ids: set<Id>)
    requires Holds(s, b, ids) && 6 !in ids
    ensures Acceptable(s, Trader) && Reaches(s, Trader) && Found(s, Trader) == b
  {
    AllSimple();
  }

  /** There is a run after which a bid and a buy stop are linked as a pair, and an order to which
    the server answers with fills of both. */
  lemma BothLegsFill() returns (reqs: seq<Request>)
    ensures Admissible(reqs) && Acceptable(Serve(reqs), Trader)
    ensures BookOf(Serve(reqs).state, "S").links == map[1 := 2, 2 := 1]
    ensures var answer := Handle(Serve(reqs), PlaceRequest(Trader)).1;
      answer.Served? && Filled(BidFill) in answer.events && Filled(LegFill) in answer.events
  {
    hide Exact, PlainRun, Submit, EventsOf, Fresh, BookInvariants.Valid, PreReject, Reaches, Found, Acceptable, Handle, ServerSane;
    var low, high := ToCore(Ask(4, 10, 100, 1)), ToCore(Ask(5, 10, 101, 1));
    reqs := Preparing(low, high);
    var s, b := Serve(reqs), Poised(low, high);
    TraderReaches(s, b, {4, 5, 1, 2, 3});
    FoundOk(s, Trader);
    CallFillsBoth(b, low, high);
    TraderIsServed(b, low, high);
    var moves := Submit(b, ToCore(Trader)).1;
    Answers(s, Trader, moves);
    MoveHasEvent(moves, Trade(BidFill), Filled(BidFill));
    MoveHasEvent(moves, Trade(LegFill), Filled(LegFill));
  }
}
