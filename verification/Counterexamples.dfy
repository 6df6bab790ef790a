/** Runs of the server after which the live table, its books and its replay differ. */
module Counterexamples {
  import opened Orders
  import opened Ladder
  import opened Matcher
  import opened BookInvariants
  import opened Cascade
  import opened Conservation
  import opened Histories
  import opened OpenOrders
  import opened Origins
  import opened Wire
  import opened Rejects
  import opened Engine
  import opened ExactTable
  import opened Divergence
  import FillOrKill
  import Terms
  import Stops
  import Discards

  // ---- Orders that only rest -----------------------------------------------------

  lemma QuietRest(id: Id, qty: int)
    ensures Spoken([Rest(id, qty)], id) && Spoken([Rest(id, qty)] + [RunEnd(None, 0)], id)
  {
    forall x ensures Unheard(x, Some(id), [Rest(id, qty)]) == 0
    {
      UnheardPush(x, Some(id), [], Rest(id, qty));
      assert [] + [Rest(id, qty)] == [Rest(id, qty)];
    }
    forall x ensures Unheard(x, Some(id), [Rest(id, qty)] + [RunEnd(None, 0)]) == 0 {
      UnheardPush(x, Some(id), [Rest(id, qty)], RunEnd(None, 0));
    }
  }

  /** The only book that counts is this one, and these ids have been placed. */
  ghost predicate Holds(s: Server, b: Book, ids: set<Id>) {
    BookOf(s.state, "S") == b && s.halted == {} && PlacedIn(s.log).Keys == ids
  }

  /** A wire order for the book in question. */
  predicate Simple(w: WireOrder) {
    w.symbol == "S" && Validate(w).None? && w.displayQty.None?
  }

  /** The order comes to rest, or waits for its stop price, without meeting any other. */
  predicate Comes(b: Book, o: Order) {
    if o.kind.IsStop() then o.stopPrice.Some?
    else Disposal(o.kind, false).None? && o.price.Some? && !WouldCross(b, o)
  }

  function With(b: Book, o: Order): Book {
    if o.kind.IsStop() then b.WithStops(o.side, Insert(StopShelf, b.Stops(o.side), o))
    else b.WithResting(o.side, Insert(ShelfOf(o.side), b.Resting(o.side), o))
  }

  lemma ComesToRest(b: Book, o: Order)
    requires Valid(b) && Fresh(b, o) && Comes(b, o)
    ensures Submit(b, o).0 == With(b, o) && EventsOf(Submit(b, o).1) == [Rested(o.id, o.remaining)]
    ensures Spoken(Submit(b, o).1, o.id)
  {
    QuietRest(o.id, o.remaining);
    if o.kind.IsStop() {
      OneEvent(Rest(o.id, o.remaining));
    } else {
      Terms.PassiveRests(b, o);
    }
    hide Spoken, Insert, EventsOf, RunAll, Shaped, Distinct;
  }

  /** An order that only comes to rest is entered exactly, and its book is as expected. */
  lemma RestServed(s: Server, w: WireOrder)
    requires ServerSane(s) && Acceptable(s, w) && Reaches(s, w) && Comes(Found(s, w), ToCore(w))
    ensures ExactTable.Plain(s, w)
    ensures var q := ServePlace(s, w).0;
      && BookOf(q.state, w.symbol) == With(Found(s, w), ToCore(w)) && q.halted == s.halted
      && q.log == s.log + [PlaceLogged(ToCore(w))]
  {
    var o := ToCore(w);
    ValidatedIsReady(w);
    MeetsBook(s.state, o, PlacedIn(s.log));
    hide Submit, With, Comes, Spoken, ApplyUpdates, Fresh, Sane, BookSane;
    ComesToRest(Found(s, w), o) by { BookOk(Found(s, w), PlacedIn(s.log), w.symbol); }
  }

  lemma Joins(s: Server, w: WireOrder, b: Book, ids: set<Id>)
    requires ServerSane(s) && Holds(s, b, ids) && Simple(w) && w.id !in ids
    requires Comes(WithLink(b, ToCore(w)), ToCore(w))
    ensures Acceptable(s, w) && ExactTable.Plain(s, w)
    ensures Holds(ServePlace(s, w).0, With(WithLink(b, ToCore(w)), ToCore(w)), ids + {w.id})
  {
    hide ServePlace, ExactTable.Plain, With, Comes, Validate;
    RestServed(s, w);
    LogGrows(s.log, PlaceLogged(ToCore(w)));
  }

  lemma PlainGrows(reqs: seq<Request>, w: WireOrder)
    requires Admissible(reqs) && PlainRun(reqs) && Acceptable(Serve(reqs), w) && ExactTable.Plain(Serve(reqs), w)
    ensures var later := reqs + [PlaceRequest(w)];
      Admissible(later) && PlainRun(later) && Serve(later) == ServePlace(Serve(reqs), w).0
  {
    var later := reqs + [PlaceRequest(w)];
    assert later[..|later| - 1] == reqs;
    hide ServePlace, Acceptable, ExactTable.Plain;
  }

  /** A run that leaves the book like this, with an exact table and in step with its log. */
  ghost predicate Reached(reqs: seq<Request>, b: Book, ids: set<Id>) {
    Admissible(reqs) && PlainRun(reqs) && Holds(Serve(reqs), b, ids)
  }

  lemma Next(reqs: seq<Request>, w: WireOrder, b: Book, ids: set<Id>) returns (later: seq<Request>)
    requires Reached(reqs, b, ids) && Simple(w) && w.id !in ids && Comes(WithLink(b, ToCore(w)), ToCore(w))
    ensures Reached(later, With(WithLink(b, ToCore(w)), ToCore(w)), ids + {w.id})
  {
    Joins(Serve(reqs), w, b, ids);
    hide ExactTable.Plain, PlainRun, Holds, Serve, Acceptable, With, WithLink, Comes, ServePlace, Simple;
    PlainGrows(reqs, w);
    later := reqs + [PlaceRequest(w)];
  }

  lemma Begin()
    ensures Reached([], EmptyBook, {})
  {
  }

  lemma {:induction false} PlainIsClean(reqs: seq<Request>)
    requires Admissible(reqs) && PlainRun(reqs)
    ensures CleanRun(reqs)
  {
    if reqs != [] {
      PlainIsClean(reqs[..|reqs| - 1]);
      hide CleanReject;
    }
  }

  lemma ReachedIsExact(reqs: seq<Request>, b: Book, ids: set<Id>)
    requires Reached(reqs, b, ids)
    ensures InSync(Serve(reqs)) && ServerExact(Serve(reqs))
  {
    PlainIsClean(reqs);
    ReplayRebuildsLive(reqs);
    ServeExact(reqs);
  }

  lemma NotBlank()
    ensures !IsBlank("S")
  {
    assert 'S' in "S" && !IsSpace('S');
  }

  // ---- A rejected order that replay does not undo --------------------------------

  function Ask(id: Id, user: UserId, price: int, qty: int): WireOrder {
    WireOrder(id, user, "S", Sell, Limit, Some(price), qty, CancelMaker, None, None, None)
  }

  lemma AskIsSimple(id: Id, user: UserId, price: int, qty: int)
    requires 0 < price && 0 < qty
    ensures Simple(Ask(id, user, price, qty))
    ensures forall b: Book :: b.bids == [] ==> Comes(b, ToCore(Ask(id, user, price, qty)))
  {
    NotBlank();
  }

  lemma {:induction false} InsertBehind(shelf: Shelf, s: seq<Order>, o: Order)
    requires forall k :: 0 <= k < |s| ==> RankOf(shelf, s[k]) <= RankOf(shelf, o)
    ensures Insert(shelf, s, o) == s + [o]
  {
    if s != [] { InsertBehind(shelf, s[1..], o); }
  }

  lemma AskNext(reqs: seq<Request>, w: WireOrder, asks: seq<Order>, ids: set<Id>) returns (later: seq<Request>)
    requires w == Ask(w.id, w.user, w.price.Or(0), w.quantity) && 0 < w.price.Or(0) && 0 < w.quantity && w.id !in ids
    requires Reached(reqs, EmptyBook.(asks := asks), ids)
    requires forall k :: 0 <= k < |asks| ==> RankOf(AskShelf, asks[k]) <= w.price.Or(0)
    ensures Reached(later, EmptyBook.(asks := asks + [ToCore(w)]), ids + {w.id})
  {
    var b := EmptyBook.(asks := asks);
    AskIsSimple(w.id, w.user, w.price.Or(0), w.quantity);
    InsertBehind(AskShelf, asks, ToCore(w));
    hide Reached, Simple, Comes, Insert;
    assert With(b, ToCore(w)) == EmptyBook.(asks := asks + [ToCore(w)]);
    later := Next(reqs, w, b, ids);
  }

  lemma AskKey(w: WireOrder)
    ensures RankOf(AskShelf, ToCore(w)) == w.price.Or(0)
  {
  }

  /** Two asks rest, the second not better than the first. */
  lemma TwoAsks(a: WireOrder, c: WireOrder) returns (reqs: seq<Request>)
    requires a == Ask(a.id, a.user, a.price.Or(0), a.quantity) && c == Ask(c.id, c.user, c.price.Or(0), c.quantity)
    requires a.id != c.id && 0 < a.price.Or(0) <= c.price.Or(0) && 0 < a.quantity && 0 < c.quantity
    ensures Reached(reqs, EmptyBook.(asks := [ToCore(a), ToCore(c)]), {a.id, c.id})
  {
    hide Reached, ToCore;
    Begin();
    assert EmptyBook.(asks := []) == EmptyBook && [] + [ToCore(a)] == [ToCore(a)] && {} + {a.id} == {a.id};
    assert [ToCore(a)] + [ToCore(c)] == [ToCore(a), ToCore(c)] && {a.id} + {c.id} == {a.id, c.id};
    AskKey(a);
    reqs := AskNext([], a, [], {});
    reqs := AskNext(reqs, c, [ToCore(a)], {a.id});
  }

  function Whole(): WireOrder {
    WireOrder(3, 20, "S", Buy, Fok, Some(100), 2, CancelMaker, None, None, None)
  }

  lemma WholeIsShort(s: Server, f: Order, o: Order)
    requires f == ToCore(Ask(1, 10, 100, 1)) && o == ToCore(Ask(2, 20, 100, 1))
    requires Holds(s, EmptyBook.(asks := [f, o]), {1, 2})
    ensures var w := Whole();
      && Acceptable(s, w) && Reaches(s, w) && Short(s, w)
      && FillOrKill.Unlinked(Opposite(s, w), ToCore(w), Found(s, w).links)
  {
    var t, asks := ToCore(Whole()), [f, o];
    NotBlank();
    assert asks[1..] == [o];
    assert [o][1..] == [];
    assert Eligible([], t) == 0 && Eligible([o], t) == 1;
    assert FillOrKill.Given([], t, None) == 0 && FillOrKill.Given([o], t, None) == 0;
    assert FillOrKill.Unlinked([o], t, map[]);
  }

  /** Two asks of 1, one of them the buyer's, and a fill-or-kill bid for 2: the bid takes both
    off the book and is rejected, and a restart shows what the live table does not. */
  lemma ReplayCanDiffer() returns (reqs: seq<Request>)
    ensures Admissible(reqs) && Restore(Serve(reqs).log) != Serve(reqs).state
  {
    var f, o := Ask(1, 10, 100, 1), Ask(2, 20, 100, 1);
    var before := TwoAsks(f, o);
    ReachedIsExact(before, EmptyBook.(asks := [ToCore(f), ToCore(o)]), {1, 2});
    WholeIsShort(Serve(before), ToCore(f), ToCore(o));
    hide Short, ServePlace, Restore, Exact, FillOrKill.Unlinked, Holds, PlainRun, CleanRun;
    DivergesIffShort(Serve(before), Whole());
    reqs := before + [PlaceRequest(Whole())];
    assert reqs[..|reqs| - 1] == before;
  }

  // ---- What the table shows after an order ---------------------------------------

  /** These are the order's moves. */
  ghost predicate Yields(s: Server, w: WireOrder, moves: seq<Move>)
    requires ServerSane(s) && Acceptable(s, w) && Reaches(s, w)
  {
    ValidatedIsReady(w);
    PlaceInBook(s.state, ToCore(w), PlacedIn(s.log)).1 == moves
  }

  lemma FoundOk(s: Server, w: WireOrder)
    requires ServerSane(s) && Acceptable(s, w) && Reaches(s, w)
    ensures BookInvariants.Valid(Found(s, w)) && Fresh(Found(s, w), ToCore(w))
    ensures Yields(s, w, Submit(Found(s, w), ToCore(w)).1)
  {
    ValidatedIsReady(w);
    MeetsBook(s.state, ToCore(w), PlacedIn(s.log));
    hide Submit, Fresh, Sane;
  }

  lemma EntryAfter(s: Server, w: WireOrder, moves: seq<Move>, x: Id)
    requires ServerSane(s) && Acceptable(s, w) && Reaches(s, w) && ServerExact(s)
    requires Yields(s, w, moves) && PreReject(w.id, EventsOf(moves)).None?
    ensures var q := ServePlace(s, w).0;
      AmountIn(q.state.open, x) == Held(q.state, PlacedIn(q.log), x) + Unheard(x, Some(w.id), moves)
  {
    hide Submit, ApplyUpdates, Sane, Exact, Unheard, PreReject, EventsOf, Held, PlaceInBook;
    var o := ToCore(w);
    ValidatedIsReady(w);
    LogGrows(s.log, PlaceLogged(o));
    PlaceAmount(s.state, o, PlacedIn(s.log), x);
  }

  // ---- A Decrement that the table does not hear of -------------------------------

  /** An order smaller than its owner's in front of it is spent on it, in Decrement mode. */
  lemma SpentOnOwn(b: Book, o: Order)
    requires Valid(b) && Fresh(b, o) && Refusal(b, o).None? && !o.kind.IsStop() && Opening(b, o).Active()
    requires o.stpMode == Decrement
    requires var own := Opening(b, o).Opposing()[0]; own.user == o.user && o.remaining < own.remaining
    ensures var side, s := o.side.Opposite(), b.Resting(o.side.Opposite());
      Submit(b, o) == (b.WithResting(side, [s[0].(remaining := s[0].remaining - o.remaining)] + s[1..]),
        [Void(o.id, o.remaining, SelfTradePrevented, Incoming), Shrink(s[0].id, o.remaining)] + [RunEnd(None, 0)])
  {
    var r := Opening(b, o);
    OpeningRun(b, o);
    StepKeeps(r, []);
    StepShrinks(r);
    assert Loop(r, []) == Step(r);
    assert forall m: Move, n: Move :: [] + [m, n] == [m, n];
    hide Shaped, Distinct, Refusal, Submit;
    Terms.TradelessCall(b, o);
  }

  lemma ShrinkIsUnheard(x: Id, o: Order, qty: int)
    requires x != o.id
    ensures Unheard(x, Some(o.id), [Void(o.id, o.remaining, SelfTradePrevented, Incoming), Shrink(x, qty)] + [RunEnd(None, 0)]) == qty
  {
    var void := Void(o.id, o.remaining, SelfTradePrevented, Incoming);
    UnheardPush(x, Some(o.id), [void, Shrink(x, qty)], RunEnd(None, 0));
    UnheardPush2(x, Some(o.id), [], void, Shrink(x, qty));
    assert [] + [void, Shrink(x, qty)] == [void, Shrink(x, qty)];
  }

  /** Spent like that, an order is not rejected, and what it took goes unheard. */
  lemma SpentUnheard(b: Book, o: Order)
    requires Valid(b) && Fresh(b, o) && Refusal(b, o).None? && !o.kind.IsStop() && Opening(b, o).Active()
    requires o.stpMode == Decrement
    requires var own := Opening(b, o).Opposing()[0]; own.user == o.user && o.remaining < own.remaining
    ensures var own, moves := Opening(b, o).Opposing()[0], Submit(b, o).1;
      PreReject(o.id, EventsOf(moves)).None? && Unheard(own.id, Some(o.id), moves) == o.remaining
  {
    var own := Opening(b, o).Opposing()[0];
    NotItself(b, o);
    SpentOnOwn(b, o);
    ShrinkIsUnheard(own.id, o, o.remaining);
    NoRejectHere(o.id, o.remaining, own.id);
    hide Submit, Unheard, PreReject, EventsOf, Shaped, Distinct;
  }

  /** From an exact table: whatever server, book and orders, the own order that a smaller one is
    spent on stays in the table at its old size. */
  lemma DecrementMisleads(s: Server, w: WireOrder)
    requires ServerSane(s) && Acceptable(s, w) && ServerExact(s) && Reaches(s, w)
    requires w.stpMode == Decrement && w.kind in {Limit, Market, Ioc, Oco, Iceberg}
    requires Opening(Found(s, w), ToCore(w)).Active()
    requires var own := Opposite(s, w)[0]; own.user == w.user && w.quantity < own.remaining
    ensures var q, own := ServePlace(s, w).0, Opposite(s, w)[0];
      AmountIn(q.state.open, own.id) == Held(q.state, PlacedIn(q.log), own.id) + w.quantity
  {
    var o, b := ToCore(w), Found(s, w);
    FoundOk(s, w);
    hide ServePlace, Held, Sane, Exact, Yields, Reaches, Found, Fresh, BookInvariants.Valid, Submit, Unheard, PreReject;
    SpentUnheard(b, o);
    EntryAfter(s, w, Submit(b, o).1, Opposite(s, w)[0].id);
  }

  lemma NotItself(b: Book, o: Order)
    requires Valid(b) && Fresh(b, o) && b.Resting(o.side.Opposite()) != [] && !o.kind.IsStop()
    ensures b.Resting(o.side.Opposite())[0].id != o.id
  {
    OpeningLive(b, o);
    FillOrKill.NotTwice(b, o.side.Opposite(), o, []);
  }

  lemma NoRejectHere(id: Id, qty: int, x: Id)
    ensures PreReject(id, EventsOf([Void(id, qty, SelfTradePrevented, Incoming), Shrink(x, qty)] + [RunEnd(None, 0)])).None?
  {
    NoCodeNoReject(id, [Void(id, qty, SelfTradePrevented, Incoming), Shrink(x, qty)] + [RunEnd(None, 0)]);
  }

  const Smaller := WireOrder(3, 20, "S", Buy, Limit, Some(100), 1, Decrement, None, None, None)

  lemma OwnAhead(s: Server, own: Order)
    requires own == ToCore(Ask(2, 20, 100, 3)) && Holds(s, EmptyBook.(asks := [own]), {2})
    ensures Acceptable(s, Smaller) && Reaches(s, Smaller) && Opposite(s, Smaller) == [own]
    ensures Opening(Found(s, Smaller), ToCore(Smaller)).Active()
  {
    NotBlank();
  }

  /** So there is a run after which the table shows an own ask of 3 that the book holds at 2. */
  lemma DecrementHappens() returns (reqs: seq<Request>)
    ensures Admissible(reqs) && !ServerExact(Serve(reqs))
  {
    var own := Ask(2, 20, 100, 3);
    Begin();
    assert EmptyBook.(asks := []) == EmptyBook && [] + [ToCore(own)] == [ToCore(own)] && {} + {2} == {2};
    hide Reached;
    var before := AskNext([], own, [], {});
    ReachedIsExact(before, EmptyBook.(asks := [ToCore(own)]), {2});
    reqs := DecrementNext(before, ToCore(own));
  }

  lemma DecrementNext(before: seq<Request>, own: Order) returns (reqs: seq<Request>)
    requires own == ToCore(Ask(2, 20, 100, 3)) && Reached(before, EmptyBook.(asks := [own]), {2})
    requires ServerExact(Serve(before))
    ensures Admissible(reqs) && !ServerExact(Serve(reqs))
  {
    hide ServePlace, Exact, PlainRun, Held, Holds, Found, Reaches, Opposite;
    OwnAhead(Serve(before), own);
    DecrementMisleads(Serve(before), Smaller);
    reqs := before + [PlaceRequest(Smaller)];
    assert reqs[..|reqs| - 1] == before;
    Off(Serve(reqs), 2);
  }

  lemma Off(s: Server, x: Id)
    requires AmountIn(s.state.open, x) != Held(s.state, PlacedIn(s.log), x)
    ensures !ServerExact(s)
  {
  }

  /** An order larger than its owner's, which is all there is to meet, outlives it. */
  lemma SurvivorSteps(r: Run)
    requires r.Active() && r.moves == [] && r.last.None? && |r.Opposing()| == 1
    requires r.taker.kind == Limit && r.taker.price.Some? && r.taker.stpMode == Decrement
    requires var own := r.Opposing()[0]; own.user == r.taker.user && own.remaining < r.taker.remaining
    ensures var q, own, rest := Step(r), r.Opposing()[0], r.taker.remaining - r.Opposing()[0].remaining;
      && !q.Active() && Finish(q).last.None?
      && Finish(q).moves == [Void(own.id, own.remaining, SelfTradePrevented, Booked), Shrink(r.taker.id, own.remaining)] +
           [Rest(r.taker.id, rest)]
  {
    assert forall m: Move, n: Move :: [] + [m, n] == [m, n];
    hide Insert;
  }

  /** The larger order that submits itself to a Decrement is entered with what it rests with. */
  lemma SurvivorIsSpoken(b: Book, o: Order)
    requires Valid(b) && Fresh(b, o) && o.kind == Limit && o.price.Some? && Opening(b, o).Active()
    requires o.stpMode == Decrement && |Opening(b, o).Opposing()| == 1
    requires var own := Opening(b, o).Opposing()[0]; own.user == o.user && own.remaining < o.remaining
    ensures Spoken(Submit(b, o).1, o.id)
  {
    var r, own := Opening(b, o), Opening(b, o).Opposing()[0];
    OpeningRun(b, o);
    StepKeeps(r, []);
    StepShrinks(r);
    SurvivorSteps(r);
    NotItself(b, o);
    hide Shaped, Distinct, Submit, Step, Finish, Spoken;
    assert Loop(r, []) == Step(r);
    Terms.TradelessCall(b, o);
    SurvivorMoves(own.id, own.remaining, o.id, o.remaining - own.remaining);
  }

  lemma SurvivorMoves(y: Id, qty: int, id: Id, rest: int)
    requires y != id
    ensures Spoken([Void(y, qty, SelfTradePrevented, Booked), Shrink(id, qty)] + [Rest(id, rest)] + [RunEnd(None, 0)], id)
  {
    var p := [Void(y, qty, SelfTradePrevented, Booked), Shrink(id, qty)];
    forall x ensures Unheard(x, Some(id), p + [Rest(id, rest)] + [RunEnd(None, 0)]) == 0 {
      UnheardPush(x, Some(id), p + [Rest(id, rest)], RunEnd(None, 0));
      UnheardPush(x, Some(id), p, Rest(id, rest));
      UnheardPush2(x, Some(id), [], p[0], p[1]);
      assert [] + [p[0], p[1]] == p;
    }
  }

  // ---- A stop that the cascade limit discards ------------------------------------

  /** Whatever server, book and orders: a stop that a call discards is in no list of its book,
    and stays in the table. */
  lemma DiscardedStaysOpen(s: Server, w: WireOrder, moves: seq<Move>, x: Id)
    requires ServerSane(s) && Acceptable(s, w) && Reaches(s, w) && ServerExact(s)
    requires Yields(s, w, moves) && PreReject(w.id, EventsOf(moves)).None? && Discards.Discarded(x, moves)
    ensures var q := ServePlace(s, w).0;
      x in q.state.open && Total(Amount(x), BookOf(q.state, w.symbol)) == 0
  {
    var o, placed := ToCore(w), PlacedIn(s.log);
    ValidatedIsReady(w);
    MeetsBook(s.state, o, placed);
    Discards.DiscardedIsLost(Found(s, w), o, x) by { BookOk(Found(s, w), placed, w.symbol); }
    PlaceTable(s.state, o, placed, x);
    hide Submit, ApplyUpdates, Unheard, PreReject, EventsOf, Total, Discards.Discarded, BookSane, Exact;
    assert 0 <= Elsewhere(s.state, placed, o.symbol, x);
  }

  /** The book once the front order that `o` meets is used up: its links go, but no order. */
  function Cleared(b: Book, o: Order): Book
    requires b.Resting(o.side.Opposite()) != []
  {
    var side := o.side.Opposite();
    CancelLinked(b.WithResting(side, b.Resting(side)[1..]), b.Resting(side)[0].id).0
  }

  /** The order at hand is filled by the front order alone, and uses it up; no linked order is
    there to go with either. */
  predicate Matches(b: Book, o: Order) {
    var side := o.side.Opposite();
    var s := b.Resting(side);
    && s != [] && Admits(o, s[0].price.Or(0)) && s[0].user != o.user
    && s[0].displayQty.None? && s[0].remaining == o.remaining
    && CancelLinked(b.WithResting(side, s[1..]), s[0].id).1 == [] && o.id !in Cleared(b, o).links
  }

  function Fronts(b: Book, o: Order): Fill
    requires Matches(b, o)
  {
    var front := b.Resting(o.side.Opposite())[0];
    Fill(o.id, front.id, front.price.Or(0), o.remaining, o.side)
  }

  lemma FillStep(r: Run)
    requires Matches(r.book, r.taker) && !r.dead && 0 < r.taker.remaining
    ensures r.Active() && !Step(r).Active()
    ensures Finish(Step(r)) == Run(Cleared(r.book, r.taker), r.taker.(remaining := 0),
      r.moves + [Trade(Fronts(r.book, r.taker))], Some(Fronts(r.book, r.taker).price), false)
  {
    assert forall p: seq<Move> :: p + [] == p;
    hide Insert, Withdraw;
  }

  lemma OneFill(w: Work)
    requires WorkOk(w) && w.queue != [] && Matches(w.book, w.queue[|w.queue| - 1])
    ensures var others, o := w.queue[..|w.queue| - 1], w.queue[|w.queue| - 1];
      var f := Fronts(w.book, o);
      Turn(w) == CheckStops(Cleared(w.book, o), f.price, others, w.moves + [Trade(f)], w.depth)
  {
    var others, o := w.queue[..|w.queue| - 1], w.queue[|w.queue| - 1];
    PopQueue(w.book, w.queue);
    assert o in w.queue;
    hide Shaped, Distinct, CheckStops, Step, Finish, Matches, Fronts, Cleared;
    var r := Run(w.book, o, w.moves, None, false);
    FillStep(r);
    StepKeeps(r, others);
    StepShrinks(r);
    assert Loop(Step(r), others) == Step(r);
    assert Loop(r, others) == Step(r);
  }

  function BuyStop(id: Id, price: int): WireOrder {
    WireOrder(id, 30, "S", Buy, StopMarket, None, 1, CancelMaker, Some(price), None, None)
  }

  function Crowd(n: nat): seq<Order> {
    if n == 0 then [] else Crowd(n - 1) + [ToCore(BuyStop(99 + n, 100))]
  }

  lemma {:induction false} CrowdAt(n: nat, k: nat)
    requires k < n
    ensures |Crowd(n)| == n && Crowd(n)[k] == ToCore(BuyStop(100 + k, 100))
  {
    if k < n - 1 { CrowdAt(n - 1, k); } else if n > 1 { CrowdAt(n - 1, 0); }
  }

  lemma CrowdKeys(n: nat)
    ensures |Crowd(n)| == n && forall o :: o in Crowd(n) ==> KeyOf(StopShelf, o) == 100
  {
    forall k | 0 <= k < n ensures |Crowd(n)| == n && KeyOf(StopShelf, Crowd(n)[k]) == 100 { CrowdAt(n, k); }
  }

  lemma StopNext(reqs: seq<Request>, w: WireOrder, b: Book, ids: set<Id>) returns (later: seq<Request>)
    requires Reached(reqs, b, ids) && w == BuyStop(w.id, w.stopPrice.Or(0)) && 0 < w.stopPrice.Or(0) && w.id !in ids
    requires forall o :: o in b.buyStops ==> KeyOf(StopShelf, o) <= w.stopPrice.Or(0)
    ensures Reached(later, b.(buyStops := b.buyStops + [ToCore(w)]), ids + {w.id})
  {
    hide Reached, Insert, IsBlank;
    NotBlank();
    InsertBehind(StopShelf, b.buyStops, ToCore(w));
    later := Next(reqs, w, b, ids);
  }

  lemma {:induction false} Crowded(reqs: seq<Request>, b: Book, ids: set<Id>, n: nat)
    returns (later: seq<Request>, known: set<Id>)
    requires Reached(reqs, b, ids) && b.buyStops == [] && forall x :: x in ids ==> x < 100
    ensures Reached(later, b.(buyStops := Crowd(n)), known)
    ensures forall x :: x in known ==> x < 100 + n && (x < 100 ==> x in ids)
  {
    hide Reached;
    if n == 0 {
      assert b.(buyStops := Crowd(0)) == b;
      later, known := reqs, ids;
    } else {
      var before, seen := Crowded(reqs, b, ids, n - 1);
      CrowdKeys(n - 1);
      later := StopNext(before, BuyStop(99 + n, 100), b.(buyStops := Crowd(n - 1)), seen);
      known := seen + {99 + n};
    }
  }

  const AskLow := ToCore(Ask(1, 10, 100, 1))
  const AskHigh := ToCore(Ask(2, 10, 101, 1))
  const LateStop := ToCore(BuyStop(200, 101))
  const Opener := WireOrder(3, 20, "S", Buy, Limit, Some(100), 1, CancelMaker, None, None, None)

  /** Sixteen stops at the price of the lower ask. */
  ghost predicate Sixteen(crowd: seq<Order>) {
    |crowd| == 16 && forall k :: 0 <= k < 16 ==> crowd[k] == ToCore(BuyStop(100 + k, 100))
  }

  function Primed(crowd: seq<Order>): Book {
    EmptyBook.(asks := [AskLow, AskHigh], buyStops := crowd + [LateStop])
  }

  lemma CrowdOf(n: nat)
    requires n == 16
    ensures Sixteen(Crowd(n))
  {
    CrowdKeys(n);
    forall k | 0 <= k < n ensures Crowd(n)[k] == ToCore(BuyStop(100 + k, 100)) { CrowdAt(n, k); }
  }

  lemma Priming(n: nat) returns (reqs: seq<Request>, ids: set<Id>, crowd: seq<Order>)
    requires n == 16
    ensures Reached(reqs, Primed(crowd), ids) && 3 !in ids && Sixteen(crowd)
  {
    hide Reached, Crowd, Sixteen;
    var asks := EmptyBook.(asks := [AskLow, AskHigh]);
    CrowdKeys(n);
    CrowdOf(n);
    crowd := Crowd(n);
    reqs := TwoAsks(Ask(1, 10, 100, 1), Ask(2, 10, 101, 1));
    reqs, ids := Crowded(reqs, asks, {1, 2}, n);
    reqs := StopNext(reqs, BuyStop(200, 101), asks.(buyStops := crowd), ids);
    ids := ids + {200};
  }

  /** At the lower ask's price the sixteen are due. */
  lemma FirstDue(b: Book, crowd: seq<Order>)
    requires b.buyStops == crowd + [LateStop] && b.sellStops == [] && Sixteen(crowd)
    ensures Due(b, 100) == ActivateAll(crowd) && Undue(b, 100) == b.(buyStops := [LateStop])
  {
    hide ActivateAll;
    Stops.UpToConcat(crowd, [LateStop], 100);
    Stops.ActivateNone();
    assert ActivateAll(crowd) + [] == ActivateAll(crowd);
  }

  /** At the higher ask's, the last one. */
  lemma LastDue(b: Book)
    requires b.buyStops == [LateStop] && b.sellStops == []
    ensures Due(b, 101) == [Activate(LateStop)] && Undue(b, 101) == b.(buyStops := [])
  {
    assert [LateStop][1..] == [];
    assert UpTo(b.buyStops, 101) == 1;
  }

  /** The opener trades at the lower ask's price, and sixteen stops follow. */
  lemma FirstTurn(w: Work, crowd: seq<Order>)
    requires WorkOk(w) && w.book == Primed(crowd) && w.queue == [ToCore(Opener)] && w.depth == 0 && Sixteen(crowd)
    ensures var v := Turn(w);
      && v.book == EmptyBook.(asks := [AskHigh], buyStops := [LateStop]) && v.depth == 16
      && v.queue == ActivateAll(crowd)
  {
    hide ActivateAll, Due, Undue, Shaped, Distinct, Turn;
    assert [AskLow, AskHigh][1..] == [AskHigh];
    FirstDue(Primed(crowd).(asks := [AskHigh]), crowd);
    OneFill(w);
    assert w.queue[..0] + ActivateAll(crowd) == ActivateAll(crowd);
  }

  /** One of them trades at the higher ask's, and the last stop comes too late. */
  lemma SecondTurn(w: Work, crowd: seq<Order>)
    requires WorkOk(w) && w.book == EmptyBook.(asks := [AskHigh], buyStops := [LateStop]) && w.depth == 16
    requires w.queue == ActivateAll(crowd) && Sixteen(crowd)
    ensures w.queue != [] && Discards.Discarded(200, Turn(w).moves)
  {
    hide ActivateAll, Due, Undue, Shaped, Distinct, Turn;
    var c := EmptyBook.(buyStops := [LateStop]);
    var o := w.queue[15];
    ActivateAllAt(crowd, 15);
    assert [AskHigh][1..] == [];
    assert Matches(w.book, o) && Fronts(w.book, o).price == 101;
    LastDue(c);
    hide Matches, Fronts, Sixteen;
    OneFill(w);
    LateDropped(c, w.queue[..15], w.moves + [Trade(Fronts(w.book, o))]);
  }

  lemma LateDropped(b: Book, others: seq<Order>, moves: seq<Move>)
    requires Due(b, 101) == [Activate(LateStop)]
    ensures Discards.Discarded(200, CheckStops(b, 101, others, moves, 16).moves)
  {
    hide Due, Undue;
    var v := CheckStops(b, 101, others, moves, 16);
    assert Cascade.Dropped([Activate(LateStop)]) == [Drop(200, 1)];
    assert v.moves[|v.moves| - 1] == Drop(200, 1);
  }

  lemma OpenerDiscards(b: Book, crowd: seq<Order>)
    requires b == Primed(crowd) && Sixteen(crowd) && Valid(b) && Fresh(b, ToCore(Opener))
    ensures Discards.Discarded(200, Submit(b, ToCore(Opener)).1)
  {
    hide Shaped, Distinct, Turn, ActivateAll, Sixteen, Discards.Discarded, CheckStops;
    var o := ToCore(Opener);
    var w := Start(b, o);
    OpeningLive(b, o);
    FirstTurn(w, crowd);
    hide Primed;
    SecondTurn(Turn(w), crowd);
    RunAllExtends(Turn(Turn(w)));
    assert RunAll(w) == RunAll(Turn(w)) == RunAll(Turn(Turn(w)));
    StaysDiscarded(200, Turn(Turn(w)).moves, RunAll(w).moves);
  }

  lemma OpenerIsServed(b: Book, crowd: seq<Order>)
    requires b == Primed(crowd) && Valid(b) && Fresh(b, ToCore(Opener))
    ensures PreReject(3, EventsOf(Submit(b, ToCore(Opener)).1)).None?
  {
    hide Shaped, Distinct, EventsOf, PreReject, Submit;
    OtherKindsAreNotRejected(b, ToCore(Opener));
  }

  lemma StaysDiscarded(x: Id, a: seq<Move>, b: seq<Move>)
    requires a <= b && Discards.Discarded(x, a)
    ensures Discards.Discarded(x, b)
  {
    assert forall m :: m in a ==> m in b;
  }

  /** So there is a run after which the table shows a stop that is in no list of any book. */
  lemma DiscardHappens() returns (reqs: seq<Request>)
    ensures Admissible(reqs)
    ensures var e := Serve(reqs).state; 200 in e.open && Total(Amount(200), BookOf(e, "S")) == 0
  {
    hide Reached, Sixteen;
    var n: nat :| n == 16;
    var before, ids, crowd := Priming(n);
    ReachedIsExact(before, Primed(crowd), ids);
    reqs := DiscardNext(before, ids, crowd);
  }

  lemma DiscardNext(before: seq<Request>, ids: set<Id>, crowd: seq<Order>) returns (reqs: seq<Request>)
    requires Reached(before, Primed(crowd), ids) && 3 !in ids && Sixteen(crowd) && ServerExact(Serve(before))
    ensures Admissible(reqs)
    ensures var e := Serve(reqs).state; 200 in e.open && Total(Amount(200), BookOf(e, "S")) == 0
  {
    hide Exact, PlainRun, Primed, Sixteen, ServePlace, Total, Submit, EventsOf, Discards.Discarded, Fresh, BookInvariants.Valid;
    var s := Serve(before);
    NotBlank();
    FoundOk(s, Opener);
    OpenerDiscards(Found(s, Opener), crowd);
    OpenerIsServed(Found(s, Opener), crowd);
    DiscardedStaysOpen(s, Opener, Submit(Found(s, Opener), ToCore(Opener)).1, 200);
    reqs := before + [PlaceRequest(Opener)];
    assert reqs[..|reqs| - 1] == before;
  }
}
