/** When the table of open orders is exact: it lists what rests in a book or waits in a stop
  registry, with the right remainder, and nothing else. */
module ExactTable {
  import opened Orders
  import opened Ladder
  import opened Matcher
  import opened BookInvariants
  import opened Cascade
  import opened Conservation
  import opened Histories
  import opened OpenOrders
  import opened Origins
  import opened Wire
  import opened Engine

  /** What is left under an id, in the book of the symbol it was placed with. */
  function Held(e: State, placed: Register, x: Id): int {
    if x in placed then Total(Amount(x), BookOf(e, placed[x].symbol)) else 0
  }

  ghost predicate Exact(e: State, placed: Register) {
    forall x :: AmountIn(e.open, x) == Held(e, placed, x)
  }

  /** In the call that submits `id` nothing was taken from an order in the table silently, by a
    self-trade Decrement or the depth limit, without being put right in the same call. */
  ghost predicate Spoken(moves: seq<Move>, id: Id) {
    forall x :: Unheard(x, Some(id), moves) == 0
  }

  // ---- One book's share ----------------------------------------------------------

  /** What is entered under `x` on account of other books than that of `s`. */
  function Elsewhere(e: State, placed: Register, s: Symbol, x: Id): int {
    if x in placed && placed[x].symbol == s then 0 else AmountIn(e.open, x)
  }

  lemma BookShare(e: State, placed: Register, s: Symbol, x: Id)
    requires Sane(e, placed) && Exact(e, placed)
    ensures var b, h := BookOf(e, s), Elsewhere(e, placed, s, x);
      && AmountIn(e.open, x) == Total(Amount(x), b) + h && Apart(b, x, h)
  {
    var b, h := BookOf(e, s), Elsewhere(e, placed, s, x);
    BookOfSane(e, placed, s);
    assert Total(Count(x), b) + Sum(Count(x), []) <= 1;
    PresentIffAmount(b, x);
    assert AmountIn(e.open, x) == Held(e, placed, x);
    if !(x in placed && placed[x].symbol == s) { ForeignId(b, placed, s, x); }
  }

  /** An id placed under another symbol, or never, is not on this book. */
  lemma ForeignId(b: Book, placed: Register, s: Symbol, x: Id)
    requires BookSane(b, placed, s) && !(x in placed && placed[x].symbol == s)
    ensures Total(Count(x), b) <= 0 && Total(Amount(x), b) == 0
  {
    if Total(Count(x), b) > 0 { PresentIsPlaced(b, Under(placed, s), x); }
    AbsentAmount(b, x);
  }

  // ---- Placing -------------------------------------------------------------------

  lemma LinkTotals(b: Book, o: Order, g: Gauge)
    ensures Total(g, WithLink(b, o)) == Total(g, b)
  {
  }

  /** The book the order meets is valid, and the order is new to it. */
  lemma MeetsBook(e: State, o: Order, placed: Register)
    requires Sane(e, placed) && Loggable(o) && o.id !in placed
    ensures var b := WithLink(BookOf(e, o.symbol), o);
      BookSane(b, placed, o.symbol) && Fresh(b, o) && PlaceInBook(e, o, placed) == Submit(b, o)
  {
    BookOfSane(e, placed, o.symbol);
    LinkSane(BookOf(e, o.symbol), o, placed, o.symbol);
    UnplacedIsFresh(WithLink(BookOf(e, o.symbol), o), o, placed, o.symbol);
  }

  lemma SubmitAmount(t: Table, b: Book, o: Order, x: Id, h: int)
    requires Valid(b) && Fresh(b, o) && Positive(t) && AmountIn(t, x) == Total(Amount(x), b) + h
    requires Apart(b, x, h) && (h > 0 ==> x != o.id)
    ensures var (c, moves) := Submit(b, o);
      AmountIn(ApplyUpdates(t, Some(o), EventsOf(moves)), x) == Total(Amount(x), c) + h + Unheard(x, Some(o.id), moves)
  {
    hide Submit, ApplyUpdates, FollowAll, Valid, Fresh, Total, Unheard;
    SubmitSound(b, o);
    SubmitFollows(b, o, x, h);
    UpdatesFollow(t, Some(o), Submit(b, o).1, x);
  }

  lemma PlaceTable(e: State, o: Order, placed: Register, x: Id)
    requires Sane(e, placed) && Exact(e, placed) && Loggable(o) && o.id !in placed
    ensures var (c, moves) := PlaceInBook(e, o, placed);
      AmountIn(ApplyUpdates(e.open, Some(o), EventsOf(moves)), x) ==
        Total(Amount(x), c) + Elsewhere(e, placed, o.symbol, x) + Unheard(x, Some(o.id), moves)
  {
    var b, h := WithLink(BookOf(e, o.symbol), o), Elsewhere(e, placed, o.symbol, x);
    MeetsBook(e, o, placed);
    BookShare(e, placed, o.symbol, x);
    LinkTotals(BookOf(e, o.symbol), o, Amount(x));
    LinkTotals(BookOf(e, o.symbol), o, Count(x));
    hide Submit, ApplyUpdates, Valid, Fresh, AllFrom, StopsPriced, PlaceInBook, Total, Unheard;
    assert AmountIn(e.open, x) == Held(e, placed, x);
    SubmitAmount(e.open, b, o, x, h);
  }

  /** What is entered for other books is what they hold, before and after. */
  lemma HeldAfter(e: State, placed: Register, later: Register, q: State, s: Symbol, x: Id)
    requires Exact(e, placed) && q.books == e.books[s := BookOf(q, s)] && s in q.books
    requires BookSane(BookOf(q, s), later, s)
    requires x in placed ==> x in later && later[x].symbol == placed[x].symbol
    requires x in later && later[x].symbol != s ==> x in placed
    ensures Held(q, later, x) == Total(Amount(x), BookOf(q, s)) + Elsewhere(e, placed, s, x)
  {
    hide BookSane, Total;
    assert AmountIn(e.open, x) == Held(e, placed, x);
    if !(x in later && later[x].symbol == s) { ForeignId(BookOf(q, s), later, s, x); }
  }

  /** After an order each entry is what its book holds and what of it went unheard. */
  lemma PlaceAmount(e: State, o: Order, placed: Register, x: Id)
    requires Sane(e, placed) && Exact(e, placed) && Loggable(o) && o.id !in placed
    ensures var q := ReplayPlace(e, o, placed);
      AmountIn(q.open, x) == Held(q, placed[o.id := o], x) + Unheard(x, Some(o.id), PlaceInBook(e, o, placed).1)
  {
    hide Submit, ApplyUpdates, BookSane, Sane, Total, Unheard;
    PlaceTable(e, o, placed, x);
    HeldAfter(e, placed, placed[o.id := o], ReplayPlace(e, o, placed), o.symbol, x);
  }

  /** So an exact table stays exact if and only if nothing was left unheard. */
  lemma PlaceExact(e: State, o: Order, placed: Register)
    requires Sane(e, placed) && Exact(e, placed) && Loggable(o) && o.id !in placed
    ensures Exact(ReplayPlace(e, o, placed), placed[o.id := o]) <==> Spoken(PlaceInBook(e, o, placed).1, o.id)
  {
    var q, later, moves := ReplayPlace(e, o, placed), placed[o.id := o], PlaceInBook(e, o, placed).1;
    hide PlaceInBook, ReplayPlace, Held, Unheard;
    forall x ensures AmountIn(q.open, x) == Held(q, later, x) + Unheard(x, Some(o.id), moves) {
      PlaceAmount(e, o, placed, x);
    }
  }

  // ---- Cancelling ----------------------------------------------------------------

  lemma CancelTable(t: Table, b: Book, id: Id, x: Id, h: int)
    requires Shaped(b) && Positive(t) && Apart(b, x, h) && AmountIn(t, x) == Total(Amount(x), b) + h
    ensures var (c, moves) := CancelOrder(b, id);
      AmountIn(ApplyUpdates(t, None, EventsOf(moves)), x) == Total(Amount(x), c) + h
  {
    hide CancelOrder, ApplyUpdates, FollowAll, Shaped, Total;
    CancelSound(b, id);
    CancelFollows(b, id, x, h);
    UpdatesFollow(t, None, CancelOrder(b, id).1, x);
  }

  lemma CancelAmount(e: State, id: Id, placed: Register, x: Id)
    requires Sane(e, placed) && Exact(e, placed)
    ensures var q := CancelInBook(e, id).0; AmountIn(q.open, x) == Held(q, placed, x)
  {
    hide CancelOrder, ApplyUpdates, AllFrom, StopsPriced, Distinct, Total;
    if id in e.open && e.open[id].symbol in e.books {
      var s, q := e.open[id].symbol, CancelInBook(e, id).0;
      assert BookSane(e.books[s], placed, s);
      BookShare(e, placed, s, x);
      CancelTable(e.open, e.books[s], id, x, Elsewhere(e, placed, s, x));
      CancelSane(e, id, placed);
      assert BookSane(q.books[s], placed, s);
      HeldAfter(e, placed, placed, q, s, x);
    } else {
      assert AmountIn(e.open, x) == Held(e, placed, x);
    }
  }

  lemma CancelExact(e: State, id: Id, placed: Register)
    requires Sane(e, placed) && Exact(e, placed)
    ensures Exact(CancelInBook(e, id).0, placed)
  {
    forall x ensures var q := CancelInBook(e, id).0; AmountIn(q.open, x) == Held(q, placed, x) {
      CancelAmount(e, id, placed, x);
    }
  }

  // ---- Runs ----------------------------------------------------------------------

  ghost predicate ServerExact(s: Server) {
    Exact(s.state, PlacedIn(s.log))
  }

  /** The request neither left anything unheard nor rejected an order half done. */
  ghost predicate Plain(s: Server, w: WireOrder)
    requires ServerSane(s) && Acceptable(s, w)
  {
    CleanReject(s, w) &&
    (Validate(w).None? && w.symbol !in s.halted ==>
      (ValidatedIsReady(w); Spoken(PlaceInBook(s.state, ToCore(w), PlacedIn(s.log)).1, w.id)))
  }

  lemma ServePlaceExact(s: Server, w: WireOrder)
    requires ServerSane(s) && Acceptable(s, w) && ServerExact(s) && Plain(s, w)
    ensures ServerExact(ServePlace(s, w).0)
  {
    if Validate(w).None? && w.symbol !in s.halted {
      var o, placed := ToCore(w), PlacedIn(s.log);
      ValidatedIsReady(w);
      LogGrows(s.log, PlaceLogged(o));
      PlaceExact(s.state, o, placed);
      var events := EventsOf(PlaceInBook(s.state, o, placed).1);
      if PreReject(o.id, events).Some? { CleanRejectChangesNothing(s.state.open, o, events); }
    }
  }

  /** When the updates of an order are applied, the entry of any order, the new one included,
    is right again if and only if whatever went silently of it was followed, in the same call,
    by the news that it rests or is cancelled. */
  lemma EntryRightIffRepaired(s: Server, w: WireOrder, x: Id)
    requires ServerSane(s) && Acceptable(s, w) && ServerExact(s) && Validate(w).None? && w.symbol !in s.halted
    requires ToCore(w).Ready() && Priced(ToCore(w))
    requires PreReject(w.id, EventsOf(PlaceInBook(s.state, ToCore(w), PlacedIn(s.log)).1)).None?
    ensures var q, moves := ServePlace(s, w).0, PlaceInBook(s.state, ToCore(w), PlacedIn(s.log)).1;
      AmountIn(q.state.open, x) == Held(q.state, PlacedIn(q.log), x) <==>
        forall i :: 0 <= i < |moves| && SilentAt(x, Some(w.id), moves, i) ==> RepairedAfter(x, moves, i)
  {
    var o, placed := ToCore(w), PlacedIn(s.log);
    var moves := PlaceInBook(s.state, o, placed).1;
    LogGrows(s.log, PlaceLogged(o));
    PlaceAmount(s.state, o, placed, x);
    MeetsBook(s.state, o, placed);
    SubmitSound(WithLink(BookOf(s.state, o.symbol), o), o);
    UnheardIffUnrepaired(x, Some(w.id), moves);
    hide Submit, Unheard, SilentAt, RepairedAfter, ApplyUpdates, Sane, Held;
  }

  lemma CancelKnownExact(s: Server, id: Id)
    requires ServerSane(s) && ServerExact(s)
    ensures ServerExact(CancelKnown(s, id).0)
  {
    CancelExact(s.state, id, PlacedIn(s.log));
    LogGrows(s.log, CancelLogged(id));
  }

  lemma {:induction false} CancelEachExact(s: Server, ids: seq<Id>)
    requires ServerSane(s) && ServerExact(s)
    ensures ServerExact(CancelEach(s, ids).0)
    decreases ids
  {
    if ids != [] {
      CancelKnownExact(s, ids[0]);
      CancelEachExact(CancelKnown(s, ids[0]).0, ids[1..]);
    }
  }

  ghost predicate PlainRun(reqs: seq<Request>)
    requires Admissible(reqs)
  {
    reqs == [] ||
    (PlainRun(reqs[..|reqs| - 1]) &&
     (reqs[|reqs| - 1].PlaceRequest? ==> Plain(Serve(reqs[..|reqs| - 1]), reqs[|reqs| - 1].order)))
  }

  lemma {:induction false} ServeExact(reqs: seq<Request>)
    requires Admissible(reqs) && PlainRun(reqs)
    ensures ServerExact(Serve(reqs))
  {
    if reqs != [] {
      var before, last := reqs[..|reqs| - 1], reqs[|reqs| - 1];
      var s := Serve(before);
      ServeExact(before);
      match last
      case PlaceRequest(w) => ServePlaceExact(s, w);
      case CancelRequest(id, symbol) => CancelKnownExact(s, id);
      case CancelAllRequest(user, only) => CancelEachExact(s, Ascending(Selection(s.state.open, user, only)));
      case HaltMarket(_) =>
      case ResumeMarket(_) =>
    } else {
      NothingHeld();
    }
  }

  lemma NothingHeld()
    ensures ServerExact(Idle)
  {
  }

  /** After every such run an id is in the table exactly when an order under it rests or
    waits in some book; its entry then has that order's symbol and remainder, and the owner
    it was placed by. */
  lemma OpenOrdersAreExact(reqs: seq<Request>, x: Id)
    requires Admissible(reqs) && PlainRun(reqs)
    ensures var e := Serve(reqs).state;
      && (x in e.open <==> exists s :: s in e.books && Total(Count(x), e.books[s]) > 0)
      && (x in e.open ==>
           var entry, placed := e.open[x], PlacedIn(Serve(reqs).log);
           && entry.symbol in e.books && entry.remaining == Total(Amount(x), e.books[entry.symbol])
           && x in placed && entry.user == placed[x].user && entry.symbol == placed[x].symbol)
  {
    var e, placed := Serve(reqs).state, PlacedIn(Serve(reqs).log);
    ServeExact(reqs);
    assert AmountIn(e.open, x) == Held(e, placed, x);
    if x in e.open {
      var s := placed[x].symbol;
      BookOfSane(e, placed, s);
      PresentIffAmount(BookOf(e, s), x);
      NothingIn(x);
      assert s in e.books && Total(Count(x), e.books[s]) > 0;
    }
    if s :| s in e.books && Total(Count(x), e.books[s]) > 0 {
      assert BookSane(e.books[s], placed, s);
      PresentIsPlaced(e.books[s], Under(placed, s), x);
      PresentIffAmount(e.books[s], x);
    }
  }

  lemma NothingIn(x: Id)
    ensures Total(Amount(x), EmptyBook) == 0
  {
  }

  // ---- Cancelling everything of a user -------------------------------------------

  lemma WithdrawTakes(b: Book, id: Id, reason: CancelReason)
    requires Total(Count(id), b) <= 1
    ensures Total(Count(id), Withdraw(b, id, reason).0) <= 0
  {
    CountIsPresence(b.bids, id);
    CountIsPresence(b.asks, id);
    CountIsPresence(b.buyStops, id);
    CountIsPresence(b.sellStops, id);
    hide Sum;
    if Withdraw(b, id, reason).1 != [] { WithdrawnCount(b, id, reason); }
  }

  /** A cancelled order is gone, whatever its OCO partner. */
  lemma CancelTakes(b: Book, id: Id)
    requires Total(Count(id), b) <= 1
    ensures Total(Amount(id), CancelOrder(b, id).0) == 0
  {
    var c := CancelOrder(b, id).0;
    hide Withdraw, Sum;
    if id in b.links {
      var b0 := b.(links := b.links - {id, b.links[id]});
      var b1 := Withdraw(b0, id, AdminCancel).0;
      WithdrawTakes(b0, id, AdminCancel);
      WithdrawWithin(b1, b.links[id], OcoCancel);
      assert Total(Count(id), c) <= Total(Count(id), b1);
    } else {
      WithdrawTakes(b, id, AdminCancel);
    }
    AbsentAmount(c, id);
  }

  /** Cancelling a known order takes it out of an exact table, and enters nothing. */
  lemma CancelRemoves(e: State, id: Id, placed: Register)
    requires Sane(e, placed) && Exact(e, placed)
    ensures var q := CancelInBook(e, id).0;
      && id !in q.open
      && forall x :: x in q.open ==> x in e.open && q.open[x].user == e.open[x].user && q.open[x].symbol == e.open[x].symbol
  {
    var q := CancelInBook(e, id).0;
    CancelAmount(e, id, placed, id);
    CancelSane(e, id, placed);
    if id in e.open {
      var s := placed[id].symbol;
      assert AmountIn(e.open, id) == Held(e, placed, id);
      NothingIn(id);
      assert s in e.books && BookSane(e.books[s], placed, s);
      assert Total(Count(id), e.books[s]) + Sum(Count(id), []) <= 1;
      CancelTakes(e.books[s], id);
      UpdatesKeepOwners(e.open, None, EventsOf(CancelOrder(e.books[s], id).1));
      hide CancelOrder, ApplyUpdates, Valid, AllFrom, Sum;
      assert AmountIn(q.open, id) == 0;
    }
  }

  lemma {:induction false} CancelEachRemoves(s: Server, ids: seq<Id>)
    requires ServerSane(s) && ServerExact(s)
    ensures var t, u := CancelEach(s, ids).0.state.open, s.state.open;
      && (forall id :: id in ids ==> id !in t)
      && forall x :: x in t ==> x in u && t[x].user == u[x].user && t[x].symbol == u[x].symbol
    decreases ids
  {
    if ids != [] {
      var q := CancelKnown(s, ids[0]).0;
      CancelRemoves(s.state, ids[0], PlacedIn(s.log));
      CancelKnownExact(s, ids[0]);
      CancelEachRemoves(q, ids[1..]);
      hide CancelInBook, ServerExact, ServerSane;
    }
  }

  lemma {:induction false} AscendingHasAll(ids: set<Id>)
    ensures forall id :: id in Ascending(ids) <==> id in ids
    ensures forall i, j :: 0 <= i < j < |Ascending(ids)| ==> Ascending(ids)[i] < Ascending(ids)[j]
  {
    if ids != {} {
      var least := Levels.BestKey(StopShelf, ids);
      AscendingHasAll(ids - {least});
      var rest := Ascending(ids - {least});
      assert forall i :: 0 <= i < |rest| ==> rest[i] in rest;
    }
  }

  /** When the table is exact, cancel-all leaves none of the user's orders open. */
  lemma CancelAllClears(s: Server, user: UserId, only: Option<Symbol>)
    requires ServerSane(s) && ServerExact(s)
    ensures Selection(ServeCancelAll(s, user, only).0.state.open, user, only) == {}
  {
    var ids := Ascending(Selection(s.state.open, user, only));
    AscendingHasAll(Selection(s.state.open, user, only));
    CancelEachRemoves(s, ids);
    SelectedAreListed(s.state.open, user, only);
    hide CancelEach, Ascending, ServerExact, ServerSane, Selected;
    var t := CancelEach(s, ids).0.state.open;
    assert forall id :: id in t ==> id !in ids && id in s.state.open;
    assert forall id :: id in t ==> !Selected(s.state.open[id], user, only);
    SameOwnersSameSelection(s.state.open, t, user, only);
  }

  lemma SelectedAreListed(t: Table, user: UserId, only: Option<Symbol>)
    ensures forall id :: id in t && Selected(t[id], user, only) ==> id in Selection(t, user, only)
  {
  }

  lemma SameOwnersSameSelection(t: Table, u: Table, user: UserId, only: Option<Symbol>)
    requires forall id :: id in u ==> id in t && u[id].user == t[id].user && u[id].symbol == t[id].symbol
    requires forall id :: id in u ==> !Selected(t[id], user, only)
    ensures Selection(u, user, only) == {}
  {
    forall id ensures id !in Selection(u, user, only) {
      if id in u { assert Selected(u[id], user, only) == Selected(t[id], user, only); }
    }
  }
}
