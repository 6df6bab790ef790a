/** What the engine server's requests come to, told without the functions that carry them out
  (engine/crates/server/src/state.rs): which orders a cancellation takes and spares, and when an
  order is turned away because its market is halted. */
module Requests {
  import opened Orders
  import opened Ladder
  import opened Matcher
  import opened BookInvariants
  import opened Cascade
  import opened Conservation
  import opened Histories
  import opened OpenOrders
  import opened Origins
  import opened Wire
  import opened Engine
  import opened ExactTable

  // ---- Whom a cancellation spares ------------------------------------------------

  predicate Names(x: Id, e: Event) {
    match e
    case Filled(f) => f.makerId == x || f.takerId == x
    case Rested(id, _) => id == x
    case Cancelled(id, _) => id == x
    case StopTriggered(id) => id == x
  }

  ghost predicate Unnamed(x: Id, events: seq<Event>) {
    forall e :: e in events ==> !Names(x, e)
  }

  /** All the moves are cancellations by request or for the partner's sake, and none is of `y`. */
  ghost predicate Others(y: Id, moves: seq<Move>) {
    forall m :: m in moves ==> m.Void? && m.voidId != y
  }

  ghost predicate ByRequest(moves: seq<Move>) {
    forall m :: m in moves ==> m.Void? && (m.reason == AdminCancel || m.reason == OcoCancel)
  }

  lemma WithdrawWeighs(b: Book, id: Id, reason: CancelReason, y: Id, g: Gauge)
    requires id != y && (g == Amount(y) || g == Count(y))
    ensures Total(g, Withdraw(b, id, reason).0) == Total(g, b)
  {
    if Has(b.buyStops, id) {
      SumSwapOut(g, b.buyStops, Find(b.buyStops, id));
    } else if Has(b.sellStops, id) {
      SumSwapOut(g, b.sellStops, Find(b.sellStops, id));
    } else if Has(b.bids, id) {
      SumRemoveAt(g, b.bids, Find(b.bids, id));
    } else if Has(b.asks, id) {
      SumRemoveAt(g, b.asks, Find(b.asks, id));
    }
    hide Sum, SwapOut, RemoveAt;
  }

  lemma WithdrawSpares(b: Book, id: Id, reason: CancelReason, y: Id)
    requires id != y
    ensures var (c, moves) := Withdraw(b, id, reason);
      && Total(Amount(y), c) == Total(Amount(y), b) && Total(Count(y), c) == Total(Count(y), b)
      && Others(y, moves) && c.links == b.links
  {
    hide Sum, SwapOut, RemoveAt, Find, Total;
    WithdrawWeighs(b, id, reason, y, Amount(y));
    WithdrawWeighs(b, id, reason, y, Count(y));
  }

  /** Cancelling an order leaves every order but it and its partner alone, and links nothing anew. */
  lemma CancelSpares(b: Book, id: Id, y: Id)
    requires id != y && (id in b.links ==> b.links[id] != y)
    ensures var (c, moves) := CancelOrder(b, id);
      && Total(Amount(y), c) == Total(Amount(y), b) && Total(Count(y), c) == Total(Count(y), b)
      && Others(y, moves) && forall x :: x in c.links ==> x in b.links && c.links[x] == b.links[x]
  {
    hide Withdraw, Total;
    if id in b.links {
      var b0 := b.(links := b.links - {id, b.links[id]});
      SameLists(b, b0, y);
      WithdrawSpares(b0, id, AdminCancel, y);
      WithdrawSpares(Withdraw(b0, id, AdminCancel).0, b.links[id], OcoCancel, y);
    } else {
      WithdrawSpares(b, id, AdminCancel, y);
    }
  }

  lemma SameLists(b: Book, c: Book, y: Id)
    requires c == b.(links := c.links)
    ensures Total(Amount(y), c) == Total(Amount(y), b) && Total(Count(y), c) == Total(Count(y), b)
  {
  }

  lemma {:induction false} OthersUnnamed(y: Id, moves: seq<Move>)
    requires Others(y, moves)
    ensures Unnamed(y, EventsOf(moves))
  {
    if moves != [] {
      assert moves[|moves| - 1] in moves && forall m :: m in moves[..|moves| - 1] ==> m in moves;
      OthersUnnamed(y, moves[..|moves| - 1]);
    }
  }

  lemma {:induction false} UnnamedKeepsEntry(t: Table, events: seq<Event>, y: Id)
    requires Unnamed(y, events)
    ensures var u := ApplyUpdates(t, None, events); (y in u <==> y in t) && (y in t ==> u[y] == t[y])
  {
    if events != [] {
      var front, last := events[..|events| - 1], events[|events| - 1];
      assert last in events && forall e :: e in front ==> e in events;
      UnnamedKeepsEntry(t, front, y);
    }
  }

  /** No book links `id` to `y`, nor are they the same. */
  ghost predicate Unlinked(e: State, id: Id, y: Id) {
    id != y && forall m :: m in e.books && id in e.books[m].links ==> e.books[m].links[id] != y
  }

  /** `y` has the same entry, and the same amount on each book. */
  ghost predicate Spared(before: State, after: State, y: Id) {
    && (y in after.open <==> y in before.open) && (y in before.open ==> after.open[y] == before.open[y])
    && after.books.Keys == before.books.Keys
    && forall m :: m in before.books ==>
         && Total(Amount(y), after.books[m]) == Total(Amount(y), before.books[m])
         && Total(Count(y), after.books[m]) == Total(Count(y), before.books[m])
  }

  lemma CancelInSpares(e: State, id: Id, y: Id)
    requires Unlinked(e, id, y)
    ensures var (q, events) := CancelInBook(e, id);
      && Spared(e, q, y) && Unnamed(y, events)
      && forall x :: Unlinked(e, x, y) ==> Unlinked(q, x, y)
  {
    if id in e.open && e.open[id].symbol in e.books {
      var b := e.books[e.open[id].symbol];
      CancelSpares(b, id, y);
      OthersUnnamed(y, CancelOrder(b, id).1);
      UnnamedKeepsEntry(e.open, EventsOf(CancelOrder(b, id).1), y);
      hide CancelOrder, ApplyUpdates, EventsOf, Total, Unnamed;
    }
  }

  lemma {:induction false} CancelEachSpares(s: Server, ids: seq<Id>, y: Id)
    requires ServerSane(s) && forall id :: id in ids ==> Unlinked(s.state, id, y)
    ensures var (t, events) := CancelEach(s, ids); Spared(s.state, t.state, y) && Unnamed(y, events)
    decreases ids
  {
    if ids != [] {
      hide CancelInBook, Unlinked, ServerSane, Spared, Unnamed;
      var (t, events) := CancelKnown(s, ids[0]);
      CancelInSpares(s.state, ids[0], y);
      assert ids[0] in ids && forall id :: id in ids[1..] ==> id in ids;
      if ids[0] !in s.state.open { SparedBySelf(s.state, y); }
      CancelEachSpares(t, ids[1..], y);
      var (u, more) := CancelEach(t, ids[1..]);
      SparedTwice(s.state, t.state, u.state, y);
      UnnamedBoth(y, events, more);
    } else {
      SparedBySelf(s.state, y);
    }
  }

  lemma SparedBySelf(e: State, y: Id)
    ensures Spared(e, e, y) && Unnamed(y, [])
  {
  }

  lemma SparedTwice(e: State, f: State, g: State, y: Id)
    requires Spared(e, f, y) && Spared(f, g, y)
    ensures Spared(e, g, y)
  {
    hide Total;
  }

  lemma UnnamedBoth(y: Id, a: seq<Event>, b: seq<Event>)
    requires Unnamed(y, a) && Unnamed(y, b)
    ensures Unnamed(y, a + b)
  {
  }

  /** Cancelling everything of a user, in one market or in all, takes nobody else's orders: whoever owns
    `y`, if it is not one of that user's in that market, nor linked to by one, its entry and its
    amount stay and no event names it. */
  lemma CancelAllSpares(s: Server, user: UserId, only: Option<Symbol>, y: Id)
    requires ServerSane(s) && y in s.state.open
    requires s.state.open[y].user != user || (only.Some? && s.state.open[y].symbol != only.value)
    requires forall m, x :: m in s.state.books && x in s.state.books[m].links && s.state.books[m].links[x] == y ==>
      !(x in s.state.open && s.state.open[x].user == user && (only.None? || s.state.open[x].symbol == only.value))
    ensures var (t, a) := Handle(s, CancelAllRequest(user, only));
      && y in t.state.open && t.state.open[y] == s.state.open[y]
      && (forall m :: m in s.state.books ==>
           m in t.state.books && Total(Amount(y), t.state.books[m]) == Total(Amount(y), s.state.books[m]))
      && a.Served? && forall e :: e in a.events ==> !Names(y, e)
  {
    var ids := Ascending(Selection(s.state.open, user, only));
    AscendingHasAll(Selection(s.state.open, user, only));
    CancelEachSpares(s, ids, y);
    hide CancelEach, ServerSane, Total;
  }

  // ---- Whom it takes -------------------------------------------------------------

  lemma CancelByRequest(b: Book, id: Id)
    ensures ByRequest(CancelOrder(b, id).1)
  {
    hide Find, SwapOut, RemoveAt;
  }

  /** Why entries go: their orders are announced as cancelled. */
  lemma {:induction false} GoneIsAnnounced(t: Table, moves: seq<Move>, x: Id)
    requires ByRequest(moves) && x in t && x !in ApplyUpdates(t, None, EventsOf(moves))
    ensures Cancelled(x, AdminCancel) in EventsOf(moves) || Cancelled(x, OcoCancel) in EventsOf(moves)
  {
    if moves != [] {
      var front, last := moves[..|moves| - 1], moves[|moves| - 1];
      assert last in moves && forall m :: m in front ==> m in moves;
      hide ApplyUpdates;
      CancelUpdates(t, EventsOf(front), last.voidId, last.reason);
      assert EventsOf(moves) == EventsOf(front) + [Cancelled(last.voidId, last.reason)];
      hide EventsOf;
      if x !in ApplyUpdates(t, None, EventsOf(front)) { GoneIsAnnounced(t, front, x); }
    }
  }

  lemma CancelUpdates(t: Table, events: seq<Event>, id: Id, reason: CancelReason)
    ensures ApplyUpdates(t, None, events + [Cancelled(id, reason)]) == ApplyUpdates(t, None, events) - {id}
  {
    assert (events + [Cancelled(id, reason)])[..|events|] == events;
  }

  predicate ToldCancelled(x: Id, events: seq<Event>) {
    Cancelled(x, AdminCancel) in events || Cancelled(x, OcoCancel) in events
  }

  lemma CancelInTells(e: State, id: Id, x: Id)
    requires x in e.open && x !in CancelInBook(e, id).0.open
    ensures ToldCancelled(x, CancelInBook(e, id).1)
  {
    if id in e.open && e.open[id].symbol in e.books {
      CancelByRequest(e.books[e.open[id].symbol], id);
      GoneIsAnnounced(e.open, CancelOrder(e.books[e.open[id].symbol], id).1, x);
      hide CancelOrder, ApplyUpdates, EventsOf;
    }
  }

  lemma {:induction false} CancelEachTells(s: Server, ids: seq<Id>, x: Id)
    requires ServerSane(s) && x in s.state.open && x !in CancelEach(s, ids).0.state.open
    ensures ToldCancelled(x, CancelEach(s, ids).1)
    decreases ids
  {
    if ids != [] {
      var (t, events) := CancelKnown(s, ids[0]);
      hide CancelInBook, ServerSane;
      if x !in t.state.open {
        CancelInTells(s.state, ids[0], x);
      } else {
        CancelEachTells(t, ids[1..], x);
      }
    }
  }

  /** An order that is not in an exact table is on no book. */
  lemma NotListedNowhere(s: Server, x: Id, m: Symbol)
    requires ServerSane(s) && ServerExact(s) && x !in s.state.open && m in s.state.books
    ensures Total(Amount(x), s.state.books[m]) == 0
  {
    var placed := PlacedIn(s.log);
    assert AmountIn(s.state.open, x) == Held(s.state, placed, x);
    if !(x in placed && placed[x].symbol == m) { ForeignId(s.state.books[m], placed, m, x); }
  }

  /** Cancelling everything of a user, in one market or in all, leaves none of that user's orders there:
    with an exact table, each is out of the table, on no book, and announced as cancelled. */
  lemma CancelAllTakes(s: Server, user: UserId, only: Option<Symbol>, x: Id)
    requires ServerSane(s) && ServerExact(s) && x in s.state.open && s.state.open[x].user == user
    requires only.None? || s.state.open[x].symbol == only.value
    ensures var (t, a) := Handle(s, CancelAllRequest(user, only));
      && x !in t.state.open && (forall m :: m in t.state.books ==> Total(Amount(x), t.state.books[m]) == 0)
      && a.Served? && (Cancelled(x, AdminCancel) in a.events || Cancelled(x, OcoCancel) in a.events)
  {
    var ids := Ascending(Selection(s.state.open, user, only));
    AscendingHasAll(Selection(s.state.open, user, only));
    CancelEachRemoves(s, ids);
    CancelEachExact(s, ids);
    assert x in Selection(s.state.open, user, only);
    CancelEachTells(s, ids, x);
    var t := CancelEach(s, ids).0;
    hide CancelEach, ServerSane, ServerExact, Total, Selection, Ascending;
    forall m | m in t.state.books ensures Total(Amount(x), t.state.books[m]) == 0 { NotListedNowhere(t, x, m); }
  }

  // ---- Cancelling one order ------------------------------------------------------

  /** A cancellation is never answered with nothing: it is turned away, or something is announced. */
  lemma CancelIsAnswered(s: Server, id: Id, symbol: Symbol)
    requires ServerSane(s)
    ensures var a := Handle(s, CancelRequest(id, symbol)).1;
      if a.Rejected? then a.code == OrderNotFound else a.events != []
  {
    hide ServerSane, CancelInBook;
  }

  /** With an exact table a cancellation is turned away, and changes nothing, if and only if no open order
    has that id in that market; otherwise the order is announced as cancelled, and is out of the
    table and on no book. */
  lemma CancelAnswer(s: Server, id: Id, symbol: Symbol)
    requires ServerSane(s) && ServerExact(s)
    ensures var (t, a) := Handle(s, CancelRequest(id, symbol));
      && (a.Rejected? <==> !(id in s.state.open && s.state.open[id].symbol == symbol))
      && (a.Rejected? ==> a.code == OrderNotFound && t == s)
      && (a.Served? ==>
           && Cancelled(id, AdminCancel) in a.events && id !in t.state.open
           && forall m :: m in t.state.books ==> Total(Amount(id), t.state.books[m]) == 0)
  {
    if id in s.state.open && s.state.open[id].symbol == symbol {
      var placed := PlacedIn(s.log);
      var t := CancelKnown(s, id).0;
      ListedIsOnBook(s, id);
      var b := s.state.books[symbol];
      CancelAnnounced(b, id);
      CancelRemoves(s.state, id, placed);
      CancelKnownExact(s, id);
      hide CancelOrder, ServerSane, ServerExact, Total, ApplyUpdates, EventsOf;
      forall m | m in t.state.books ensures Total(Amount(id), t.state.books[m]) == 0 { NotListedNowhere(t, id, m); }
    }
  }

  lemma ListedIsOnBook(s: Server, id: Id)
    requires ServerSane(s) && ServerExact(s) && id in s.state.open
    ensures var m := s.state.open[id].symbol;
      m in s.state.books && Valid(s.state.books[m]) && Total(Count(id), s.state.books[m]) > 0
  {
    var e, placed, m := s.state, PlacedIn(s.log), s.state.open[id].symbol;
    assert AmountIn(e.open, id) == Held(e, placed, id);
    NothingIn(id);
    assert m in e.books && BookSane(e.books[m], placed, m);
    PresentIffAmount(e.books[m], id);
  }

  lemma CancelAnnounced(b: Book, id: Id)
    requires Total(Count(id), b) > 0
    ensures Cancelled(id, AdminCancel) in EventsOf(CancelOrder(b, id).1)
  {
    CountIsPresence(b.bids, id);
    CountIsPresence(b.asks, id);
    CountIsPresence(b.buyStops, id);
    CountIsPresence(b.sellStops, id);
    hide Sum, Find, SwapOut, RemoveAt;
    var b0 := if id in b.links then b.(links := b.links - {id, b.links[id]}) else b;
    var m0 := Withdraw(b0, id, AdminCancel).1;
    assert |m0| == 1 && m0[0].Void? && m0[0].voidId == id && m0[0].reason == AdminCancel;
    assert m0[..0] == [] && EventsOf(m0) == [Cancelled(id, AdminCancel)];
    if id in b.links {
      hide Withdraw;
      EventsConcat(m0, Withdraw(Withdraw(b0, id, AdminCancel).0, b.links[id], OcoCancel).1);
    }
  }

  // ---- Halted markets ------------------------------------------------------------

  /** The last request to halt or resume the market was to halt it. */
  predicate HaltedBy(reqs: seq<Request>, m: Symbol) {
    if reqs == [] then false
    else
      var last := reqs[|reqs| - 1];
      if last == HaltMarket(m) then true
      else if last == ResumeMarket(m) then false
      else HaltedBy(reqs[..|reqs| - 1], m)
  }

  lemma {:induction false} CancelEachHalts(s: Server, ids: seq<Id>)
    requires ServerSane(s)
    ensures CancelEach(s, ids).0.halted == s.halted
    decreases ids
  {
    hide ServerSane, CancelInBook;
    if ids != [] { CancelEachHalts(CancelKnown(s, ids[0]).0, ids[1..]); }
  }

  lemma {:induction false} HaltsFollow(reqs: seq<Request>, m: Symbol)
    requires Admissible(reqs)
    ensures m in Serve(reqs).halted <==> HaltedBy(reqs, m)
  {
    if reqs != [] {
      var front, last := reqs[..|reqs| - 1], reqs[|reqs| - 1];
      var s := Serve(front);
      HaltsFollow(front, m);
      match last
      case PlaceRequest(w) =>
        hide Acceptable, ServerSane;
        assert Serve(reqs).halted == s.halted;
      case CancelAllRequest(user, only) => CancelEachHalts(s, Ascending(Selection(s.state.open, user, only)));
      case CancelRequest(id, symbol) =>
      case HaltMarket(n) =>
      case ResumeMarket(n) =>
    }
  }

  /** After any run of requests an order that passes validation is turned away as halted if and only if the
    last request to halt or resume its market was to halt it. One that fails validation is told so,
    halted or not. Then nothing changes; else the order is logged. */
  lemma HaltedAnswer(reqs: seq<Request>, w: WireOrder)
    requires Admissible(reqs) && Acceptable(Serve(reqs), w)
    ensures var s := Serve(reqs); var (t, a) := Handle(s, PlaceRequest(w));
      if Validate(w).Some? then t == s && a == Rejected(Validate(w).value)
      else
        && (a == Rejected(MarketHalted) <==> HaltedBy(reqs, w.symbol))
        && (HaltedBy(reqs, w.symbol) ==> t == s)
        && (!HaltedBy(reqs, w.symbol) ==> t.log == s.log + [PlaceLogged(ToCore(w))])
  {
    HaltsFollow(reqs, w.symbol);
    hide Serve, Acceptable, ServerSane, PlaceInBook, ApplyUpdates, EventsOf;
    if Validate(w).None? && !HaltedBy(reqs, w.symbol) {
      var s := Serve(reqs);
      ValidatedIsReady(w);
      NeverHaltedCode(w.id, EventsOf(PlaceInBook(s.state, ToCore(w), PlacedIn(s.log)).1));
    }
  }

  lemma {:induction false} NeverHaltedCode(id: Id, events: seq<Event>)
    ensures PreReject(id, events) != Some(MarketHalted)
  {
    if events != [] { NeverHaltedCode(id, events[1..]); }
  }
}
