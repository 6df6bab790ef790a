/** The engine server's state as values: the live path, which logs commands before applying
  them, and the replay path, which rebuilds the state from the log
  (engine/crates/server/src/state.rs). */
module Engine {
  import opened Orders
  import opened Ladder
  import opened Levels
  import opened Matcher
  import opened BookInvariants
  import opened Cascade
  import opened Conservation
  import opened Histories
  import opened OpenOrders
  import opened Origins
  import opened Wire
  import StopOrders

  datatype LogCommand = PlaceLogged(order: Order) | CancelLogged(id: Id)

  /** What a restart has to rebuild. */
  datatype State = State(books: map<Symbol, Book>, open: Table)

  datatype Server = Server(state: State, log: seq<LogCommand>, halted: set<Symbol>)

  datatype Request =
    | PlaceRequest(order: WireOrder)
    | CancelRequest(id: Id, symbol: Symbol)
    | CancelAllRequest(user: UserId, only: Option<Symbol>)
    | HaltMarket(market: Symbol)
    | ResumeMarket(market: Symbol)

  datatype Outcome = Rejected(code: RejectCode) | Served(events: seq<Event>)

  // ---- What every reachable state satisfies --------------------------------------

  function BookOf(e: State, s: Symbol): Book {
    if s in e.books then e.books[s] else EmptyBook
  }

  /** The orders placed under a symbol. */
  function Under(placed: Register, s: Symbol): Register {
    map x | x in placed && placed[x].symbol == s :: placed[x]
  }

  ghost predicate BookSane(b: Book, placed: Register, s: Symbol) {
    Valid(b) && AllFrom(b, Under(placed, s)) && StopsPriced(b)
  }

  ghost predicate TableSane(t: Table, placed: Register) {
    Positive(t) &&
    forall x :: x in t ==> x in placed && t[x].user == placed[x].user && t[x].symbol == placed[x].symbol
  }

  /** Each book is valid and holds only orders placed under its symbol; entries carry the
    owner and symbol of an order that was placed. */
  ghost predicate Sane(e: State, placed: Register) {
    TableSane(e.open, placed) && forall s :: s in e.books ==> BookSane(e.books[s], placed, s)
  }

  /** An order as the log holds it: whole, and priced if it can rest. */
  predicate Loggable(o: Order) {
    o.Ready() && Priced(o)
  }

  function PlacedIn(log: seq<LogCommand>): Register {
    if log == [] then map[]
    else
      var before := PlacedIn(log[..|log| - 1]);
      match log[|log| - 1]
      case PlaceLogged(o) => before[o.id := o]
      case CancelLogged(_) => before
  }

  predicate FreshLog(log: seq<LogCommand>) {
    log == [] ||
    (FreshLog(log[..|log| - 1]) &&
     (log[|log| - 1].PlaceLogged? ==>
        Loggable(log[|log| - 1].order) && log[|log| - 1].order.id !in PlacedIn(log[..|log| - 1])))
  }

  // ---- Placing and cancelling in the right book ----------------------------------

  function WithLink(b: Book, o: Order): Book {
    if o.ocoLinkedId.Some? then RegisterOco(b, o.id, o.ocoLinkedId.value) else b
  }

  lemma LinkSane(b: Book, o: Order, placed: Register, s: Symbol)
    requires BookSane(b, placed, s)
    ensures BookSane(WithLink(b, o), placed, s)
  {
    if o.ocoLinkedId.Some? {
      forall x ensures Total(Count(x), WithLink(b, o)) + Sum(Count(x), []) <= 1 {
        assert Total(Count(x), b) + Sum(Count(x), []) <= 1;
      }
    }
  }

  lemma EmptySane(placed: Register, s: Symbol)
    ensures BookSane(EmptyBook, placed, s)
  {
    NothingYet();
  }

  lemma BookOfSane(e: State, placed: Register, s: Symbol)
    requires Sane(e, placed)
    ensures BookSane(BookOf(e, s), placed, s)
  {
    EmptySane(placed, s);
  }

  /** An id that was never placed is fresh for every book. */
  lemma UnplacedIsFresh(b: Book, o: Order, placed: Register, s: Symbol)
    requires BookSane(b, placed, s) && o.Ready() && o.id !in placed
    ensures Fresh(b, o)
  {
    if Total(Count(o.id), b) > 0 {
      PresentIsPlaced(b, Under(placed, s), o.id);
    }
    NewIdIsFresh(b, o);
  }

  /** The book of the order's symbol after the order, and what happened. */
  function PlaceInBook(e: State, o: Order, ghost placed: Register): (r: (Book, seq<Move>))
    requires Sane(e, placed) && Loggable(o) && o.id !in placed
    ensures BookSane(r.0, placed[o.id := o], o.symbol)
  {
    var b := WithLink(BookOf(e, o.symbol), o);
    BookOfSane(e, placed, o.symbol);
    LinkSane(BookOf(e, o.symbol), o, placed, o.symbol);
    UnplacedIsFresh(b, o, placed, o.symbol);
    SubmitSane(b, o, placed);
    Submit(b, o)
  }

  lemma SubmitSane(b: Book, o: Order, placed: Register)
    requires BookSane(b, placed, o.symbol) && Fresh(b, o) && Loggable(o) && o.id !in placed
    ensures BookSane(Submit(b, o).0, placed[o.id := o], o.symbol)
  {
    var wider := Under(placed[o.id := o], o.symbol);
    assert wider == Under(placed, o.symbol)[o.id := o];
    StillFrom(b, Under(placed, o.symbol), o);
    SubmitFrom(b, o, wider);
    SubmitPriced(b, o);
  }

  lemma OtherSane(b: Book, o: Order, placed: Register, s: Symbol)
    requires BookSane(b, placed, s) && o.id !in placed
    ensures BookSane(b, placed[o.id := o], s)
  {
    if s == o.symbol {
      assert Under(placed[o.id := o], s) == Under(placed, s)[o.id := o];
      StillFrom(b, Under(placed, s), o);
    } else {
      assert Under(placed[o.id := o], s) == Under(placed, s);
    }
  }

  /** Updates only enter the submitted order, and otherwise keep owner and symbol. */
  lemma {:induction false} UpdatesKeepOwners(t: Table, submitted: Option<Order>, events: seq<Event>)
    ensures var u := ApplyUpdates(t, submitted, events);
      forall x :: x in u ==>
        || (x in t && u[x].user == t[x].user && u[x].symbol == t[x].symbol)
        || (submitted.Some? && x == submitted.value.id && u[x].user == submitted.value.user
            && u[x].symbol == submitted.value.symbol)
  {
    if events != [] { UpdatesKeepOwners(t, submitted, events[..|events| - 1]); }
  }

  lemma TableStaysSane(t: Table, submitted: Option<Order>, moves: seq<Move>, placed: Register)
    requires TableSane(t, placed) && AllSound(moves)
    requires submitted.Some? ==> submitted.value.id in placed && placed[submitted.value.id] == submitted.value
    ensures TableSane(ApplyUpdates(t, submitted, EventsOf(moves)), placed)
  {
    UpdatesKeepOwners(t, submitted, EventsOf(moves));
    UpdatesFollow(t, submitted, moves, 0);
    hide ApplyUpdates;
  }

  // ---- Replay --------------------------------------------------------------------

  /** One logged command, as replay applies it: updates always follow. */
  function ReplayPlace(e: State, o: Order, ghost placed: Register): (r: State)
    requires Sane(e, placed) && Loggable(o) && o.id !in placed
    ensures Sane(r, placed[o.id := o])
  {
    var (b, moves) := PlaceInBook(e, o, placed);
    PlaceSane(e, o, placed, ApplyUpdates(e.open, Some(o), EventsOf(moves)));
    State(e.books[o.symbol := b], ApplyUpdates(e.open, Some(o), EventsOf(moves)))
  }

  /** Placing keeps the state sane, whether the updates are applied or skipped. */
  lemma PlaceSane(e: State, o: Order, placed: Register, t: Table)
    requires Sane(e, placed) && Loggable(o) && o.id !in placed
    requires t == e.open || t == ApplyUpdates(e.open, Some(o), EventsOf(PlaceInBook(e, o, placed).1))
    ensures Sane(State(e.books[o.symbol := PlaceInBook(e, o, placed).0], t), placed[o.id := o])
  {
    var later := placed[o.id := o];
    assert TableSane(e.open, later);
    BookOfSane(e, placed, o.symbol);
    LinkSane(BookOf(e, o.symbol), o, placed, o.symbol);
    UnplacedIsFresh(WithLink(BookOf(e, o.symbol), o), o, placed, o.symbol);
    SubmitSound(WithLink(BookOf(e, o.symbol), o), o);
    TableStaysSane(e.open, Some(o), PlaceInBook(e, o, placed).1, later);
    hide BookSane, TableSane, ApplyUpdates, Submit;
    var books := e.books[o.symbol := PlaceInBook(e, o, placed).0];
    forall s | s in books ensures BookSane(books[s], later, s) {
      if s != o.symbol { OtherSane(e.books[s], o, placed, s); }
    }
  }

  /** Cancelling an order the table knows; the other symbols' books are not looked at. */
  function CancelInBook(e: State, id: Id): (State, seq<Event>) {
    if id !in e.open || e.open[id].symbol !in e.books then (e, [])
    else
      var s := e.open[id].symbol;
      var (b, moves) := CancelOrder(e.books[s], id);
      (State(e.books[s := b], ApplyUpdates(e.open, None, EventsOf(moves))), EventsOf(moves))
  }

  lemma CancelSane(e: State, id: Id, placed: Register)
    requires Sane(e, placed)
    ensures Sane(CancelInBook(e, id).0, placed)
  {
    if id in e.open && e.open[id].symbol in e.books {
      var s := e.open[id].symbol;
      assert BookSane(e.books[s], placed, s);
      CancelKeeps(e.books[s], id);
      CancelFrom(e.books[s], id, Under(placed, s));
      CancelPriced(e.books[s], id);
      CancelSound(e.books[s], id);
      TableStaysSane(e.open, None, CancelOrder(e.books[s], id).1, placed);
      hide ApplyUpdates, CancelOrder, Valid, AllFrom, StopsPriced, TableSane;
    }
  }

  /** `replay_books`. */
  function Restore(log: seq<LogCommand>): (e: State)
    requires FreshLog(log)
    ensures Sane(e, PlacedIn(log))
  {
    if log == [] then State(map[], map[])
    else
      var e := Restore(log[..|log| - 1]);
      match log[|log| - 1]
      case PlaceLogged(o) => ReplayPlace(e, o, PlacedIn(log[..|log| - 1]))
      case CancelLogged(id) => CancelSane(e, id, PlacedIn(log)); CancelInBook(e, id).0
  }

  // ---- The live path -------------------------------------------------------------

  ghost predicate ServerSane(s: Server) {
    FreshLog(s.log) && Sane(s.state, PlacedIn(s.log))
  }

  /** What the server relies on in an order it does not check: a fresh id, and a display
    size, if given, that is positive. */
  predicate Acceptable(s: Server, w: WireOrder) {
    w.id !in PlacedIn(s.log) && (w.displayQty.Some? ==> 0 < w.displayQty.value)
  }

  /** The order is logged, applied to its book, and entered in the table; a fill-or-kill or
    post-only reject leaves the table as it was. */
  function ServePlace(s: Server, w: WireOrder): (r: (Server, Outcome))
    requires ServerSane(s) && Acceptable(s, w)
    ensures ServerSane(r.0)
  {
    if Validate(w).Some? then (s, Rejected(Validate(w).value))
    else if w.symbol in s.halted then (s, Rejected(MarketHalted))
    else
      ValidatedIsReady(w);
      hide Submit, ApplyUpdates, BookSane, TableSane, PreReject, WithLink, Priced;
      var o := ToCore(w);
      var placed := PlacedIn(s.log);
      var (b, moves) := PlaceInBook(s.state, o, placed);
      var events := EventsOf(moves);
      var reject := PreReject(o.id, events);
      var t := if reject.Some? then s.state.open else ApplyUpdates(s.state.open, Some(o), events);
      PlaceSane(s.state, o, placed, t);
      LogGrows(s.log, PlaceLogged(o));
      (Server(State(s.state.books[o.symbol := b], t), s.log + [PlaceLogged(o)], s.halted),
       if reject.Some? then Rejected(reject.value) else Served(events))
  }

  lemma LogGrows(log: seq<LogCommand>, c: LogCommand)
    ensures (log + [c])[..|log|] == log && (log + [c])[|log|] == c
  {
  }

  /** `cancel_known_order`: logged first, even if the book turns out to be missing. */
  function CancelKnown(s: Server, id: Id): (r: (Server, seq<Event>))
    requires ServerSane(s)
    ensures ServerSane(r.0) && PlacedIn(r.0.log) == PlacedIn(s.log)
  {
    if id !in s.state.open then (s, [])
    else
      CancelSane(s.state, id, PlacedIn(s.log));
      LogGrows(s.log, CancelLogged(id));
      var (e, events) := CancelInBook(s.state, id);
      (s.(state := e, log := s.log + [CancelLogged(id)]), events)
  }

  function ServeCancel(s: Server, id: Id, symbol: Symbol): (r: (Server, Outcome))
    requires ServerSane(s)
    ensures ServerSane(r.0) && PlacedIn(r.0.log) == PlacedIn(s.log)
  {
    if id !in s.state.open || s.state.open[id].symbol != symbol then (s, Rejected(OrderNotFound))
    else
      var (t, events) := CancelKnown(s, id);
      (t, if events == [] then Rejected(OrderNotFound) else Served(events))
  }

  /** The ids in ascending order. */
  function Ascending(ids: set<Id>): seq<Id> {
    if ids == {} then []
    else var least := BestKey(StopShelf, ids); [least] + Ascending(ids - {least})
  }

  predicate Selected(o: OpenOrder, user: UserId, only: Option<Symbol>) {
    o.user == user && (only.Some? ==> o.symbol == only.value)
  }

  function Selection(t: Table, user: UserId, only: Option<Symbol>): set<Id> {
    set id | id in t && Selected(t[id], user, only)
  }

  function CancelEach(s: Server, ids: seq<Id>): (r: (Server, seq<Event>))
    requires ServerSane(s)
    ensures ServerSane(r.0) && PlacedIn(r.0.log) == PlacedIn(s.log)
    decreases ids
  {
    if ids == [] then (s, [])
    else
      var (t, events) := CancelKnown(s, ids[0]);
      var (u, more) := CancelEach(t, ids[1..]);
      (u, events + more)
  }

  function ServeCancelAll(s: Server, user: UserId, only: Option<Symbol>): (r: (Server, Outcome))
    requires ServerSane(s)
    ensures ServerSane(r.0) && PlacedIn(r.0.log) == PlacedIn(s.log)
  {
    var (t, events) := CancelEach(s, Ascending(Selection(s.state.open, user, only)));
    (t, Served(events))
  }

  /** One request. */
  function Handle(s: Server, r: Request): (q: (Server, Outcome))
    requires ServerSane(s) && (r.PlaceRequest? ==> Acceptable(s, r.order))
    ensures ServerSane(q.0)
  {
    match r
    case PlaceRequest(w) => ServePlace(s, w)
    case CancelRequest(id, symbol) => ServeCancel(s, id, symbol)
    case CancelAllRequest(user, only) => ServeCancelAll(s, user, only)
    case HaltMarket(m) => (s.(halted := s.halted + {m}), Served([]))
    case ResumeMarket(m) => (s.(halted := s.halted - {m}), Served([]))
  }

  const Idle := Server(State(map[], map[]), [], {})

  /** No order comes under an id that was placed before, or with a display size of zero or less.
    An id whose order was refused before it was logged may come again. */
  predicate Admissible(reqs: seq<Request>)
    decreases reqs, 0
  {
    reqs == [] ||
    (Admissible(reqs[..|reqs| - 1]) &&
     (reqs[|reqs| - 1].PlaceRequest? ==> Acceptable(Serve(reqs[..|reqs| - 1]), reqs[|reqs| - 1].order)))
  }

  /** The server after a run of requests. */
  function Serve(reqs: seq<Request>): (s: Server)
    requires Admissible(reqs)
    ensures ServerSane(s)
    decreases reqs, 1
  {
    if reqs == [] then Idle else Handle(Serve(reqs[..|reqs| - 1]), reqs[|reqs| - 1]).0
  }

  // ---- Replay rebuilds the live state --------------------------------------------

  /** The log replays to the state. */
  ghost predicate InSync(s: Server)
    requires FreshLog(s.log)
  {
    Restore(s.log) == s.state
  }

  /** A reject that came without any other event. */
  predicate CleanReject(s: Server, w: WireOrder)
    requires ServerSane(s) && Acceptable(s, w)
  {
    Validate(w).None? && w.symbol !in s.halted ==>
      (ValidatedIsReady(w);
       var events := EventsOf(PlaceInBook(s.state, ToCore(w), PlacedIn(s.log)).1);
       PreReject(w.id, events).Some? ==> |events| == 1)
  }

  /** Replaying a clean reject only removes an id that was never entered. */
  lemma CleanRejectChangesNothing(t: Table, o: Order, events: seq<Event>)
    requires o.id !in t && PreReject(o.id, events).Some? && |events| == 1
    ensures ApplyUpdates(t, Some(o), events) == t
  {
    PreRejectIsThere(o.id, events);
    assert events[..0] == [];
    assert ApplyUpdates(t, Some(o), []) == t;
    assert t - {o.id} == t;
  }

  lemma PlaceInSync(s: Server, w: WireOrder)
    requires ServerSane(s) && Acceptable(s, w) && InSync(s) && CleanReject(s, w)
    ensures InSync(ServePlace(s, w).0)
  {
    if Validate(w).None? && w.symbol !in s.halted {
      var o := ToCore(w);
      ValidatedIsReady(w);
      LogGrows(s.log, PlaceLogged(o));
      var events := EventsOf(PlaceInBook(s.state, o, PlacedIn(s.log)).1);
      if PreReject(o.id, events).Some? {
        CleanRejectChangesNothing(s.state.open, o, events);
      }
    }
  }

  lemma CancelInSync(s: Server, id: Id)
    requires ServerSane(s) && InSync(s)
    ensures InSync(CancelKnown(s, id).0)
  {
    LogGrows(s.log, CancelLogged(id));
  }

  lemma {:induction false} CancelEachInSync(s: Server, ids: seq<Id>)
    requires ServerSane(s) && InSync(s)
    ensures InSync(CancelEach(s, ids).0)
    decreases ids
  {
    if ids != [] {
      CancelInSync(s, ids[0]);
      CancelEachInSync(CancelKnown(s, ids[0]).0, ids[1..]);
    }
  }

  /** Every reject of the run was clean. */
  ghost predicate CleanRun(reqs: seq<Request>)
    requires Admissible(reqs)
  {
    reqs == [] ||
    (CleanRun(reqs[..|reqs| - 1]) &&
     (reqs[|reqs| - 1].PlaceRequest? ==> CleanReject(Serve(reqs[..|reqs| - 1]), reqs[|reqs| - 1].order)))
  }

  /** After every run of requests in which no fill-or-kill order was rejected after it had
    changed the book, replaying the log rebuilds the live books and the live table. */
  lemma {:induction false} ReplayRebuildsLive(reqs: seq<Request>)
    requires Admissible(reqs) && CleanRun(reqs)
    ensures Restore(Serve(reqs).log) == Serve(reqs).state
  {
    if reqs != [] {
      var before, last := reqs[..|reqs| - 1], reqs[|reqs| - 1];
      var s := Serve(before);
      ReplayRebuildsLive(before);
      match last
      case PlaceRequest(w) => PlaceInSync(s, w);
      case CancelRequest(id, symbol) => CancelInSync(s, id);
      case CancelAllRequest(user, only) => CancelEachInSync(s, Ascending(Selection(s.state.open, user, only)));
      case HaltMarket(_) =>
      case ResumeMarket(_) =>
    }
  }
}
