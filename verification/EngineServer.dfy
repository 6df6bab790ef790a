/** The engine server with its state in place: one book object per symbol, the table of open
  orders, the command log and the halted symbols (engine/crates/server/src/state.rs). Every
  request is proved to take the state where the functions of `Engine` say, and opening a
  server on a log to rebuild what they say. */
module EngineServer {
  import opened Orders
  import opened Matcher
  import opened BookInvariants
  import opened Cascade
  import opened OpenOrders
  import opened Origins
  import opened Wire
  import opened Engine
  import opened ExactTable
  import opened Books
  import Stops

  // ---- A map of book objects -----------------------------------------------------

  ghost function Objects(books: map<Symbol, OrderBook>): set<object> {
    (set s | s in books :: books[s]) + (set s | s in books :: books[s].stops)
  }

  /** No two symbols share a book or a stop registry. */
  ghost predicate Separate(books: map<Symbol, OrderBook>) {
    forall s, t :: s in books && t in books && s != t ==> books[s] != books[t] && books[s].stops != books[t].stops
  }

  ghost predicate AllValid(books: map<Symbol, OrderBook>)
    reads Objects(books)
  {
    forall s :: s in books ==> books[s].Valid()
  }

  ghost function Values(books: map<Symbol, OrderBook>): (m: map<Symbol, Book>)
    reads Objects(books)
    ensures m.Keys == books.Keys
  {
    map s | s in books :: books[s].Value()
  }

  /** A further book, apart from the others. */
  lemma AddBook(books: map<Symbol, OrderBook>, s: Symbol, b: OrderBook)
    requires Separate(books) && s !in books && b !in Objects(books) && b.stops !in Objects(books)
    requires AllValid(books) && b.Valid()
    ensures var after := books[s := b];
      && Separate(after) && AllValid(after) && Objects(after) == Objects(books) + {b, b.stops}
      && Values(after) == Values(books)[s := b.Value()]
  {
    hide OrderBook.Valid, OrderBook.Value;
    var after := books[s := b];
    AddedObjects(books, s, b);
    forall t, u | t in after && u in after && t != u ensures after[t] != after[u] && after[t].stops != after[u].stops {
      if t in books { assert books[t] in Objects(books) && books[t].stops in Objects(books); }
      if u in books { assert books[u] in Objects(books) && books[u].stops in Objects(books); }
    }
  }

  lemma AddedObjects(books: map<Symbol, OrderBook>, s: Symbol, b: OrderBook)
    requires s !in books
    ensures Objects(books[s := b]) == Objects(books) + {b, b.stops}
  {
    var after := books[s := b];
    forall o | o in Objects(books) ensures o in Objects(after) {
      var t :| t in books && (o == books[t] || o == books[t].stops);
      assert after[t] == books[t];
    }
    assert after[s] == b;
  }

  /** The book of a symbol, made when the symbol is first used. */
  method EntryOrDefault(books: map<Symbol, OrderBook>, s: Symbol) returns (after: map<Symbol, OrderBook>)
    requires Separate(books) && AllValid(books)
    ensures s in after && Separate(after) && AllValid(after)
    ensures fresh(Objects(after) - Objects(books))
    ensures Values(after) == if s in books then Values(books) else Values(books)[s := EmptyBook]
  {
    hide OrderBook.Valid, OrderBook.Value, Separate;
    after := books;
    if s !in books {
      var b := new OrderBook();
      AddBook(books, s, b);
      after := books[s := b];
    }
  }

  /** The book an order is about to meet. */
  function Met(books: map<Symbol, Book>, o: Order): Book {
    WithLink(if o.symbol in books then books[o.symbol] else EmptyBook, o)
  }

  /** Places an order in its symbol's book: linked first, then matched. */
  method PlaceIn(books: map<Symbol, OrderBook>, o: Order) returns (after: map<Symbol, OrderBook>, events: seq<Event>)
    requires Separate(books) && AllValid(books)
    requires BookInvariants.Valid(Met(Values(books), o)) && Fresh(Met(Values(books), o), o)
    modifies Objects(books)
    ensures Separate(after) && AllValid(after)
    ensures fresh(Objects(after) - Objects(books))
    ensures Values(after) == old(Values(books))[o.symbol := Submit(Met(old(Values(books)), o), o).0]
    ensures events == EventsOf(Submit(Met(old(Values(books)), o), o).1)
  {
    hide OrderBook.Valid, OrderBook.Value, Submit, BookInvariants.Valid, Fresh, EventsOf, WithLink;
    after := EntryOrDefault(books, o.symbol);
    events := MatchIn(after, o);
  }

  method MatchIn(books: map<Symbol, OrderBook>, o: Order) returns (events: seq<Event>)
    requires Separate(books) && AllValid(books) && o.symbol in books
    requires BookInvariants.Valid(Met(Values(books), o)) && Fresh(Met(Values(books), o), o)
    modifies Objects(books)
    ensures AllValid(books)
    ensures Values(books) == old(Values(books))[o.symbol := Submit(Met(old(Values(books)), o), o).0]
    ensures events == EventsOf(Submit(Met(old(Values(books)), o), o).1)
  {
    hide OrderBook.Valid, OrderBook.Value, Submit, BookInvariants.Valid, Fresh, EventsOf, WithLink;
    var book := books[o.symbol];
    assert book in Objects(books) && book.stops in Objects(books);
    events := LinkAndMatch(book, o);
    forall t | t in books && t != o.symbol ensures books[t].Valid() && books[t].Value() == old(books[t].Value()) {
      assert books[t] != book && books[t].stops != book.stops;
    }
  }

  method LinkAndMatch(book: OrderBook, o: Order) returns (events: seq<Event>)
    requires book.Valid() && BookInvariants.Valid(WithLink(book.Value(), o)) && Fresh(WithLink(book.Value(), o), o)
    modifies book, book.stops
    ensures book.Valid() && book.Value() == Submit(WithLink(old(book.Value()), o), o).0
    ensures events == EventsOf(Submit(WithLink(old(book.Value()), o), o).1)
  {
    hide OrderBook.Valid, OrderBook.Value, Submit, BookInvariants.Valid, Fresh, EventsOf;
    if o.ocoLinkedId.Some? {
      book.RegisterOco(o.id, o.ocoLinkedId.value);
    }
    events := book.MatchOrder(o);
  }

  method CancelIn(books: map<Symbol, OrderBook>, s: Symbol, id: Id) returns (events: seq<Event>)
    requires Separate(books) && AllValid(books) && s in books
    modifies Objects(books)
    ensures AllValid(books)
    ensures Values(books) == old(Values(books))[s := CancelOrder(old(Values(books))[s], id).0]
    ensures events == EventsOf(CancelOrder(old(Values(books))[s], id).1)
  {
    hide OrderBook.Valid, OrderBook.Value, CancelOrder, EventsOf;
    var book := books[s];
    assert book in Objects(books) && book.stops in Objects(books);
    events := book.CancelOrder(id);
    forall t | t in books && t != s ensures books[t].Valid() && books[t].Value() == old(books[t].Value()) {
      assert books[t] != book && books[t].stops != book.stops;
    }
  }

  // ---- Replay --------------------------------------------------------------------

  /** `replay_cancel`: a cancel of an id the rebuilt table does not know is passed over. */
  method ReplayCancel(books: map<Symbol, OrderBook>, open: Table, id: Id) returns (t: Table)
    requires Separate(books) && AllValid(books)
    modifies Objects(books)
    ensures AllValid(books)
    ensures State(Values(books), t) == CancelInBook(old(State(Values(books), open)), id).0
  {
    hide OrderBook.Valid, OrderBook.Value, CancelOrder, EventsOf, ApplyUpdates;
    t := open;
    if id !in open {
      return;
    }
    var s := open[id].symbol;
    if s !in books {
      return;
    }
    var events := CancelIn(books, s, id);
    t := ApplyOpenOrderUpdates(t, None, events);
  }

  /** A sane state and a loggable order are what the book asks for. */
  lemma ReadyToPlace(e: State, o: Order, placed: Register)
    requires Sane(e, placed) && Loggable(o) && o.id !in placed
    ensures BookInvariants.Valid(Met(e.books, o)) && Fresh(Met(e.books, o), o)
    ensures PlaceInBook(e, o, placed) == Submit(Met(e.books, o), o)
  {
    MeetsBook(e, o, placed);
    hide Submit, PlaceInBook, Fresh, Sane, Loggable;
  }

  /** What one logged command does to the rebuilt state. */
  function Replayed(e: State, c: LogCommand, ghost placed: Register): State
    requires Sane(e, placed) && (c.PlaceLogged? ==> Loggable(c.order) && c.order.id !in placed)
  {
    match c
    case PlaceLogged(o) => ReplayPlace(e, o, placed)
    case CancelLogged(id) => CancelInBook(e, id).0
  }

  method ReplayEntry(books: map<Symbol, OrderBook>, open: Table, c: LogCommand, ghost placed: Register)
    returns (after: map<Symbol, OrderBook>, t: Table)
    requires Separate(books) && AllValid(books) && Sane(State(Values(books), open), placed)
    requires c.PlaceLogged? ==> Loggable(c.order) && c.order.id !in placed
    modifies Objects(books)
    ensures Separate(after) && AllValid(after) && fresh(Objects(after) - Objects(books))
    ensures State(Values(after), t) == Replayed(old(State(Values(books), open)), c, placed)
  {
    hide OrderBook.Valid, OrderBook.Value, Submit, EventsOf, ApplyUpdates, BookInvariants.Valid, Fresh, Sane,
         Loggable, CancelInBook, Separate, PlaceInBook, Met;
    match c {
      case PlaceLogged(o) =>
        ReadyToPlace(State(Values(books), open), o, placed);
        var events;
        after, events := PlaceIn(books, o);
        t := ApplyOpenOrderUpdates(open, Some(o), events);
      case CancelLogged(id) =>
        t := ReplayCancel(books, open, id);
        after := books;
    }
  }

  /** `replay_books`: rebuilds the books and the table from the log. */
  method ReplayBooks(log: seq<LogCommand>) returns (books: map<Symbol, OrderBook>, open: Table)
    requires FreshLog(log)
    ensures Separate(books) && AllValid(books) && fresh(Objects(books))
    ensures State(Values(books), open) == Restore(log)
  {
    hide AllValid, OrderBook.Valid, OrderBook.Value, Restore, PlacedIn, Replayed, Sane, Loggable, Separate;
    NoBooks();
    books, open := map[], map[];
    EmptyLog();
    assert log[..0] == [];
    for i := 0 to |log|
      invariant Separate(books) && AllValid(books) && fresh(Objects(books))
      invariant FreshLog(log[..i]) && State(Values(books), open) == Restore(log[..i])
    {
      NextInLog(log, i);
      books, open := ReplayEntry(books, open, log[i], PlacedIn(log[..i]));
    }
    assert log[..|log|] == log;
  }

  lemma NoBooks()
    ensures Separate(map[]) && AllValid(map[]) && Objects(map[]) == {} && Values(map[]) == map[]
  {
  }

  lemma EmptyLog()
    ensures FreshLog([]) && Restore([]) == State(map[], map[])
  {
  }

  lemma {:induction false} PrefixFresh(log: seq<LogCommand>, i: nat)
    requires FreshLog(log) && i <= |log|
    ensures FreshLog(log[..i])
  {
    if i < |log| {
      PrefixFresh(log[..|log| - 1], i);
      assert log[..|log| - 1][..i] == log[..i];
    } else {
      assert log[..i] == log;
    }
  }

  lemma NextInLog(log: seq<LogCommand>, i: nat)
    requires FreshLog(log) && i < |log|
    ensures FreshLog(log[..i]) && FreshLog(log[..i + 1])
    ensures var placed, c := PlacedIn(log[..i]), log[i];
      && (c.PlaceLogged? ==> Loggable(c.order) && c.order.id !in placed)
      && Restore(log[..i + 1]) == Replayed(Restore(log[..i]), c, placed)
  {
    PrefixFresh(log, i);
    PrefixFresh(log, i + 1);
    assert log[..i + 1][..i] == log[..i];
    hide Loggable, ReplayPlace, CancelInBook;
  }

  // ---- The server ----------------------------------------------------------------

  /** What serving an order that reaches its book comes to. */
  lemma ServedIs(s: Server, w: WireOrder)
    requires ServerSane(s) && Acceptable(s, w) && Validate(w).None? && w.symbol !in s.halted
    ensures var o := ToCore(w); var b := Met(s.state.books, o);
      && BookInvariants.Valid(b) && Fresh(b, o)
      && ServePlace(s, w) ==
         var (c, moves) := Submit(b, o);
         var reject := PreReject(o.id, EventsOf(moves));
         (Server(State(s.state.books[o.symbol := c],
                       if reject.Some? then s.state.open else ApplyUpdates(s.state.open, Some(o), EventsOf(moves))),
                 s.log + [PlaceLogged(o)], s.halted),
          if reject.Some? then Rejected(reject.value) else Served(EventsOf(moves)))
  {
    ValidatedIsReady(w);
    ReadyToPlace(s.state, ToCore(w), PlacedIn(s.log));
    hide Submit, ApplyUpdates, Sane, PreReject, Met, Priced, Fresh, BookInvariants.Valid;
  }

  lemma NoOneOfThem(books: map<Symbol, OrderBook>, e: EngineState)
    ensures e !in Objects(books)
  {
  }

  lemma CancelEachNext(s: Server, ids: seq<Id>)
    requires ServerSane(s) && ids != []
    ensures var (t, events) := CancelKnown(s, ids[0]); var (u, more) := CancelEach(t, ids[1..]);
      CancelEach(s, ids) == (u, events + more)
  {
  }

  lemma CancelNone(s: Server, ids: seq<Id>)
    requires ServerSane(s) && ids == []
    ensures CancelEach(s, ids) == (s, [])
  {
  }

  lemma Nothing(events: seq<Event>)
    ensures [] + events == events == events + []
  {
  }

  class EngineState {
    var books: map<Symbol, OrderBook>
    var commandWal: seq<LogCommand>
    var haltedSymbols: set<Symbol>
    var openOrders: Table

    ghost function Value(): Server
      reads this, Objects(books)
    {
      Server(State(Values(books), openOrders), commandWal, haltedSymbols)
    }

    ghost predicate Valid()
      reads this, Objects(books)
    {
      Separate(books) && AllValid(books) && ServerSane(Value())
    }

    /** A server on an existing log: everything but the halted symbols is rebuilt from it. */
    constructor Open(log: seq<LogCommand>)
      requires FreshLog(log)
      ensures Valid() && fresh(Objects(books))
      ensures Value() == Server(Restore(log), log, {})
    {
      hide AllValid, Separate, Values, Sane, FreshLog, PlacedIn, Restore, Objects;
      var rebuilt, open := ReplayBooks(log);
      books, openOrders, commandWal, haltedSymbols := rebuilt, open, log, {};
      new;
      NoOneOfThem(books, this);
    }

    /** Placing: validated, logged, matched, and entered in the table unless rejected. */
    method PlaceOrder(w: WireOrder) returns (outcome: Outcome)
      requires Valid() && Acceptable(Value(), w)
      modifies this, Objects(books)
      ensures Valid() && fresh(Objects(books) - old(Objects(books)))
      ensures (Value(), outcome) == ServePlace(old(Value()), w)
    {
      hide AllValid, Separate, Values, ServerSane, Submit, ApplyUpdates, EventsOf, BookInvariants.Valid, Fresh, Met,
           PreReject, ToCore;
      var invalid := Validate(w);
      if invalid.Some? {
        return Rejected(invalid.value);
      }
      if w.symbol in haltedSymbols {
        return Rejected(MarketHalted);
      }
      ServedIs(Value(), w);
      hide Validate, ServePlace, Objects;
      outcome := PlaceValidated(ToCore(w));
    }

    method PlaceValidated(order: Order) returns (outcome: Outcome)
      requires Separate(books) && AllValid(books)
      requires BookInvariants.Valid(Met(Values(books), order)) && Fresh(Met(Values(books), order), order)
      modifies this, Objects(books)
      ensures Separate(books) && AllValid(books) && fresh(Objects(books) - old(Objects(books)))
      ensures commandWal == old(commandWal) + [PlaceLogged(order)] && haltedSymbols == old(haltedSymbols)
      ensures Values(books) == old(Values(books))[order.symbol := Submit(Met(old(Values(books)), order), order).0]
      ensures
        var events := EventsOf(Submit(Met(old(Values(books)), order), order).1);
        var reject := PreReject(order.id, events);
        if reject.Some? then outcome == Rejected(reject.value) && openOrders == old(openOrders)
        else outcome == Served(events) && openOrders == ApplyUpdates(old(openOrders), Some(order), events)
    {
      hide AllValid, Separate, Values, Submit, ApplyUpdates, EventsOf, BookInvariants.Valid, Fresh, Met, PreReject;
      NoOneOfThem(books, this);
      commandWal := commandWal + [PlaceLogged(order)];
      var after, events := PlaceIn(books, order);
      NoOneOfThem(after, this);
      books := after;
      outcome := EnterUnlessRejected(order, events);
    }

    /** The table follows the events of an order that was not rejected. */
    method EnterUnlessRejected(order: Order, events: seq<Event>) returns (outcome: Outcome)
      modifies this`openOrders
      ensures var reject := PreReject(order.id, events);
        if reject.Some? then outcome == Rejected(reject.value) && openOrders == old(openOrders)
        else outcome == Served(events) && openOrders == ApplyUpdates(old(openOrders), Some(order), events)
    {
      var reject := PreReject(order.id, events);
      if reject.Some? {
        return Rejected(reject.value);
      }
      openOrders := ApplyOpenOrderUpdates(openOrders, Some(order), events);
      return Served(events);
    }

    /** Cancelling a known order: logged first. */
    method CancelKnownOrder(id: Id) returns (events: seq<Event>)
      requires Valid()
      modifies this, Objects(books)
      ensures Valid() && books == old(books)
      ensures (Value(), events) == CancelKnown(old(Value()), id)
    {
      hide AllValid, Separate, Values, ServerSane, Matcher.CancelOrder, ApplyUpdates, EventsOf;
      NoOneOfThem(books, this);
      if id !in openOrders {
        return [];
      }
      var s := openOrders[id].symbol;
      commandWal := commandWal + [CancelLogged(id)];
      if s in books {
        events := CancelIn(books, s, id);
        openOrders := ApplyOpenOrderUpdates(openOrders, None, events);
      } else {
        events := [];
      }
      assert (Value(), events) == CancelKnown(old(Value()), id);
    }

    method CancelOrder(id: Id, symbol: Symbol) returns (outcome: Outcome)
      requires Valid()
      modifies this, Objects(books)
      ensures Valid() && books == old(books)
      ensures (Value(), outcome) == ServeCancel(old(Value()), id, symbol)
    {
      hide AllValid, Separate, Values, ServerSane, CancelKnown;
      if id !in openOrders || openOrders[id].symbol != symbol {
        return Rejected(OrderNotFound);
      }
      var events := CancelKnownOrder(id);
      if events == [] {
        return Rejected(OrderNotFound);
      }
      return Served(events);
    }

    /** Cancels a user's orders in ascending order of their ids; the cancel of one may take
      another, its OCO partner, out of the table before its turn. */
    method CancelAll(user: UserId, only: Option<Symbol>) returns (outcome: Outcome)
      requires Valid()
      modifies this, Objects(books)
      ensures Valid() && books == old(books)
      ensures (Value(), outcome) == ServeCancelAll(old(Value()), user, only)
    {
      hide AllValid, Separate, Values, ServerSane, CancelInBook, Ascending, Selection, CancelEach;
      var ids := Ascending(Selection(openOrders, user, only));
      var events := [];
      ghost var s := Value();
      assert ids[0..] == ids;
      Nothing(CancelEach(s, ids).1);
      for i := 0 to |ids|
        invariant Valid() && books == old(books)
        invariant CancelEach(s, ids).0 == CancelEach(Value(), ids[i..]).0
        invariant CancelEach(s, ids).1 == events + CancelEach(Value(), ids[i..]).1
      {
        assert ids[i..][1..] == ids[i + 1..];
        CancelEachNext(Value(), ids[i..]);
        Nothing(CancelEach(Value(), ids[i + 1..]).1);
        if ids[i] !in openOrders {
          continue;
        }
        var more := CancelKnownOrder(ids[i]);
        EventsRegroup(events, more, CancelEach(Value(), ids[i + 1..]).1);
        events := events + more;
      }
      CancelNone(Value(), ids[|ids|..]);
      Nothing(events);
      return Served(events);
    }

    method Halt(symbol: Symbol)
      requires Valid()
      modifies this`haltedSymbols
      ensures Valid() && Value() == Handle(old(Value()), HaltMarket(symbol)).0
    {
      hide AllValid, Separate, Values, Sane, FreshLog, PlacedIn;
      NoOneOfThem(books, this);
      haltedSymbols := haltedSymbols + {symbol};
    }

    method Resume(symbol: Symbol)
      requires Valid()
      modifies this`haltedSymbols
      ensures Valid() && Value() == Handle(old(Value()), ResumeMarket(symbol)).0
    {
      hide AllValid, Separate, Values, Sane, FreshLog, PlacedIn;
      NoOneOfThem(books, this);
      haltedSymbols := haltedSymbols - {symbol};
    }
  }
}
