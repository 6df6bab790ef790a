/** Settlement relies on what the engine guarantees about fills. Here the two are joined: the
  events that a server's requests give rise to are consistent news for settlement, so what is
  proved about consistent runs holds of every run of the engine. */
module Bridge {
  import opened Orders
  import opened Ladder
  import opened Matcher
  import opened BookInvariants
  import opened Cascade
  import opened Conservation
  import opened Histories
  import opened OpenOrders
  import opened Origins
  import opened Wire
  import opened Engine
  import opened ExactTable
  import opened Voids
  import opened Terms
  import Accounts
  import Locks
  import Sums
  import S = Settlement

  // ---- What settlement is told ---------------------------------------------------

  /** How events are numbered and trades identified. */
  datatype Pen = Pen(numbers: int -> int, tradeIds: int -> Id)

  function Scaled(value: Option<int>): Option<real> {
    match value
    case None => None
    case Some(n) => Some(n as real)
  }

  function NewsOfOrder(o: Order): S.EngineEvent {
    S.Accepted(S.NewOrder(o.id, o.user, o.symbol, o.side, Scaled(o.price), o.quantity as real,
                          Scaled(o.stopPrice), Scaled(o.displayQty)))
  }

  function FillNews(f: Fill, tradeId: Id): S.TradeFill {
    S.TradeFill(tradeId, f.takerId, f.makerId, f.price as real, f.quantity as real, f.takerSide)
  }

  /** Fills and cancellations matter to settlement; resting orders and triggered stops do not. */
  function News(m: Move, tradeId: Id): seq<S.EngineEvent> {
    match m
    case Trade(f) => [S.Executed(FillNews(f, tradeId))]
    case Void(id, _, _, _) => [S.CanceledOrder(id)]
    case _ => []
  }

  function Write(run: seq<S.Stored>, e: S.EngineEvent, pen: Pen): seq<S.Stored> {
    run + [S.Stored(pen.numbers(|run|), e)]
  }

  function WriteMove(run: seq<S.Stored>, m: Move, pen: Pen): seq<S.Stored> {
    var news := News(m, pen.tradeIds(|run|));
    if news == [] then run else Write(run, news[0], pen)
  }

  function WriteMoves(run: seq<S.Stored>, moves: seq<Move>, pen: Pen): seq<S.Stored> {
    if moves == [] then run else WriteMove(WriteMoves(run, moves[..|moves| - 1], pen), moves[|moves| - 1], pen)
  }

  /** No handler fails: every event of the run has been processed. */
  predicate AllSettle(start: S.Db, markets: S.Markets, run: seq<S.Stored>) {
    run == [] ||
    (AllSettle(start, markets, run[..|run| - 1]) &&
     S.Settle(S.SettleRun(start, markets, run[..|run| - 1]), markets, run[|run| - 1].engineSeq, run[|run| - 1].event).Some?)
  }

  lemma WriteSettles(start: S.Db, markets: S.Markets, run: seq<S.Stored>, e: S.EngineEvent, pen: Pen)
    requires AllSettle(start, markets, Write(run, e, pen))
    ensures AllSettle(start, markets, run)
    ensures var t, n := S.SettleRun(start, markets, run), pen.numbers(|run|);
      && S.Settle(t, markets, n, e).Some?
      && S.SettleRun(start, markets, Write(run, e, pen)) == S.Settle(t, markets, n, e).value
      && (Locks.ConsistentRun(start, markets, run) && Locks.Consistent(t, n, e) ==>
            Locks.ConsistentRun(start, markets, Write(run, e, pen)))
  {
    hide S.Settle, Locks.Consistent;
    assert Write(run, e, pen)[..|run|] == run;
  }

  // ---- Rows and orders -----------------------------------------------------------

  predicate RowTells(row: S.OrderRow, o: Order) {
    && row.side == o.side && row.market == o.symbol
    && row.quantity == Some(o.quantity as real) && row.price == Scaled(o.price)
    && (row.status == S.Status.Filled ==> o.quantity as real <= row.filled)
  }

  /** What settlement has of an order does not go beyond what happened to it. */
  ghost predicate RowAbreast(db: S.Db, placed: Register, done: seq<Move>, x: Id) {
    x in db.orders ==>
      && x in placed && RowTells(db.orders[x], placed[x])
      && db.orders[x].filled <= GoneBy(Traded, Amount(x), done) as real
      && (db.orders[x].status == S.Canceled ==> Cancels(x, done))
  }

  ghost predicate Abreast(db: S.Db, placed: Register, done: seq<Move>) {
    forall x :: RowAbreast(db, placed, done, x)
  }

  /** What can be told of an order next: nothing after its cancellation, no more than its
    quantity, and only if settlement has heard of it. */
  ghost predicate Tellable(moves: seq<Move>, placed: Register, done: seq<Move>, ids: set<Id>, x: Id) {
    && Late(x, moves) == 0 && (Cancels(x, done) ==> Gone(Amount(x), moves) == 0)
    && (x in placed ==> Gone(Amount(x), done) + Gone(Amount(x), moves) <= placed[x].quantity)
    && (Gone(Amount(x), moves) > 0 ==> x in ids)
  }

  lemma OutNonNegative(x: Id, m: Move)
    requires Sound(m)
    ensures 0 <= OutBy(Traded, Amount(x), m) <= Out(Amount(x), m)
  {
  }

  lemma {:induction false} LateNonNegative(x: Id, moves: seq<Move>)
    requires AllSound(moves)
    ensures 0 <= Late(x, moves)
  {
    if moves != [] {
      assert moves[|moves| - 1] in moves;
      OutNonNegative(x, moves[|moves| - 1]);
      LateNonNegative(x, moves[..|moves| - 1]);
    }
  }

  lemma {:induction false} TradedWithin(x: Id, moves: seq<Move>)
    requires AllSound(moves)
    ensures 0 <= GoneBy(Traded, Amount(x), moves) <= Gone(Amount(x), moves)
  {
    if moves != [] {
      assert moves[|moves| - 1] in moves;
      OutNonNegative(x, moves[|moves| - 1]);
      TradedWithin(x, moves[..|moves| - 1]);
    }
  }

  lemma TellablePrefix(moves: seq<Move>, placed: Register, done: seq<Move>, ids: set<Id>, x: Id)
    requires moves != [] && AllSound(moves) && Tellable(moves, placed, done, ids, x)
    ensures Tellable(moves[..|moves| - 1], placed, done, ids, x)
  {
    var front, last := moves[..|moves| - 1], moves[|moves| - 1];
    assert last in moves && forall m :: m in front ==> m in moves;
    OutNonNegative(x, last);
    LateNonNegative(x, front);
    TradedWithin(x, front);
  }

  /** An order that trades next is open in settlement, with at least that much remaining. */
  lemma TraderIsOpen(db: S.Db, placed: Register, done: seq<Move>, front: seq<Move>, m: Move, x: Id, qty: int)
    requires RowAbreast(db, placed, done + front, x) && Tellable(front + [m], placed, done, db.orders.Keys, x)
    requires AllSound(done) && AllSound(front) && m.Trade? && OutBy(Traded, Amount(x), m) == qty > 0
    ensures x in db.orders && S.Open(db.orders[x].status) && qty as real <= S.Remaining(db.orders[x])
  {
    var g := Amount(x);
    assert (front + [m])[..|front|] == front;
    GoneByConcat(Traded, g, done, front);
    TradedWithin(x, done);
    TradedWithin(x, front);
    LateNonNegative(x, front);
    CancelsConcat(x, done, front);
    hide Cancels, GoneBy, Late;
    assert Gone(g, front + [m]) == Gone(g, front) + qty;
  }

  predicate BuysPriced(placed: Register) {
    forall x :: x in placed && placed[x].side == Buy ==> placed[x].price.Some?
  }

  lemma FillIsNews(db: S.Db, placed: Register, done: seq<Move>, front: seq<Move>, f: Fill, tradeId: Id)
    requires RowAbreast(db, placed, done + front, f.takerId) && RowAbreast(db, placed, done + front, f.makerId)
    requires Tellable(front + [Trade(f)], placed, done, db.orders.Keys, f.takerId)
    requires Tellable(front + [Trade(f)], placed, done, db.orders.Keys, f.makerId)
    requires AllSound(done) && AllSound(front) && Sound(Trade(f)) && TradeFits(Trade(f), placed) && BuysPriced(placed)
    requires 0 < f.price
    ensures Locks.FillFits(db, FillNews(f, tradeId))
  {
    TraderIsOpen(db, placed, done, front, Trade(f), f.takerId, f.quantity);
    TraderIsOpen(db, placed, done, front, Trade(f), f.makerId, f.quantity);
    hide Tellable, GoneBy, Cancels, AllSound, S.Remaining;
  }

  // ---- One event -----------------------------------------------------------------

  lemma AbreastGoesOn(db: S.Db, placed: Register, done: seq<Move>, m: Move, x: Id)
    requires RowAbreast(db, placed, done, x) && Sound(m)
    ensures RowAbreast(db, placed, done + [m], x)
  {
    GoneByPush(Traded, Amount(x), done, m);
    OutNonNegative(x, m);
    CancelsConcat(x, done, [m]);
  }

  /** A settled fill adds to its two rows what the move took, and keeps the others. */
  lemma FillTold(db: S.Db, markets: S.Markets, n: int, placed: Register, done: seq<Move>, f: Fill, tradeId: Id, x: Id)
    requires RowAbreast(db, placed, done, x) && Sound(Trade(f)) && f.takerId != f.makerId
    requires S.Settle(db, markets, n, S.Executed(FillNews(f, tradeId))).Some?
    ensures RowAbreast(S.Settle(db, markets, n, S.Executed(FillNews(f, tradeId))).value, placed, done + [Trade(f)], x)
  {
    var news := FillNews(f, tradeId);
    AbreastGoesOn(db, placed, done, Trade(f), x);
    GoneByPush(Traded, Amount(x), done, Trade(f));
    if n !in db.trades {
      var taker, maker := db.orders[f.takerId], db.orders[f.makerId];
      var t := db.(trades := db.trades[n := S.Trade(taker.market, news)]);
      Accounts.PostAllKeepsRows(t, S.FillMutations(n, news, taker, maker, markets));
      hide S.PostAll, S.FillMutations, S.Mean, Cancels, GoneBy;
    }
  }

  lemma CancelTold(db: S.Db, markets: S.Markets, n: int, placed: Register, done: seq<Move>, m: Move, x: Id)
    requires RowAbreast(db, placed, done, x) && Sound(m) && m.Void?
    requires S.Settle(db, markets, n, S.CanceledOrder(m.voidId)).Some?
    ensures RowAbreast(S.Settle(db, markets, n, S.CanceledOrder(m.voidId)).value, placed, done + [m], x)
  {
    AbreastGoesOn(db, placed, done, m, x);
    CancelsConcat(x, done, [m]);
    assert m in [m];
    hide S.Obligation, GoneBy;
  }

  lemma SettledIds(db: S.Db, markets: S.Markets, n: int, e: S.EngineEvent)
    requires S.Settle(db, markets, n, e).Some?
    ensures db.orders.Keys <= S.Settle(db, markets, n, e).value.orders.Keys
  {
    Accounts.SettleKeepsRows(db, markets, n, e);
  }

  lemma FillPositive(db: S.Db, markets: S.Markets, n: int, f: Fill, tradeId: Id)
    requires S.Settle(db, markets, n, S.Executed(FillNews(f, tradeId))).Some?
    ensures n in db.trades || 0 < f.price
  {
  }

  // ---- One call's events ---------------------------------------------------------

  ghost predicate AllTellable(moves: seq<Move>, placed: Register, done: seq<Move>, ids: set<Id>) {
    forall x :: Tellable(moves, placed, done, ids, x)
  }

  lemma TellableMore(moves: seq<Move>, placed: Register, done: seq<Move>, ids: set<Id>, more: set<Id>)
    requires AllTellable(moves, placed, done, ids) && ids <= more
    ensures AllTellable(moves, placed, done, more)
  {
    forall x ensures Tellable(moves, placed, done, more, x) {
      assert Tellable(moves, placed, done, ids, x);
    }
  }

  lemma AllTellablePrefix(moves: seq<Move>, placed: Register, done: seq<Move>, ids: set<Id>)
    requires moves != [] && AllSound(moves) && AllTellable(moves, placed, done, ids)
    ensures AllTellable(moves[..|moves| - 1], placed, done, ids)
  {
    var front := moves[..|moves| - 1];
    forall x ensures Tellable(front, placed, done, ids, x) {
      assert Tellable(moves, placed, done, ids, x);
      TellablePrefix(moves, placed, done, ids, x);
    }
  }

  /** A run on which settlement is consistent and abreast of what happened. */
  ghost predicate Following(start: S.Db, markets: S.Markets, run: seq<S.Stored>, placed: Register, done: seq<Move>) {
    Locks.ConsistentRun(start, markets, run) && Abreast(S.SettleRun(start, markets, run), placed, done)
  }

  /** The next move is told. */
  lemma MoveTold(start: S.Db, markets: S.Markets, run: seq<S.Stored>, placed: Register, done: seq<Move>,
                 front: seq<Move>, m: Move, pen: Pen)
    requires Following(start, markets, run, placed, done + front) && AllSettle(start, markets, WriteMove(run, m, pen))
    requires AllTellable(front + [m], placed, done, S.SettleRun(start, markets, run).orders.Keys)
    requires AllSound(done) && AllSound(front) && Sound(m) && TradeFits(m, placed) && BuysPriced(placed)
    ensures AllSettle(start, markets, run)
    ensures Following(start, markets, WriteMove(run, m, pen), placed, (done + front) + [m])
    ensures S.SettleRun(start, markets, run).orders.Keys <= S.SettleRun(start, markets, WriteMove(run, m, pen)).orders.Keys
  {
    var db, after := S.SettleRun(start, markets, run), done + front;
    var news := News(m, pen.tradeIds(|run|));
    forall x ensures RowAbreast(db, placed, after + [m], x) {
      assert RowAbreast(db, placed, after, x);
      AbreastGoesOn(db, placed, after, m, x);
    }
    if news != [] {
      WriteSettles(start, markets, run, news[0], pen);
      var n := pen.numbers(|run|);
      hide AllSettle, S.SettleRun, Locks.ConsistentRun, Tellable, AllSound, S.Settle, RowAbreast, Locks.FillFits, GoneBy;
      SettledIds(db, markets, n, news[0]);
      NewsTold(db, markets, n, placed, done, front, m, pen.tradeIds(|run|));
    }
  }

  /** The event a move gives rise to is consistent, and settling it keeps settlement abreast. */
  lemma NewsTold(db: S.Db, markets: S.Markets, n: int, placed: Register, done: seq<Move>, front: seq<Move>, m: Move, tradeId: Id)
    requires Abreast(db, placed, done + front) && AllTellable(front + [m], placed, done, db.orders.Keys)
    requires AllSound(done) && AllSound(front) && Sound(m) && TradeFits(m, placed) && BuysPriced(placed)
    requires News(m, tradeId) != [] && S.Settle(db, markets, n, News(m, tradeId)[0]).Some?
    ensures Locks.Consistent(db, n, News(m, tradeId)[0])
    ensures Abreast(S.Settle(db, markets, n, News(m, tradeId)[0]).value, placed, (done + front) + [m])
  {
    var e := News(m, tradeId)[0];
    var next := S.Settle(db, markets, n, e).value;
    hide S.Settle, Tellable, RowAbreast, Locks.FillFits;
    if m.Trade? {
      var f := m.fill;
      FillPositive(db, markets, n, f, tradeId);
      assert Tellable(front + [m], placed, done, db.orders.Keys, f.takerId);
      assert Tellable(front + [m], placed, done, db.orders.Keys, f.makerId);
      assert RowAbreast(db, placed, done + front, f.takerId) && RowAbreast(db, placed, done + front, f.makerId);
      if n !in db.trades { FillIsNews(db, placed, done, front, f, tradeId); }
    }
    forall x ensures RowAbreast(next, placed, (done + front) + [m], x) {
      assert RowAbreast(db, placed, done + front, x);
      if m.Trade? {
        FillTold(db, markets, n, placed, done + front, m.fill, tradeId, x);
      } else {
        CancelTold(db, markets, n, placed, done + front, m, x);
      }
    }
  }

  /** All moves of a call are told, one after the other. */
  lemma {:induction false} MovesTold(start: S.Db, markets: S.Markets, run: seq<S.Stored>, placed: Register, done: seq<Move>,
                                     moves: seq<Move>, pen: Pen)
    requires Following(start, markets, run, placed, done) && AllSettle(start, markets, WriteMoves(run, moves, pen))
    requires AllTellable(moves, placed, done, S.SettleRun(start, markets, run).orders.Keys)
    requires AllSound(done) && AllSound(moves) && AllFits(moves, placed) && BuysPriced(placed)
    ensures Following(start, markets, WriteMoves(run, moves, pen), placed, done + moves)
    ensures AllSettle(start, markets, run)
    ensures S.SettleRun(start, markets, run).orders.Keys <= S.SettleRun(start, markets, WriteMoves(run, moves, pen)).orders.Keys
  {
    if moves == [] {
      assert done + moves == done;
    } else {
      var front, last := moves[..|moves| - 1], moves[|moves| - 1];
      assert moves == front + [last] && done + moves == (done + front) + [last];
      assert last in moves && forall m :: m in front ==> m in moves;
      AllTellablePrefix(moves, placed, done, S.SettleRun(start, markets, run).orders.Keys);
      hide Following, AllTellable, S.SettleRun, WriteMove, TradeFits;
      MoveSettles(start, markets, WriteMoves(run, front, pen), last, pen);
      MovesTold(start, markets, run, placed, done, front, pen);
      var mid := WriteMoves(run, front, pen);
      TellableMore(moves, placed, done, S.SettleRun(start, markets, run).orders.Keys, S.SettleRun(start, markets, mid).orders.Keys);
      MoveTold(start, markets, mid, placed, done, front, last, pen);
    }
  }

  lemma MoveSettles(start: S.Db, markets: S.Markets, run: seq<S.Stored>, m: Move, pen: Pen)
    requires AllSettle(start, markets, WriteMove(run, m, pen))
    ensures AllSettle(start, markets, run)
  {
    var news := News(m, pen.tradeIds(|run|));
    if news != [] { WriteSettles(start, markets, run, news[0], pen); }
  }

  // ---- What the engine has done so far -------------------------------------------

  /** The order under `x` is accounted for by its book and by what was done; once cancelled it
    is on no book, and if it is on one settlement has heard of it. */
  ghost predicate Known(e: State, placed: Register, done: seq<Move>, ids: set<Id>, x: Id) {
    if x in placed then
      var left := Total(Amount(x), BookOf(e, placed[x].symbol));
      && 0 <= left && placed[x].quantity == left + Gone(Amount(x), done)
      && (Cancels(x, done) ==> left == 0) && (left > 0 ==> x in ids)
    else Gone(Amount(x), done) == 0 && !Cancels(x, done)
  }

  lemma {:induction false} CancelsTakes(x: Id, moves: seq<Move>)
    requires AllSound(moves) && Cancels(x, moves)
    ensures Gone(Amount(x), moves) > 0
  {
    var front, last := moves[..|moves| - 1], moves[|moves| - 1];
    assert moves == front + [last];
    assert last in moves && forall m :: m in front ==> m in moves;
    OutNonNegative(x, last);
    TradedWithin(x, front);
    CancelsConcat(x, front, [last]);
    if Cancels(x, front) { CancelsTakes(x, front); }
  }

  /** One order's part in a call on the book of `s`: it had `before` there and brought `brought`. */
  lemma CallKnown(e: State, q: State, placed: Register, later: Register, s: Symbol, moves: seq<Move>, done: seq<Move>,
                  ids: set<Id>, more: set<Id>, x: Id, before: int, brought: int)
    requires Known(e, placed, done, ids, x) && AllSound(done) && AllSound(moves) && ids <= more
    requires s in q.books && q.books == e.books[s := q.books[s]]
    requires x in placed ==> x in later && later[x] == placed[x] && brought == 0
    requires x !in placed ==> if x in later then later[x].symbol == s && later[x].quantity == brought && x in more else brought == 0
    requires if x in placed && placed[x].symbol == s then before == Total(Amount(x), BookOf(e, s)) else before == 0
    requires var after := Total(Amount(x), q.books[s]);
      0 <= after && before + brought == after + Gone(Amount(x), moves) && Final(x, moves, after)
    requires x !in later || later[x].symbol != s ==> Total(Amount(x), q.books[s]) == 0
    ensures Tellable(moves, later, done, more, x) && Known(q, later, done + moves, more, x)
  {
    GoneConcat(Amount(x), done, moves);
    CancelsConcat(x, done, moves);
    TradedWithin(x, moves);
    TradedWithin(x, done);
    if Cancels(x, moves) { CancelsTakes(x, moves); }
    hide Total, Gone, Late, Cancels, GoneBy;
  }

  // ---- Placing -------------------------------------------------------------------

  /** The state after an order, whatever becomes of the table. */
  function AfterPlace(e: State, o: Order, placed: Register): State
    requires Sane(e, placed) && Loggable(o) && o.id !in placed
  {
    State(e.books[o.symbol := PlaceInBook(e, o, placed).0], e.open)
  }

  lemma PlacedAmounts(e: State, o: Order, placed: Register, x: Id)
    requires Sane(e, placed) && Loggable(o) && o.id !in placed
    ensures var (c, moves) := PlaceInBook(e, o, placed);
      var before := if x in placed && placed[x].symbol == o.symbol then Total(Amount(x), BookOf(e, o.symbol)) else 0;
      && AllSound(moves) && 0 <= Total(Amount(x), c)
      && before + (if x == o.id then o.remaining else 0) == Total(Amount(x), c) + Gone(Amount(x), moves)
      && Final(x, moves, Total(Amount(x), c))
      && (x !in placed[o.id := o] || placed[o.id := o][x].symbol != o.symbol ==> Total(Amount(x), c) == 0)
  {
    var b := WithLink(BookOf(e, o.symbol), o);
    var (c, moves) := PlaceInBook(e, o, placed);
    MeetsBook(e, o, placed);
    LinkTotals(BookOf(e, o.symbol), o, Amount(x));
    BookOfSane(e, placed, o.symbol);
    if !(x in placed && placed[x].symbol == o.symbol) { ForeignId(BookOf(e, o.symbol), placed, o.symbol, x); }
    if !(x in placed[o.id := o] && placed[o.id := o][x].symbol == o.symbol) { ForeignId(c, placed[o.id := o], o.symbol, x); }
    SubmitSound(b, o);
    SubmitConserves(Amount(x), b, o);
    CancelledStaysCancelled(b, o, x);
    PresentIffAmount(c, x);
    hide Submit, PlaceInBook, WithLink, Total, Gone, Final, Sane, Fresh, BookSane, BookOf;
  }

  lemma PlaceKnown(e: State, o: Order, placed: Register, done: seq<Move>, ids: set<Id>, x: Id)
    requires Sane(e, placed) && Loggable(o) && o.id !in placed && o.remaining == o.quantity
    requires Known(e, placed, done, ids, x) && AllSound(done)
    ensures var moves, later, q := PlaceInBook(e, o, placed).1, placed[o.id := o], AfterPlace(e, o, placed);
      && Tellable(moves, later, done, ids + {o.id}, x) && Known(q, later, done + moves, ids + {o.id}, x)
      && (PreReject(o.id, EventsOf(moves)).Some? ==> Known(q, later, done + moves, ids, x))
  {
    var (c, moves) := PlaceInBook(e, o, placed);
    var later, q := placed[o.id := o], AfterPlace(e, o, placed);
    var before := if x in placed && placed[x].symbol == o.symbol then Total(Amount(x), BookOf(e, o.symbol)) else 0;
    PlacedAmounts(e, o, placed, x);
    if PreReject(o.id, EventsOf(moves)).Some? { RejectCancels(o.id, moves); }
    hide PlaceInBook, Total, Gone, Late, Sane, PreReject, Tellable;
    CallKnown(e, q, placed, later, o.symbol, moves, done, ids, ids + {o.id}, x, before, if x == o.id then o.remaining else 0);
    KnownUnlessLeft(q, later, done, moves, ids, o, x);
  }

  /** A rejected order is on no book, so settlement need not have heard of it. */
  lemma KnownUnlessLeft(q: State, later: Register, done: seq<Move>, moves: seq<Move>, ids: set<Id>, o: Order, x: Id)
    requires Known(q, later, done + moves, ids + {o.id}, x) && o.id in later
    ensures Cancels(o.id, moves) ==> Known(q, later, done + moves, ids, x)
  {
    CancelsConcat(o.id, done, moves);
    hide Total, Gone, Cancels;
  }

  lemma RejectCancels(id: Id, moves: seq<Move>)
    requires PreReject(id, EventsOf(moves)).Some?
    ensures Cancels(id, moves)
  {
    PreRejectIsThere(id, EventsOf(moves));
    var e :| e in EventsOf(moves) && e.Cancelled? && e.cancelledId == id;
    var m := EventHasMove(moves, e);
  }

  // ---- Cancelling ----------------------------------------------------------------

  lemma CancelKnownMoves(e: State, id: Id, placed: Register, done: seq<Move>, ids: set<Id>, x: Id)
    requires Sane(e, placed) && id in e.open && e.open[id].symbol in e.books
    requires Known(e, placed, done, ids, x) && AllSound(done)
    ensures var s := e.open[id].symbol; var (c, moves) := CancelOrder(e.books[s], id);
      && AllSound(moves) && Tellable(moves, placed, done, ids, x)
      && Known(CancelInBook(e, id).0, placed, done + moves, ids, x)
  {
    var s := e.open[id].symbol;
    var b := e.books[s];
    var (c, moves) := CancelOrder(b, id);
    var q := CancelInBook(e, id).0;
    assert BookSane(b, placed, s);
    CancelSane(e, id, placed);
    assert BookSane(q.books[s], placed, s);
    if !(x in placed && placed[x].symbol == s) {
      ForeignId(b, placed, s, x);
      ForeignId(c, placed, s, x);
    }
    CancelSound(b, id);
    CancelConserves(Amount(x), b, id);
    CancelIsFinal(b, id, x);
    PresentIffAmount(c, x);
    hide CancelOrder, Total, Gone, Final, Sane, BookSane, Known, ApplyUpdates;
    var before := if x in placed && placed[x].symbol == s then Total(Amount(x), b) else 0;
    CallKnown(e, q, placed, placed, s, moves, done, ids, ids, x, before, 0);
  }

  lemma CancelFits(b: Book, id: Id, placed: Register)
    ensures AllFits(CancelOrder(b, id).1, placed)
  {
  }

  // ---- Server and settlement together --------------------------------------------

  ghost predicate AllKnown(e: State, placed: Register, done: seq<Move>, ids: set<Id>) {
    forall x :: Known(e, placed, done, ids, x)
  }

  /** Settlement has been told `run` of the server's history, in which `done` happened. */
  ghost predicate Joined(start: S.Db, markets: S.Markets, s: Server, run: seq<S.Stored>, done: seq<Move>) {
    && ServerSane(s) && BuysPriced(PlacedIn(s.log)) && AllSound(done)
    && Following(start, markets, run, PlacedIn(s.log), done)
    && AllKnown(s.state, PlacedIn(s.log), done, S.SettleRun(start, markets, run).orders.Keys)
  }

  lemma AbreastLater(db: S.Db, placed: Register, later: Register, done: seq<Move>)
    requires Abreast(db, placed, done) && forall x :: x in placed ==> x in later && later[x] == placed[x]
    ensures Abreast(db, later, done)
  {
    forall x ensures RowAbreast(db, later, done, x) {
      assert RowAbreast(db, placed, done, x);
    }
  }

  lemma AbreastMany(db: S.Db, placed: Register, done: seq<Move>, moves: seq<Move>)
    requires Abreast(db, placed, done) && AllSound(moves)
    ensures Abreast(db, placed, done + moves)
  {
    forall x ensures RowAbreast(db, placed, done + moves, x) {
      assert RowAbreast(db, placed, done, x);
      GoneByConcat(Traded, Amount(x), done, moves);
      TradedWithin(x, moves);
      CancelsConcat(x, done, moves);
    }
  }

  /** The news that an order was accepted. */
  lemma AcceptedTold(start: S.Db, markets: S.Markets, run: seq<S.Stored>, placed: Register, o: Order, done: seq<Move>, pen: Pen)
    requires Following(start, markets, run, placed, done) && AllSettle(start, markets, Write(run, NewsOfOrder(o), pen))
    requires o.id !in placed && (o.side == Buy ==> o.price.Some?) && AllSound(done)
    ensures Following(start, markets, Write(run, NewsOfOrder(o), pen), placed[o.id := o], done)
    ensures S.SettleRun(start, markets, Write(run, NewsOfOrder(o), pen)).orders.Keys ==
            S.SettleRun(start, markets, run).orders.Keys + {o.id}
  {
    WriteSettles(start, markets, run, NewsOfOrder(o), pen);
    var db := S.SettleRun(start, markets, run);
    var next := S.SettleRun(start, markets, Write(run, NewsOfOrder(o), pen));
    assert RowAbreast(db, placed, done, o.id);
    AcceptedRows(db, markets, pen.numbers(|run|), o);
    AbreastLater(db, placed, placed[o.id := o], done);
    hide S.Settle, S.SettleRun, Locks.ConsistentRun;
    var later := placed[o.id := o];
    forall x ensures RowAbreast(next, later, done, x) {
      TradedWithin(x, done);
      assert RowAbreast(db, later, done, x);
    }
  }

  lemma AcceptedRows(db: S.Db, markets: S.Markets, n: int, o: Order)
    requires o.id !in db.orders && S.Settle(db, markets, n, NewsOfOrder(o)).Some?
    ensures S.Settle(db, markets, n, NewsOfOrder(o)).value.orders == db.orders[o.id := S.NewRow(NewsOfOrder(o).order)]
  {
    hide S.LockObligation, S.RowAllowed;
  }

  // ---- Placing -------------------------------------------------------------------

  /** The run after a request to place an order: nothing is told of a rejected one, not even
    of what it did to the book. */
  function PlaceRun(s: Server, w: WireOrder, run: seq<S.Stored>, pen: Pen): seq<S.Stored>
    requires ServerSane(s) && Acceptable(s, w)
  {
    if Validate(w).Some? || w.symbol in s.halted then run
    else
      ValidatedIsReady(w);
      var o := ToCore(w);
      var moves := PlaceInBook(s.state, o, PlacedIn(s.log)).1;
      if PreReject(o.id, EventsOf(moves)).Some? then run
      else WriteMoves(Write(run, NewsOfOrder(o), pen), moves, pen)
  }

  lemma UnderOneSymbol(placed: Register, s: Symbol)
    ensures OneSymbol(Under(placed, s))
  {
  }

  lemma WiderFits(moves: seq<Move>, placed: Register, wider: Register)
    requires AllFits(moves, placed) && forall x :: x in placed ==> x in wider && wider[x] == placed[x]
    ensures AllFits(moves, wider)
  {
    forall m | m in moves ensures TradeFits(m, wider) {
      assert TradeFits(m, placed);
    }
  }

  lemma PlaceFits(e: State, o: Order, placed: Register)
    requires Sane(e, placed) && Loggable(o) && o.id !in placed
    ensures AllFits(PlaceInBook(e, o, placed).1, placed[o.id := o])
  {
    var b, wider := WithLink(BookOf(e, o.symbol), o), Under(placed[o.id := o], o.symbol);
    MeetsBook(e, o, placed);
    assert wider == Under(placed, o.symbol)[o.id := o];
    StillFrom(b, Under(placed, o.symbol), o);
    UnderOneSymbol(placed[o.id := o], o.symbol);
    hide Submit, PlaceInBook, AllFits, AllFrom, OneSymbol;
    FillsAreOnTerms(b, o, wider);
    WiderFits(Submit(b, o).1, wider, placed[o.id := o]);
  }

  /** Known and tellable for every id at once. */
  lemma PlaceAllKnown(e: State, o: Order, placed: Register, done: seq<Move>, ids: set<Id>)
    requires Sane(e, placed) && Loggable(o) && o.id !in placed && o.remaining == o.quantity
    requires AllKnown(e, placed, done, ids) && AllSound(done)
    ensures var moves, later, q := PlaceInBook(e, o, placed).1, placed[o.id := o], AfterPlace(e, o, placed);
      && AllSound(moves) && AllTellable(moves, later, done, ids + {o.id}) && AllKnown(q, later, done + moves, ids + {o.id})
      && (PreReject(o.id, EventsOf(moves)).Some? ==> AllKnown(q, later, done + moves, ids))
  {
    var moves, later, q := PlaceInBook(e, o, placed).1, placed[o.id := o], AfterPlace(e, o, placed);
    PlacedAmounts(e, o, placed, 0);
    hide PlaceInBook, Known, Tellable, Sane, PreReject, Loggable;
    forall x ensures Tellable(moves, later, done, ids + {o.id}, x) && Known(q, later, done + moves, ids + {o.id}, x)
                     && (PreReject(o.id, EventsOf(moves)).Some? ==> Known(q, later, done + moves, ids, x)) {
      assert Known(e, placed, done, ids, x);
      PlaceKnown(e, o, placed, done, ids, x);
    }
  }

  lemma KnownByBooks(e: State, q: State, placed: Register, done: seq<Move>, ids: set<Id>, more: set<Id>)
    requires AllKnown(e, placed, done, ids) && q.books == e.books && ids <= more
    ensures AllKnown(q, placed, done, more)
  {
    forall x ensures Known(q, placed, done, more, x) {
      assert Known(e, placed, done, ids, x);
    }
  }

  lemma BuysStayPriced(placed: Register, o: Order)
    requires BuysPriced(placed) && (o.side == Buy ==> o.price.Some?)
    ensures BuysPriced(placed[o.id := o])
  {
  }

  lemma {:induction false} MovesSettle(start: S.Db, markets: S.Markets, run: seq<S.Stored>, moves: seq<Move>, pen: Pen)
    requires AllSettle(start, markets, WriteMoves(run, moves, pen))
    ensures AllSettle(start, markets, run)
  {
    if moves != [] {
      MoveSettles(start, markets, WriteMoves(run, moves[..|moves| - 1], pen), moves[|moves| - 1], pen);
      MovesSettle(start, markets, run, moves[..|moves| - 1], pen);
    }
  }

  lemma SoundConcat(a: seq<Move>, b: seq<Move>)
    requires AllSound(a) && AllSound(b)
    ensures AllSound(a + b)
  {
  }

  /** What a request to place an order does, if it reaches its book. */
  function PlaceMoves(s: Server, w: WireOrder): seq<Move>
    requires ServerSane(s) && Acceptable(s, w)
  {
    if Validate(w).Some? || w.symbol in s.halted then []
    else
      ValidatedIsReady(w);
      PlaceInBook(s.state, ToCore(w), PlacedIn(s.log)).1
  }

  lemma PlaceTold(start: S.Db, markets: S.Markets, s: Server, w: WireOrder, run: seq<S.Stored>, done: seq<Move>, pen: Pen)
    returns (more: seq<Move>)
    requires Joined(start, markets, s, run, done) && Acceptable(s, w) && (w.side == Buy ==> w.price.Some?)
    requires AllSettle(start, markets, PlaceRun(s, w, run, pen))
    ensures Joined(start, markets, ServePlace(s, w).0, PlaceRun(s, w, run, pen), done + more) && more == PlaceMoves(s, w)
  {
    if Validate(w).Some? || w.symbol in s.halted {
      more := [];
      assert done + more == done;
    } else {
      more := OrderTold(start, markets, s, w, run, done, pen);
    }
  }

  lemma OrderTold(start: S.Db, markets: S.Markets, s: Server, w: WireOrder, run: seq<S.Stored>, done: seq<Move>, pen: Pen)
    returns (moves: seq<Move>)
    requires Joined(start, markets, s, run, done) && Acceptable(s, w) && (w.side == Buy ==> w.price.Some?)
    requires Validate(w).None? && w.symbol !in s.halted && AllSettle(start, markets, PlaceRun(s, w, run, pen))
    ensures Joined(start, markets, ServePlace(s, w).0, PlaceRun(s, w, run, pen), done + moves) && moves == PlaceMoves(s, w)
  {
    ValidatedIsReady(w);
    var o, placed := ToCore(w), PlacedIn(s.log);
    var later, ids := placed[o.id := o], S.SettleRun(start, markets, run).orders.Keys;
    moves := PlaceInBook(s.state, o, placed).1;
    LogGrows(s.log, PlaceLogged(o));
    assert PlacedIn(ServePlace(s, w).0.log) == later;
    var q := AfterPlace(s.state, o, placed);
    assert ServePlace(s, w).0.state.books == q.books;
    PlaceAllKnown(s.state, o, placed, done, ids);
    SoundConcat(done, moves);
    BuysStayPriced(placed, o);
    PlaceFits(s.state, o, placed);
    hide S.SettleRun, AllSettle, AllKnown, AllTellable, AllSound, AllFits, BuysPriced, PlaceInBook, ServerSane, PreReject,
         ServePlace, AfterPlace, Abreast, Locks.ConsistentRun, WriteMoves, Write;
    var db := S.SettleRun(start, markets, run);
    if PreReject(o.id, EventsOf(moves)).Some? {
      AbreastLater(db, placed, later, done);
      AbreastMany(db, later, done, moves);
      KnownByBooks(q, ServePlace(s, w).0.state, later, done + moves, ids, ids);
    } else {
      var told := Write(run, NewsOfOrder(o), pen);
      MovesSettle(start, markets, told, moves, pen);
      AcceptedTold(start, markets, run, placed, o, done, pen);
      MovesTold(start, markets, told, later, done, moves, pen);
      KnownByBooks(q, ServePlace(s, w).0.state, later, done + moves, ids + {o.id},
                   S.SettleRun(start, markets, WriteMoves(told, moves, pen)).orders.Keys);
    }
  }

  // ---- Cancelling ----------------------------------------------------------------

  function CancelMoves(e: State, id: Id): seq<Move> {
    if id !in e.open || e.open[id].symbol !in e.books then [] else CancelOrder(e.books[e.open[id].symbol], id).1
  }

  function CancelRun(s: Server, id: Id, run: seq<S.Stored>, pen: Pen): seq<S.Stored> {
    WriteMoves(run, CancelMoves(s.state, id), pen)
  }

  lemma CancelAllKnown(e: State, id: Id, placed: Register, done: seq<Move>, ids: set<Id>)
    requires Sane(e, placed) && AllKnown(e, placed, done, ids) && AllSound(done)
    requires id in e.open && e.open[id].symbol in e.books
    ensures var moves := CancelMoves(e, id);
      AllSound(moves) && AllTellable(moves, placed, done, ids) && AllKnown(CancelInBook(e, id).0, placed, done + moves, ids)
  {
    var moves, q := CancelMoves(e, id), CancelInBook(e, id).0;
    assert Known(e, placed, done, ids, 0);
    CancelKnownMoves(e, id, placed, done, ids, 0);
    forall x ensures Tellable(moves, placed, done, ids, x) && Known(q, placed, done + moves, ids, x) {
      assert Known(e, placed, done, ids, x);
      CancelKnownMoves(e, id, placed, done, ids, x);
    }
  }

  lemma CancelToldBy(start: S.Db, markets: S.Markets, s: Server, id: Id, run: seq<S.Stored>, done: seq<Move>, pen: Pen)
    requires Joined(start, markets, s, run, done) && AllSettle(start, markets, CancelRun(s, id, run, pen))
    ensures Joined(start, markets, CancelKnown(s, id).0, CancelRun(s, id, run, pen), done + CancelMoves(s.state, id))
  {
    var moves, placed := CancelMoves(s.state, id), PlacedIn(s.log);
    var ids := S.SettleRun(start, markets, run).orders.Keys;
    var q := CancelKnown(s, id).0;
    LogGrows(s.log, CancelLogged(id));
    if id in s.state.open && s.state.open[id].symbol in s.state.books {
      CancelAllKnown(s.state, id, placed, done, ids);
      CancelFits(s.state.books[s.state.open[id].symbol], id, placed);
      SoundConcat(done, moves);
      hide S.SettleRun, AllSettle, AllTellable, AllSound, AllFits, BuysPriced, CancelOrder, Known, ServerSane,
           Following, WriteMoves;
      MovesTold(start, markets, run, placed, done, moves, pen);
      KnownByBooks(q.state, q.state, placed, done + moves, ids, S.SettleRun(start, markets, CancelRun(s, id, run, pen)).orders.Keys);
    } else {
      assert done + moves == done;
    }
  }

  function CancelEachRun(s: Server, ids: seq<Id>, run: seq<S.Stored>, pen: Pen): seq<S.Stored>
    requires ServerSane(s)
    decreases ids
  {
    if ids == [] then run
    else CancelEachRun(CancelKnown(s, ids[0]).0, ids[1..], CancelRun(s, ids[0], run, pen), pen)
  }

  function CancelEachMoves(s: Server, ids: seq<Id>): seq<Move>
    requires ServerSane(s)
    decreases ids
  {
    if ids == [] then [] else CancelMoves(s.state, ids[0]) + CancelEachMoves(CancelKnown(s, ids[0]).0, ids[1..])
  }

  lemma {:induction false} CancelEachSettle(start: S.Db, markets: S.Markets, s: Server, ids: seq<Id>, run: seq<S.Stored>, pen: Pen)
    requires ServerSane(s) && AllSettle(start, markets, CancelEachRun(s, ids, run, pen))
    ensures AllSettle(start, markets, run)
    decreases ids
  {
    if ids != [] {
      CancelEachSettle(start, markets, CancelKnown(s, ids[0]).0, ids[1..], CancelRun(s, ids[0], run, pen), pen);
      MovesSettle(start, markets, run, CancelMoves(s.state, ids[0]), pen);
    }
  }

  lemma {:induction false} CancelEachTold(start: S.Db, markets: S.Markets, s: Server, ids: seq<Id>, run: seq<S.Stored>,
                                          done: seq<Move>, pen: Pen) returns (more: seq<Move>)
    requires Joined(start, markets, s, run, done) && AllSettle(start, markets, CancelEachRun(s, ids, run, pen))
    ensures Joined(start, markets, CancelEach(s, ids).0, CancelEachRun(s, ids, run, pen), done + more)
    ensures more == CancelEachMoves(s, ids)
    decreases ids
  {
    more := [];
    if ids == [] {
      assert done + more == done;
    } else {
      hide AllSettle, CancelKnown, CancelRun, CancelMoves, Following, AllKnown, BuysPriced, AllSound, Sane;
      var next, mid := CancelKnown(s, ids[0]).0, CancelRun(s, ids[0], run, pen);
      var first := CancelMoves(s.state, ids[0]);
      CancelEachSettle(start, markets, next, ids[1..], mid, pen);
      CancelToldBy(start, markets, s, ids[0], run, done, pen);
      var rest := CancelEachTold(start, markets, next, ids[1..], mid, done + first, pen);
      more := first + rest;
      assert (done + first) + rest == done + more;
    }
  }

  // ---- Runs of requests ----------------------------------------------------------

  /** What settlement is told after a request. */
  function RequestRun(s: Server, r: Request, run: seq<S.Stored>, pen: Pen): seq<S.Stored>
    requires ServerSane(s) && (r.PlaceRequest? ==> Acceptable(s, r.order))
  {
    match r
    case PlaceRequest(w) => PlaceRun(s, w, run, pen)
    case CancelRequest(id, symbol) =>
      if id !in s.state.open || s.state.open[id].symbol != symbol then run else CancelRun(s, id, run, pen)
    case CancelAllRequest(user, only) => CancelEachRun(s, Ascending(Selection(s.state.open, user, only)), run, pen)
    case HaltMarket(_) => run
    case ResumeMarket(_) => run
  }

  /** What a request does to the books. */
  function RequestMoves(s: Server, r: Request): seq<Move>
    requires ServerSane(s) && (r.PlaceRequest? ==> Acceptable(s, r.order))
  {
    match r
    case PlaceRequest(w) => PlaceMoves(s, w)
    case CancelRequest(id, symbol) =>
      if id !in s.state.open || s.state.open[id].symbol != symbol then [] else CancelMoves(s.state, id)
    case CancelAllRequest(user, only) => CancelEachMoves(s, Ascending(Selection(s.state.open, user, only)))
    case HaltMarket(_) => []
    case ResumeMarket(_) => []
  }

  /** All that happened over a run of requests. */
  function Doings(reqs: seq<Request>): seq<Move>
    requires Admissible(reqs)
  {
    if reqs == [] then [] else Doings(reqs[..|reqs| - 1]) + RequestMoves(Serve(reqs[..|reqs| - 1]), reqs[|reqs| - 1])
  }

  /** What settlement is told over a run of requests. */
  function Tape(reqs: seq<Request>, pen: Pen): seq<S.Stored>
    requires Admissible(reqs)
  {
    if reqs == [] then []
    else RequestRun(Serve(reqs[..|reqs| - 1]), reqs[|reqs| - 1], Tape(reqs[..|reqs| - 1], pen), pen)
  }

  /** No request is a buy without a price. */
  predicate PricedRequests(reqs: seq<Request>) {
    forall i :: 0 <= i < |reqs| && reqs[i].PlaceRequest? && reqs[i].order.side == Buy ==> reqs[i].order.price.Some?
  }

  lemma PlaceRunSettles(start: S.Db, markets: S.Markets, s: Server, w: WireOrder, run: seq<S.Stored>, pen: Pen)
    requires ServerSane(s) && Acceptable(s, w) && AllSettle(start, markets, PlaceRun(s, w, run, pen))
    ensures AllSettle(start, markets, run)
  {
    if Validate(w).None? && w.symbol !in s.halted {
      ValidatedIsReady(w);
      var o := ToCore(w);
      var moves := PlaceInBook(s.state, o, PlacedIn(s.log)).1;
      hide PlaceInBook, ServerSane, PreReject, S.Settle;
      if PreReject(o.id, EventsOf(moves)).None? {
        MovesSettle(start, markets, Write(run, NewsOfOrder(o), pen), moves, pen);
        WriteSettles(start, markets, run, NewsOfOrder(o), pen);
      }
    }
  }

  lemma RequestSettles(start: S.Db, markets: S.Markets, s: Server, r: Request, run: seq<S.Stored>, pen: Pen)
    requires ServerSane(s) && (r.PlaceRequest? ==> Acceptable(s, r.order))
    requires AllSettle(start, markets, RequestRun(s, r, run, pen))
    ensures AllSettle(start, markets, run)
  {
    hide PlaceRun, AllSettle, CancelEachRun, CancelMoves, ServerSane;
    match r
    case PlaceRequest(w) => PlaceRunSettles(start, markets, s, w, run, pen);
    case CancelRequest(id, symbol) =>
      if id in s.state.open && s.state.open[id].symbol == symbol { MovesSettle(start, markets, run, CancelMoves(s.state, id), pen); }
    case CancelAllRequest(user, only) =>
      CancelEachSettle(start, markets, s, Ascending(Selection(s.state.open, user, only)), run, pen);
    case HaltMarket(_) =>
    case ResumeMarket(_) =>
  }

  lemma NothingDone(start: S.Db, markets: S.Markets)
    requires Locks.Opening(start, markets)
    ensures Joined(start, markets, Idle, [], [])
  {
  }

  lemma HaltedJoined(start: S.Db, markets: S.Markets, s: Server, halted: set<Symbol>, run: seq<S.Stored>, done: seq<Move>)
    requires Joined(start, markets, s, run, done)
    ensures Joined(start, markets, s.(halted := halted), run, done + [])
  {
    assert done + [] == done;
    hide Following, AllKnown, Sane, BuysPriced;
  }

  lemma RequestTold(start: S.Db, markets: S.Markets, s: Server, r: Request, run: seq<S.Stored>, done: seq<Move>, pen: Pen)
    returns (more: seq<Move>)
    requires Joined(start, markets, s, run, done)
    requires r.PlaceRequest? ==> Acceptable(s, r.order) && (r.order.side == Buy ==> r.order.price.Some?)
    requires AllSettle(start, markets, RequestRun(s, r, run, pen))
    ensures Joined(start, markets, Handle(s, r).0, RequestRun(s, r, run, pen), done + more) && more == RequestMoves(s, r)
  {
    more := [];
    HaltedJoined(start, markets, s, s.halted, run, done);
    match r {
      case PlaceRequest(w) => more := PlaceTold(start, markets, s, w, run, done, pen);
      case CancelRequest(id, symbol) =>
        if id in s.state.open && s.state.open[id].symbol == symbol {
          CancelToldBy(start, markets, s, id, run, done, pen);
          more := CancelMoves(s.state, id);
        }
      case CancelAllRequest(user, only) =>
        more := CancelEachTold(start, markets, s, Ascending(Selection(s.state.open, user, only)), run, done, pen);
      case HaltMarket(m) => HaltedJoined(start, markets, s, s.halted + {m}, run, done);
      case ResumeMarket(m) => HaltedJoined(start, markets, s, s.halted - {m}, run, done);
    }
    hide AllSettle, PlaceRun, CancelEachRun, CancelRun, ServePlace, CancelKnown, CancelEach, Joined, PlaceMoves, CancelMoves,
         CancelEachMoves;
  }

  lemma {:induction false} EngineIsFollowed(start: S.Db, markets: S.Markets, reqs: seq<Request>, pen: Pen) returns (done: seq<Move>)
    requires Locks.Opening(start, markets) && Admissible(reqs) && PricedRequests(reqs)
    requires AllSettle(start, markets, Tape(reqs, pen))
    ensures Joined(start, markets, Serve(reqs), Tape(reqs, pen), done) && done == Doings(reqs)
  {
    done := [];
    if reqs == [] {
      NothingDone(start, markets);
    } else {
      var before, last := reqs[..|reqs| - 1], reqs[|reqs| - 1];
      assert reqs[|reqs| - 1] == last;
      hide AllSettle, RequestRun, Handle, Joined, Locks.Opening;
      RequestSettles(start, markets, Serve(before), last, Tape(before, pen), pen);
      done := EngineIsFollowed(start, markets, before, pen);
      var more := RequestTold(start, markets, Serve(before), last, Tape(before, pen), done, pen);
      done := done + more;
    }
  }
}
