/** Settlement that lags behind the engine, or has stopped at an event it cannot process: whatever
  part of the engine's events it has processed is consistent. */
module Lagging {
  import opened Orders
  import opened Ladder
  import opened Matcher
  import opened Conservation
  import opened Histories
  import opened Voids
  import opened Origins
  import opened Wire
  import opened Engine
  import opened ExactTable
  import opened Terms
  import opened Bridge
  import Levels
  import Accounts
  import Locks
  import Sums
  import S = Settlement

  /** The event is consistent, and if it is a cancellation, it is of an order that settlement knows. */
  predicate Told(db: S.Db, e: S.Stored) {
    Locks.Consistent(db, e.engineSeq, e.event) && (e.event.CanceledOrder? ==> e.event.id in db.orders)
  }

  /** Whatever part of the run settlement gets through without a failure, the next event is told
    as it should be. */
  ghost predicate PartsTold(start: S.Db, markets: S.Markets, run: seq<S.Stored>) {
    forall n: nat :: n < |run| && AllSettle(start, markets, run[..n]) ==> Told(S.SettleRun(start, markets, run[..n]), run[n])
  }

  /** So what it gets through is consistent. */
  lemma {:induction false} PartIsConsistent(start: S.Db, markets: S.Markets, run: seq<S.Stored>, n: nat)
    requires PartsTold(start, markets, run) && n <= |run| && AllSettle(start, markets, run[..n])
    ensures Locks.ConsistentRun(start, markets, run[..n])
  {
    if n > 0 {
      hide S.Settle, Locks.Consistent;
      assert run[..n][..n - 1] == run[..n - 1];
      PartIsConsistent(start, markets, run, n - 1);
      assert Told(S.SettleRun(start, markets, run[..n - 1]), run[n - 1]);
    }
  }

  lemma {:induction false} FrontSettles(start: S.Db, markets: S.Markets, run: seq<S.Stored>, n: nat)
    requires AllSettle(start, markets, run) && n <= |run|
    ensures AllSettle(start, markets, run[..n])
    decreases |run|
  {
    if n == |run| {
      assert run[..n] == run;
    } else {
      assert run[..|run| - 1][..n] == run[..n];
      FrontSettles(start, markets, run[..|run| - 1], n);
    }
  }

  lemma PartSettles(start: S.Db, markets: S.Markets, run: seq<S.Stored>, longer: seq<S.Stored>)
    requires AllSettle(start, markets, longer) && run <= longer
    ensures AllSettle(start, markets, run)
  {
    FrontSettles(start, markets, longer, |run|);
    assert longer[..|run|] == run;
  }

  /** Behind an event that fails nothing is processed. */
  lemma StopsThere(start: S.Db, markets: S.Markets, run: seq<S.Stored>, longer: seq<S.Stored>)
    requires PartsTold(start, markets, run) && run <= longer && !AllSettle(start, markets, run)
    ensures PartsTold(start, markets, longer)
  {
    hide AllSettle, Told, S.SettleRun;
    forall n: nat | n < |longer| && AllSettle(start, markets, longer[..n])
      ensures Told(S.SettleRun(start, markets, longer[..n]), longer[n])
    {
      if |run| <= n {
        PartSettles(start, markets, run, longer[..n]);
      } else {
        assert longer[..n] == run[..n];
      }
    }
  }

  lemma OneMore(start: S.Db, markets: S.Markets, run: seq<S.Stored>, longer: seq<S.Stored>)
    requires PartsTold(start, markets, run) && run <= longer && |longer| <= |run| + 1
    requires |run| < |longer| && AllSettle(start, markets, run) ==> Told(S.SettleRun(start, markets, run), longer[|run|])
    ensures PartsTold(start, markets, longer)
  {
    hide AllSettle, Told, S.SettleRun;
    forall n: nat | n < |longer| && AllSettle(start, markets, longer[..n])
      ensures Told(S.SettleRun(start, markets, longer[..n]), longer[n])
    {
      if n == |run| {
        assert longer[..n] == run;
      } else {
        assert longer[..n] == run[..n];
      }
    }
  }

  // ---- Writing goes on where it was ----------------------------------------------

  lemma {:induction false} MovesGoOn(run: seq<S.Stored>, moves: seq<Move>, pen: Pen)
    ensures run <= WriteMoves(run, moves, pen)
  {
    if moves != [] { MovesGoOn(run, moves[..|moves| - 1], pen); }
  }

  lemma PlaceGoesOn(s: Server, w: WireOrder, run: seq<S.Stored>, pen: Pen)
    requires ServerSane(s) && Acceptable(s, w)
    ensures run <= PlaceRun(s, w, run, pen)
  {
    if Validate(w).None? && w.symbol !in s.halted {
      ValidatedIsReady(w);
      MovesGoOn(Write(run, NewsOfOrder(ToCore(w)), pen), PlaceInBook(s.state, ToCore(w), PlacedIn(s.log)).1, pen);
    }
  }

  lemma {:induction false} CancelsGoOn(s: Server, ids: seq<Id>, run: seq<S.Stored>, pen: Pen)
    requires ServerSane(s)
    ensures run <= CancelEachRun(s, ids, run, pen)
    decreases ids
  {
    if ids != [] {
      MovesGoOn(run, CancelMoves(s.state, ids[0]), pen);
      CancelsGoOn(CancelKnown(s, ids[0]).0, ids[1..], CancelRun(s, ids[0], run, pen), pen);
    }
  }

  lemma RequestGoesOn(s: Server, r: Request, run: seq<S.Stored>, pen: Pen)
    requires ServerSane(s) && (r.PlaceRequest? ==> Acceptable(s, r.order))
    ensures run <= RequestRun(s, r, run, pen)
  {
    hide PlaceRun, CancelEachRun, CancelMoves, ServerSane;
    match r
    case PlaceRequest(w) => PlaceGoesOn(s, w, run, pen);
    case CancelRequest(id, symbol) => MovesGoOn(run, CancelMoves(s.state, id), pen);
    case CancelAllRequest(user, only) => CancelsGoOn(s, Ascending(Selection(s.state.open, user, only)), run, pen);
    case HaltMarket(_) =>
    case ResumeMarket(_) =>
  }

  // ---- Within a request ----------------------------------------------------------

  /** Rows have no price of zero or less. */
  ghost predicate RowsAllowed(db: S.Db) {
    forall x :: x in db.orders && db.orders[x].price.Some? ==> 0.0 < db.orders[x].price.value
  }

  lemma SettleAllows(db: S.Db, markets: S.Markets, n: int, e: S.EngineEvent)
    requires RowsAllowed(db) && S.Settle(db, markets, n, e).Some?
    ensures RowsAllowed(S.Settle(db, markets, n, e).value)
  {
    hide S.PostAll, S.FillMutations, S.Mean, S.Obligation, S.LockObligation;
    if e.Executed? && n !in db.trades {
      var f := e.fill;
      var taker, maker := db.orders[f.takerId], db.orders[f.makerId];
      Accounts.PostAllKeepsRows(db.(trades := db.trades[n := S.Trade(taker.market, f)]), S.FillMutations(n, f, taker, maker, markets));
    }
  }

  lemma {:induction false} RunAllows(start: S.Db, markets: S.Markets, run: seq<S.Stored>)
    requires Locks.Opening(start, markets)
    ensures RowsAllowed(S.SettleRun(start, markets, run))
  {
    if run != [] {
      var db, last := S.SettleRun(start, markets, run[..|run| - 1]), run[|run| - 1];
      RunAllows(start, markets, run[..|run| - 1]);
      hide S.Settle, RowsAllowed;
      if S.Settle(db, markets, last.engineSeq, last.event).Some? { SettleAllows(db, markets, last.engineSeq, last.event); }
    }
  }

  /** The next move's event is told as it should be, whether or not it will be processed. */
  lemma NewsFits(db: S.Db, placed: Register, done: seq<Move>, front: seq<Move>, m: Move, e: S.Stored, tradeId: Id)
    requires Abreast(db, placed, done + front) && AllTellable(front + [m], placed, done, db.orders.Keys)
    requires AllSound(done) && AllSound(front) && Sound(m) && TradeFits(m, placed) && BuysPriced(placed) && RowsAllowed(db)
    requires News(m, tradeId) == [e.event]
    ensures Told(db, e)
  {
    hide RowAbreast, Tellable, Locks.FillFits, GoneBy;
    if m.Trade? {
      var f := m.fill;
      assert Tellable(front + [m], placed, done, db.orders.Keys, f.takerId);
      assert Tellable(front + [m], placed, done, db.orders.Keys, f.makerId);
      assert RowAbreast(db, placed, done + front, f.takerId) && RowAbreast(db, placed, done + front, f.makerId);
      MakerPriced(db, placed, done, front, f);
      FillIsNews(db, placed, done, front, f, tradeId);
    } else {
      assert Tellable(front + [m], placed, done, db.orders.Keys, m.voidId);
      VoidIsKnown(front, m, placed, done, db.orders.Keys);
    }
  }

  lemma MakerPriced(db: S.Db, placed: Register, done: seq<Move>, front: seq<Move>, f: Fill)
    requires RowAbreast(db, placed, done + front, f.makerId)
    requires Tellable(front + [Trade(f)], placed, done, db.orders.Keys, f.makerId)
    requires AllSound(done) && AllSound(front) && Sound(Trade(f)) && TradeFits(Trade(f), placed) && RowsAllowed(db)
    ensures 0 < f.price
  {
    TraderIsOpen(db, placed, done, front, Trade(f), f.makerId, f.quantity);
    hide Tellable, GoneBy, AllSound, S.Remaining;
  }

  lemma VoidIsKnown(front: seq<Move>, m: Move, placed: Register, done: seq<Move>, ids: set<Id>)
    requires m.Void? && Sound(m) && AllSound(front) && Tellable(front + [m], placed, done, ids, m.voidId)
    ensures m.voidId in ids
  {
    GonePush(Amount(m.voidId), front, m);
    GoneIsPositive(Amount(m.voidId), front);
  }

  /** What a call's moves give rise to, told up to any event. */
  lemma {:induction false} MovesInParts(start: S.Db, markets: S.Markets, run: seq<S.Stored>, placed: Register, done: seq<Move>,
                                        moves: seq<Move>, pen: Pen)
    requires Locks.Opening(start, markets) && PartsTold(start, markets, run) && Following(start, markets, run, placed, done)
    requires AllTellable(moves, placed, done, S.SettleRun(start, markets, run).orders.Keys)
    requires AllSound(done) && AllSound(moves) && AllFits(moves, placed) && BuysPriced(placed)
    ensures PartsTold(start, markets, WriteMoves(run, moves, pen))
  {
    if moves != [] {
      var front, last := moves[..|moves| - 1], moves[|moves| - 1];
      assert moves == front + [last] && last in moves && forall m :: m in front ==> m in moves;
      AllTellablePrefix(moves, placed, done, S.SettleRun(start, markets, run).orders.Keys);
      hide AllTellable, S.SettleRun, TradeFits, PartsTold, AllSettle, Abreast, WriteMove;
      MovesInParts(start, markets, run, placed, done, front, pen);
      MoveInParts(start, markets, run, placed, done, front, last, pen);
    }
  }

  lemma MoveInParts(start: S.Db, markets: S.Markets, run: seq<S.Stored>, placed: Register, done: seq<Move>,
                    front: seq<Move>, m: Move, pen: Pen)
    requires Locks.Opening(start, markets) && Following(start, markets, run, placed, done)
    requires AllTellable(front + [m], placed, done, S.SettleRun(start, markets, run).orders.Keys)
    requires AllTellable(front, placed, done, S.SettleRun(start, markets, run).orders.Keys)
    requires AllSound(done) && AllSound(front) && AllFits(front, placed) && Sound(m) && TradeFits(m, placed) && BuysPriced(placed)
    requires PartsTold(start, markets, WriteMoves(run, front, pen))
    ensures PartsTold(start, markets, WriteMove(WriteMoves(run, front, pen), m, pen))
  {
    var mid := WriteMoves(run, front, pen);
    var longer := WriteMove(mid, m, pen);
    var news := News(m, pen.tradeIds(|mid|));
    hide AllTellable, S.SettleRun, TradeFits, PartsTold, AllSettle, Abreast, AllFits, WriteMoves, Told, AllSound, BuysPriced;
    if news != [] && AllSettle(start, markets, mid) {
      MovesTold(start, markets, run, placed, done, front, pen);
      TellableMore(front + [m], placed, done, S.SettleRun(start, markets, run).orders.Keys, S.SettleRun(start, markets, mid).orders.Keys);
      RunAllows(start, markets, mid);
      NewsFits(S.SettleRun(start, markets, mid), placed, done, front, m, longer[|mid|], pen.tradeIds(|mid|));
    }
    OneMore(start, markets, mid, longer);
  }

  lemma OrderInParts(start: S.Db, markets: S.Markets, s: Server, w: WireOrder, run: seq<S.Stored>, done: seq<Move>, pen: Pen)
    requires Locks.Opening(start, markets) && PartsTold(start, markets, run) && Joined(start, markets, s, run, done)
    requires Acceptable(s, w) && (w.side == Buy ==> w.price.Some?)
    ensures PartsTold(start, markets, PlaceRun(s, w, run, pen))
  {
    if Validate(w).None? && w.symbol !in s.halted {
      ValidatedIsReady(w);
      var o, placed := ToCore(w), PlacedIn(s.log);
      var later, ids := placed[o.id := o], S.SettleRun(start, markets, run).orders.Keys;
      var moves := PlaceInBook(s.state, o, placed).1;
      PlaceAllKnown(s.state, o, placed, done, ids);
      BuysStayPriced(placed, o);
      PlaceFits(s.state, o, placed);
      hide S.SettleRun, AllSettle, AllKnown, AllTellable, AllSound, AllFits, BuysPriced, PlaceInBook, ServerSane, PreReject,
           Abreast, Locks.ConsistentRun, WriteMoves, PartsTold;
      if PreReject(o.id, EventsOf(moves)).None? {
        var told := Write(run, NewsOfOrder(o), pen);
        OneMore(start, markets, run, told);
        if AllSettle(start, markets, told) {
          AcceptedTold(start, markets, run, placed, o, done, pen);
          MovesInParts(start, markets, told, later, done, moves, pen);
        } else {
          MovesGoOn(told, moves, pen);
          StopsThere(start, markets, told, WriteMoves(told, moves, pen));
        }
      }
    }
  }

  lemma CancelInParts(start: S.Db, markets: S.Markets, s: Server, id: Id, run: seq<S.Stored>, done: seq<Move>, pen: Pen)
    requires Locks.Opening(start, markets) && PartsTold(start, markets, run) && Joined(start, markets, s, run, done)
    ensures PartsTold(start, markets, CancelRun(s, id, run, pen))
  {
    var moves, placed := CancelMoves(s.state, id), PlacedIn(s.log);
    var ids := S.SettleRun(start, markets, run).orders.Keys;
    if id in s.state.open && s.state.open[id].symbol in s.state.books {
      CancelAllKnown(s.state, id, placed, done, ids);
      CancelFits(s.state.books[s.state.open[id].symbol], id, placed);
      hide S.SettleRun, AllSettle, AllTellable, AllSound, AllFits, BuysPriced, CancelOrder, Bridge.Known, ServerSane,
           Following, WriteMoves, PartsTold;
      MovesInParts(start, markets, run, placed, done, moves, pen);
    }
  }

  lemma {:induction false} CancelEachInParts(start: S.Db, markets: S.Markets, s: Server, ids: seq<Id>, run: seq<S.Stored>,
                                             done: seq<Move>, pen: Pen)
    requires Locks.Opening(start, markets) && PartsTold(start, markets, run) && Joined(start, markets, s, run, done)
    ensures PartsTold(start, markets, CancelEachRun(s, ids, run, pen))
    decreases ids
  {
    if ids != [] {
      var next, mid := CancelKnown(s, ids[0]).0, CancelRun(s, ids[0], run, pen);
      hide PartsTold, AllSettle, CancelKnown, CancelRun, CancelMoves, Following, AllKnown, BuysPriced, AllSound;
      CancelInParts(start, markets, s, ids[0], run, done, pen);
      if AllSettle(start, markets, mid) {
        CancelToldBy(start, markets, s, ids[0], run, done, pen);
        CancelEachInParts(start, markets, next, ids[1..], mid, done + CancelMoves(s.state, ids[0]), pen);
      } else {
        CancelsGoOn(next, ids[1..], mid, pen);
        StopsThere(start, markets, mid, CancelEachRun(next, ids[1..], mid, pen));
      }
    }
  }

  lemma RequestInParts(start: S.Db, markets: S.Markets, s: Server, r: Request, run: seq<S.Stored>, done: seq<Move>, pen: Pen)
    requires Locks.Opening(start, markets) && PartsTold(start, markets, run) && Joined(start, markets, s, run, done)
    requires r.PlaceRequest? ==> Acceptable(s, r.order) && (r.order.side == Buy ==> r.order.price.Some?)
    ensures PartsTold(start, markets, RequestRun(s, r, run, pen))
  {
    hide PartsTold, PlaceRun, CancelEachRun, CancelRun, Following, AllKnown, BuysPriced, AllSound;
    match r
    case PlaceRequest(w) => OrderInParts(start, markets, s, w, run, done, pen);
    case CancelRequest(id, symbol) =>
      if id in s.state.open && s.state.open[id].symbol == symbol { CancelInParts(start, markets, s, id, run, done, pen); }
    case CancelAllRequest(user, only) =>
      CancelEachInParts(start, markets, s, Ascending(Selection(s.state.open, user, only)), run, done, pen);
    case HaltMarket(_) =>
    case ResumeMarket(_) =>
  }

  lemma NoParts(start: S.Db, markets: S.Markets)
    ensures PartsTold(start, markets, [])
  {
  }

  lemma {:induction false} TapeInParts(start: S.Db, markets: S.Markets, reqs: seq<Request>, pen: Pen)
    requires Locks.Opening(start, markets) && Admissible(reqs) && PricedRequests(reqs)
    ensures PartsTold(start, markets, Tape(reqs, pen))
  {
    if reqs == [] {
      NoParts(start, markets);
    } else {
      var before, last := reqs[..|reqs| - 1], reqs[|reqs| - 1];
      var run := Tape(before, pen);
      assert reqs[|reqs| - 1] == last;
      hide AllSettle, RequestRun, Handle, Joined, Locks.Opening, PartsTold;
      TapeInParts(start, markets, before, pen);
      if AllSettle(start, markets, run) {
        var done := EngineIsFollowed(start, markets, before, pen);
        RequestInParts(start, markets, Serve(before), last, run, done, pen);
      } else {
        RequestGoesOn(Serve(before), last, run, pen);
        StopsThere(start, markets, run, RequestRun(Serve(before), last, run, pen));
      }
    }
  }

  // ---- What settlement has, however far it got -----------------------------------

  /** Over any run of requests to the server in which no buy is without a price, and however much
    of its events settlement has processed: each fill was between open orders, within what was
    left of both and within the buyer's limit. So what is locked in an account is its opening
    amount, what its open orders still owe, and the price improvement of its buys. */
  lemma EngineRunsAreConsistent(start: S.Db, markets: S.Markets, reqs: seq<Request>, pen: Pen, n: nat, k: S.Account)
    requires Locks.Opening(start, markets) && Admissible(reqs) && PricedRequests(reqs)
    requires n <= |Tape(reqs, pen)| && AllSettle(start, markets, Tape(reqs, pen)[..n]) && k in start.balances
    ensures Locks.ConsistentRun(start, markets, Tape(reqs, pen)[..n])
    ensures var t := S.SettleRun(start, markets, Tape(reqs, pen)[..n]);
      var owed := Sums.Over(t.orders.Keys, Locks.OwedIn(t.orders, markets, k));
      var improved := Sums.Over(t.orders.Keys, Locks.ImprovedIn(t.orders, markets, k));
      && k in t.balances && t.balances[k].locked == start.balances[k].locked + owed + improved
      && 0.0 <= owed && 0.0 <= improved
  {
    TapeInParts(start, markets, reqs, pen);
    PartIsConsistent(start, markets, Tape(reqs, pen), n);
    Locks.LocksCoverObligations(start, markets, Tape(reqs, pen)[..n], k);
  }

  /** Over the same runs, each asset's total over all users has fallen by exactly its fees. */
  lemma EngineRunsKeepAssets(start: S.Db, markets: S.Markets, reqs: seq<Request>, pen: Pen, n: nat, a: S.Asset)
    requires Locks.Opening(start, markets) && Admissible(reqs) && PricedRequests(reqs)
    requires n <= |Tape(reqs, pen)| && AllSettle(start, markets, Tape(reqs, pen)[..n])
    ensures var t := S.SettleRun(start, markets, Tape(reqs, pen)[..n]);
      && start.ledger <= t.ledger
      && Accounts.AssetTotal(t, a) ==
         Accounts.AssetTotal(start, a) - Accounts.LedgerSum(Accounts.FeesIn(a), Accounts.Added(start, t))
  {
    hide AllSettle, Tape, S.SettleRun, Locks.ConsistentRun, Accounts.OneMarketRun;
    TapeInParts(start, markets, reqs, pen);
    PartIsConsistent(start, markets, Tape(reqs, pen), n);
    var run := Tape(reqs, pen)[..n];
    Locks.ConsistentIsOneMarket(start, markets, run);
    Accounts.AssetsShrinkByFees(start, markets, run, a);
  }

  // ---- What the worker reaches ---------------------------------------------------

  /** Events are stored under increasing numbers. */
  predicate Numbered(run: seq<S.Stored>) {
    forall i, j :: 0 <= i < j < |run| ==> run[i].engineSeq < run[j].engineSeq
  }

  ghost predicate Rises(pen: Pen) {
    forall i, j :: 0 <= i < j ==> pen.numbers(i) < pen.numbers(j)
  }

  ghost predicate ByPen(run: seq<S.Stored>, pen: Pen) {
    forall i :: 0 <= i < |run| ==> run[i].engineSeq == pen.numbers(i)
  }

  lemma {:induction false} MovesByPen(run: seq<S.Stored>, moves: seq<Move>, pen: Pen)
    requires ByPen(run, pen)
    ensures ByPen(WriteMoves(run, moves, pen), pen)
  {
    if moves != [] { MovesByPen(run, moves[..|moves| - 1], pen); }
  }

  lemma {:induction false} CancelsByPen(s: Server, ids: seq<Id>, run: seq<S.Stored>, pen: Pen)
    requires ServerSane(s) && ByPen(run, pen)
    ensures ByPen(CancelEachRun(s, ids, run, pen), pen)
    decreases ids
  {
    if ids != [] {
      MovesByPen(run, CancelMoves(s.state, ids[0]), pen);
      CancelsByPen(CancelKnown(s, ids[0]).0, ids[1..], CancelRun(s, ids[0], run, pen), pen);
    }
  }

  lemma PlaceByPen(s: Server, w: WireOrder, run: seq<S.Stored>, pen: Pen)
    requires ServerSane(s) && Acceptable(s, w) && ByPen(run, pen)
    ensures ByPen(PlaceRun(s, w, run, pen), pen)
  {
    if Validate(w).None? && w.symbol !in s.halted {
      ValidatedIsReady(w);
      MovesByPen(Write(run, NewsOfOrder(ToCore(w)), pen), PlaceInBook(s.state, ToCore(w), PlacedIn(s.log)).1, pen);
    }
  }

  lemma {:induction false} TapeByPen(reqs: seq<Request>, pen: Pen)
    requires Admissible(reqs)
    ensures ByPen(Tape(reqs, pen), pen)
  {
    if reqs != [] {
      var before, last := reqs[..|reqs| - 1], reqs[|reqs| - 1];
      var s, run := Serve(before), Tape(before, pen);
      TapeByPen(before, pen);
      hide PlaceRun, CancelEachRun, CancelMoves, ServerSane, ByPen;
      match last
      case PlaceRequest(w) => PlaceByPen(s, w, run, pen);
      case CancelRequest(id, symbol) => MovesByPen(run, CancelMoves(s.state, id), pen);
      case CancelAllRequest(user, only) => CancelsByPen(s, Ascending(Selection(s.state.open, user, only)), run, pen);
      case HaltMarket(_) =>
      case ResumeMarket(_) =>
    }
  }

  /** The events of a run that wait to be processed, by their numbers. */
  function Pending(run: seq<S.Stored>): map<int, S.EngineEvent> {
    if run == [] then map[] else Pending(run[1..])[run[0].engineSeq := run[0].event]
  }

  lemma {:induction false} PendingKeys(run: seq<S.Stored>)
    requires Numbered(run)
    ensures forall k :: k in Pending(run) ==> exists i :: 0 <= i < |run| && run[i].engineSeq == k
  {
    if run != [] {
      var rest := run[1..];
      assert forall i :: 0 <= i < |rest| ==> rest[i] == run[i + 1];
      PendingKeys(rest);
      forall k | k in Pending(run) ensures exists i :: 0 <= i < |run| && run[i].engineSeq == k {
        if k == run[0].engineSeq {
        } else {
          var i :| 0 <= i < |rest| && rest[i].engineSeq == k;
          assert run[i + 1].engineSeq == k;
        }
      }
    }
  }

  /** The first event comes first, and the others are left. */
  lemma FirstPending(run: seq<S.Stored>)
    requires Numbered(run) && run != []
    ensures var p := Pending(run);
      && p.Keys != {} && Levels.BestKey(StopShelf, p.Keys) == run[0].engineSeq && p[run[0].engineSeq] == run[0].event
      && p - {run[0].engineSeq} == Pending(run[1..]) && Numbered(run[1..])
  {
    var rest := run[1..];
    assert forall i :: 0 <= i < |rest| ==> rest[i] == run[i + 1];
    PendingKeys(run);
    PendingKeys(rest);
    assert run[0].engineSeq in Pending(run);
    assert run[0].engineSeq !in Pending(rest);
    assert Pending(run) - {run[0].engineSeq} == Pending(rest);
  }

  lemma DrainNext(t: S.Db, markets: S.Markets, run: seq<S.Stored>)
    requires Numbered(run) && run != []
    ensures S.Drain(t, markets, Pending(run)) ==
      match S.Settle(t, markets, run[0].engineSeq, run[0].event)
      case None => (t, Pending(run))
      case Some(next) => S.Drain(next, markets, Pending(run[1..]))
  {
    hide S.Settle, Levels.BestKey, Pending, Numbered;
    FirstPending(run);
  }

  lemma RestOfRun(run: seq<S.Stored>, m: nat)
    requires Numbered(run) && m < |run|
    ensures Numbered(run[m..]) && run[m..][0] == run[m] && run[m..][1..] == run[m + 1..]
    ensures run[..m + 1][..m] == run[..m] && run[..m + 1][m] == run[m]
  {
    assert forall i :: 0 <= i < |run| - m ==> run[m..][i] == run[m + i];
  }

  /** From wherever it stands on a run, with the events up to some later one at hand, the worker
    gets to a place on the run, everything before which is processed; it has all events at hand
    behind it, or the next one fails. */
  lemma {:induction false} DrainFollowsRun(start: S.Db, markets: S.Markets, run: seq<S.Stored>, m: nat) returns (n: nat)
    requires Numbered(run) && m <= |run| && AllSettle(start, markets, run[..m])
    ensures m <= n <= |run| && AllSettle(start, markets, run[..n])
    ensures S.Drain(S.SettleRun(start, markets, run[..m]), markets, Pending(run[m..])) ==
      (S.SettleRun(start, markets, run[..n]), Pending(run[n..]))
    ensures n == |run| || S.Settle(S.SettleRun(start, markets, run[..n]), markets, run[n].engineSeq, run[n].event).None?
    decreases |run| - m
  {
    n := m;
    if m < |run| {
      hide S.Settle, S.Drain, Pending, Numbered;
      var t := S.SettleRun(start, markets, run[..m]);
      RestOfRun(run, m);
      DrainNext(t, markets, run[m..]);
      if S.Settle(t, markets, run[m].engineSeq, run[m].event).Some? { n := DrainFollowsRun(start, markets, run, m + 1); }
    } else {
      NothingPending(S.SettleRun(start, markets, run[..m]), markets, run[m..]);
    }
  }

  lemma NothingPending(t: S.Db, markets: S.Markets, run: seq<S.Stored>)
    requires run == []
    ensures S.Drain(t, markets, Pending(run)) == (t, Pending(run))
  {
  }

  /** So whatever sittings the worker works in, each with as many of the engine's events at hand
    as have been stored by then, it stands on the engine's run after each of them, with all the
    engine's promises kept. */
  lemma WorkerStaysConsistent(start: S.Db, markets: S.Markets, reqs: seq<Request>, pen: Pen, m: nat, stored: nat)
    returns (n: nat)
    requires Locks.Opening(start, markets) && Admissible(reqs) && PricedRequests(reqs) && Rises(pen)
    requires m <= stored <= |Tape(reqs, pen)| && AllSettle(start, markets, Tape(reqs, pen)[..m])
    ensures m <= n <= stored && AllSettle(start, markets, Tape(reqs, pen)[..n])
    ensures var tape := Tape(reqs, pen);
      && Locks.ConsistentRun(start, markets, tape[..n])
      && S.Drain(S.SettleRun(start, markets, tape[..m]), markets, Pending(tape[m..stored])).0 ==
         S.SettleRun(start, markets, tape[..n])
  {
    hide AllSettle, Tape, S.Drain, Locks.ConsistentRun, Locks.Opening, S.SettleRun;
    var run := Tape(reqs, pen)[..stored];
    TapeByPen(reqs, pen);
    TapeInParts(start, markets, reqs, pen);
    assert run[..m] == Tape(reqs, pen)[..m];
    n := DrainFollowsRun(start, markets, run, m);
    assert run[..n] == Tape(reqs, pen)[..n];
    PartIsConsistent(start, markets, Tape(reqs, pen), n);
    assert run[m..] == Tape(reqs, pen)[m..stored];
  }
}
