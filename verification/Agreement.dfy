/** What settlement holds of open orders and what the books hold of them. Once settlement has
  processed everything the engine told it, an open order's remainder there is what its book holds
  and what went silently: of that settlement never hears, and what is locked for it stays locked
  (engine/crates/server/src/state.rs, services/settlement/src/settlement.rs). */
module Agreement {
  import opened Orders
  import opened Ladder
  import opened Matcher
  import opened BookInvariants
  import opened Cascade
  import opened Conservation
  import opened Histories
  import opened Origins
  import opened Wire
  import opened Engine
  import opened ExactTable
  import opened Voids
  import opened Bridge
  import opened Lagging
  import opened Divergence
  import opened CalmRuns
  import Audible
  import Accounts
  import Locks
  import S = Settlement

  // ---- What a run of stored events says of an order ------------------------------

  function FilledBy(run: seq<S.Stored>, x: Id): real {
    if run == [] then 0.0
    else
      var e := run[|run| - 1].event;
      FilledBy(run[..|run| - 1], x) +
      if e.Executed? then (if e.fill.makerId == x then e.fill.quantity else 0.0) + (if e.fill.takerId == x then e.fill.quantity else 0.0)
      else 0.0
  }

  ghost predicate CancelTold(run: seq<S.Stored>, x: Id) {
    exists i :: 0 <= i < |run| && run[i].event == S.CanceledOrder(x)
  }

  ghost predicate AcceptTold(run: seq<S.Stored>, x: Id) {
    exists i :: 0 <= i < |run| && run[i].event.Accepted? && run[i].event.order.id == x
  }

  lemma ToldPush(run: seq<S.Stored>, e: S.Stored, x: Id)
    ensures (run + [e])[..|run|] == run
    ensures CancelTold(run + [e], x) <==> CancelTold(run, x) || e.event == S.CanceledOrder(x)
    ensures AcceptTold(run + [e], x) <==> AcceptTold(run, x) || (e.event.Accepted? && e.event.order.id == x)
  {
    assert forall i :: 0 <= i < |run| ==> (run + [e])[i] == run[i];
    assert (run + [e])[|run|] == e;
  }

  /** A settled run's tables say of an order what the run says. */
  ghost predicate RowSays(db: S.Db, run: seq<S.Stored>, x: Id) {
    if x in db.orders then
      && db.orders[x].filled == FilledBy(run, x) && AcceptTold(run, x)
      && (S.Open(db.orders[x].status) ==> !CancelTold(run, x))
    else
      FilledBy(run, x) == 0.0 && !CancelTold(run, x)
  }

  ghost predicate TradesNumbered(db: S.Db, run: seq<S.Stored>) {
    forall n :: n in db.trades ==> exists i :: 0 <= i < |run| && run[i].engineSeq == n
  }

  lemma EventSays(db: S.Db, markets: S.Markets, run: seq<S.Stored>, e: S.Stored, x: Id)
    requires RowSays(db, run, x) && S.Settle(db, markets, e.engineSeq, e.event).Some?
    requires Locks.Consistent(db, e.engineSeq, e.event) && e.engineSeq !in db.trades
    ensures RowSays(S.Settle(db, markets, e.engineSeq, e.event).value, run + [e], x)
  {
    ToldPush(run, e, x);
    match e.event
    case Accepted(o) => AcceptSays(db, markets, run, e, x);
    case Executed(f) => FillSays(db, markets, run, e, x);
    case CanceledOrder(id) => CancelSays(db, markets, run, e, x);
    case Other =>
  }

  lemma AcceptSays(db: S.Db, markets: S.Markets, run: seq<S.Stored>, e: S.Stored, x: Id)
    requires RowSays(db, run, x) && e.event.Accepted? && S.Settle(db, markets, e.engineSeq, e.event).Some?
    ensures RowSays(S.Settle(db, markets, e.engineSeq, e.event).value, run + [e], x)
  {
    hide S.LockObligation, S.RowAllowed;
    ToldPush(run, e, x);
    hide CancelTold, AcceptTold;
    assert FilledBy(run + [e], x) == FilledBy(run, x);
  }

  lemma FillSays(db: S.Db, markets: S.Markets, run: seq<S.Stored>, e: S.Stored, x: Id)
    requires RowSays(db, run, x) && e.event.Executed? && S.Settle(db, markets, e.engineSeq, e.event).Some?
    requires Locks.FillFits(db, e.event.fill) && e.engineSeq !in db.trades
    ensures RowSays(S.Settle(db, markets, e.engineSeq, e.event).value, run + [e], x)
  {
    var f := e.event.fill;
    var taker, maker := db.orders[f.takerId], db.orders[f.makerId];
    var t := db.(trades := db.trades[e.engineSeq := S.Trade(taker.market, f)]);
    Accounts.PostAllKeepsRows(t, S.FillMutations(e.engineSeq, f, taker, maker, markets));
    hide S.PostAll, S.FillMutations, S.Mean, S.Remaining;
    ToldPush(run, e, x);
    hide CancelTold, AcceptTold;
  }

  lemma CancelSays(db: S.Db, markets: S.Markets, run: seq<S.Stored>, e: S.Stored, x: Id)
    requires RowSays(db, run, x) && e.event.CanceledOrder? && S.Settle(db, markets, e.engineSeq, e.event).Some?
    ensures RowSays(S.Settle(db, markets, e.engineSeq, e.event).value, run + [e], x)
  {
    hide S.Obligation;
    ToldPush(run, e, x);
    hide CancelTold, AcceptTold;
    assert FilledBy(run + [e], x) == FilledBy(run, x);
  }

  lemma TradesGrow(db: S.Db, markets: S.Markets, run: seq<S.Stored>, e: S.Stored)
    requires TradesNumbered(db, run) && S.Settle(db, markets, e.engineSeq, e.event).Some?
    ensures TradesNumbered(S.Settle(db, markets, e.engineSeq, e.event).value, run + [e])
  {
    Accounts.SettleKeepsRows(db, markets, e.engineSeq, e.event);
    TradesOnly(db, markets, e.engineSeq, e.event);
    var next := S.Settle(db, markets, e.engineSeq, e.event).value;
    assert (run + [e])[|run|].engineSeq == e.engineSeq;
    hide S.Settle;
    forall n | n in next.trades ensures exists i :: 0 <= i < |run + [e]| && (run + [e])[i].engineSeq == n {
      if n in db.trades {
        var i :| 0 <= i < |run| && run[i].engineSeq == n;
        assert (run + [e])[i].engineSeq == n;
      }
    }
  }

  lemma TradesOnly(db: S.Db, markets: S.Markets, n: int, e: S.EngineEvent)
    requires S.Settle(db, markets, n, e).Some?
    ensures S.Settle(db, markets, n, e).value.trades.Keys <= db.trades.Keys + {n}
  {
    hide S.PostAll, S.FillMutations, S.RowFilled, S.Obligation, S.LockObligation;
    if e.Executed? && n !in db.trades {
      var f := e.fill;
      var taker, maker := db.orders[f.takerId], db.orders[f.makerId];
      Accounts.PostAllKeepsRows(db.(trades := db.trades[n := S.Trade(taker.market, f)]), S.FillMutations(n, f, taker, maker, markets));
    }
  }

  lemma {:induction false} RunSays(start: S.Db, markets: S.Markets, run: seq<S.Stored>, x: Id)
    requires Locks.Opening(start, markets) && Locks.ConsistentRun(start, markets, run)
    requires AllSettle(start, markets, run) && Numbered(run)
    ensures RowSays(S.SettleRun(start, markets, run), run, x) && TradesNumbered(S.SettleRun(start, markets, run), run)
  {
    if run != [] {
      var front, last := run[..|run| - 1], run[|run| - 1];
      assert run == front + [last];
      assert forall i :: 0 <= i < |front| ==> front[i] == run[i];
      hide S.Settle, RowSays, Locks.Consistent;
      RunSays(start, markets, front, x);
      var db := S.SettleRun(start, markets, front);
      NewNumber(db, front, last);
      EventSays(db, markets, front, last, x);
      TradesGrow(db, markets, front, last);
    }
  }

  lemma NewNumber(db: S.Db, run: seq<S.Stored>, e: S.Stored)
    requires TradesNumbered(db, run) && forall i :: 0 <= i < |run| ==> run[i].engineSeq < e.engineSeq
    ensures e.engineSeq !in db.trades
  {
  }

  // ---- What the engine tells of an order -----------------------------------------

  lemma {:induction false} MovesSay(run: seq<S.Stored>, moves: seq<Move>, pen: Pen, x: Id)
    ensures var told := WriteMoves(run, moves, pen);
      && FilledBy(told, x) == FilledBy(run, x) + GoneBy(Traded, Amount(x), moves) as real
      && (CancelTold(told, x) <==> CancelTold(run, x) || Cancels(x, moves))
      && (AcceptTold(told, x) <==> AcceptTold(run, x))
  {
    if moves != [] {
      var front, last := moves[..|moves| - 1], moves[|moves| - 1];
      assert moves == front + [last];
      MovesSay(run, front, pen, x);
      CancelsConcat(x, front, [last]);
      hide CancelTold, AcceptTold, Cancels;
      MoveSays(WriteMoves(run, front, pen), last, pen, x);
    }
  }

  lemma MoveSays(run: seq<S.Stored>, m: Move, pen: Pen, x: Id)
    ensures var told := WriteMove(run, m, pen);
      && FilledBy(told, x) == FilledBy(run, x) + OutBy(Traded, Amount(x), m) as real
      && (CancelTold(told, x) <==> CancelTold(run, x) || Cancels(x, [m]))
      && (AcceptTold(told, x) <==> AcceptTold(run, x))
  {
    var news := News(m, pen.tradeIds(|run|));
    if news != [] { ToldPush(run, S.Stored(pen.numbers(|run|), news[0]), x); }
    assert Cancels(x, [m]) <==> m.Void? && m.voidId == x by { assert m in [m]; }
    hide CancelTold, AcceptTold, Cancels;
  }

  /** A reject that came without any other event: its own cancellation is all there was. */
  lemma CleanRejectMoves(moves: seq<Move>, id: Id, x: Id)
    requires PreReject(id, EventsOf(moves)).Some? && |EventsOf(moves)| == 1
    ensures GoneBy(Traded, Amount(x), moves) == 0 && (Cancels(x, moves) ==> x == id)
  {
    var events := EventsOf(moves);
    PreRejectIsThere(id, events);
    EventsTellFills(x, moves);
    assert events[..0] == [];
    assert FilledQty(x, []) == 0;
    if Cancels(x, moves) {
      var m :| m in moves && m.Void? && m.voidId == x;
      VoidIsTold(moves, m);
    }
  }

  lemma {:induction false} VoidIsTold(moves: seq<Move>, m: Move)
    requires m in moves && m.Void?
    ensures Cancelled(m.voidId, m.reason) in EventsOf(moves)
  {
    var front, last := moves[..|moves| - 1], moves[|moves| - 1];
    assert moves == front + [last];
    if m in front { VoidIsTold(front, m); }
  }

  /** So far what the engine told says of `x` what was done: all fills, and its cancellation if it was
    told of at all. */
  ghost predicate Says(s: Server, run: seq<S.Stored>, done: seq<Move>, x: Id) {
    && FilledBy(run, x) == GoneBy(Traded, Amount(x), done) as real
    && (AcceptTold(run, x) ==> x in PlacedIn(s.log) && (Cancels(x, done) ==> CancelTold(run, x)))
  }

  lemma SaysOn(s: Server, q: Server, run: seq<S.Stored>, done: seq<Move>, moves: seq<Move>, pen: Pen, x: Id)
    requires Says(s, run, done, x) && PlacedIn(s.log).Keys <= PlacedIn(q.log).Keys
    ensures Says(q, WriteMoves(run, moves, pen), done + moves, x)
  {
    MovesSay(run, moves, pen, x);
    GoneByConcat(Traded, Amount(x), done, moves);
    CancelsConcat(x, done, moves);
    hide CancelTold, AcceptTold, Cancels, GoneBy, FilledBy, WriteMoves;
  }

  /** An order that was never placed was not cancelled. */
  ghost predicate CancelsPlaced(s: Server, done: seq<Move>) {
    forall x :: Cancels(x, done) ==> x in PlacedIn(s.log)
  }

  lemma PlaceSays(s: Server, w: WireOrder, run: seq<S.Stored>, done: seq<Move>, pen: Pen, x: Id)
    requires ServerSane(s) && Acceptable(s, w) && CleanReject(s, w) && Says(s, run, done, x) && CancelsPlaced(s, done)
    ensures Says(ServePlace(s, w).0, PlaceRun(s, w, run, pen), done + PlaceMoves(s, w), x)
  {
    if Validate(w).Some? || w.symbol in s.halted {
      assert done + PlaceMoves(s, w) == done;
    } else {
      ValidatedIsReady(w);
      var o, q := ToCore(w), ServePlace(s, w).0;
      var moves := PlaceMoves(s, w);
      LogGrows(s.log, PlaceLogged(o));
      assert PlacedIn(q.log) == PlacedIn(s.log)[o.id := o];
      hide PlaceInBook, ServePlace, PreReject, ServerSane;
      if PreReject(o.id, EventsOf(moves)).Some? {
        CleanRejectMoves(moves, o.id, x);
        GoneByConcat(Traded, Amount(x), done, moves);
        CancelsConcat(x, done, moves);
      } else {
        var told := Write(run, NewsOfOrder(o), pen);
        AcceptanceSays(s, q, run, done, o, pen, x);
        SaysOn(q, q, told, done, moves, pen, x);
      }
    }
  }

  lemma AcceptanceSays(s: Server, q: Server, run: seq<S.Stored>, done: seq<Move>, o: Order, pen: Pen, x: Id)
    requires Says(s, run, done, x) && CancelsPlaced(s, done) && o.id !in PlacedIn(s.log)
    requires PlacedIn(q.log) == PlacedIn(s.log)[o.id := o]
    ensures Says(q, Write(run, NewsOfOrder(o), pen), done, x)
  {
    ToldPush(run, S.Stored(pen.numbers(|run|), NewsOfOrder(o)), x);
    hide CancelTold, AcceptTold, Cancels, GoneBy;
  }

  lemma {:induction false} CancelEachSays(s: Server, ids: seq<Id>, run: seq<S.Stored>, done: seq<Move>, pen: Pen, x: Id)
    requires ServerSane(s) && Says(s, run, done, x)
    ensures Says(CancelEach(s, ids).0, CancelEachRun(s, ids, run, pen), done + CancelEachMoves(s, ids), x)
    decreases ids
  {
    if ids == [] {
      assert done + [] == done;
    } else {
      hide Says, CancelKnown, CancelMoves, ServerSane, WriteMoves;
      var next, first := CancelKnown(s, ids[0]).0, CancelMoves(s.state, ids[0]);
      var rest := CancelEachMoves(next, ids[1..]);
      SaysOn(s, next, run, done, first, pen, x);
      CancelEachSays(next, ids[1..], CancelRun(s, ids[0], run, pen), done + first, pen, x);
      MovesRegroup(done, first, rest);
    }
  }

  lemma MovesRegroup(a: seq<Move>, b: seq<Move>, c: seq<Move>)
    ensures (a + b) + c == a + (b + c)
  {
  }

  lemma RequestSays(s: Server, r: Request, run: seq<S.Stored>, done: seq<Move>, pen: Pen, x: Id)
    requires ServerSane(s) && Says(s, run, done, x) && CancelsPlaced(s, done)
    requires r.PlaceRequest? ==> Acceptable(s, r.order) && CleanReject(s, r.order)
    ensures Says(Handle(s, r).0, RequestRun(s, r, run, pen), done + RequestMoves(s, r), x)
  {
    assert done + [] == done;
    hide Says, PlaceRun, PlaceMoves, CancelEachRun, CancelEachMoves, ServePlace, CancelKnown, CancelEach, CancelMoves, ServerSane,
         CleanReject;
    SaysBeside(s, run, done, x);
    match r
    case PlaceRequest(w) => PlaceSays(s, w, run, done, pen, x);
    case CancelRequest(id, symbol) =>
      if id in s.state.open && s.state.open[id].symbol == symbol {
        SaysOn(s, CancelKnown(s, id).0, run, done, CancelMoves(s.state, id), pen, x);
      }
    case CancelAllRequest(user, only) => CancelEachSays(s, Ascending(Selection(s.state.open, user, only)), run, done, pen, x);
    case HaltMarket(_) =>
    case ResumeMarket(_) =>
  }

  lemma SaysBeside(s: Server, run: seq<S.Stored>, done: seq<Move>, x: Id)
    requires Says(s, run, done, x)
    ensures forall halted :: Says(s.(halted := halted), run, done, x)
  {
  }

  // ---- Settlement's remainder and the book's -------------------------------------

  lemma KnownCancels(s: Server, done: seq<Move>, ids: set<Id>)
    requires AllKnown(s.state, PlacedIn(s.log), done, ids)
    ensures CancelsPlaced(s, done)
  {
    forall x | Cancels(x, done) ensures x in PlacedIn(s.log) {
      assert Bridge.Known(s.state, PlacedIn(s.log), done, ids, x);
    }
  }

  lemma {:induction false} TapeSays(start: S.Db, markets: S.Markets, reqs: seq<Request>, pen: Pen, x: Id)
    requires Locks.Opening(start, markets) && Admissible(reqs) && PricedRequests(reqs) && CleanRun(reqs)
    requires AllSettle(start, markets, Tape(reqs, pen))
    ensures Says(Serve(reqs), Tape(reqs, pen), Doings(reqs), x)
  {
    if reqs != [] {
      var before, last := reqs[..|reqs| - 1], reqs[|reqs| - 1];
      var s, run, done := Serve(before), Tape(before, pen), Doings(before);
      assert reqs[|reqs| - 1] == last;
      hide AllSettle, RequestRun, RequestMoves, Handle, Locks.Opening, Says, CleanReject, Following;
      RequestSettles(start, markets, s, last, run, pen);
      TapeSays(start, markets, before, pen, x);
      var d := EngineIsFollowed(start, markets, before, pen);
      KnownCancels(s, done, S.SettleRun(start, markets, run).orders.Keys);
      RequestSays(s, last, run, done, pen, x);
    }
  }

  lemma {:induction false} NoneVoided(x: Id, moves: seq<Move>)
    requires !Cancels(x, moves)
    ensures GoneBy(Voided, Amount(x), moves) == 0
  {
    if moves != [] {
      assert moves[|moves| - 1] in moves && forall m :: m in moves[..|moves| - 1] ==> m in moves;
      NoneVoided(x, moves[..|moves| - 1]);
    }
  }

  /** Over every run of requests without an unpriced buy or a late reject: once settlement has
    processed all that it was told, what is left of an open order there is what is left of it in
    its book and what went silently, taken by a Decrement or discarded at the depth limit. */
  lemma OpenRowsShowBooksAndSilent(start: S.Db, markets: S.Markets, reqs: seq<Request>, pen: Pen, x: Id)
    requires Locks.Opening(start, markets) && Admissible(reqs) && PricedRequests(reqs) && CleanRun(reqs) && Rises(pen)
    requires AllSettle(start, markets, Tape(reqs, pen))
    ensures var rows, s := S.SettleRun(start, markets, Tape(reqs, pen)).orders, Serve(reqs);
      x in rows && S.Open(rows[x].status) ==>
        && x in PlacedIn(s.log)
        && S.Remaining(rows[x]) == (Total(Amount(x), BookOf(s.state, PlacedIn(s.log)[x].symbol)) + SilentQty(x, Doings(reqs))) as real
  {
    var tape, s, done := Tape(reqs, pen), Serve(reqs), Doings(reqs);
    var db := S.SettleRun(start, markets, tape);
    if x in db.orders && S.Open(db.orders[x].status) {
      var d := EngineIsFollowed(start, markets, reqs, pen);
      TapeSays(start, markets, reqs, pen, x);
      TapeByPen(reqs, pen);
      hide AllSettle, Tape, Serve, Doings, S.SettleRun, CleanRun, PricedRequests;
      FollowedIsConsistent(start, markets, s, tape, done);
      RunSays(start, markets, tape, x);
      OpenRow(db, s, tape, done, x);
    }
  }

  lemma FollowedIsConsistent(start: S.Db, markets: S.Markets, s: Server, run: seq<S.Stored>, done: seq<Move>)
    requires Joined(start, markets, s, run, done)
    ensures Locks.ConsistentRun(start, markets, run)
    ensures var db, placed := S.SettleRun(start, markets, run), PlacedIn(s.log);
      Abreast(db, placed, done) && AllKnown(s.state, placed, done, db.orders.Keys) && AllSound(done)
  {
  }

  lemma OpenRow(db: S.Db, s: Server, run: seq<S.Stored>, done: seq<Move>, x: Id)
    requires RowSays(db, run, x) && Says(s, run, done, x) && x in db.orders && S.Open(db.orders[x].status)
    requires Abreast(db, PlacedIn(s.log), done) && AllKnown(s.state, PlacedIn(s.log), done, db.orders.Keys)
    ensures x in PlacedIn(s.log)
    ensures S.Remaining(db.orders[x]) ==
      (Total(Amount(x), BookOf(s.state, PlacedIn(s.log)[x].symbol)) + SilentQty(x, done)) as real
  {
    var placed := PlacedIn(s.log);
    assert RowAbreast(db, placed, done, x) && Bridge.Known(s.state, placed, done, db.orders.Keys, x);
    NoneVoided(x, done);
    GoneIsAll(Amount(x), done);
    hide GoneBy, Gone, Total, Cancels, CancelTold, AcceptTold, FilledBy;
  }

  /** And every order that is in a book is open in settlement. */
  lemma BookOrdersAreOpen(start: S.Db, markets: S.Markets, reqs: seq<Request>, pen: Pen, x: Id)
    requires Locks.Opening(start, markets) && Admissible(reqs) && PricedRequests(reqs)
    requires AllSettle(start, markets, Tape(reqs, pen))
    requires x in PlacedIn(Serve(reqs).log)
    ensures var rows, s := S.SettleRun(start, markets, Tape(reqs, pen)).orders, Serve(reqs);
      0 < Total(Amount(x), BookOf(s.state, PlacedIn(s.log)[x].symbol)) ==> x in rows && S.Open(rows[x].status)
  {
    hide AllSettle, Tape, Serve, Doings, S.SettleRun, PricedRequests, Total, Following, AllKnown, Abreast, ServerSane, Joined;
    var tape, s := Tape(reqs, pen), Serve(reqs);
    var done := EngineIsFollowed(start, markets, reqs, pen);
    FollowedIsConsistent(start, markets, s, tape, done);
    if 0 < Total(Amount(x), BookOf(s.state, PlacedIn(s.log)[x].symbol)) { BookedRow(S.SettleRun(start, markets, tape), s, done, x); }
  }

  lemma BookedRow(db: S.Db, s: Server, done: seq<Move>, x: Id)
    requires Abreast(db, PlacedIn(s.log), done) && AllKnown(s.state, PlacedIn(s.log), done, db.orders.Keys) && AllSound(done)
    requires x in PlacedIn(s.log) && 0 < Total(Amount(x), BookOf(s.state, PlacedIn(s.log)[x].symbol))
    ensures x in db.orders && S.Open(db.orders[x].status)
  {
    var placed := PlacedIn(s.log);
    assert RowAbreast(db, placed, done, x) && Bridge.Known(s.state, placed, done, db.orders.Keys, x);
    TradedWithin(x, done);
    hide GoneBy, Gone, Total, Cancels;
  }

  // ---- Calm runs -----------------------------------------------------------------

  lemma {:induction false} LoudLeavesNone(x: Id, moves: seq<Move>)
    requires Audible.Loud(moves) && NoStrays(moves)
    ensures SilentQty(x, moves) == 0
  {
    if moves != [] {
      var front, last := moves[..|moves| - 1], moves[|moves| - 1];
      assert moves == front + [last];
      assert last in moves && forall m :: m in front ==> m in moves;
      LoudLeavesNone(x, front);
    }
  }

  ghost predicate Heard(moves: seq<Move>) {
    Audible.Loud(moves) && NoStrays(moves)
  }

  lemma HeardBoth(a: seq<Move>, b: seq<Move>)
    requires Heard(a) && Heard(b)
    ensures Heard(a + b)
  {
  }

  lemma CalmPlaceHeard(s: Server, w: WireOrder)
    requires ServerSane(s) && Acceptable(s, w) && (Reaches(s, w) ==> FindsCalm(s, w))
    ensures Heard(PlaceMoves(s, w))
  {
    if Reaches(s, w) {
      var o, b := ToCore(w), Found(s, w);
      ValidatedIsReady(w);
      MeetsBook(s.state, o, PlacedIn(s.log));
      hide Submit, Sane, Fresh, Audible.Calm, Audible.Loud, NoStrays;
      assert BookSane(b, PlacedIn(s.log), w.symbol);
      hide PlaceInBook;
      SubmitPriced(b, o);
      Audible.CalmIsLoud(b, o);
    }
  }

  lemma WithdrawHeard(b: Book, id: Id, reason: CancelReason)
    ensures Heard(Withdraw(b, id, reason).1)
  {
  }

  lemma CancelHeard(b: Book, id: Id)
    ensures Heard(CancelOrder(b, id).1)
  {
    hide Withdraw, Heard;
    if id in b.links {
      var (b1, m1) := Withdraw(b.(links := b.links - {id, b.links[id]}), id, AdminCancel);
      WithdrawHeard(b.(links := b.links - {id, b.links[id]}), id, AdminCancel);
      WithdrawHeard(b1, b.links[id], OcoCancel);
      HeardBoth(m1, Withdraw(b1, b.links[id], OcoCancel).1);
    } else {
      WithdrawHeard(b, id, AdminCancel);
    }
  }

  lemma {:induction false} CancelEachHeard(s: Server, ids: seq<Id>)
    requires ServerSane(s)
    ensures Heard(CancelEachMoves(s, ids))
    decreases ids
  {
    if ids != [] {
      hide Heard, CancelOrder, ServerSane;
      KnownCancelHeard(s.state, ids[0]);
      CancelEachHeard(CancelKnown(s, ids[0]).0, ids[1..]);
      HeardBoth(CancelMoves(s.state, ids[0]), CancelEachMoves(CancelKnown(s, ids[0]).0, ids[1..]));
    } else {
      NothingHeard();
    }
  }

  lemma NothingHeard()
    ensures Heard([])
  {
  }

  lemma KnownCancelHeard(e: State, id: Id)
    ensures Heard(CancelMoves(e, id))
  {
    if id in e.open && e.open[id].symbol in e.books { CancelHeard(e.books[e.open[id].symbol], id); }
  }

  lemma {:induction false} CalmRunHeard(reqs: seq<Request>)
    requires Admissible(reqs) && CalmRun(reqs)
    ensures Heard(Doings(reqs))
  {
    NothingHeard();
    if reqs != [] {
      var before, last := reqs[..|reqs| - 1], reqs[|reqs| - 1];
      var s := Serve(before);
      CalmRunHeard(before);
      hide Heard, FindsCalm, PlaceMoves, CancelMoves, CancelEachMoves, ServerSane;
      HeardNext(s, last);
      HeardBoth(Doings(before), RequestMoves(s, last));
    }
  }

  lemma HeardNext(s: Server, r: Request)
    requires ServerSane(s) && (r.PlaceRequest? ==> Acceptable(s, r.order) && (Reaches(s, r.order) ==> FindsCalm(s, r.order)))
    ensures Heard(RequestMoves(s, r))
  {
    NothingHeard();
    hide Heard, FindsCalm, PlaceMoves, CancelMoves, CancelEachMoves, ServerSane;
    match r
    case PlaceRequest(w) => CalmPlaceHeard(s, w);
    case CancelRequest(id, symbol) => KnownCancelHeard(s.state, id);
    case CancelAllRequest(user, only) => CancelEachHeard(s, Ascending(Selection(s.state.open, user, only)));
    case HaltMarket(_) =>
    case ResumeMarket(_) =>
  }

  /** Over a calm run engine and settlement end in agreement: an order is open in settlement if and
    only if it is in its book, with the same left of it. */
  lemma CalmRunsAgree(start: S.Db, markets: S.Markets, reqs: seq<Request>, pen: Pen, x: Id)
    requires Locks.Opening(start, markets) && Admissible(reqs) && PricedRequests(reqs) && CalmRun(reqs) && Rises(pen)
    requires AllSettle(start, markets, Tape(reqs, pen)) && x in PlacedIn(Serve(reqs).log)
    ensures var rows, s := S.SettleRun(start, markets, Tape(reqs, pen)).orders, Serve(reqs);
      var left := Total(Amount(x), BookOf(s.state, PlacedIn(s.log)[x].symbol));
      && (x in rows && S.Open(rows[x].status) && 0.0 < S.Remaining(rows[x]) <==> 0 < left)
      && (x in rows && S.Open(rows[x].status) ==> S.Remaining(rows[x]) == left as real)
  {
    hide AllSettle, Tape, Serve, Doings, S.SettleRun, PricedRequests, CleanRun, Total, SilentQty, Locks.Opening, S.Remaining;
    CalmRunIsClean(reqs);
    CalmRunHeard(reqs);
    LoudLeavesNone(x, Doings(reqs));
    OpenRowsShowBooksAndSilent(start, markets, reqs, pen, x);
    BookOrdersAreOpen(start, markets, reqs, pen, x);
  }
}
