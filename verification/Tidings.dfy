/** What settlement is told over a run of requests: orders on the terms they were placed with, fills that
  happened, at their price and for their quantity, and cancellations that happened
  (services/settlement/src/settlement.rs, engine/crates/server/src/state.rs). */
module Tidings {
  import opened Orders
  import opened Matcher
  import opened Cascade
  import opened Histories
  import opened OpenOrders
  import opened Origins
  import opened Wire
  import opened Engine
  import opened ExactTable
  import opened Bridge
  import Accounts
  import S = Settlement

  predicate SameAmount(value: Option<int>, amount: Option<real>) {
    if value.None? then amount.None? else amount.Some? && amount.value == value.value as real
  }

  predicate SameOrder(o: Order, news: S.NewOrder) {
    && news.id == o.id && news.user == o.user && news.symbol == o.symbol && news.side == o.side
    && news.quantity == o.quantity as real && SameAmount(o.price, news.price)
    && SameAmount(o.stopPrice, news.stopPrice) && SameAmount(o.displayQty, news.displayQty)
  }

  predicate SameFill(f: Fill, news: S.TradeFill) {
    && news.takerId == f.takerId && news.makerId == f.makerId && news.takerSide == f.takerSide
    && news.price == f.price as real && news.quantity == f.quantity as real
  }

  /** The event tells of an order that was placed, or of something that happened. */
  ghost predicate Holds(e: S.EngineEvent, placed: Register, done: seq<Move>) {
    match e
    case Accepted(news) => news.id in placed && SameOrder(placed[news.id], news)
    case Executed(news) => exists m :: m in done && m.Trade? && SameFill(m.fill, news)
    case CanceledOrder(id) => exists m :: m in done && m.Void? && m.voidId == id
    case Other => false
  }

  ghost predicate AllHold(run: seq<S.Stored>, placed: Register, done: seq<Move>, pen: Pen) {
    forall i :: 0 <= i < |run| ==> Holds(run[i].event, placed, done) && run[i].engineSeq == pen.numbers(i)
  }

  lemma StillTrue(run: seq<S.Stored>, placed: Register, wider: Register, done: seq<Move>, more: seq<Move>, pen: Pen)
    requires AllHold(run, placed, done, pen)
    requires forall x :: x in placed ==> x in wider && wider[x] == placed[x]
    ensures AllHold(run, wider, done + more, pen)
  {
    hide SameOrder, SameFill;
    assert forall m :: m in done ==> m in done + more;
  }

  lemma WriteTrue(run: seq<S.Stored>, e: S.EngineEvent, placed: Register, done: seq<Move>, pen: Pen)
    requires AllHold(run, placed, done, pen) && Holds(e, placed, done)
    ensures AllHold(Write(run, e, pen), placed, done, pen)
  {
    hide Holds;
  }

  lemma MoveTrue(m: Move, tradeId: Id, placed: Register, done: seq<Move>)
    requires m in done
    ensures forall e :: e in News(m, tradeId) ==> Holds(e, placed, done)
  {
  }

  lemma {:induction false} MovesTrue(run: seq<S.Stored>, moves: seq<Move>, placed: Register, done: seq<Move>, pen: Pen)
    requires AllHold(run, placed, done, pen) && forall m :: m in moves ==> m in done
    ensures AllHold(WriteMoves(run, moves, pen), placed, done, pen)
  {
    if moves != [] {
      hide AllHold, Holds, News;
      var front, last := moves[..|moves| - 1], moves[|moves| - 1];
      assert last in moves && forall m :: m in front ==> m in moves;
      MovesTrue(run, front, placed, done, pen);
      var told := WriteMoves(run, front, pen);
      MoveTrue(last, pen.tradeIds(|told|), placed, done);
      var news := News(last, pen.tradeIds(|told|));
      if news != [] {
        assert news[0] in news;
        WriteTrue(told, news[0], placed, done, pen);
      }
    }
  }

  lemma NewsTrue(o: Order, placed: Register, done: seq<Move>)
    requires o.id in placed && placed[o.id] == o
    ensures Holds(NewsOfOrder(o), placed, done)
  {
  }

  lemma PlaceTrue(s: Server, w: WireOrder, run: seq<S.Stored>, done: seq<Move>, pen: Pen)
    requires ServerSane(s) && Acceptable(s, w) && AllHold(run, PlacedIn(s.log), done, pen)
    ensures AllHold(PlaceRun(s, w, run, pen), PlacedIn(ServePlace(s, w).0.log), done + PlaceMoves(s, w), pen)
  {
    hide AllHold, PlaceInBook, PreReject, ApplyUpdates, EventsOf, ServerSane, Holds, NewsOfOrder;
    var placed, moves := PlacedIn(s.log), PlaceMoves(s, w);
    if Validate(w).None? && w.symbol !in s.halted {
      var o := ToCore(w);
      ValidatedIsReady(w);
      LogGrows(s.log, PlaceLogged(o));
      var wider := placed[o.id := o];
      StillTrue(run, placed, wider, done, moves, pen);
      NewsTrue(o, wider, done + moves);
      WriteTrue(run, NewsOfOrder(o), wider, done + moves, pen);
      MovesTrue(Write(run, NewsOfOrder(o), pen), moves, wider, done + moves, pen);
    } else {
      StillTrue(run, placed, placed, done, moves, pen);
    }
  }

  lemma CancelTrue(s: Server, id: Id, run: seq<S.Stored>, placed: Register, done: seq<Move>, pen: Pen)
    requires AllHold(run, placed, done, pen)
    ensures AllHold(CancelRun(s, id, run, pen), placed, done + CancelMoves(s.state, id), pen)
  {
    hide AllHold, CancelMoves;
    var moves := CancelMoves(s.state, id);
    StillTrue(run, placed, placed, done, moves, pen);
    MovesTrue(run, moves, placed, done + moves, pen);
  }

  lemma {:induction false} CancelEachTrue(s: Server, ids: seq<Id>, run: seq<S.Stored>, placed: Register, done: seq<Move>, pen: Pen)
    requires ServerSane(s) && AllHold(run, placed, done, pen)
    ensures AllHold(CancelEachRun(s, ids, run, pen), placed, done + CancelEachMoves(s, ids), pen)
    decreases ids
  {
    hide AllHold, CancelMoves, CancelRun, CancelKnown, ServerSane;
    if ids == [] {
      assert done + [] == done;
    } else {
      var moves, t := CancelMoves(s.state, ids[0]), CancelKnown(s, ids[0]).0;
      CancelTrue(s, ids[0], run, placed, done, pen);
      CancelEachTrue(t, ids[1..], CancelRun(s, ids[0], run, pen), placed, done + moves, pen);
      assert (done + moves) + CancelEachMoves(t, ids[1..]) == done + (moves + CancelEachMoves(t, ids[1..]));
    }
  }

  /** Everything settlement is told over a run of requests is true: each order it hears of was placed, by that
    user, on those terms; each fill happened, between those orders, at that price and for that
    quantity; each cancellation happened; and events are numbered in the order in which they are
    written. */
  lemma {:induction false} TapeIsTrue(reqs: seq<Request>, pen: Pen)
    requires Admissible(reqs)
    ensures AllHold(Tape(reqs, pen), PlacedIn(Serve(reqs).log), Doings(reqs), pen)
  {
    if reqs != [] {
      hide AllHold, PlaceRun, PlaceMoves, CancelRun, CancelMoves, CancelEachRun, CancelEachMoves, ServerSane, Acceptable,
        ServePlace, CancelKnown;
      var before, last := reqs[..|reqs| - 1], reqs[|reqs| - 1];
      var s, run, done := Serve(before), Tape(before, pen), Doings(before);
      TapeIsTrue(before, pen);
      match last
      case PlaceRequest(w) => PlaceTrue(s, w, run, done, pen);
      case CancelRequest(id, symbol) =>
        if id in s.state.open && s.state.open[id].symbol == symbol {
          CancelTrue(s, id, run, PlacedIn(s.log), done, pen);
        } else {
          assert done + [] == done;
        }
      case CancelAllRequest(user, only) =>
        CancelEachTrue(s, Ascending(Selection(s.state.open, user, only)), run, PlacedIn(s.log), done, pen);
      case HaltMarket(_) => assert done + [] == done;
      case ResumeMarket(_) => assert done + [] == done;
    }
  }

  // ---- What settlement stores ----------------------------------------------------

  lemma SettleStores(s: S.Db, markets: S.Markets, e: S.Stored, n: int)
    requires S.Settle(s, markets, e.engineSeq, e.event).Some? && n in S.Settle(s, markets, e.engineSeq, e.event).value.trades
    ensures var t := S.Settle(s, markets, e.engineSeq, e.event).value;
      || (n in s.trades && t.trades[n] == s.trades[n])
      || (n == e.engineSeq && e.event.Executed? && t.trades[n].fill == e.event.fill)
  {
    hide S.PostAll, S.FillMutations, S.RowFilled, S.Obligation, S.LockObligation;
    if e.event.Executed? && e.engineSeq !in s.trades {
      Accounts.StoredBeforePosting(s, markets, e.engineSeq, e.event.fill);
    }
  }

  lemma {:induction false} StoredWasTold(start: S.Db, markets: S.Markets, run: seq<S.Stored>, n: int) returns (i: nat)
    requires start.trades == map[] && n in S.SettleRun(start, markets, run).trades
    ensures i < |run| && run[i].engineSeq == n && run[i].event == S.Executed(S.SettleRun(start, markets, run).trades[n].fill)
  {
    var before, last := run[..|run| - 1], run[|run| - 1];
    var s := S.SettleRun(start, markets, before);
    hide S.Settle;
    if S.Settle(s, markets, last.engineSeq, last.event).Some? { SettleStores(s, markets, last, n); }
    if n in s.trades && S.SettleRun(start, markets, run).trades[n] == s.trades[n] {
      i := StoredWasTold(start, markets, before, n);
    } else {
      i := |run| - 1;
    }
  }

  /** Every trade in settlement's table is a fill of the engine, between those orders, at that price and for
    that quantity. */
  lemma TradesAreFills(start: S.Db, markets: S.Markets, reqs: seq<Request>, pen: Pen, n: int)
    requires Admissible(reqs) && start.trades == map[] && n in S.SettleRun(start, markets, Tape(reqs, pen)).trades
    ensures var trade := S.SettleRun(start, markets, Tape(reqs, pen)).trades[n];
      exists m :: m in Doings(reqs) && m.Trade? && SameFill(m.fill, trade.fill)
  {
    hide Tape, Doings, SameFill, SameOrder, Serve;
    TapeIsTrue(reqs, pen);
    var i := StoredWasTold(start, markets, Tape(reqs, pen), n);
    assert Holds(Tape(reqs, pen)[i].event, PlacedIn(Serve(reqs).log), Doings(reqs));
  }
}
