/** Where the settlement worker stops: of all that the engine can tell it, only an acceptance that the
  account does not cover, or a fill for which a balance row is missing, cannot be processed
  (services/settlement/src/settlement.rs). */
module Stoppages {
  import opened Orders
  import opened Wire
  import opened Engine
  import opened Bridge
  import opened Lagging
  import opened Agreement
  import Locks
  import S = Settlement

  /** The account that the order would lock funds in is missing or does not cover the lock. */
  predicate Uncovered(db: S.Db, markets: S.Markets, o: S.NewOrder)
    requires o.symbol in markets
  {
    var (asset, obligation) := S.LockObligation(o, markets[o.symbol]);
    S.Account(o.user, asset) !in db.balances || db.balances[S.Account(o.user, asset)].available < obligation
  }

  /** A party has no balance row for what the fill brings it. */
  predicate RowMissing(db: S.Db, markets: S.Markets, f: S.TradeFill) {
    f.takerId in db.orders && f.makerId in db.orders && db.orders[f.takerId].market in markets &&
    var taker, maker, m := db.orders[f.takerId], db.orders[f.makerId], markets[db.orders[f.takerId].market];
    || S.Account(Locks.Buyer(f, taker, maker).user, m.base) !in db.balances
    || S.Account(Locks.Seller(f, taker, maker).user, m.quote) !in db.balances
  }

  /** The event cannot be processed as things stand. */
  predicate Stuck(db: S.Db, markets: S.Markets, e: S.EngineEvent) {
    match e
    case Accepted(o) =>
      o.symbol !in markets || !S.RowAllowed(o) || (o.id !in db.orders && Uncovered(db, markets, o))
    case Executed(f) => RowMissing(db, markets, f)
    case CanceledOrder(_) => false
    case Other => false
  }

  /** No market takes more than the whole as a fee. */
  predicate FairFees(markets: S.Markets) {
    forall s :: s in markets ==> Locks.FeesWithin(markets[s])
  }

  lemma FailsIffStuck(db: S.Db, markets: S.Markets, start: S.Db, e: S.Stored)
    requires Locks.LocksMatch(db, markets, start) && Locks.Opening(start, markets) && FairFees(markets)
    requires Told(db, e) && e.engineSeq !in db.trades && 0 < e.engineSeq
    ensures S.Settle(db, markets, e.engineSeq, e.event).None? <==> Stuck(db, markets, e.event)
  {
    match e.event
    case Accepted(o) =>
      if o.id !in db.orders { Locks.AcceptSucceedsIff(db, markets, start, e.engineSeq, o); }
      hide S.LockObligation, Locks.LocksMatch;
    case Executed(f) =>
      assert Locks.RowSound(db.orders[f.takerId], markets);
      Locks.FillSucceedsIff(db, markets, start, e.engineSeq, f);
      hide Locks.LocksMatch, Locks.FillFits, S.Settle;
    case CanceledOrder(id) =>
      Locks.CancelSucceeds(db, markets, start, e.engineSeq, id);
    case Other =>
  }

  ghost predicate PositiveNumbers(pen: Pen) {
    Rises(pen) && forall i :: 0 <= i ==> 0 < pen.numbers(i)
  }

  /** Over every run of requests without an unpriced buy: having processed any first part of what it
    was told, settlement fails at the next event if and only if that is one of these. */
  lemma NextFailsIffStuck(start: S.Db, markets: S.Markets, reqs: seq<Request>, pen: Pen, n: nat)
    requires Locks.Opening(start, markets) && Admissible(reqs) && PricedRequests(reqs) && FairFees(markets) && PositiveNumbers(pen)
    requires n < |Tape(reqs, pen)| && AllSettle(start, markets, Tape(reqs, pen)[..n])
    ensures var tape := Tape(reqs, pen);
      var db := S.SettleRun(start, markets, tape[..n]);
      S.Settle(db, markets, tape[n].engineSeq, tape[n].event).None? <==> Stuck(db, markets, tape[n].event)
  {
    var tape := Tape(reqs, pen);
    TapeInParts(start, markets, reqs, pen);
    PartIsConsistent(start, markets, tape, n);
    TapeByPen(reqs, pen);
    hide Tape, AllSettle, S.SettleRun, S.Settle, Stuck, Locks.ConsistentRun, Locks.LocksMatch, Told, PricedRequests;
    var front := tape[..n];
    assert forall i :: 0 <= i < n ==> front[i] == tape[i];
    var db := S.SettleRun(start, markets, front);
    RunSays(start, markets, front, 0);
    NewNumber(db, front, tape[n]);
    Locks.RunMatches(start, markets, front);
    assert Told(db, tape[n]);
    FailsIffStuck(db, markets, start, tape[n]);
  }

  /** So a worker that stands anywhere on the engine's run, drains what has been stored since, and does
    not get to the end of it, has come to such an event. */
  lemma WorkerStopsOnlyIfStuck(start: S.Db, markets: S.Markets, reqs: seq<Request>, pen: Pen, m: nat, stored: nat)
    returns (n: nat)
    requires Locks.Opening(start, markets) && Admissible(reqs) && PricedRequests(reqs) && FairFees(markets) && PositiveNumbers(pen)
    requires m <= stored <= |Tape(reqs, pen)| && AllSettle(start, markets, Tape(reqs, pen)[..m])
    ensures m <= n <= stored && AllSettle(start, markets, Tape(reqs, pen)[..n])
    ensures var tape := Tape(reqs, pen);
      var db := S.SettleRun(start, markets, tape[..n]);
      && S.Drain(S.SettleRun(start, markets, tape[..m]), markets, Pending(tape[m..stored])).0 == db
      && (n == stored || Stuck(db, markets, tape[n].event))
  {
    hide AllSettle, Tape, S.Drain, Locks.Opening, S.SettleRun, S.Settle, Stuck, PricedRequests;
    var tape := Tape(reqs, pen);
    var run := tape[..stored];
    TapeByPen(reqs, pen);
    assert run[..m] == tape[..m] && run[m..] == tape[m..stored];
    n := DrainFollowsRun(start, markets, run, m);
    assert run[..n] == tape[..n];
    if n < stored { NextFailsIffStuck(start, markets, reqs, pen, n); }
  }
}
