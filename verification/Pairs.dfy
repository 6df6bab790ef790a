/** OCO pairs: when one leg is done the other is cancelled (engine/crates/core/src/book.rs). */
module Pairs {
  import opened Orders
  import opened Ladder
  import opened Matcher
  import opened BookInvariants
  import opened Cascade
  import opened Histories
  import opened OpenOrders
  import opened ExactTable
  import FillOrKill

  /** Whoever has a partner is its partner's partner. */
  ghost predicate Paired(links: map<Id, Id>) {
    forall x :: x in links ==> links[x] in links && links[links[x]] == x
  }

  /** Pairing two orders keeps all links mutual if and only if neither leaves a third behind: an
    order that is paired anew stays named as the partner of its old one. */
  lemma RegisterKeepsPairsIff(b: Book, legA: Id, legB: Id)
    requires Paired(b.links)
    ensures Paired(RegisterOco(b, legA, legB).links) <==>
      forall leg :: leg in {legA, legB} && leg in b.links ==> b.links[leg] in {legA, legB}
  {
    var links, later := b.links, RegisterOco(b, legA, legB).links;
    if leg :| leg in {legA, legB} && leg in links && links[leg] !in {legA, legB} {
      assert later[links[leg]] == leg && later[leg] != links[leg];
    }
  }

  /** The order's link is gone, and so are its partner's link and its partner. */
  ghost predicate PartnerGone(b: Book, c: Book, id: Id) {
    id !in c.links && (id in b.links ==> b.links[id] !in c.links && Total(Count(b.links[id]), c) <= 0)
  }

  lemma LinkedGoes(b: Book, id: Id)
    requires forall x :: Total(Count(x), b) <= 1
    ensures PartnerGone(b, CancelLinked(b, id).0, id)
  {
    if id in b.links {
      var b0 := b.(links := b.links - {id, b.links[id]});
      assert Total(Count(b.links[id]), b0) == Total(Count(b.links[id]), b);
      WithdrawTakes(b0, b.links[id], OcoCancel);
      hide Total;
    }
  }

  // ---- Whether the partner goes at once ------------------------------------------

  /** The order is in one of the four lists. */
  ghost predicate Listed(b: Book, x: Id) {
    0 < Total(Count(x), b)
  }

  /** A cancellation as the partner of an order that is done. */
  predicate GoesAsPartner(x: Id, m: Move) {
    m.Void? && m.voidId == x && m.reason == OcoCancel
  }

  ghost predicate TakesPartner(y: Id, moves: seq<Move>) {
    exists m :: m in moves && GoesAsPartner(y, m)
  }

  lemma WithdrawnIff(b: Book, y: Id)
    ensures var (c, moves) := Withdraw(b, y, OcoCancel);
      && (TakesPartner(y, moves) <==> Listed(b, y)) && (!Listed(b, y) ==> c == b && moves == [])
  {
    var moves := Withdraw(b, y, OcoCancel).1;
    CountIsPresence(b.bids, y);
    CountIsPresence(b.asks, y);
    CountIsPresence(b.buyStops, y);
    CountIsPresence(b.sellStops, y);
    hide Sum, SwapOut, RemoveAt, Find;
    if Listed(b, y) { assert GoesAsPartner(y, moves[0]) && moves[0] in moves; }
  }

  /** When a linked order is done its partner is cancelled if and only if it is in one of the
    lists at that moment; if it is not, nothing happens but that both links are forgotten. */
  lemma LinkedGoesIff(b: Book, id: Id)
    requires id in b.links
    ensures var (c, moves), y := CancelLinked(b, id), b.links[id];
      && (TakesPartner(y, moves) <==> Listed(b, y))
      && (!Listed(b, y) ==> c == b.(links := b.links - {id, y}) && moves == [])
  {
    var b0 := b.(links := b.links - {id, b.links[id]});
    WithdrawnIff(b0, b.links[id]);
    assert Listed(b0, b.links[id]) == Listed(b, b.links[id]);
    hide Withdraw;
  }

  lemma AtMostOne(b: Book, flight: seq<Order>)
    requires Distinct(b, flight)
    ensures forall x :: Total(Count(x), b) <= 1
  {
    forall x ensures Total(Count(x), b) <= 1 {
      assert Total(Count(x), b) + Sum(Count(x), flight) <= 1;
      CountIsPresence(flight, x);
    }
  }

  /** A resting order that a fill uses up takes its partner with it. */
  lemma UsedUpMakerTakesPartner(r: Run, queue: seq<Order>)
    requires Live(r, queue) && r.Active() && r.Opposing()[0].user != r.taker.user
    requires r.Opposing()[0].Effective() == r.Opposing()[0].remaining <= r.taker.remaining
    ensures PartnerGone(r.book, Step(r).book, r.Opposing()[0].id)
  {
    var side := r.taker.side.Opposite();
    var popped := r.book.WithResting(side, r.Opposing()[1..]);
    PopFront(r.book, side, [r.taker] + queue);
    AtMostOne(popped, [r.taker] + queue);
    hide CancelLinked, Total, Sum, Insert, Shaped, Distinct;
    LinkedGoes(popped, r.Opposing()[0].id);
  }

  /** So does an order whose run ends with it filled or cancelled, unless self-trade prevention
    ended the run. */
  lemma FinishedTakerTakesPartner(r: Run, queue: seq<Order>)
    requires Live(r, queue) && !r.dead
    requires r.taker.remaining == 0 || Disposal(r.taker.kind, r.last.Some?).Some?
    ensures PartnerGone(r.book, Finish(r).book, r.taker.id)
  {
    AtMostOne(r.book, [r.taker] + queue);
    LinkedGoes(r.book, r.taker.id);
    hide CancelLinked, Total, Shaped, Distinct;
  }

  /** And one that is cancelled on request. */
  lemma CancelledTakesPartner(b: Book, id: Id)
    requires Valid(b)
    ensures PartnerGone(b, CancelOrder(b, id).0, id) && Total(Count(id), CancelOrder(b, id).0) <= 0
  {
    AtMostOne(b, []);
    assert Total(Count(id), b) <= 1;
    hide Withdraw, Sum;
    if id in b.links {
      var y := b.links[id];
      var b0 := b.(links := b.links - {id, y});
      var b1 := Withdraw(b0, id, AdminCancel).0;
      WithdrawTakes(b0, id, AdminCancel);
      WithdrawWithin(b0, id, AdminCancel);
      assert Total(Count(y), b) <= 1 && Total(Count(y), b1) <= Total(Count(y), b0);
      WithdrawTakes(b1, y, OcoCancel);
      WithdrawWithin(b1, y, OcoCancel);
      assert Total(Count(id), CancelOrder(b, id).0) <= Total(Count(id), b1);
      LinksKept(b0, id, AdminCancel);
      LinksKept(b1, y, OcoCancel);
    } else {
      WithdrawTakes(b, id, AdminCancel);
      LinksKept(b, id, AdminCancel);
    }
  }

  lemma LinksKept(b: Book, id: Id, reason: CancelReason)
    ensures Withdraw(b, id, reason).0.links == b.links
  {
  }

  // ---- Links stay mutual ---------------------------------------------------------

  lemma UnlinkPaired(links: map<Id, Id>, id: Id)
    requires Paired(links) && id in links
    ensures Paired(links - {id, links[id]})
  {
  }

  lemma LinkedPaired(b: Book, id: Id)
    requires Paired(b.links)
    ensures Paired(CancelLinked(b, id).0.links)
  {
    if id in b.links {
      UnlinkPaired(b.links, id);
      LinksKept(b.(links := b.links - {id, b.links[id]}), b.links[id], OcoCancel);
      hide Withdraw, Paired;
    }
  }

  lemma StepPaired(r: Run)
    requires r.Active() && Paired(r.book.links)
    ensures Paired(Step(r).book.links)
  {
    LinkedPaired(r.book.WithResting(r.taker.side.Opposite(), r.Opposing()[1..]), r.Opposing()[0].id);
    hide CancelLinked, Insert, Paired;
  }

  lemma {:induction false} LoopPaired(r: Run, queue: seq<Order>)
    requires Live(r, queue) && Paired(r.book.links)
    ensures Paired(Loop(r, queue).book.links)
    decreases r.taker.remaining, |r.Opposing()|
  {
    if r.Active() {
      StepKeeps(r, queue);
      StepShrinks(r);
      StepPaired(r);
      hide Paired, Step, Shaped, Distinct;
      LoopPaired(Step(r), queue);
    }
  }

  lemma FinishPaired(r: Run)
    requires Paired(r.book.links)
    ensures Paired(Finish(r).book.links)
  {
    LinkedPaired(r.book, r.taker.id);
    hide CancelLinked, Insert, Paired;
  }

  lemma TurnPaired(w: Work)
    requires WorkOk(w) && w.queue != [] && Paired(w.book.links)
    ensures Paired(Turn(w).book.links)
  {
    var others, taker := w.queue[..|w.queue| - 1], w.queue[|w.queue| - 1];
    PopQueue(w.book, w.queue);
    assert taker in w.queue;
    var r0 := Run(w.book, taker, w.moves, None, false);
    LoopPaired(r0, others);
    FinishPaired(Loop(r0, others));
    hide Loop, Finish, Paired, Shaped, Distinct, Due, Triggered, Cascade.Dropped;
  }

  lemma {:induction false} RunAllPaired(w: Work)
    requires WorkOk(w) && Paired(w.book.links)
    ensures Paired(RunAll(w).book.links)
    decreases |w.queue| + w.book.WaitingCount()
  {
    if w.queue != [] {
      TurnPaired(w);
      hide Paired, Turn;
      RunAllPaired(Turn(w));
    }
  }

  /** Whatever an order sets off, and whatever is cancelled, links stay mutual. */
  lemma CallsKeepPairs(b: Book, o: Order, id: Id)
    requires Valid(b) && Paired(b.links)
    ensures Fresh(b, o) ==> Paired(Submit(b, o).0.links)
    ensures Paired(CancelOrder(b, id).0.links)
  {
    if Fresh(b, o) && Refusal(b, o).None? && !o.kind.IsStop() { RunAllPaired(Start(b, o)); }
    if id in b.links {
      var b0 := b.(links := b.links - {id, b.links[id]});
      UnlinkPaired(b.links, id);
      LinksKept(b0, id, AdminCancel);
      LinksKept(Withdraw(b0, id, AdminCancel).0, b.links[id], OcoCancel);
    } else {
      LinksKept(b, id, AdminCancel);
    }
    hide Withdraw, Paired, Insert, RunAll;
  }
}
