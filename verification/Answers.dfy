/** What an order is answered, told by what is on the book before it and by what it asks for:
  validation and refusals, what its run leaves within its limit, and what becomes of its OCO
  partner (engine/crates/core/src/book.rs, engine/crates/server/src/wire.rs and state.rs). */
module Answers {
  import opened Orders
  import opened Ladder
  import opened Matcher
  import opened BookInvariants
  import opened Cascade
  import opened Conservation
  import opened Histories
  import opened OpenOrders
  import opened Wire
  import opened Engine
  import opened ExactTable
  import opened Rejects
  import Divergence
  import Endings
  import Legs
  import Pairs
  import Partners
  import TimePriority
  import Walk

  // ---- Within a limit ------------------------------------------------------------

  /** A resting order of the other side is priced no worse than the limit; without a limit any is. */
  predicate Within(side: Side, limit: Option<int>, p: Order) {
    limit.None? || (p.price.Some? &&
      if side == Buy then p.price.value <= limit.value else limit.value <= p.price.value)
  }

  /** All that is left on the orders within the limit, wherever they stand. */
  function InReach(s: seq<Order>, side: Side, limit: Option<int>): int {
    if s == [] then 0
    else (if Within(side, limit, s[0]) then s[0].remaining else 0) + InReach(s[1..], side, limit)
  }

  lemma {:induction false} NoneInReach(s: seq<Order>, side: Side, limit: Option<int>)
    requires forall p :: p in s ==> !Within(side, limit, p)
    ensures InReach(s, side, limit) == 0
  {
    if s != [] {
      assert s[0] in s && forall p :: p in s[1..] ==> p in s;
      NoneInReach(s[1..], side, limit);
    }
  }

  /** What comes behind an order beyond the limit is beyond it too. */
  lemma BeyondLimit(s: seq<Order>, o: Order)
    requires SideOk(o.side.Opposite(), s) && s != [] && !Admits(o, s[0].price.Or(0))
    ensures forall p :: p in s ==> !Within(o.side, o.price, p)
  {
    forall p | p in s ensures !Within(o.side, o.price, p) {
      var i :| 0 <= i < |s| && s[i] == p;
      assert s[0] in s && RestsOk(o.side.Opposite(), s[0]) && RestsOk(o.side.Opposite(), p);
      assert RankOf(ShelfOf(o.side.Opposite()), s[0]) <= RankOf(ShelfOf(o.side.Opposite()), s[i]);
    }
  }

  lemma FrontWithin(s: seq<Order>, o: Order)
    requires SideOk(o.side.Opposite(), s) && s != []
    ensures Within(o.side, o.price, s[0]) <==> Admits(o, s[0].price.Or(0))
  {
    assert s[0] in s && RestsOk(o.side.Opposite(), s[0]);
  }

  lemma {:induction false} EligibleIsInReach(s: seq<Order>, o: Order)
    requires SideOk(o.side.Opposite(), s)
    ensures Eligible(s, o) == InReach(s, o.side, o.price)
  {
    if s != [] {
      FrontWithin(s, o);
      if Admits(o, s[0].price.Or(0)) {
        assert forall p :: p in s[1..] ==> p in s;
        EligibleIsInReach(s[1..], o);
      } else {
        BeyondLimit(s, o);
        NoneInReach(s, o.side, o.price);
      }
    }
  }

  lemma ValidSide(b: Book, side: Side)
    requires Valid(b)
    ensures SideOk(side, b.Resting(side))
  {
  }

  /** Why an order is refused before anything happens, if it is: a fill-or-kill order, when all that is
    left on the orders within its limit comes to less than it is for; a post-only order with a
    limit, when some order is within it. The book stays as it is. */
  lemma RefusedWhen(b: Book, o: Order)
    requires Valid(b) && Fresh(b, o)
    ensures var opposite := b.Resting(o.side.Opposite());
      Refusal(b, o) ==
        if o.kind == Fok && InReach(opposite, o.side, o.price) < o.remaining then Some(FokUnfilled)
        else if o.kind == PostOnly && o.price.Some? && (exists p :: p in opposite && Within(o.side, o.price, p))
        then Some(PostOnlyCrossed)
        else None
    ensures Refusal(b, o).Some? ==>
      Submit(b, o).0 == b && EventsOf(Submit(b, o).1) == [Cancelled(o.id, Refusal(b, o).value)]
  {
    var opposite := b.Resting(o.side.Opposite());
    ValidSide(b, o.side.Opposite());
    EligibleIsInReach(opposite, o);
    if opposite != [] {
      FrontWithin(opposite, o);
      if !Admits(o, opposite[0].price.Or(0)) { BeyondLimit(opposite, o); }
      assert opposite[0] in opposite;
    }
    hide Shaped, Distinct, Within, EventsOf, Sorted, Eligible, InReach;
    if Refusal(b, o).Some? { OneEvent(Void(o.id, o.remaining, Refusal(b, o).value, Incoming)); }
  }

  lemma RunStops(q: Run, queue: seq<Order>)
    requires Live(q, queue) && !q.Active() && !q.dead && 0 < q.taker.remaining
    ensures forall p :: p in Finish(q).book.Resting(q.taker.side.Opposite()) ==> !Within(q.taker.side, q.taker.price, p)
  {
    var s := q.Opposing();
    assert SideOk(q.taker.side.Opposite(), s);
    if s != [] { BeyondLimit(s, q.taker); }
    TimePriority.LinkedMembers(q.book, q.taker.id, q.taker.side.Opposite());
    hide CancelLinked, Insert, Within, Shaped, Distinct, Sorted;
  }

  /** An order that its run leaves something of has taken all there was: when the run is over no order of
    the other side is within its limit; without stops that is how the call leaves the book. */
  lemma NothingInReach(b: Book, o: Order) returns (mid: Book)
    requires Valid(b) && Fresh(b, o) && Refusal(b, o).None? && !o.kind.IsStop()
    requires Walk.Shown(b.Resting(o.side.Opposite())) && 0 < Endings.LeftOver(b, o)
    ensures WorkOk(Start(b, o)) && mid == RunOne(Start(b, o)).book
    ensures forall p :: p in mid.Resting(o.side.Opposite()) ==> !Within(o.side, o.price, p)
    ensures b.WaitingCount() == 0 ==> Submit(b, o).0 == mid
  {
    hide Loop, Finish, Shaped, Distinct, Refusal, Endings.LeftOver, Within, Submit;
    Endings.OwnRun(b, o);
    RunStops(Loop(Rejects.Opening(b, o), []), []);
    mid := RunOne(Start(b, o)).book;
    if b.WaitingCount() == 0 { Endings.NoStopsNoMore(b, o); }
  }

  // ---- The answer of the server --------------------------------------------------

  /** What validation asks for: a symbol that is not blank, a positive quantity, a positive price of every
    order but market and stop-market orders, a positive stop price of stops, and of an iceberg
    order a positive display size below its quantity. The code names what is missing. */
  lemma ValidWhen(w: WireOrder)
    ensures Validate(w).None? <==>
      && (exists c :: c in w.symbol && !IsSpace(c)) && 0 < w.quantity
      && (w.kind !in {Market, StopMarket} ==> w.price.Some? && 0 < w.price.value)
      && (w.kind in {StopLimit, StopMarket} ==> w.stopPrice.Some? && 0 < w.stopPrice.value)
      && (w.kind == Iceberg ==> w.displayQty.Some? && 0 < w.displayQty.value < w.quantity)
    ensures Validate(w) in {None, Some(MarketUnknown), Some(MinNotional), Some(TickSize), Some(StopPriceInvalid)}
    ensures Validate(w) == Some(MarketUnknown) <==> forall c :: c in w.symbol ==> IsSpace(c)
    ensures Validate(w) == Some(MinNotional) ==> w.quantity <= 0 || w.kind == Iceberg
    ensures Validate(w) == Some(TickSize) ==> w.kind !in {Market, StopMarket} && (w.price.None? || w.price.value <= 0)
    ensures Validate(w) == Some(StopPriceInvalid) ==> w.kind.IsStop() && (w.stopPrice.None? || w.stopPrice.value <= 0)
  {
  }

  lemma FokCode(b: Book, o: Order, code: RejectCode)
    requires Valid(b) && Fresh(b, o) && Refusal(b, o).None? && o.kind == Fok
    requires PreReject(o.id, EventsOf(Submit(b, o).1)) == Some(code)
    ensures code == FokNotFilled
  {
    hide Submit, Shaped, Distinct, Refusal, Endings.Fated;
    var moves := Submit(b, o).1;
    Endings.OrderFated(b, o);
    Endings.NeverCancelledFor(o.id, Fok, moves, PostOnlyCrossed);
    CodeHasReason(o.id, EventsOf(moves));
  }

  lemma {:induction false} CodeHasReason(id: Id, events: seq<Event>)
    ensures PreReject(id, events) == Some(PostOnlyRejected) ==> Cancelled(id, PostOnlyCrossed) in events
    ensures PreReject(id, events).Some? ==> PreReject(id, events).value in {PostOnlyRejected, FokNotFilled}
  {
    if events != [] {
      assert events == [events[0]] + events[1..];
      CodeHasReason(id, events[1..]);
    }
  }

  lemma OneReject(id: Id, reason: CancelReason)
    ensures PreReject(id, [Cancelled(id, reason)]) == CodeOf(reason)
  {
    assert [Cancelled(id, reason)][1..] == [];
  }

  /** What a call's answer is by the book that the order finds. */
  lemma CodeWhen(b: Book, o: Order)
    requires Valid(b) && Fresh(b, o) && Priced(o)
    ensures Walk.Shown(b.Resting(o.side.Opposite()))
    ensures var code := PreReject(o.id, EventsOf(Submit(b, o).1));
      code == if Refusal(b, o) == Some(PostOnlyCrossed) then Some(PostOnlyRejected)
              else if Refusal(b, o) == Some(FokUnfilled) || LeftShort(b, o) then Some(FokNotFilled)
              else None
  {
    hide Submit, Shaped, Distinct, Endings.Fated, EventsOf, Priced, PreReject;
    LateRejectIff(b, o);
    if Refusal(b, o).Some? {
      RefusedWhen(b, o);
      OneReject(o.id, Refusal(b, o).value);
    } else {
      CodeOfNone(b, o);
    }
  }

  lemma CodeOfNone(b: Book, o: Order)
    requires Valid(b) && Fresh(b, o) && Refusal(b, o).None? && Priced(o)
    ensures PreReject(o.id, EventsOf(Submit(b, o).1)) in {None, Some(FokNotFilled)}
  {
    hide Submit, Shaped, Distinct, Endings.Fated, EventsOf, Priced, PreReject, Refusal;
    if o.kind != Fok { OtherKindsAreNotRejected(b, o); }
    if PreReject(o.id, EventsOf(Submit(b, o).1)).Some? { FokCode(b, o, PreReject(o.id, EventsOf(Submit(b, o).1)).value); }
  }

  /** The answer to a valid order in a market that is not halted: it is rejected as post-only if and only if
    it is a post-only order and some resting order of the other side is within its limit; as not
    filled, if and only if it is a fill-or-kill order and all that is left within its limit comes
    to less than its quantity, or its run leaves some of it over; and otherwise not at all. Either
    way it is logged, whole and as it came. */
  lemma PlaceAnswer(s: Server, w: WireOrder)
    requires ServerSane(s) && Acceptable(s, w) && Divergence.Reaches(s, w)
    ensures Walk.Shown(Divergence.Opposite(s, w))
    ensures var (t, a) := Handle(s, PlaceRequest(w));
      var opposite := BookOf(s.state, w.symbol).Resting(w.side.Opposite());
      && (a == Rejected(PostOnlyRejected) <==>
           w.kind == PostOnly && exists p :: p in opposite && Within(w.side, w.price, p))
      && (a == Rejected(FokNotFilled) <==>
           w.kind == Fok &&
             (InReach(opposite, w.side, w.price) < w.quantity || 0 < Endings.LeftOver(Divergence.Found(s, w), ToCore(w))))
      && (a.Rejected? ==> a.code in {PostOnlyRejected, FokNotFilled})
      && t.log == s.log + [PlaceLogged(Order(w.id, w.user, w.symbol, w.side, w.kind, w.price, w.quantity, w.quantity,
           w.stpMode, w.stopPrice, w.ocoLinkedId, w.displayQty))]
  {
    hide Submit, Shaped, Distinct, EventsOf, ApplyUpdates, InReach, Within, BookSane, TableSane, PreReject, Refusal, Eligible,
      Validate, ServePlace;
    var o, b := ToCore(w), Divergence.Found(s, w);
    ValidatedIsReady(w);
    MeetsBook(s.state, o, PlacedIn(s.log));
    AnswerTellsCode(s, w);
    CodeWhen(b, o);
    RefusedWhen(b, o);
    SameResting(s, w);
    ValidSide(b, o.side.Opposite());
    EligibleIsInReach(b.Resting(o.side.Opposite()), o);
    if w.kind == PostOnly { LimitOfPostOnly(w); }
  }

  lemma LimitOfPostOnly(w: WireOrder)
    requires Validate(w).None? && w.kind == PostOnly
    ensures w.price.Some?
  {
  }

  lemma SameResting(s: Server, w: WireOrder)
    ensures Divergence.Found(s, w).Resting(w.side.Opposite()) == BookOf(s.state, w.symbol).Resting(w.side.Opposite())
  {
  }

  lemma AnswerTellsCode(s: Server, w: WireOrder)
    requires ServerSane(s) && Acceptable(s, w) && Divergence.Reaches(s, w)
    ensures var (t, a) := ServePlace(s, w);
      var code := (ValidatedIsReady(w); PreReject(w.id, EventsOf(PlaceInBook(s.state, ToCore(w), PlacedIn(s.log)).1)));
      && t.log == s.log + [PlaceLogged(ToCore(w))]
      && if code.Some? then a == Rejected(code.value) else a.Served?
  {
    hide PlaceInBook, ServerSane, ApplyUpdates, EventsOf, PreReject;
  }

  /** An order that names a partner is one of a pair with it: when the order is placed and is gone by the end
    of the call, other than by self-trade prevention, the partner is gone from the book too. */
  lemma PartnerGoes(s: Server, w: WireOrder, y: Id)
    requires ServerSane(s) && Acceptable(s, w) && Divergence.Reaches(s, w) && !w.kind.IsStop()
    requires Refusal(Divergence.Found(s, w), ToCore(w)).None?
    requires w.ocoLinkedId == Some(y) && y != w.id && Waits(Count(y), BookOf(s.state, w.symbol)) == 0
    requires var links := BookOf(s.state, w.symbol).links; Pairs.Paired(links) && y !in links && w.id !in links
    ensures var t := Handle(s, PlaceRequest(w)).0;
      && w.symbol in t.state.books
      && var c := t.state.books[w.symbol];
         var moves := (ValidatedIsReady(w); PlaceInBook(s.state, ToCore(w), PlacedIn(s.log)).1);
         Total(Amount(w.id), c) == 0 && !Legs.Excused(w.id, moves) ==> Total(Amount(y), c) == 0
  {
    hide Submit, Shaped, Distinct, EventsOf, ApplyUpdates, TableSane, PreReject, Refusal, Validate, Total, Legs.Excused, WithLink;
    ValidatedIsReady(w);
    MeetsBook(s.state, ToCore(w), PlacedIn(s.log));
    LinkedPairGoes(BookOf(s.state, w.symbol), ToCore(w), y);
  }

  lemma LinkedPairGoes(b: Book, o: Order, y: Id)
    requires Valid(WithLink(b, o)) && Fresh(WithLink(b, o), o) && !o.kind.IsStop() && Refusal(WithLink(b, o), o).None?
    requires o.ocoLinkedId == Some(y) && y != o.id && Waits(Count(y), b) == 0
    requires Pairs.Paired(b.links) && y !in b.links && o.id !in b.links
    ensures var (c, moves) := Submit(WithLink(b, o), o);
      Total(Amount(o.id), c) == 0 && !Legs.Excused(o.id, moves) ==> Total(Amount(y), c) == 0
  {
    hide Submit, Shaped, Distinct, Refusal, Total, Legs.Excused, Legs.Flew;
    Pairs.RegisterKeepsPairsIff(b, o.id, y);
    assert Waits(Count(y), WithLink(b, o)) == Waits(Count(y), b);
    Partners.NoneTriggered(WithLink(b, o), o, y);
    Legs.LegGoesWithItsPartner(WithLink(b, o), o, o.id);
  }
}
