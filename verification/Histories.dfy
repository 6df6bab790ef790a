/** Whole runs of a book: any sequence of orders, cancels and OCO pairings, with the one
  proviso that no order id is submitted twice. */
module Histories {
  import opened Orders
  import opened Ladder
  import opened Matcher
  import opened BookInvariants
  import opened Cascade
  import opened Conservation

  datatype Command = Place(order: Order) | Cancel(id: Id) | Link(legA: Id, legB: Id)

  /** What the placed orders bring in, as a gauge sees it. */
  function Brought(g: Gauge, cmds: seq<Command>): int {
    if cmds == [] then 0
    else Brought(g, cmds[..|cmds| - 1]) +
         match cmds[|cmds| - 1]
         case Place(o) => Weigh(g, o)
         case _ => 0
  }

  /** Whole orders under ids that were not used before. */
  predicate FreshIds(cmds: seq<Command>) {
    cmds == [] ||
    (FreshIds(cmds[..|cmds| - 1]) &&
     match cmds[|cmds| - 1]
     case Place(o) => o.Ready() && Brought(Count(o.id), cmds[..|cmds| - 1]) == 0
     case _ => true)
  }

  /** The book only knows ids that were placed. */
  ghost predicate Known(b: Book, cmds: seq<Command>) {
    forall x :: Total(Count(x), b) <= Brought(Count(x), cmds)
  }

  /** The book after a run, and everything that happened in it. Every such book is valid:
    sorted, uncrossed, without repeated ids, holding only orders that may rest. */
  function Play(cmds: seq<Command>): (r: (Book, seq<Move>))
    requires FreshIds(cmds)
    ensures Valid(r.0) && Known(r.0, cmds)
  {
    if cmds == [] then
      NothingYet();
      (EmptyBook, [])
    else
      var (b, moves) := Play(cmds[..|cmds| - 1]);
      match cmds[|cmds| - 1]
      case Place(o) =>
        NewIdIsFresh(b, o);
        assert Total(Count(o.id), b) <= Brought(Count(o.id), cmds[..|cmds| - 1]);
        var (c, more) := Submit(b, o);
        SubmitKnown(b, o, cmds);
        (c, moves + more)
      case Cancel(id) =>
        CancelKeeps(b, id);
        CancelAddsNone(b, id, cmds);
        var (c, more) := CancelOrder(b, id);
        (c, moves + more)
      case Link(legA, legB) =>
        LinkKnown(b, legA, legB, cmds);
        (RegisterOco(b, legA, legB), moves)
  }

  lemma NothingYet()
    ensures Valid(EmptyBook) && Known(EmptyBook, [])
  {
  }

  lemma NewIdIsFresh(b: Book, o: Order)
    requires Valid(b) && o.Ready()
    ensures Total(Count(o.id), b) <= 0 ==> Fresh(b, o)
  {
    if Total(Count(o.id), b) <= 0 {
      forall x ensures Total(Count(x), b) + Sum(Count(x), [o]) <= 1 {
        SumOne(Count(x), o);
        assert Total(Count(x), b) + Sum(Count(x), []) <= 1;
      }
    }
  }

  // ---- An id that is absent stays absent -----------------------------------------

  lemma {:induction false} NoneIsNothing(s: seq<Order>, x: Id)
    requires Sum(Count(x), s) == 0
    ensures Sum(Amount(x), s) == 0
  {
    CountIsPresence(s, x);
    AmountOfOnly(s, x);
  }

  lemma {:induction false} SomeIsSomething(s: seq<Order>, x: Id)
    requires forall o :: o in s ==> 0 < o.remaining
    ensures Sum(Amount(x), s) >= 0
    ensures Sum(Count(x), s) > 0 ==> Sum(Amount(x), s) > 0
  {
    if s != [] {
      assert s[0] in s;
      SomeIsSomething(s[1..], x);
      CountIsPresence(s[1..], x);
    }
  }

  lemma AbsentAmount(b: Book, x: Id)
    requires Total(Count(x), b) <= 0
    ensures Total(Amount(x), b) == 0
  {
    CountIsPresence(b.bids, x);
    CountIsPresence(b.asks, x);
    CountIsPresence(b.buyStops, x);
    CountIsPresence(b.sellStops, x);
    NoneIsNothing(b.bids, x);
    NoneIsNothing(b.asks, x);
    NoneIsNothing(b.buyStops, x);
    NoneIsNothing(b.sellStops, x);
  }

  /** On a valid book an id is present exactly when there is something left under it. */
  lemma PresentIffAmount(b: Book, x: Id)
    requires Shaped(b)
    ensures Total(Count(x), b) >= 0 && Total(Amount(x), b) >= 0
    ensures Total(Count(x), b) > 0 <==> Total(Amount(x), b) > 0
  {
    assert forall o :: o in b.bids ==> RestsOk(Buy, o);
    assert forall o :: o in b.asks ==> RestsOk(Sell, o);
    assert forall o :: o in b.buyStops ==> WaitsOk(Buy, o);
    assert forall o :: o in b.sellStops ==> WaitsOk(Sell, o);
    SomeIsSomething(b.bids, x);
    SomeIsSomething(b.asks, x);
    SomeIsSomething(b.buyStops, x);
    SomeIsSomething(b.sellStops, x);
    CountIsPresence(b.bids, x);
    CountIsPresence(b.asks, x);
    CountIsPresence(b.buyStops, x);
    CountIsPresence(b.sellStops, x);
    if Total(Count(x), b) <= 0 { AbsentAmount(b, x); }
  }

  lemma GoneIsPositive(g: Gauge, moves: seq<Move>)
    requires AllSound(moves)
    ensures Gone(g, moves) >= 0
  {
    GoneIsAll(g, moves);
    GoneNonNegative(Traded, g, moves);
    GoneNonNegative(Voided, g, moves);
    GoneNonNegative(Shrunk, g, moves);
    GoneNonNegative(Conservation.Dropped, g, moves);
    GoneNonNegative(Strayed, g, moves);
  }

  /** Submitting an order adds no id but its own. */
  lemma SubmitAddsOnly(b: Book, o: Order, x: Id)
    requires Valid(b) && Fresh(b, o)
    ensures Total(Count(x), Submit(b, o).0) <= Total(Count(x), b) + Weigh(Count(x), o)
  {
    var (c, moves) := Submit(b, o);
    assert Total(Count(x), c) + Sum(Count(x), []) <= 1;
    PresentIffAmount(b, x);
    if Total(Count(x), b) + Weigh(Count(x), o) <= 0 {
      AbsentAmount(b, x);
      SubmitConserves(Amount(x), b, o);
      SubmitSound(b, o);
      GoneIsPositive(Amount(x), moves);
      PresentIffAmount(c, x);
    }
  }

  lemma SubmitKnown(b: Book, o: Order, cmds: seq<Command>)
    requires cmds != [] && cmds[|cmds| - 1] == Place(o)
    requires Valid(b) && Fresh(b, o) && Known(b, cmds[..|cmds| - 1])
    ensures Known(Submit(b, o).0, cmds)
  {
    forall x ensures Total(Count(x), Submit(b, o).0) <= Brought(Count(x), cmds) {
      SubmitAddsOnly(b, o, x);
      assert Total(Count(x), b) <= Brought(Count(x), cmds[..|cmds| - 1]);
    }
  }

  lemma CancelAddsNone(b: Book, id: Id, cmds: seq<Command>)
    requires cmds != [] && cmds[|cmds| - 1] == Cancel(id)
    requires Valid(b) && Known(b, cmds[..|cmds| - 1])
    ensures Known(CancelOrder(b, id).0, cmds)
  {
    var c := CancelOrder(b, id).0;
    if id in b.links {
      var b0 := b.(links := b.links - {id, b.links[id]});
      WithdrawWithin(b0, id, AdminCancel);
      WithdrawWithin(Withdraw(b0, id, AdminCancel).0, b.links[id], OcoCancel);
    } else {
      WithdrawWithin(b, id, AdminCancel);
    }
    forall x ensures Total(Count(x), c) <= Brought(Count(x), cmds) {
      assert Total(Count(x), b) <= Brought(Count(x), cmds[..|cmds| - 1]);
      assert Total(Count(x), c) <= Total(Count(x), b);
    }
  }

  lemma LinkKnown(b: Book, legA: Id, legB: Id, cmds: seq<Command>)
    requires cmds != [] && cmds[|cmds| - 1] == Link(legA, legB)
    requires Valid(b) && Known(b, cmds[..|cmds| - 1])
    ensures Valid(RegisterOco(b, legA, legB)) && Known(RegisterOco(b, legA, legB), cmds)
  {
    var c := RegisterOco(b, legA, legB);
    forall x ensures Total(Count(x), c) <= Brought(Count(x), cmds) && Total(Count(x), c) + Sum(Count(x), []) <= 1 {
      assert Total(Count(x), b) <= Brought(Count(x), cmds[..|cmds| - 1]);
      assert Total(Count(x), b) + Sum(Count(x), []) <= 1;
    }
  }

  // ---- Whole runs ----------------------------------------------------------------

  /** No bid is at or above an ask, whatever has been submitted, cancelled or triggered. */
  lemma NeverCrossed(cmds: seq<Command>, bid: Order, ask: Order)
    requires FreshIds(cmds)
    requires bid in Play(cmds).0.bids && ask in Play(cmds).0.asks
    ensures bid.price.Some? && ask.price.Some? && bid.price.value < ask.price.value
  {
    var b := Play(cmds).0;
    var i :| 0 <= i < |b.bids| && b.bids[i] == bid;
    var j :| 0 <= j < |b.asks| && b.asks[j] == ask;
    assert RankOf(BidShelf, b.bids[0]) <= RankOf(BidShelf, b.bids[i]);
    assert RankOf(AskShelf, b.asks[0]) <= RankOf(AskShelf, b.asks[j]);
    assert RestsOk(Buy, bid) && RestsOk(Sell, ask);
  }

  lemma PlaySoundStep(cmds: seq<Command>)
    requires FreshIds(cmds) && cmds != []
    requires AllSound(Play(cmds[..|cmds| - 1]).1)
    ensures AllSound(Play(cmds).1)
  {
    var b := Play(cmds[..|cmds| - 1]).0;
    match cmds[|cmds| - 1]
    case Place(o) =>
      NewIdIsFresh(b, o);
      SubmitSound(b, o);
    case Cancel(id) => CancelSound(b, id);
    case Link(_, _) =>
  }

  lemma {:induction false} PlaySound(cmds: seq<Command>)
    requires FreshIds(cmds)
    ensures AllSound(Play(cmds).1)
  {
    if cmds != [] {
      PlaySound(cmds[..|cmds| - 1]);
      PlaySoundStep(cmds);
    }
  }

  /** Over any run: what was brought in is on the book, waiting, or gone. */
  lemma {:induction false} PlayConserves(g: Gauge, cmds: seq<Command>)
    requires Measures(g) && FreshIds(cmds)
    ensures var (b, moves) := Play(cmds);
      Brought(g, cmds) == Total(g, b) + Gone(g, moves)
  {
    if cmds != [] {
      var (b, moves) := Play(cmds[..|cmds| - 1]);
      PlayConserves(g, cmds[..|cmds| - 1]);
      match cmds[|cmds| - 1]
      case Place(o) =>
        NewIdIsFresh(b, o);
        SubmitConserves(g, b, o);
        GoneConcat(g, moves, Submit(b, o).1);
      case Cancel(id) =>
        CancelConserves(g, b, id);
        GoneConcat(g, moves, CancelOrder(b, id).1);
      case Link(_, _) =>
    }
  }

  /** An order's quantity = its fills + what was cancelled + what self-trade Decrement took
    + what the cascade limit discarded + what is still on the book or waiting. */
  lemma QuantityAccounted(cmds: seq<Command>, x: Id)
    requires FreshIds(cmds)
    ensures var (b, moves) := Play(cmds);
      Brought(Amount(x), cmds) ==
        GoneBy(Traded, Amount(x), moves) + GoneBy(Voided, Amount(x), moves) +
        GoneBy(Shrunk, Amount(x), moves) + GoneBy(Conservation.Dropped, Amount(x), moves) +
        GoneBy(Strayed, Amount(x), moves) + Total(Amount(x), b)
  {
    PlayConserves(Amount(x), cmds);
    GoneIsAll(Amount(x), Play(cmds).1);
  }

  /** What the announced fills of an order add up to. */
  function FilledQty(x: Id, events: seq<Event>): int {
    if events == [] then 0
    else FilledQty(x, events[..|events| - 1]) +
         match events[|events| - 1]
         case Filled(f) => (if f.makerId == x then f.quantity else 0) + (if f.takerId == x then f.quantity else 0)
         case _ => 0
  }

  predicate AnnouncedCancelled(x: Id, events: seq<Event>) {
    exists e :: e in events && e.Cancelled? && e.cancelledId == x
  }

  lemma {:induction false} EventsTellFills(x: Id, moves: seq<Move>)
    ensures FilledQty(x, EventsOf(moves)) == GoneBy(Traded, Amount(x), moves)
  {
    if moves != [] {
      var before, last := EventsOf(moves[..|moves| - 1]), EventOf(moves[|moves| - 1]);
      EventsTellFills(x, moves[..|moves| - 1]);
      if last != [] {
        assert (before + last)[..|before|] == before;
      } else {
        assert before + last == before;
      }
    }
  }

  /** An announced cancellation is one that took something. */
  lemma {:induction false} EventsTellCancels(x: Id, moves: seq<Move>)
    requires AllSound(moves)
    ensures AnnouncedCancelled(x, EventsOf(moves)) <==> GoneBy(Voided, Amount(x), moves) > 0
  {
    if moves != [] {
      var last := moves[|moves| - 1];
      EventsTellCancels(x, moves[..|moves| - 1]);
      GoneNonNegative(Voided, Amount(x), moves[..|moves| - 1]);
      assert last in moves && Sound(last);
      CancelInEither(x, EventsOf(moves[..|moves| - 1]), EventOf(last));
      assert AnnouncedCancelled(x, EventOf(last)) <==> last.Void? && last.voidId == x by {
        if last.Void? { assert EventOf(last)[0] in EventOf(last); }
      }
    }
  }

  lemma CancelInEither(x: Id, a: seq<Event>, b: seq<Event>)
    ensures AnnouncedCancelled(x, a + b) <==> AnnouncedCancelled(x, a) || AnnouncedCancelled(x, b)
  {
    assert forall e :: e in a + b <==> e in a || e in b;
  }

  /** What left an order without any announcement: taken by self-trade Decrement, discarded
    at the cascade limit, or lost for want of a price. */
  function SilentQty(x: Id, moves: seq<Move>): int {
    GoneBy(Shrunk, Amount(x), moves) + GoneBy(Conservation.Dropped, Amount(x), moves) + GoneBy(Strayed, Amount(x), moves)
  }

  /** An order that is gone was never announced as cancelled exactly when its fills, with
    what left silently, make up its quantity; so exactly when its fills do, if nothing left
    silently. */
  lemma GoneUncancelledIffFilled(cmds: seq<Command>, x: Id)
    requires FreshIds(cmds)
    requires Total(Count(x), Play(cmds).0) == 0
    ensures var moves := Play(cmds).1;
      !AnnouncedCancelled(x, EventsOf(moves)) <==>
        FilledQty(x, EventsOf(moves)) + SilentQty(x, moves) == Brought(Amount(x), cmds)
  {
    var moves := Play(cmds).1;
    PlaySound(cmds);
    QuantityAccounted(cmds, x);
    AbsentAmount(Play(cmds).0, x);
    EventsTellFills(x, moves);
    EventsTellCancels(x, moves);
    GoneNonNegative(Voided, Amount(x), moves);
  }
}
