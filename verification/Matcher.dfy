/** The matching rules as pure functions over flat price-time lists
  (engine/crates/core/src/book.rs). The class `OrderBook` is proved to compute exactly
  these functions; the theorems of the core are proved about them. */
module Matcher {
  import opened Orders
  import opened Ladder

  /** The cascade admits no further stops once this many have been triggered in one call. */
  const MAX_STOP_CHAIN_DEPTH := 16
  const DEPTH_CEILING := 255

  datatype Book = Book(
    bids: seq<Order>,
    asks: seq<Order>,
    buyStops: seq<Order>,
    sellStops: seq<Order>,
    links: map<Id, Id>)
  {
    function Resting(side: Side): seq<Order> {
      if side == Buy then bids else asks
    }

    function WithResting(side: Side, s: seq<Order>): Book {
      if side == Buy then this.(bids := s) else this.(asks := s)
    }

    function Stops(side: Side): seq<Order> {
      if side == Buy then buyStops else sellStops
    }

    function WithStops(side: Side, s: seq<Order>): Book {
      if side == Buy then this.(buyStops := s) else this.(sellStops := s)
    }

    function WaitingCount(): nat {
      |buyStops| + |sellStops|
    }
  }

  const EmptyBook := Book([], [], [], [], map[])

  /** Where a cancelled order was when it was cancelled. */
  datatype Place = Incoming | Booked | Waiting

  /** One thing that happens while a command is processed. The engine announces some of
    these as events and stays silent about the others. */
  datatype Move =
    | Trade(fill: Fill)
    | Rest(restId: Id, restQty: int)
    | Void(voidId: Id, voidQty: int, reason: CancelReason, from: Place)
    | Trigger(triggerId: Id)
      /** Self-trade Decrement took quantity off the larger order: no event. */
    | Shrink(shrinkId: Id, shrinkQty: int)
      /** A triggered stop was discarded at the cascade limit: no event. */
    | Drop(dropId: Id, dropQty: int)
      /** An order without a price was announced as resting but put nowhere. */
    | Stray(strayId: Id, strayQty: int)
      /** A matching run ended; stops were checked against its last trade price, if any. */
    | RunEnd(last: Option<int>, admitted: nat)

  function EventOf(m: Move): seq<Event> {
    match m
    case Trade(f) => [Filled(f)]
    case Rest(id, q) => [Rested(id, q)]
    case Void(id, _, reason, _) => [Cancelled(id, reason)]
    case Trigger(id) => [StopTriggered(id)]
    case _ => []
  }

  /** What the engine announces. */
  function EventsOf(moves: seq<Move>): seq<Event> {
    if moves == [] then [] else EventsOf(moves[..|moves| - 1]) + EventOf(moves[|moves| - 1])
  }

  lemma {:induction false} EventsConcat(a: seq<Move>, b: seq<Move>)
    ensures EventsOf(a + b) == EventsOf(a) + EventsOf(b)
  {
    if b == [] {
      assert a + b == a;
    } else {
      assert (a + b)[..|a + b| - 1] == a + b[..|b| - 1];
      EventsConcat(a, b[..|b| - 1]);
      EventsRegroup(EventsOf(a), EventsOf(b[..|b| - 1]), EventOf(b[|b| - 1]));
    }
  }

  lemma EventsRegroup(a: seq<Event>, b: seq<Event>, c: seq<Event>)
    ensures (a + b) + c == a + (b + c)
  {
  }

  lemma EventsPush(a: seq<Move>, m: Move)
    ensures EventsOf(a + [m]) == EventsOf(a) + EventOf(m)
  {
    assert (a + [m])[..|a|] == a;
  }

  lemma OneEvent(m: Move)
    ensures EventsOf([m]) == EventOf(m)
  {
    EventsPush([], m);
    assert [] + [m] == [m];
    assert EventsOf([]) + EventOf(m) == EventOf(m);
  }

  lemma EventsPush2(a: seq<Move>, m: Move, n: Move)
    ensures EventsOf(a + [m, n]) == EventsOf(a) + (EventOf(m) + EventOf(n))
  {
    assert a + [m, n] == (a + [m]) + [n];
    EventsPush(a, m);
    EventsPush(a + [m], n);
    EventsRegroup(EventsOf(a), EventOf(m), EventOf(n));
  }

  // ---- Cancelling ----------------------------------------------------------------

  /** Takes an order out of wherever it is: the stop registry is searched first. */
  function Withdraw(b: Book, id: Id, reason: CancelReason): (Book, seq<Move>) {
    if Has(b.buyStops, id) then
      var i := Find(b.buyStops, id);
      (b.(buyStops := SwapOut(b.buyStops, i)), [Void(id, b.buyStops[i].remaining, reason, Waiting)])
    else if Has(b.sellStops, id) then
      var i := Find(b.sellStops, id);
      (b.(sellStops := SwapOut(b.sellStops, i)), [Void(id, b.sellStops[i].remaining, reason, Waiting)])
    else if Has(b.bids, id) then
      var i := Find(b.bids, id);
      (b.(bids := RemoveAt(b.bids, i)), [Void(id, b.bids[i].remaining, reason, Booked)])
    else if Has(b.asks, id) then
      var i := Find(b.asks, id);
      (b.(asks := RemoveAt(b.asks, i)), [Void(id, b.asks[i].remaining, reason, Booked)])
    else
      (b, [])
  }

  /** When an order is done, the other leg of its OCO pair is cancelled. */
  function CancelLinked(b: Book, id: Id): (Book, seq<Move>) {
    if id in b.links
    then Withdraw(b.(links := b.links - {id, b.links[id]}), b.links[id], OcoCancel)
    else (b, [])
  }

  function CancelOrder(b: Book, id: Id): (Book, seq<Move>) {
    if id in b.links then
      var linked := b.links[id];
      var (b1, m1) := Withdraw(b.(links := b.links - {id, linked}), id, AdminCancel);
      var (b2, m2) := Withdraw(b1, linked, OcoCancel);
      (b2, m1 + m2)
    else
      Withdraw(b, id, AdminCancel)
  }

  function RegisterOco(b: Book, legA: Id, legB: Id): Book {
    b.(links := b.links[legA := legB][legB := legA])
  }

  // ---- Pre-checks ----------------------------------------------------------------

  /** The taker's limit admits this price; an order without a limit admits any. */
  predicate Admits(taker: Order, price: int) {
    taker.price.Some? ==>
      if taker.side == Buy then price <= taker.price.value else price >= taker.price.value
  }

  /** Everything left on the orders the taker's limit reaches, hidden slices included. */
  function Eligible(s: seq<Order>, taker: Order): int {
    if s == [] || !Admits(taker, s[0].price.Or(0)) then 0
    else s[0].remaining + Eligible(s[1..], taker)
  }

  predicate CanFullyFill(b: Book, taker: Order) {
    Eligible(b.Resting(taker.side.Opposite()), taker) >= taker.remaining
  }

  predicate WouldCross(b: Book, taker: Order) {
    var opp := b.Resting(taker.side.Opposite());
    taker.price.Some? && opp != [] && Admits(taker, opp[0].price.Or(0))
  }

  /** A fill-or-kill or post-only order is refused before anything changes. */
  function Refusal(b: Book, taker: Order): Option<CancelReason> {
    if taker.kind == Fok && !CanFullyFill(b, taker) then Some(FokUnfilled)
    else if taker.kind == PostOnly && WouldCross(b, taker) then Some(PostOnlyCrossed)
    else None
  }

  // ---- One matching run ----------------------------------------------------------

  /** A run in progress. A taker consumed by self-trade prevention is `dead`. */
  datatype Run = Run(book: Book, taker: Order, moves: seq<Move>, last: Option<int>, dead: bool) {
    function Opposing(): seq<Order> {
      book.Resting(taker.side.Opposite())
    }

    predicate Active() {
      && !dead && 0 < taker.remaining
      && Opposing() != [] && Admits(taker, Opposing()[0].price.Or(0))
    }
  }

  /** The taker meets the front order of the best level. */
  function Step(r: Run): Run
    requires r.Active()
  {
    if r.Opposing()[0].user == r.taker.user then PreventSelfTrade(r) else TradeStep(r)
  }

  function TradeStep(r: Run): Run
    requires r.Active()
  {
    var side, maker, rest := r.taker.side.Opposite(), r.Opposing()[0], r.Opposing()[1..];
    var price, qty := maker.price.Or(0), Min(r.taker.remaining, maker.Effective());
    var moves := r.moves + [Trade(Fill(r.taker.id, maker.id, price, qty, r.taker.side))];
    var taker := r.taker.(remaining := r.taker.remaining - qty);
    var left := maker.(remaining := maker.remaining - qty);
    if left.remaining == 0 then
      var (book, cancels) := CancelLinked(r.book.WithResting(side, rest), maker.id);
      Run(book, taker, moves + cancels, Some(price), false)
    else if maker.displayQty.Some? && qty == maker.Effective() then
      // The shown slice is used up: the order goes to the back of its level.
      Run(r.book.WithResting(side, Insert(ShelfOf(side), rest, left)), taker, moves, Some(price), false)
    else
      Run(r.book.WithResting(side, [left] + rest), taker, moves, Some(price), false)
  }

  /** The taker's own mode decides what happens when it would meet its owner's order. */
  function PreventSelfTrade(r: Run): Run
    requires r.Active()
  {
    var side, maker, rest := r.taker.side.Opposite(), r.Opposing()[0], r.Opposing()[1..];
    match r.taker.stpMode
    case CancelTaker =>
      r.(taker := r.taker.(remaining := 0), dead := true,
         moves := r.moves + [Void(r.taker.id, r.taker.remaining, SelfTradePrevented, Incoming)])
    case CancelMaker =>
      r.(book := r.book.WithResting(side, rest),
         moves := r.moves + [Void(maker.id, maker.remaining, SelfTradePrevented, Booked)])
    case Decrement => DecrementBoth(r)
  }

  /** The smaller order is cancelled and its size comes off the larger one. */
  function DecrementBoth(r: Run): Run
    requires r.Active()
  {
    var side, maker, rest := r.taker.side.Opposite(), r.Opposing()[0], r.Opposing()[1..];
    var voidTaker := Void(r.taker.id, r.taker.remaining, SelfTradePrevented, Incoming);
    var voidMaker := Void(maker.id, maker.remaining, SelfTradePrevented, Booked);
    if r.taker.remaining < maker.remaining then
      var left := maker.(remaining := maker.remaining - r.taker.remaining);
      r.(book := r.book.WithResting(side, [left] + rest), taker := r.taker.(remaining := 0), dead := true,
         moves := r.moves + [voidTaker, Shrink(maker.id, r.taker.remaining)])
    else if r.taker.remaining > maker.remaining then
      r.(book := r.book.WithResting(side, rest),
         taker := r.taker.(remaining := r.taker.remaining - maker.remaining),
         moves := r.moves + [voidMaker, Shrink(r.taker.id, maker.remaining)])
    else
      r.(book := r.book.WithResting(side, rest), taker := r.taker.(remaining := 0), dead := true,
         moves := r.moves + [voidMaker, voidTaker])
  }

  /** Why an unfilled rest is cancelled, or `None` when it may rest. */
  function Disposal(kind: OrderType, hadFills: bool): Option<CancelReason> {
    match kind
    case Market => Some(NoLiquidity)
    case Ioc => Some(NoLiquidity)
    case Fok => Some(FokUnfilled)
    case PostOnly => if hadFills then Some(PostOnlyCrossed) else None
    case Limit => None
    case Iceberg => None
    case Oco => None
    case StopLimit => Some(AdminCancel)
    case StopMarket => Some(AdminCancel)
  }

  /** What becomes of the taker when the run has nothing left to match. */
  function Finish(r: Run): Run {
    if r.dead then r
    else if r.taker.remaining == 0 then Terminate(r, [])
    else
      match Disposal(r.taker.kind, r.last.Some?)
      case Some(reason) => Terminate(r, [Void(r.taker.id, r.taker.remaining, reason, Incoming)])
      case None => Settle(r)
  }

  /** The taker is filled or cancelled: the other leg of its OCO pair goes too. */
  function Terminate(r: Run, voids: seq<Move>): Run {
    var (book, cancels) := CancelLinked(r.book, r.taker.id);
    r.(book := book, taker := r.taker.(remaining := 0), moves := r.moves + voids + cancels)
  }

  /** The taker rests behind its price level; without a price it is announced but lost. */
  function Settle(r: Run): Run {
    var rested := Rest(r.taker.id, r.taker.remaining);
    if r.taker.price.None? then
      r.(taker := r.taker.(remaining := 0), moves := r.moves + [rested, Stray(r.taker.id, r.taker.remaining)])
    else
      var side := r.taker.side;
      r.(book := r.book.WithResting(side, Insert(ShelfOf(side), r.book.Resting(side), r.taker)),
         taker := r.taker.(remaining := 0), moves := r.moves + [rested])
  }

  // ---- Stops ---------------------------------------------------------------------

  predicate Triggers(o: Order, price: int) {
    if o.side == Buy then o.stopPrice.Or(0) <= price else o.stopPrice.Or(0) >= price
  }

  /** How many leading orders of an ascending list have a stop price of at most `price`. */
  function UpTo(s: seq<Order>, price: int): (n: nat)
    ensures n <= |s|
  {
    if s == [] || KeyOf(StopShelf, s[0]) > price then 0 else 1 + UpTo(s[1..], price)
  }

  function Activate(o: Order): Order {
    match o.kind
    case StopLimit => o.(kind := Limit)
    case StopMarket => o.(kind := Market)
    case _ => o
  }

  function ActivateAll(s: seq<Order>): (r: seq<Order>)
    ensures |r| == |s|
  {
    if s == [] then [] else [Activate(s[0])] + ActivateAll(s[1..])
  }

  /** Buy stops at or below the trade price, then sell stops at or above it. */
  function DueStops(buys: seq<Order>, sells: seq<Order>, price: int): seq<Order> {
    ActivateAll(buys[..UpTo(buys, price)]) + ActivateAll(sells[UpTo(sells, price - 1)..])
  }

  function LaterBuys(buys: seq<Order>, price: int): seq<Order> {
    buys[UpTo(buys, price)..]
  }

  function LaterSells(sells: seq<Order>, price: int): seq<Order> {
    sells[..UpTo(sells, price - 1)]
  }

  /** The activated stops that a trade price triggers, and the book without them. */
  function Due(b: Book, price: int): seq<Order> {
    DueStops(b.buyStops, b.sellStops, price)
  }

  function Undue(b: Book, price: int): Book {
    b.(buyStops := LaterBuys(b.buyStops, price), sellStops := LaterSells(b.sellStops, price))
  }

  function Park(b: Book, o: Order): (Book, seq<Move>) {
    if o.stopPrice.None?
    then (b, [Void(o.id, o.remaining, AdminCancel, Incoming)])
    else (b.WithStops(o.side, Insert(StopShelf, b.Stops(o.side), o)), [Rest(o.id, o.remaining)])
  }
}
