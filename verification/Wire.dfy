/** Orders as they arrive at the engine server, and their validation
  (engine/crates/server/src/wire.rs). */
module Wire {
  import opened Orders
  import opened Ladder
  import opened Matcher
  import opened BookInvariants
  import opened Cascade
  import opened StopOrders

  datatype WireOrder = WireOrder(
    id: Id, user: UserId, symbol: Symbol, side: Side, kind: OrderType, price: Option<int>, quantity: int,
    stpMode: StpMode, stopPrice: Option<int>, ocoLinkedId: Option<Id>, displayQty: Option<int>)

  datatype RejectCode =
    MarketUnknown | MinNotional | TickSize | StopPriceInvalid | MarketHalted | OrderNotFound | FokNotFilled | PostOnlyRejected

  /** Unicode white space. */
  predicate IsSpace(c: char) {
    var n := c as int;
    || 0x9 <= n <= 0xD || n in {0x20, 0x85, 0xA0, 0x1680, 0x2028, 0x2029, 0x202F, 0x205F, 0x3000}
    || 0x2000 <= n <= 0x200A
  }

  predicate IsBlank(s: string) {
    forall c :: c in s ==> IsSpace(c)
  }

  predicate RequiresPrice(kind: OrderType) {
    kind in {Limit, Ioc, Fok, PostOnly, StopLimit, Oco, Iceberg}
  }

  predicate Missing(value: Option<int>) {
    value.None? || value.value <= 0
  }

  /** Why an order is refused before it reaches the log, if it is. */
  function Validate(w: WireOrder): Option<RejectCode> {
    if IsBlank(w.symbol) then Some(MarketUnknown)
    else if w.quantity <= 0 then Some(MinNotional)
    else if RequiresPrice(w.kind) && Missing(w.price) then Some(TickSize)
    else if w.kind.IsStop() && Missing(w.stopPrice) then Some(StopPriceInvalid)
    else if w.kind == Iceberg && (Missing(w.displayQty) || w.displayQty.value >= w.quantity) then Some(MinNotional)
    else None
  }

  function ToCore(w: WireOrder): Order {
    Order(w.id, w.user, w.symbol, w.side, w.kind, w.price, w.quantity, w.quantity, w.stpMode, w.stopPrice,
          w.ocoLinkedId, w.displayQty)
  }

  /** The reject that an order's own cancellation stands for. */
  function CodeOf(reason: CancelReason): Option<RejectCode> {
    match reason
    case FokUnfilled => Some(FokNotFilled)
    case PostOnlyCrossed => Some(PostOnlyRejected)
    case _ => None
  }

  /** `immediate_pre_reject`: the first of the order's own cancellations that is a reject. */
  function PreReject(id: Id, events: seq<Event>): Option<RejectCode> {
    if events == [] then None
    else if events[0].Cancelled? && events[0].cancelledId == id && CodeOf(events[0].reason).Some?
    then CodeOf(events[0].reason)
    else PreReject(id, events[1..])
  }

  lemma {:induction false} PreRejectIsThere(id: Id, events: seq<Event>)
    requires PreReject(id, events).Some?
    ensures exists e :: e in events && e.Cancelled? && e.cancelledId == id && CodeOf(e.reason).Some?
  {
    if events[0].Cancelled? && events[0].cancelledId == id && CodeOf(events[0].reason).Some? {
      assert events[0] in events;
    } else {
      PreRejectIsThere(id, events[1..]);
    }
  }

  lemma {:induction false} EventHasMove(moves: seq<Move>, e: Event) returns (m: Move)
    requires e in EventsOf(moves)
    ensures m in moves && EventOf(m) == [e]
  {
    m := moves[|moves| - 1];
    if e !in EventOf(m) { m := EventHasMove(moves[..|moves| - 1], e); }
  }

  // ---- Validated orders have the prices they need --------------------------------

  /** An order that can rest, now or once triggered, has a price. */
  predicate Priced(o: Order) {
    (MayRest(o.kind) || o.kind == StopLimit) ==> o.price.Some?
  }

  /** Validation leaves one thing unchecked that the matcher relies on: a display size given
    with an order that is not an iceberg may be zero or negative. */
  lemma ValidatedIsReady(w: WireOrder)
    requires Validate(w).None?
    ensures Priced(ToCore(w)) && (w.kind.IsStop() ==> w.stopPrice.Some?)
    ensures ToCore(w).Ready() <==> (w.displayQty.Some? ==> 0 < w.displayQty.value)
  {
  }

  ghost predicate AllPriced(s: seq<Order>) {
    forall o :: o in s ==> Priced(o)
  }

  ghost predicate StopsPriced(b: Book) {
    AllPriced(b.buyStops) && AllPriced(b.sellStops)
  }

  ghost predicate NoStrays(moves: seq<Move>) {
    forall m :: m in moves ==> !m.Stray?
  }

  lemma StepNoStrays(r: Run)
    requires r.Active() && NoStrays(r.moves)
    ensures NoStrays(Step(r).moves)
  {
    var popped := r.book.WithResting(r.taker.side.Opposite(), r.Opposing()[1..]);
    assert NoStrays(CancelLinked(popped, r.Opposing()[0].id).1);
    hide CancelLinked, Insert;
  }

  lemma {:induction false} LoopNoStrays(r: Run, queue: seq<Order>)
    requires Live(r, queue) && NoStrays(r.moves)
    ensures NoStrays(Loop(r, queue).moves)
    ensures var q := Loop(r, queue); q.taker == r.taker.(remaining := q.taker.remaining)
    decreases r.taker.remaining, |r.Opposing()|
  {
    if r.Active() {
      StepNoStrays(r);
      StepKeeps(r, queue);
      StepShrinks(r);
      LoopNoStrays(Step(r), queue);
    }
  }

  lemma FinishNoStrays(r: Run)
    requires NoStrays(r.moves) && Priced(r.taker)
    ensures NoStrays(Finish(r).moves)
  {
    assert NoStrays(CancelLinked(r.book, r.taker.id).1);
    hide CancelLinked, Insert;
  }

  lemma FewerPriced(c: Book, b: Book)
    requires FewerStops(c, b) && StopsPriced(b)
    ensures StopsPriced(c)
  {
  }

  lemma DuePriced(b: Book, price: int)
    requires StopsPriced(b)
    ensures StopsPriced(Undue(b, price)) && AllPriced(Due(b, price))
  {
    ActivatePriced(b.buyStops[..UpTo(b.buyStops, price)], b.buyStops);
    ActivatePriced(b.sellStops[UpTo(b.sellStops, price - 1)..], b.sellStops);
  }

  lemma ActivatePriced(t: seq<Order>, s: seq<Order>)
    requires AllPriced(s) && forall o :: o in t ==> o in s
    ensures AllPriced(ActivateAll(t))
  {
    forall i | 0 <= i < |t| ensures Priced(ActivateAll(t)[i]) {
      ActivateAllAt(t, i);
      assert t[i] in t;
    }
  }

  lemma {:induction false} MarkersNoStrays(s: seq<Order>)
    ensures NoStrays(Triggered(s)) && NoStrays(Dropped(s))
  {
    if s != [] { MarkersNoStrays(s[..|s| - 1]); }
  }

  ghost predicate WorkPriced(w: Work) {
    StopsPriced(w.book) && AllPriced(w.queue) && NoStrays(w.moves)
  }

  lemma RunOnePriced(w: Work)
    requires WorkOk(w) && w.queue != [] && WorkPriced(w)
    ensures StopsPriced(RunOne(w).book) && NoStrays(RunOne(w).moves)
  {
    var others, taker := w.queue[..|w.queue| - 1], w.queue[|w.queue| - 1];
    PopQueue(w.book, w.queue);
    assert taker in w.queue;
    var r0 := Run(w.book, taker, w.moves, None, false);
    var q := Loop(r0, others);
    LoopNoStrays(r0, others);
    LoopFewer(r0, others);
    FinishNoStrays(q);
    FinishFewer(q);
    hide Loop, Finish, Distinct, Shaped, NoStrays;
    FewerPriced(q.book, w.book);
    FewerPriced(Finish(q).book, q.book);
  }

  lemma NoStraysConcat(a: seq<Move>, b: seq<Move>)
    requires NoStrays(a) && NoStrays(b)
    ensures NoStrays(a + b)
  {
  }

  lemma CheckPriced(b: Book, price: int, others: seq<Order>, moves: seq<Move>, depth: nat)
    requires StopsPriced(b) && AllPriced(others) && NoStrays(moves)
    ensures WorkPriced(CheckStops(b, price, others, moves, depth))
  {
    var due := Due(b, price);
    var n := if depth < MAX_STOP_CHAIN_DEPTH then |due| else 0;
    DuePriced(b, price);
    MarkersNoStrays(due);
    NoStraysConcat(moves, [RunEnd(Some(price), n)]);
    hide Due, Undue, Triggered, Dropped, NoStrays;
    NoStraysConcat(moves + [RunEnd(Some(price), n)], Triggered(due));
    NoStraysConcat(moves + [RunEnd(Some(price), n)], Dropped(due));
  }

  lemma TurnPriced(w: Work)
    requires WorkOk(w) && w.queue != [] && WorkPriced(w)
    ensures WorkPriced(Turn(w))
  {
    var others, r := w.queue[..|w.queue| - 1], RunOne(w);
    assert forall o :: o in others ==> o in w.queue;
    RunOnePriced(w);
    NoStraysConcat(r.moves, [RunEnd(None, 0)]);
    hide RunOne, CheckStops, Distinct, Shaped, NoStrays;
    if r.last.Some? { CheckPriced(r.book, r.last.value, others, r.moves, w.depth); }
  }

  lemma {:induction false} RunAllPriced(w: Work)
    requires WorkOk(w) && WorkPriced(w)
    ensures WorkPriced(RunAll(w))
    decreases |w.queue| + w.book.WaitingCount()
  {
    if w.queue != [] {
      TurnPriced(w);
      RunAllPriced(Turn(w));
    }
  }

  /** Priced orders are never announced as resting without being kept. */
  lemma SubmitPriced(b: Book, o: Order)
    requires Valid(b) && Fresh(b, o) && StopsPriced(b) && Priced(o)
    ensures StopsPriced(Submit(b, o).0) && NoStrays(Submit(b, o).1)
  {
    if Refusal(b, o).Some? {
    } else if o.kind.IsStop() {
      InsertMembers(StopShelf, b.Stops(o.side), o);
    } else {
      RunAllPriced(Start(b, o));
    }
  }

  lemma CancelPriced(b: Book, id: Id)
    requires StopsPriced(b)
    ensures StopsPriced(CancelOrder(b, id).0)
  {
    if id in b.links {
      var b0 := b.(links := b.links - {id, b.links[id]});
      WithdrawWithin(b0, id, AdminCancel);
      FewerPriced(Withdraw(b0, id, AdminCancel).0, b0);
      WithdrawWithin(Withdraw(b0, id, AdminCancel).0, b.links[id], OcoCancel);
      FewerPriced(CancelOrder(b, id).0, Withdraw(b0, id, AdminCancel).0);
    } else {
      WithdrawWithin(b, id, AdminCancel);
      FewerPriced(CancelOrder(b, id).0, b);
    }
  }
}
