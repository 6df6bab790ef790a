/** Settlement of engine events into orders, trades, balances and ledger entries
  (services/settlement/src/settlement.rs). Amounts are reals: rounding to the columns' scale
  is left out. An event whose handler fails is rolled back, so the handlers are functions to
  an optional new state; the class `Worker` changes its tables in place and is proved to do
  what they say. */
module Settlement {
  import opened Orders
  import opened Ladder
  import opened Levels

  const BPS_DENOMINATOR := 10000.0

  type Asset = int

  datatype Market = Market(base: Asset, quote: Asset, makerFeeBps: real, takerFeeBps: real)

  type Markets = map<Symbol, Market>

  datatype Account = Account(user: UserId, asset: Asset)

  datatype Balance = Balance(available: real, locked: real)

  datatype Status = New | Partial | Filled | Canceled

  datatype OrderRow = OrderRow(
    user: UserId, market: Symbol, side: Side, quantity: Option<real>, price: Option<real>,
    filled: real, avgPrice: Option<real>, status: Status)

  datatype NewOrder = NewOrder(
    id: Id, user: UserId, symbol: Symbol, side: Side, price: Option<real>, quantity: real,
    stopPrice: Option<real>, displayQty: Option<real>)

  datatype TradeFill = TradeFill(
    tradeId: Id, takerId: Id, makerId: Id, price: real, quantity: real, takerSide: Side)

  datatype EngineEvent = Accepted(order: NewOrder) | Executed(fill: TradeFill) | CanceledOrder(id: Id) | Other

  datatype Kind = LockKind | UnlockKind | TradeKind | FeeKind

  datatype Reference = OrderReference(orderId: Id) | TradeReference(tradeId: Id)

  datatype Mutation = Mutation(
    account: Account, kind: Kind, amount: real, available: real, locked: real, reference: Reference, engineSeq: int)

  datatype Entry = Entry(
    account: Account, kind: Kind, amount: real, availableAfter: real, lockedAfter: real, reference: Reference, engineSeq: int)

  datatype Trade = Trade(market: Symbol, fill: TradeFill)

  /** The tables. A trade is stored under its engine sequence number. */
  datatype Db = Db(
    orders: map<Id, OrderRow>, trades: map<int, Trade>, balances: map<Account, Balance>, ledger: seq<Entry>)

  // ---- The ledger ----------------------------------------------------------------

  function Moved(b: Balance, m: Mutation): Balance {
    Balance(b.available + m.available, b.locked + m.locked)
  }

  function EntryOf(b: Balance, m: Mutation): Entry {
    Entry(m.account, m.kind, m.amount, Moved(b, m).available, Moved(b, m).locked, m.reference, m.engineSeq)
  }

  /** `apply_ledger`: the balance row must exist, and the table constraints must allow what
    becomes of it. */
  function Post(s: Db, m: Mutation): Option<Db> {
    if m.account !in s.balances then None
    else
      var b := s.balances[m.account];
      var after := Moved(b, m);
      if after.available < 0.0 || after.locked < 0.0 || m.engineSeq <= 0 then None
      else Some(s.(balances := s.balances[m.account := after], ledger := s.ledger + [EntryOf(b, m)]))
  }

  function PostAll(s: Db, ms: seq<Mutation>): Option<Db>
    decreases |ms|
  {
    if ms == [] then Some(s)
    else
      match Post(s, ms[0])
      case None => None
      case Some(t) => PostAll(t, ms[1..])
  }

  // ---- Accepting an order --------------------------------------------------------

  /** What an accepted order locks, and of which asset. */
  function LockObligation(o: NewOrder, market: Market): (Asset, real) {
    match o.side
    case Buy => (market.quote, if o.price.Some? then o.price.value * o.quantity else 0.0)
    case Sell => (market.base, o.quantity)
  }

  /** The constraints of the orders table on a new row. */
  predicate RowAllowed(o: NewOrder) {
    && 0.0 < o.quantity
    && (o.price.Some? ==> 0.0 < o.price.value)
    && (o.stopPrice.Some? ==> 0.0 < o.stopPrice.value)
    && (o.displayQty.Some? ==> 0.0 < o.displayQty.value)
  }

  function NewRow(o: NewOrder): OrderRow {
    OrderRow(o.user, o.symbol, o.side, Some(o.quantity), o.price, 0.0, None, New)
  }

  function LockOf(o: NewOrder, market: Market, engineSeq: int): Mutation {
    var (asset, obligation) := LockObligation(o, market);
    Mutation(Account(o.user, asset), LockKind, 0.0, -obligation, obligation, OrderReference(o.id), engineSeq)
  }

  function SettleOrderAccepted(s: Db, markets: Markets, engineSeq: int, o: NewOrder): Option<Db> {
    if o.symbol !in markets || !RowAllowed(o) then None
    else if o.id in s.orders then Some(s)
    else
      var t := s.(orders := s.orders[o.id := NewRow(o)]);
      if LockObligation(o, markets[o.symbol]).1 > 0.0 then Post(t, LockOf(o, markets[o.symbol], engineSeq)) else Some(t)
  }

  // ---- Settling a fill -----------------------------------------------------------

  function FeeAmount(gross: real, bps: real): real {
    gross * bps / BPS_DENOMINATOR
  }

  function Notional(f: TradeFill): real {
    f.price * f.quantity
  }

  /** The six ledger mutations of a fill: the taker's fee rate is charged to the buyer, in the
    base asset, and the maker's to the seller, in the quote asset. */
  function FillMutations(engineSeq: int, f: TradeFill, taker: OrderRow, maker: OrderRow, markets: Markets): seq<Mutation>
    requires taker.market in markets && maker.market in markets
  {
    var notional := Notional(f);
    var takerFee := FeeAmount(f.quantity, markets[taker.market].takerFeeBps);
    var makerFee := FeeAmount(notional, markets[maker.market].makerFeeBps);
    var buyer := if f.takerSide == Buy then taker else maker;
    var seller := if f.takerSide == Buy then maker else taker;
    var buys, sells := markets[buyer.market], markets[seller.market];
    var reference := TradeReference(f.tradeId);
    [
      Mutation(Account(buyer.user, buys.base), TradeKind, f.quantity, f.quantity, 0.0, reference, engineSeq),
      Mutation(Account(buyer.user, buys.base), FeeKind, -takerFee, -takerFee, 0.0, reference, engineSeq),
      Mutation(Account(buyer.user, buys.quote), TradeKind, -notional, 0.0, -notional, reference, engineSeq),
      Mutation(Account(seller.user, sells.quote), TradeKind, notional, notional, 0.0, reference, engineSeq),
      Mutation(Account(seller.user, sells.quote), FeeKind, -makerFee, -makerFee, 0.0, reference, engineSeq),
      Mutation(Account(seller.user, sells.base), TradeKind, -f.quantity, 0.0, -f.quantity, reference, engineSeq)
    ]
  }

  /** The mean price of `filled` at `avg` and `quantity` at `price`. */
  function Mean(avg: real, filled: real, price: real, quantity: real): real
    requires filled + quantity != 0.0
  {
    (avg * filled + price * quantity) / (filled + quantity)
  }

  /** The row after a fill: the average price is the mean over all its fills. A total of zero
    has no mean, and the table takes neither a negative total nor a negative average. */
  function RowFilled(row: OrderRow, price: real, quantity: real): Option<OrderRow> {
    var filled := row.filled + quantity;
    if filled <= 0.0 then None
    else
      var avg := Mean(row.avgPrice.Or(0.0), row.filled, price, quantity);
      if avg < 0.0 then None
      else
        Some(row.(filled := filled, avgPrice := Some(avg),
                  status := if row.quantity.Some? && filled >= row.quantity.value then Status.Filled else Partial))
  }

  function SettleFill(s: Db, markets: Markets, engineSeq: int, f: TradeFill): Option<Db> {
    if engineSeq in s.trades then Some(s)
    else if f.takerId !in s.orders || s.orders[f.takerId].market !in markets then None
    else if f.makerId !in s.orders || s.orders[f.makerId].market !in markets then None
    else if engineSeq <= 0 || f.price <= 0.0 || f.quantity <= 0.0 then None
    else
      var taker, maker := s.orders[f.takerId], s.orders[f.makerId];
      var t := s.(trades := s.trades[engineSeq := Trade(taker.market, f)]);
      match PostAll(t, FillMutations(engineSeq, f, taker, maker, markets))
      case None => None
      case Some(u) =>
        var taken, made := RowFilled(taker, f.price, f.quantity), RowFilled(maker, f.price, f.quantity);
        if taken.None? || made.None? then None
        else Some(u.(orders := u.orders[f.takerId := taken.value][f.makerId := made.value]))
  }

  // ---- Settling a cancel ---------------------------------------------------------

  predicate Open(status: Status) {
    status == New || status == Partial
  }

  function Remaining(row: OrderRow): real {
    if row.quantity.Some? then row.quantity.value - row.filled else 0.0
  }

  /** What a cancel releases. */
  function Obligation(row: OrderRow): real {
    if row.side == Buy then (if row.price.Some? then row.price.value * Remaining(row) else 0.0) else Remaining(row)
  }

  function LockAsset(row: OrderRow, market: Market): Asset {
    if row.side == Buy then market.quote else market.base
  }

  function UnlockOf(id: Id, row: OrderRow, market: Market, engineSeq: int): Mutation {
    Mutation(Account(row.user, LockAsset(row, market)), UnlockKind, 0.0, Obligation(row), -Obligation(row),
             OrderReference(id), engineSeq)
  }

  function SettleCancel(s: Db, markets: Markets, engineSeq: int, id: Id): Option<Db> {
    if id !in s.orders || s.orders[id].market !in markets then None
    else
      var row := s.orders[id];
      if !Open(row.status) then Some(s)
      else
        match if Obligation(row) > 0.0 then Post(s, UnlockOf(id, row, markets[row.market], engineSeq)) else Some(s)
        case None => None
        case Some(t) => Some(t.(orders := t.orders[id := row.(status := Canceled)]))
  }

  // ---- Events --------------------------------------------------------------------

  /** The tables after an event, or `None` if its handler fails. */
  function Settle(s: Db, markets: Markets, engineSeq: int, e: EngineEvent): Option<Db> {
    match e
    case Accepted(o) => SettleOrderAccepted(s, markets, engineSeq, o)
    case Executed(f) => SettleFill(s, markets, engineSeq, f)
    case CanceledOrder(id) => SettleCancel(s, markets, engineSeq, id)
    case Other => Some(s)
  }

  datatype Stored = Stored(engineSeq: int, event: EngineEvent)

  /** The tables after a run of events, repeated ones included; a failing event is rolled back. */
  function SettleRun(s: Db, markets: Markets, run: seq<Stored>): Db {
    if run == [] then s
    else
      var t, last := SettleRun(s, markets, run[..|run| - 1]), run[|run| - 1];
      Settle(t, markets, last.engineSeq, last.event).Or(t)
  }

  /** The worker takes unprocessed events in the order of their sequence numbers and stops at
    the first that fails. */
  function Drain(s: Db, markets: Markets, pending: map<int, EngineEvent>): (Db, map<int, EngineEvent>)
    decreases |pending.Keys|
  {
    if pending.Keys == {} then (s, pending)
    else
      var first := BestKey(StopShelf, pending.Keys);
      match Settle(s, markets, first, pending[first])
      case None => (s, pending)
      case Some(t) => DropKey(pending, first); Drain(t, markets, pending - {first})
  }

  lemma DropKey(pending: map<int, EngineEvent>, key: int)
    requires key in pending
    ensures |(pending - {key}).Keys| < |pending.Keys|
  {
    assert (pending - {key}).Keys == pending.Keys - {key};
  }

  // ---- The worker ----------------------------------------------------------------

  datatype Outcome = Idle | Processed | Failed

  /** The settlement worker over its tables, which it changes step by step. */
  class Worker {
    const markets: Markets
    var orders: map<Id, OrderRow>
    var trades: map<int, Trade>
    var balances: map<Account, Balance>
    var ledger: seq<Entry>
    var pending: map<int, EngineEvent>

    constructor (markets: Markets, balances: map<Account, Balance>)
      ensures this.markets == markets && pending == map[] && Value() == Db(map[], map[], balances, [])
    {
      this.markets := markets;
      this.balances := balances;
      orders, trades, ledger, pending := map[], map[], [], map[];
    }

    function Value(): Db
      reads this
    {
      Db(orders, trades, balances, ledger)
    }

    method ApplyLedger(m: Mutation) returns (ok: bool)
      modifies this`balances, this`ledger
      ensures Post(old(Value()), m) == if ok then Some(Value()) else None
    {
      if m.account !in balances || m.engineSeq <= 0 {
        return false;
      }
      var available := balances[m.account].available + m.available;
      var locked := balances[m.account].locked + m.locked;
      if available < 0.0 || locked < 0.0 {
        return false;
      }
      balances := balances[m.account := Balance(available, locked)];
      ledger := ledger + [Entry(m.account, m.kind, m.amount, available, locked, m.reference, m.engineSeq)];
      return true;
    }

    method AcceptOrder(engineSeq: int, o: NewOrder) returns (ok: bool)
      modifies this`orders, this`balances, this`ledger
      ensures SettleOrderAccepted(old(Value()), markets, engineSeq, o) == if ok then Some(Value()) else None
    {
      if o.symbol !in markets || !RowAllowed(o) {
        return false;
      }
      if o.id in orders {
        return true;
      }
      orders := orders[o.id := NewRow(o)];
      var (asset, obligation) := LockObligation(o, markets[o.symbol]);
      if obligation > 0.0 {
        ok := ApplyLedger(
          Mutation(Account(o.user, asset), LockKind, 0.0, -obligation, obligation, OrderReference(o.id), engineSeq));
        return;
      }
      return true;
    }

    method ApplyFillLedger(engineSeq: int, f: TradeFill, taker: OrderRow, maker: OrderRow) returns (ok: bool)
      requires taker.market in markets && maker.market in markets
      modifies this`balances, this`ledger
      ensures PostAll(old(Value()), FillMutations(engineSeq, f, taker, maker, markets)) == if ok then Some(Value()) else None
    {
      hide Post, PostAll, Notional, FeeAmount;
      ghost var all := FillMutations(engineSeq, f, taker, maker, markets);
      var notional := Notional(f);
      var takerFee := FeeAmount(f.quantity, markets[taker.market].takerFeeBps);
      var makerFee := FeeAmount(notional, markets[maker.market].makerFeeBps);
      var buyer, seller := taker, maker;
      if f.takerSide == Sell {
        buyer, seller := maker, taker;
      }
      var buys, sells, reference := markets[buyer.market], markets[seller.market], TradeReference(f.tradeId);
      assert all[0..] == all;
      PostNext(Value(), all, 0);
      ok := ApplyLedger(Mutation(Account(buyer.user, buys.base), TradeKind, f.quantity, f.quantity, 0.0, reference, engineSeq));
      if !ok { return; }
      PostNext(Value(), all, 1);
      ok := ApplyLedger(Mutation(Account(buyer.user, buys.base), FeeKind, -takerFee, -takerFee, 0.0, reference, engineSeq));
      if !ok { return; }
      PostNext(Value(), all, 2);
      ok := ApplyLedger(Mutation(Account(buyer.user, buys.quote), TradeKind, -notional, 0.0, -notional, reference, engineSeq));
      if !ok { return; }
      PostNext(Value(), all, 3);
      ok := ApplyLedger(Mutation(Account(seller.user, sells.quote), TradeKind, notional, notional, 0.0, reference, engineSeq));
      if !ok { return; }
      PostNext(Value(), all, 4);
      ok := ApplyLedger(Mutation(Account(seller.user, sells.quote), FeeKind, -makerFee, -makerFee, 0.0, reference, engineSeq));
      if !ok { return; }
      PostNext(Value(), all, 5);
      ok := ApplyLedger(Mutation(Account(seller.user, sells.base), TradeKind, -f.quantity, 0.0, -f.quantity, reference, engineSeq));
      if !ok { return; }
      PostNone(Value(), all[6..]);
    }

    /** Writes the fill to a row fetched before the ledger changed. */
    method UpdateOrderFill(id: Id, row: OrderRow, price: real, quantity: real) returns (ok: bool)
      modifies this`orders
      ensures ok == RowFilled(row, price, quantity).Some?
      ensures ok ==> orders == old(orders)[id := RowFilled(row, price, quantity).value]
    {
      hide Mean;
      var filled := row.filled + quantity;
      if filled <= 0.0 {
        return false;
      }
      var avg := Mean(row.avgPrice.Or(0.0), row.filled, price, quantity);
      if avg < 0.0 {
        return false;
      }
      var status := Partial;
      if row.quantity.Some? && filled >= row.quantity.value {
        status := Status.Filled;
      }
      orders := orders[id := row.(filled := filled, avgPrice := Some(avg), status := status)];
      return true;
    }

    method ExecuteFill(engineSeq: int, f: TradeFill) returns (ok: bool)
      modifies this`orders, this`trades, this`balances, this`ledger
      ensures SettleFill(old(Value()), markets, engineSeq, f) == if ok then Some(Value()) else None
    {
      hide PostAll, FillMutations, RowFilled;
      if engineSeq in trades {
        return true;
      }
      if f.takerId !in orders || orders[f.takerId].market !in markets {
        return false;
      }
      if f.makerId !in orders || orders[f.makerId].market !in markets {
        return false;
      }
      var taker, maker := orders[f.takerId], orders[f.makerId];
      if engineSeq <= 0 || f.price <= 0.0 || f.quantity <= 0.0 {
        return false;
      }
      trades := trades[engineSeq := Trade(taker.market, f)];
      ok := ApplyFillLedger(engineSeq, f, taker, maker);
      if !ok { return; }
      ok := UpdateOrderFill(f.takerId, taker, f.price, f.quantity);
      if !ok { return; }
      ok := UpdateOrderFill(f.makerId, maker, f.price, f.quantity);
    }

    method CancelSettled(engineSeq: int, id: Id) returns (ok: bool)
      modifies this`orders, this`balances, this`ledger
      ensures SettleCancel(old(Value()), markets, engineSeq, id) == if ok then Some(Value()) else None
    {
      hide Post;
      if id !in orders || orders[id].market !in markets {
        return false;
      }
      var row := orders[id];
      if row.status == Canceled || row.status == Status.Filled {
        return true;
      }
      var remaining := if row.quantity.Some? then row.quantity.value - row.filled else 0.0;
      var obligation := remaining;
      if row.side == Buy {
        obligation := if row.price.Some? then row.price.value * remaining else 0.0;
      }
      if obligation > 0.0 {
        var asset := if row.side == Buy then markets[row.market].quote else markets[row.market].base;
        ok := ApplyLedger(
          Mutation(Account(row.user, asset), UnlockKind, 0.0, obligation, -obligation, OrderReference(id), engineSeq));
        if !ok { return; }
      }
      orders := orders[id := row.(status := Canceled)];
      return true;
    }

    /** One event in a transaction: it commits only if the handler succeeds. */
    method ProcessNext() returns (outcome: Outcome)
      modifies this
      ensures
        if old(pending.Keys) == {} then outcome == Idle && Value() == old(Value()) && pending == old(pending)
        else
          var first := BestKey(StopShelf, old(pending).Keys);
          match Settle(old(Value()), markets, first, old(pending)[first])
          case None => outcome == Failed && Value() == old(Value()) && pending == old(pending)
          case Some(t) => outcome == Processed && Value() == t && pending == old(pending) - {first}
    {
      hide SettleOrderAccepted, SettleFill, SettleCancel, BestKey;
      if pending.Keys == {} {
        return Idle;
      }
      var begun := Value();
      var first := BestKey(StopShelf, pending.Keys);
      var ok;
      match pending[first] {
        case Accepted(o) => ok := AcceptOrder(first, o);
        case Executed(f) => ok := ExecuteFill(first, f);
        case CanceledOrder(id) => ok := CancelSettled(first, id);
        case Other => ok := true;
      }
      if !ok {
        orders, trades, balances, ledger := begun.orders, begun.trades, begun.balances, begun.ledger;
        return Failed;
      }
      pending := pending - {first};
      return Processed;
    }

    method ProcessAvailable() returns (processed: nat, failed: bool)
      modifies this
      ensures (Value(), pending) == Drain(old(Value()), markets, old(pending))
      ensures !failed <==> pending.Keys == {}
      ensures processed == |old(pending).Keys| - |pending.Keys|
    {
      hide Settle, BestKey;
      processed := 0;
      ghost var goal := Drain(Value(), markets, pending);
      ghost var count := |pending.Keys|;
      while true
        invariant Drain(Value(), markets, pending) == goal
        invariant processed == count - |pending.Keys|
        decreases |pending.Keys|
      {
        ghost var before := pending;
        var outcome := ProcessNext();
        match outcome {
          case Idle => return processed, false;
          case Failed => return processed, true;
          case Processed =>
            Dropped(before, pending);
            processed := processed + 1;
        }
      }
    }
  }

  lemma PostNext(s: Db, ms: seq<Mutation>, i: nat)
    requires i < |ms|
    ensures PostAll(s, ms[i..]) ==
      match Post(s, ms[i]) { case None => None case Some(t) => PostAll(t, ms[i + 1..]) }
  {
    assert ms[i..][0] == ms[i] && ms[i..][1..] == ms[i + 1..];
  }

  lemma PostNone(s: Db, ms: seq<Mutation>)
    requires ms == []
    ensures PostAll(s, ms) == Some(s)
  {
  }

  lemma Dropped(before: map<int, EngineEvent>, after: map<int, EngineEvent>)
    requires before.Keys != {} && after == before - {BestKey(StopShelf, before.Keys)}
    ensures |after.Keys| == |before.Keys| - 1
  {
    assert after.Keys == before.Keys - {BestKey(StopShelf, before.Keys)};
  }
}
