/** Locked funds over runs of events as an engine produces them: what is locked is the open
  obligations plus the price improvement of buy fills, which settlement never unlocks. */
module Locks {
  import opened Orders
  import opened Sums
  import opened Settlement
  import opened Accounts

  // ---- What an engine guarantees -------------------------------------------------

  function BuyerOf(s: Db, f: TradeFill): OrderRow
    requires f.takerId in s.orders && f.makerId in s.orders
  {
    if f.takerSide == Buy then s.orders[f.takerId] else s.orders[f.makerId]
  }

  /** A fill between two open orders of one market on opposite sides, within what is left of
    both and within the buyer's limit. */
  predicate FillFits(s: Db, f: TradeFill) {
    && f.takerId in s.orders && f.makerId in s.orders && f.takerId != f.makerId
    && var taker, maker := s.orders[f.takerId], s.orders[f.makerId];
    && Open(taker.status) && Open(maker.status) && taker.market == maker.market
    && taker.side == f.takerSide && maker.side == f.takerSide.Opposite()
    && 0.0 < f.quantity <= Remaining(taker) && f.quantity <= Remaining(maker)
    && 0.0 < f.price <= BuyerOf(s, f).price.Or(0.0)
  }

  /** The event is news that an engine could bring, or was settled before. A buy order has a
    price: what a market buy locks is left out. */
  predicate Consistent(s: Db, engineSeq: int, e: EngineEvent) {
    match e
    case Accepted(o) => o.id in s.orders || (o.side == Buy ==> o.price.Some?)
    case Executed(f) => engineSeq in s.trades || FillFits(s, f)
    case CanceledOrder(_) => true
    case Other => true
  }

  predicate ConsistentRun(s: Db, markets: Markets, run: seq<Stored>) {
    run == [] ||
    (ConsistentRun(s, markets, run[..|run| - 1]) &&
     Consistent(SettleRun(s, markets, run[..|run| - 1]), run[|run| - 1].engineSeq, run[|run| - 1].event))
  }

  /** Balances before any order: nothing is negative. */
  predicate Opening(s: Db, markets: Markets) {
    && s.orders == map[] && s.trades == map[]
    && (forall k :: k in s.balances ==> 0.0 <= s.balances[k].available && 0.0 <= s.balances[k].locked)
    && (forall m :: m in markets ==> markets[m].base != markets[m].quote
                                     && 0.0 <= markets[m].takerFeeBps && 0.0 <= markets[m].makerFeeBps)
  }

  // ---- Obligations and improvement -----------------------------------------------

  /** What an open order still owes. */
  function Owed(row: OrderRow): real {
    if Open(row.status) then Obligation(row) else 0.0
  }

  /** By how much a buy order's fills came cheaper than its limit. */
  function Improved(row: OrderRow): real {
    if row.side == Buy then row.price.Or(0.0) * row.filled - row.avgPrice.Or(0.0) * row.filled else 0.0
  }

  predicate LocksIn(row: OrderRow, markets: Markets, k: Account) {
    row.market in markets && LockAccount(row, markets) == k
  }

  function OwedIn(orders: map<Id, OrderRow>, markets: Markets, k: Account): Id -> real {
    (id: Id) => if id in orders && LocksIn(orders[id], markets, k) then Owed(orders[id]) else 0.0
  }

  function ImprovedIn(orders: map<Id, OrderRow>, markets: Markets, k: Account): Id -> real {
    (id: Id) => if id in orders && LocksIn(orders[id], markets, k) then Improved(orders[id]) else 0.0
  }

  /** What the orders keep locked in an account. */
  ghost function Held(s: Db, markets: Markets, k: Account): real {
    Over(s.orders.Keys, OwedIn(s.orders, markets, k)) + Over(s.orders.Keys, ImprovedIn(s.orders, markets, k))
  }

  /** A row as consistent events leave it. */
  predicate RowSound(row: OrderRow, markets: Markets) {
    && row.market in markets && row.quantity.Some?
    && 0.0 <= row.filled <= row.quantity.value && 0.0 <= row.avgPrice.Or(0.0)
    && (row.side == Buy ==> row.price.Some? && 0.0 < row.price.value)
    && 0.0 <= Improved(row)
    && (Open(row.status) ==> row.filled < row.quantity.value)
  }

  predicate RowsSound(s: Db, markets: Markets) {
    forall id :: id in s.orders ==> RowSound(s.orders[id], markets)
  }

  /** The account that an order locks funds in. */
  function LockAccount(row: OrderRow, markets: Markets): Account
    requires row.market in markets
  {
    Account(row.user, LockAsset(row, markets[row.market]))
  }

  predicate Accounted(s: Db, markets: Markets) {
    forall id :: id in s.orders ==> s.orders[id].market in markets && LockAccount(s.orders[id], markets) in s.balances
  }

  predicate NonNegative(s: Db) {
    forall k :: k in s.balances ==> 0.0 <= s.balances[k].available
  }

  /** The locked amount of an account is its opening one and what the orders hold. */
  ghost predicate Matched(s: Db, markets: Markets, start: Db, k: Account) {
    k in s.balances && k in start.balances ==> s.balances[k].locked == start.balances[k].locked + Held(s, markets, k)
  }

  ghost predicate LocksMatch(s: Db, markets: Markets, start: Db) {
    && RowsSound(s, markets) && Accounted(s, markets) && NonNegative(s)
    && s.balances.Keys == start.balances.Keys
    && forall k :: Matched(s, markets, start, k)
  }

  // ---- Nonlinear steps -----------------------------------------------------------

  lemma Times(p: real, x: real, y: real)
    requires 0.0 <= p && x <= y
    ensures p * x <= p * y
  {
  }

  /** The mean times the total is what the fills came to. */
  lemma MeanTotal(avg: real, filled: real, price: real, quantity: real)
    requires 0.0 < filled + quantity
    ensures Mean(avg, filled, price, quantity) * (filled + quantity) == avg * filled + price * quantity
  {
  }

  lemma MeanNonNegative(avg: real, filled: real, price: real, quantity: real)
    requires 0.0 <= avg && 0.0 <= filled && 0.0 <= price && 0.0 < quantity
    ensures 0.0 <= Mean(avg, filled, price, quantity)
  {
    Times(avg, 0.0, filled);
    Times(price, 0.0, quantity);
    Quotient(avg * filled + price * quantity, filled + quantity);
  }

  lemma Quotient(a: real, b: real)
    requires 0.0 <= a && 0.0 < b
    ensures 0.0 <= a / b
  {
  }

  lemma OwedNonNegative(row: OrderRow, markets: Markets)
    requires RowSound(row, markets)
    ensures 0.0 <= Owed(row) && 0.0 <= Improved(row) && (Open(row.status) ==> 0.0 < Obligation(row))
  {
    if row.side == Buy && Open(row.status) { Positive(row.price.value, Remaining(row)); }
  }

  lemma Positive(a: real, b: real)
    requires 0.0 < a && 0.0 < b
    ensures 0.0 < a * b
  {
  }

  // ---- A row changes -------------------------------------------------------------

  /** The held amount follows the change of one row. */
  lemma HeldChange(s: Db, t: Db, markets: Markets, id: Id, k: Account)
    requires id in s.orders && id in t.orders && t.orders == s.orders[id := t.orders[id]]
    requires LocksIn(s.orders[id], markets, k) == LocksIn(t.orders[id], markets, k)
    ensures Held(t, markets, k) == Held(s, markets, k) +
      if LocksIn(s.orders[id], markets, k)
      then Owed(t.orders[id]) + Improved(t.orders[id]) - Owed(s.orders[id]) - Improved(s.orders[id]) else 0.0
  {
    hide Owed, Improved, LocksIn;
    assert t.orders.Keys == s.orders.Keys;
    OverChange(s.orders.Keys, OwedIn(s.orders, markets, k), OwedIn(t.orders, markets, k), id);
    OverChange(s.orders.Keys, ImprovedIn(s.orders, markets, k), ImprovedIn(t.orders, markets, k), id);
  }

  lemma HeldNew(s: Db, t: Db, markets: Markets, id: Id, k: Account)
    requires id !in s.orders && id in t.orders && t.orders == s.orders[id := t.orders[id]]
    ensures Held(t, markets, k) == Held(s, markets, k) +
      if LocksIn(t.orders[id], markets, k) then Owed(t.orders[id]) + Improved(t.orders[id]) else 0.0
  {
    hide Owed, Improved, LocksIn;
    var keys := s.orders.Keys;
    assert t.orders.Keys == keys + {id};
    OverAdd(keys, OwedIn(t.orders, markets, k), id);
    OverAdd(keys, ImprovedIn(t.orders, markets, k), id);
    OverSame(keys, OwedIn(s.orders, markets, k), OwedIn(t.orders, markets, k));
    OverSame(keys, ImprovedIn(s.orders, markets, k), ImprovedIn(t.orders, markets, k));
  }

  /** An account holds at least what one order owes in it. */
  lemma HeldCovers(s: Db, markets: Markets, id: Id, k: Account)
    requires RowsSound(s, markets) && id in s.orders && LocksIn(s.orders[id], markets, k)
    ensures Held(s, markets, k) >= Owed(s.orders[id])
  {
    forall x | x in s.orders ensures 0.0 <= OwedIn(s.orders, markets, k)(x) && 0.0 <= ImprovedIn(s.orders, markets, k)(x) {
      OwedNonNegative(s.orders[x], markets);
    }
    hide Owed, Improved, LocksIn, RowsSound;
    OverAtLeast(s.orders.Keys, OwedIn(s.orders, markets, k), id);
    OverNonNegative(s.orders.Keys, ImprovedIn(s.orders, markets, k));
  }

  /** What a fill takes from the seller's or the buyer's locked funds. */
  function Spent(row: OrderRow, price: real, quantity: real): real {
    if row.side == Buy then price * quantity else quantity
  }

  predicate Fits(row: OrderRow, price: real, quantity: real) {
    && Open(row.status) && 0.0 < price && 0.0 < quantity <= Remaining(row)
    && (row.side == Buy ==> price <= row.price.Or(0.0))
  }

  lemma Distribute(p: real, x: real, y: real)
    ensures p * (x + y) == p * x + p * y && p * (x - y) == p * x - p * y
  {
  }

  /** With limit `p` and mean `m` after `y` more at price `c`: the mean stays within the limit. */
  lemma MeanWithin(p: real, avg: real, x: real, c: real, y: real, m: real)
    requires 0.0 <= p * x - avg * x && c <= p && 0.0 < y && m * (x + y) == avg * x + c * y
    ensures 0.0 <= p * (x + y) - m * (x + y)
  {
    TimesRight(c, p, y);
    Distribute(p, x, y);
    SumWithin(avg * x, c * y, p * x, p * y, m * (x + y), p * (x + y));
  }

  lemma TimesRight(x: real, y: real, p: real)
    requires 0.0 <= p && x <= y
    ensures x * p <= y * p
  {
  }

  lemma SumWithin(a: real, b: real, c: real, d: real, ab: real, cd: real)
    requires a <= c && b <= d && ab == a + b && cd == c + d
    ensures ab <= cd
  {
  }

  /** Whatever of the total was owed or improved on before, less what the fill costs, is owed
    or improved on after it. */
  lemma FillCosts(p: real, total: real, avg: real, x: real, c: real, y: real, m: real)
    requires m * (x + y) == avg * x + c * y
    ensures p * (total - (x + y)) + (p * (x + y) - m * (x + y)) == p * (total - x) + (p * x - avg * x) - c * y
  {
    Distribute(p, total, x);
    Distribute(p, total, x + y);
  }

  lemma BuyerSpends(row: OrderRow, markets: Markets, price: real, quantity: real)
    requires RowSound(row, markets) && Fits(row, price, quantity) && row.side == Buy
    ensures RowFilled(row, price, quantity).Some?
    ensures var r := RowFilled(row, price, quantity).value;
      RowSound(r, markets) && Owed(r) + Improved(r) == Owed(row) + Improved(row) - price * quantity
  {
    var avg, filled, limit, total := row.avgPrice.Or(0.0), row.filled, row.price.value, row.quantity.value;
    var m := Mean(avg, filled, price, quantity);
    MeanTotal(avg, filled, price, quantity);
    MeanNonNegative(avg, filled, price, quantity);
    assert Improved(row) == limit * filled - avg * filled;
    MeanWithin(limit, avg, filled, price, quantity, m);
    FillCosts(limit, total, avg, filled, price, quantity, m);
    hide Mean;
    var r := RowFilled(row, price, quantity).value;
    assert r.avgPrice == Some(m) && r.filled == filled + quantity;
    assert Improved(r) == limit * (filled + quantity) - m * (filled + quantity);
    assert Owed(r) == limit * (total - (filled + quantity)) by {
      if !Open(r.status) { TimesZero(limit, total - (filled + quantity)); }
    }
  }

  lemma TimesZero(x: real, y: real)
    requires y == 0.0
    ensures x * y == 0.0
  {
  }

  /** A filled row owes and holds less by what the fill spent. */
  lemma RowSpends(row: OrderRow, markets: Markets, price: real, quantity: real)
    requires RowSound(row, markets) && Fits(row, price, quantity)
    ensures RowFilled(row, price, quantity).Some?
    ensures var r := RowFilled(row, price, quantity).value;
      && RowSound(r, markets) && r.user == row.user && r.market == row.market && r.side == row.side
      && Owed(r) + Improved(r) == Owed(row) + Improved(row) - Spent(row, price, quantity)
  {
    if row.side == Buy {
      BuyerSpends(row, markets, price, quantity);
    } else {
      MeanNonNegative(row.avgPrice.Or(0.0), row.filled, price, quantity);
    }
    hide Mean;
  }

  lemma HeldFilled(s: Db, t: Db, markets: Markets, id: Id, price: real, quantity: real, k: Account)
    requires RowsSound(s, markets) && id in s.orders && Fits(s.orders[id], price, quantity)
    requires RowFilled(s.orders[id], price, quantity).Some?
    requires t.orders == s.orders[id := RowFilled(s.orders[id], price, quantity).value]
    ensures Held(t, markets, k) == Held(s, markets, k) -
      if LocksIn(s.orders[id], markets, k) then Spent(s.orders[id], price, quantity) else 0.0
  {
    assert RowSound(s.orders[id], markets);
    RowSpends(s.orders[id], markets, price, quantity);
    hide Held, Owed, Improved, RowFilled, Spent, RowSound, RowsSound;
    HeldChange(s, t, markets, id, k);
  }

  // ---- Balances under several mutations ------------------------------------------

  function LockShift(ms: seq<Mutation>, k: Account): real {
    if ms == [] then 0.0 else (if ms[0].account == k then ms[0].locked else 0.0) + LockShift(ms[1..], k)
  }

  lemma {:induction false} PostAllShifts(s: Db, ms: seq<Mutation>, k: Account)
    requires PostAll(s, ms).Some? && NonNegative(s)
    ensures var t := PostAll(s, ms).value;
      && t.balances.Keys == s.balances.Keys && t.orders == s.orders && NonNegative(t)
      && (k in s.balances ==> t.balances[k].locked == s.balances[k].locked + LockShift(ms, k))
    decreases |ms|
  {
    if ms != [] { PostAllShifts(Post(s, ms[0]).value, ms[1..], k); }
  }

  lemma ShiftNext(ms: seq<Mutation>, i: nat, k: Account)
    requires i < |ms|
    ensures LockShift(ms[i..], k) == (if ms[i].account == k then ms[i].locked else 0.0) + LockShift(ms[i + 1..], k)
  {
    assert ms[i..][1..] == ms[i + 1..];
  }

  lemma NoShift(ms: seq<Mutation>, k: Account)
    requires ms == []
    ensures LockShift(ms, k) == 0.0
  {
  }

  function Buyer(f: TradeFill, taker: OrderRow, maker: OrderRow): OrderRow {
    if f.takerSide == Buy then taker else maker
  }

  function Seller(f: TradeFill, taker: OrderRow, maker: OrderRow): OrderRow {
    if f.takerSide == Buy then maker else taker
  }

  /** A fill unlocks its notional of the buyer's quote asset and its quantity of the seller's
    base asset. */
  lemma FillShifts(engineSeq: int, f: TradeFill, taker: OrderRow, maker: OrderRow, markets: Markets, k: Account)
    requires taker.market in markets && maker.market == taker.market
    ensures var m := markets[taker.market];
      LockShift(FillMutations(engineSeq, f, taker, maker, markets), k) ==
      (if k == Account(Buyer(f, taker, maker).user, m.quote) then -Notional(f) else 0.0) +
      (if k == Account(Seller(f, taker, maker).user, m.base) then -f.quantity else 0.0)
  {
    hide FeeAmount, Notional, LockShift;
    var ms := FillMutations(engineSeq, f, taker, maker, markets);
    assert ms[0..] == ms;
    ShiftNext(ms, 0, k);
    ShiftNext(ms, 1, k);
    ShiftNext(ms, 2, k);
    ShiftNext(ms, 3, k);
    ShiftNext(ms, 4, k);
    ShiftNext(ms, 5, k);
    NoShift(ms[6..], k);
  }

  // ---- Every event keeps the match -----------------------------------------------

  lemma NewRowSound(o: NewOrder, markets: Markets)
    requires o.symbol in markets && RowAllowed(o) && (o.side == Buy ==> o.price.Some?)
    ensures var row, lock := NewRow(o), LockObligation(o, markets[o.symbol]);
      && RowSound(row, markets) && Owed(row) == lock.1 > 0.0 && Improved(row) == 0.0
      && LockAccount(row, markets) == Account(o.user, lock.0)
  {
    if o.side == Buy { Positive(o.price.value, o.quantity); }
  }

  lemma AcceptedMatches(s: Db, markets: Markets, start: Db, engineSeq: int, o: NewOrder)
    requires LocksMatch(s, markets, start) && o.id !in s.orders && Consistent(s, engineSeq, Accepted(o))
    requires SettleOrderAccepted(s, markets, engineSeq, o).Some?
    ensures LocksMatch(SettleOrderAccepted(s, markets, engineSeq, o).value, markets, start)
  {
    var t := SettleOrderAccepted(s, markets, engineSeq, o).value;
    NewRowSound(o, markets);
    hide Held, Owed, Improved, LockObligation, RowSound, LockAccount, RowAllowed;
    forall k ensures Matched(t, markets, start, k) {
      HeldNew(s, t, markets, o.id, k);
      assert Matched(s, markets, start, k);
    }
    hide Matched;
  }

  lemma CanceledMatches(s: Db, markets: Markets, start: Db, engineSeq: int, id: Id)
    requires LocksMatch(s, markets, start) && SettleCancel(s, markets, engineSeq, id).Some?
    ensures LocksMatch(SettleCancel(s, markets, engineSeq, id).value, markets, start)
  {
    var t, row := SettleCancel(s, markets, engineSeq, id).value, s.orders[id];
    assert RowSound(row, markets);
    if Open(row.status) {
      OwedNonNegative(row, markets);
      var after := row.(status := Canceled);
      assert Owed(after) == 0.0 && Owed(row) == Obligation(row) && Improved(after) == Improved(row);
      assert RowSound(after, markets) && LockAccount(after, markets) == LockAccount(row, markets);
      var m := UnlockOf(id, row, markets[row.market], engineSeq);
      assert m.account == LockAccount(row, markets) && m.locked == -Obligation(row);
      hide Held, Owed, Improved, Obligation, RowSound, LockAccount, Remaining, UnlockOf;
      assert t == Post(s, m).value.(orders := s.orders[id := after]);
      forall k ensures Matched(t, markets, start, k) {
        HeldChange(s, t, markets, id, k);
        assert Matched(s, markets, start, k);
      }
      hide Matched;
    }
  }

  /** Two rows are filled, one after the other. */
  lemma HeldAfterFill(s: Db, t: Db, markets: Markets, f: TradeFill, k: Account)
    requires RowsSound(s, markets) && FillFits(s, f)
    requires var taker, maker := s.orders[f.takerId], s.orders[f.makerId];
      && RowFilled(taker, f.price, f.quantity).Some? && RowFilled(maker, f.price, f.quantity).Some?
      && t.orders == s.orders[f.takerId := RowFilled(taker, f.price, f.quantity).value]
                             [f.makerId := RowFilled(maker, f.price, f.quantity).value]
    ensures RowsSound(t, markets)
    ensures var taker, maker := s.orders[f.takerId], s.orders[f.makerId];
      Held(t, markets, k) == Held(s, markets, k)
        - (if LocksIn(taker, markets, k) then Spent(taker, f.price, f.quantity) else 0.0)
        - (if LocksIn(maker, markets, k) then Spent(maker, f.price, f.quantity) else 0.0)
  {
    var taker, maker := s.orders[f.takerId], s.orders[f.makerId];
    RowSpends(taker, markets, f.price, f.quantity);
    RowSpends(maker, markets, f.price, f.quantity);
    var mid := s.(orders := s.orders[f.takerId := RowFilled(taker, f.price, f.quantity).value]);
    hide RowFilled, Held, Spent, LocksIn, Owed, Improved, RowSound;
    HeldFilled(s, mid, markets, f.takerId, f.price, f.quantity, k);
    HeldFilled(mid, t, markets, f.makerId, f.price, f.quantity, k);
  }

  /** The balances once the six mutations of a fill are posted. */
  lemma ExecutedBalances(s: Db, markets: Markets, engineSeq: int, f: TradeFill, k: Account)
    requires NonNegative(s) && engineSeq !in s.trades && FillFits(s, f)
    requires SettleFill(s, markets, engineSeq, f).Some?
    ensures var u := SettleFill(s, markets, engineSeq, f).value;
      var taker, maker := s.orders[f.takerId], s.orders[f.makerId];
      && u.balances.Keys == s.balances.Keys && NonNegative(u) && taker.market in markets
      && RowFilled(taker, f.price, f.quantity).Some? && RowFilled(maker, f.price, f.quantity).Some?
      && u.orders == s.orders[f.takerId := RowFilled(taker, f.price, f.quantity).value]
                             [f.makerId := RowFilled(maker, f.price, f.quantity).value]
      && (k in s.balances ==>
            u.balances[k].locked == s.balances[k].locked + LockShift(FillMutations(engineSeq, f, taker, maker, markets), k))
  {
    var taker, maker := s.orders[f.takerId], s.orders[f.makerId];
    var t := s.(trades := s.trades[engineSeq := Trade(taker.market, f)]);
    hide RowFilled, PostAll, FillMutations, LockShift;
    PostAllShifts(t, FillMutations(engineSeq, f, taker, maker, markets), k);
  }

  lemma FillSpends(s: Db, markets: Markets, engineSeq: int, f: TradeFill, k: Account)
    requires FillFits(s, f) && s.orders[f.takerId].market in markets
    ensures var taker, maker := s.orders[f.takerId], s.orders[f.makerId];
      LockShift(FillMutations(engineSeq, f, taker, maker, markets), k) ==
        - (if LocksIn(taker, markets, k) then Spent(taker, f.price, f.quantity) else 0.0)
        - (if LocksIn(maker, markets, k) then Spent(maker, f.price, f.quantity) else 0.0)
  {
    hide FillMutations, LockShift;
    FillShifts(engineSeq, f, s.orders[f.takerId], s.orders[f.makerId], markets, k);
  }

  lemma ExecutedMatches(s: Db, markets: Markets, start: Db, engineSeq: int, f: TradeFill)
    requires LocksMatch(s, markets, start) && engineSeq !in s.trades && FillFits(s, f)
    requires SettleFill(s, markets, engineSeq, f).Some?
    ensures LocksMatch(SettleFill(s, markets, engineSeq, f).value, markets, start)
  {
    var taker, maker := s.orders[f.takerId], s.orders[f.makerId];
    var u := SettleFill(s, markets, engineSeq, f).value;
    RowSpends(taker, markets, f.price, f.quantity);
    RowSpends(maker, markets, f.price, f.quantity);
    hide RowFilled, FillMutations, Held, RowSound, RowsSound, LockShift, Owed, Improved, SettleFill, Spent, LocksIn;
    forall k ensures Matched(u, markets, start, k) && RowsSound(u, markets) {
      ExecutedBalances(s, markets, engineSeq, f, k);
      FillSpends(s, markets, engineSeq, f, k);
      HeldAfterFill(s, u, markets, f, k);
      assert Matched(s, markets, start, k);
    }
    ExecutedBalances(s, markets, engineSeq, f, Account(0, 0));
    hide Matched, FillFits;
    assert RowsSound(u, markets) by { assert Matched(u, markets, start, Account(0, 0)); }
  }

  lemma SettleMatches(s: Db, markets: Markets, start: Db, engineSeq: int, e: EngineEvent)
    requires LocksMatch(s, markets, start) && Consistent(s, engineSeq, e) && Settle(s, markets, engineSeq, e).Some?
    ensures LocksMatch(Settle(s, markets, engineSeq, e).value, markets, start)
  {
    match e
    case Accepted(o) => if o.id !in s.orders { AcceptedMatches(s, markets, start, engineSeq, o); }
    case Executed(f) => if engineSeq !in s.trades { ExecutedMatches(s, markets, start, engineSeq, f); }
    case CanceledOrder(id) => CanceledMatches(s, markets, start, engineSeq, id);
    case Other =>
  }

  lemma {:induction false} RunMatches(start: Db, markets: Markets, run: seq<Stored>)
    requires Opening(start, markets) && ConsistentRun(start, markets, run)
    ensures LocksMatch(SettleRun(start, markets, run), markets, start)
  {
    if run != [] {
      var t, last := SettleRun(start, markets, run[..|run| - 1]), run[|run| - 1];
      RunMatches(start, markets, run[..|run| - 1]);
      hide Settle, LocksMatch;
      if Settle(t, markets, last.engineSeq, last.event).Some? {
        SettleMatches(t, markets, start, last.engineSeq, last.event);
      }
    }
  }

  // ---- Main results --------------------------------------------------------------

  lemma HeldNonNegative(s: Db, markets: Markets, k: Account)
    requires RowsSound(s, markets)
    ensures 0.0 <= Over(s.orders.Keys, OwedIn(s.orders, markets, k))
    ensures 0.0 <= Over(s.orders.Keys, ImprovedIn(s.orders, markets, k))
  {
    forall x | x in s.orders ensures 0.0 <= OwedIn(s.orders, markets, k)(x) && 0.0 <= ImprovedIn(s.orders, markets, k)(x) {
      OwedNonNegative(s.orders[x], markets);
    }
    OverNonNegative(s.orders.Keys, OwedIn(s.orders, markets, k));
    OverNonNegative(s.orders.Keys, ImprovedIn(s.orders, markets, k));
  }

  /** Over any consistent run, what is locked in an account is what was locked at the start,
    plus what its open orders owe, plus the improvement of all its buy fills; both sums are
    never negative, so locked funds always cover the open obligations. */
  lemma LocksCoverObligations(start: Db, markets: Markets, run: seq<Stored>, k: Account)
    requires Opening(start, markets) && ConsistentRun(start, markets, run) && k in start.balances
    ensures var t := SettleRun(start, markets, run);
      var owed := Over(t.orders.Keys, OwedIn(t.orders, markets, k));
      var improved := Over(t.orders.Keys, ImprovedIn(t.orders, markets, k));
      && k in t.balances && t.balances[k].locked == start.balances[k].locked + owed + improved
      && 0.0 <= owed && 0.0 <= improved && 0.0 <= t.balances[k].available
  {
    RunMatches(start, markets, run);
    var t := SettleRun(start, markets, run);
    assert Matched(t, markets, start, k);
    HeldNonNegative(t, markets, k);
  }

  // ---- What a row says about its fills -------------------------------------------

  function QuantityFor(trades: map<int, Trade>, id: Id): int -> real {
    (n: int) => if n in trades && id in {trades[n].fill.takerId, trades[n].fill.makerId} then trades[n].fill.quantity else 0.0
  }

  function NotionalFor(trades: map<int, Trade>, id: Id): int -> real {
    (n: int) => if n in trades && id in {trades[n].fill.takerId, trades[n].fill.makerId} then Notional(trades[n].fill) else 0.0
  }

  /** What the fills of an order came to, going by its average price. */
  function Paid(row: OrderRow): real {
    row.avgPrice.Or(0.0) * row.filled
  }

  /** The row's filled quantity and average price are those of its trades, and a trade is only
    stored for orders that are. */
  ghost predicate TradesTell(s: Db, id: Id) {
    var quantity, notional := Over(s.trades.Keys, QuantityFor(s.trades, id)), Over(s.trades.Keys, NotionalFor(s.trades, id));
    if id in s.orders then
      s.orders[id].filled == quantity && Paid(s.orders[id]) == notional
    else quantity == 0.0 && notional == 0.0
  }

  lemma TradeAdds(s: Db, t: Db, n: int, trade: Trade, id: Id)
    requires n !in s.trades && t.trades == s.trades[n := trade]
    ensures var mine := id in {trade.fill.takerId, trade.fill.makerId};
      && Over(t.trades.Keys, QuantityFor(t.trades, id)) ==
           Over(s.trades.Keys, QuantityFor(s.trades, id)) + (if mine then trade.fill.quantity else 0.0)
      && Over(t.trades.Keys, NotionalFor(t.trades, id)) ==
           Over(s.trades.Keys, NotionalFor(s.trades, id)) + (if mine then Notional(trade.fill) else 0.0)
  {
    hide Notional;
    var keys := s.trades.Keys;
    assert t.trades.Keys == keys + {n};
    OverAdd(keys, QuantityFor(t.trades, id), n);
    OverAdd(keys, NotionalFor(t.trades, id), n);
    OverSame(keys, QuantityFor(s.trades, id), QuantityFor(t.trades, id));
    OverSame(keys, NotionalFor(s.trades, id), NotionalFor(t.trades, id));
  }

  lemma RowAverages(row: OrderRow, f: TradeFill)
    requires RowFilled(row, f.price, f.quantity).Some?
    ensures var r := RowFilled(row, f.price, f.quantity).value;
      r.filled == row.filled + f.quantity && Paid(r) == Paid(row) + Notional(f)
  {
    MeanTotal(row.avgPrice.Or(0.0), row.filled, f.price, f.quantity);
  }

  lemma ExecutedTells(s: Db, markets: Markets, engineSeq: int, f: TradeFill, id: Id)
    requires engineSeq !in s.trades && f.takerId != f.makerId && TradesTell(s, id)
    requires SettleFill(s, markets, engineSeq, f).Some?
    ensures TradesTell(SettleFill(s, markets, engineSeq, f).value, id)
  {
    var taker, maker := s.orders[f.takerId], s.orders[f.makerId];
    var u := SettleFill(s, markets, engineSeq, f).value;
    var t := s.(trades := s.trades[engineSeq := Trade(taker.market, f)]);
    var ms := FillMutations(engineSeq, f, taker, maker, markets);
    hide RowFilled, PostAll, FillMutations, Paid, Notional, QuantityFor, NotionalFor;
    PostAllKeepsRows(t, ms);
    assert u.trades == t.trades;
    TradeAdds(s, u, engineSeq, Trade(taker.market, f), id);
    RowAverages(taker, f);
    RowAverages(maker, f);
  }

  lemma {:induction false} RunTells(start: Db, markets: Markets, run: seq<Stored>, id: Id)
    requires Opening(start, markets) && ConsistentRun(start, markets, run)
    ensures TradesTell(SettleRun(start, markets, run), id)
  {
    if run != [] {
      var t, last := SettleRun(start, markets, run[..|run| - 1]), run[|run| - 1];
      RunTells(start, markets, run[..|run| - 1], id);
      if Settle(t, markets, last.engineSeq, last.event).Some? {
        SettleTells(t, markets, last.engineSeq, last.event, id);
      }
      hide Settle, TradesTell, Consistent;
    }
  }

  lemma SettleTells(s: Db, markets: Markets, engineSeq: int, e: EngineEvent, id: Id)
    requires Consistent(s, engineSeq, e) && TradesTell(s, id) && Settle(s, markets, engineSeq, e).Some?
    ensures TradesTell(Settle(s, markets, engineSeq, e).value, id)
  {
    if e.Accepted? { assert Paid(NewRow(e.order)) == 0.0; }
    if e.CanceledOrder? && e.id in s.orders {
      assert Paid(s.orders[e.id].(status := Canceled)) == Paid(s.orders[e.id]);
    }
    hide RowFilled, FillMutations, PostAll, NotionalFor, QuantityFor, Obligation, LockObligation, Paid;
    if e.Executed? && engineSeq !in s.trades { ExecutedTells(s, markets, engineSeq, e.fill, id); }
  }

  /** Over any consistent run, the filled quantity of each row is that of all its trades, and its average
    price is theirs, weighted by quantity. */
  lemma RowsTellTrades(start: Db, markets: Markets, run: seq<Stored>, id: Id)
    requires Opening(start, markets) && ConsistentRun(start, markets, run)
    requires id in SettleRun(start, markets, run).orders
    ensures var t := SettleRun(start, markets, run); var row := t.orders[id];
      && row.filled == Over(t.trades.Keys, QuantityFor(t.trades, id))
      && (row.avgPrice.Some? ==> row.avgPrice.value * row.filled == Over(t.trades.Keys, NotionalFor(t.trades, id)))
  {
    hide *;
    RunTells(start, markets, run, id);
    TellsRow(SettleRun(start, markets, run), id);
  }

  lemma TellsRow(t: Db, id: Id)
    requires TradesTell(t, id) && id in t.orders
    ensures t.orders[id].filled == Over(t.trades.Keys, QuantityFor(t.trades, id))
    ensures t.orders[id].avgPrice.Some? ==>
      t.orders[id].avgPrice.value * t.orders[id].filled == Over(t.trades.Keys, NotionalFor(t.trades, id))
  {
    hide Over, QuantityFor, NotionalFor, Paid;
    PaidAtMean(t.orders[id]);
  }

  lemma PaidAtMean(row: OrderRow)
    ensures row.avgPrice.Some? ==> row.avgPrice.value * row.filled == Paid(row)
  {
  }

  /** The improvement of a buy order is what its limit would have cost for all its fills less
    what they did cost. */
  lemma ImprovementIsOfFills(start: Db, markets: Markets, run: seq<Stored>, id: Id)
    requires Opening(start, markets) && ConsistentRun(start, markets, run)
    requires id in SettleRun(start, markets, run).orders && SettleRun(start, markets, run).orders[id].side == Buy
    ensures var t := SettleRun(start, markets, run);
      Improved(t.orders[id]) ==
        t.orders[id].price.Or(0.0) * Over(t.trades.Keys, QuantityFor(t.trades, id)) - Over(t.trades.Keys, NotionalFor(t.trades, id))
  {
    hide *;
    var t := SettleRun(start, markets, run);
    RunTells(start, markets, run, id);
    TellsImproved(t, id);
  }

  lemma TellsImproved(t: Db, id: Id)
    requires TradesTell(t, id) && id in t.orders && t.orders[id].side == Buy
    ensures Improved(t.orders[id]) ==
      t.orders[id].price.Or(0.0) * Over(t.trades.Keys, QuantityFor(t.trades, id)) - Over(t.trades.Keys, NotionalFor(t.trades, id))
  {
    ImprovedIsPaid(t.orders[id], Over(t.trades.Keys, QuantityFor(t.trades, id)));
    hide QuantityFor, NotionalFor, Paid, Improved, Over;
  }

  lemma ImprovedIsPaid(row: OrderRow, filled: real)
    requires row.side == Buy && filled == row.filled
    ensures Improved(row) == row.price.Or(0.0) * filled - Paid(row)
  {
  }

  // ---- What a handler needs to succeed -------------------------------------------

  /** A new order is accepted exactly when its market exists, its quantity and whatever prices and display
    size it has are positive, and its account can cover what it may have to pay or give. */
  lemma AcceptSucceedsIff(s: Db, markets: Markets, start: Db, engineSeq: int, o: NewOrder)
    requires LocksMatch(s, markets, start) && Opening(start, markets)
    requires o.id !in s.orders && Consistent(s, engineSeq, Accepted(o)) && 0 < engineSeq
    ensures Settle(s, markets, engineSeq, Accepted(o)).Some? <==>
      && o.symbol in markets && 0.0 < o.quantity
      && (forall v :: v in {o.price, o.stopPrice, o.displayQty} && v.Some? ==> 0.0 < v.value)
      && var k := Account(o.user, if o.side == Buy then markets[o.symbol].quote else markets[o.symbol].base);
         k in s.balances && (if o.side == Buy then o.price.value * o.quantity else o.quantity) <= s.balances[k].available
  {
    if o.symbol in markets && RowAllowed(o) {
      NewRowSound(o, markets);
      var k := Account(o.user, LockObligation(o, markets[o.symbol]).0);
      LockedNonNegative(s, markets, start, k);
      hide Held;
    }
  }

  lemma LockedNonNegative(s: Db, markets: Markets, start: Db, k: Account)
    requires LocksMatch(s, markets, start) && Opening(start, markets)
    ensures k in s.balances ==> 0.0 <= s.balances[k].locked
  {
    assert Matched(s, markets, start, k);
    HeldNonNegative(s, markets, k);
  }

  /** A cancel of a known order always succeeds. */
  lemma CancelSucceeds(s: Db, markets: Markets, start: Db, engineSeq: int, id: Id)
    requires LocksMatch(s, markets, start) && Opening(start, markets) && id in s.orders && 0 < engineSeq
    ensures Settle(s, markets, engineSeq, CanceledOrder(id)).Some?
  {
    var row := s.orders[id];
    var k := LockAccount(row, markets);
    assert RowSound(row, markets);
    if Open(row.status) {
      OwedNonNegative(row, markets);
      assert Matched(s, markets, start, k);
      HeldCovers(s, markets, id, k);
      assert Owed(row) == Obligation(row);
      hide Held, Owed, Improved, Obligation, RowSound, Remaining;
    }
  }

  predicate FeesWithin(m: Market) {
    m.takerFeeBps <= BPS_DENOMINATOR && m.makerFeeBps <= BPS_DENOMINATOR
  }

  lemma FeeWithin(gross: real, bps: real)
    requires 0.0 <= gross && 0.0 <= bps <= BPS_DENOMINATOR
    ensures FeeAmount(gross, bps) <= gross
  {
    Times(gross, bps, BPS_DENOMINATOR);
  }

  /** The six mutations go through when both sides' funds are there. */
  lemma SixPost(s: Db, ms: seq<Mutation>, base: real, quote: real, baseFee: real, quoteFee: real,
                a: Account, b: Account, c: Account, d: Account)
    requires |ms| == 6 && a.asset != b.asset && d.asset == a.asset && c.asset == b.asset
    requires forall i :: 0 <= i < 6 ==> ms[i].engineSeq > 0
    requires ms[0].account == a && ms[0].available == base && ms[0].locked == 0.0
    requires ms[1].account == a && ms[1].available == -baseFee && ms[1].locked == 0.0
    requires ms[2].account == b && ms[2].available == 0.0 && ms[2].locked == -quote
    requires ms[3].account == c && ms[3].available == quote && ms[3].locked == 0.0
    requires ms[4].account == c && ms[4].available == -quoteFee && ms[4].locked == 0.0
    requires ms[5].account == d && ms[5].available == 0.0 && ms[5].locked == -base
    requires 0.0 <= base && 0.0 <= quote && baseFee <= base && quoteFee <= quote
    requires {a, b, c, d} <= s.balances.Keys && NonNegative(s)
    requires forall k :: k in s.balances ==> 0.0 <= s.balances[k].locked
    requires quote <= s.balances[b].locked && base <= s.balances[d].locked
    ensures PostAll(s, ms).Some?
  {
    hide PostAll, NonNegative, EntryOf;
    assert ms[0..] == ms;
    assert forall k :: k in s.balances ==> 0.0 <= s.balances[k].available by { ShowNonNegative(s); }
    var s1 := Post(s, ms[0]).value;
    var s2 := Post(s1, ms[1]).value;
    var s3 := Post(s2, ms[2]).value;
    var s4 := Post(s3, ms[3]).value;
    var s5 := Post(s4, ms[4]).value;
    var s6 := Post(s5, ms[5]).value;
    PostNext(s, ms, 0);
    PostNext(s1, ms, 1);
    PostNext(s2, ms, 2);
    PostNext(s3, ms, 3);
    PostNext(s4, ms, 4);
    PostNext(s5, ms, 5);
    PostNone(s6, ms[6..]);
  }

  lemma ShowNonNegative(s: Db)
    requires NonNegative(s)
    ensures forall k :: k in s.balances ==> 0.0 <= s.balances[k].available
  {
  }

  lemma {:induction false} PostAllNeedsRows(s: Db, ms: seq<Mutation>, i: nat)
    requires PostAll(s, ms).Some? && i < |ms|
    ensures ms[i].account in s.balances
    decreases |ms|
  {
    if i > 0 { PostAllNeedsRows(Post(s, ms[0]).value, ms[1..], i - 1); }
  }

  /** What both sides have locked covers the fill. */
  lemma FillCovered(s: Db, markets: Markets, start: Db, f: TradeFill)
    requires LocksMatch(s, markets, start) && Opening(start, markets) && FillFits(s, f)
    ensures var taker, maker := s.orders[f.takerId], s.orders[f.makerId];
      && taker.market in markets && var m := markets[taker.market];
      && var b, d := Account(Buyer(f, taker, maker).user, m.quote), Account(Seller(f, taker, maker).user, m.base);
      && b in s.balances && d in s.balances
      && Notional(f) <= s.balances[b].locked && f.quantity <= s.balances[d].locked
  {
    var taker, maker := s.orders[f.takerId], s.orders[f.makerId];
    OrderCovered(s, markets, start, f.takerId, f.price, f.quantity);
    OrderCovered(s, markets, start, f.makerId, f.price, f.quantity);
    hide LocksMatch;
  }

  lemma OrderCovered(s: Db, markets: Markets, start: Db, id: Id, price: real, quantity: real)
    requires LocksMatch(s, markets, start) && Opening(start, markets)
    requires id in s.orders && Fits(s.orders[id], price, quantity)
    ensures var row := s.orders[id];
      && row.market in markets && LockAccount(row, markets) in s.balances
      && Spent(row, price, quantity) <= s.balances[LockAccount(row, markets)].locked
  {
    var row := s.orders[id];
    var k := LockAccount(row, markets);
    assert RowSound(row, markets);
    HeldCovers(s, markets, id, k);
    assert Matched(s, markets, start, k);
    SpentIsOwed(row, markets, price, quantity);
  }

  lemma SpentIsOwed(row: OrderRow, markets: Markets, price: real, quantity: real)
    requires RowSound(row, markets) && Fits(row, price, quantity)
    ensures Spent(row, price, quantity) <= Owed(row)
  {
    if row.side == Buy {
      var limit := row.price.value;
      TimesRight(price, limit, quantity);
      Times(limit, quantity, Remaining(row));
    }
  }

  /** A new fill is settled exactly when both sides have a balance row for what they receive,
    provided neither fee exceeds what it is taken from. */
  lemma FillSucceedsIff(s: Db, markets: Markets, start: Db, engineSeq: int, f: TradeFill)
    requires LocksMatch(s, markets, start) && Opening(start, markets) && FillFits(s, f)
    requires engineSeq !in s.trades && 0 < engineSeq
    requires s.orders[f.takerId].market in markets && FeesWithin(markets[s.orders[f.takerId].market])
    ensures Settle(s, markets, engineSeq, Executed(f)).Some? <==>
      var taker, maker := s.orders[f.takerId], s.orders[f.makerId];
      && Account(Buyer(f, taker, maker).user, markets[taker.market].base) in s.balances
      && Account(Seller(f, taker, maker).user, markets[taker.market].quote) in s.balances
  {
    var taker, maker := s.orders[f.takerId], s.orders[f.makerId];
    var m := markets[taker.market];
    var buyer, seller := Buyer(f, taker, maker).user, Seller(f, taker, maker).user;
    var t := s.(trades := s.trades[engineSeq := Trade(taker.market, f)]);
    var ms := FillMutations(engineSeq, f, taker, maker, markets);
    assert RowSound(taker, markets) && RowSound(maker, markets);
    RowSpends(taker, markets, f.price, f.quantity);
    RowSpends(maker, markets, f.price, f.quantity);
    if Account(buyer, m.base) in s.balances && Account(seller, m.quote) in s.balances {
      FillPosts(s, t, markets, start, engineSeq, f);
    } else if PostAll(t, ms).Some? {
      PostAllNeedsRows(t, ms, 0);
      PostAllNeedsRows(t, ms, 3);
    }
    hide PostAll, FillMutations, RowFilled, LocksMatch, RowSound;
  }

  lemma FillPosts(s: Db, t: Db, markets: Markets, start: Db, engineSeq: int, f: TradeFill)
    requires LocksMatch(s, markets, start) && Opening(start, markets) && FillFits(s, f) && 0 < engineSeq
    requires t.balances == s.balances
    requires s.orders[f.takerId].market in markets && FeesWithin(markets[s.orders[f.takerId].market])
    requires var taker, maker := s.orders[f.takerId], s.orders[f.makerId];
      && Account(Buyer(f, taker, maker).user, markets[taker.market].base) in s.balances
      && Account(Seller(f, taker, maker).user, markets[taker.market].quote) in s.balances
    ensures PostAll(t, FillMutations(engineSeq, f, s.orders[f.takerId], s.orders[f.makerId], markets)).Some?
  {
    var taker, maker := s.orders[f.takerId], s.orders[f.makerId];
    var m := markets[taker.market];
    var buyer, seller := Buyer(f, taker, maker).user, Seller(f, taker, maker).user;
    Positive(f.price, f.quantity);
    FeeWithin(f.quantity, m.takerFeeBps);
    FeeWithin(Notional(f), m.makerFeeBps);
    FillCovered(s, markets, start, f);
    forall k | k in s.balances ensures 0.0 <= s.balances[k].locked { LockedNonNegative(s, markets, start, k); }
    hide LocksMatch, FeeAmount, Notional, PostAll;
    SixPost(t, FillMutations(engineSeq, f, taker, maker, markets), f.quantity, Notional(f),
            FeeAmount(f.quantity, m.takerFeeBps), FeeAmount(Notional(f), m.makerFeeBps),
            Account(buyer, m.base), Account(buyer, m.quote), Account(seller, m.quote), Account(seller, m.base));
  }

  // ---- Repeated events -----------------------------------------------------------

  /** In a consistent run a settled event stays settled: nothing reopens an order. */
  lemma StaysSettled(s: Db, markets: Markets, n: int, e: EngineEvent, m: int, next: EngineEvent)
    requires Settled(s, n, e) && Consistent(s, m, next) && Settle(s, markets, m, next).Some?
    ensures Settled(Settle(s, markets, m, next).value, n, e)
  {
    SettleKeepsRows(s, markets, m, next);
    hide Settle;
  }

  lemma {:induction false} StaysSettledRun(s: Db, markets: Markets, run: seq<Stored>, i: nat)
    requires ConsistentRun(s, markets, run) && i < |run|
    requires Settle(SettleRun(s, markets, run[..i]), markets, run[i].engineSeq, run[i].event).Some?
    ensures Settled(SettleRun(s, markets, run), run[i].engineSeq, run[i].event)
  {
    var before, last := run[..|run| - 1], run[|run| - 1];
    var t := SettleRun(s, markets, before);
    if i == |run| - 1 {
      SettleKeepsRows(t, markets, last.engineSeq, last.event);
    } else {
      assert before[..i] == run[..i];
      StaysSettledRun(s, markets, before, i);
      if Settle(t, markets, last.engineSeq, last.event).Some? {
        StaysSettled(t, markets, run[i].engineSeq, run[i].event, last.engineSeq, last.event);
      }
    }
    hide Settle, Settled, Consistent;
  }

  /** An event that a consistent run has settled may be handled again at any later time: that
    succeeds and changes nothing. */
  lemma RepeatsChangeNothing(s: Db, markets: Markets, run: seq<Stored>, i: nat)
    requires ConsistentRun(s, markets, run) && i < |run| && Accountable(s, markets)
    requires Settle(SettleRun(s, markets, run[..i]), markets, run[i].engineSeq, run[i].event).Some?
    ensures var t := SettleRun(s, markets, run); Settle(t, markets, run[i].engineSeq, run[i].event) == Some(t)
  {
    StaysSettledRun(s, markets, run, i);
    RunAccountable(s, markets, run);
    var t, e := SettleRun(s, markets, run), run[i].event;
    hide Post, PostAll, FillMutations, RowFilled, SettleRun;
  }

  /** Every stored order's market exists. */
  predicate Accountable(s: Db, markets: Markets) {
    forall id :: id in s.orders ==> s.orders[id].market in markets
  }

  lemma SettleAccountable(s: Db, markets: Markets, n: int, e: EngineEvent)
    requires Accountable(s, markets) && Settle(s, markets, n, e).Some?
    ensures Accountable(Settle(s, markets, n, e).value, markets)
  {
    hide PostAll, FillMutations;
    if e.Executed? && n !in s.trades {
      var f := e.fill;
      var t := s.(trades := s.trades[n := Trade(s.orders[f.takerId].market, f)]);
      PostAllKeepsRows(t, FillMutations(n, f, s.orders[f.takerId], s.orders[f.makerId], markets));
    }
  }

  lemma {:induction false} RunAccountable(s: Db, markets: Markets, run: seq<Stored>)
    requires Accountable(s, markets)
    ensures Accountable(SettleRun(s, markets, run), markets)
  {
    if run != [] {
      var t, last := SettleRun(s, markets, run[..|run| - 1]), run[|run| - 1];
      RunAccountable(s, markets, run[..|run| - 1]);
      if Settle(t, markets, last.engineSeq, last.event).Some? { SettleAccountable(t, markets, last.engineSeq, last.event); }
      hide Settle, Accountable;
    }
  }

  // ---- Consistent fills stay in their market -------------------------------------

  lemma {:induction false} ConsistentIsOneMarket(s: Db, markets: Markets, run: seq<Stored>)
    requires ConsistentRun(s, markets, run)
    ensures OneMarketRun(s, markets, run)
  {
    hide Settle, FillFits;
    if run != [] {
      var t, last := SettleRun(s, markets, run[..|run| - 1]), run[|run| - 1];
      ConsistentIsOneMarket(s, markets, run[..|run| - 1]);
      FitsOneMarket(t, last.engineSeq, last.event);
    }
  }

  lemma FitsOneMarket(s: Db, engineSeq: int, e: EngineEvent)
    requires Consistent(s, engineSeq, e)
    ensures OneMarket(s, engineSeq, e)
  {
  }

  // ---- Buys without a price ------------------------------------------------------

  /** A buy without a price owes nothing, so its acceptance locks nothing and a cancel releases
    nothing; but its fills are paid from what the account has locked, for other orders, and fail
    if that is not enough. */
  lemma UnpricedBuyTakesLocks(s: Db, markets: Markets, engineSeq: int, f: TradeFill)
    requires NonNegative(s) && Settle(s, markets, engineSeq, Executed(f)).Some? && engineSeq !in s.trades
    requires f.takerId != f.makerId && s.orders[f.takerId].market == s.orders[f.makerId].market
    requires var m := markets[s.orders[f.takerId].market]; m.base != m.quote
    requires var row := BuyerOf(s, f); row.side == Buy && row.price.None?
    ensures var t, row := Settle(s, markets, engineSeq, Executed(f)).value, BuyerOf(s, f);
      var k := Account(row.user, markets[row.market].quote);
      && Obligation(row) == 0.0 && Obligation(BuyerOf(t, f)) == 0.0
      && k in s.balances && k in t.balances && Notional(f) <= s.balances[k].locked
      && t.balances[k].locked == s.balances[k].locked - Notional(f)
  {
    var taker, maker := s.orders[f.takerId], s.orders[f.makerId];
    var ms := FillMutations(engineSeq, f, taker, maker, markets);
    var t := s.(trades := s.trades[engineSeq := Trade(taker.market, f)]);
    var k := Account(Buyer(f, taker, maker).user, markets[taker.market].quote);
    PostAllShifts(t, ms, k);
    FillShifts(engineSeq, f, taker, maker, markets, k);
    PostAllNeedsRows(t, ms, 2);
    LockedStays(t, ms, k);
    hide PostAll, FillMutations, Notional, Mean, LockShift;
  }

  lemma {:induction false} LockedStays(s: Db, ms: seq<Mutation>, k: Account)
    requires PostAll(s, ms).Some? && k in s.balances && ms != []
    requires exists i :: 0 <= i < |ms| && ms[i].account == k
    ensures k in PostAll(s, ms).value.balances && 0.0 <= PostAll(s, ms).value.balances[k].locked
    decreases |ms|
  {
    var t := Post(s, ms[0]).value;
    if i :| 1 <= i < |ms| && ms[i].account == k {
      assert ms[1..][i - 1].account == k;
      LockedStays(t, ms[1..], k);
    } else {
      LockedUntouched(t, ms[1..], k);
    }
  }

  lemma {:induction false} LockedUntouched(s: Db, ms: seq<Mutation>, k: Account)
    requires PostAll(s, ms).Some? && k in s.balances && forall i :: 0 <= i < |ms| ==> ms[i].account != k
    ensures k in PostAll(s, ms).value.balances && PostAll(s, ms).value.balances[k] == s.balances[k]
    decreases |ms|
  {
    if ms != [] {
      assert forall i :: 0 <= i < |ms| - 1 ==> ms[1..][i] == ms[i + 1];
      LockedUntouched(Post(s, ms[0]).value, ms[1..], k);
    }
  }
}
