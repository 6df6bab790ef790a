/** What settlement keeps whatever events it is given: balances and ledger tell the same
  story, an asset's total falls by its fees only, and settled events have no further effect. */
module Accounts {
  import opened Orders
  import opened Sums
  import opened Settlement

  /** What of a ledger to add up: one account, one asset, or the fees taken in one asset. */
  datatype Lens = OfAccount(account: Account) | OfAsset(asset: Asset) | FeesIn(feeAsset: Asset)

  function Counted(l: Lens, account: Account, kind: Kind, amount: real): real {
    match l
    case OfAccount(k) => if account == k then amount else 0.0
    case OfAsset(a) => if account.asset == a then amount else 0.0
    case FeesIn(a) => if account.asset == a && kind == FeeKind then -amount else 0.0
  }

  function LedgerSum(l: Lens, ledger: seq<Entry>): real {
    if ledger == [] then 0.0
    else
      var last := ledger[|ledger| - 1];
      LedgerSum(l, ledger[..|ledger| - 1]) + Counted(l, last.account, last.kind, last.amount)
  }

  /** What an account is worth. */
  function Worth(s: Db, k: Account): real {
    if k in s.balances then s.balances[k].available + s.balances[k].locked else 0.0
  }

  function WorthIn(s: Db, a: Asset): Account -> real {
    (k: Account) => if k.asset == a then Worth(s, k) else 0.0
  }

  /** An asset's total over all users. */
  ghost function AssetTotal(s: Db, a: Asset): real {
    Over(s.balances.Keys, WorthIn(s, a))
  }

  // ---- The ledger follows the balances -------------------------------------------

  /** `t` came from `s` by ledger mutations: entries were only added, no row came or went,
    and what the balances and the ledger disagree about, if anything, is unchanged. */
  ghost predicate Follows(t: Db, s: Db) {
    && s.ledger <= t.ledger && t.balances.Keys == s.balances.Keys
    && (forall k :: Worth(t, k) - LedgerSum(OfAccount(k), t.ledger) == Worth(s, k) - LedgerSum(OfAccount(k), s.ledger))
    && (forall a :: AssetTotal(t, a) - LedgerSum(OfAsset(a), t.ledger) == AssetTotal(s, a) - LedgerSum(OfAsset(a), s.ledger))
  }

  predicate Even(m: Mutation) {
    m.amount == m.available + m.locked
  }

  lemma LedgerPush(l: Lens, ledger: seq<Entry>, e: Entry)
    ensures LedgerSum(l, ledger + [e]) == LedgerSum(l, ledger) + Counted(l, e.account, e.kind, e.amount)
  {
    assert (ledger + [e])[..|ledger|] == ledger;
  }

  lemma PostFollows(s: Db, m: Mutation)
    requires Post(s, m).Some? && Even(m)
    ensures Follows(Post(s, m).value, s)
  {
    var t := Post(s, m).value;
    var e := t.ledger[|s.ledger|];
    assert t.ledger == s.ledger + [e];
    assert t.balances.Keys == s.balances.Keys;
    forall k ensures Worth(t, k) - LedgerSum(OfAccount(k), t.ledger) == Worth(s, k) - LedgerSum(OfAccount(k), s.ledger) {
      LedgerPush(OfAccount(k), s.ledger, e);
    }
    forall a ensures AssetTotal(t, a) - LedgerSum(OfAsset(a), t.ledger) == AssetTotal(s, a) - LedgerSum(OfAsset(a), s.ledger) {
      LedgerPush(OfAsset(a), s.ledger, e);
      OverChange(s.balances.Keys, WorthIn(s, a), WorthIn(t, a), m.account);
    }
  }

  lemma {:induction false} PostAllFollows(s: Db, ms: seq<Mutation>)
    requires PostAll(s, ms).Some? && forall m :: m in ms ==> Even(m)
    ensures Follows(PostAll(s, ms).value, s)
    decreases |ms|
  {
    if ms != [] {
      hide Post, Follows;
      PostFollows(s, ms[0]);
      PostAllFollows(Post(s, ms[0]).value, ms[1..]);
      FollowsFurther(PostAll(s, ms).value, Post(s, ms[0]).value, s);
    } else {
      FollowsItself(s);
    }
  }

  lemma FollowsItself(s: Db)
    ensures Follows(s, s)
  {
  }

  lemma FollowsFurther(u: Db, t: Db, s: Db)
    requires Follows(u, t) && Follows(t, s)
    ensures Follows(u, s)
  {
  }

  lemma SameBooks(t: Db, u: Db, s: Db)
    requires Follows(t, s) && u.balances == t.balances && u.ledger == t.ledger
    ensures Follows(u, s)
  {
    forall a ensures AssetTotal(u, a) == AssetTotal(t, a) {
      OverSame(t.balances.Keys, WorthIn(t, a), WorthIn(u, a));
    }
  }

  lemma FillEven(engineSeq: int, f: TradeFill, taker: OrderRow, maker: OrderRow, markets: Markets)
    requires taker.market in markets && maker.market in markets
    ensures forall m :: m in FillMutations(engineSeq, f, taker, maker, markets) ==> Even(m)
  {
    hide FeeAmount, Notional;
  }

  lemma SettleFollows(s: Db, markets: Markets, engineSeq: int, e: EngineEvent)
    requires Settle(s, markets, engineSeq, e).Some?
    ensures Follows(Settle(s, markets, engineSeq, e).value, s)
  {
    hide Follows, Post, PostAll, FillMutations, RowFilled;
    var u := Settle(s, markets, engineSeq, e).value;
    FollowsItself(s);
    match e
    case Accepted(o) =>
      if u != s {
        var t := s.(orders := s.orders[o.id := NewRow(o)]);
        SameBooks(s, t, s);
        if LockObligation(o, markets[o.symbol]).1 > 0.0 {
          PostFollows(t, LockOf(o, markets[o.symbol], engineSeq));
          FollowsFurther(u, t, s);
        }
      }
    case Executed(f) =>
      if engineSeq !in s.trades {
        var taker, maker := s.orders[f.takerId], s.orders[f.makerId];
        var t := s.(trades := s.trades[engineSeq := Trade(taker.market, f)]);
        var ms := FillMutations(engineSeq, f, taker, maker, markets);
        SameBooks(s, t, s);
        FillEven(engineSeq, f, taker, maker, markets);
        PostAllFollows(t, ms);
        FollowsFurther(PostAll(t, ms).value, t, s);
        SameBooks(PostAll(t, ms).value, u, s);
      }
    case CanceledOrder(id) =>
      if Open(s.orders[id].status) {
        var row := s.orders[id];
        var m := UnlockOf(id, row, markets[row.market], engineSeq);
        if Obligation(row) > 0.0 {
          PostFollows(s, m);
          SameBooks(Post(s, m).value, u, s);
        } else {
          SameBooks(s, u, s);
        }
      }
    case Other =>
  }

  lemma {:induction false} RunFollows(s: Db, markets: Markets, run: seq<Stored>)
    ensures Follows(SettleRun(s, markets, run), s)
  {
    hide Follows, Settle;
    if run == [] {
      FollowsItself(s);
    } else {
      var t, last := SettleRun(s, markets, run[..|run| - 1]), run[|run| - 1];
      RunFollows(s, markets, run[..|run| - 1]);
      if Settle(t, markets, last.engineSeq, last.event).Some? {
        SettleFollows(t, markets, last.engineSeq, last.event);
        FollowsFurther(SettleRun(s, markets, run), t, s);
      }
    }
  }

  lemma {:induction false} LedgerConcat(l: Lens, a: seq<Entry>, b: seq<Entry>)
    ensures LedgerSum(l, a + b) == LedgerSum(l, a) + LedgerSum(l, b)
  {
    if b == [] {
      assert a + b == a;
    } else {
      assert (a + b)[..|a + b| - 1] == a + b[..|b| - 1];
      LedgerConcat(l, a, b[..|b| - 1]);
    }
  }

  /** The entries a run added. */
  function Added(s: Db, t: Db): seq<Entry>
    requires |s.ledger| <= |t.ledger|
  {
    t.ledger[|s.ledger|..]
  }

  /** Over any run of events, an account is worth its opening balance plus the amounts that
    the run entered in the ledger for it. */
  lemma BalancesMatchLedger(s: Db, markets: Markets, run: seq<Stored>, k: Account)
    ensures var t := SettleRun(s, markets, run);
      && s.ledger <= t.ledger && t.balances.Keys == s.balances.Keys
      && Worth(t, k) == Worth(s, k) + LedgerSum(OfAccount(k), Added(s, t))
  {
    RunFollows(s, markets, run);
    var t := SettleRun(s, markets, run);
    assert t.ledger == s.ledger + Added(s, t);
    LedgerConcat(OfAccount(k), s.ledger, Added(s, t));
  }

  // ---- The last entry of an account records its balance --------------------------

  function LastEntry(ledger: seq<Entry>, k: Account): Option<Entry> {
    if ledger == [] then None
    else if ledger[|ledger| - 1].account == k then Some(ledger[|ledger| - 1])
    else LastEntry(ledger[..|ledger| - 1], k)
  }

  ghost predicate Recorded(s: Db) {
    forall k :: LastEntry(s.ledger, k).Some? ==>
      k in s.balances &&
      s.balances[k] == Balance(LastEntry(s.ledger, k).value.availableAfter, LastEntry(s.ledger, k).value.lockedAfter)
  }

  lemma PostRecords(s: Db, m: Mutation)
    requires Recorded(s) && Post(s, m).Some?
    ensures Recorded(Post(s, m).value)
  {
    var t := Post(s, m).value;
    assert t.ledger[..|t.ledger| - 1] == s.ledger;
  }

  lemma {:induction false} PostAllRecords(s: Db, ms: seq<Mutation>)
    requires Recorded(s) && PostAll(s, ms).Some?
    ensures Recorded(PostAll(s, ms).value)
    decreases |ms|
  {
    if ms != [] {
      PostRecords(s, ms[0]);
      PostAllRecords(Post(s, ms[0]).value, ms[1..]);
    }
  }

  lemma SettleRecords(s: Db, markets: Markets, engineSeq: int, e: EngineEvent)
    requires Recorded(s) && Settle(s, markets, engineSeq, e).Some?
    ensures Recorded(Settle(s, markets, engineSeq, e).value)
  {
    hide Post, PostAll, FillMutations, RowFilled, LastEntry;
    match e
    case Accepted(o) =>
      var t := s.(orders := s.orders[o.id := NewRow(o)]);
      if o.id !in s.orders && LockObligation(o, markets[o.symbol]).1 > 0.0 {
        PostRecords(t, LockOf(o, markets[o.symbol], engineSeq));
      }
    case Executed(f) =>
      if engineSeq !in s.trades {
        var taker, maker := s.orders[f.takerId], s.orders[f.makerId];
        var t := s.(trades := s.trades[engineSeq := Trade(taker.market, f)]);
        PostAllRecords(t, FillMutations(engineSeq, f, taker, maker, markets));
      }
    case CanceledOrder(id) =>
      var row := s.orders[id];
      if Open(row.status) && Obligation(row) > 0.0 { PostRecords(s, UnlockOf(id, row, markets[row.market], engineSeq)); }
    case Other =>
  }

  /** After any run from an empty ledger, the latest entry of each account states its
    current available and locked amounts. */
  lemma {:induction false} LedgerRecordsBalances(s: Db, markets: Markets, run: seq<Stored>)
    requires s.ledger == []
    ensures Recorded(SettleRun(s, markets, run))
  {
    if run != [] {
      LedgerRecordsBalances(s, markets, run[..|run| - 1]);
      var t, last := SettleRun(s, markets, run[..|run| - 1]), run[|run| - 1];
      hide Recorded, Settle;
      if Settle(t, markets, last.engineSeq, last.event).Some? {
        SettleRecords(t, markets, last.engineSeq, last.event);
      }
    }
  }

  // ---- Assets shrink by fees only ------------------------------------------------

  function MutationSum(l: Lens, ms: seq<Mutation>): real {
    if ms == [] then 0.0 else Counted(l, ms[0].account, ms[0].kind, ms[0].amount) + MutationSum(l, ms[1..])
  }

  lemma {:induction false} PostAllSums(l: Lens, s: Db, ms: seq<Mutation>)
    requires PostAll(s, ms).Some?
    ensures LedgerSum(l, PostAll(s, ms).value.ledger) == LedgerSum(l, s.ledger) + MutationSum(l, ms)
    decreases |ms|
  {
    if ms != [] {
      var t := Post(s, ms[0]).value;
      LedgerPush(l, s.ledger, t.ledger[|s.ledger|]);
      PostAllSums(l, t, ms[1..]);
      hide LedgerSum;
    }
  }

  lemma MutationNext(l: Lens, ms: seq<Mutation>, i: nat)
    requires i < |ms|
    ensures MutationSum(l, ms[i..]) ==
      Counted(l, ms[i].account, ms[i].kind, ms[i].amount) + MutationSum(l, ms[i + 1..])
  {
    assert ms[i..][1..] == ms[i + 1..];
  }

  lemma SixMutations(l: Lens, ms: seq<Mutation>)
    requires |ms| == 6
    ensures MutationSum(l, ms) ==
      Counted(l, ms[0].account, ms[0].kind, ms[0].amount) + Counted(l, ms[1].account, ms[1].kind, ms[1].amount) +
      Counted(l, ms[2].account, ms[2].kind, ms[2].amount) + Counted(l, ms[3].account, ms[3].kind, ms[3].amount) +
      Counted(l, ms[4].account, ms[4].kind, ms[4].amount) + Counted(l, ms[5].account, ms[5].kind, ms[5].amount)
  {
    hide Counted, MutationSum;
    assert ms[0..] == ms;
    MutationNext(l, ms, 0);
    MutationNext(l, ms, 1);
    MutationNext(l, ms, 2);
    MutationNext(l, ms, 3);
    MutationNext(l, ms, 4);
    MutationNext(l, ms, 5);
    NoMutations(l, ms[6..]);
  }

  lemma NoMutations(l: Lens, ms: seq<Mutation>)
    requires ms == []
    ensures MutationSum(l, ms) == 0.0
  {
  }

  /** The amounts of a fill within one market cancel out but for the fees. */
  lemma FillBalances(engineSeq: int, f: TradeFill, taker: OrderRow, maker: OrderRow, markets: Markets, a: Asset)
    requires taker.market in markets && maker.market == taker.market
    ensures var ms := FillMutations(engineSeq, f, taker, maker, markets);
      MutationSum(OfAsset(a), ms) == -MutationSum(FeesIn(a), ms)
  {
    hide FeeAmount, Notional, MutationSum;
    var ms := FillMutations(engineSeq, f, taker, maker, markets);
    SixMutations(OfAsset(a), ms);
    SixMutations(FeesIn(a), ms);
  }

  // ---- What a row says about its order -------------------------------------------

  /** The row has the order's terms, and its status is that of a cancelled order, or tells how much of it
    is filled. */
  predicate RowFollows(o: NewOrder, row: OrderRow) {
    && row.user == o.user && row.market == o.symbol && row.side == o.side
    && row.price == o.price && row.quantity == Some(o.quantity) && 0.0 < o.quantity
    && (row.avgPrice.None? <==> row.filled == 0.0)
    && (row.status == Canceled ||
        row.status == if row.filled <= 0.0 then New else if row.filled < o.quantity then Partial else Status.Filled)
  }

  ghost predicate RowKnown(run: seq<Stored>, id: Id, row: OrderRow) {
    exists i :: 0 <= i < |run| && run[i].event.Accepted? && run[i].event.order.id == id && RowFollows(run[i].event.order, row)
  }

  lemma RowKnownLater(run: seq<Stored>, last: Stored, id: Id, row: OrderRow, later: OrderRow)
    requires RowKnown(run, id, row)
    requires forall o :: RowFollows(o, row) ==> RowFollows(o, later)
    ensures RowKnown(run + [last], id, later)
  {
    hide RowFollows;
    var i :| 0 <= i < |run| && run[i].event.Accepted? && run[i].event.order.id == id && RowFollows(run[i].event.order, row);
    assert (run + [last])[i] == run[i];
  }

  lemma RowKnownAtLast(run: seq<Stored>, last: Stored, id: Id, row: OrderRow)
    requires last.event.Accepted? && last.event.order.id == id && RowFollows(last.event.order, row)
    ensures RowKnown(run + [last], id, row)
  {
    hide RowFollows;
    assert (run + [last])[|run|] == last;
  }

  lemma FilledFollows(row: OrderRow, price: real, quantity: real)
    requires RowFilled(row, price, quantity).Some?
    ensures forall o :: RowFollows(o, row) ==> RowFollows(o, RowFilled(row, price, quantity).value)
  {
    hide Mean;
  }

  lemma NewFollows(o: NewOrder)
    requires RowAllowed(o)
    ensures RowFollows(o, NewRow(o))
  {
  }

  lemma CanceledFollows(row: OrderRow)
    ensures forall o :: RowFollows(o, row) ==> RowFollows(o, row.(status := Canceled))
  {
  }

  /** Which rows an event may change, and how. */
  lemma RowAfter(s: Db, markets: Markets, engineSeq: int, e: EngineEvent, id: Id)
    requires Settle(s, markets, engineSeq, e).Some? && id in Settle(s, markets, engineSeq, e).value.orders
    ensures var row := Settle(s, markets, engineSeq, e).value.orders[id];
      || (id in s.orders && forall o :: RowFollows(o, s.orders[id]) ==> RowFollows(o, row))
      || (id !in s.orders && e.Accepted? && e.order.id == id && RowFollows(e.order, row))
  {
    hide PostAll, FillMutations, RowFilled, RowFollows, Obligation, LockObligation;
    match e
    case Accepted(o) => if o.id !in s.orders { NewFollows(o); }
    case Executed(f) =>
      if engineSeq !in s.trades {
        var taker, maker := s.orders[f.takerId], s.orders[f.makerId];
        PostAllKeepsRows(s.(trades := s.trades[engineSeq := Trade(taker.market, f)]), FillMutations(engineSeq, f, taker, maker, markets));
        FilledFollows(taker, f.price, f.quantity);
        FilledFollows(maker, f.price, f.quantity);
      }
    case CanceledOrder(x) => CanceledFollows(s.orders[x]);
    case Other =>
  }

  /** Over any run of events, repeats and failures included, each row has the terms with which its order
    was accepted, and a status that tells how much of it is filled. */
  lemma {:induction false} RowsFollowOrders(start: Db, markets: Markets, run: seq<Stored>, id: Id)
    requires start.orders == map[] && id in SettleRun(start, markets, run).orders
    ensures RowKnown(run, id, SettleRun(start, markets, run).orders[id])
  {
    if run != [] {
      var before, last := run[..|run| - 1], run[|run| - 1];
      var s := SettleRun(start, markets, before);
      hide Settle, RowKnown, RowFollows;
      assert run == before + [last];
      if id in s.orders { RowsFollowOrders(start, markets, before, id); }
      if Settle(s, markets, last.engineSeq, last.event).Some? {
        var row := Settle(s, markets, last.engineSeq, last.event).value.orders[id];
        RowAfter(s, markets, last.engineSeq, last.event, id);
        if id in s.orders { RowKnownLater(before, last, id, s.orders[id], row); } else { RowKnownAtLast(before, last, id, row); }
      } else {
        RowKnownLater(before, last, id, s.orders[id], s.orders[id]);
      }
    }
  }

  /** What a fill does to its parties' accounts: the taker's rate, in hundredths of a percent, is charged
    on what the buyer gets and the maker's on what the seller gets, also when it is the seller who took. */
  lemma FeesFollowTheSides(engineSeq: int, f: TradeFill, taker: OrderRow, maker: OrderRow, markets: Markets)
    requires taker.market in markets && maker.market == taker.market && taker.user != maker.user
    requires markets[taker.market].base != markets[taker.market].quote
    ensures var ms, m := FillMutations(engineSeq, f, taker, maker, markets), markets[taker.market];
      var buyer := if f.takerSide == Buy then taker.user else maker.user;
      var seller := if f.takerSide == Buy then maker.user else taker.user;
      && 10000.0 * (f.quantity - MutationSum(OfAccount(Account(buyer, m.base)), ms)) == f.quantity * m.takerFeeBps
      && MutationSum(OfAccount(Account(buyer, m.quote)), ms) == -(f.price * f.quantity)
      && 10000.0 * (f.price * f.quantity - MutationSum(OfAccount(Account(seller, m.quote)), ms)) == f.price * f.quantity * m.makerFeeBps
      && MutationSum(OfAccount(Account(seller, m.base)), ms) == -f.quantity
  {
    hide FeeAmount, MutationSum;
    var ms, m := FillMutations(engineSeq, f, taker, maker, markets), markets[taker.market];
    var buyer := if f.takerSide == Buy then taker.user else maker.user;
    var seller := if f.takerSide == Buy then maker.user else taker.user;
    SixMutations(OfAccount(Account(buyer, m.base)), ms);
    SixMutations(OfAccount(Account(buyer, m.quote)), ms);
    SixMutations(OfAccount(Account(seller, m.quote)), ms);
    SixMutations(OfAccount(Account(seller, m.base)), ms);
    FeeIsBasisPoints(f.quantity, m.takerFeeBps);
    FeeIsBasisPoints(Notional(f), m.makerFeeBps);
  }

  lemma FeeIsBasisPoints(gross: real, bps: real)
    ensures 10000.0 * FeeAmount(gross, bps) == gross * bps
  {
  }

  /** What is entered, without what it leaves on the account. */
  datatype Line = Line(account: Account, kind: Kind, amount: real, reference: Reference, engineSeq: int)

  function LineOf(e: Entry): Line {
    Line(e.account, e.kind, e.amount, e.reference, e.engineSeq)
  }

  function LineFor(m: Mutation): Line {
    Line(m.account, m.kind, m.amount, m.reference, m.engineSeq)
  }

  lemma {:induction false} PostAllEnters(s: Db, ms: seq<Mutation>) returns (added: seq<Entry>)
    requires PostAll(s, ms).Some?
    ensures PostAll(s, ms).value.ledger == s.ledger + added && |added| == |ms|
    ensures forall i :: 0 <= i < |ms| ==> LineOf(added[i]) == LineFor(ms[i])
    decreases |ms|
  {
    added := [];
    if ms != [] {
      var rest := PostAllEnters(Post(s, ms[0]).value, ms[1..]);
      added := [EntryOf(s.balances[ms[0].account], ms[0])] + rest;
    }
  }

  lemma StoredBeforePosting(s: Db, markets: Markets, engineSeq: int, f: TradeFill)
    requires engineSeq !in s.trades && SettleFill(s, markets, engineSeq, f).Some?
    ensures SettleFill(s, markets, engineSeq, f).value.trades ==
      s.trades[engineSeq := Trade(s.orders[f.takerId].market, f)]
  {
    hide PostAll, RowFilled, FillMutations;
    var taker, maker := s.orders[f.takerId], s.orders[f.makerId];
    PostAllKeepsRows(s.(trades := s.trades[engineSeq := Trade(taker.market, f)]), FillMutations(engineSeq, f, taker, maker, markets));
  }

  /** A fill that is settled has a positive price and quantity, and is stored. What it enters in the ledger:
    what the buyer gets and pays, what the seller gets and gives, and for each one fee, on what it
    gets, in hundredths of a percent. */
  lemma FillEnters(s: Db, markets: Markets, engineSeq: int, f: TradeFill)
    requires engineSeq !in s.trades && SettleFill(s, markets, engineSeq, f).Some?
    requires s.orders[f.takerId].market == s.orders[f.makerId].market
    ensures SettleFill(s, markets, engineSeq, f).value.trades == s.trades[engineSeq := Trade(s.orders[f.takerId].market, f)]
    ensures 0 < engineSeq && 0.0 < f.price && 0.0 < f.quantity
    ensures var taker, maker, m := s.orders[f.takerId], s.orders[f.makerId], markets[s.orders[f.takerId].market];
      var l, n := SettleFill(s, markets, engineSeq, f).value.ledger, |s.ledger|;
      var buyer := if f.takerSide == Buy then taker.user else maker.user;
      var seller := if f.takerSide == Buy then maker.user else taker.user;
      var line := (user, asset, kind, amount) => Line(Account(user, asset), kind, amount, TradeReference(f.tradeId), engineSeq);
      && |l| == n + 6 && l[..n] == s.ledger
      && LineOf(l[n]) == line(buyer, m.base, TradeKind, f.quantity)
      && LineOf(l[n + 1]) == line(buyer, m.base, FeeKind, l[n + 1].amount)
      && 10000.0 * l[n + 1].amount == -(f.quantity * m.takerFeeBps)
      && LineOf(l[n + 2]) == line(buyer, m.quote, TradeKind, -(f.price * f.quantity))
      && LineOf(l[n + 3]) == line(seller, m.quote, TradeKind, f.price * f.quantity)
      && LineOf(l[n + 4]) == line(seller, m.quote, FeeKind, l[n + 4].amount)
      && 10000.0 * l[n + 4].amount == -(f.price * f.quantity * m.makerFeeBps)
      && LineOf(l[n + 5]) == line(seller, m.base, TradeKind, -f.quantity)
  {
    hide PostAll, RowFilled, FeeAmount;
    StoredBeforePosting(s, markets, engineSeq, f);
    var taker, maker, m := s.orders[f.takerId], s.orders[f.makerId], markets[s.orders[f.takerId].market];
    var t := s.(trades := s.trades[engineSeq := Trade(taker.market, f)]);
    var ms := FillMutations(engineSeq, f, taker, maker, markets);
    var added := PostAllEnters(t, ms);
    var l := SettleFill(s, markets, engineSeq, f).value.ledger;
    assert l == s.ledger + added && forall i :: 0 <= i < 6 ==> LineOf(added[i]) == LineFor(ms[i]);
    FeeIsBasisPoints(f.quantity, m.takerFeeBps);
    FeeIsBasisPoints(Notional(f), m.makerFeeBps);
  }

  /** What an accepted order locks: a buy order the price times the quantity of the quote asset, if it has
    a price, and a sell order the quantity of the base asset. One entry tells it, with no amount:
    nothing comes or goes. */
  lemma AcceptEnters(s: Db, markets: Markets, engineSeq: int, o: NewOrder)
    requires o.id !in s.orders && SettleOrderAccepted(s, markets, engineSeq, o).Some?
    ensures var t, m := SettleOrderAccepted(s, markets, engineSeq, o).value, markets[o.symbol];
      var k := Account(o.user, if o.side == Buy then m.quote else m.base);
      var owed := if o.side == Sell then o.quantity else if o.price.Some? then o.price.value * o.quantity else 0.0;
      if 0.0 < owed then
        && |t.ledger| == |s.ledger| + 1 && t.ledger[..|s.ledger|] == s.ledger && k in s.balances
        && LineOf(t.ledger[|s.ledger|]) == Line(k, LockKind, 0.0, OrderReference(o.id), engineSeq)
        && t.balances == s.balances[k := Balance(s.balances[k].available - owed, s.balances[k].locked + owed)]
      else t.ledger == s.ledger && t.balances == s.balances
  {
  }

  /** What a cancelled open order gets back: the price times what is not filled, of a buy order with a
    price, and what is not filled, of a sell order. An order that is not open stays as it is. */
  lemma CancelEnters(s: Db, markets: Markets, engineSeq: int, id: Id)
    requires SettleCancel(s, markets, engineSeq, id).Some?
    ensures var t, row := SettleCancel(s, markets, engineSeq, id).value, s.orders[id];
      var k := Account(row.user, if row.side == Buy then markets[row.market].quote else markets[row.market].base);
      var left := if row.quantity.Some? then row.quantity.value - row.filled else 0.0;
      var owed := if row.side == Sell then left else if row.price.Some? then row.price.value * left else 0.0;
      if row.status == Status.Filled || row.status == Canceled then t == s
      else
        && t.orders == s.orders[id := row.(status := Canceled)] && t.trades == s.trades
        && if 0.0 < owed then
             && |t.ledger| == |s.ledger| + 1 && t.ledger[..|s.ledger|] == s.ledger && k in s.balances
             && LineOf(t.ledger[|s.ledger|]) == Line(k, UnlockKind, 0.0, OrderReference(id), engineSeq)
             && t.balances == s.balances[k := Balance(s.balances[k].available + owed, s.balances[k].locked - owed)]
           else t.ledger == s.ledger && t.balances == s.balances
  {
  }

  /** A new fill is between two orders of one market. */
  predicate OneMarket(s: Db, engineSeq: int, e: EngineEvent) {
    e.Executed? && engineSeq !in s.trades && e.fill.takerId in s.orders && e.fill.makerId in s.orders ==>
      s.orders[e.fill.takerId].market == s.orders[e.fill.makerId].market
  }

  lemma SettleCosts(s: Db, markets: Markets, engineSeq: int, e: EngineEvent, a: Asset)
    requires Settle(s, markets, engineSeq, e).Some? && OneMarket(s, engineSeq, e)
    ensures var t := Settle(s, markets, engineSeq, e).value;
      LedgerSum(OfAsset(a), t.ledger) + LedgerSum(FeesIn(a), t.ledger) ==
      LedgerSum(OfAsset(a), s.ledger) + LedgerSum(FeesIn(a), s.ledger)
  {
    hide PostAll, FillMutations, RowFilled, MutationSum, LedgerSum;
    match e
    case Accepted(o) =>
      if o.id !in s.orders && LockObligation(o, markets[o.symbol]).1 > 0.0 {
        AmountlessCosts(s.(orders := s.orders[o.id := NewRow(o)]), LockOf(o, markets[o.symbol], engineSeq), a);
      }
    case Executed(f) =>
      if engineSeq !in s.trades {
        var taker, maker := s.orders[f.takerId], s.orders[f.makerId];
        var t := s.(trades := s.trades[engineSeq := Trade(taker.market, f)]);
        var ms := FillMutations(engineSeq, f, taker, maker, markets);
        PostAllSums(OfAsset(a), t, ms);
        PostAllSums(FeesIn(a), t, ms);
        FillBalances(engineSeq, f, taker, maker, markets, a);
      }
    case CanceledOrder(id) =>
      var row := s.orders[id];
      if Open(row.status) && Obligation(row) > 0.0 { AmountlessCosts(s, UnlockOf(id, row, markets[row.market], engineSeq), a); }
    case Other =>
  }

  lemma AmountlessCosts(s: Db, m: Mutation, a: Asset)
    requires Post(s, m).Some? && m.amount == 0.0
    ensures LedgerSum(OfAsset(a), Post(s, m).value.ledger) == LedgerSum(OfAsset(a), s.ledger)
    ensures LedgerSum(FeesIn(a), Post(s, m).value.ledger) == LedgerSum(FeesIn(a), s.ledger)
  {
    var e := Post(s, m).value.ledger[|s.ledger|];
    LedgerPush(OfAsset(a), s.ledger, e);
    LedgerPush(FeesIn(a), s.ledger, e);
  }

  predicate OneMarketRun(s: Db, markets: Markets, run: seq<Stored>) {
    run == [] ||
    (OneMarketRun(s, markets, run[..|run| - 1]) &&
     OneMarket(SettleRun(s, markets, run[..|run| - 1]), run[|run| - 1].engineSeq, run[|run| - 1].event))
  }

  lemma {:induction false} RunCosts(s: Db, markets: Markets, run: seq<Stored>, a: Asset)
    requires OneMarketRun(s, markets, run)
    ensures var t := SettleRun(s, markets, run);
      LedgerSum(OfAsset(a), t.ledger) + LedgerSum(FeesIn(a), t.ledger) ==
      LedgerSum(OfAsset(a), s.ledger) + LedgerSum(FeesIn(a), s.ledger)
  {
    hide LedgerSum, Settle, OneMarket;
    if run != [] {
      var t, last := SettleRun(s, markets, run[..|run| - 1]), run[|run| - 1];
      RunCosts(s, markets, run[..|run| - 1], a);
      if Settle(t, markets, last.engineSeq, last.event).Some? {
        SettleCosts(t, markets, last.engineSeq, last.event, a);
      }
    }
  }

  /** Over any run whose fills stay within a market, an asset's total over all users falls by
    exactly the fees that the run charged in it. */
  lemma AssetsShrinkByFees(s: Db, markets: Markets, run: seq<Stored>, a: Asset)
    requires OneMarketRun(s, markets, run)
    ensures var t := SettleRun(s, markets, run);
      && s.ledger <= t.ledger
      && AssetTotal(t, a) == AssetTotal(s, a) - LedgerSum(FeesIn(a), Added(s, t))
  {
    RunFollows(s, markets, run);
    RunCosts(s, markets, run, a);
    var t := SettleRun(s, markets, run);
    assert t.ledger == s.ledger + Added(s, t);
    LedgerConcat(FeesIn(a), s.ledger, Added(s, t));
    hide LedgerSum, AssetTotal;
  }

  // ---- Settled events ------------------------------------------------------------

  /** The event has had its effect. */
  predicate Settled(s: Db, engineSeq: int, e: EngineEvent) {
    match e
    case Accepted(o) => o.id in s.orders
    case Executed(f) => engineSeq in s.trades
    case CanceledOrder(id) => id in s.orders && !Open(s.orders[id].status)
    case Other => true
  }

  lemma {:induction false} PostAllKeepsRows(s: Db, ms: seq<Mutation>)
    requires PostAll(s, ms).Some?
    ensures PostAll(s, ms).value.orders == s.orders && PostAll(s, ms).value.trades == s.trades
    decreases |ms|
  {
    if ms != [] { PostAllKeepsRows(Post(s, ms[0]).value, ms[1..]); }
  }

  /** The rows of an event's own orders are all it changes. */
  lemma SettleKeepsRows(s: Db, markets: Markets, engineSeq: int, e: EngineEvent)
    requires Settle(s, markets, engineSeq, e).Some?
    ensures var t := Settle(s, markets, engineSeq, e).value;
      && s.orders.Keys <= t.orders.Keys && s.trades.Keys <= t.trades.Keys
      && forall id :: id in s.orders ==> match e
           case Accepted(o) => t.orders[id] == s.orders[id]
           case Executed(f) => t.orders[id] == s.orders[id] || (engineSeq !in s.trades && id in {f.takerId, f.makerId})
           case CanceledOrder(c) => t.orders[id] == s.orders[id] || !Open(t.orders[id].status)
           case Other => t == s
    ensures Settled(Settle(s, markets, engineSeq, e).value, engineSeq, e)
  {
    hide PostAll, FillMutations, RowFilled;
    if e.Executed? && engineSeq !in s.trades {
      var f := e.fill;
      var taker, maker := s.orders[f.takerId], s.orders[f.makerId];
      var t := s.(trades := s.trades[engineSeq := Trade(taker.market, f)]);
      PostAllKeepsRows(t, FillMutations(engineSeq, f, taker, maker, markets));
    }
  }

  /** A handler repeated on what it has just settled changes nothing. */
  lemma SettledTwice(s: Db, markets: Markets, engineSeq: int, e: EngineEvent)
    requires Settle(s, markets, engineSeq, e).Some?
    ensures var t := Settle(s, markets, engineSeq, e).value; Settle(t, markets, engineSeq, e) == Some(t)
  {
    SettleKeepsRows(s, markets, engineSeq, e);
    hide Post, PostAll, FillMutations, RowFilled;
  }
}
