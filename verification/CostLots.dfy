/** Profit and loss by first-in-first-out cost lots (services/api/src/repositories/account.rs).
  Amounts are reals: decimal rounding is left out. */
module CostLots {
  import opened Orders

  datatype Lot = Lot(quantity: real, unitCost: real)

  /** A trade of one asset. */
  datatype Deal = Deal(buy: bool, price: real, quantity: real)

  datatype Position = Position(lots: seq<Lot>, realised: real)

  const Flat := Position([], 0.0)

  /** `quantity` at `price`, as one amount. */
  function Times(price: real, quantity: real): real {
    price * quantity
  }

  // ---- Lots ----------------------------------------------------------------------

  function Quantity(lots: seq<Lot>): real {
    if lots == [] then 0.0 else Quantity(lots[..|lots| - 1]) + lots[|lots| - 1].quantity
  }

  function Cost(lots: seq<Lot>): real {
    if lots == [] then 0.0
    else Cost(lots[..|lots| - 1]) + Times(lots[|lots| - 1].unitCost, lots[|lots| - 1].quantity)
  }

  predicate Positive(lots: seq<Lot>) {
    forall i :: 0 <= i < |lots| ==> 0.0 < lots[i].quantity
  }

  function Bought(p: Position, quantity: real, unitCost: real): Position {
    p.(lots := p.lots + [Lot(quantity, unitCost)])
  }

  /** Selling takes from the oldest lot first; what no lot covers is realised in full. */
  function Sold(p: Position, quantity: real, price: real): Position
    decreases |p.lots|
  {
    if quantity <= 0.0 then p
    else if p.lots == [] then p.(realised := p.realised + Times(price, quantity))
    else
      var front := p.lots[0];
      if front.quantity <= quantity then
        Sold(Position(p.lots[1..], p.realised + Times(price - front.unitCost, front.quantity)), quantity - front.quantity, price)
      else
        Position([front.(quantity := front.quantity - quantity)] + p.lots[1..],
                 p.realised + Times(price - front.unitCost, quantity))
  }

  function After(p: Position, d: Deal): Position {
    if d.buy then Bought(p, d.quantity, d.price) else Sold(p, d.quantity, d.price)
  }

  /** The position after a history of trades. */
  function Replayed(deals: seq<Deal>): Position {
    if deals == [] then Flat else After(Replayed(deals[..|deals| - 1]), deals[|deals| - 1])
  }

  class PnlState {
    var lots: seq<Lot>
    var realisedPnl: real

    constructor ()
      ensures Value() == Flat
    {
      lots, realisedPnl := [], 0.0;
    }

    function Value(): Position
      reads this
    {
      Position(lots, realisedPnl)
    }

    method Buy(quantity: real, unitCost: real)
      modifies this
      ensures Value() == Bought(old(Value()), quantity, unitCost)
      ensures Quantity(lots) == Quantity(old(lots)) + quantity
      ensures Cost(lots) == Cost(old(lots)) + Times(unitCost, quantity) && realisedPnl == old(realisedPnl)
    {
      assert (lots + [Lot(quantity, unitCost)])[..|lots|] == lots;
      lots := lots + [Lot(quantity, unitCost)];
    }

    method Sell(quantity: real, price: real)
      modifies this
      ensures Value() == Sold(old(Value()), quantity, price)
    {
      hide Times;
      var left := quantity;
      ghost var goal := Sold(Value(), quantity, price);
      while left > 0.0
        invariant Sold(Value(), left, price) == goal
        decreases |lots|, if left > 0.0 then 1 else 0
      {
        if lots == [] {
          realisedPnl := realisedPnl + Times(price, left);
          return;
        }
        var front := lots[0];
        var consumed := if front.quantity <= left then front.quantity else left;
        realisedPnl := realisedPnl + Times(price - front.unitCost, consumed);
        left := left - consumed;
        if front.quantity - consumed <= 0.0 {
          lots := lots[1..];
        } else {
          lots := [front.(quantity := front.quantity - consumed)] + lots[1..];
        }
      }
    }

    method RemainingQuantity() returns (total: real)
      ensures total == Quantity(lots)
    {
      total := 0.0;
      for i := 0 to |lots|
        invariant total == Quantity(lots[..i])
      {
        assert lots[..i + 1][..i] == lots[..i];
        total := total + lots[i].quantity;
      }
      assert lots[..|lots|] == lots;
    }

    method RemainingCost() returns (total: real)
      ensures total == Cost(lots)
    {
      total := 0.0;
      for i := 0 to |lots|
        invariant total == Cost(lots[..i])
      {
        assert lots[..i + 1][..i] == lots[..i];
        total := total + Times(lots[i].unitCost, lots[i].quantity);
      }
      assert lots[..|lots|] == lots;
    }
  }

  // ---- Sums over a history -------------------------------------------------------

  predicate Real(deals: seq<Deal>) {
    forall i :: 0 <= i < |deals| ==> 0.0 < deals[i].quantity
  }

  function Paid(deals: seq<Deal>): real {
    if deals == [] then 0.0
    else Paid(deals[..|deals| - 1]) + var d := deals[|deals| - 1]; if d.buy then Times(d.price, d.quantity) else 0.0
  }

  function Proceeds(deals: seq<Deal>): real {
    if deals == [] then 0.0
    else Proceeds(deals[..|deals| - 1]) + var d := deals[|deals| - 1]; if d.buy then 0.0 else Times(d.price, d.quantity)
  }

  /** Every lot that was bought. */
  function AllLots(deals: seq<Deal>): seq<Lot> {
    if deals == [] then []
    else AllLots(deals[..|deals| - 1]) + var d := deals[|deals| - 1]; if d.buy then [Lot(d.quantity, d.price)] else []
  }

  /** What is held: selling more than that leaves nothing, and no debt. */
  function Held(deals: seq<Deal>): real {
    if deals == [] then 0.0
    else
      var before, d := Held(deals[..|deals| - 1]), deals[|deals| - 1];
      if d.buy then before + d.quantity else if before <= d.quantity then 0.0 else before - d.quantity
  }

  // ---- One sale ------------------------------------------------------------------

  lemma {:induction false} QuantityFront(lots: seq<Lot>)
    requires lots != []
    ensures Quantity(lots) == lots[0].quantity + Quantity(lots[1..])
    ensures Cost(lots) == Times(lots[0].unitCost, lots[0].quantity) + Cost(lots[1..])
  {
    if |lots| == 1 {
      assert lots[..0] == [] && lots[1..] == [];
    } else {
      QuantityFront(lots[..|lots| - 1]);
      assert lots[..|lots| - 1][1..] == lots[1..][..|lots| - 2];
    }
  }

  lemma {:induction false} QuantityNonNegative(lots: seq<Lot>)
    requires Positive(lots)
    ensures 0.0 <= Quantity(lots) && (lots != [] ==> 0.0 < Quantity(lots))
  {
    if lots != [] { QuantityNonNegative(lots[..|lots| - 1]); }
  }

  lemma TailPositive(lots: seq<Lot>)
    requires Positive(lots) && lots != []
    ensures Positive(lots[1..])
  {
  }

  lemma Margin(price: real, cost: real, quantity: real)
    ensures Times(price - cost, quantity) == Times(price, quantity) - Times(cost, quantity)
  {
  }

  lemma Split(price: real, x: real, y: real)
    ensures Times(price, x) == Times(price, y) + Times(price, x - y)
  {
  }

  lemma Nothing(price: real)
    ensures Times(price, 0.0) == 0.0
  {
  }

  /** A sale's proceeds go to profit and to the cost of what was sold; the holding falls by the
    quantity, but not below nothing. */
  lemma {:induction false} SoldBalances(p: Position, quantity: real, price: real)
    requires Positive(p.lots) && 0.0 <= quantity
    ensures var q := Sold(p, quantity, price);
      && Positive(q.lots)
      && q.realised - Cost(q.lots) == p.realised - Cost(p.lots) + Times(price, quantity)
      && Quantity(q.lots) == (if Quantity(p.lots) <= quantity then 0.0 else Quantity(p.lots) - quantity)
    decreases |p.lots|
  {
    hide Times, Cost, Quantity;
    NoLots();
    QuantityNonNegative(p.lots);
    Nothing(price);
    if quantity > 0.0 && p.lots != [] {
      var front, rest := p.lots[0], p.lots[1..];
      QuantityFront(p.lots);
      TailPositive(p.lots);
      QuantityNonNegative(rest);
      if front.quantity <= quantity {
        Margin(price, front.unitCost, front.quantity);
        Split(price, quantity, front.quantity);
        SoldBalances(Position(rest, p.realised + Times(price - front.unitCost, front.quantity)), quantity - front.quantity, price);
      } else {
        var left := front.(quantity := front.quantity - quantity);
        QuantityFront([left] + rest);
        assert ([left] + rest)[1..] == rest;
        Margin(price, front.unitCost, quantity);
        Split(front.unitCost, front.quantity, quantity);
      }
    }
  }

  lemma NoLots()
    ensures Quantity([]) == 0.0 && Cost([]) == 0.0
  {
  }

  // ---- Whole histories -----------------------------------------------------------

  lemma QuantityPush(lots: seq<Lot>, l: Lot)
    ensures Quantity(lots + [l]) == Quantity(lots) + l.quantity && Cost(lots + [l]) == Cost(lots) + Times(l.unitCost, l.quantity)
  {
    assert (lots + [l])[..|lots|] == lots;
  }

  /** For every history, oversells included: realised profit plus what all buys cost equals
    what all sells brought plus the cost of what is left; and the lots make up the holding. */
  lemma {:induction false} ProfitIsAccounted(deals: seq<Deal>)
    requires Real(deals)
    ensures var p := Replayed(deals);
      && Positive(p.lots)
      && p.realised + Paid(deals) == Proceeds(deals) + Cost(p.lots)
      && Quantity(p.lots) == Held(deals)
  {
    if deals != [] {
      var before, d := deals[..|deals| - 1], deals[|deals| - 1];
      var p := Replayed(before);
      ProfitIsAccounted(before);
      hide Cost, Quantity, Sold, Times;
      if d.buy { QuantityPush(p.lots, Lot(d.quantity, d.price)); } else { SoldBalances(p, d.quantity, d.price); }
    }
  }

  // ---- Which lots are left -------------------------------------------------------

  /** The lots without their first `x` units. */
  function Dropped(lots: seq<Lot>, x: real): seq<Lot>
    decreases |lots|
  {
    if lots == [] || x <= 0.0 then lots
    else if lots[0].quantity <= x then Dropped(lots[1..], x - lots[0].quantity)
    else [lots[0].(quantity := lots[0].quantity - x)] + lots[1..]
  }

  lemma {:induction false} SoldDrops(p: Position, quantity: real, price: real)
    ensures Sold(p, quantity, price).lots == Dropped(p.lots, quantity)
    decreases |p.lots|
  {
    hide Times;
    if quantity > 0.0 && p.lots != [] && p.lots[0].quantity <= quantity {
      SoldDrops(Position(p.lots[1..], p.realised + Times(price - p.lots[0].unitCost, p.lots[0].quantity)),
                quantity - p.lots[0].quantity, price);
    }
  }

  lemma {:induction false} DroppedTwice(lots: seq<Lot>, x: real, y: real)
    requires Positive(lots) && 0.0 <= x && 0.0 <= y
    ensures Dropped(Dropped(lots, x), y) == Dropped(lots, x + y)
    decreases |lots|
  {
    if lots != [] && x > 0.0 {
      if lots[0].quantity <= x {
        TailPositive(lots);
        DroppedTwice(lots[1..], x - lots[0].quantity, y);
        assert (x - lots[0].quantity) + y == x + y - lots[0].quantity;
      } else {
        var left := lots[0].(quantity := lots[0].quantity - x);
        assert ([left] + lots[1..])[1..] == lots[1..];
        if y >= left.quantity { assert y - left.quantity == x + y - lots[0].quantity; }
      }
    }
  }

  /** Buying adds behind what is left. */
  lemma {:induction false} DroppedPush(lots: seq<Lot>, l: Lot, x: real)
    requires Positive(lots) && x <= Quantity(lots)
    ensures Dropped(lots + [l], x) == Dropped(lots, x) + [l]
    decreases |lots|
  {
    if lots != [] && x > 0.0 {
      assert (lots + [l])[1..] == lots[1..] + [l];
      QuantityFront(lots);
      TailPositive(lots);
      hide Quantity;
      if lots[0].quantity <= x {
        DroppedPush(lots[1..], l, x - lots[0].quantity);
      } else {
        var left := lots[0].(quantity := lots[0].quantity - x);
        assert [left] + (lots[1..] + [l]) == ([left] + lots[1..]) + [l];
      }
    }
  }

  lemma {:induction false} DroppedAll(lots: seq<Lot>, x: real)
    requires Positive(lots) && Quantity(lots) <= x
    ensures Dropped(lots, x) == []
    decreases |lots|
  {
    QuantityNonNegative(lots);
    if lots != [] {
      QuantityFront(lots);
      TailPositive(lots);
      QuantityNonNegative(lots[1..]);
      hide Quantity;
      DroppedAll(lots[1..], x - lots[0].quantity);
    }
  }

  lemma AllLotsPush(deals: seq<Deal>)
    requires deals != []
    ensures var before, d := deals[..|deals| - 1], deals[|deals| - 1];
      AllLots(deals) == (if d.buy then AllLots(before) + [Lot(d.quantity, d.price)] else AllLots(before))
  {
    assert AllLots(deals[..|deals| - 1]) + [] == AllLots(deals[..|deals| - 1]);
  }

  lemma {:induction false} AllLotsPositive(deals: seq<Deal>)
    requires Real(deals)
    ensures Positive(AllLots(deals)) && 0.0 <= Held(deals) <= Quantity(AllLots(deals))
  {
    if deals != [] {
      var before, d := deals[..|deals| - 1], deals[|deals| - 1];
      AllLotsPositive(before);
      AllLotsPush(deals);
      QuantityPush(AllLots(before), Lot(d.quantity, d.price));
      hide Quantity, AllLots;
    }
  }

  lemma BuyingAdds(all: seq<Lot>, held: real, l: Lot)
    requires Positive(all) && 0.0 <= held <= Quantity(all)
    ensures Dropped(all + [l], Quantity(all + [l]) - (held + l.quantity)) == Dropped(all, Quantity(all) - held) + [l]
  {
    QuantityPush(all, l);
    DroppedPush(all, l, Quantity(all) - held);
    hide Dropped, Quantity;
    assert Quantity(all + [l]) - (held + l.quantity) == Quantity(all) - held;
  }

  lemma SellingDrops(all: seq<Lot>, held: real, quantity: real)
    requires Positive(all) && 0.0 <= held <= Quantity(all) && 0.0 < quantity
    ensures Dropped(Dropped(all, Quantity(all) - held), quantity) ==
      Dropped(all, Quantity(all) - (if held <= quantity then 0.0 else held - quantity))
  {
    var gone := Quantity(all) - held;
    DroppedTwice(all, gone, quantity);
    hide Dropped, Quantity;
    if held <= quantity {
      DroppedAll(all, gone + quantity);
      DroppedAll(all, Quantity(all));
      assert Quantity(all) - 0.0 == Quantity(all);
    } else {
      assert gone + quantity == Quantity(all) - (held - quantity);
    }
  }

  lemma NothingToDrop()
    ensures AllLots([]) == [] && Dropped([], Quantity([])) == []
  {
  }

  /** What is left of the lots is exactly the newest units bought, in the order they were
    bought: all lots ever bought, without as many of their first units as are no longer held. */
  lemma {:induction false} NewestUnitsRemain(deals: seq<Deal>)
    requires Real(deals)
    ensures Replayed(deals).lots == Dropped(AllLots(deals), Quantity(AllLots(deals)) - Held(deals))
  {
    hide Quantity, AllLots, Sold, Dropped, Times;
    if deals == [] {
      NothingToDrop();
    } else {
      var before, d := deals[..|deals| - 1], deals[|deals| - 1];
      NewestUnitsRemain(before);
      AllLotsPositive(before);
      AllLotsPush(deals);
      if d.buy {
        BuyingAdds(AllLots(before), Held(before), Lot(d.quantity, d.price));
      } else {
        SoldDrops(Replayed(before), d.quantity, d.price);
        SellingDrops(AllLots(before), Held(before), d.quantity);
      }
    }
  }

  // ---- The report ----------------------------------------------------------------

  datatype AssetDeal = AssetDeal(asset: string, deal: Deal)

  datatype Row = Row(
    asset: string, quantity: real, avgCost: real, marketPrice: Option<real>, unrealised: Option<real>, realised: real)

  /** The trades of one asset. */
  function DealsOf(trades: seq<AssetDeal>, asset: string): seq<Deal> {
    if trades == [] then []
    else DealsOf(trades[..|trades| - 1], asset) +
         if trades[|trades| - 1].asset == asset then [trades[|trades| - 1].deal] else []
  }

  function Assets(trades: seq<AssetDeal>): set<string> {
    set i | 0 <= i < |trades| :: trades[i].asset
  }

  /** One line of the report: the quantity is the account's balance if there is one, the cost
    that of the lots. */
  function RowOf(asset: string, p: Position, quantities: map<string, real>, prices: map<string, Option<real>>): Row {
    var quantity := if asset in quantities then quantities[asset] else Quantity(p.lots);
    var avgCost := if quantity > 0.0 then Cost(p.lots) / quantity else 0.0;
    var market := if asset in prices then prices[asset] else None;
    var unrealised := if market.Some? then Some(Times(market.value - avgCost, quantity)) else None;
    Row(asset, quantity, avgCost, market, unrealised, p.realised)
  }

  lemma Average(cost: real, quantity: real)
    requires 0.0 < quantity
    ensures Times(cost / quantity, quantity) == cost
  {
  }

  /** A line with a market price and a holding: realised and unrealised profit together are
    what the sales brought and the holding is worth, less all that was paid. */
  lemma RowTellsTotalProfit(asset: string, deals: seq<Deal>, quantities: map<string, real>, prices: map<string, Option<real>>)
    requires Real(deals)
    ensures var row := RowOf(asset, Replayed(deals), quantities, prices);
      row.marketPrice.Some? && 0.0 < row.quantity ==>
        row.realised + row.unrealised.value == Proceeds(deals) + Times(row.marketPrice.value, row.quantity) - Paid(deals)
  {
    var row := RowOf(asset, Replayed(deals), quantities, prices);
    ProfitIsAccounted(deals);
    if row.marketPrice.Some? && 0.0 < row.quantity {
      Margin(row.marketPrice.value, row.avgCost, row.quantity);
      Average(Cost(Replayed(deals).lots), row.quantity);
    }
    hide Times, Cost, Quantity, Paid, Proceeds;
  }

  /** A line states the account's balance where there is one, and otherwise what is held of what was
    bought; the price that was given for the asset, if any; the mean cost of what is left, or zero
    without a holding; and what the holding would bring above that at the given price. */
  lemma RowTellsHolding(asset: string, deals: seq<Deal>, quantities: map<string, real>, prices: map<string, Option<real>>)
    requires Real(deals)
    ensures var row := RowOf(asset, Replayed(deals), quantities, prices);
      && row.asset == asset
      && row.quantity == (if asset in quantities then quantities[asset] else Held(deals))
      && (forall price :: row.marketPrice == Some(price) <==> asset in prices && prices[asset] == Some(price))
      && (0.0 < row.quantity ==> Times(row.avgCost, row.quantity) == row.realised + Paid(deals) - Proceeds(deals))
      && (row.quantity <= 0.0 ==> row.avgCost == 0.0)
      && (row.unrealised.Some? <==> row.marketPrice.Some?)
      && (row.marketPrice.Some? ==> row.unrealised.value == Times(row.marketPrice.value - row.avgCost, row.quantity))
  {
    var row := RowOf(asset, Replayed(deals), quantities, prices);
    ProfitIsAccounted(deals);
    hide Times, Cost, Quantity, Paid, Proceeds, Held, Replayed;
    if 0.0 < row.quantity { Average(Cost(Replayed(deals).lots), row.quantity); }
  }

  // ---- Computing the report ------------------------------------------------------

  ghost predicate Unshared(states: map<string, PnlState>) {
    forall a, b :: a in states && b in states && a != b ==> states[a] != states[b]
  }

  /** Each state object holds the position of its asset's trades. */
  ghost predicate Reflects(states: map<string, PnlState>, trades: seq<AssetDeal>)
    reads states.Values
  {
    forall a :: a in states ==> states[a].Value() == Replayed(DealsOf(trades, a))
  }

  lemma DealsPush(trades: seq<AssetDeal>, i: nat, asset: string)
    requires i < |trades|
    ensures Replayed(DealsOf(trades[..i + 1], asset)) ==
      if trades[i].asset == asset then After(Replayed(DealsOf(trades[..i], asset)), trades[i].deal)
      else Replayed(DealsOf(trades[..i], asset))
  {
    var before := DealsOf(trades[..i], asset);
    assert trades[..i + 1][..i] == trades[..i];
    assert (before + [trades[i].deal])[..|before|] == before;
    assert before + [] == before;
  }

  lemma NoDeals(trades: seq<AssetDeal>, asset: string)
    requires asset !in Assets(trades)
    ensures DealsOf(trades, asset) == []
  {
    if trades != [] {
      assert trades[|trades| - 1].asset in Assets(trades);
      NoDeals(trades[..|trades| - 1], asset);
    }
  }

  /** The first loop of `compute_pnl`: every trade goes to its asset's state. */
  method TrackTrades(trades: seq<AssetDeal>) returns (states: map<string, PnlState>)
    ensures states.Keys == Assets(trades) && Unshared(states) && Reflects(states, trades)
    ensures forall a :: a in states ==> fresh(states[a])
  {
    hide After, Replayed, DealsOf;
    states := map[];
    for i := 0 to |trades|
      invariant states.Keys == Assets(trades[..i]) && Unshared(states) && Reflects(states, trades[..i])
      invariant forall a :: a in states ==> fresh(states[a])
    {
      states := Track(states, trades, i);
    }
    assert trades[..|trades|] == trades;
  }

  method Apply(state: PnlState, deal: Deal)
    modifies state
    ensures state.Value() == After(old(state.Value()), deal)
  {
    if deal.buy {
      state.Buy(deal.quantity, deal.price);
    } else {
      state.Sell(deal.quantity, deal.price);
    }
  }

  method Track(states: map<string, PnlState>, trades: seq<AssetDeal>, i: nat) returns (after: map<string, PnlState>)
    requires i < |trades|
    requires states.Keys == Assets(trades[..i]) && Unshared(states) && Reflects(states, trades[..i])
    modifies states.Values
    ensures after.Keys == Assets(trades[..i + 1]) && Unshared(after) && Reflects(after, trades[..i + 1])
    ensures forall a :: a in after ==> fresh(after[a]) || (a in states && after[a] == states[a])
  {
    hide After, Replayed, DealsOf;
    var asset, deal := trades[i].asset, trades[i].deal;
    assert Assets(trades[..i + 1]) == Assets(trades[..i]) + {asset};
    var state := StateFor(states, trades, i, asset);
    after := states[asset := state];
    Apply(state, deal);
    forall a | a in after ensures after[a].Value() == Replayed(DealsOf(trades[..i + 1], a)) {
      DealsPush(trades, i, a);
      if a != asset { assert after[a] == states[a] && states[a] in states.Values; }
    }
  }

  method StateFor(states: map<string, PnlState>, trades: seq<AssetDeal>, i: nat, asset: string) returns (state: PnlState)
    requires i <= |trades|
    requires states.Keys == Assets(trades[..i]) && Reflects(states, trades[..i])
    ensures state.Value() == Replayed(DealsOf(trades[..i], asset))
    ensures if asset in states then state == states[asset] else fresh(state)
  {
    if asset in states {
      state := states[asset];
    } else {
      state := new PnlState();
      NoDeals(trades[..i], asset);
    }
  }

  /** `compute_pnl`: a line for every asset that was traded or is held. */
  method ComputePnl(trades: seq<AssetDeal>, quantities: map<string, real>, prices: map<string, Option<real>>)
    returns (rows: map<string, Row>)
    ensures rows.Keys == Assets(trades) + quantities.Keys
    ensures forall a :: a in rows ==> rows[a] == RowOf(a, Replayed(DealsOf(trades, a)), quantities, prices)
  {
    hide After, DealsOf, RowOf;
    var states := TrackTrades(trades);
    rows := map a | a in states.Keys + quantities.Keys ::
      RowOf(a, if a in states then states[a].Value() else Flat, quantities, prices);
    forall a | a in rows ensures rows[a] == RowOf(a, Replayed(DealsOf(trades, a)), quantities, prices) {
      if a !in states { NoDeals(trades, a); }
    }
  }
}
