/** The order vocabulary of the matching core (engine/crates/core/src/types.rs).
  Prices and quantities are decimals that the core only adds, subtracts and compares;
  they are scaled integers here. Identifiers are integers: the core only compares them. */
module Orders {

  type Id = int
  type UserId = int
  type Symbol = string

  datatype Option<+T> = None | Some(value: T) {
    function Or(default: T): T {
      match this
      case Some(v) => v
      case None => default
    }
  }

  datatype Side = Buy | Sell {
    function Opposite(): Side {
      match this
      case Buy => Sell
      case Sell => Buy
    }
  }

  datatype OrderType = Limit | Market | Ioc | Fok | PostOnly | StopLimit | StopMarket | Oco | Iceberg {
    predicate IsStop() {
      StopLimit? || StopMarket?
    }
  }

  datatype StpMode = Decrement | CancelMaker | CancelTaker

  datatype CancelReason =
    NoLiquidity | FokUnfilled | PostOnlyCrossed | SelfTradePrevented | OcoCancel | AdminCancel

  datatype Order = Order(
    id: Id,
    user: UserId,
    symbol: Symbol,
    side: Side,
    kind: OrderType,
    price: Option<int>,
    quantity: int,
    remaining: int,
    stpMode: StpMode,
    stopPrice: Option<int>,
    ocoLinkedId: Option<Id>,
    displayQty: Option<int>)
  {
    /** What the matcher needs of any order it handles: something left to trade, and a
      display size, if one is given, that lets a fill make progress. */
    predicate Ready() {
      && 0 < remaining <= quantity
      && (displayQty.Some? ==> 0 < displayQty.value)
    }

    /** The quantity one fill can take from this order: an iceberg shows a slice only. */
    function Effective(): int {
      if displayQty.Some? && displayQty.value < remaining then displayQty.value else remaining
    }
  }

  datatype Fill = Fill(takerId: Id, makerId: Id, price: int, quantity: int, takerSide: Side)

  datatype Event =
    | Filled(fill: Fill)
    | Rested(restedId: Id, restedQty: int)
    | Cancelled(cancelledId: Id, reason: CancelReason)
    | StopTriggered(stopId: Id)

  function Min(a: int, b: int): int {
    if a <= b then a else b
  }
}
