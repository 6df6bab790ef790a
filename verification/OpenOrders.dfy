/** The server's table of open orders, kept beside the books from the announced events alone
  (engine/crates/server/src/state.rs), and when it is exact. */
module OpenOrders {
  import opened Orders
  import opened Ladder
  import opened Matcher
  import opened BookInvariants
  import opened Cascade
  import opened Conservation
  import opened Histories
  import opened StopOrders

  datatype OpenOrder = OpenOrder(user: UserId, symbol: Symbol, remaining: int)

  type Table = map<Id, OpenOrder>

  // ---- Updates -------------------------------------------------------------------

  function Decremented(t: Table, id: Id, qty: int): Table {
    if id !in t then t
    else if t[id].remaining <= qty then t - {id}
    else t[id := t[id].(remaining := t[id].remaining - qty)]
  }

  function Updated(t: Table, submitted: Option<Order>, e: Event): Table {
    match e
    case Filled(f) => Decremented(Decremented(t, f.makerId, f.quantity), f.takerId, f.quantity)
    case Rested(id, qty) =>
      if submitted.Some? && submitted.value.id == id then
        t[id := OpenOrder(submitted.value.user, submitted.value.symbol, qty)]
      else if id in t then t[id := t[id].(remaining := qty)]
      else t
    case Cancelled(id, _) => t - {id}
    case StopTriggered(_) => t
  }

  function ApplyUpdates(t: Table, submitted: Option<Order>, events: seq<Event>): Table {
    if events == [] then t
    else Updated(ApplyUpdates(t, submitted, events[..|events| - 1]), submitted, events[|events| - 1])
  }

  /** `apply_open_order_updates`. */
  method ApplyOpenOrderUpdates(open: Table, submitted: Option<Order>, events: seq<Event>) returns (t: Table)
    ensures t == ApplyUpdates(open, submitted, events)
  {
    t := open;
    for i := 0 to |events|
      invariant t == ApplyUpdates(open, submitted, events[..i])
    {
      assert events[..i + 1][..i] == events[..i];
      match events[i] {
        case Filled(f) =>
          t := DecrementOpenOrder(t, f.makerId, f.quantity);
          t := DecrementOpenOrder(t, f.takerId, f.quantity);
        case Rested(id, qty) =>
          if submitted.Some? && submitted.value.id == id {
            t := t[id := OpenOrder(submitted.value.user, submitted.value.symbol, qty)];
          } else if id in t {
            t := t[id := t[id].(remaining := qty)];
          }
        case Cancelled(id, _) =>
          t := t - {id};
        case StopTriggered(_) =>
      }
    }
    assert events[..|events|] == events;
  }

  /** The entry is lowered, and gone once nothing is left of it; others stay as they are. */
  method DecrementOpenOrder(open: Table, id: Id, qty: int) returns (t: Table)
    ensures t == Decremented(open, id, qty)
    ensures t - {id} == open - {id} && (id in t <==> id in open && qty < open[id].remaining)
    ensures Positive(open) ==> Positive(t) || qty < 0
    ensures Positive(open) && 0 <= qty ==> AmountIn(t, id) == Less(AmountIn(open, id), qty)
  {
    t := open;
    if id !in t {
      return;
    }
    if t[id].remaining <= qty {
      t := t - {id};
    } else {
      t := t[id := t[id].(remaining := t[id].remaining - qty)];
    }
  }

  // ---- One id's share of the table -----------------------------------------------

  function AmountIn(t: Table, x: Id): int {
    if x in t then t[x].remaining else 0
  }

  /** Entries stand for something left. */
  ghost predicate Positive(t: Table) {
    forall x :: x in t ==> 0 < t[x].remaining
  }

  function Less(a: int, qty: int): int {
    if a <= qty then 0 else a - qty
  }

  /** What a move does to the amount entered under `x`; `sub` is the order submitted. */
  function Follow(x: Id, sub: Option<Id>, a: int, m: Move): int {
    match m
    case Trade(f) =>
      var b := if f.makerId == x then Less(a, f.quantity) else a;
      if f.takerId == x then Less(b, f.quantity) else b
    case Rest(id, qty) => if id == x && (sub == Some(x) || a > 0) then qty else a
    case Void(id, _, _, _) => if id == x then 0 else a
    case _ => a
  }

  function FollowAll(x: Id, sub: Option<Id>, a: int, moves: seq<Move>): int {
    if moves == [] then a
    else Follow(x, sub, FollowAll(x, sub, a, moves[..|moves| - 1]), moves[|moves| - 1])
  }

  function IdOf(o: Option<Order>): Option<Id> {
    if o.Some? then Some(o.value.id) else None
  }

  lemma UpdatedAmount(t: Table, submitted: Option<Order>, m: Move, x: Id)
    requires Positive(t) && Sound(m)
    ensures EventOf(m) != [] ==>
      var u := Updated(t, submitted, EventOf(m)[0]);
      Positive(u) && AmountIn(u, x) == Follow(x, IdOf(submitted), AmountIn(t, x), m)
    ensures EventOf(m) == [] ==> AmountIn(t, x) == Follow(x, IdOf(submitted), AmountIn(t, x), m)
  {
  }

  /** The table follows each id on its own. */
  lemma {:induction false} UpdatesFollow(t: Table, submitted: Option<Order>, moves: seq<Move>, x: Id)
    requires Positive(t) && AllSound(moves)
    ensures var u := ApplyUpdates(t, submitted, EventsOf(moves));
      Positive(u) && AmountIn(u, x) == FollowAll(x, IdOf(submitted), AmountIn(t, x), moves)
  {
    if moves != [] {
      var front, last := moves[..|moves| - 1], moves[|moves| - 1];
      assert last in moves && Sound(last);
      UpdatesFollow(t, submitted, front, x);
      UpdatedAmount(ApplyUpdates(t, submitted, EventsOf(front)), submitted, last, x);
      UpdatesPush(t, submitted, EventsOf(front), EventOf(last));
    }
  }

  lemma UpdatesPush(t: Table, submitted: Option<Order>, a: seq<Event>, b: seq<Event>)
    requires |b| <= 1
    ensures ApplyUpdates(t, submitted, a + b) ==
      if b == [] then ApplyUpdates(t, submitted, a) else Updated(ApplyUpdates(t, submitted, a), submitted, b[0])
  {
    if b == [] {
      assert a + b == a;
    } else {
      assert (a + b)[..|a + b| - 1] == a;
    }
  }

  lemma {:induction false} FollowConcat(x: Id, sub: Option<Id>, a: int, p: seq<Move>, q: seq<Move>)
    ensures FollowAll(x, sub, a, p + q) == FollowAll(x, sub, FollowAll(x, sub, a, p), q)
  {
    if q == [] {
      assert p + q == p;
    } else {
      assert (p + q)[..|p + q| - 1] == p + q[..|q| - 1];
      FollowConcat(x, sub, a, p, q[..|q| - 1]);
    }
  }

  lemma FollowPush(x: Id, sub: Option<Id>, a: int, p: seq<Move>, m: Move)
    ensures FollowAll(x, sub, a, p + [m]) == Follow(x, sub, FollowAll(x, sub, a, p), m)
  {
    assert (p + [m])[..|p|] == p;
  }

  lemma FollowOne(x: Id, sub: Option<Id>, a: int, m: Move)
    ensures FollowAll(x, sub, a, [m]) == Follow(x, sub, a, m)
  {
    assert [m] == [] + [m];
    FollowPush(x, sub, a, [], m);
    FollowNone(x, sub, a);
  }

  lemma FollowNone(x: Id, sub: Option<Id>, a: int)
    ensures FollowAll(x, sub, a, []) == a
  {
  }

  // ---- Cancelling keeps the table exact ------------------------------------------

  /** `h` is entered for an order elsewhere, or for one in hand: never together with an
    order of this book under the same id. */
  ghost predicate Apart(b: Book, x: Id, h: int) {
    0 <= h && Total(Count(x), b) <= 1 && (h > 0 ==> Total(Count(x), b) <= 0)
  }

  lemma WithdrawShape(b: Book, id: Id, reason: CancelReason)
    ensures var (c, moves) := Withdraw(b, id, reason);
      if moves == [] then c == b else moves == [moves[0]] && moves[0].Void? && moves[0].voidId == id
  {
  }

  lemma WithdrawFollows(b: Book, id: Id, reason: CancelReason, x: Id, sub: Option<Id>, h: int)
    requires Apart(b, x, h)
    ensures var (c, moves) := Withdraw(b, id, reason);
      && FollowAll(x, sub, Total(Amount(x), b) + h, moves) == Total(Amount(x), c) + h
      && Apart(c, x, h) && Total(Count(x), c) <= Total(Count(x), b)
  {
    hide Sum, FollowAll, Withdraw, Find, Gone;
    var (c, moves) := Withdraw(b, id, reason);
    var a := Total(Amount(x), b) + h;
    WithdrawShape(b, id, reason);
    FollowNone(x, sub, a);
    if moves != [] {
      WithdrawWithin(b, id, reason);
      WithdrawConserves(Amount(x), b, id, reason);
      FollowOne(x, sub, a, moves[0]);
      GoneOne(Amount(x), moves[0]);
      if id == x { WithdrawnIsGone(b, x, reason); }
      assert Total(Count(x), c) <= Total(Count(x), b);
    }
  }

  /** The only order under an id is out once it is withdrawn. */
  lemma WithdrawnIsGone(b: Book, x: Id, reason: CancelReason)
    requires Total(Count(x), b) <= 1 && Withdraw(b, x, reason).1 != []
    ensures Total(Amount(x), Withdraw(b, x, reason).0) == 0 && Total(Count(x), b) == 1
  {
    var c := Withdraw(b, x, reason).0;
    CountIsPresence(b.bids, x);
    CountIsPresence(b.asks, x);
    CountIsPresence(b.buyStops, x);
    CountIsPresence(b.sellStops, x);
    WithdrawnCount(b, x, reason);
    AbsentAmount(c, x);
  }

  lemma WithdrawnCount(b: Book, x: Id, reason: CancelReason)
    requires Withdraw(b, x, reason).1 != []
    ensures Total(Count(x), Withdraw(b, x, reason).0) == Total(Count(x), b) - 1
  {
    if Has(b.buyStops, x) {
      SumSwapOut(Count(x), b.buyStops, Find(b.buyStops, x));
    } else if Has(b.sellStops, x) {
      SumSwapOut(Count(x), b.sellStops, Find(b.sellStops, x));
    } else if Has(b.bids, x) {
      SumRemoveAt(Count(x), b.bids, Find(b.bids, x));
    } else if Has(b.asks, x) {
      SumRemoveAt(Count(x), b.asks, Find(b.asks, x));
    }
    hide Sum, SwapOut, RemoveAt;
  }

  /** After a cancel the table is as exact as before it. */
  lemma CancelFollows(b: Book, id: Id, x: Id, h: int)
    requires Apart(b, x, h)
    ensures var (c, moves) := CancelOrder(b, id);
      FollowAll(x, None, Total(Amount(x), b) + h, moves) == Total(Amount(x), c) + h
  {
    hide Sum, FollowAll, Withdraw;
    if id in b.links {
      var b0 := b.(links := b.links - {id, b.links[id]});
      var (b1, m1) := Withdraw(b0, id, AdminCancel);
      WithdrawFollows(b0, id, AdminCancel, x, None, h);
      WithdrawFollows(b1, b.links[id], OcoCancel, x, None, h);
      FollowConcat(x, None, Total(Amount(x), b) + h, m1, Withdraw(b1, b.links[id], OcoCancel).1);
    } else {
      WithdrawFollows(b, id, AdminCancel, x, None, h);
    }
  }

  // ---- Matching keeps the table exact --------------------------------------------

  /** Moves that change what is left of `x` and announce nothing. */
  predicate SilentOn(x: Id, m: Move) {
    match m
    case Shrink(id, _) => id == x
    case Drop(id, _) => id == x
    case Stray(id, _) => id == x
    case _ => false
  }

  ghost predicate Rests(x: Id, moves: seq<Move>) {
    exists m :: m in moves && m.Rest? && m.restId == x
  }

  /** What a move adds to the quantity of `x` that went silently. A submitted order that has
    not come to rest is in hand, and not in the table: what it loses there does not count. A
    later announcement of `x` puts its entry right. */
  ghost function UnheardBy(x: Id, sub: Option<Id>, front: seq<Move>, unheard: int, m: Move): int {
    match m
    case Shrink(id, qty) => if id == x && (sub == Some(x) ==> Rests(x, front)) then unheard + qty else unheard
    case Drop(id, qty) => if id == x then unheard + qty else unheard
    case Stray(id, qty) => if id == x then unheard + qty else unheard
    case Rest(id, _) => if id == x then 0 else unheard
    case Void(id, _, _, _) => if id == x then 0 else unheard
    case _ => unheard
  }

  /** What of `x` went silently and was not put right since. */
  ghost function Unheard(x: Id, sub: Option<Id>, moves: seq<Move>): int {
    if moves == [] then 0
    else
      var front := moves[..|moves| - 1];
      UnheardBy(x, sub, front, Unheard(x, sub, front), moves[|moves| - 1])
  }

  /** No more goes unheard than goes. */
  lemma {:induction false} UnheardAtMost(x: Id, sub: Option<Id>, moves: seq<Move>)
    requires AllSound(moves)
    ensures 0 <= Unheard(x, sub, moves) <= Gone(Amount(x), moves)
  {
    if moves != [] {
      assert moves[|moves| - 1] in moves && Sound(moves[|moves| - 1]);
      UnheardAtMost(x, sub, moves[..|moves| - 1]);
      hide Rests;
    }
  }

  lemma UnheardPush(x: Id, sub: Option<Id>, p: seq<Move>, m: Move)
    ensures Unheard(x, sub, p + [m]) == UnheardBy(x, sub, p, Unheard(x, sub, p), m)
    ensures Rests(x, p + [m]) <==> Rests(x, p) || (m.Rest? && m.restId == x)
  {
    assert (p + [m])[..|p|] == p;
    assert forall n :: n in p + [m] <==> n in p || n == m;
  }

  lemma UnheardPush2(x: Id, sub: Option<Id>, p: seq<Move>, m: Move, n: Move)
    ensures Unheard(x, sub, p + [m, n]) ==
      UnheardBy(x, sub, p + [m], UnheardBy(x, sub, p, Unheard(x, sub, p), m), n)
    ensures Rests(x, p + [m]) <==> Rests(x, p) || (m.Rest? && m.restId == x)
    ensures Rests(x, p + [m, n]) <==> Rests(x, p + [m]) || (n.Rest? && n.restId == x)
  {
    assert p + [m, n] == (p + [m]) + [n];
    UnheardPush(x, sub, p, m);
    UnheardPush(x, sub, p + [m], n);
  }

  /** The submitted order is not in the table while it is in hand; triggered stops are. */
  function Share(x: Id, sub: Option<Id>, o: Order): int {
    if sub == Some(x) then 0 else Weigh(Amount(x), o)
  }

  /** `k` is entered for orders outside this book and its taker. */
  ghost predicate Lone(r: Run, x: Id, k: int) {
    && 0 <= k && Total(Count(x), r.book) + Weigh(Count(x), r.taker) <= 1
    && (k > 0 ==> Total(Count(x), r.book) + Weigh(Count(x), r.taker) <= 0)
  }

  function Entered(r: Run, x: Id, sub: Option<Id>, k: int): int {
    Total(Amount(x), r.book) + Share(x, sub, r.taker) + k
  }

  /** While the submitted order is in hand it has not rested; once on the book it has. */
  ghost predicate Tracked(r: Run, x: Id, sub: Option<Id>) {
    sub == Some(x) ==>
      && (r.taker.id == x ==> !Rests(x, r.moves) && Unheard(x, sub, r.moves) == 0)
      && (Total(Count(x), r.book) > 0 ==> Rests(x, r.moves))
  }

  /** The table, having followed the run from `a`, shows what the run holds under `x`, and what
    of it went unheard. */
  ghost predicate Shows(r: Run, x: Id, sub: Option<Id>, a: int, k: int) {
    && FollowAll(x, sub, a, r.moves) == Entered(r, x, sub, k) + Unheard(x, sub, r.moves)
    && 0 <= Unheard(x, sub, r.moves) && Tracked(r, x, sub)
  }

  /** The book after the fill itself, before OCO cancels. */
  function AfterFill(r: Run): Book
    requires r.Active()
  {
    var side, maker, rest := r.taker.side.Opposite(), r.Opposing()[0], r.Opposing()[1..];
    var qty := Min(r.taker.remaining, maker.Effective());
    var left := maker.(remaining := maker.remaining - qty);
    r.book.WithResting(side,
      if left.remaining == 0 then rest
      else if maker.displayQty.Some? && qty == maker.Effective() then Insert(ShelfOf(side), rest, left)
      else [left] + rest)
  }

  function FillOf(r: Run): Fill
    requires r.Active()
  {
    var maker := r.Opposing()[0];
    Fill(r.taker.id, maker.id, maker.price.Or(0), Min(r.taker.remaining, maker.Effective()), r.taker.side)
  }

  lemma TradeStepParts(r: Run)
    requires r.Active()
    ensures var q, f, mid := TradeStep(r), FillOf(r), AfterFill(r);
      && q.taker == r.taker.(remaining := r.taker.remaining - f.quantity)
      && if f.quantity == r.Opposing()[0].remaining then
           var (c, cancels) := CancelLinked(mid, f.makerId);
           q.book == c && q.moves == r.moves + [Trade(f)] + cancels
         else q.book == mid && q.moves == r.moves + [Trade(f)]
  {
  }

  lemma AfterFillTotals(r: Run, x: Id)
    requires r.Active()
    ensures var f := FillOf(r);
      Total(Amount(x), AfterFill(r)) == Total(Amount(x), r.book) - if f.makerId == x then f.quantity else 0
    ensures Total(Count(x), AfterFill(r)) <= Total(Count(x), r.book)
  {
    var side, maker, rest := r.taker.side.Opposite(), r.Opposing()[0], r.Opposing()[1..];
    var left := maker.(remaining := maker.remaining - Min(r.taker.remaining, maker.Effective()));
    assert r.Opposing() == [maker] + rest;
    forall g: Gauge | true ensures
        && Sum(g, r.Opposing()) == Weigh(g, maker) + Sum(g, rest)
        && Sum(g, [left] + rest) == Weigh(g, left) + Sum(g, rest)
        && Sum(g, Insert(ShelfOf(side), rest, left)) == Weigh(g, left) + Sum(g, rest)
    {
      SumFront(g, rest, maker);
      SumFront(g, rest, left);
      SumInsert(g, ShelfOf(side), rest, left);
    }
    hide Sum, Insert;
    SideTotal(Amount(x), r.book, side, AfterFill(r).Resting(side));
    SideTotal(Count(x), r.book, side, AfterFill(r).Resting(side));
  }

  /** What is on the book under the front order's id is at least that order. */
  lemma FrontAmount(r: Run, x: Id)
    requires r.Active() && Shaped(r.book)
    ensures Total(Amount(x), r.book) >= 0 && Total(Count(x), r.book) >= 0
    ensures r.Opposing()[0].id == x ==> Total(Amount(x), r.book) >= r.Opposing()[0].remaining && Total(Count(x), r.book) >= 1
  {
    PresentIffAmount(r.book, x);
    var side, s := r.taker.side.Opposite(), r.Opposing();
    if s[0].id == x {
      PopFrontShaped(r.book, side);
      var popped := r.book.WithResting(side, s[1..]);
      PresentIffAmount(popped, x);
      SideTotal(Amount(x), r.book, side, s[1..]);
      SideTotal(Count(x), r.book, side, s[1..]);
    }
  }

  lemma PopFrontShaped(b: Book, side: Side)
    requires Shaped(b) && b.Resting(side) != []
    ensures Shaped(b.WithResting(side, b.Resting(side)[1..]))
  {
    TailWithin(ShelfOf(side), b.Resting(side));
    WithinSideOk(side, b.Resting(side)[1..], b.Resting(side));
  }

  lemma TradeFollows(r: Run, x: Id, sub: Option<Id>, k: int, more: int)
    requires r.Active() && Shaped(r.book) && Lone(r, x, k) && 0 <= more
    requires sub == Some(x) && r.taker.id == x ==> more == 0
    ensures var f := FillOf(r);
      Follow(x, sub, Entered(r, x, sub, k) + more, Trade(f)) ==
        Total(Amount(x), AfterFill(r)) + Share(x, sub, r.taker.(remaining := r.taker.remaining - f.quantity)) + k + more
  {
    hide Sum, AfterFill;
    AfterFillTotals(r, x);
    FrontAmount(r, x);
    var maker := r.Opposing()[0];
    assert maker in r.Opposing() && RestsOk(r.taker.side.Opposite(), maker);
    assert 0 < FillOf(r).quantity <= r.taker.remaining && FillOf(r).quantity <= maker.remaining;
    if r.taker.id == x {
      assert Weigh(Count(x), r.taker) == 1;
      assert Total(Count(x), r.book) <= 0 && k == 0 && maker.id != x;
      AbsentAmount(r.book, x);
    }
  }

  /** An announced cancellation leaves nothing of the order it is about, and takes nothing of
    others. */
  lemma WithdrawTells(b: Book, id: Id, reason: CancelReason, x: Id, h: int)
    requires Apart(b, x, h)
    ensures var (c, moves) := Withdraw(b, id, reason);
      && Total(Count(x), c) <= Total(Count(x), b)
      && (moves == [] || id != x ==> Total(Amount(x), c) == Total(Amount(x), b))
      && (moves != [] && id == x ==> Total(Amount(x), c) == 0 && h == 0)
  {
    hide Sum, Withdraw, Find, Gone;
    var (c, moves) := Withdraw(b, id, reason);
    WithdrawShape(b, id, reason);
    if moves != [] {
      WithdrawWithin(b, id, reason);
      WithdrawConserves(Amount(x), b, id, reason);
      GoneOne(Amount(x), moves[0]);
      if id == x { WithdrawnIsGone(b, x, reason); }
      assert Total(Count(x), c) <= Total(Count(x), b);
    }
  }

  /** What the table shows before the OCO cancels it shows after them. */
  lemma CancelsFollow(x: Id, sub: Option<Id>, a: int, moves: seq<Move>, b: Book, id: Id, h: int)
    requires Apart(b, x, h) && FollowAll(x, sub, a, moves) == Total(Amount(x), b) + h + Unheard(x, sub, moves)
    requires 0 <= Unheard(x, sub, moves)
    ensures var (c, cancels) := CancelLinked(b, id);
      && FollowAll(x, sub, a, moves + cancels) == Total(Amount(x), c) + h + Unheard(x, sub, moves + cancels)
      && 0 <= Unheard(x, sub, moves + cancels) <= Unheard(x, sub, moves)
      && (Rests(x, moves + cancels) <==> Rests(x, moves))
      && Total(Count(x), c) <= Total(Count(x), b)
  {
    hide Sum, FollowAll, Withdraw, Unheard, Rests;
    if id in b.links {
      var b0 := b.(links := b.links - {id, b.links[id]});
      var (c, cancels) := Withdraw(b0, b.links[id], OcoCancel);
      WithdrawShape(b0, b.links[id], OcoCancel);
      WithdrawTells(b0, b.links[id], OcoCancel, x, h);
      if cancels == [] {
        assert moves + cancels == moves;
      } else {
        FollowPush(x, sub, a, moves, cancels[0]);
        UnheardPush(x, sub, moves, cancels[0]);
      }
    } else {
      assert moves + [] == moves;
    }
  }

  lemma LoneIsApart(r: Run, b: Book, x: Id, sub: Option<Id>, taker: Order, k: int)
    requires Lone(r, x, k) && Total(Count(x), b) <= Total(Count(x), r.book)
    requires taker.id == r.taker.id && 0 <= taker.remaining
    ensures Apart(b, x, Share(x, sub, taker) + k)
    ensures forall c :: Total(Count(x), c) <= Total(Count(x), b) ==> Lone(r.(book := c, taker := taker), x, k)
  {
  }

  /** The run after the fill itself, before OCO cancels. */
  function FilledRun(r: Run): Run
    requires r.Active()
  {
    var f := FillOf(r);
    Run(AfterFill(r), r.taker.(remaining := r.taker.remaining - f.quantity), r.moves + [Trade(f)], Some(f.price), false)
  }

  lemma FilledFollows(r: Run, x: Id, sub: Option<Id>, a: int, k: int)
    requires r.Active() && Shaped(r.book) && Lone(r, x, k) && Shows(r, x, sub, a, k)
    ensures Shows(FilledRun(r), x, sub, a, k) && Lone(FilledRun(r), x, k) && 0 <= FilledRun(r).taker.remaining
  {
    hide Unheard, Rests, Sum, FollowAll, AfterFill, Shaped;
    TradeFollows(r, x, sub, k, Unheard(x, sub, r.moves));
    AfterFillTotals(r, x);
    FollowPush(x, sub, a, r.moves, Trade(FillOf(r)));
    UnheardPush(x, sub, r.moves, Trade(FillOf(r)));
  }

  /** OCO cancels after a fill. */
  lemma LinkedFollows(r: Run, id: Id, x: Id, sub: Option<Id>, a: int, k: int)
    requires Lone(r, x, k) && Shows(r, x, sub, a, k) && 0 <= r.taker.remaining
    ensures var (c, cancels) := CancelLinked(r.book, id);
      var q := r.(book := c, moves := r.moves + cancels);
      Shows(q, x, sub, a, k) && Lone(q, x, k)
  {
    hide Unheard, Rests, Sum, FollowAll, CancelLinked;
    LoneIsApart(r, r.book, x, sub, r.taker, k);
    CancelsFollow(x, sub, a, r.moves, r.book, id, Share(x, sub, r.taker) + k);
  }

  lemma TradeStepFollows(r: Run, x: Id, sub: Option<Id>, a: int, k: int)
    requires r.Active() && Shaped(r.book) && Lone(r, x, k) && Shows(r, x, sub, a, k)
    ensures Shows(TradeStep(r), x, sub, a, k) && Lone(TradeStep(r), x, k)
  {
    TradeStepParts(r);
    FilledFollows(r, x, sub, a, k);
    LinkedFollows(FilledRun(r), FillOf(r).makerId, x, sub, a, k);
    hide Unheard, Rests, Sum, FollowAll, TradeStep, AfterFill, CancelLinked, FillOf, Shaped;
  }

  lemma TakerVoided(r: Run, x: Id, sub: Option<Id>, k: int, void: Move, more: int)
    requires Shaped(r.book) && Lone(r, x, k)
    requires void.Void? && void.voidId == r.taker.id
    ensures Follow(x, sub, Entered(r, x, sub, k) + more, void) ==
      Total(Amount(x), r.book) + Share(x, sub, r.taker.(remaining := 0)) + k + UnheardBy(x, sub, r.moves, more, void)
  {
    PresentIffAmount(r.book, x);
  }

  lemma FrontVoided(r: Run, x: Id, sub: Option<Id>, k: int, void: Move, more: int)
    requires r.Active() && Shaped(r.book) && Lone(r, x, k)
    requires void.Void? && void.voidId == r.Opposing()[0].id
    ensures var side := r.taker.side.Opposite();
      var popped := r.book.WithResting(side, r.Opposing()[1..]);
      && Follow(x, sub, Entered(r, x, sub, k) + more, void) ==
           Total(Amount(x), popped) + Share(x, sub, r.taker) + k + UnheardBy(x, sub, r.moves, more, void)
      && Shaped(popped) && Lone(r.(book := popped), x, k) && Total(Count(x), popped) <= Total(Count(x), r.book)
  {
    var side, s := r.taker.side.Opposite(), r.Opposing();
    var popped := r.book.WithResting(side, s[1..]);
    FrontAmount(r, x);
    PopFrontShaped(r.book, side);
    PresentIffAmount(popped, x);
    SideTotal(Amount(x), r.book, side, s[1..]);
    SideTotal(Count(x), r.book, side, s[1..]);
  }

  lemma SelfTradeFollows(r: Run, x: Id, sub: Option<Id>, a: int, k: int)
    requires r.Active() && Shaped(r.book) && Lone(r, x, k) && Shows(r, x, sub, a, k)
    ensures Shows(PreventSelfTrade(r), x, sub, a, k) && Lone(PreventSelfTrade(r), x, k)
  {
    hide Sum, FollowAll, Unheard, Rests, Shaped;
    var maker, more := r.Opposing()[0], Unheard(x, sub, r.moves);
    match r.taker.stpMode
    case CancelTaker =>
      var void := Void(r.taker.id, r.taker.remaining, SelfTradePrevented, Incoming);
      TakerVoided(r, x, sub, k, void, more);
      FollowPush(x, sub, a, r.moves, void);
      UnheardPush(x, sub, r.moves, void);
    case CancelMaker =>
      var void := Void(maker.id, maker.remaining, SelfTradePrevented, Booked);
      FrontVoided(r, x, sub, k, void, more);
      FollowPush(x, sub, a, r.moves, void);
      UnheardPush(x, sub, r.moves, void);
    case Decrement => DecrementFollows(r, x, sub, a, k);
  }

  lemma FollowPush2(x: Id, sub: Option<Id>, a: int, p: seq<Move>, m: Move, n: Move)
    ensures FollowAll(x, sub, a, p + [m, n]) == Follow(x, sub, Follow(x, sub, FollowAll(x, sub, a, p), m), n)
  {
    assert p + [m, n] == (p + [m]) + [n];
    FollowPush(x, sub, a, p, m);
    FollowPush(x, sub, a, p + [m], n);
  }

  lemma DecrementFollows(r: Run, x: Id, sub: Option<Id>, a: int, k: int)
    requires r.Active() && Shaped(r.book) && Lone(r, x, k) && Shows(r, x, sub, a, k)
    ensures Shows(DecrementBoth(r), x, sub, a, k) && Lone(DecrementBoth(r), x, k)
  {
    hide Sum, FollowAll, Shaped, Unheard, Rests;
    if r.taker.remaining < r.Opposing()[0].remaining {
      MakerShrinks(r, x, sub, a, k);
    } else if r.taker.remaining > r.Opposing()[0].remaining {
      TakerShrinks(r, x, sub, a, k);
    } else {
      BothVoided(r, x, sub, a, k);
    }
  }

  lemma MakerShrinks(r: Run, x: Id, sub: Option<Id>, a: int, k: int)
    requires r.Active() && Shaped(r.book) && Lone(r, x, k) && Shows(r, x, sub, a, k)
    requires r.taker.remaining < r.Opposing()[0].remaining
    ensures Shows(DecrementBoth(r), x, sub, a, k) && Lone(DecrementBoth(r), x, k)
  {
    hide Sum, FollowAll, Shaped, Unheard, Rests;
    var maker := r.Opposing()[0];
    var void := Void(r.taker.id, r.taker.remaining, SelfTradePrevented, Incoming);
    var shrink := Shrink(maker.id, r.taker.remaining);
    FrontAmount(r, x);
    TakerVoided(r, x, sub, k, void, Unheard(x, sub, r.moves));
    FollowPush2(x, sub, a, r.moves, void, shrink);
    UnheardPush2(x, sub, r.moves, void, shrink);
    FrontLessened(r.book, r.taker.side.Opposite(), maker.(remaining := maker.remaining - r.taker.remaining), x);
  }

  lemma TakerShrinks(r: Run, x: Id, sub: Option<Id>, a: int, k: int)
    requires r.Active() && Shaped(r.book) && Lone(r, x, k) && Shows(r, x, sub, a, k)
    requires r.taker.remaining > r.Opposing()[0].remaining
    ensures Shows(DecrementBoth(r), x, sub, a, k) && Lone(DecrementBoth(r), x, k)
  {
    hide Sum, FollowAll, Shaped, Unheard, Rests;
    var maker := r.Opposing()[0];
    var void := Void(maker.id, maker.remaining, SelfTradePrevented, Booked);
    var shrink := Shrink(r.taker.id, maker.remaining);
    FrontAmount(r, x);
    FrontPositive(r);
    FrontVoided(r, x, sub, k, void, Unheard(x, sub, r.moves));
    FollowPush2(x, sub, a, r.moves, void, shrink);
    UnheardPush2(x, sub, r.moves, void, shrink);
  }

  lemma FrontPositive(r: Run)
    requires r.Active() && Shaped(r.book)
    ensures 0 < r.Opposing()[0].remaining
  {
    assert r.Opposing()[0] in r.Opposing() && RestsOk(r.taker.side.Opposite(), r.Opposing()[0]);
  }

  lemma BothVoided(r: Run, x: Id, sub: Option<Id>, a: int, k: int)
    requires r.Active() && Shaped(r.book) && Lone(r, x, k) && Shows(r, x, sub, a, k)
    requires r.taker.remaining == r.Opposing()[0].remaining
    ensures Shows(DecrementBoth(r), x, sub, a, k) && Lone(DecrementBoth(r), x, k)
  {
    hide Sum, FollowAll, Shaped, Unheard, Rests;
    var side, maker := r.taker.side.Opposite(), r.Opposing()[0];
    var voidTaker := Void(r.taker.id, r.taker.remaining, SelfTradePrevented, Incoming);
    var voidMaker := Void(maker.id, maker.remaining, SelfTradePrevented, Booked);
    var popped := r.(book := r.book.WithResting(side, r.Opposing()[1..]), moves := r.moves + [voidMaker]);
    FrontVoided(r, x, sub, k, voidMaker, Unheard(x, sub, r.moves));
    TakerVoided(popped, x, sub, k, voidTaker, UnheardBy(x, sub, r.moves, Unheard(x, sub, r.moves), voidMaker));
    FollowPush2(x, sub, a, r.moves, voidMaker, voidTaker);
    UnheardPush2(x, sub, r.moves, voidMaker, voidTaker);
  }

  /** A smaller front order is less by just that, and changes nothing for other ids. */
  lemma FrontLessened(b: Book, side: Side, left: Order, x: Id)
    requires b.Resting(side) != [] && left == b.Resting(side)[0].(remaining := left.remaining)
    ensures var c := b.WithResting(side, [left] + b.Resting(side)[1..]);
      && Total(Count(x), c) == Total(Count(x), b)
      && Total(Amount(x), c) ==
           Total(Amount(x), b) - if x == left.id then b.Resting(side)[0].remaining - left.remaining else 0
  {
    var s := b.Resting(side);
    assert s == [s[0]] + s[1..];
    SumFront(Count(x), s[1..], s[0]);
    SumFront(Count(x), s[1..], left);
    SumFront(Amount(x), s[1..], s[0]);
    SumFront(Amount(x), s[1..], left);
    SideTotal(Count(x), b, side, [left] + s[1..]);
    SideTotal(Amount(x), b, side, [left] + s[1..]);
  }

  lemma StepFollows(r: Run, x: Id, sub: Option<Id>, a: int, k: int)
    requires r.Active() && Shaped(r.book) && Lone(r, x, k) && Shows(r, x, sub, a, k)
    ensures Shows(Step(r), x, sub, a, k) && Lone(Step(r), x, k)
  {
    if r.Opposing()[0].user == r.taker.user {
      SelfTradeFollows(r, x, sub, a, k);
    } else {
      TradeStepFollows(r, x, sub, a, k);
    }
  }

  lemma {:induction false} LoopFollows(r: Run, queue: seq<Order>, x: Id, sub: Option<Id>, a: int, k: int)
    requires Live(r, queue) && Lone(r, x, k) && Shows(r, x, sub, a, k)
    ensures Shows(Loop(r, queue), x, sub, a, k) && Lone(Loop(r, queue), x, k)
    decreases r.taker.remaining, |r.Opposing()|
  {
    if r.Active() {
      StepKeeps(r, queue);
      StepShrinks(r);
      StepFollows(r, x, sub, a, k);
      LoopFollows(Step(r), queue, x, sub, a, k);
    }
  }

  /** What the table shows when a run is finished: its taker is not in hand any more. */
  ghost predicate Shown(b: Book, moves: seq<Move>, x: Id, sub: Option<Id>, a: int, k: int) {
    && FollowAll(x, sub, a, moves) == Total(Amount(x), b) + k + Unheard(x, sub, moves)
    && 0 <= Unheard(x, sub, moves) && (sub == Some(x) && Total(Count(x), b) > 0 ==> Rests(x, moves))
  }

  /** When a run is finished the table shows what the book holds, and the rest in hand. */
  lemma FinishFollows(r: Run, x: Id, sub: Option<Id>, a: int, k: int)
    requires Shaped(r.book) && Lone(r, x, k) && Shows(r, x, sub, a, k)
    requires 0 <= r.taker.remaining && (r.dead ==> r.taker.remaining == 0)
    ensures Shown(Finish(r).book, Finish(r).moves, x, sub, a, k)
  {
    hide Sum, FollowAll, CancelLinked, Insert, Shaped, Unheard, Rests;
    if r.dead {
    } else if r.taker.remaining == 0 {
      LoneIsApart(r, r.book, x, sub, r.taker, k);
      CancelsFollow(x, sub, a, r.moves, r.book, r.taker.id, Share(x, sub, r.taker) + k);
      assert r.moves + [] == r.moves;
    } else if Disposal(r.taker.kind, r.last.Some?).Some? {
      var void := Void(r.taker.id, r.taker.remaining, Disposal(r.taker.kind, r.last.Some?).value, Incoming);
      TakerVoided(r, x, sub, k, void, Unheard(x, sub, r.moves));
      FollowPush(x, sub, a, r.moves, void);
      UnheardPush(x, sub, r.moves, void);
      LoneIsApart(r, r.book, x, sub, r.taker.(remaining := 0), k);
      CancelsFollow(x, sub, a, r.moves + [void], r.book, r.taker.id, Share(x, sub, r.taker.(remaining := 0)) + k);
    } else {
      SettleFollows(r, x, sub, a, k);
    }
  }

  lemma SettleTotals(r: Run, x: Id)
    requires r.taker.price.Some?
    ensures Total(Amount(x), Settle(r).book) == Total(Amount(x), r.book) + Weigh(Amount(x), r.taker)
    ensures Total(Count(x), Settle(r).book) == Total(Count(x), r.book) + Weigh(Count(x), r.taker)
  {
    var o := r.taker;
    var s := r.book.Resting(o.side);
    SumInsert(Amount(x), ShelfOf(o.side), s, o);
    SumInsert(Count(x), ShelfOf(o.side), s, o);
    SideTotal(Amount(x), r.book, o.side, Insert(ShelfOf(o.side), s, o));
    SideTotal(Count(x), r.book, o.side, Insert(ShelfOf(o.side), s, o));
  }

  lemma SettleFollows(r: Run, x: Id, sub: Option<Id>, a: int, k: int)
    requires Shaped(r.book) && Lone(r, x, k) && Shows(r, x, sub, a, k) && 0 < r.taker.remaining
    ensures Shown(Settle(r).book, Settle(r).moves, x, sub, a, k)
  {
    var o, rested := r.taker, Rest(r.taker.id, r.taker.remaining);
    PresentIffAmount(r.book, x);
    hide Sum, FollowAll, Insert, Shaped, Unheard, Rests;
    if o.price.None? {
      FollowPush2(x, sub, a, r.moves, rested, Stray(o.id, o.remaining));
      UnheardPush2(x, sub, r.moves, rested, Stray(o.id, o.remaining));
    } else {
      FollowPush(x, sub, a, r.moves, rested);
      UnheardPush(x, sub, r.moves, rested);
      SettleTotals(r, x);
    }
  }

  // ---- The cascade ---------------------------------------------------------------

  /** Stops waiting in the work queue are in the table; `h` is entered for other books. */
  function Queued(x: Id, sub: Option<Id>, queue: seq<Order>): int {
    if sub == Some(x) then 0 else Sum(Amount(x), queue)
  }

  ghost predicate WorkShows(w: Work, x: Id, sub: Option<Id>, a: int, h: int) {
    Shown(w.book, w.moves, x, sub, a, Queued(x, sub, w.queue) + h)
  }

  /** Nothing is left under `x` in the book or the queue. */
  ghost predicate Absent(w: Work, x: Id) {
    Total(Amount(x), w.book) + Sum(Amount(x), w.queue) == 0
  }

  /** The submitted order can only be in hand or on the book, and in hand only at first. */
  ghost predicate SubmittedApart(w: Work, sub: Option<Id>) {
    sub.Some? && w.queue != [] ==>
      && Waits(Count(sub.value), w.book) == 0 && Sum(Count(sub.value), w.queue[..|w.queue| - 1]) == 0
      && (w.moves != [] ==> Sum(Count(sub.value), w.queue) == 0)
  }

  lemma AmountsOf(w: Work, x: Id)
    requires WorkOk(w)
    ensures Total(Amount(x), w.book) >= 0 && Sum(Amount(x), w.queue) >= 0
    ensures Total(Count(x), w.book) > 0 <==> Total(Amount(x), w.book) > 0
    ensures Sum(Count(x), w.queue) > 0 <==> Sum(Amount(x), w.queue) > 0
    ensures Total(Count(x), w.book) >= 0 && Sum(Count(x), w.queue) >= 0
    ensures Total(Count(x), w.book) + Sum(Count(x), w.queue) <= 1
  {
    PresentIffAmount(w.book, x);
    SomeIsSomething(w.queue, x);
    CountIsPresence(w.queue, x);
    if Sum(Count(x), w.queue) == 0 { NoneIsNothing(w.queue, x); }
    assert Total(Count(x), w.book) + Sum(Count(x), w.queue) <= 1;
  }

  /** What is nowhere stays nowhere. */
  lemma TurnAbsent(w: Work, x: Id)
    requires WorkOk(w) && w.queue != [] && AllSound(w.moves) && Absent(w, x)
    ensures Absent(Turn(w), x)
  {
    hide Turn, Sum, Gone, WorkOk;
    var v, g := Turn(w), Amount(x);
    TurnConserves(g, w);
    TurnExtends(w);
    TurnSound(w);
    var more := v.moves[|w.moves|..];
    assert v.moves == w.moves + more;
    GoneConcat(g, w.moves, more);
    assert AllSound(more);
    GoneIsPositive(g, more);
    AmountsOf(v, x);
  }

  lemma LastOfQueue(g: Gauge, queue: seq<Order>)
    requires queue != []
    ensures Sum(g, queue) == Sum(g, queue[..|queue| - 1]) + Weigh(g, queue[|queue| - 1])
  {
    SumLast(g, queue);
  }

  function StartOf(w: Work): Run
    requires w.queue != []
  {
    Run(w.book, w.queue[|w.queue| - 1], w.moves, None, false)
  }

  lemma StartShows(w: Work, x: Id, sub: Option<Id>, a: int, h: int)
    requires WorkOk(w) && w.queue != [] && 0 <= h && (h > 0 ==> Absent(w, x))
    requires WorkShows(w, x, sub, a, h) && SubmittedApart(w, sub)
    ensures var k := Queued(x, sub, w.queue[..|w.queue| - 1]) + h;
      Lone(StartOf(w), x, k) && Shows(StartOf(w), x, sub, a, k)
  {
    AmountsOf(w, x);
    LastOfQueue(Count(x), w.queue);
    LastOfQueue(Amount(x), w.queue);
    OthersAmounts(w, x);
    NothingMoved(x, sub);
    hide Sum, FollowAll, WorkOk, Unheard, Rests;
  }

  lemma NothingMoved(x: Id, sub: Option<Id>)
    ensures Unheard(x, sub, []) == 0 && !Rests(x, [])
  {
  }

  /** The run of a turn, seen from one id. */
  lemma RunOneFollows(w: Work, x: Id, sub: Option<Id>, a: int, h: int)
    requires WorkOk(w) && w.queue != [] && 0 <= h && (h > 0 ==> Absent(w, x))
    requires WorkShows(w, x, sub, a, h) && SubmittedApart(w, sub)
    ensures var r, others := RunOne(w), w.queue[..|w.queue| - 1];
      Shown(r.book, r.moves, x, sub, a, Queued(x, sub, others) + h)
  {
    var others := w.queue[..|w.queue| - 1];
    PopQueue(w.book, w.queue);
    assert w.queue[|w.queue| - 1] in w.queue;
    var r0, k := StartOf(w), Queued(x, sub, others) + h;
    var q := Loop(r0, others);
    StartShows(w, x, sub, a, h);
    hide Loop, Finish, Sum, FollowAll, Distinct, Lone, Shows, SubmittedApart, Absent, WorkShows, Queued, Shown;
    DeadIsSpent(r0, others);
    LoopFollows(r0, others, x, sub, a, k);
    FinishFollows(q, x, sub, a, k);
  }

  lemma OthersAmounts(w: Work, x: Id)
    requires WorkOk(w) && w.queue != []
    ensures var others := w.queue[..|w.queue| - 1];
      Sum(Amount(x), others) >= 0 && Sum(Count(x), others) >= 0 &&
      (Sum(Amount(x), others) > 0 <==> Sum(Count(x), others) > 0)
  {
    var others := w.queue[..|w.queue| - 1];
    assert forall o :: o in others ==> o in w.queue;
    SomeIsSomething(others, x);
    CountIsPresence(others, x);
    if Sum(Count(x), others) == 0 { NoneIsNothing(others, x); }
  }

  lemma {:induction false} TriggeredFollow(x: Id, sub: Option<Id>, a: int, s: seq<Order>)
    ensures FollowAll(x, sub, a, Triggered(s)) == a
  {
    if s != [] {
      TriggeredFollow(x, sub, a, s[..|s| - 1]);
      FollowPush(x, sub, a, Triggered(s[..|s| - 1]), Trigger(s[|s| - 1].id));
    }
  }

  lemma {:induction false} DroppedFollow(x: Id, sub: Option<Id>, a: int, s: seq<Order>)
    ensures FollowAll(x, sub, a, Cascade.Dropped(s)) == a
  {
    if s != [] {
      DroppedFollow(x, sub, a, s[..|s| - 1]);
      FollowPush(x, sub, a, Cascade.Dropped(s[..|s| - 1]), Drop(s[|s| - 1].id, s[|s| - 1].remaining));
    }
  }

  lemma {:induction false} TriggeredHeard(x: Id, sub: Option<Id>, p: seq<Move>, s: seq<Order>)
    ensures Unheard(x, sub, p + Triggered(s)) == Unheard(x, sub, p) && (Rests(x, p + Triggered(s)) <==> Rests(x, p))
  {
    if s == [] {
      assert p + [] == p;
    } else {
      var front, m := Triggered(s[..|s| - 1]), Trigger(s[|s| - 1].id);
      TriggeredHeard(x, sub, p, s[..|s| - 1]);
      assert p + (front + [m]) == (p + front) + [m];
      UnheardPush(x, sub, p + front, m);
    }
  }

  lemma {:induction false} DroppedUnheard(x: Id, sub: Option<Id>, p: seq<Move>, s: seq<Order>)
    ensures Unheard(x, sub, p + Cascade.Dropped(s)) == Unheard(x, sub, p) + Sum(Amount(x), s)
    ensures Rests(x, p + Cascade.Dropped(s)) <==> Rests(x, p)
  {
    hide Unheard, Rests;
    if s == [] {
      assert p + [] == p;
    } else {
      var front, m := Cascade.Dropped(s[..|s| - 1]), Drop(s[|s| - 1].id, s[|s| - 1].remaining);
      DroppedUnheard(x, sub, p, s[..|s| - 1]);
      assert p + (front + [m]) == (p + front) + [m];
      UnheardPush(x, sub, p + front, m);
      SumLast(Amount(x), s);
    }
  }

  lemma AdmitFollows(moves: seq<Move>, end: Move, due: seq<Order>, x: Id, sub: Option<Id>, a: int)
    requires end.RunEnd?
    ensures var more := moves + [end] + Triggered(due);
      && FollowAll(x, sub, a, more) == FollowAll(x, sub, a, moves)
      && Unheard(x, sub, more) == Unheard(x, sub, moves) && (Rests(x, more) <==> Rests(x, moves))
  {
    FollowPush(x, sub, a, moves, end);
    TriggeredFollow(x, sub, FollowAll(x, sub, a, moves), due);
    UnheardPush(x, sub, moves, end);
    TriggeredHeard(x, sub, moves + [end], due);
    hide FollowAll, Triggered, Unheard, Rests;
    FollowConcat(x, sub, a, moves + [end], Triggered(due));
  }

  lemma DiscardFollows(moves: seq<Move>, end: Move, due: seq<Order>, x: Id, sub: Option<Id>, a: int)
    requires end.RunEnd?
    ensures var more := moves + [end] + Cascade.Dropped(due);
      && FollowAll(x, sub, a, more) == FollowAll(x, sub, a, moves)
      && Unheard(x, sub, more) == Unheard(x, sub, moves) + Sum(Amount(x), due) && (Rests(x, more) <==> Rests(x, moves))
  {
    FollowPush(x, sub, a, moves, end);
    DroppedFollow(x, sub, FollowAll(x, sub, a, moves), due);
    UnheardPush(x, sub, moves, end);
    DroppedUnheard(x, sub, moves + [end], due);
    hide FollowAll, Cascade.Dropped, Unheard, Rests;
    FollowConcat(x, sub, a, moves + [end], Cascade.Dropped(due));
  }

  /** Stops that leave the registry for the queue stay in the table. */
  lemma CheckStopsFollows(b: Book, price: int, others: seq<Order>, moves: seq<Move>, depth: nat,
                          x: Id, sub: Option<Id>, a: int, h: int)
    requires Shown(b, moves, x, sub, a, Queued(x, sub, others) + h) && StopsOk(Buy, b.buyStops) && StopsOk(Sell, b.sellStops)
    requires sub == Some(x) ==> Waits(Count(x), b) == 0
    ensures WorkShows(CheckStops(b, price, others, moves, depth), x, sub, a, h)
  {
    hide Sum, FollowAll, Due, LaterBuys, LaterSells, Triggered, Cascade.Dropped, Unheard, Rests, StopsOk;
    var due := Due(b, price);
    StopsMove(Amount(x), b, price);
    SumConcat(Amount(x), others, due);
    StopsMove(Count(x), b, price);
    DueAmounts(b, price, x);
    if sub == Some(x) { NoStopsDue(b, x, price); }
    if depth < MAX_STOP_CHAIN_DEPTH {
      AdmitFollows(moves, RunEnd(Some(price), |due|), due, x, sub, a);
    } else {
      DiscardFollows(moves, RunEnd(Some(price), 0), due, x, sub, a);
    }
  }

  lemma DueAmounts(b: Book, price: int, x: Id)
    requires StopsOk(Buy, b.buyStops) && StopsOk(Sell, b.sellStops)
    ensures 0 <= Sum(Amount(x), Due(b, price)) && 0 <= Sum(Count(x), Due(b, price))
  {
    DueOkStops(b, price);
    SomeIsSomething(Due(b, price), x);
    CountIsPresence(Due(b, price), x);
  }

  lemma DueOkStops(b: Book, price: int)
    requires StopsOk(Buy, b.buyStops) && StopsOk(Sell, b.sellStops)
    ensures forall o :: o in Due(b, price) ==> 0 < o.remaining
  {
    var c := EmptyBook.(buyStops := b.buyStops, sellStops := b.sellStops);
    DueOk(c, price);
    assert Due(c, price) == Due(b, price);
  }

  lemma NoStopsDue(b: Book, x: Id, price: int)
    requires Waits(Count(x), b) == 0
    ensures Sum(Amount(x), Due(b, price)) == 0
  {
    StopsMove(Count(x), b, price);
    var c := Undue(b, price);
    CountIsPresence(c.buyStops, x);
    CountIsPresence(c.sellStops, x);
    CountIsPresence(Due(b, price), x);
    NoneIsNothing(Due(b, price), x);
  }

  lemma NotWaiting(w: Work, x: Id)
    requires WorkOk(w) && w.queue != [] && Waits(Count(x), w.book) == 0
    ensures Waits(Count(x), RunOne(w).book) == 0
  {
    hide RunOne, WorkOk;
    RunOneExits(x, w);
    CountIsPresence(RunOne(w).book.buyStops, x);
    CountIsPresence(RunOne(w).book.sellStops, x);
  }

  lemma CheckStopsApart(b: Book, price: int, others: seq<Order>, moves: seq<Move>, depth: nat, x: Id)
    requires Waits(Count(x), b) == 0 && Sum(Count(x), others) == 0
    ensures var v := CheckStops(b, price, others, moves, depth);
      Waits(Count(x), v.book) == 0 && Sum(Count(x), v.queue) == 0
  {
    var c, due := Undue(b, price), Due(b, price);
    StopsMove(Count(x), b, price);
    SumConcat(Count(x), others, due);
    CountIsPresence(due, x);
    CountIsPresence(c.buyStops, x);
    CountIsPresence(c.sellStops, x);
    hide Sum, Due, Undue, Triggered, Cascade.Dropped;
  }

  /** The submitted order is never among the stops. */
  lemma TurnApart(w: Work, sub: Option<Id>)
    requires WorkOk(w) && w.queue != [] && SubmittedApart(w, sub)
    ensures SubmittedApart(Turn(w), sub)
    ensures sub.Some? ==> Waits(Count(sub.value), RunOne(w).book) == 0
  {
    hide Sum, RunOne, CheckStops, WorkOk, Shaped, Distinct, Waits;
    if sub.Some? {
      var x, r, v := sub.value, RunOne(w), Turn(w);
      NotWaiting(w, x);
      if r.last.Some? {
        CheckStopsApart(r.book, r.last.value, w.queue[..|w.queue| - 1], r.moves, w.depth, x);
      }
      FrontOfNone(x, v.queue);
      assert v.moves != [] by { TurnMoves(w); }
    }
  }

  lemma TurnMoves(w: Work)
    requires WorkOk(w) && w.queue != []
    ensures Turn(w).moves != []
  {
    hide RunOne, Due, Undue, Triggered, Cascade.Dropped, WorkOk;
  }

  lemma FrontOfNone(x: Id, queue: seq<Order>)
    ensures queue != [] && Sum(Count(x), queue) == 0 ==> Sum(Count(x), queue[..|queue| - 1]) == 0
  {
    if queue != [] {
      LastOfQueue(Count(x), queue);
      CountIsPresence(queue[..|queue| - 1], x);
    }
  }

  lemma TurnFollows(w: Work, x: Id, sub: Option<Id>, a: int, h: int)
    requires WorkOk(w) && w.queue != [] && 0 <= h && (h > 0 ==> Absent(w, x))
    requires WorkShows(w, x, sub, a, h) && SubmittedApart(w, sub)
    ensures WorkShows(Turn(w), x, sub, a, h)
  {
    hide Sum, FollowAll, RunOne, WorkOk, Unheard, Rests;
    RunOneFollows(w, x, sub, a, h);
    TurnApart(w, sub);
    var others, r := w.queue[..|w.queue| - 1], RunOne(w);
    match r.last
    case None =>
      FollowPush(x, sub, a, r.moves, RunEnd(None, 0));
      UnheardPush(x, sub, r.moves, RunEnd(None, 0));
    case Some(price) => CheckStopsFollows(r.book, price, others, r.moves, w.depth, x, sub, a, h);
  }

  lemma {:induction false} RunAllFollows(w: Work, x: Id, sub: Option<Id>, a: int, h: int)
    requires WorkOk(w) && AllSound(w.moves) && 0 <= h && (h > 0 ==> Absent(w, x))
    requires WorkShows(w, x, sub, a, h) && SubmittedApart(w, sub)
    ensures WorkShows(RunAll(w), x, sub, a, h)
    decreases |w.queue| + w.book.WaitingCount()
  {
    if w.queue != [] {
      TurnFollows(w, x, sub, a, h);
      TurnApart(w, sub);
      TurnSound(w);
      if h > 0 { TurnAbsent(w, x); }
      RunAllFollows(Turn(w), x, sub, a, h);
    }
  }

  lemma FreshIsAbsent(b: Book, o: Order)
    requires Valid(b) && Fresh(b, o)
    ensures Total(Count(o.id), b) == 0 && Total(Amount(o.id), b) == 0 && Waits(Count(o.id), b) == 0
  {
    assert Total(Count(o.id), b) + Sum(Count(o.id), [o]) <= 1;
    SumOne(Count(o.id), o);
    PresentIffAmount(b, o.id);
    AbsentAmount(b, o.id);
    CountIsPresence(b.bids, o.id);
    CountIsPresence(b.asks, o.id);
    CountIsPresence(b.buyStops, o.id);
    CountIsPresence(b.sellStops, o.id);
  }

  lemma ParkFollows(b: Book, o: Order, x: Id, h: int)
    requires Valid(b) && Fresh(b, o) && 0 <= h && (h > 0 ==> x != o.id)
    ensures var (c, moves) := Park(b, o);
      Shown(c, moves, x, Some(o.id), Total(Amount(x), b) + h, h)
  {
    FreshIsAbsent(b, o);
    FollowOne(x, Some(o.id), Total(Amount(x), b) + h, Park(b, o).1[0]);
    UnheardPush(x, Some(o.id), [], Park(b, o).1[0]);
    NothingMoved(x, Some(o.id));
    SumInsert(Count(x), StopShelf, b.Stops(o.side), o);
    SumInsert(Amount(x), StopShelf, b.Stops(o.side), o);
    hide Sum, FollowAll, Valid, Fresh, Unheard, Rests;
    assert Park(b, o).1 == [] + [Park(b, o).1[0]];
  }

  lemma BeforeCascade(b: Book, o: Order, x: Id, h: int)
    requires Valid(b) && Fresh(b, o)
    requires 0 <= h && (h > 0 ==> Total(Count(x), b) <= 0 && x != o.id)
    ensures var w := Start(b, o);
      && WorkShows(w, x, Some(o.id), Total(Amount(x), b) + h, h)
      && SubmittedApart(w, Some(o.id)) && (h > 0 ==> Absent(w, x))
  {
    var w := Start(b, o);
    FreshIsAbsent(b, o);
    NothingMoved(x, Some(o.id));
    FollowNone(x, Some(o.id), Total(Amount(x), b) + h);
    SumOne(Amount(x), o);
    if h > 0 { AbsentAmount(b, x); }
    assert w.queue[..0] == [];
    assert Sum(Count(o.id), []) == 0;
    hide Sum, FollowAll, Valid, Fresh, Unheard, Rests;
  }

  lemma CascadeFollows(b: Book, o: Order, x: Id, h: int)
    requires Valid(b) && Fresh(b, o) && !o.kind.IsStop()
    requires 0 <= h && (h > 0 ==> Total(Count(x), b) <= 0 && x != o.id)
    ensures var w := RunAll(Start(b, o));
      Shown(w.book, w.moves, x, Some(o.id), Total(Amount(x), b) + h, h)
  {
    hide RunAll, FollowAll, Shown, Sum, SubmittedApart, Absent, Shaped, Distinct;
    BeforeCascade(b, o, x, h);
    NoneQueued(x);
    assert WorkOk(Start(b, o));
    RunAllFollows(Start(b, o), x, Some(o.id), Total(Amount(x), b) + h, h);
  }

  lemma NoneQueued(x: Id)
    ensures Sum(Amount(x), []) == 0
  {
  }

  /** Following the events of a submitted order, each entry ends at what the book holds of the
    order and what of it went unheard. */
  lemma SubmitFollows(b: Book, o: Order, x: Id, h: int)
    requires Valid(b) && Fresh(b, o)
    requires 0 <= h && (h > 0 ==> Total(Count(x), b) <= 0 && x != o.id)
    ensures var (c, moves) := Submit(b, o);
      && FollowAll(x, Some(o.id), Total(Amount(x), b) + h, moves) == Total(Amount(x), c) + h + Unheard(x, Some(o.id), moves)
      && 0 <= Unheard(x, Some(o.id), moves)
  {
    if Refusal(b, o).Some? {
      var void := Submit(b, o).1[0];
      FreshIsAbsent(b, o);
      FollowOne(x, Some(o.id), Total(Amount(x), b) + h, void);
      NothingMoved(x, Some(o.id));
      UnheardPush(x, Some(o.id), [], void);
      assert Submit(b, o).1 == [] + [void];
    } else if o.kind.IsStop() {
      ParkFollows(b, o, x, h);
    } else {
      CascadeFollows(b, o, x, h);
    }
  }

  // ---- When nothing is unheard ---------------------------------------------------

  /** The move takes quantity of `x` that is in the table, or should come to be, silently. */
  ghost predicate SilentAt(x: Id, sub: Option<Id>, moves: seq<Move>, i: nat)
    requires i < |moves|
  {
    SilentOn(x, moves[i]) && (moves[i].Shrink? && sub == Some(x) ==> Rests(x, moves[..i]))
  }

  predicate Repairs(x: Id, m: Move) {
    match m
    case Rest(id, _) => id == x
    case Void(id, _, _, _) => id == x
    case _ => false
  }

  ghost predicate RepairedAfter(x: Id, moves: seq<Move>, i: nat) {
    exists j :: i < j < |moves| && Repairs(x, moves[j])
  }

  /** Nothing of `x` is unheard if and only if whatever went silently was followed by an
    announcement that `x` rests or is cancelled. */
  lemma {:induction false} UnheardIffUnrepaired(x: Id, sub: Option<Id>, moves: seq<Move>)
    requires AllSound(moves)
    ensures 0 <= Unheard(x, sub, moves)
    ensures Unheard(x, sub, moves) == 0 <==>
      forall i :: 0 <= i < |moves| && SilentAt(x, sub, moves, i) ==> RepairedAfter(x, moves, i)
  {
    if moves != [] {
      var n := |moves| - 1;
      var front, last := moves[..n], moves[n];
      assert last in moves && Sound(last) && forall m :: m in front ==> m in moves;
      UnheardIffUnrepaired(x, sub, front);
      assert forall i :: 0 <= i <= n ==> front[..i] == moves[..i];
      hide Unheard, Rests, AllSound;
      assert SilentAt(x, sub, moves, n) ==> !RepairedAfter(x, moves, n);
      forall i | 0 <= i < n ensures SilentAt(x, sub, moves, i) == SilentAt(x, sub, front, i)
        && (RepairedAfter(x, moves, i) <==> RepairedAfter(x, front, i) || Repairs(x, last))
      {
        RepairedMore(x, moves, i);
      }
      UnheardLast(x, sub, moves);
    }
  }

  lemma RepairedMore(x: Id, moves: seq<Move>, i: nat)
    requires i < |moves| - 1
    ensures RepairedAfter(x, moves, i) <==> RepairedAfter(x, moves[..|moves| - 1], i) || Repairs(x, moves[|moves| - 1])
  {
    var front := moves[..|moves| - 1];
    if RepairedAfter(x, front, i) {
      var j :| i < j < |front| && Repairs(x, front[j]);
      assert Repairs(x, moves[j]);
    }
    if RepairedAfter(x, moves, i) {
      var j :| i < j < |moves| && Repairs(x, moves[j]);
      if j < |front| { assert Repairs(x, front[j]); }
    }
  }

  lemma UnheardLast(x: Id, sub: Option<Id>, moves: seq<Move>)
    requires moves != [] && Sound(moves[|moves| - 1]) && 0 <= Unheard(x, sub, moves[..|moves| - 1])
    ensures var n := |moves| - 1;
      && 0 <= Unheard(x, sub, moves)
      && (SilentAt(x, sub, moves, n) ==> Unheard(x, sub, moves) > 0)
      && (!SilentAt(x, sub, moves, n) ==>
            Unheard(x, sub, moves) == if Repairs(x, moves[n]) then 0 else Unheard(x, sub, moves[..n]))
  {
  }
}
