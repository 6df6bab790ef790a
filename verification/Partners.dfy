/** When a leg of an OCO pair that is done takes its partner with it: exactly when the partner is
  in one of the lists at that moment, which some conditions on the book make sure of beforehand
  (engine/crates/core/src/book.rs). */
module Partners {
  import opened Orders
  import opened Ladder
  import opened Matcher
  import opened BookInvariants
  import opened Cascade
  import opened Conservation
  import opened Histories
  import opened StopOrders
  import opened Wire
  import opened OpenOrders
  import opened Voids
  import opened Pairs
  import opened Legs
  import FillOrKill
  import opened TimePriority

  // ---- At the moment when a leg is done ------------------------------------------

  /** The step fills the front order, another's, to the end. */
  predicate UsesUp(r: Run) {
    r.Active() && r.Opposing()[0].user != r.taker.user
    && r.Opposing()[0].Effective() == r.Opposing()[0].remaining <= r.taker.remaining
  }

  function Popped(r: Run): Book
    requires r.Active()
  {
    r.book.WithResting(r.taker.side.Opposite(), r.Opposing()[1..])
  }

  lemma UsedUpMoves(r: Run)
    requires UsesUp(r)
    ensures var id := r.Opposing()[0].id;
      && New(r) == [Trade(FillOf(r))] + CancelLinked(Popped(r), id).1 && Step(r).book == CancelLinked(Popped(r), id).0
      && Step(r).moves == r.moves + New(r)
  {
    StepAppends(r);
    assert [] + [Trade(FillOf(r))] == [Trade(FillOf(r))];
    hide CancelLinked, Insert;
  }

  /** A used-up maker takes its partner if and only if the partner is listed once it is popped;
    if not, there is the fill, and no more than the two links are gone. */
  lemma UsedUpTakesPartnerIff(r: Run)
    requires UsesUp(r) && r.Opposing()[0].id in r.book.links
    ensures var id := r.Opposing()[0].id;
      var y := r.book.links[id];
      && (TakesPartner(y, New(r)) <==> Listed(Popped(r), y))
      && (!Listed(Popped(r), y) ==>
           New(r) == [Trade(FillOf(r))] && Step(r).book == Popped(r).(links := r.book.links - {id, y}))
  {
    var id := r.Opposing()[0].id;
    UsedUpMoves(r);
    LinkedGoesIff(Popped(r), id);
    var cancels := CancelLinked(Popped(r), id).1;
    hide CancelLinked, New, Step, Listed;
    TakenBehind(r.book.links[id], [Trade(FillOf(r))], cancels);
    assert [Trade(FillOf(r))] + [] == [Trade(FillOf(r))];
  }

  lemma TakenBehind(y: Id, a: seq<Move>, b: seq<Move>)
    requires forall m :: m in a ==> !GoesAsPartner(y, m)
    ensures TakesPartner(y, a + b) <==> exists m :: m in b && GoesAsPartner(y, m)
  {
    assert forall m :: m in a + b <==> m in a || m in b;
  }

  /** A partner that has been triggered and waits in the queue is not in a list: it goes on. */
  lemma QueuedPartnerGoesOn(r: Run, queue: seq<Order>)
    requires Live(r, queue) && UsesUp(r) && r.Opposing()[0].id in r.book.links
    requires Has(queue, r.book.links[r.Opposing()[0].id])
    ensures var id := r.Opposing()[0].id;
      && New(r) == [Trade(FillOf(r))]
      && Step(r).book == Popped(r).(links := r.book.links - {id, r.book.links[id]})
  {
    var y, popped := r.book.links[r.Opposing()[0].id], Popped(r);
    PopFront(r.book, r.taker.side.Opposite(), [r.taker] + queue);
    assert Total(Count(y), popped) + Sum(Count(y), [r.taker] + queue) <= 1;
    SumFront(Count(y), queue, r.taker);
    CountIsPresence(queue, y);
    hide Total, Sum, New, Step, Shaped, Distinct;
    UsedUpTakesPartnerIff(r);
  }

  /** So does the order at hand, when the leg it uses up is its own partner. */
  lemma OwnPartnerGoesOn(r: Run, queue: seq<Order>)
    requires Live(r, queue) && UsesUp(r) && r.Opposing()[0].id in r.book.links
    requires r.book.links[r.Opposing()[0].id] == r.taker.id
    ensures New(r) == [Trade(FillOf(r))]
  {
    var y, popped := r.taker.id, Popped(r);
    PopFront(r.book, r.taker.side.Opposite(), [r.taker] + queue);
    assert Total(Count(y), popped) + Sum(Count(y), [r.taker] + queue) <= 1;
    SumFront(Count(y), queue, r.taker);
    CountIsPresence(queue, y);
    hide Total, Sum, New, Step, Shaped, Distinct;
    UsedUpTakesPartnerIff(r);
  }

  /** An order that its run leaves filled or cancelled, and not by self-trade prevention, takes
    its partner if and only if the partner is listed then. */
  lemma FinishedTakesPartnerIff(r: Run)
    requires !r.dead && (r.taker.remaining == 0 || Disposal(r.taker.kind, r.last.Some?).Some?)
    requires r.taker.id in r.book.links && r.book.links[r.taker.id] != r.taker.id
    ensures var y := r.book.links[r.taker.id];
      && r.moves <= Finish(r).moves
      && (TakesPartner(y, Finish(r).moves[|r.moves|..]) <==> Listed(r.book, y))
      && (!Listed(r.book, y) ==> Finish(r).book == r.book.(links := r.book.links - {r.taker.id, y}))
  {
    hide CancelLinked, Listed, Insert;
    var y, cancels := r.book.links[r.taker.id], CancelLinked(r.book, r.taker.id).1;
    LinkedGoesIff(r.book, r.taker.id);
    EndsInCancels(r, y);
    hide Finish;
    assert Finish(r).moves[|r.moves|..] == Ending(r);
  }

  lemma EndsInCancels(r: Run, y: Id)
    requires !r.dead && (r.taker.remaining == 0 || Disposal(r.taker.kind, r.last.Some?).Some?) && y != r.taker.id
    ensures Finish(r).book == CancelLinked(r.book, r.taker.id).0
    ensures TakesPartner(y, Ending(r)) <==> TakesPartner(y, CancelLinked(r.book, r.taker.id).1)
  {
    hide CancelLinked, Insert;
    var cancels := CancelLinked(r.book, r.taker.id).1;
    if r.taker.remaining != 0 {
      TakenBehind(y, [Void(r.taker.id, r.taker.remaining, Disposal(r.taker.kind, r.last.Some?).value, Incoming)], cancels);
    }
  }

  /** And so does an order cancelled on request, whether or not it was there. */
  lemma CancelledTakesPartnerIff(b: Book, id: Id)
    requires id in b.links && b.links[id] != id
    ensures TakesPartner(b.links[id], CancelOrder(b, id).1) <==> Listed(b, b.links[id])
  {
    var y := b.links[id];
    var b0 := b.(links := b.links - {id, y});
    var (b1, m1) := Withdraw(b0, id, AdminCancel);
    WithdrawnIff(b1, y);
    SparedByOther(b0, id, y);
    hide Withdraw, Total;
    TakenBehind(y, m1, Withdraw(b1, y, OcoCancel).1);
  }

  lemma SparedByOther(b: Book, id: Id, y: Id)
    requires id != y
    ensures Total(Count(y), Withdraw(b, id, AdminCancel).0) == Total(Count(y), b)
    ensures forall m :: m in Withdraw(b, id, AdminCancel).1 ==> !GoesAsPartner(y, m)
  {
    if Has(b.buyStops, id) {
      SumSwapOut(Count(y), b.buyStops, Find(b.buyStops, id));
    } else if Has(b.sellStops, id) {
      SumSwapOut(Count(y), b.sellStops, Find(b.sellStops, id));
    } else if Has(b.bids, id) {
      SumRemoveAt(Count(y), b.bids, Find(b.bids, id));
    } else if Has(b.asks, id) {
      SumRemoveAt(Count(y), b.asks, Find(b.asks, id));
    }
    hide Sum, SwapOut, RemoveAt;
  }

  /** Self-trade prevention leaves the front order, with less, or takes just that. */
  lemma PreventedList(r: Run) returns (t: seq<Order>, left: Order)
    requires r.Active() && r.Opposing()[0].user == r.taker.user
    ensures left.id == r.Opposing()[0].id && Step(r).book == r.book.WithResting(r.taker.side.Opposite(), t)
    ensures t == r.Opposing() || t == r.Opposing()[1..] || t == [left] + r.Opposing()[1..]
  {
    left := r.Opposing()[0].(remaining := r.Opposing()[0].remaining - r.taker.remaining);
    t := Step(r).book.Resting(r.taker.side.Opposite());
  }

  /** Self-trade prevention does not look at links: they all stay, and so does every order but the
    two that met. */
  lemma PreventionLeavesPartners(r: Run, x: Id, g: Gauge)
    requires r.Active() && r.Opposing()[0].user == r.taker.user
    requires x != r.taker.id && x != r.Opposing()[0].id && g in {Count(x), Amount(x)}
    ensures Step(r).book.links == r.book.links && Total(g, Step(r).book) == Total(g, r.book)
  {
    var side, s := r.taker.side.Opposite(), r.Opposing();
    var t, left := PreventedList(r);
    hide Step, Sum, Total;
    assert s == [s[0]] + s[1..];
    SumFront(g, s[1..], s[0]);
    SumFront(g, s[1..], left);
    SideTotal(g, r.book, side, t);
  }

  // ---- What a caller can make sure of --------------------------------------------

  /** Orders under `x` are the user's. */
  ghost predicate Owned(s: seq<Order>, x: Id, user: UserId) {
    forall o :: o in s && o.id == x ==> o.user == user
  }

  ghost predicate NoneOf(s: seq<Order>, x: Id, user: UserId) {
    forall o :: o in s ==> o.user != user && o.id != x
  }

  /** None of the taker's own orders is within its limit. */
  ghost predicate NoneReached(s: seq<Order>, taker: Order) {
    forall o :: o in s && Admits(taker, o.price.Or(0)) ==> o.user != taker.user
  }

  /** The sides of the book and the stops, as far as `x` is concerned. */
  ghost predicate Safe(b: Book, x: Id, user: UserId) {
    Owned(b.bids, x, user) && Owned(b.asks, x, user) && NoneOf(b.buyStops, x, user) && NoneOf(b.sellStops, x, user)
  }

  /** The order at hand is another user's, or is `x` and has none of its own to meet. */
  ghost predicate SafeTaker(r: Run, x: Id, user: UserId) {
    if r.taker.id == x then r.taker.user == user && NoneReached(r.Opposing(), r.taker) else r.taker.user != user
  }

  /** What is on a side after a step was there before it, but for its remainder. */
  lemma StepMembers(r: Run, side: Side)
    requires r.Active()
    ensures forall o :: o in Step(r).book.Resting(side) ==>
      exists p :: p in r.book.Resting(side) && o == p.(remaining := o.remaining)
  {
    StepLists(r, side);
    hide Step;
    forall o | o in Step(r).book.Resting(side)
      ensures exists p :: p in r.book.Resting(side) && o == p.(remaining := o.remaining)
    {
      if o in r.book.Resting(side) {
        assert o == o.(remaining := o.remaining);
      } else {
        assert r.Opposing()[0] in r.book.Resting(side);
      }
    }
  }

  lemma StepLists(r: Run, side: Side)
    requires r.Active()
    ensures forall o :: o in Step(r).book.Resting(side) ==>
      || o in r.book.Resting(side)
      || (side == r.taker.side.Opposite() && o == r.Opposing()[0].(remaining := o.remaining))
  {
    hide CancelLinked, Insert;
    var opp, maker, rest := r.taker.side.Opposite(), r.Opposing()[0], r.Opposing()[1..];
    assert forall o :: o in rest ==> o in r.Opposing();
    var left := maker.(remaining := maker.remaining - Min(r.taker.remaining, maker.Effective()));
    LinkedMembers(r.book.WithResting(opp, rest), maker.id, side);
    InsertMembers(ShelfOf(opp), rest, left);
  }

  lemma StepSafe(r: Run, queue: seq<Order>, x: Id, user: UserId)
    requires Live(r, queue) && r.Active() && Safe(r.book, x, user) && SafeTaker(r, x, user)
    ensures Safe(Step(r).book, x, user) && SafeTaker(Step(r), x, user)
  {
    StepMembers(r, Buy);
    StepMembers(r, Sell);
    StepFewer(r);
    StepShrinks(r);
    hide Step, Shaped, Distinct;
  }

  /** No step lets `x` leave unlinked. */
  lemma StepExcusesNone(r: Run, x: Id, user: UserId)
    requires r.Active() && Safe(r.book, x, user) && SafeTaker(r, x, user) && !Excused(x, r.moves)
    ensures !Excused(x, Step(r).moves)
  {
    var maker := r.Opposing()[0];
    assert maker in r.Opposing();
    StepAppends(r);
    if maker.user == r.taker.user {
      assert maker.id != x && r.taker.id != x;
      assert forall m :: m in New(r) ==> !LeftUnlinked(x, m);
    } else {
      var cancels := CancelLinked(Popped(r), maker.id).1;
      assert forall m :: m in cancels ==> !LeftUnlinked(x, m);
      hide CancelLinked, Insert;
      assert forall m :: m in New(r) ==> !LeftUnlinked(x, m);
    }
    hide Step, New;
    ExcusedInFront(x, r.moves, New(r));
  }

  lemma ExcusedInFront(x: Id, a: seq<Move>, b: seq<Move>)
    requires !Excused(x, a) && forall m :: m in b ==> !LeftUnlinked(x, m)
    ensures !Excused(x, a + b)
  {
    assert forall m :: m in a + b <==> m in a || m in b;
  }

  lemma {:induction false} LoopSafe(r: Run, queue: seq<Order>, x: Id, user: UserId)
    requires Live(r, queue) && Safe(r.book, x, user) && SafeTaker(r, x, user) && !Excused(x, r.moves)
    ensures var q := Loop(r, queue); Safe(q.book, x, user) && !Excused(x, q.moves)
    decreases r.taker.remaining, |r.Opposing()|
  {
    if r.Active() {
      StepKeeps(r, queue);
      StepShrinks(r);
      StepSafe(r, queue, x, user);
      StepExcusesNone(r, x, user);
      hide Step, Safe, SafeTaker, Excused, Shaped, Distinct;
      LoopSafe(Step(r), queue, x, user);
    }
  }

  /** What is on a side when a run has ended was there before, or is the order it was for. */
  lemma FinishMembers(q: Run, side: Side)
    ensures forall o :: o in Finish(q).book.Resting(side) ==> o in q.book.Resting(side) || o == q.taker
  {
    hide CancelLinked, Insert;
    LinkedMembers(q.book, q.taker.id, side);
    InsertMembers(ShelfOf(q.taker.side), q.book.Resting(q.taker.side), q.taker);
  }

  lemma FinishSafe(q: Run, x: Id, user: UserId)
    requires Safe(q.book, x, user) && !Excused(x, q.moves) && (q.taker.id == x ==> q.taker.user == user && Priced(q.taker))
    ensures Safe(Finish(q).book, x, user) && !Excused(x, Finish(q).moves)
  {
    hide Finish, Excused;
    FinishMembers(q, Buy);
    FinishMembers(q, Sell);
    FinishFewer(q);
    FinishExcusesNone(q, x);
    var b, c := q.book, Finish(q).book;
    assert c.bids == c.Resting(Buy) && c.asks == c.Resting(Sell) && b.bids == b.Resting(Buy) && b.asks == b.Resting(Sell);
  }

  lemma FinishExcusesNone(q: Run, x: Id)
    requires !Excused(x, q.moves) && (q.taker.id == x ==> Priced(q.taker))
    ensures !Excused(x, Finish(q).moves)
  {
    hide CancelLinked, Insert, Excused;
    var more := Ending(q);
    LinkedExcusesNone(q.book, q.taker.id, x);
    ExcusedInFront(x, q.moves, more);
  }

  /** What the end of a run adds. */
  function Ending(q: Run): (more: seq<Move>)
    ensures Finish(q).moves == q.moves + more
  {
    var cancels := CancelLinked(q.book, q.taker.id).1;
    if q.dead then []
    else if q.taker.remaining == 0 then cancels
    else
      match Disposal(q.taker.kind, q.last.Some?)
      case Some(reason) => [Void(q.taker.id, q.taker.remaining, reason, Incoming)] + cancels
      case None =>
        if q.taker.price.None? then [Rest(q.taker.id, q.taker.remaining), Stray(q.taker.id, q.taker.remaining)]
        else [Rest(q.taker.id, q.taker.remaining)]
  }

  lemma LinkedExcusesNone(b: Book, id: Id, x: Id)
    ensures forall m :: m in CancelLinked(b, id).1 ==> !LeftUnlinked(x, m)
  {
  }

  lemma DueSafe(b: Book, price: int, x: Id, user: UserId)
    requires Safe(b, x, user)
    ensures NoneOf(Due(b, price), x, user) && Safe(Undue(b, price), x, user)
  {
    ActivatedNoneOf(b.buyStops[..UpTo(b.buyStops, price)], b.buyStops, x, user);
    ActivatedNoneOf(b.sellStops[UpTo(b.sellStops, price - 1)..], b.sellStops, x, user);
  }

  lemma ActivatedNoneOf(t: seq<Order>, s: seq<Order>, x: Id, user: UserId)
    requires NoneOf(s, x, user) && forall o :: o in t ==> o in s
    ensures NoneOf(ActivateAll(t), x, user)
  {
    forall i | 0 <= i < |t| ensures ActivateAll(t)[i].user != user && ActivateAll(t)[i].id != x {
      ActivateAllAt(t, i);
      assert t[i] in t;
    }
  }

  lemma {:induction false} MarkersExcuseNone(s: seq<Order>, x: Id, user: UserId)
    requires NoneOf(s, x, user)
    ensures !Excused(x, Triggered(s)) && !Excused(x, Cascade.Dropped(s))
  {
    if s != [] {
      assert s[|s| - 1] in s && forall o :: o in s[..|s| - 1] ==> o in s;
      MarkersExcuseNone(s[..|s| - 1], x, user);
    }
  }

  lemma CheckSafe(b: Book, price: int, others: seq<Order>, moves: seq<Move>, depth: nat, x: Id, user: UserId)
    requires Safe(b, x, user) && NoneOf(others, x, user) && !Excused(x, moves)
    ensures var v := CheckStops(b, price, others, moves, depth);
      Safe(v.book, x, user) && NoneOf(v.queue, x, user) && !Excused(x, v.moves)
  {
    var due := Due(b, price);
    DueSafe(b, price, x, user);
    MarkersExcuseNone(due, x, user);
    hide Due, Undue, Triggered, Cascade.Dropped, Safe, Excused;
    BothExcuseNone(x, moves, [RunEnd(Some(price), |due|)], Triggered(due));
    BothExcuseNone(x, moves, [RunEnd(Some(price), 0)], Cascade.Dropped(due));
  }

  lemma BothExcuseNone(x: Id, a: seq<Move>, end: seq<Move>, b: seq<Move>)
    requires !Excused(x, a) && !Excused(x, b) && forall m :: m in end ==> m.RunEnd?
    ensures !Excused(x, a + end + b)
  {
    assert forall m :: m in a + end + b <==> m in a || m in end || m in b;
  }

  /** A turn whose order is safe, with none but other users' orders queued behind it. */
  lemma TurnSafe(w: Work, x: Id, user: UserId)
    requires WorkOk(w) && w.queue != [] && NoneOf(w.queue[..|w.queue| - 1], x, user)
    requires Safe(w.book, x, user) && !Excused(x, w.moves)
    requires var o := w.queue[|w.queue| - 1];
      SafeTaker(Run(w.book, o, w.moves, None, false), x, user) && (o.id == x ==> Priced(o))
    ensures Safe(Turn(w).book, x, user) && NoneOf(Turn(w).queue, x, user) && !Excused(x, Turn(w).moves)
  {
    var others, taker := w.queue[..|w.queue| - 1], w.queue[|w.queue| - 1];
    PopQueue(w.book, w.queue);
    assert taker in w.queue;
    var r0 := Run(w.book, taker, w.moves, None, false);
    FillOrKill.LoopSameTaker(r0, others);
    LoopSafe(r0, others, x, user);
    hide Safe, Excused, Loop, Finish, CheckStops, Shaped, Distinct;
    FinishSafe(Loop(r0, others), x, user);
    var r := RunOne(w);
    match r.last
    case None => BothExcuseNone(x, r.moves, [RunEnd(None, 0)], []); NothingBehind(r.moves + [RunEnd(None, 0)], x);
    case Some(price) => CheckSafe(r.book, price, others, r.moves, w.depth, x, user);
  }

  lemma NothingBehind(moves: seq<Move>, x: Id)
    ensures moves + [] == moves && !Excused(x, [])
  {
  }

  lemma {:induction false} RunAllSafe(w: Work, x: Id, user: UserId)
    requires WorkOk(w) && Safe(w.book, x, user) && NoneOf(w.queue, x, user) && !Excused(x, w.moves)
    ensures !Excused(x, RunAll(w).moves)
    decreases |w.queue| + w.book.WaitingCount()
  {
    if w.queue != [] {
      assert w.queue[|w.queue| - 1] in w.queue && forall o :: o in w.queue[..|w.queue| - 1] ==> o in w.queue;
      hide Safe, Excused, Turn;
      TurnSafe(w, x, user);
      RunAllSafe(Turn(w), x, user);
    }
  }

  // ---- A call on a clear book ----------------------------------------------------

  predicate Resting(b: Book, x: Id) {
    Has(b.bids, x) || Has(b.asks, x)
  }

  /** The pair of `x`, as the book stands before the call: the partner rests; no stop of the owner
    of `x` waits; and either `x` rests and the order submitted is another user's, or it is the
    order submitted, has a price if it may rest, and none of its own orders is in reach. */
  ghost predicate Clear(b: Book, o: Order, x: Id, user: UserId) {
    && x in b.links && Resting(b, b.links[x])
    && (forall s :: s in b.buyStops || s in b.sellStops ==> s.user != user)
    && if x == o.id then o.user == user && Priced(o) && NoneReached(b.Resting(o.side.Opposite()), o)
       else Resting(b, x) && Owned(b.bids, x, user) && Owned(b.asks, x, user) && o.user != user
  }

  lemma RestsAlone(b: Book, o: Order, x: Id)
    requires Distinct(b, [o]) && Resting(b, x)
    ensures x != o.id && Without(b.buyStops, x) && Without(b.sellStops, x) && Waits(Count(x), b) == 0
    ensures Total(Count(x), b) > 0
  {
    assert Total(Count(x), b) + Sum(Count(x), [o]) <= 1;
    SumOne(Count(x), o);
    CountIsPresence(b.bids, x);
    CountIsPresence(b.asks, x);
    CountIsPresence(b.buyStops, x);
    CountIsPresence(b.sellStops, x);
  }

  lemma FirstAlone(b: Book, o: Order)
    requires Distinct(b, [o])
    ensures Without(b.bids, o.id) && Without(b.asks, o.id) && Without(b.buyStops, o.id) && Without(b.sellStops, o.id)
  {
    var x := o.id;
    assert Total(Count(x), b) + Sum(Count(x), [o]) <= 1;
    SumOne(Count(x), o);
    CountIsPresence(b.bids, x);
    CountIsPresence(b.asks, x);
    CountIsPresence(b.buyStops, x);
    CountIsPresence(b.sellStops, x);
  }

  lemma ClearIsSafe(b: Book, o: Order, x: Id, user: UserId)
    requires Distinct(b, [o]) && Clear(b, o, x, user)
    ensures Safe(b, x, user) && SafeTaker(Run(b, o, [], None, false), x, user) && (o.id == x ==> Priced(o))
  {
    if x == o.id { FirstAlone(b, o); } else { RestsAlone(b, o, x); }
    hide Distinct;
  }

  lemma {:induction false} UntriggeredUnlessExits(x: Id, moves: seq<Move>)
    requires Exits(x, moves) <= 0
    ensures forall m :: m in moves ==> !(m.Trigger? && m.triggerId == x)
  {
    if moves != [] {
      UntriggeredUnlessExits(x, moves[..|moves| - 1]);
      assert moves == moves[..|moves| - 1] + [moves[|moves| - 1]];
    }
  }

  /** On a clear book the promise is kept: when the call is over and `x` is gone, filled or
    cancelled, its partner is gone too. */
  lemma ClearPairsGoTogether(b: Book, o: Order, x: Id, user: UserId)
    requires Valid(b) && Fresh(b, o) && Paired(b.links) && Clear(b, o, x, user)
    requires Refusal(b, o).None? && !o.kind.IsStop()
    ensures var c := Submit(b, o).0; Total(Amount(x), c) == 0 ==> Total(Amount(b.links[x]), c) == 0
  {
    var y := b.links[x];
    ClearIsSafe(b, o, x, user);
    RestsAlone(b, o, y);
    ClearIsAlive(b, o, x, user);
    hide Clear, Safe, SafeTaker, Shaped, Distinct, Excused, Priced, Total, Submit;
    NoneTriggered(b, o, y);
    NoneExcused(b, o, x, user);
    LegGoesWithItsPartner(b, o, x);
  }

  /** An order that waits for no stop price is not triggered. */
  lemma NoneTriggered(b: Book, o: Order, y: Id)
    requires Valid(b) && Fresh(b, o) && Refusal(b, o).None? && !o.kind.IsStop() && Waits(Count(y), b) == 0 && y != o.id
    ensures !Flew(y, o.id, Submit(b, o).1)
  {
    var w := Start(b, o);
    RunAllExits(y, w);
    WaitsNonNegative(RunAll(w).book, y);
    hide RunAll, Shaped, Distinct, Refusal;
    assert Exits(y, []) == 0;
    UntriggeredUnlessExits(y, RunAll(w).moves);
  }

  lemma NoneExcused(b: Book, o: Order, x: Id, user: UserId)
    requires Valid(b) && Fresh(b, o) && Refusal(b, o).None? && !o.kind.IsStop() && Safe(b, x, user)
    requires SafeTaker(Run(b, o, [], None, false), x, user) && (o.id == x ==> Priced(o))
    ensures !Excused(x, Submit(b, o).1)
  {
    var w := Start(b, o);
    OpeningWork(b, o);
    hide Safe, SafeTaker, Shaped, Distinct, Turn, Priced, Refusal;
    assert w.queue[..0] == [];
    assert !Excused(x, []);
    hide Excused;
    TurnSafe(w, x, user);
    RunAllSafe(Turn(w), x, user);
  }

  lemma OpeningWork(b: Book, o: Order)
    requires Valid(b) && Fresh(b, o)
    ensures !o.kind.IsStop() ==> WorkOk(Start(b, o))
  {
  }

  lemma WaitsNonNegative(b: Book, x: Id)
    ensures 0 <= Waits(Count(x), b)
  {
    CountIsPresence(b.buyStops, x);
    CountIsPresence(b.sellStops, x);
  }

  lemma ClearIsAlive(b: Book, o: Order, x: Id, user: UserId)
    requires Valid(b) && Clear(b, o, x, user) && Distinct(b, [o])
    ensures Alive(b, o.id, x)
  {
    if x != o.id {
      RestsAlone(b, o, x);
      PresentIffAmount(b, x);
    }
  }
}
