/** Whole calls of the matching core: a run to its end, and the cascade of runs that
  triggered stops cause (engine/crates/core/src/book.rs, `match_order`). */
module Cascade {
  import opened Orders
  import opened Ladder
  import opened Matcher
  import opened BookInvariants

  /** The matching loop. It ends because each step uses up some of the taker's remainder,
    or leaves that alone and removes an order from the opposite side. */
  function Loop(r: Run, ghost queue: seq<Order>): (q: Run)
    requires Live(r, queue)
    ensures Live(q, queue) && !q.Active()
    ensures q.book.WaitingCount() <= r.book.WaitingCount()
    decreases r.taker.remaining, |r.Opposing()|
  {
    if r.Active() then
      StepKeeps(r, queue);
      StepShrinks(r);
      Loop(Step(r), queue)
    else r
  }

  /** Orders waiting to be matched, last in first out, and how many stops were triggered. */
  datatype Work = Work(book: Book, queue: seq<Order>, moves: seq<Move>, depth: nat)

  ghost predicate WorkOk(w: Work) {
    && Shaped(w.book) && Distinct(w.book, w.queue)
    && forall o :: o in w.queue ==> Restless(o)
  }

  function Triggered(s: seq<Order>): seq<Move> {
    if s == [] then [] else Triggered(s[..|s| - 1]) + [Trigger(s[|s| - 1].id)]
  }

  function Dropped(s: seq<Order>): seq<Move> {
    if s == [] then [] else Dropped(s[..|s| - 1]) + [Drop(s[|s| - 1].id, s[|s| - 1].remaining)]
  }

  /** One run to its end, on the order taken from the back of the queue. */
  function RunOne(w: Work): (r: Run)
    requires WorkOk(w) && w.queue != []
    ensures var others := w.queue[..|w.queue| - 1];
      && Shaped(r.book) && Distinct(r.book, others)
      && r.book.WaitingCount() <= w.book.WaitingCount()
  {
    var others, taker := w.queue[..|w.queue| - 1], w.queue[|w.queue| - 1];
    PopQueue(w.book, w.queue);
    assert taker in w.queue;
    var r := Loop(Run(w.book, taker, w.moves, None, false), others);
    FinishKeeps(r, others);
    Finish(r)
  }

  lemma PopQueue(b: Book, queue: seq<Order>)
    requires queue != [] && Distinct(b, queue)
    ensures Distinct(b, [queue[|queue| - 1]] + queue[..|queue| - 1])
  {
    var others, last := queue[..|queue| - 1], queue[|queue| - 1];
    assert queue == others + [last];
    forall x ensures Total(Count(x), b) + Sum(Count(x), [last] + others) <= 1 {
      SumConcat(Count(x), others, [last]);
      SumConcat(Count(x), [last], others);
      assert Total(Count(x), b) + Sum(Count(x), queue) <= 1;
    }
  }

  /** The stops triggered by a run's last trade price join the queue; beyond the depth
    limit they are taken from the registry and discarded. */
  function CheckStops(b: Book, price: int, others: seq<Order>, moves: seq<Move>, depth: nat): Work {
    var due := Due(b, price);
    if depth < MAX_STOP_CHAIN_DEPTH then
      Work(Undue(b, price), others + due, moves + [RunEnd(Some(price), |due|)] + Triggered(due),
           Min(DEPTH_CEILING, depth + Min(DEPTH_CEILING, |due|)))
    else
      Work(Undue(b, price), others, moves + [RunEnd(Some(price), 0)] + Dropped(due), depth)
  }

  lemma CheckStopsKeeps(b: Book, price: int, others: seq<Order>, moves: seq<Move>, depth: nat)
    requires Shaped(b) && Distinct(b, others)
    requires forall o :: o in others ==> Restless(o)
    ensures var v := CheckStops(b, price, others, moves, depth);
      WorkOk(v) && |v.queue| + v.book.WaitingCount() <= |others| + b.WaitingCount()
  {
    UndueKeeps(b, price, others);
    DueOk(b, price);
    Overflow(Undue(b, price), others, Due(b, price));
  }

  /** A turn of the cascade: a run, then the stops its last trade price triggers. */
  function Turn(w: Work): (v: Work)
    requires WorkOk(w) && w.queue != []
    ensures WorkOk(v)
    ensures |v.queue| + v.book.WaitingCount() < |w.queue| + w.book.WaitingCount()
  {
    var others, r := w.queue[..|w.queue| - 1], RunOne(w);
    assert forall o :: o in others ==> o in w.queue;
    match r.last
    case None => Work(r.book, others, r.moves + [RunEnd(None, 0)], w.depth)
    case Some(price) =>
      CheckStopsKeeps(r.book, price, others, r.moves, w.depth);
      CheckStops(r.book, price, others, r.moves, w.depth)
  }

  lemma Overflow(b: Book, others: seq<Order>, due: seq<Order>)
    requires Distinct(b, others + due)
    ensures Distinct(b, others)
  {
    forall x ensures Total(Count(x), b) + Sum(Count(x), others) <= 1 {
      SumConcat(Count(x), others, due);
      CountIsPresence(due, x);
      assert Total(Count(x), b) + Sum(Count(x), others + due) <= 1;
    }
  }

  /** The outer loop. Each turn takes an order off the queue, and whatever joins the queue
    leaves the registry. */
  function RunAll(w: Work): (v: Work)
    requires WorkOk(w)
    ensures WorkOk(v) && v.queue == []
    decreases |w.queue| + w.book.WaitingCount()
  {
    if w.queue == [] then w else RunAll(Turn(w))
  }

  /** What a caller hands in: a whole order under an id the book does not know. */
  ghost predicate Fresh(b: Book, o: Order) {
    o.Ready() && Distinct(b, [o])
  }

  function Start(b: Book, o: Order): Work {
    Work(b, [o], [], 0)
  }

  /** `match_order`. */
  function Submit(b: Book, o: Order): (r: (Book, seq<Move>))
    requires Valid(b) && Fresh(b, o)
    ensures Valid(r.0)
  {
    match Refusal(b, o)
    case Some(reason) => (b, [Void(o.id, o.remaining, reason, Incoming)])
    case None =>
      if o.kind.IsStop() then
        ParkKeeps(b, o);
        Park(b, o)
      else
        var w := RunAll(Start(b, o));
        (w.book, w.moves)
  }

  lemma CancelKeeps(b: Book, id: Id)
    requires Valid(b)
    ensures Valid(CancelOrder(b, id).0)
  {
    if id in b.links {
      var b0 := b.(links := b.links - {id, b.links[id]});
      var b1 := Withdraw(b0, id, AdminCancel).0;
      WithdrawWithin(b0, id, AdminCancel);
      WithinShaped(b1, b0);
      WithinDistinct(b1, b0, []);
      WithdrawWithin(b1, b.links[id], OcoCancel);
      WithinShaped(CancelOrder(b, id).0, b1);
      WithinDistinct(CancelOrder(b, id).0, b1, []);
    } else {
      WithdrawWithin(b, id, AdminCancel);
      WithinShaped(CancelOrder(b, id).0, b);
      WithinDistinct(CancelOrder(b, id).0, b, []);
    }
  }

  // ---- Nothing that happened is taken back ---------------------------------------

  ghost predicate Quiet(moves: seq<Move>) {
    forall m :: m in moves ==> !m.Trade? && !m.RunEnd?
  }

  /** `b` continues `a` with cancellations and notices only. */
  ghost predicate QuietlyExtends(a: seq<Move>, b: seq<Move>) {
    a <= b && Quiet(b[|a|..])
  }

  lemma FinishAdds(r: Run)
    ensures QuietlyExtends(r.moves, Finish(r).moves)
  {
    var cancels := CancelLinked(r.book, r.taker.id).1;
    assert Quiet(cancels);
    SettleAdds(r);
    hide CancelLinked, Settle;
    if !r.dead && r.taker.remaining != 0 && Disposal(r.taker.kind, r.last.Some?).Some? {
      var void := Void(r.taker.id, r.taker.remaining, Disposal(r.taker.kind, r.last.Some?).value, Incoming);
      assert r.moves + [void] + cancels == r.moves + ([void] + cancels);
    } else {
      assert r.moves + [] + cancels == r.moves + cancels;
    }
  }

  lemma SettleAdds(r: Run)
    ensures QuietlyExtends(r.moves, Settle(r).moves)
  {
  }

  lemma {:induction false} MarkersQuiet(s: seq<Order>)
    ensures Quiet(Triggered(s)) && Quiet(Dropped(s))
  {
    if s != [] { MarkersQuiet(s[..|s| - 1]); }
  }

  lemma {:induction false} LoopExtends(r: Run, queue: seq<Order>)
    requires Live(r, queue)
    ensures r.moves <= Loop(r, queue).moves
    decreases r.taker.remaining, |r.Opposing()|
  {
    if r.Active() {
      StepKeeps(r, queue);
      StepShrinks(r);
      StepExtends(r);
      LoopExtends(Step(r), queue);
    }
  }

  lemma StepExtends(r: Run)
    requires r.Active()
    ensures r.moves <= Step(r).moves
  {
  }

  lemma TurnExtends(w: Work)
    requires WorkOk(w) && w.queue != []
    ensures w.moves <= RunOne(w).moves <= Turn(w).moves
  {
    var others, taker := w.queue[..|w.queue| - 1], w.queue[|w.queue| - 1];
    PopQueue(w.book, w.queue);
    assert taker in w.queue;
    var r0 := Run(w.book, taker, w.moves, None, false);
    LoopExtends(r0, others);
    FinishAdds(Loop(r0, others));
    hide Loop, Finish, Due, Undue, Shaped, Distinct;
  }

  lemma {:induction false} RunAllExtends(w: Work)
    requires WorkOk(w)
    ensures w.moves <= RunAll(w).moves
    decreases |w.queue| + w.book.WaitingCount()
  {
    if w.queue != [] {
      TurnExtends(w);
      RunAllExtends(Turn(w));
    }
  }
}
