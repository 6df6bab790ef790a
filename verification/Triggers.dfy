/** When stops go off. Told by the trades alone: the last trade price of each matching run, the stops that
  it reaches, in which order they are announced, which of them are discarded at the depth limit, and
  the order in which they run (engine/crates/core/src/book.rs, engine/crates/core/src/stop.rs). */
module Triggers {
  import opened Orders
  import opened Ladder
  import opened Matcher
  import opened BookInvariants
  import opened Cascade
  import opened StopOrders
  import opened TimePriority
  import Endings
  import FillOrKill
  import Partners
  import Voids

  // ---- The last trade of a run ---------------------------------------------------

  /** The price of the last trade since a run ended. */
  function LastTrade(moves: seq<Move>): Option<int> {
    if moves == [] then None
    else
      match moves[|moves| - 1]
      case Trade(f) => Some(f.price)
      case RunEnd(_, _) => None
      case _ => LastTrade(moves[..|moves| - 1])
  }

  /** The stops triggered so far. */
  function Admitted(moves: seq<Move>): nat {
    if moves == [] then 0 else Admitted(moves[..|moves| - 1]) + if moves[|moves| - 1].Trigger? then 1 else 0
  }

  predicate Marker(m: Move) {
    m.Trigger? || m.Drop?
  }

  /** Moves of a run without a trade. */
  ghost predicate Tradeless(moves: seq<Move>) {
    forall m :: m in moves ==> !m.Trade? && !m.RunEnd? && !Marker(m)
  }

  lemma {:induction false} LastTradeThrough(a: seq<Move>, b: seq<Move>)
    requires forall m :: m in b ==> !m.Trade? && !m.RunEnd?
    ensures LastTrade(a + b) == LastTrade(a)
  {
    if b == [] {
      assert a + b == a;
    } else {
      assert b[|b| - 1] in b && (a + b)[..|a + b| - 1] == a + b[..|b| - 1];
      LastTradeThrough(a, b[..|b| - 1]);
    }
  }

  lemma LastTradePush(a: seq<Move>, m: Move)
    ensures m.Trade? ==> LastTrade(a + [m]) == Some(m.fill.price)
    ensures m.RunEnd? ==> LastTrade(a + [m]) == None
  {
  }

  lemma {:induction false} AdmittedConcat(a: seq<Move>, b: seq<Move>)
    ensures Admitted(a + b) == Admitted(a) + Admitted(b)
  {
    if b == [] {
      assert a + b == a;
    } else {
      assert (a + b)[..|a + b| - 1] == a + b[..|b| - 1];
      AdmittedConcat(a, b[..|b| - 1]);
    }
  }

  lemma {:induction false} NoneAdmitted(a: seq<Move>)
    requires forall m :: m in a ==> !m.Trigger?
    ensures Admitted(a) == 0
  {
    if a != [] {
      assert a[|a| - 1] in a;
      NoneAdmitted(a[..|a| - 1]);
    }
  }

  // ---- Batches of stops ----------------------------------------------------------

  /** A price reaches the stop: a buy stop from below, a sell stop from above. */
  predicate Reached(stop: Order, price: int) {
    stop.stopPrice.Some? && if stop.side == Buy then stop.stopPrice.value <= price else price <= stop.stopPrice.value
  }

  /** Buy stops first, then sell stops, each by rising stop price. */
  predicate InTurn(a: Order, b: Order) {
    if a.side == b.side then a.stopPrice.Or(0) <= b.stopPrice.Or(0) else a.side == Buy
  }

  predicate Announces(m: Move, stop: Order, discarded: bool) {
    m == if discarded then Drop(stop.id, stop.remaining) else Trigger(stop.id)
  }

  /** What follows the end of a run, at `j`: the stops `due` go off, all of which waited in `b` and are
    reached by the run's last trade price, in turn; from the 17th stop of a call on they are
    discarded, though never in the middle of a batch. */
  ghost predicate BatchAt(b: Book, moves: seq<Move>, j: nat, due: seq<Order>) {
    && j < |moves| && moves[j].RunEnd? && moves[j].last == LastTrade(moves[..j])
    && j + |due| < |moves|
    && (forall i :: 0 <= i < |due| ==>
         && (due[i] in b.buyStops || due[i] in b.sellStops)
         && moves[j].last.Some? && Reached(due[i], moves[j].last.value)
         && Announces(moves[j + 1 + i], due[i], 16 <= Admitted(moves[..j])))
    && (forall i, k :: 0 <= i < k < |due| ==> InTurn(due[i], due[k]))
    && (j + |due| + 1 < |moves| ==> !Marker(moves[j + |due| + 1]))
    && moves[j].admitted == if 16 <= Admitted(moves[..j]) then 0 else |due|
  }

  ghost predicate Batched(b: Book, moves: seq<Move>) {
    && (forall j :: 0 <= j < |moves| && moves[j].RunEnd? ==> exists due :: BatchAt(b, moves, j, due))
    && (moves != [] ==> !Marker(moves[0]))
    && forall k :: 0 < k < |moves| && Marker(moves[k]) ==> Marker(moves[k - 1]) || moves[k - 1].RunEnd?
  }

  lemma BatchAtStays(b: Book, a: seq<Move>, more: seq<Move>, j: nat, due: seq<Order>)
    requires BatchAt(b, a, j, due) && (more != [] ==> !Marker(more[0]))
    ensures BatchAt(b, a + more, j, due)
  {
    hide LastTrade, Admitted, Reached, InTurn;
    var c := a + more;
    assert c[..j] == a[..j] && c[j] == a[j];
  }

  /** A run adds no batch. */
  lemma BatchedThrough(b: Book, a: seq<Move>, more: seq<Move>)
    requires Batched(b, a) && forall m :: m in more ==> !m.RunEnd? && !Marker(m)
    ensures Batched(b, a + more)
  {
    hide BatchAt;
    var c := a + more;
    assert forall i :: |a| <= i < |c| ==> c[i] in more;
    forall j | 0 <= j < |c| && c[j].RunEnd? ensures exists due :: BatchAt(b, c, j, due) {
      assert c[j] == a[j];
      var due :| BatchAt(b, a, j, due);
      BatchAtStays(b, a, more, j, due);
    }
  }

  lemma BatchIsAtEnd(b: Book, moves: seq<Move>, j: nat, due: seq<Order>)
    requires BatchAt(b, moves, j, due)
    ensures j < |moves| && moves[j].RunEnd?
  {
    hide LastTrade, Admitted, Reached, InTurn;
  }

  /** The end of a run and the stops that follow it. */
  lemma BatchedNext(b: Book, a: seq<Move>, end: Move, marks: seq<Move>, due: seq<Order>)
    requires Batched(b, a) && BatchAt(b, a + ([end] + marks), |a|, due) && |marks| == |due|
    requires forall m :: m in marks ==> Marker(m)
    ensures Batched(b, a + ([end] + marks))
  {
    hide BatchAt;
    var more := [end] + marks;
    var c := a + more;
    BatchIsAtEnd(b, c, |a|, due);
    assert c[|a|] == end && forall i :: |a| < i < |c| ==> c[i] in marks;
    forall j | 0 <= j < |c| && c[j].RunEnd? ensures exists d :: BatchAt(b, c, j, d) {
      if j < |a| {
        assert c[j] == a[j];
        var d :| BatchAt(b, a, j, d);
        BatchAtStays(b, a, more, j, d);
      }
    }
  }

  // ---- A run ---------------------------------------------------------------------

  /** The run remembers its last trade, and has set off nothing yet. */
  ghost predicate RunTells(b: Book, r: Run) {
    r.last == LastTrade(r.moves) && Batched(b, r.moves)
  }

  lemma LinkedTradeless(b: Book, id: Id)
    ensures Tradeless(CancelLinked(b, id).1)
  {
  }

  /** What a step adds: a trade and cancellations after it, or no trade. */
  lemma NewTrade(r: Run)
    requires r.Active()
    ensures var added := Voids.New(r);
      && (forall m :: m in added ==> !m.RunEnd? && !Marker(m))
      && if r.Opposing()[0].user == r.taker.user then Tradeless(added) && Step(r).last == r.last
         else added != [] && added[0].Trade? && Tradeless(added[1..]) && Step(r).last == Some(added[0].fill.price)
  {
    hide CancelLinked, Insert;
    LinkedTradeless(r.book.WithResting(r.taker.side.Opposite(), r.Opposing()[1..]), r.Opposing()[0].id);
  }

  lemma StepTells(b: Book, r: Run)
    requires r.Active() && RunTells(b, r)
    ensures RunTells(b, Step(r))
  {
    hide Step, Voids.New, Batched, LastTrade;
    Voids.StepAppends(r);
    NewTrade(r);
    var added := Voids.New(r);
    BatchedThrough(b, r.moves, added);
    if r.Opposing()[0].user == r.taker.user {
      LastTradeThrough(r.moves, added);
    } else {
      assert r.moves + added == (r.moves + [added[0]]) + added[1..];
      LastTradePush(r.moves, added[0]);
      LastTradeThrough(r.moves + [added[0]], added[1..]);
    }
  }

  lemma {:induction false} LoopTells(b: Book, r: Run, queue: seq<Order>)
    requires Live(r, queue) && RunTells(b, r)
    ensures RunTells(b, Loop(r, queue))
    decreases r.taker.remaining, |r.Opposing()|
  {
    if r.Active() {
      StepKeeps(r, queue);
      StepShrinks(r);
      StepTells(b, r);
      hide Step, RunTells, Shaped, Distinct;
      LoopTells(b, Step(r), queue);
    }
  }

  lemma EndingTradeless(q: Run)
    ensures Tradeless(Partners.Ending(q)) && Finish(q).last == q.last
  {
    LinkedTradeless(q.book, q.taker.id);
    hide CancelLinked, Insert;
  }

  lemma FinishTells(b: Book, q: Run)
    requires RunTells(b, q)
    ensures RunTells(b, Finish(q))
  {
    hide Finish, Batched, LastTrade, Partners.Ending;
    EndingTradeless(q);
    BatchedThrough(b, q.moves, Partners.Ending(q));
    LastTradeThrough(q.moves, Partners.Ending(q));
  }

  lemma {:induction false} NewAdmitsNone(r: Run, queue: seq<Order>)
    requires Live(r, queue)
    ensures Admitted(Loop(r, queue).moves) == Admitted(r.moves)
    decreases r.taker.remaining, |r.Opposing()|
  {
    if r.Active() {
      StepKeeps(r, queue);
      StepShrinks(r);
      Voids.StepAppends(r);
      NewTrade(r);
      hide Step, Voids.New, Shaped, Distinct, Admitted;
      AdmittedConcat(r.moves, Voids.New(r));
      NoneAdmitted(Voids.New(r));
      NewAdmitsNone(Step(r), queue);
    }
  }

  lemma RunOneTells(b: Book, w: Work)
    requires WorkOk(w) && w.queue != [] && LastTrade(w.moves) == None && Batched(b, w.moves)
    ensures RunTells(b, RunOne(w)) && Admitted(RunOne(w).moves) == Admitted(w.moves)
  {
    hide Loop, Finish, Batched, LastTrade, Admitted, Shaped, Distinct, Partners.Ending;
    var others, taker := w.queue[..|w.queue| - 1], w.queue[|w.queue| - 1];
    var r0 := Run(w.book, taker, w.moves, None, false);
    PopQueue(w.book, w.queue);
    assert taker in w.queue;
    LoopTells(b, r0, others);
    NewAdmitsNone(r0, others);
    var q := Loop(r0, others);
    FinishTells(b, q);
    EndingTradeless(q);
    AdmittedConcat(q.moves, Partners.Ending(q));
    NoneAdmitted(Partners.Ending(q));
  }

  // ---- Checking the stops --------------------------------------------------------

  /** The stops that a price triggers, as they were registered. */
  function Raw(b: Book, price: int): seq<Order> {
    b.buyStops[..UpTo(b.buyStops, price)] + b.sellStops[UpTo(b.sellStops, price - 1)..]
  }

  lemma {:induction false} MarksAre(s: seq<Order>)
    ensures |Triggered(s)| == |s| && |Cascade.Dropped(s)| == |s|
    ensures forall i :: 0 <= i < |s| ==>
      Triggered(s)[i] == Trigger(s[i].id) && Cascade.Dropped(s)[i] == Drop(s[i].id, s[i].remaining)
  {
    if s != [] { MarksAre(s[..|s| - 1]); }
  }

  lemma DueIsRaw(b: Book, price: int)
    ensures |Due(b, price)| == |Raw(b, price)|
    ensures forall i :: 0 <= i < |Raw(b, price)| ==>
      Due(b, price)[i].id == Raw(b, price)[i].id && Due(b, price)[i].remaining == Raw(b, price)[i].remaining
  {
    var buys, sells := b.buyStops[..UpTo(b.buyStops, price)], b.sellStops[UpTo(b.sellStops, price - 1)..];
    forall i | 0 <= i < |buys| ensures ActivateAll(buys)[i] == Activate(buys[i]) { ActivateAllAt(buys, i); }
    forall i | 0 <= i < |sells| ensures ActivateAll(sells)[i] == Activate(sells[i]) { ActivateAllAt(sells, i); }
  }

  lemma RawReached(b: Book, price: int)
    requires Shaped(b)
    ensures forall o :: o in Raw(b, price) ==> (o in b.buyStops || o in b.sellStops) && Reached(o, price)
    ensures forall i, k :: 0 <= i < k < |Raw(b, price)| ==> InTurn(Raw(b, price)[i], Raw(b, price)[k])
  {
    UpToCuts(b.buyStops, price);
    UpToCuts(b.sellStops, price - 1);
    hide UpTo;
    var buys, sells, raw := b.buyStops[..UpTo(b.buyStops, price)], b.sellStops[UpTo(b.sellStops, price - 1)..], Raw(b, price);
    forall o | o in raw ensures (o in b.buyStops || o in b.sellStops) && Reached(o, price) {
      if o in buys { assert WaitsOk(Buy, o); } else { assert o in sells && WaitsOk(Sell, o); }
    }
    forall i, k | 0 <= i < k < |raw| ensures InTurn(raw[i], raw[k]) {
      RawInTurn(b, buys, sells, i, k);
    }
  }

  lemma RawInTurn(b: Book, buys: seq<Order>, sells: seq<Order>, i: nat, k: nat)
    requires Shaped(b) && buys <= b.buyStops && |sells| <= |b.sellStops| && sells == b.sellStops[|b.sellStops| - |sells|..]
    requires i < k < |buys| + |sells|
    ensures InTurn((buys + sells)[i], (buys + sells)[k])
  {
    var a, c := (buys + sells)[i], (buys + sells)[k];
    var n := |b.sellStops| - |sells|;
    if k < |buys| {
      assert a == b.buyStops[i] && c == b.buyStops[k] && WaitsOk(Buy, a) && WaitsOk(Buy, c);
      assert RankOf(StopShelf, a) <= RankOf(StopShelf, c);
    } else if i < |buys| {
      assert a == b.buyStops[i] && c == b.sellStops[n + k - |buys|] && WaitsOk(Buy, a) && WaitsOk(Sell, c);
    } else {
      assert a == b.sellStops[n + i - |buys|] && c == b.sellStops[n + k - |buys|] && WaitsOk(Sell, a) && WaitsOk(Sell, c);
      assert RankOf(StopShelf, a) <= RankOf(StopShelf, c);
    }
  }

  /** The depth is the number of stops triggered, as far as it fits a byte. */
  predicate DepthTells(w: Work) {
    w.depth == Min(255, Admitted(w.moves))
  }

  ghost predicate WorkTells(b: Book, w: Work) {
    LastTrade(w.moves) == None && Batched(b, w.moves) && DepthTells(w) && FewerStops(w.book, b)
  }

  lemma MarkerFacts(due: seq<Order>)
    ensures forall m :: m in Triggered(due) ==> m.Trigger?
    ensures forall m :: m in Cascade.Dropped(due) ==> m.Drop?
    ensures Admitted(Triggered(due)) == |due| && Admitted(Cascade.Dropped(due)) == 0
  {
    hide Triggered, Cascade.Dropped, Admitted;
    MarksAre(due);
    forall m | m in Triggered(due) ensures m.Trigger? { var i :| 0 <= i < |due| && Triggered(due)[i] == m; }
    forall m | m in Cascade.Dropped(due) ensures m.Drop? { var i :| 0 <= i < |due| && Cascade.Dropped(due)[i] == m; }
    AllAdmitted(Triggered(due));
    NoneAdmitted(Cascade.Dropped(due));
  }

  lemma {:induction false} AllAdmitted(a: seq<Move>)
    requires forall i :: 0 <= i < |a| ==> a[i].Trigger?
    ensures Admitted(a) == |a|
  {
    if a != [] { AllAdmitted(a[..|a| - 1]); }
  }

  lemma EndAdmits(end: Move, marks: seq<Move>)
    requires end.RunEnd?
    ensures Admitted([end] + marks) == Admitted(marks) && LastTrade([end]) == None
  {
    AdmittedConcat([end], marks);
    assert [end][..0] == [];
    assert Admitted([end]) == 0;
  }

  lemma CheckBatch(b: Book, start: Book, price: int, moves: seq<Move>, depth: nat)
    requires Shaped(b) && FewerStops(b, start) && LastTrade(moves) == Some(price) && depth == Min(255, Admitted(moves))
    ensures BatchAt(start, moves + Voids.Markers(Due(b, price), price, depth), |moves|, Raw(b, price))
  {
    hide Due, Raw, LastTrade, Admitted, Shaped, Triggered, Cascade.Dropped, Reached, InTurn;
    var due, raw := Due(b, price), Raw(b, price);
    var marks := if depth < 16 then Triggered(due) else Cascade.Dropped(due);
    var end := RunEnd(Some(price), if depth < 16 then |due| else 0);
    var c := moves + ([end] + marks);
    assert c == moves + Voids.Markers(due, price, depth);
    DueIsRaw(b, price);
    RawReached(b, price);
    MarksAre(due);
    assert c[..|moves|] == moves && c[|moves|] == end;
    forall i | 0 <= i < |raw| ensures Announces(c[|moves| + 1 + i], raw[i], 16 <= Admitted(moves)) && raw[i] in raw {
      assert c[|moves| + 1 + i] == marks[i];
    }
  }

  lemma CheckTells(b: Book, start: Book, price: int, others: seq<Order>, moves: seq<Move>, depth: nat)
    requires Shaped(b) && FewerStops(b, start) && Batched(start, moves)
    requires LastTrade(moves) == Some(price) && depth == Min(255, Admitted(moves))
    ensures WorkTells(start, CheckStops(b, price, others, moves, depth))
  {
    hide Due, Raw, LastTrade, Admitted, Triggered, Cascade.Dropped, Batched, BatchAt;
    var due := Due(b, price);
    var marks := if depth < 16 then Triggered(due) else Cascade.Dropped(due);
    var end := RunEnd(Some(price), if depth < 16 then |due| else 0);
    var more := [end] + marks;
    Voids.CheckAppends(b, price, others, moves, depth);
    assert Voids.Markers(due, price, depth) == more;
    UndueUntouched(b, price);
    hide Shaped;
    CheckBatch(b, start, price, moves, depth);
    MarkerFacts(due);
    MarksAre(due);
    DueIsRaw(b, price);
    BatchedNext(start, moves, end, marks, Raw(b, price));
    AdmittedConcat(moves, more);
    EndAdmits(end, marks);
    LastTradePush(moves, end);
    assert moves + more == (moves + [end]) + marks;
    LastTradeThrough(moves + [end], marks);
  }

  lemma IdleTells(start: Book, moves: seq<Move>)
    requires Batched(start, moves) && LastTrade(moves) == None
    ensures LastTrade(moves + [RunEnd(None, 0)]) == None && Batched(start, moves + [RunEnd(None, 0)])
    ensures Admitted(moves + [RunEnd(None, 0)]) == Admitted(moves)
  {
    hide Batched;
    var end := RunEnd(None, 0);
    assert [end] + [] == [end] && [end][..0] == [];
    assert (moves + [end])[..|moves|] == moves;
    // Without a trade nothing is checked; past the limit that looks no different.
    assert BatchAt(start, moves + ([end] + []), |moves|, []);
    hide BatchAt;
    BatchedNext(start, moves, end, [], []);
  }

  lemma TurnTells(start: Book, w: Work)
    requires WorkOk(w) && w.queue != [] && WorkTells(start, w)
    ensures WorkTells(start, Turn(w))
  {
    hide RunOne, LastTrade, Admitted, Batched, Shaped, Distinct, CheckStops;
    RunOneTells(start, w);
    Endings.RunOneStops(w);
    var others, r := w.queue[..|w.queue| - 1], RunOne(w);
    match r.last
    case None => IdleTells(start, r.moves);
    case Some(price) => CheckTells(r.book, start, price, others, r.moves, w.depth);
  }

  lemma {:induction false} RunAllTells(start: Book, w: Work)
    requires WorkOk(w) && WorkTells(start, w)
    ensures WorkTells(start, RunAll(w))
    decreases |w.queue| + w.book.WaitingCount()
  {
    if w.queue != [] {
      TurnTells(start, w);
      hide WorkTells, Turn;
      RunAllTells(start, Turn(w));
    }
  }

  lemma StartTells(b: Book, o: Order)
    ensures WorkTells(b, Start(b, o)) && Checked(b, [])
  {
  }

  /** What still waits is reached by no price that ended a run. */
  lemma CheckedIsUnreached(c: Book, moves: seq<Move>, j: nat, stop: Order)
    requires Valid(c) && Checked(c, moves) && j < |moves| && moves[j].RunEnd? && moves[j].last.Some?
    requires stop in c.buyStops || stop in c.sellStops
    ensures !Reached(stop, moves[j].last.value)
  {
    assert moves[j] in moves && Untouched(c, moves[j].last.value);
    if stop in c.buyStops { assert WaitsOk(Buy, stop); } else { assert WaitsOk(Sell, stop); }
  }

  // ---- The order in which triggered stops run ------------------------------------

  predicate TakesAt(moves: seq<Move>, i: nat, x: Id) {
    i < |moves| && moves[i].Trade? && moves[i].fill.takerId == x
  }

  ghost predicate OnlyTaker(moves: seq<Move>, n: nat, x: Id) {
    forall i: nat, y :: n <= i && TakesAt(moves, i, y) ==> y == x
  }

  lemma NewTaker(r: Run, i: nat, y: Id)
    requires r.Active() && TakesAt(Voids.New(r), i, y)
    ensures y == r.taker.id
  {
    LinkedTradeless(r.book.WithResting(r.taker.side.Opposite(), r.Opposing()[1..]), r.Opposing()[0].id);
    hide CancelLinked, Insert;
  }

  lemma TakerThrough(a: seq<Move>, more: seq<Move>, n: nat, x: Id)
    requires OnlyTaker(a, n, x) && forall i: nat, y :: TakesAt(more, i, y) ==> y == x
    ensures OnlyTaker(a + more, n, x)
  {
    forall i: nat, y | n <= i && TakesAt(a + more, i, y) ensures y == x {
      if i < |a| { assert TakesAt(a, i, y); } else { assert TakesAt(more, i - |a|, y); }
    }
  }

  lemma NoTaker(more: seq<Move>, x: Id)
    requires forall m :: m in more ==> !m.Trade?
    ensures forall i: nat, y :: TakesAt(more, i, y) ==> y == x
  {
    forall i: nat, y | TakesAt(more, i, y) ensures y == x { assert more[i] in more; }
  }

  lemma {:induction false} LoopTaker(r: Run, queue: seq<Order>, n: nat)
    requires Live(r, queue) && OnlyTaker(r.moves, n, r.taker.id)
    ensures OnlyTaker(Loop(r, queue).moves, n, r.taker.id)
    decreases r.taker.remaining, |r.Opposing()|
  {
    if r.Active() {
      StepKeeps(r, queue);
      StepShrinks(r);
      Voids.StepAppends(r);
      forall i: nat, y | TakesAt(Voids.New(r), i, y) ensures y == r.taker.id { NewTaker(r, i, y); }
      TakerThrough(r.moves, Voids.New(r), n, r.taker.id);
      FillOrKill.LoopSameTaker(r, queue);
      SameId(r);
      hide Step, Voids.New, Shaped, Distinct, OnlyTaker;
      LoopTaker(Step(r), queue, n);
    }
  }

  lemma SameId(r: Run)
    requires r.Active()
    ensures Step(r).taker.id == r.taker.id
  {
  }

  lemma RunOneTaker(w: Work)
    requires WorkOk(w) && w.queue != []
    ensures OnlyTaker(RunOne(w).moves, |w.moves|, w.queue[|w.queue| - 1].id)
  {
    hide Loop, Finish, Shaped, Distinct, Partners.Ending;
    var others, taker := w.queue[..|w.queue| - 1], w.queue[|w.queue| - 1];
    var r0 := Run(w.book, taker, w.moves, None, false);
    PopQueue(w.book, w.queue);
    assert taker in w.queue;
    LoopTaker(r0, others, |w.moves|);
    var q := Loop(r0, others);
    EndingTradeless(q);
    NoTaker(Partners.Ending(q), taker.id);
    TakerThrough(q.moves, Partners.Ending(q), |w.moves|, taker.id);
  }

  lemma TurnTaker(w: Work)
    requires WorkOk(w) && w.queue != []
    ensures OnlyTaker(Turn(w).moves, |w.moves|, w.queue[|w.queue| - 1].id)
  {
    hide RunOne, Shaped, Distinct, Triggered, Cascade.Dropped, Due, Undue, OnlyTaker;
    var r, x := RunOne(w), w.queue[|w.queue| - 1].id;
    RunOneTaker(w);
    match r.last
    case None =>
      NoTaker([RunEnd(None, 0)], x);
      TakerThrough(r.moves, [RunEnd(None, 0)], |w.moves|, x);
    case Some(price) =>
      var due := Due(r.book, price);
      Voids.CheckAppends(r.book, price, w.queue[..|w.queue| - 1], r.moves, w.depth);
      MarkersTradeless(due, price, w.depth);
      NoTaker(Voids.Markers(due, price, w.depth), x);
      TakerThrough(r.moves, Voids.Markers(due, price, w.depth), |w.moves|, x);
  }

  lemma MarkersTradeless(due: seq<Order>, price: int, depth: nat)
    ensures forall m :: m in Voids.Markers(due, price, depth) ==> !m.Trade?
  {
    MarkersQuiet(due);
    hide Triggered, Cascade.Dropped;
  }

  /** The order that runs next stands nowhere else. */
  lemma TakerAlone(w: Work)
    requires WorkOk(w) && w.queue != []
    ensures var others, x := w.queue[..|w.queue| - 1], w.queue[|w.queue| - 1].id;
      Without(others, x) && Without(w.book.buyStops, x) && Without(w.book.sellStops, x)
  {
    var others, taker := w.queue[..|w.queue| - 1], w.queue[|w.queue| - 1];
    var x := taker.id;
    PopQueue(w.book, w.queue);
    assert Total(Count(x), w.book) + Sum(Count(x), [taker] + others) <= 1;
    SumConcat(Count(x), [taker], others);
    SumOne(Count(x), taker);
    CountIsPresence(w.book.bids, x);
    CountIsPresence(w.book.asks, x);
    CountIsPresence(w.book.buyStops, x);
    CountIsPresence(w.book.sellStops, x);
    CountIsPresence(others, x);
    hide Sum;
  }

  lemma {:induction false} LandedTakesNoMore(w: Work, x: Id)
    requires WorkOk(w) && Endings.Landed(w, x)
    ensures forall i: nat :: |w.moves| <= i ==> !TakesAt(RunAll(w).moves, i, x)
    decreases |w.queue| + w.book.WaitingCount()
  {
    if w.queue != [] {
      assert w.queue[|w.queue| - 1] in w.queue && forall o :: o in w.queue[..|w.queue| - 1] ==> o in w.queue;
      Endings.TurnLanded(w, x);
      TurnTaker(w);
      hide Turn, Shaped, Distinct, Endings.Landed;
      TurnMovesOn(w);
      LandedTakesNoMore(Turn(w), x);
      TakesAtFurther(Turn(w).moves, RunAll(w).moves);
    }
  }

  lemma TakesAtFurther(a: seq<Move>, c: seq<Move>)
    requires a <= c
    ensures forall i: nat, y :: i < |a| ==> TakesAt(c, i, y) == TakesAt(a, i, y)
  {
  }

  lemma TurnMovesOn(w: Work)
    requires WorkOk(w) && w.queue != []
    ensures w.moves <= Turn(w).moves <= RunAll(w).moves && RunAll(w) == RunAll(Turn(w))
    ensures w.queue[..|w.queue| - 1] <= Turn(w).queue
  {
    hide RunOne, Shaped, Distinct, Due, Undue, Triggered, Cascade.Dropped;
    TurnExtends(w);
    RunAllExtends(Turn(w));
  }

  /** Of two orders in the queue the one behind runs first, and all of its trades as a taker come before
    those of the other. */
  lemma {:induction false} BehindRunsFirst(w: Work, p: nat, q: nat, s: nat, t: nat)
    requires WorkOk(w) && p < q < |w.queue| && |w.moves| <= s && |w.moves| <= t
    requires TakesAt(RunAll(w).moves, s, w.queue[q].id) && TakesAt(RunAll(w).moves, t, w.queue[p].id)
    ensures s < t
    decreases |w.queue| + w.book.WaitingCount()
  {
    hide Turn, Shaped, Distinct, Endings.Landed;
    var v, last := Turn(w), |w.queue| - 1;
    TurnTaker(w);
    TakerAlone(w);
    TurnMovesOn(w);
    assert w.queue[p] in w.queue[..last];
    TakesAtFurther(v.moves, RunAll(w).moves);
    if q == last {
      Endings.TurnLanded(w, w.queue[q].id);
      LandedTakesNoMore(v, w.queue[q].id);
    } else {
      assert w.queue[q] in w.queue[..last];
      BehindRunsFirst(v, p, q, s, t);
    }
  }

  /** A run's own moves set nothing off. */
  ghost predicate Unmarked(moves: seq<Move>, n: nat) {
    forall i :: n <= i < |moves| ==> !Marker(moves[i]) && !moves[i].RunEnd?
  }

  lemma UnmarkedThrough(a: seq<Move>, more: seq<Move>, n: nat)
    requires Unmarked(a, n) && forall m :: m in more ==> !m.RunEnd? && !Marker(m)
    ensures Unmarked(a + more, n)
  {
    assert forall i :: |a| <= i < |a + more| ==> (a + more)[i] in more;
  }

  lemma {:induction false} LoopUnmarked(r: Run, queue: seq<Order>, n: nat)
    requires Live(r, queue) && Unmarked(r.moves, n)
    ensures Unmarked(Loop(r, queue).moves, n)
    decreases r.taker.remaining, |r.Opposing()|
  {
    if r.Active() {
      StepKeeps(r, queue);
      StepShrinks(r);
      Voids.StepAppends(r);
      NewTrade(r);
      UnmarkedThrough(r.moves, Voids.New(r), n);
      hide Step, Voids.New, Shaped, Distinct, Unmarked;
      LoopUnmarked(Step(r), queue, n);
    }
  }

  lemma RunOneUnmarked(w: Work)
    requires WorkOk(w) && w.queue != []
    ensures Unmarked(RunOne(w).moves, |w.moves|)
  {
    hide Loop, Finish, Shaped, Distinct, Partners.Ending;
    var others, taker := w.queue[..|w.queue| - 1], w.queue[|w.queue| - 1];
    var r0 := Run(w.book, taker, w.moves, None, false);
    PopQueue(w.book, w.queue);
    assert taker in w.queue;
    LoopUnmarked(r0, others, |w.moves|);
    var q := Loop(r0, others);
    EndingTradeless(q);
    UnmarkedThrough(q.moves, Partners.Ending(q), |w.moves|);
  }

  /** A turn's moves: those of the run, its end, and the stops that go off then, which join the queue
    unless they are discarded. */
  lemma TurnParts(w: Work)
    requires WorkOk(w) && w.queue != []
    ensures var own, moves, others, queue := |RunOne(w).moves|, Turn(w).moves, w.queue[..|w.queue| - 1], Turn(w).queue;
      && |w.moves| <= own < |moves| && RunOne(w).moves <= moves && moves[own].RunEnd?
      && forall i :: own < i < |moves| && moves[i].Trigger? ==>
           |others| + (i - own - 1) < |queue| && queue[|others| + (i - own - 1)].id == moves[i].triggerId
  {
    hide RunOne, Shaped, Distinct, Due, Undue, Triggered, Cascade.Dropped;
    TurnExtends(w);
    if RunOne(w).last.Some? { MarksAre(Due(RunOne(w).book, RunOne(w).last.value)); }
  }

  /** No stop goes off between turns. */
  lemma NoneBetween(v: Work)
    requires WorkOk(v)
    ensures |v.moves| < |RunAll(v).moves| ==> !Marker(RunAll(v).moves[|v.moves|])
  {
    if v.queue != [] {
      hide Turn, RunOne, Shaped, Distinct;
      TurnParts(v);
      RunOneUnmarked(v);
      TurnMovesOn(v);
    }
  }

  /** Two stops set off by the end of the same run, at `j`. */
  ghost predicate SameBatch(moves: seq<Move>, j: nat, i: nat, k: nat) {
    j < i < k < |moves| && moves[j].RunEnd? && moves[i].Trigger? && moves[k].Trigger?
      && forall n :: j < n <= k ==> Marker(moves[n])
  }

  lemma {:induction false} BatchRunsBackwards(w: Work, j: nat, i: nat, k: nat, s: nat, t: nat)
    requires WorkOk(w) && |w.moves| <= j && SameBatch(RunAll(w).moves, j, i, k) && k < s && k < t
    requires TakesAt(RunAll(w).moves, s, RunAll(w).moves[k].triggerId) && TakesAt(RunAll(w).moves, t, RunAll(w).moves[i].triggerId)
    ensures s < t
    decreases |w.queue| + w.book.WaitingCount()
  {
    hide Turn, RunOne, Shaped, Distinct;
    var v, own := Turn(w), |RunOne(w).moves|;
    TurnParts(w);
    RunOneUnmarked(w);
    TurnMovesOn(w);
    if j < |v.moves| {
      assert j >= own;
      NoneBetween(v);
      assert k < |v.moves|;
      AfterBatch(w, j, i, k, s, t);
    } else {
      BatchRunsBackwards(v, j, i, k, s, t);
    }
  }

  lemma AfterBatch(w: Work, j: nat, i: nat, k: nat, s: nat, t: nat)
    requires WorkOk(w) && w.queue != [] && |RunOne(w).moves| <= j && k < |Turn(w).moves|
    requires SameBatch(RunAll(w).moves, j, i, k) && k < s && k < t
    requires TakesAt(RunAll(w).moves, s, RunAll(w).moves[k].triggerId) && TakesAt(RunAll(w).moves, t, RunAll(w).moves[i].triggerId)
    ensures s < t
  {
    hide Turn, RunOne, Shaped, Distinct;
    var v, own, n := Turn(w), |RunOne(w).moves|, |w.queue| - 1;
    TurnParts(w);
    TurnMovesOn(w);
    assert v.moves[i] == RunAll(w).moves[i] && v.moves[k] == RunAll(w).moves[k];
    MarkersTakeNothing(w, j, k, s);
    MarkersTakeNothing(w, j, k, t);
    BehindRunsFirst(v, n + (i - own - 1), n + (k - own - 1), s, t);
  }

  /** What follows the batch follows the turn. */
  lemma MarkersTakeNothing(w: Work, j: nat, k: nat, s: nat)
    requires WorkOk(w) && w.queue != [] && |RunOne(w).moves| <= j < k < |Turn(w).moves| && k < s
    requires s < |RunAll(w).moves| && RunAll(w).moves[s].Trade?
    ensures |Turn(w).moves| <= s
  {
    hide RunOne, Shaped, Distinct, Due, Undue, Triggered, Cascade.Dropped, RunAll;
    TurnMovesOn(w);
    var r, m := RunOne(w), Turn(w).moves;
    TurnExtends(w);
    if r.last.Some? {
      Voids.CheckAppends(r.book, r.last.value, w.queue[..|w.queue| - 1], r.moves, w.depth);
      MarkersTradeless(Due(r.book, r.last.value), r.last.value, w.depth);
    }
    assert forall i :: |r.moves| <= i < |m| ==> m[i] in m[|r.moves|..];
  }

  // ---- The results ---------------------------------------------------------------

  /** Over a whole call: at the end of each run the stops reached by its last trade price go off, in turn;
    none goes off otherwise; and those that still wait in the end were reached by none of these
    prices. */
  lemma StopsGoOff(b: Book, o: Order)
    requires Valid(b) && Fresh(b, o) && Refusal(b, o).None? && !o.kind.IsStop()
    ensures var (c, moves) := Submit(b, o);
      && (forall j :: 0 <= j < |moves| && moves[j].RunEnd? ==> exists due :: BatchAt(b, moves, j, due))
      && (forall k :: 0 <= k < |moves| && Marker(moves[k]) ==> 0 < k && (Marker(moves[k - 1]) || moves[k - 1].RunEnd?))
      && forall j :: 0 <= j < |moves| && moves[j].RunEnd? && moves[j].last.Some? ==>
           forall stop :: stop in c.buyStops || stop in c.sellStops ==> !Reached(stop, moves[j].last.value)
  {
    hide WorkTells, Batched, BatchAt, Shaped, Distinct, Refusal, Turn, Checked, Reached;
    var w := Start(b, o);
    StartTells(b, o);
    RunAllTells(b, w);
    RunAllChecked(w);
    var (c, moves) := Submit(b, o);
    TellsBatched(b, RunAll(w));
    forall j, stop | 0 <= j < |moves| && moves[j].RunEnd? && moves[j].last.Some? && (stop in c.buyStops || stop in c.sellStops)
      ensures !Reached(stop, moves[j].last.value)
    {
      CheckedIsUnreached(c, moves, j, stop);
    }
  }

  lemma TellsBatched(b: Book, w: Work)
    requires WorkTells(b, w)
    ensures (forall j :: 0 <= j < |w.moves| && w.moves[j].RunEnd? ==> exists due :: BatchAt(b, w.moves, j, due))
    ensures forall k :: 0 <= k < |w.moves| && Marker(w.moves[k]) ==> 0 < k && (Marker(w.moves[k - 1]) || w.moves[k - 1].RunEnd?)
  {
    hide BatchAt;
  }

  /** Over a whole call: of two stops that one price sets off, the one announced later runs first, and takes
    all that it takes before the other takes anything. */
  lemma LaterRunsFirst(b: Book, o: Order, j: nat, i: nat, k: nat, s: nat, t: nat)
    requires Valid(b) && Fresh(b, o) && Refusal(b, o).None? && !o.kind.IsStop()
    requires SameBatch(Submit(b, o).1, j, i, k) && k < s && k < t
    requires TakesAt(Submit(b, o).1, s, Submit(b, o).1[k].triggerId) && TakesAt(Submit(b, o).1, t, Submit(b, o).1[i].triggerId)
    ensures s < t
  {
    BatchRunsBackwards(Start(b, o), j, i, k, s, t);
  }

  // ---- Stops that are handed in --------------------------------------------------

  /** Where an order goes on a list: behind all of its price and of better prices. */
  lemma {:induction false} InsertSplits(shelf: Shelf, s: seq<Order>, o: Order) returns (i: nat)
    requires Sorted(shelf, s)
    ensures i <= |s| && Insert(shelf, s, o) == s[..i] + [o] + s[i..]
    ensures forall j :: 0 <= j < |s| ==> (j < i <==> RankOf(shelf, s[j]) <= RankOf(shelf, o))
  {
    if s == [] || RankOf(shelf, o) < RankOf(shelf, s[0]) {
      i := 0;
      assert forall j :: 0 <= j < |s| ==> RankOf(shelf, s[0]) <= RankOf(shelf, s[j]);
    } else {
      hide RankOf;
      var k := InsertSplits(shelf, s[1..], o);
      i := k + 1;
      InsertFurther(shelf, s, o, k);
      RanksFurther(shelf, s, o, k);
    }
  }

  lemma InsertFurther(shelf: Shelf, s: seq<Order>, o: Order, k: nat)
    requires s != [] && RankOf(shelf, s[0]) <= RankOf(shelf, o) && k < |s|
    requires Insert(shelf, s[1..], o) == s[1..][..k] + [o] + s[1..][k..]
    ensures Insert(shelf, s, o) == s[..k + 1] + [o] + s[k + 1..]
  {
    hide RankOf;
    assert s[..k + 1] == [s[0]] + s[1..][..k] && s[k + 1..] == s[1..][k..];
  }

  lemma RanksFurther(shelf: Shelf, s: seq<Order>, o: Order, k: nat)
    requires s != [] && RankOf(shelf, s[0]) <= RankOf(shelf, o) && k < |s|
    requires forall j :: 0 <= j < |s| - 1 ==> (j < k <==> RankOf(shelf, s[1..][j]) <= RankOf(shelf, o))
    ensures forall j :: 0 <= j < |s| ==> (j < k + 1 <==> RankOf(shelf, s[j]) <= RankOf(shelf, o))
  {
    hide RankOf;
    forall j | 0 <= j < |s| ensures j < k + 1 <==> RankOf(shelf, s[j]) <= RankOf(shelf, o) {
      if j > 0 { assert s[j] == s[1..][j - 1]; }
    }
  }

  /** A stop that is handed in is announced as resting, with all of it, and waits behind the stops of its side
    with the same stop price or a lower one; without a stop price it is cancelled, and the book
    stays as it is. Nothing else happens. */
  lemma StopIsPut(b: Book, o: Order) returns (i: nat)
    requires Valid(b) && Fresh(b, o) && o.kind.IsStop()
    ensures var (c, moves) := Submit(b, o);
      if o.stopPrice.None? then c == b && EventsOf(moves) == [Cancelled(o.id, AdminCancel)]
      else
        var s := b.Stops(o.side);
        && EventsOf(moves) == [Rested(o.id, o.remaining)]
        && i <= |s| && c == b.WithStops(o.side, s[..i] + [o] + s[i..])
        && forall j :: 0 <= j < |s| ==> s[j].stopPrice.Some? && (j < i <==> s[j].stopPrice.value <= o.stopPrice.value)
  {
    hide Insert, Sorted, Shaped, Distinct, EventsOf, RunAll, RankOf;
    i := 0;
    NotRefused(b, o);
    if o.stopPrice.None? {
      OneEvent(Void(o.id, o.remaining, AdminCancel, Incoming));
    } else {
      OneEvent(Rest(o.id, o.remaining));
      i := WaitsBehind(b, o);
    }
  }

  lemma NotRefused(b: Book, o: Order)
    requires o.kind.IsStop()
    ensures Refusal(b, o).None?
  {
  }

  lemma WaitsBehind(b: Book, o: Order) returns (i: nat)
    requires Valid(b) && o.stopPrice.Some?
    ensures var s := b.Stops(o.side);
      && i <= |s| && Insert(StopShelf, s, o) == s[..i] + [o] + s[i..]
      && forall j :: 0 <= j < |s| ==> s[j].stopPrice.Some? && (j < i <==> s[j].stopPrice.value <= o.stopPrice.value)
  {
    i := InsertSplits(StopShelf, b.Stops(o.side), o);
    StopsWait(b, o.side);
    hide Insert, Sorted, Shaped, Distinct;
  }

  lemma StopsWait(b: Book, side: Side)
    requires Valid(b)
    ensures forall j :: 0 <= j < |b.Stops(side)| ==> b.Stops(side)[j].stopPrice.Some?
  {
    forall j | 0 <= j < |b.Stops(side)| ensures b.Stops(side)[j].stopPrice.Some? { assert WaitsOk(side, b.Stops(side)[j]); }
  }
}
