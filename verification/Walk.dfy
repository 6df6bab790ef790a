/** What an order meets, slice by slice, and what it gets of it: for every book, in every self-trade
  mode, with OCO partners that go on the way (engine/crates/core/src/book.rs). */
module Walk {
  import opened Orders
  import opened Ladder
  import opened Matcher
  import opened BookInvariants
  import opened Cascade
  import opened Conservation
  import opened Histories
  import opened Pairs
  import FillOrKill

  /** What is met at one time: another's order as far as it shows, one of the taker's own in
    Decrement mode, or one in CancelTaker mode, which is the end. */
  datatype Slice = Others(qty: int) | Own(qty: int) | End

  predicate Shown(s: seq<Order>) {
    forall o :: o in s ==> 0 < o.Effective() <= o.remaining
  }

  /** The list without the partner of an order that is used up. */
  function Unpaired(s: seq<Order>, links: map<Id, Id>, id: Id): seq<Order> {
    if id in links && Has(s, links[id]) then RemoveAt(s, Find(s, links[id])) else s
  }

  function Unlinked(links: map<Id, Id>, id: Id): map<Id, Id> {
    if id in links then links - {id, links[id]} else links
  }

  /** What the taker meets within its limit, in the order in which it meets it, if it is never
    filled. It does not depend on how much the taker is for. */
  function Slices(s: seq<Order>, links: map<Id, Id>, taker: Order): seq<Slice>
    requires Shown(s)
    decreases Sum(Depth, s)
  {
    if s == [] || !Admits(taker, s[0].price.Or(0)) then []
    else
      var front, rest := s[0], s[1..];
      DepthLess(s);
      if front.user == taker.user then
        match taker.stpMode
        case CancelTaker => [End]
        case CancelMaker => Slices(rest, links, taker)
        case Decrement => [Own(front.remaining)] + Slices(rest, links, taker)
      else if front.Effective() == front.remaining then
        UnpairedLess(rest, links, front.id);
        [Others(front.remaining)] + Slices(Unpaired(rest, links, front.id), Unlinked(links, front.id), taker)
      else
        var left := front.(remaining := front.remaining - front.Effective());
        RequeuedLess(ShelfOf(taker.side.Opposite()), rest, left);
        [Others(front.Effective())] + Slices(Insert(ShelfOf(taker.side.Opposite()), rest, left), links, taker)
  }

  lemma {:induction false} DepthNonNegative(s: seq<Order>)
    requires Shown(s)
    ensures 0 <= Sum(Depth, s)
  {
    if s != [] {
      assert s[0] in s && forall o :: o in s[1..] ==> o in s;
      DepthNonNegative(s[1..]);
    }
  }

  lemma DepthLess(s: seq<Order>)
    requires Shown(s) && s != []
    ensures Shown(s[1..]) && 0 <= Sum(Depth, s[1..]) < Sum(Depth, s) == s[0].remaining + Sum(Depth, s[1..])
  {
    assert s[0] in s && forall o :: o in s[1..] ==> o in s;
    DepthNonNegative(s[1..]);
  }

  lemma UnpairedLess(s: seq<Order>, links: map<Id, Id>, id: Id)
    requires Shown(s)
    ensures Shown(Unpaired(s, links, id)) && 0 <= Sum(Depth, Unpaired(s, links, id)) <= Sum(Depth, s)
  {
    DepthNonNegative(s);
    if id in links && Has(s, links[id]) {
      var i := Find(s, links[id]);
      RemoveAtMembers(s, i);
      SumRemoveAt(Depth, s, i);
      DepthNonNegative(RemoveAt(s, i));
      assert s[i] in s;
    }
  }

  lemma RequeuedLess(shelf: Shelf, s: seq<Order>, left: Order)
    requires Shown(s) && 0 < left.Effective() <= left.remaining
    ensures Shown(Insert(shelf, s, left)) && Sum(Depth, Insert(shelf, s, left)) == Sum(Depth, s) + left.remaining
    ensures 0 <= Sum(Depth, s)
  {
    InsertMembers(shelf, s, left);
    SumInsert(Depth, shelf, s, left);
    DepthNonNegative(s);
  }

  // ---- Spending a quantity on what is met ----------------------------------------

  /** The part of the first `qty` units met that is others'. */
  function Fills(slices: seq<Slice>, qty: int): int {
    if qty <= 0 || slices == [] then 0
    else
      match slices[0]
      case Others(q) => Min(q, qty) + Fills(slices[1..], qty - Min(q, qty))
      case Own(q) => Fills(slices[1..], qty - Min(q, qty))
      case End => 0
  }

  /** What is left unspent when nothing more is met. */
  function Short(slices: seq<Slice>, qty: int): int {
    if qty <= 0 then 0
    else if slices == [] then qty
    else
      match slices[0]
      case Others(q) => Short(slices[1..], qty - Min(q, qty))
      case Own(q) => Short(slices[1..], qty - Min(q, qty))
      case End => 0
  }

  lemma Behind(front: Slice, rest: seq<Slice>, qty: int)
    requires 0 < qty && !front.End?
    ensures var left, all := qty - Min(front.qty, qty), [front] + rest;
      && Fills(all, qty) == (if front.Others? then qty - left else 0) + Fills(rest, left)
      && Short(all, qty) == Short(rest, left)
  {
    assert ([front] + rest)[1..] == rest;
  }

  lemma {:induction false} SameSlices(s: seq<Order>, links: map<Id, Id>, taker: Order, t: Order)
    requires Shown(s) && t == taker.(remaining := t.remaining)
    ensures Slices(s, links, t) == Slices(s, links, taker)
    decreases Sum(Depth, s)
  {
    if s != [] && Admits(taker, s[0].price.Or(0)) {
      var front, rest := s[0], s[1..];
      DepthLess(s);
      if front.user == taker.user {
        if taker.stpMode != CancelTaker { SameSlices(rest, links, taker, t); }
      } else if front.Effective() == front.remaining {
        UnpairedLess(rest, links, front.id);
        SameSlices(Unpaired(rest, links, front.id), Unlinked(links, front.id), taker, t);
      } else {
        var left := front.(remaining := front.remaining - front.Effective());
        RequeuedLess(ShelfOf(taker.side.Opposite()), rest, left);
        SameSlices(Insert(ShelfOf(taker.side.Opposite()), rest, left), links, taker, t);
      }
    }
  }

  // ---- A run -----------------------------------------------------------------------

  function Met(r: Run): seq<Slice>
    requires Shown(r.Opposing())
  {
    Slices(r.Opposing(), r.book.links, r.taker)
  }

  lemma LiveIsShown(r: Run, queue: seq<Order>)
    requires Live(r, queue)
    ensures Shown(r.Opposing())
  {
    forall o | o in r.Opposing() ensures 0 < o.Effective() <= o.remaining {
      assert RestsOk(r.taker.side.Opposite(), o);
    }
  }

  /** The list that is left when the front order is used up. */
  lemma UsedUpList(r: Run, queue: seq<Order>)
    requires Live(r, queue) && r.Active() && r.Opposing()[0].user != r.taker.user
    requires r.Opposing()[0].Effective() == r.Opposing()[0].remaining <= r.taker.remaining
    ensures var id, q := r.Opposing()[0].id, Step(r);
      && q.book.links == Unlinked(r.book.links, id)
      && q.Opposing() == Unpaired(r.Opposing()[1..], r.book.links, id)
  {
    var side, id := r.taker.side.Opposite(), r.Opposing()[0].id;
    var popped := r.book.WithResting(side, r.Opposing()[1..]);
    PopFront(r.book, side, [r.taker] + queue);
    AtMostOne(popped, [r.taker] + queue);
    hide CancelLinked, Shaped, Distinct, Insert;
    LinkedList(popped, id, side);
  }

  /** An id is in one list at most. */
  lemma InOneList(b: Book, y: Id)
    requires Total(Count(y), b) <= 1
    ensures Has(b.bids, y) ==> !Has(b.asks, y) && !Has(b.buyStops, y) && !Has(b.sellStops, y)
    ensures Has(b.asks, y) ==> !Has(b.buyStops, y) && !Has(b.sellStops, y)
  {
    CountIsPresence(b.bids, y);
    CountIsPresence(b.asks, y);
    CountIsPresence(b.buyStops, y);
    CountIsPresence(b.sellStops, y);
  }

  lemma LinkedList(b: Book, id: Id, side: Side)
    requires forall x :: Total(Count(x), b) <= 1
    ensures var c := CancelLinked(b, id).0;
      c.links == Unlinked(b.links, id) && c.Resting(side) == Unpaired(b.Resting(side), b.links, id)
  {
    if id in b.links {
      var y := b.links[id];
      assert Total(Count(y), b) <= 1;
      InOneList(b, y);
      hide Total, Has, Find, SwapOut, RemoveAt;
    }
  }

  /** A fill of what the front order shows, and what is met after it. */
  lemma FilledOn(r: Run, queue: seq<Order>)
    requires Live(r, queue) && r.Active() && r.Opposing()[0].user != r.taker.user
    requires r.Opposing()[0].Effective() < r.taker.remaining
    ensures Shown(r.Opposing()) && Shown(Step(r).Opposing())
    ensures Met(r) == [Others(r.Opposing()[0].Effective())] + Met(Step(r))
    ensures Step(r).taker == r.taker.(remaining := r.taker.remaining - r.Opposing()[0].Effective())
  {
    var s, q := r.Opposing(), Step(r);
    var front, rest := s[0], s[1..];
    LiveIsShown(r, queue);
    assert front in s;
    StepKeeps(r, queue);
    StepShrinks(r);
    LiveIsShown(q, queue);
    if front.Effective() == front.remaining { UsedUpList(r, queue); }
    hide CancelLinked, Insert, Unpaired, Shaped, Distinct;
    SameSlices(q.Opposing(), q.book.links, r.taker, q.taker);
  }

  /** One of the taker's own orders in front. */
  lemma OwnAhead(r: Run, queue: seq<Order>)
    requires Live(r, queue) && r.Active() && r.Opposing()[0].user == r.taker.user
    ensures Shown(r.Opposing()) && Shown(r.Opposing()[1..])
    ensures var rest := Slices(r.Opposing()[1..], r.book.links, r.taker);
      Met(r) == match r.taker.stpMode
        case CancelTaker => [End]
        case CancelMaker => rest
        case Decrement => [Own(r.Opposing()[0].remaining)] + rest
  {
    LiveIsShown(r, queue);
    DepthLess(r.Opposing());
  }

  /** A step spends what it should, and no more than it finds. */
  ghost predicate Spends(r: Run, q: Run)
    requires Shown(r.Opposing()) && Shown(q.Opposing())
  {
    if q.dead then
      && FillOrKill.Got(q) == FillOrKill.Got(r) + Fills(Met(r), r.taker.remaining)
      && q.taker.remaining == 0 == Short(Met(r), r.taker.remaining)
    else
      && FillOrKill.Got(q) + Fills(Met(q), q.taker.remaining) == FillOrKill.Got(r) + Fills(Met(r), r.taker.remaining)
      && Short(Met(q), q.taker.remaining) == Short(Met(r), r.taker.remaining)
  }

  lemma OtherSpends(r: Run, queue: seq<Order>)
    requires Live(r, queue) && r.Active() && !r.dead && r.Opposing()[0].user != r.taker.user
    ensures Shown(r.Opposing()) && Shown(Step(r).Opposing()) && Spends(r, Step(r))
  {
    var front, q := r.Opposing()[0], Step(r);
    StepKeeps(r, queue);
    StepShrinks(r);
    LiveIsShown(r, queue);
    LiveIsShown(q, queue);
    FillOrKill.TradeStepGot(r, queue);
    assert front in r.Opposing();
    if front.Effective() < r.taker.remaining {
      FilledOn(r, queue);
      StillAlive(r);
      hide Step, Slices, Shaped, Distinct, FillOrKill.Got, Shown;
      Behind(Others(front.Effective()), Met(q), r.taker.remaining);
    } else {
      StillAlive(r);
      FrontOther(r);
      SpendsAll(Met(r), r.taker.remaining);
      SpendsNone(Met(q));
      hide Step, Slices, Shaped, Distinct, FillOrKill.Got, Shown, Fills, Short;
    }
  }

  lemma StillAlive(r: Run)
    requires r.Active() && r.Opposing()[0].user != r.taker.user
    ensures !Step(r).dead && Step(r).taker.remaining == r.taker.remaining - Min(r.taker.remaining, r.Opposing()[0].Effective())
  {
  }

  lemma SpendsNone(slices: seq<Slice>)
    ensures Fills(slices, 0) == 0 && Short(slices, 0) == 0
  {
  }

  lemma SpendsAll(slices: seq<Slice>, qty: int)
    requires slices != [] && slices[0].Others? && 0 < qty <= slices[0].qty
    ensures Fills(slices, qty) == qty && Short(slices, qty) == 0
  {
  }

  lemma FrontOther(r: Run)
    requires r.Active() && Shown(r.Opposing()) && r.Opposing()[0].user != r.taker.user
    ensures Met(r) != [] && Met(r)[0] == Others(r.Opposing()[0].Effective())
  {
  }

  lemma OwnSpends(r: Run, queue: seq<Order>)
    requires Live(r, queue) && r.Active() && !r.dead && r.Opposing()[0].user == r.taker.user
    ensures Shown(r.Opposing()) && Shown(Step(r).Opposing()) && Spends(r, Step(r))
  {
    hide Slices, Shaped, Distinct, FillOrKill.Got, Shown;
    var front, q := r.Opposing()[0], Step(r);
    StepKeeps(r, queue);
    StepShrinks(r);
    LiveIsShown(r, queue);
    LiveIsShown(q, queue);
    FillOrKill.SelfTradeGot(r);
    OwnAhead(r, queue);
    SameSlices(r.Opposing()[1..], r.book.links, r.taker, q.taker);
    if r.taker.stpMode == Decrement {
      Behind(Own(front.remaining), Slices(r.Opposing()[1..], r.book.links, r.taker), r.taker.remaining);
    }
  }

  /** What is filled is others' part of what the taker's quantity is spent on, and what the run
    leaves of the taker is what it could not spend. */
  lemma {:induction false} LoopSpends(r: Run, queue: seq<Order>)
    requires Live(r, queue) && !r.dead
    ensures Shown(r.Opposing())
    ensures var q := Loop(r, queue);
      && FillOrKill.Got(q) == FillOrKill.Got(r) + Fills(Met(r), r.taker.remaining)
      && q.taker.remaining == Short(Met(r), r.taker.remaining) && (q.dead ==> q.taker.remaining == 0)
    decreases r.taker.remaining, |r.Opposing()|
  {
    LiveIsShown(r, queue);
    if !r.Active() {
      NothingMet(r);
    } else {
      var q := Step(r);
      StepKeeps(r, queue);
      StepShrinks(r);
      if r.Opposing()[0].user == r.taker.user { OwnSpends(r, queue); } else { OtherSpends(r, queue); }
      hide Slices, Step, Shaped, Distinct, FillOrKill.Got, Shown;
      if !q.dead { LoopSpends(q, queue); }
    }
  }

  lemma NothingMet(r: Run)
    requires !r.Active() && !r.dead && Shown(r.Opposing()) && 0 <= r.taker.remaining
    ensures Fills(Met(r), r.taker.remaining) == 0 && Short(Met(r), r.taker.remaining) == r.taker.remaining
  {
  }

  // ---- Whole orders ----------------------------------------------------------------

  /** What the order meets on this book. */
  function Ahead(b: Book, o: Order): seq<Slice>
    requires Shown(b.Resting(o.side.Opposite()))
  {
    Slices(b.Resting(o.side.Opposite()), b.links, o)
  }

  /** A market, immediate-or-cancel or admitted fill-or-kill order gets exactly others' part of
    the first units it meets, as many as it is for: on every book, in every mode, whatever is
    linked, and with all the stops it sets off. */
  lemma ImmediateGets(b: Book, o: Order)
    requires Valid(b) && Fresh(b, o) && FillOrKill.Immediate(o.kind) && Refusal(b, o).None?
    ensures Shown(b.Resting(o.side.Opposite()))
    ensures FilledQty(o.id, EventsOf(Submit(b, o).1)) == Fills(Ahead(b, o), o.remaining)
  {
    hide Submit, Slices, Shaped, Distinct, Refusal, FilledQty;
    FillOrKill.FilledInItsRun(b, o);
    LoopSpends(Run(b, o, [], None, false), []);
    NothingGot(b, o);
  }

  lemma NothingGot(b: Book, o: Order)
    ensures FillOrKill.Got(Run(b, o, [], None, false)) == 0
  {
  }

  /** A fill-or-kill order is refused with the book as it was if and only if its limit reaches too
    little, and otherwise gets its whole quantity if and only if all of its first units are
    others'. */
  lemma FillOrKillGets(b: Book, o: Order)
    requires Valid(b) && Fresh(b, o) && o.kind == Fok
    ensures Shown(b.Resting(o.side.Opposite()))
    ensures var (c, moves) := Submit(b, o);
      if Eligible(b.Resting(o.side.Opposite()), o) < o.remaining then
        c == b && EventsOf(moves) == [Cancelled(o.id, FokUnfilled)]
      else
        FilledQty(o.id, EventsOf(moves)) == Fills(Ahead(b, o), o.remaining)
  {
    if Eligible(b.Resting(o.side.Opposite()), o) < o.remaining {
      OneEvent(Void(o.id, o.remaining, FokUnfilled, Incoming));
      ValidIsShown(b, o.side.Opposite());
    } else {
      ImmediateGets(b, o);
    }
  }

  lemma ValidIsShown(b: Book, side: Side)
    requires Shaped(b)
    ensures Shown(b.Resting(side))
  {
    forall o | o in b.Resting(side) ensures 0 < o.Effective() <= o.remaining { assert RestsOk(side, o); }
  }
}
