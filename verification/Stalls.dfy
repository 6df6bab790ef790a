/** What validation leaves open: a display size given with an order that is not an iceberg may be
  zero or negative. Against such an order the matching loop makes no progress
  (engine/crates/core/src/book.rs, engine/crates/server/src/wire.rs). */
module Stalls {
  import opened Orders
  import opened Ladder
  import opened Matcher
  import opened Wire
  import opened Cascade
  import opened BookInvariants
  import Terms

  /** Another's order is in front, with something left. */
  predicate Faces(r: Run) {
    r.Active() && r.Opposing()[0].user != r.taker.user && 0 < r.Opposing()[0].remaining
  }

  /** A step uses up some of the taker if and only if the front order shows anything. */
  lemma ProgressIffShown(r: Run)
    requires Faces(r)
    ensures var front := r.Opposing()[0];
      Step(r).taker.remaining < r.taker.remaining <==> (front.displayQty.Some? ==> 0 < front.displayQty.value)
  {
    hide CancelLinked, Insert;
  }

  /** For an order that passed validation that is whether it is ready: what validation lets
    through unready is exactly what an order of another user, meeting it whole at the front, gets
    nowhere against. */
  lemma ValidatedStallsIffUnready(w: WireOrder, r: Run)
    requires Validate(w).None? && Faces(r) && r.Opposing()[0] == ToCore(w)
    ensures ToCore(w).Ready() <==> Step(r).taker.remaining < r.taker.remaining
    ensures w.kind == Iceberg ==> ToCore(w).Ready()
  {
    ValidatedIsReady(w);
    ProgressIffShown(r);
    hide Step;
  }

  /** An order that shows nothing and is the only one at its price. */
  predicate Blank(r: Run) {
    && Faces(r) && r.Opposing()[0].displayQty == Some(0)
    && var s, shelf := r.Opposing(), ShelfOf(r.taker.side.Opposite());
       |s| > 1 ==> RankOf(shelf, s[0]) < RankOf(shelf, s[1])
  }

  lemma BlankStep(r: Run)
    requires Blank(r)
    ensures Step(r).book == r.book && Step(r).taker == r.taker && Blank(Step(r))
    ensures exists f :: Step(r).moves == r.moves + [Trade(f)] && f.quantity == 0
  {
    var s, maker := r.Opposing(), r.Opposing()[0];
    assert s == [maker] + s[1..];
    var left := maker.(remaining := maker.remaining - 0);
    assert left == maker;
    var fill := Fill(r.taker.id, maker.id, maker.price.Or(0), 0, r.taker.side);
    assert Step(r).moves == r.moves + [Trade(fill)];
  }

  /** So many steps of the loop, while it goes on. */
  function Steps(r: Run, n: nat): Run {
    if n == 0 then r
    else
      var q := Steps(r, n - 1);
      if q.Active() then Step(q) else q
  }

  /** The loop goes on for any number of steps, each a fill of nothing, and changes neither the
    book nor the taker. */
  lemma {:induction false} BlankStalls(r: Run, n: nat)
    requires Blank(r)
    ensures var q := Steps(r, n);
      Blank(q) && q.book == r.book && q.taker == r.taker && |q.moves| == |r.moves| + n
  {
    if n > 0 {
      BlankStalls(r, n - 1);
      BlankStep(Steps(r, n - 1));
    }
  }

  /** Against a negative display size both orders grow, by a fill of a negative quantity. */
  lemma NegativeGrows(r: Run)
    requires Faces(r) && r.Opposing()[0].displayQty.Some? && r.Opposing()[0].displayQty.value < 0
    ensures var maker, q := r.Opposing()[0], Step(r);
      var d := maker.displayQty.value;
      && q.taker.remaining == r.taker.remaining - d && q.last == Some(maker.price.Or(0))
      && q.Opposing() == Insert(ShelfOf(r.taker.side.Opposite()), r.Opposing()[1..], maker.(remaining := maker.remaining - d))
      && q.moves == r.moves + [Trade(Fill(r.taker.id, maker.id, maker.price.Or(0), d, r.taker.side))]
  {
    hide Insert;
  }

  // ---- Such orders come through --------------------------------------------------

  const Showless := WireOrder(1, 10, "S", Sell, Limit, Some(100), 5, CancelMaker, None, None, Some(0))
  const Buyer := WireOrder(2, 20, "S", Buy, Limit, Some(100), 1, CancelMaker, None, None, None)

  /** A limit order with a display size of zero passes validation and rests, and the next order
    of another user that reaches it never finishes. */
  lemma ShowlessStalls(n: nat)
    ensures Validate(Showless).None? && Validate(Buyer).None?
    ensures var b := Finish(Run(EmptyBook, ToCore(Showless), [], None, false)).book;
      && b == EmptyBook.(asks := [ToCore(Showless)])
      && var q := Steps(Run(b, ToCore(Buyer), [], None, false), n);
         q.Active() && q.book == b && q.taker == ToCore(Buyer) && |q.moves| == n
  {
    assert 'S' in "S" && !IsSpace('S');
    var o := ToCore(Showless);
    Terms.PassiveFinish(EmptyBook, o);
    var b := EmptyBook.(asks := [o]);
    assert Insert(AskShelf, [], o) == [] + [o] == [o];
    BlankStalls(Run(b, ToCore(Buyer), [], None, false), n);
  }
}
