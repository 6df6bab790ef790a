/** Exactly when a placed order leaves the live state and its replay apart: the live path
  skips the table updates of a rejected order, replay does not, and a fill-or-kill order can
  be rejected after it has already taken from the book. */
module Divergence {
  import opened Orders
  import opened Ladder
  import opened Matcher
  import opened BookInvariants
  import opened Cascade
  import opened Conservation
  import opened Histories
  import opened OpenOrders
  import opened Origins
  import opened Wire
  import opened Rejects
  import opened Engine
  import opened ExactTable
  import FillOrKill
  import Walk
  import Terms

  /** The order reaches its book. */
  predicate Reaches(s: Server, w: WireOrder) {
    Validate(w).None? && w.symbol !in s.halted
  }

  /** The book as the order finds it. */
  function Found(s: Server, w: WireOrder): Book {
    WithLink(BookOf(s.state, w.symbol), ToCore(w))
  }

  /** What the order would trade with. */
  function Opposite(s: Server, w: WireOrder): seq<Order> {
    Found(s, w).Resting(w.side.Opposite())
  }

  /** The order passes the pre-check and is rejected all the same. */
  ghost predicate LateReject(s: Server, w: WireOrder)
    requires ServerSane(s) && Acceptable(s, w) && Reaches(s, w)
  {
    ValidatedIsReady(w);
    && Refusal(Found(s, w), ToCore(w)).None?
    && PreReject(w.id, EventsOf(PlaceInBook(s.state, ToCore(w), PlacedIn(s.log)).1)).Some?
  }

  lemma RefusedIsOneEvent(b: Book, o: Order)
    requires Valid(b) && Fresh(b, o) && Refusal(b, o).Some?
    ensures |EventsOf(Submit(b, o).1)| == 1
  {
    hide Refusal, Shaped, Distinct, EventsOf;
    OneEvent(Void(o.id, o.remaining, Refusal(b, o).value, Incoming));
  }

  lemma RefusedIsClean(s: Server, w: WireOrder)
    requires ServerSane(s) && Acceptable(s, w) && Reaches(s, w) && !LateReject(s, w)
    ensures CleanReject(s, w)
  {
    var o, b := ToCore(w), Found(s, w);
    ValidatedIsReady(w);
    MeetsBook(s.state, o, PlacedIn(s.log));
    hide BookSane, Fresh, Refusal, PlaceInBook, Submit, EventsOf, PreReject, Sane, FreshLog, PlacedIn, BookInvariants.Valid;
    if Refusal(b, o).Some? { RefusedIsOneEvent(b, o) by { BookOk(b, PlacedIn(s.log), w.symbol); } }
  }

  lemma BookOk(b: Book, placed: Register, s: Symbol)
    requires BookSane(b, placed, s)
    ensures BookInvariants.Valid(b)
  {
  }

  /** An order rejected late leaves less of one that it met, and more than goes unheard. */
  lemma Taken(e: State, o: Order, placed: Register) returns (x: Id)
    requires Sane(e, placed) && Loggable(o) && o.id !in placed
    requires Refusal(WithLink(BookOf(e, o.symbol), o), o).None?
    requires PreReject(o.id, EventsOf(PlaceInBook(e, o, placed).1)).Some?
    ensures var (c, moves) := PlaceInBook(e, o, placed);
      && x != o.id && 0 <= Unheard(x, Some(o.id), moves)
      && Total(Amount(x), c) + Unheard(x, Some(o.id), moves) < Total(Amount(x), WithLink(BookOf(e, o.symbol), o))
  {
    var b := WithLink(BookOf(e, o.symbol), o);
    MeetsBook(e, o, placed);
    assert Valid(b);
    hide Refusal, BookSane, Sane, Loggable;
    if o.kind.IsStop() || !Meets(b, o) {
      UnmetIsNoReject(b, o);
      x := o.id;
      assert false;
    } else {
      x := Opening(b, o).Opposing()[0].id;
      MeetingTakes(b, o);
      SubmitSound(b, o);
      UnheardAtMost(x, Some(o.id), Submit(b, o).1);
      hide Submit, Valid, Total, Unheard;
    }
  }

  /** So the live table goes on showing what the late reject took. */
  lemma LateRejectShows(e: State, o: Order, placed: Register)
    requires Sane(e, placed) && Exact(e, placed) && Loggable(o) && o.id !in placed
    requires Refusal(WithLink(BookOf(e, o.symbol), o), o).None?
    requires PreReject(o.id, EventsOf(PlaceInBook(e, o, placed).1)).Some?
    ensures ApplyUpdates(e.open, Some(o), EventsOf(PlaceInBook(e, o, placed).1)) != e.open
  {
    var x := Taken(e, o, placed);
    PlaceTable(e, o, placed, x);
    BookShare(e, placed, o.symbol, x);
    LinkTotals(BookOf(e, o.symbol), o, Amount(x));
    hide Submit, PlaceInBook, ApplyUpdates, Total, Unheard, Refusal, BookSane;
  }

  /** From a state in step with its log and with an exact table, an order that reaches its book
    leaves the live state in step with the log if and only if it is not rejected after passing
    the pre-check. */
  lemma DivergesIffLateReject(s: Server, w: WireOrder)
    requires ServerSane(s) && Acceptable(s, w) && Reaches(s, w)
    requires InSync(s) && ServerExact(s)
    ensures InSync(ServePlace(s, w).0) <==> !LateReject(s, w)
  {
    if !LateReject(s, w) {
      RefusedIsClean(s, w);
      PlaceInSync(s, w);
    } else {
      var o := ToCore(w);
      ValidatedIsReady(w);
      LateRejectShows(s.state, o, PlacedIn(s.log));
      LogGrows(s.log, PlaceLogged(o));
      hide ApplyUpdates, PlaceInBook, PreReject, Exact, Sane;
    }
  }

  /** And the table no longer shows what the books hold. */
  lemma LateRejectMisleads(s: Server, w: WireOrder)
    requires ServerSane(s) && Acceptable(s, w) && Reaches(s, w) && ServerExact(s) && LateReject(s, w)
    ensures !ServerExact(ServePlace(s, w).0)
  {
    ValidatedIsReady(w);
    var o, e, placed := ToCore(w), s.state, PlacedIn(s.log);
    var b, q, later := Found(s, w), ServePlace(s, w).0, PlacedIn(s.log)[w.id := ToCore(w)];
    var x := Taken(e, o, placed);
    LogGrows(s.log, PlaceLogged(o));
    BookShare(e, placed, o.symbol, x);
    LinkTotals(BookOf(e, o.symbol), o, Amount(x));
    hide Submit, PlaceInBook, Total, Unheard, Refusal, BookSane, Sane, PreReject, EventsOf;
    assert BookSane(BookOf(q.state, o.symbol), later, o.symbol);
    HeldAfter(e, placed, later, q.state, o.symbol, x);
    assert AmountIn(q.state.open, x) != Held(q.state, PlacedIn(q.log), x);
  }

  /** So an exact table stays exact over an order that reaches its book if and only if the order
    is not rejected late and, unless it is refused by the pre-check, nothing goes unheard. */
  lemma StaysExactIff(s: Server, w: WireOrder)
    requires ServerSane(s) && Acceptable(s, w) && Reaches(s, w) && ServerExact(s)
    requires ToCore(w).Ready() && Priced(ToCore(w))
    ensures var moves := PlaceInBook(s.state, ToCore(w), PlacedIn(s.log)).1;
      ServerExact(ServePlace(s, w).0) <==>
        !LateReject(s, w) && (PreReject(w.id, EventsOf(moves)).None? ==> Spoken(moves, w.id))
  {
    var o, placed := ToCore(w), PlacedIn(s.log);
    var moves := PlaceInBook(s.state, o, placed).1;
    ValidatedIsReady(w);
    LogGrows(s.log, PlaceLogged(o));
    hide Submit, PlaceInBook, Unheard, Refusal, BookSane, Sane, PreReject, EventsOf, ApplyUpdates, Exact, Spoken;
    if PreReject(w.id, EventsOf(moves)).None? {
      PlaceExact(s.state, o, placed);
    } else if LateReject(s, w) {
      LateRejectMisleads(s, w);
    } else {
      RefusedIsClean(s, w);
      RefusedIsSpoken(s, w);
      ServePlaceExact(s, w);
    }
  }

  lemma RefusedIsSpoken(s: Server, w: WireOrder)
    requires ServerSane(s) && Acceptable(s, w) && Reaches(s, w) && ToCore(w).Ready() && Priced(ToCore(w))
    requires Refusal(Found(s, w), ToCore(w)).Some?
    ensures Spoken(PlaceInBook(s.state, ToCore(w), PlacedIn(s.log)).1, w.id)
  {
    var o, b := ToCore(w), Found(s, w);
    MeetsBook(s.state, o, PlacedIn(s.log));
    var moves := PlaceInBook(s.state, o, PlacedIn(s.log)).1;
    var void := Void(o.id, o.remaining, Refusal(b, o).value, Incoming);
    hide Refusal, BookSane, Sane, Fresh, PlaceInBook;
    assert moves == [] + [void];
    forall x ensures Unheard(x, Some(w.id), moves) == 0 { UnheardPush(x, Some(w.id), [], void); }
  }

  /** A fill-or-kill order in CancelMaker mode for which what its limit reaches suffices only
    with its owner's orders. */
  predicate Short(s: Server, w: WireOrder) {
    && w.kind == Fok && w.stpMode == CancelMaker
    && FillOrKill.Capacity(Opposite(s, w), ToCore(w)) < w.quantity <= Eligible(Opposite(s, w), ToCore(w))
  }

  /** So replay parts from the live state exactly at a short order, with no order within its
    limit linked to another. */
  lemma DivergesIffShort(s: Server, w: WireOrder)
    requires ServerSane(s) && Acceptable(s, w) && Reaches(s, w)
    requires InSync(s) && ServerExact(s)
    requires FillOrKill.Unlinked(Opposite(s, w), ToCore(w), Found(s, w).links)
    ensures InSync(ServePlace(s, w).0) <==> !Short(s, w)
  {
    var o := ToCore(w);
    ValidatedIsReady(w);
    MeetsBook(s.state, o, PlacedIn(s.log));
    hide ServePlace, InSync, Submit, FillOrKill.Capacity, Refusal, PreReject, EventsOf, FillOrKill.Unlinked, PlaceInBook;
    DivergesIffLateReject(s, w);
    LateRejectIffShort(Found(s, w), o);
  }

  /** The same without regard to links: replay parts from the live state exactly at an order that
    is left short. */
  lemma DivergesIffLeftShort(s: Server, w: WireOrder)
    requires ServerSane(s) && Acceptable(s, w) && Reaches(s, w) && InSync(s) && ServerExact(s)
    ensures Walk.Shown(Opposite(s, w))
    ensures InSync(ServePlace(s, w).0) <==> !LeftShort(Found(s, w), ToCore(w))
  {
    ValidatedIsReady(w);
    MeetsBook(s.state, ToCore(w), PlacedIn(s.log));
    hide ServePlace, InSync, Submit, LeftShort, Refusal, PreReject, EventsOf, PlaceInBook;
    DivergesIffLateReject(s, w);
    LateRejectIff(Found(s, w), ToCore(w));
  }

  // ---- Whole runs ----------------------------------------------------------------

  /** No order of the run was left short. */
  ghost predicate NeverShort(reqs: seq<Request>)
    requires Admissible(reqs)
  {
    reqs == [] ||
    (NeverShort(reqs[..|reqs| - 1]) &&
     (reqs[|reqs| - 1].PlaceRequest? ==>
       var s, w := Serve(reqs[..|reqs| - 1]), reqs[|reqs| - 1].order;
       Reaches(s, w) ==> Walk.Shown(Opposite(s, w)) && !LeftShort(Found(s, w), ToCore(w))))
  }

  lemma NotShortIsClean(s: Server, w: WireOrder)
    requires ServerSane(s) && Acceptable(s, w)
    requires Reaches(s, w) ==> Walk.Shown(Opposite(s, w)) && !LeftShort(Found(s, w), ToCore(w))
    ensures CleanReject(s, w)
  {
    if Reaches(s, w) {
      ValidatedIsReady(w);
      MeetsBook(s.state, ToCore(w), PlacedIn(s.log));
      hide ServePlace, Submit, LeftShort, Refusal, PreReject, EventsOf, PlaceInBook, CleanReject;
      LateRejectIff(Found(s, w), ToCore(w));
      RefusedIsClean(s, w);
    }
  }

  lemma {:induction false} NeverShortIsClean(reqs: seq<Request>)
    requires Admissible(reqs) && NeverShort(reqs)
    ensures CleanRun(reqs)
  {
    if reqs != [] {
      var before, last := reqs[..|reqs| - 1], reqs[|reqs| - 1];
      NeverShortIsClean(before);
      if last.PlaceRequest? {
        hide CleanReject, LeftShort, Found, Opposite;
        NotShortIsClean(Serve(before), last.order);
      }
    }
  }

  /** Replaying the log of a run without short orders rebuilds the live state. */
  lemma ShortlessRunsReplay(reqs: seq<Request>)
    requires Admissible(reqs) && NeverShort(reqs)
    ensures Restore(Serve(reqs).log) == Serve(reqs).state
  {
    NeverShortIsClean(reqs);
    ReplayRebuildsLive(reqs);
  }
}
