/** When the table of open orders stays exact, told from the book as an order finds it. */
module CalmRuns {
  import opened Orders
  import opened Ladder
  import opened Matcher
  import opened BookInvariants
  import opened Cascade
  import opened Conservation
  import opened OpenOrders
  import opened Wire
  import opened Rejects
  import opened Engine
  import opened ExactTable
  import opened Divergence
  import Audible
  import Walk

  /** The book as the order finds it is calm. */
  ghost predicate FindsCalm(s: Server, w: WireOrder) {
    Audible.Calm(Found(s, w), ToCore(w))
  }

  lemma CalmIsSpoken(s: Server, w: WireOrder)
    requires ServerSane(s) && Acceptable(s, w) && Reaches(s, w) && FindsCalm(s, w)
    ensures ToCore(w).Ready() && Priced(ToCore(w))
    ensures Spoken(PlaceInBook(s.state, ToCore(w), PlacedIn(s.log)).1, w.id)
  {
    var o, placed := ToCore(w), PlacedIn(s.log);
    ValidatedIsReady(w);
    MeetsBook(s.state, o, placed);
    hide Submit, Sane, Fresh, Audible.Calm;
    assert BookSane(Found(s, w), placed, w.symbol);
    hide PlaceInBook, Unheard;
    forall x ensures Unheard(x, Some(w.id), PlaceInBook(s.state, o, placed).1) == 0 {
      Audible.CalmIsHeard(Found(s, w), o, x);
    }
  }

  /** On a calm book an exact table stays exact over an order if and only if the order is not left
    short. */
  lemma CalmStaysExactIff(s: Server, w: WireOrder)
    requires ServerSane(s) && Acceptable(s, w) && Reaches(s, w) && ServerExact(s) && FindsCalm(s, w)
    ensures Walk.Shown(Opposite(s, w))
    ensures ServerExact(ServePlace(s, w).0) <==> !LeftShort(Found(s, w), ToCore(w))
  {
    var o := ToCore(w);
    CalmIsSpoken(s, w);
    ValidatedIsReady(w);
    MeetsBook(s.state, o, PlacedIn(s.log));
    hide ServePlace, Exact, Submit, LeftShort, Refusal, PreReject, EventsOf, PlaceInBook, Spoken, FindsCalm;
    StaysExactIff(s, w);
    LateRejectIff(Found(s, w), o);
  }

  // ---- Whole runs ----------------------------------------------------------------

  /** Each order of the run found its book calm, and none was left short. */
  ghost predicate CalmRun(reqs: seq<Request>)
    requires Admissible(reqs)
  {
    reqs == [] ||
    (CalmRun(reqs[..|reqs| - 1]) &&
     (reqs[|reqs| - 1].PlaceRequest? ==>
       var s, w := Serve(reqs[..|reqs| - 1]), reqs[|reqs| - 1].order;
       Reaches(s, w) ==>
         FindsCalm(s, w) && Walk.Shown(Opposite(s, w)) && !LeftShort(Found(s, w), ToCore(w))))
  }

  lemma CalmIsPlain(s: Server, w: WireOrder)
    requires ServerSane(s) && Acceptable(s, w)
    requires Reaches(s, w) ==> FindsCalm(s, w) && Walk.Shown(Opposite(s, w)) && !LeftShort(Found(s, w), ToCore(w))
    ensures ExactTable.Plain(s, w)
  {
    hide CleanReject, Spoken, FindsCalm, LeftShort, PlaceInBook, Found;
    NotShortIsClean(s, w);
    if Reaches(s, w) {
      CalmIsSpoken(s, w);
      ValidatedIsReady(w);
    }
  }

  lemma {:induction false} CalmRunIsPlain(reqs: seq<Request>)
    requires Admissible(reqs) && CalmRun(reqs)
    ensures PlainRun(reqs)
  {
    if reqs != [] {
      var before, last := reqs[..|reqs| - 1], reqs[|reqs| - 1];
      CalmRunIsPlain(before);
      if last.PlaceRequest? {
        hide ExactTable.Plain, FindsCalm, LeftShort, Found, Opposite;
        CalmIsPlain(Serve(before), last.order);
      }
    }
  }

  /** After every calm run the table lists exactly what rests or waits in some book, with the symbol,
    remainder and owner of each. */
  lemma CalmRunsAreExact(reqs: seq<Request>, x: Id)
    requires Admissible(reqs) && CalmRun(reqs)
    ensures var e := Serve(reqs).state;
      && (x in e.open <==> exists s :: s in e.books && Total(Count(x), e.books[s]) > 0)
      && (x in e.open ==>
           var entry, placed := e.open[x], PlacedIn(Serve(reqs).log);
           && entry.symbol in e.books && entry.remaining == Total(Amount(x), e.books[entry.symbol])
           && x in placed && entry.user == placed[x].user && entry.symbol == placed[x].symbol)
  {
    hide CalmRun, PlainRun, Serve, Total;
    CalmRunIsPlain(reqs);
    OpenOrdersAreExact(reqs, x);
  }

  /** And replaying its log rebuilds books and table. */
  lemma CalmRunsReplay(reqs: seq<Request>)
    requires Admissible(reqs) && CalmRun(reqs)
    ensures Restore(Serve(reqs).log) == Serve(reqs).state
  {
    CalmRunIsClean(reqs);
    ReplayRebuildsLive(reqs);
  }

  lemma {:induction false} CalmRunIsClean(reqs: seq<Request>)
    requires Admissible(reqs) && CalmRun(reqs)
    ensures NeverShort(reqs) && CleanRun(reqs)
  {
    if reqs != [] {
      CalmRunIsClean(reqs[..|reqs| - 1]);
      hide FindsCalm, LeftShort, Found, Opposite;
    }
    NeverShortIsClean(reqs);
  }
}
