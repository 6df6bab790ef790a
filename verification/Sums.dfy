/** Sums of real amounts over finite sets, in no particular order. */
module Sums {
  import opened Sets

  ghost function Over<T(!new)>(s: set<T>, f: T -> real): real
    decreases |s|
  {
    if s == {} then 0.0 else
      Inhabited(s);
      var x :| x in s;
      f(x) + Over(s - {x}, f)
  }

  /** Any element may be counted first. */
  lemma {:induction false} OverSplit<T(!new)>(s: set<T>, f: T -> real, x: T)
    requires x in s
    ensures Over(s, f) == f(x) + Over(s - {x}, f)
    decreases |s|
  {
    var y :| y in s && Over(s, f) == f(y) + Over(s - {y}, f);
    if y != x {
      OverSplit(s - {y}, f, x);
      OverSplit(s - {x}, f, y);
      assert s - {y} - {x} == s - {x} - {y};
    }
  }

  lemma OverAdd<T(!new)>(s: set<T>, f: T -> real, x: T)
    requires x !in s
    ensures Over(s + {x}, f) == f(x) + Over(s, f)
  {
    OverSplit(s + {x}, f, x);
    assert s + {x} - {x} == s;
  }

  lemma {:induction false} OverSame<T(!new)>(s: set<T>, f: T -> real, g: T -> real)
    requires forall x :: x in s ==> f(x) == g(x)
    ensures Over(s, f) == Over(s, g)
    decreases |s|
  {
    if s != {} {
      Inhabited(s);
      var x :| x in s;
      OverSplit(s, f, x);
      OverSplit(s, g, x);
      OverSame(s - {x}, f, g);
    }
  }

  /** The sum follows a change at one element. */
  lemma OverChange<T(!new)>(s: set<T>, f: T -> real, g: T -> real, x: T)
    requires x in s && forall y :: y in s && y != x ==> f(y) == g(y)
    ensures Over(s, g) == Over(s, f) - f(x) + g(x)
  {
    OverSplit(s, f, x);
    OverSplit(s, g, x);
    OverSame(s - {x}, f, g);
  }

  lemma {:induction false} OverNonNegative<T(!new)>(s: set<T>, f: T -> real)
    requires forall x :: x in s ==> f(x) >= 0.0
    ensures Over(s, f) >= 0.0
    decreases |s|
  {
    if s != {} {
      Inhabited(s);
      var x :| x in s;
      OverSplit(s, f, x);
      OverNonNegative(s - {x}, f);
    }
  }

  lemma OverAtLeast<T(!new)>(s: set<T>, f: T -> real, x: T)
    requires x in s && forall y :: y in s ==> f(y) >= 0.0
    ensures Over(s, f) >= f(x)
  {
    OverSplit(s, f, x);
    OverNonNegative(s - {x}, f);
  }
}
