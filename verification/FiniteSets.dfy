/** Sizes of finite sets, and sums over them. */
module FiniteSets {

  lemma Pick<T>(s: set<T>) returns (x: T)
    requires s != {}
    ensures x in s
  {
    x :| x in s;
  }

  lemma ProperSubsetIsSmaller<T>(a: set<T>, b: set<T>)
    requires a < b
    ensures |a| < |b|
  {
    assert b == a + (b - a);
    assert b - a != {};
  }

  lemma SubsetIsNotLarger<T>(a: set<T>, b: set<T>)
    requires a <= b
    ensures |a| <= |b|
  {
    if a != b { ProperSubsetIsSmaller(a, b); }
  }

  /** The sum of a value over a set. */
  ghost function SumOf<T(!new)>(s: set<T>, value: T -> real): real {
    if s == {} then 0.0
    else
      var x :| x in s;
      value(x) + SumOf(s - {x}, value)
  }

  lemma {:induction false} SumStep<T(!new)>(s: set<T>, x: T, value: T -> real)
    requires x in s
    ensures SumOf(s, value) == value(x) + SumOf(s - {x}, value)
    decreases |s|
  {
    var y :| y in s && SumOf(s, value) == value(y) + SumOf(s - {y}, value);
    if y != x {
      SumStep(s - {y}, x, value);
      SumStep(s - {x}, y, value);
      assert s - {y} - {x} == s - {x} - {y};
    }
  }

  /** A value that falls nowhere below keeps the sum, and one that falls somewhere by one lowers it by one. */
  lemma {:induction false} SumFalls<T(!new)>(s: set<T>, f: T -> real, g: T -> real)
    requires forall x :: x in s ==> g(x) <= f(x)
    ensures SumOf(s, g) <= SumOf(s, f)
    ensures (exists x :: x in s && g(x) + 1.0 <= f(x)) ==> SumOf(s, g) + 1.0 <= SumOf(s, f)
    decreases |s|
  {
    if s != {} {
      var x :| x in s;
      SumStep(s, x, f);
      SumStep(s, x, g);
      SumFalls(s - {x}, f, g);
      if exists y :: y in s && g(y) + 1.0 <= f(y) {
        var y :| y in s && g(y) + 1.0 <= f(y);
        if y != x { assert y in s - {x}; }
      }
    }
  }

  lemma {:induction false} SumIsNatural<T(!new)>(s: set<T>, value: T -> real)
    requires forall x :: x in s ==> value(x) >= 0.0
    ensures SumOf(s, value) >= 0.0
    decreases |s|
  {
    if s != {} {
      var x :| x in s && SumOf(s, value) == value(x) + SumOf(s - {x}, value);
      SumIsNatural(s - {x}, value);
    }
  }
}
