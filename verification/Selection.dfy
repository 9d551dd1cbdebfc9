/** Taking the first few elements of a finite set in a strict total order. */
module Selection {

  ghost predicate TotalOn<T>(before: (T, T) -> bool, s: set<T>) {
    && (forall a, b :: a in s && b in s && a != b ==> before(a, b) || before(b, a))
    && (forall a, b :: a in s && b in s && before(a, b) ==> a != b && !before(b, a))
    && (forall a, b, c :: a in s && b in s && c in s && before(a, b) && before(b, c) ==> before(a, c))
  }

  /** `m` comes before every other element. */
  predicate IsFirst<T(==)>(before: (T, T) -> bool, s: set<T>, m: T) {
    m in s && forall x :: x in s ==> x == m || before(m, x)
  }

  lemma {:induction false} FirstExists<T>(before: (T, T) -> bool, s: set<T>)
    requires s != {} && TotalOn(before, s)
    ensures exists m :: IsFirst(before, s, m)
    decreases |s|
  {
    var c :| c in s;
    if s == {c} {
      assert IsFirst(before, s, c);
    } else {
      FirstExists(before, s - {c});
      var m :| IsFirst(before, s - {c}, m);
      assert IsFirst(before, s, if before(c, m) then c else m);
    }
  }

  function First<T(==)>(before: (T, T) -> bool, s: set<T>): (m: T)
    requires s != {} && TotalOn(before, s)
    ensures IsFirst(before, s, m)
  {
    FirstExists(before, s);
    var m :| m in s && IsFirst(before, s, m);
    m
  }

  predicate Ordered<T>(before: (T, T) -> bool, taken: seq<T>) {
    forall i, j :: 0 <= i < j < |taken| ==> before(taken[i], taken[j])
  }

  lemma OrderedCons<T>(before: (T, T) -> bool, m: T, tail: seq<T>)
    requires Ordered(before, tail) && forall x :: x in tail ==> before(m, x)
    ensures Ordered(before, [m] + tail)
  {
  }

  /** The first `limit` elements, in order, so each once. */
  function Take<T(==)>(before: (T, T) -> bool, s: set<T>, limit: nat): (taken: seq<T>)
    requires TotalOn(before, s)
    ensures |taken| == (if limit <= |s| then limit else |s|)
    ensures forall x :: x in taken ==> x in s
    ensures Ordered(before, taken)
    decreases limit
  {
    if limit == 0 || s == {} then []
    else
      var m := First(before, s);
      assert |s - {m}| == |s| - 1;
      var tail := Take(before, s - {m}, limit - 1);
      OrderedCons(before, m, tail);
      [m] + tail
  }

  /** No element taken comes after one that was left. */
  lemma {:induction false} TakeLeavesLater<T>(before: (T, T) -> bool, s: set<T>, limit: nat, a: T, x: T)
    requires TotalOn(before, s)
    requires a in Take(before, s, limit) && x in s && x !in Take(before, s, limit)
    ensures before(a, x)
    decreases limit
  {
    var m := First(before, s);
    if a != m { TakeLeavesLater(before, s - {m}, limit - 1, a, x); }
  }

  lemma {:induction false} TakeAll<T>(before: (T, T) -> bool, s: set<T>, limit: nat)
    requires TotalOn(before, s) && limit >= |s|
    ensures forall x :: x in s ==> x in Take(before, s, limit)
    decreases |s|
  {
    if s != {} {
      var m := First(before, s);
      TakeAll(before, s - {m}, limit - 1);
    }
  }
}
