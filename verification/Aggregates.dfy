/**
 * Aggregation of metric readings.
 *
 * One aggregate holds what both the hourly rollup row and the SQL GROUP BY compute: a count,
 * a sum, a minimum, a maximum and the latest reading by (time, event id). Combining aggregates is
 * a commutative monoid, so a bag of rows has one well-defined aggregate whatever order the
 * database reads it in.
 */
module Aggregates {
  import opened FiniteSets
  import opened TextOrder

  /** A reading's place in time and its value. */
  datatype Stamp = Stamp(at: int, id: string, value: real)

  datatype Aggregate =
    | Nothing
    | Total(count: nat, sum: real, min: real, max: real, latest: Stamp)

  /** `a` is strictly later than `b` by (time, event id). */
  predicate Later(a: Stamp, b: Stamp) {
    a.at > b.at || (a.at == b.at && Less(b.id, a.id))
  }

  /** The later of two stamps; two stamps of the same event and time fall back on the larger value. */
  function Latest(a: Stamp, b: Stamp): Stamp {
    if Later(a, b) then a
    else if Later(b, a) then b
    else if a.value >= b.value then a else b
  }

  function Single(s: Stamp): Aggregate {
    Total(1, s.value, s.value, s.value, s)
  }

  function Combine(x: Aggregate, y: Aggregate): Aggregate {
    if x.Nothing? then y
    else if y.Nothing? then x
    else Total(x.count + y.count,
               x.sum + y.sum,
               if x.min <= y.min then x.min else y.min,
               if x.max >= y.max then x.max else y.max,
               Latest(x.latest, y.latest))
  }

  lemma LatestCommutes(a: Stamp, b: Stamp)
    ensures Latest(a, b) == Latest(b, a)
  {
    LessIsTotal(a.id, b.id);
    if Less(a.id, b.id) { LessIsAsymmetric(a.id, b.id); }
    if Less(b.id, a.id) { LessIsAsymmetric(b.id, a.id); }
  }

  /** "Not later" is a total preorder whose ties are exactly the stamps of one event and time. */
  lemma LaterIsTotal(a: Stamp, b: Stamp)
    ensures Later(a, b) || Later(b, a) || (a.at == b.at && a.id == b.id)
    ensures !(Later(a, b) && Later(b, a))
    ensures Later(a, b) ==> a.at != b.at || a.id != b.id
  {
    LessIsTotal(a.id, b.id);
    if Less(a.id, b.id) { LessIsAsymmetric(a.id, b.id); }
    if Less(b.id, a.id) { LessIsAsymmetric(b.id, a.id); }
  }

  lemma LaterIsTransitive(a: Stamp, b: Stamp, c: Stamp)
    requires Later(a, b) && Later(b, c)
    ensures Later(a, c)
  {
    if a.at == b.at && b.at == c.at { LessIsTransitive(c.id, b.id, a.id); }
  }

  lemma LatestAssociates(a: Stamp, b: Stamp, c: Stamp)
    ensures Latest(Latest(a, b), c) == Latest(a, Latest(b, c))
  {
    LaterIsTotal(a, b);
    LaterIsTotal(b, c);
    LaterIsTotal(a, c);
    if Later(a, b) && Later(b, c) { LaterIsTransitive(a, b, c); }
    if Later(c, b) && Later(b, a) { LaterIsTransitive(c, b, a); }
  }

  lemma CombineCommutes(x: Aggregate, y: Aggregate)
    ensures Combine(x, y) == Combine(y, x)
  {
    if x.Total? && y.Total? { LatestCommutes(x.latest, y.latest); }
  }

  lemma CombineAssociates(x: Aggregate, y: Aggregate, z: Aggregate)
    ensures Combine(Combine(x, y), z) == Combine(x, Combine(y, z))
  {
    if x.Total? && y.Total? && z.Total? { LatestAssociates(x.latest, y.latest, z.latest); }
  }

  /** Swap the first two of three aggregates. */
  lemma CombineSwaps(x: Aggregate, y: Aggregate, z: Aggregate)
    ensures Combine(x, Combine(y, z)) == Combine(y, Combine(x, z))
  {
    CombineAssociates(x, y, z);
    CombineCommutes(x, y);
    CombineAssociates(y, x, z);
  }

  /** The aggregate of a bag of rows, read in an arbitrary order. */
  ghost function Fold<K(!new)>(rows: set<K>, f: K -> Aggregate): Aggregate
  {
    if rows == {} then Nothing
    else
      var k :| k in rows;
      Combine(f(k), Fold(rows - {k}, f))
  }

  /** Any row may be taken first: the order of reading does not matter. */
  lemma {:induction false} FoldStep<K(!new)>(rows: set<K>, k: K, f: K -> Aggregate)
    requires k in rows
    ensures Fold(rows, f) == Combine(f(k), Fold(rows - {k}, f))
    decreases |rows|
  {
    var j :| j in rows && Fold(rows, f) == Combine(f(j), Fold(rows - {j}, f));
    if j != k {
      FoldStep(rows - {j}, k, f);
      FoldStep(rows - {k}, j, f);
      assert rows - {j} - {k} == rows - {k} - {j};
      CombineSwaps(f(j), f(k), Fold(rows - {j} - {k}, f));
    }
  }

  lemma {:induction false} FoldAdd<K(!new)>(rows: set<K>, k: K, f: K -> Aggregate)
    requires k !in rows
    ensures Fold(rows + {k}, f) == Combine(f(k), Fold(rows, f))
  {
    FoldStep(rows + {k}, k, f);
    assert rows + {k} - {k} == rows;
  }

  lemma {:induction false} FoldUnion<K(!new)>(a: set<K>, b: set<K>, f: K -> Aggregate)
    requires a !! b
    ensures Fold(a + b, f) == Combine(Fold(a, f), Fold(b, f))
    decreases |a|
  {
    if a == {} {
      assert a + b == b;
    } else {
      var k :| k in a;
      var rest := a - {k};
      FoldUnion(rest, b, f);
      FoldStep(a, k, f);
      FoldStep(a + b, k, f);
      assert a + b - {k} == rest + b;
      CombineAssociates(f(k), Fold(rest, f), Fold(b, f));
    }
  }

  lemma {:induction false} FoldCongruence<K(!new)>(rows: set<K>, f: K -> Aggregate, g: K -> Aggregate)
    requires forall k :: k in rows ==> f(k) == g(k)
    ensures Fold(rows, f) == Fold(rows, g)
    decreases |rows|
  {
    if rows != {} {
      var k :| k in rows;
      FoldCongruence(rows - {k}, f, g);
      FoldStep(rows, k, f);
      FoldStep(rows, k, g);
    }
  }

  /** Renaming rows one-to-one keeps the aggregate. */
  lemma {:induction false} FoldRename<A(!new), B(!new)>(rows: set<A>, name: A -> B, f: A -> Aggregate, g: B -> Aggregate)
    requires forall a, b :: a in rows && b in rows && name(a) == name(b) ==> a == b
    requires forall a :: a in rows ==> f(a) == g(name(a))
    ensures Fold(rows, f) == Fold(Groups(rows, name), g)
    decreases |rows|
  {
    if rows != {} {
      var k :| k in rows;
      var rest := rows - {k};
      FoldRename(rest, name, f, g);
      FoldStep(rows, k, f);
      var image := Groups(rows, name);
      FoldStep(image, name(k), g);
      assert image - {name(k)} == Groups(rest, name);
    }
  }

  /** The rows of one group, and the groups that have a row. */
  ghost function Members<E(!new), K(!new)>(rows: set<E>, group: E -> K, k: K): set<E> {
    set e | e in rows && group(e) == k
  }

  ghost function Groups<E(!new), K(!new)>(rows: set<E>, group: E -> K): set<K> {
    set e | e in rows :: group(e)
  }

  /** Aggregating group by group and then over the groups aggregates everything once. */
  lemma {:induction false} FoldByGroup<E(!new), K(!new)>(rows: set<E>, group: E -> K, f: E -> Aggregate, byGroup: K -> Aggregate)
    requires forall k :: k in Groups(rows, group) ==>
               byGroup(k) == Fold(Members(rows, group, k), f)
    ensures Fold(Groups(rows, group), byGroup) == Fold(rows, f)
    decreases |rows|
  {
    var groups := Groups(rows, group);
    if rows != {} {
      var some :| some in rows;
      var k := group(some);
      assert k in groups;
      var mine := Members(rows, group, k);
      var rest := rows - mine;
      assert some in mine && some !in rest;
      assert rest < rows;
      ProperSubsetIsSmaller(rest, rows);
      var restGroups := Groups(rest, group);
      assert restGroups == groups - {k};
      forall j | j in restGroups
        ensures byGroup(j) == Fold(Members(rest, group, j), f)
      {
        assert j in groups;
        assert Members(rows, group, j) == Members(rest, group, j);
      }
      FoldByGroup(rest, group, f, byGroup);
      FoldStep(groups, k, byGroup);
      FoldUnion(mine, rest, f);
      assert mine + rest == rows;
    }
  }

  /** Rows always contribute, so an aggregate is missing exactly when there is no row. */
  lemma {:induction false} FoldIsNothing<K(!new)>(rows: set<K>, f: K -> Aggregate)
    requires forall k :: k in rows ==> f(k).Total?
    ensures Fold(rows, f).Nothing? <==> rows == {}
  {
  }

  /** The aggregate's sum is the sum of the readings. */
  lemma {:induction false} FoldSum<K(!new)>(rows: set<K>, f: K -> Aggregate, value: K -> real)
    requires rows != {}
    requires forall k :: k in rows ==> f(k).Total? && f(k).sum == value(k)
    ensures Fold(rows, f).Total? && Fold(rows, f).sum == SumOf(rows, value)
    decreases |rows|
  {
    var k :| k in rows;
    FoldStep(rows, k, f);
    SumStep(rows, k, value);
    if rows - {k} != {} { FoldSum(rows - {k}, f, value); }
  }

  /**
   * What a non-empty aggregate of single readings means: the number of rows, an attained minimum
   * and maximum, and the value of a reading that no other reading is later than.
   */
  lemma {:induction false} FoldMeaning<K(!new)>(rows: set<K>, stamp: K -> Stamp, f: K -> Aggregate)
    requires rows != {}
    requires forall k :: k in rows ==> f(k) == Single(stamp(k))
    ensures var t := Fold(rows, f);
            && t.Total? && t.count == |rows|
            && (exists k :: k in rows && stamp(k).value == t.min)
            && (forall k :: k in rows ==> t.min <= stamp(k).value <= t.max)
            && (exists k :: k in rows && stamp(k).value == t.max)
            && (exists k :: k in rows && stamp(k) == t.latest)
            && (forall k :: k in rows ==> !Later(stamp(k), t.latest))
    decreases |rows|
  {
    var k :| k in rows;
    var rest := rows - {k};
    FoldStep(rows, k, f);
    var s := stamp(k);
    LaterIsTotal(s, s);
    if rest != {} {
      FoldMeaning(rest, stamp, f);
      var t := Fold(rest, f);
      var u := Latest(s, t.latest);
      LaterIsTotal(s, t.latest);
      forall j | j in rows
        ensures !Later(stamp(j), u)
      {
        LaterIsTotal(stamp(j), u);
        if j != k {
          LaterIsTotal(stamp(j), t.latest);
          if u == s && Later(stamp(j), s) && Later(s, t.latest) {
            LaterIsTransitive(stamp(j), s, t.latest);
          }
        }
      }
      MinMaxAttained(rows, rest, k, stamp, t);
    } else {
      assert rows == {k};
    }
  }

  lemma MinMaxAttained<K(!new)>(rows: set<K>, rest: set<K>, k: K, stamp: K -> Stamp, t: Aggregate)
    requires k in rows && rest == rows - {k} && t.Total?
    requires exists j :: j in rest && stamp(j).value == t.min
    requires exists j :: j in rest && stamp(j).value == t.max
    requires exists j :: j in rest && stamp(j) == t.latest
    ensures var u := Combine(Single(stamp(k)), t);
            && (exists j :: j in rows && stamp(j).value == u.min)
            && (exists j :: j in rows && stamp(j).value == u.max)
            && (exists j :: j in rows && stamp(j) == u.latest)
  {
  }
}
