/** Selecting the rows of a table that satisfy a condition, in table order. */
module Lists {

  function Filter<T(!new)>(q: seq<T>, p: T -> bool): (r: seq<T>)
    ensures |r| <= |q|
  {
    if q == [] then []
    else Filter(q[..|q| - 1], p) + if p(q[|q| - 1]) then [q[|q| - 1]] else []
  }

  lemma {:induction false} FilterMeaning<T(!new)>(q: seq<T>, p: T -> bool)
    ensures forall x :: x in Filter(q, p) <==> x in q && p(x)
  {
    if q != [] {
      FilterMeaning(q[..|q| - 1], p);
      assert q == q[..|q| - 1] + [q[|q| - 1]];
    }
  }

  lemma {:induction false} FilterConcat<T(!new)>(a: seq<T>, b: seq<T>, p: T -> bool)
    ensures Filter(a + b, p) == Filter(a, p) + Filter(b, p)
    decreases |b|
  {
    if b == [] {
      assert a + b == a;
    } else {
      var init := b[..|b| - 1];
      FilterConcat(a, init, p);
      assert (a + b)[..|a + b| - 1] == a + init;
    }
  }

  /** Selecting from a longer table gives the same rows exactly when none of the added rows is selected. */
  lemma FilterGrown<T(!new)>(a: seq<T>, b: seq<T>, p: T -> bool)
    requires a <= b
    ensures Filter(a, p) <= Filter(b, p)
    ensures |Filter(b, p)| == |Filter(a, p)| <==> forall i | |a| <= i < |b| :: !p(b[i])
  {
    var added := b[|a|..];
    assert b == a + added;
    FilterConcat(a, added, p);
    FilterMeaning(added, p);
    if Filter(added, p) == [] {
      forall i | |a| <= i < |b| ensures !p(b[i]) {
        assert b[i] == added[i - |a|] && b[i] in added;
        assert b[i] !in Filter(added, p);
      }
    } else {
      var x := Filter(added, p)[0];
      assert x in Filter(added, p) && x in added;
      var i :| 0 <= i < |added| && added[i] == x;
      assert b[|a| + i] == x;
    }
  }

  /** Selecting commutes with a change that keeps which rows are selected and leaves those rows as they are. */
  lemma {:induction false} FilterPointwise<T(!new)>(a: seq<T>, b: seq<T>, p: T -> bool)
    requires |a| == |b| && forall i | 0 <= i < |a| :: p(a[i]) == p(b[i])
    ensures |Filter(a, p)| == |Filter(b, p)|
    ensures (forall i | 0 <= i < |a| && p(a[i]) :: a[i] == b[i]) ==> Filter(a, p) == Filter(b, p)
  {
    if a != [] {
      FilterPointwise(a[..|a| - 1], b[..|b| - 1], p);
    }
  }

  // ----- first occurrences -----

  function Keys<T(!new), K(==)>(q: seq<T>, key: T -> K): set<K> {
    set i | 0 <= i < |q| :: key(q[i])
  }

  /** The elements of q whose key has not occurred before, in order. */
  function Firsts<T(!new), K(==)>(q: seq<T>, key: T -> K): (r: seq<T>)
    ensures |r| <= |q|
  {
    if q == [] then []
    else
      var r := Firsts(q[..|q| - 1], key);
      if key(q[|q| - 1]) in Keys(r, key) then r else r + [q[|q| - 1]]
  }

  lemma KeysAppend<T(!new), K>(q: seq<T>, x: T, key: T -> K)
    ensures Keys(q + [x], key) == Keys(q, key) + {key(x)}
  {
    assert forall i | 0 <= i < |q| :: (q + [x])[i] == q[i];
    assert (q + [x])[|q|] == x;
  }

  /** Every key of q occurs among the first occurrences exactly once, with the element that carried it first. */
  lemma {:induction false} FirstsMeaning<T(!new), K>(q: seq<T>, key: T -> K)
    ensures Keys(Firsts(q, key), key) == Keys(q, key)
    ensures forall i, j | 0 <= i < j < |Firsts(q, key)| :: key(Firsts(q, key)[i]) != key(Firsts(q, key)[j])
    ensures forall x | x in Firsts(q, key) :: x in q
  {
    if q != [] {
      var init, last := q[..|q| - 1], q[|q| - 1];
      FirstsMeaning(init, key);
      assert q == init + [last];
      KeysAppend(init, last, key);
      var r := Firsts(init, key);
      KeysAppend(r, last, key);
      assert forall i | 0 <= i < |r| :: key(r[i]) in Keys(r, key);
    }
  }

  /** First occurrences of a prefix are a prefix of the first occurrences. */
  lemma {:induction false} FirstsOfPrefix<T(!new), K>(q: seq<T>, key: T -> K, n: nat)
    requires n <= |q|
    ensures Firsts(q[..n], key) <= Firsts(q, key)
    decreases |q|
  {
    if n == |q| {
      assert q[..n] == q;
    } else {
      assert q[..|q| - 1][..n] == q[..n];
      FirstsOfPrefix(q[..|q| - 1], key, n);
    }
  }

  // ----- rows in order of a rank -----

  function Below<T(!new)>(rank: T -> int, bound: int): T -> bool {
    x => rank(x) < bound
  }

  predicate Increasing<T(!new)>(q: seq<T>, rank: T -> int) {
    forall i, j | 0 <= i < j < |q| :: rank(q[i]) < rank(q[j])
  }

  lemma FilterAppend<T(!new)>(q: seq<T>, x: T, p: T -> bool)
    ensures Filter(q + [x], p) == Filter(q, p) + if p(x) then [x] else []
  {
    assert (q + [x])[..|q|] == q;
  }

  lemma {:induction false} AllBelow<T(!new)>(q: seq<T>, rank: T -> int, bound: int)
    requires forall i | 0 <= i < |q| :: rank(q[i]) < bound
    ensures Filter(q, Below(rank, bound)) == q
  {
    if q != [] {
      var init, last := q[..|q| - 1], q[|q| - 1];
      AllBelow(init, rank, bound);
      assert Filter(q, Below(rank, bound)) == Filter(init, Below(rank, bound)) + [last];
      hide Filter;
      assert q == init + [last];
    }
  }

  lemma {:induction false} FilterTwice<T(!new)>(q: seq<T>, rank: T -> int, high: int, low: int)
    requires low <= high
    ensures Filter(Filter(q, Below(rank, high)), Below(rank, low)) == Filter(q, Below(rank, low))
  {
    if q != [] {
      var init, last := q[..|q| - 1], q[|q| - 1];
      var f := Filter(init, Below(rank, high));
      FilterTwice(init, rank, high, low);
      FilterAppend(f, last, Below(rank, low));
      assert Filter(q, Below(rank, high)) == if rank(last) < high then f + [last] else f;
    }
  }

  lemma IncreasingAppend<T(!new)>(q: seq<T>, rank: T -> int, x: T)
    requires Increasing(q, rank) && forall y | y in q :: rank(y) < rank(x)
    ensures Increasing(q + [x], rank)
  {
    assert forall i | 0 <= i < |q| :: q[i] in q;
  }

  lemma LastIsGreatest<T(!new)>(q: seq<T>, rank: T -> int)
    requires q != [] && Increasing(q, rank)
    ensures Increasing(q[..|q| - 1], rank) && forall x | x in q[..|q| - 1] :: rank(x) < rank(q[|q| - 1])
  {
    forall x | x in q[..|q| - 1] ensures rank(x) < rank(q[|q| - 1]) {
      var i :| 0 <= i < |q| - 1 && q[i] == x;
    }
  }

  lemma {:induction false} FilterIncreasing<T(!new)>(q: seq<T>, rank: T -> int, bound: int)
    requires Increasing(q, rank)
    ensures Increasing(Filter(q, Below(rank, bound)), rank)
  {
    if q != [] {
      LastIsGreatest(q, rank);
      FilterIncreasing(q[..|q| - 1], rank, bound);
      FilterMeaning(q[..|q| - 1], Below(rank, bound));
      if Below(rank, bound)(q[|q| - 1]) {
        IncreasingAppend(Filter(q[..|q| - 1], Below(rank, bound)), rank, q[|q| - 1]);
      }
    }
  }

  lemma {:induction false} FirstsIncreasing<T(!new), K>(q: seq<T>, key: T -> K, rank: T -> int)
    requires Increasing(q, rank)
    ensures Increasing(Firsts(q, key), rank)
  {
    if q != [] {
      LastIsGreatest(q, rank);
      FirstsMeaning(q[..|q| - 1], key);
      FirstsIncreasing(q[..|q| - 1], key, rank);
      IncreasingAppend(Firsts(q[..|q| - 1], key), rank, q[|q| - 1]);
    }
  }

  /** First occurrences below an element they keep are exactly the ones they keep before it. */
  lemma {:induction false} FirstsBelow<T(!new), K>(q: seq<T>, key: T -> K, rank: T -> int, j: nat)
    requires Increasing(q, rank) && j < |Firsts(q, key)|
    ensures Firsts(Filter(q, Below(rank, rank(Firsts(q, key)[j]))), key) == Firsts(q, key)[..j]
    decreases |q|
  {
    var init, last := q[..|q| - 1], q[|q| - 1];
    var v, w := Firsts(q, key), Firsts(init, key);
    LastIsGreatest(q, rank);
    if j < |w| {
      FirstsMeaning(init, key);
      assert v[j] == w[j] && w[j] in init && v[..j] == w[..j];
      FirstsBelow(init, key, rank, j);
      assert Filter(q, Below(rank, rank(w[j]))) == Filter(init, Below(rank, rank(w[j])));
    } else {
      assert v[j] == last && v[..j] == w;
      forall i | 0 <= i < |init| ensures rank(init[i]) < rank(last) {
        assert init[i] in init;
      }
      AllBelow(init, rank, rank(last));
      assert Filter(q, Below(rank, rank(last))) == init;
    }
  }

  // ----- partitions -----

  function Not<T(!new)>(p: T -> bool): T -> bool {
    x => !p(x)
  }

  predicate DistinctBy<T(!new), K(==)>(q: seq<T>, key: T -> K) {
    forall i, j | 0 <= i < j < |q| :: key(q[i]) != key(q[j])
  }

  lemma {:induction false} FilterDistinct<T(!new), K>(q: seq<T>, key: T -> K, p: T -> bool)
    requires DistinctBy(q, key)
    ensures DistinctBy(Filter(q, p), key)
  {
    if q != [] {
      var init, last := q[..|q| - 1], q[|q| - 1];
      FilterDistinct(init, key, p);
      FilterMeaning(init, p);
      var f := Filter(init, p);
      forall i | 0 <= i < |f| ensures key(f[i]) != key(last) {
        assert f[i] in init;
      }
    }
  }

  /** The rows that satisfy a condition and the rows that do not are together all rows, each still once. */
  lemma {:induction false} FilterPartition<T(!new), K>(q: seq<T>, key: T -> K, p: T -> bool)
    requires DistinctBy(q, key)
    ensures var parts := Filter(q, Not(p)) + Filter(q, p);
            && |parts| == |q| && DistinctBy(parts, key)
            && forall x :: x in parts <==> x in q
  {
    FilterDistinct(q, key, p);
    FilterDistinct(q, key, Not(p));
    FilterMeaning(q, p);
    FilterMeaning(q, Not(p));
    FilterSizes(q, p);
    var a, b := Filter(q, p), Filter(q, Not(p));
    forall i, j | 0 <= i < |a| && 0 <= j < |b| ensures key(a[i]) != key(b[j]) {
      assert a[i] in q && b[j] in q && p(a[i]) && Not(p)(b[j]);
    }
  }

  lemma {:induction false} FilterSizes<T(!new)>(q: seq<T>, p: T -> bool)
    ensures |Filter(q, p)| + |Filter(q, Not(p))| == |q|
  {
    if q != [] {
      FilterSizes(q[..|q| - 1], p);
    }
  }
}
