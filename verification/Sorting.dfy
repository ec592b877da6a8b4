/** Ordering of finite sets, used wherever the program sorts rows or asks SQL to. */
module Sorting {

  /** Code-point order of text, as Python compares strings and SQLite compares binary-collated columns. */
  predicate TextLess(a: string, b: string) {
    b != [] && (a == [] || a[0] < b[0] || (a[0] == b[0] && TextLess(a[1..], b[1..])))
  }

  lemma {:induction false} TextLessTotal(a: string, b: string)
    ensures a == b || TextLess(a, b) || TextLess(b, a)
    ensures !(TextLess(a, b) && TextLess(b, a))
    ensures !TextLess(a, a)
    decreases |a| + |b|
  {
    TextLessIrreflexive(a);
    if a != [] && b != [] {
      TextLessTotal(a[1..], b[1..]);
      assert a == [a[0]] + a[1..] && b == [b[0]] + b[1..];
    }
  }

  lemma {:induction false} TextLessIrreflexive(a: string)
    ensures !TextLess(a, a)
  {
    if a != [] {
      TextLessIrreflexive(a[1..]);
    }
  }

  lemma {:induction false} TextLessTransitive(a: string, b: string, c: string)
    requires TextLess(a, b) && TextLess(b, c)
    ensures TextLess(a, c)
  {
    if a != [] && a[0] == b[0] == c[0] {
      TextLessTransitive(a[1..], b[1..], c[1..]);
    }
  }

  /** Everything a proof that rows are ordered by texts needs to know about three of them, in either direction. */
  lemma TextLessOrder(a: string, b: string, c: string)
    ensures !TextLess(a, a)
    ensures a == b || TextLess(a, b) || TextLess(b, a)
    ensures TextLess(a, b) && TextLess(b, c) ==> TextLess(a, c)
    ensures TextLess(c, b) && TextLess(b, a) ==> TextLess(c, a)
  {
    TextLessTotal(a, b);
    if TextLess(a, b) && TextLess(b, c) {
      TextLessTransitive(a, b, c);
    }
    if TextLess(c, b) && TextLess(b, a) {
      TextLessTransitive(c, b, a);
    }
  }

  function Elements<T(==)>(q: seq<T>): set<T> {
    set x | x in q
  }

  lemma ElementsAppend<T>(q: seq<T>, i: nat)
    requires i < |q|
    ensures Elements(q[..i + 1]) == Elements(q[..i]) + {q[i]}
  {
    assert q[..i + 1] == q[..i] + [q[i]];
  }

  /** `less` is a strict total order on `s`. */
  ghost predicate StrictOrderOn<T(!new)>(less: (T, T) -> bool, s: set<T>) {
    && (forall a | a in s :: !less(a, a))
    && (forall a, b | a in s && b in s :: a == b || less(a, b) || less(b, a))
    && (forall a, b, c | a in s && b in s && c in s && less(a, b) && less(b, c) :: less(a, c))
  }

  ghost predicate Ascending<T(!new)>(q: seq<T>, less: (T, T) -> bool) {
    forall i, j | 0 <= i < j < |q| :: less(q[i], q[j])
  }

  /** `q` lists exactly the elements of `s`, each once, in the order of `less`. */
  ghost predicate IsSortOf<T(!new)>(q: seq<T>, s: set<T>, less: (T, T) -> bool) {
    && Ascending(q, less)
    && (forall x :: x in q <==> x in s)
  }

  lemma {:induction false} LeastExists<T(!new)>(s: set<T>, less: (T, T) -> bool)
    requires s != {} && StrictOrderOn(less, s)
    ensures exists m | m in s :: forall x | x in s && x != m :: less(m, x)
  {
    var a :| a in s;
    if s != {a} {
      var rest := s - {a};
      assert s == rest + {a};
      LeastExists(rest, less);
      var m :| m in rest && forall x | x in rest && x != m :: less(m, x);
      if less(a, m) {
        assert forall x | x in s && x != a :: less(a, x);
      } else {
        assert forall x | x in s && x != m :: less(m, x);
      }
    }
  }

  /** What `ORDER BY` or `sorted` returns for a set of rows under a strict total order. */
  ghost function Sorted<T(!new)>(s: set<T>, less: (T, T) -> bool): (q: seq<T>)
    requires StrictOrderOn(less, s)
    ensures IsSortOf(q, s, less)
    ensures |q| == |s|
  {
    if s == {} then []
    else
      LeastExists(s, less);
      var m :| m in s && forall x | x in s && x != m :: less(m, x);
      var rest := Sorted(s - {m}, less);
      [m] + rest
  }

  lemma AscendingDistinct<T(!new)>(q: seq<T>, s: set<T>, less: (T, T) -> bool)
    requires StrictOrderOn(less, s) && IsSortOf(q, s, less)
    ensures forall i, j | 0 <= i < j < |q| :: q[i] != q[j]
  {
    forall i, j | 0 <= i < j < |q| ensures q[i] != q[j] {
      assert less(q[i], q[j]) && q[i] in s;
    }
  }

  /** A set has only one sorted listing. */
  lemma {:induction false} SortUnique<T(!new)>(p: seq<T>, q: seq<T>, s: set<T>, less: (T, T) -> bool)
    requires StrictOrderOn(less, s) && IsSortOf(p, s, less) && IsSortOf(q, s, less)
    ensures p == q
    decreases |p|
  {
    EmptySort(p, s, less);
    EmptySort(q, s, less);
    if p != [] {
      assert p[0] in s;
      assert q != [] && q[0] in s;
      var i :| 0 <= i < |p| && p[i] == q[0];
      var j :| 0 <= j < |q| && q[j] == p[0];
      var a, b := p[0], q[0];
      assert (i == 0 || less(a, b)) && (j == 0 || less(b, a));
      assert a == b;
      var rest := s - {p[0]};
      AscendingDistinct(p, s, less);
      AscendingDistinct(q, s, less);
      assert p == [p[0]] + p[1..] && q == [q[0]] + q[1..];
      assert IsSortOf(p[1..], rest, less) by { TailSort(p, s, less); }
      assert IsSortOf(q[1..], rest, less) by { TailSort(q, s, less); }
      SortUnique(p[1..], q[1..], rest, less);
    }
  }

  lemma EmptySort<T(!new)>(q: seq<T>, s: set<T>, less: (T, T) -> bool)
    requires IsSortOf(q, s, less)
    ensures q == [] <==> s == {}
  {
    if s != {} {
      var x :| x in s;
      assert x in q;
    }
    if q != [] {
      assert q[0] in s;
    }
  }

  lemma TailSort<T(!new)>(q: seq<T>, s: set<T>, less: (T, T) -> bool)
    requires StrictOrderOn(less, s) && IsSortOf(q, s, less) && q != []
    ensures IsSortOf(q[1..], s - {q[0]}, less)
  {
    AscendingDistinct(q, s, less);
    forall x ensures x in q[1..] <==> x in s - {q[0]} {
      if x in q[1..] {
        var i :| 0 <= i < |q[1..]| && q[1..][i] == x;
        assert q[i + 1] == x && x in q;
      }
      if x in s - {q[0]} {
        assert x in q;
        var i :| 0 <= i < |q| && q[i] == x;
        assert q[1..][i - 1] == x;
      }
    }
  }

  /** `ORDER BY ... LIMIT n` returns n different rows, each before every row it leaves out. */
  lemma LimitMeaning<T(!new)>(s: set<T>, less: (T, T) -> bool, n: nat)
    requires StrictOrderOn(less, s) && n <= |s|
    ensures var v := Elements(Sorted(s, less)[..n]);
            && v <= s && |v| == n
            && forall a, b | a in v && b in s - v :: less(a, b)
  {
    var all := Sorted(s, less);
    var front := all[..n];
    var v := Elements(front);
    AscendingDistinct(all, s, less);
    DistinctSize(front);
    assert forall i | 0 <= i < n :: all[i] in front;
    assert forall x | x in front :: x in all;
    forall a, b | a in v && b in s - v ensures less(a, b) {
      assert b in all;
      var i :| 0 <= i < n && front[i] == a;
      var j :| 0 <= j < |all| && all[j] == b;
      assert less(all[i], all[j]);
    }
  }

  lemma {:induction false} DistinctSize<T>(q: seq<T>)
    requires forall i, j | 0 <= i < j < |q| :: q[i] != q[j]
    ensures |Elements(q)| == |q|
  {
    if q != [] {
      var rest := q[..|q| - 1];
      DistinctSize(rest);
      var last := q[|q| - 1];
      assert q == rest + [last];
      assert Elements(q) == Elements(rest) + {last};
    }
  }

  /** Selection sort: what the database engine or the runtime does for an ordered listing. */
  method OrderBy<T(!new, ==)>(s: set<T>, less: (T, T) -> bool) returns (q: seq<T>)
    requires StrictOrderOn(less, s)
    ensures q == Sorted(s, less)
  {
    q := [];
    var rest := s;
    while rest != {}
      invariant rest <= s
      invariant forall x :: x in q <==> x in s - rest
      invariant forall x, y | x in q && y in rest :: less(x, y)
      invariant Ascending(q, less)
      decreases rest
    {
      LeastExists(rest, less);
      var m :| m in rest && forall x | x in rest && x != m :: less(m, x);
      q := q + [m];
      rest := rest - {m};
    }
    SortUnique(q, Sorted(s, less), s, less);
  }
}
