/** Python's order on strings, and what `sorted` makes of a list or a set of them. */
module Strings {

  /** Code-point order. */
  predicate Le(a: string, b: string) {
    a == "" || (b != "" && (a[0] < b[0] || (a[0] == b[0] && Le(a[1..], b[1..]))))
  }

  /** At the first place where two strings differ the smaller character decides; a prefix comes first. */
  lemma {:induction false} LeReads(common: string, a: string, b: string)
    requires a == "" || b == "" || a[0] != b[0]
    ensures Le(common + a, common + b) <==> a == "" || (b != "" && a[0] < b[0])
  {
    if common == "" {
      assert common + a == a && common + b == b;
    } else {
      LeReads(common[1..], a, b);
      assert (common + a)[1..] == common[1..] + a && (common + b)[1..] == common[1..] + b;
    }
  }

  lemma {:induction false} LeTotal(a: string, b: string)
    ensures Le(a, b) || Le(b, a)
  {
    if a != "" && b != "" { LeTotal(a[1..], b[1..]); }
  }

  lemma {:induction false} LeAntisymmetric(a: string, b: string)
    requires Le(a, b) && Le(b, a)
    ensures a == b
  {
    if a != "" && b != "" {
      LeAntisymmetric(a[1..], b[1..]);
      assert a == [a[0]] + a[1..] && b == [b[0]] + b[1..];
    }
  }

  lemma {:induction false} LeTransitive(a: string, b: string, c: string)
    requires Le(a, b) && Le(b, c)
    ensures Le(a, c)
  {
    if a != "" && b != "" && c != "" && a[0] == b[0] == c[0] { LeTransitive(a[1..], b[1..], c[1..]); }
  }

  predicate IsSorted(xs: seq<string>) {
    forall i, j | 0 <= i < j < |xs| :: Le(xs[i], xs[j])
  }

  function Insert(x: string, xs: seq<string>): (r: seq<string>)
    ensures multiset(r) == multiset(xs) + multiset{x}
  {
    if xs == [] then [x]
    else
      assert xs == [xs[0]] + xs[1..];
      if Le(x, xs[0]) then [x] + xs else [xs[0]] + Insert(x, xs[1..])
  }

  lemma {:induction false} InsertSorted(x: string, xs: seq<string>)
    requires IsSorted(xs)
    ensures IsSorted(Insert(x, xs))
  {
    if xs != [] {
      if Le(x, xs[0]) {
        forall j | 0 <= j < |xs| ensures Le(x, xs[j]) {
          if j > 0 { LeTransitive(x, xs[0], xs[j]); }
        }
      } else {
        LeTotal(x, xs[0]);
        var rest := Insert(x, xs[1..]);
        InsertSorted(x, xs[1..]);
        forall j | 0 <= j < |rest| ensures Le(xs[0], rest[j]) {
          assert rest[j] in multiset(rest);
          if rest[j] != x { assert rest[j] in xs[1..]; }
        }
      }
    }
  }

  /** `sorted(xs)`. */
  function Sort(xs: seq<string>): (r: seq<string>)
    ensures multiset(r) == multiset(xs)
  {
    if xs == [] then []
    else
      assert xs == [xs[0]] + xs[1..];
      Insert(xs[0], Sort(xs[1..]))
  }

  lemma {:induction false} SortSorts(xs: seq<string>)
    ensures IsSorted(Sort(xs))
  {
    if xs != [] {
      SortSorts(xs[1..]);
      InsertSorted(xs[0], Sort(xs[1..]));
    }
  }

  lemma HeadIsLeast(xs: seq<string>, x: string)
    requires IsSorted(xs) && x in xs
    ensures Le(xs[0], x)
  {
    LeTotal(x, x);
    var i :| 0 <= i < |xs| && xs[i] == x;
  }

  lemma {:induction false} SortedUnique(xs: seq<string>, ys: seq<string>)
    requires IsSorted(xs) && IsSorted(ys) && multiset(xs) == multiset(ys)
    ensures xs == ys
  {
    if xs == [] {
      assert |multiset(ys)| == |multiset(xs)| == 0;
    } else {
      assert |ys| == |multiset(ys)| == |multiset(xs)| == |xs|;
      var x, y := xs[0], ys[0];
      assert x == y by {
        assert x in multiset(ys) && y in multiset(xs);
        HeadIsLeast(xs, y);
        HeadIsLeast(ys, x);
        LeAntisymmetric(x, y);
      }
      TailMultiset(xs);
      TailMultiset(ys);
      SortedUnique(xs[1..], ys[1..]);
      assert xs == [x] + xs[1..] && ys == [x] + ys[1..];
    }
  }

  lemma TailMultiset(xs: seq<string>)
    requires xs != []
    ensures multiset(xs[1..]) == multiset(xs) - multiset{xs[0]}
  {
    assert xs == [xs[0]] + xs[1..];
  }

  /** Two lists sort to the same list exactly when they hold the same strings equally often. */
  lemma SortCanonical(xs: seq<string>, ys: seq<string>)
    ensures Sort(xs) == Sort(ys) <==> multiset(xs) == multiset(ys)
  {
    SortSorts(xs);
    SortSorts(ys);
    if multiset(xs) == multiset(ys) { SortedUnique(Sort(xs), Sort(ys)); }
  }

  lemma {:induction false} LeastExists(s: set<string>)
    requires s != {}
    ensures exists m | m in s :: forall y | y in s :: Le(m, y)
  {
    var x :| x in s;
    var rest := s - {x};
    LeTotal(x, x);
    if rest != {} {
      LeastExists(rest);
      var m :| m in rest && forall y | y in rest :: Le(m, y);
      LeTotal(x, m);
      if Le(x, m) {
        forall y | y in s ensures Le(x, y) {
          if y != x { LeTransitive(x, m, y); }
        }
      } else {
        assert forall y | y in s :: y == x || y in rest;
      }
    } else {
      assert s == {x};
    }
  }

  function Least(s: set<string>): (m: string)
    requires s != {}
    ensures m in s && forall y | y in s :: Le(m, y)
  {
    LeastExists(s);
    assert forall a, b | a in s && b in s && (forall y | y in s :: Le(a, y)) && (forall y | y in s :: Le(b, y)) ::
        a == b by {
      forall a, b | a in s && b in s && (forall y | y in s :: Le(a, y)) && (forall y | y in s :: Le(b, y))
        ensures a == b
      {
        LeAntisymmetric(a, b);
      }
    }
    var m :| m in s && forall y | y in s :: Le(m, y);
    m
  }

  /** `sorted` of a set. */
  function SortSet(s: set<string>): (r: seq<string>)
    ensures IsSorted(r) && multiset(r) == multiset(s)
  {
    if s == {} then []
    else
      var m := Least(s);
      var rest := SortSet(s - {m});
      assert forall j | 0 <= j < |rest| :: rest[j] in multiset(rest);
      assert multiset(s) == multiset(s - {m}) + multiset{m};
      [m] + rest
  }

  /** Two sets sort to the same list exactly when they are equal. */
  lemma SortSetCanonical(s: set<string>, t: set<string>)
    ensures SortSet(s) == SortSet(t) <==> s == t
  {
    if SortSet(s) == SortSet(t) {
      assert multiset(s) == multiset(t);
      assert forall x :: x in s <==> x in multiset(s);
      assert forall x :: x in t <==> x in multiset(t);
    }
  }
}
