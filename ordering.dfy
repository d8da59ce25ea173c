/** Python's ordering of `str` values and `sorted(list(s))` over a set of
    strings, which the rule writer and the rule listing both use. */
module Ordering {

  /** `a <= b` on Python strings: code point by code point, and a proper
      prefix comes first. */
  predicate LexLe(a: string, b: string)
  {
    a == [] || (b != [] && (a[0] < b[0] || (a[0] == b[0] && LexLe(a[1..], b[1..]))))
  }

  /** `a < b` on Python strings. */
  predicate LexLt(a: string, b: string)
  {
    LexLe(a, b) && a != b
  }

  lemma {:induction false} LexLeReflexive(a: string)
    ensures LexLe(a, a)
  {
    if a != [] {
      LexLeReflexive(a[1..]);
    }
  }

  lemma {:induction false} LexLeTotal(a: string, b: string)
    ensures LexLe(a, b) || LexLe(b, a)
  {
    if a != [] && b != [] && a[0] == b[0] {
      LexLeTotal(a[1..], b[1..]);
    }
  }

  lemma {:induction false} LexLeAntisymmetric(a: string, b: string)
    requires LexLe(a, b) && LexLe(b, a)
    ensures a == b
  {
    if a != [] && b != [] {
      LexLeAntisymmetric(a[1..], b[1..]);
      assert a == [a[0]] + a[1..] && b == [b[0]] + b[1..];
    }
  }

  lemma {:induction false} LexLeTransitive(a: string, b: string, c: string)
    requires LexLe(a, b) && LexLe(b, c)
    ensures LexLe(a, c)
  {
    if a != [] && b != [] && c != [] && a[0] == b[0] == c[0] {
      LexLeTransitive(a[1..], b[1..], c[1..]);
    }
  }

  /** Every element is strictly below every later one: ascending, with no
      duplicates. */
  predicate StrictlySorted(q: seq<string>)
  {
    forall i, j :: 0 <= i < j < |q| ==> LexLt(q[i], q[j])
  }

  /** `m` is the smallest element of `s`. */
  predicate IsLeast(m: string, s: set<string>)
  {
    m in s && forall x :: x in s ==> LexLe(m, x)
  }

  lemma {:induction false} LeastExists(s: set<string>)
    requires s != {}
    ensures exists m :: IsLeast(m, s)
    decreases |s|
  {
    var x :| x in s;
    if s != {x} {
      var rest := s - {x};
      LeastExists(rest);
      var m :| IsLeast(m, rest);
      LexLeTotal(x, m);
      if LexLe(x, m) {
        forall y | y in s
          ensures LexLe(x, y)
        {
          if y != x {
            LexLeTransitive(x, m, y);
          } else {
            LexLeReflexive(x);
          }
        }
        assert IsLeast(x, s);
      } else {
        assert IsLeast(m, s);
      }
    } else {
      LexLeReflexive(x);
      assert IsLeast(x, s);
    }
  }

  lemma LeastUnique(s: set<string>)
    ensures forall m, n :: IsLeast(m, s) && IsLeast(n, s) ==> m == n
  {
    forall m, n | IsLeast(m, s) && IsLeast(n, s)
      ensures m == n
    {
      LexLeAntisymmetric(m, n);
    }
  }

  /** The smallest element of a non-empty set. */
  function Least(s: set<string>): (m: string)
    requires s != {}
    ensures IsLeast(m, s)
  {
    LeastExists(s);
    LeastUnique(s);
    var m :| IsLeast(m, s);
    m
  }

  /** Python's `sorted(list(s))`: the elements of `s` in ascending order,
      each exactly once. */
  function SortedElems(s: set<string>): (r: seq<string>)
    ensures |r| == |s|
    decreases |s|
  {
    if s == {} then [] else [Least(s)] + SortedElems(s - {Least(s)})
  }

  /** The listing holds exactly the elements of `s`, in strictly ascending
      order. */
  lemma {:induction false} SortedElemsSpec(s: set<string>)
    ensures forall x :: x in SortedElems(s) <==> x in s
    ensures StrictlySorted(SortedElems(s))
    decreases |s|
  {
    if s != {} {
      var m := Least(s);
      var rest := SortedElems(s - {m});
      SortedElemsSpec(s - {m});
      var r := SortedElems(s);
      assert r == [m] + rest;
      forall i, j | 0 <= i < j < |r|
        ensures LexLt(r[i], r[j])
      {
        assert r[j] == rest[j - 1] && r[j] in s - {m};
        if i > 0 {
          assert r[i] == rest[i - 1];
        }
      }
    }
  }

  /** The sorted listing is the only one: any strictly ascending sequence
      holding exactly the elements of `s` is `SortedElems(s)`. */
  lemma {:induction false} SortedElemsUnique(q: seq<string>, s: set<string>)
    requires StrictlySorted(q)
    requires forall x :: x in q <==> x in s
    ensures q == SortedElems(s)
    decreases |q|
  {
    if q == [] {
      assert s == {};
    } else {
      assert IsLeast(q[0], s) by {
        forall x | x in s
          ensures LexLe(q[0], x)
        {
          var j :| 0 <= j < |q| && q[j] == x;
          if j > 0 {
            assert LexLt(q[0], q[j]);
          } else {
            LexLeReflexive(x);
          }
        }
      }
      var m := Least(s);
      LeastUnique(s);
      assert m == q[0];
      assert SortedElems(s) == [m] + SortedElems(s - {m});
      forall x
        ensures x in q[1..] <==> x in s - {m}
      {
        if x in q[1..] {
          var j :| 1 <= j < |q| && q[j] == x;
          assert LexLt(q[0], q[j]);
        }
      }
      SortedElemsUnique(q[1..], s - {m});
    }
  }
}
