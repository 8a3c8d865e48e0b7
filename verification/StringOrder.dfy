/**
 Python's order on strings and `sorted(...)` of a set of strings.
 Sorted is defined by repeatedly taking the least element, which is what makes a
 plan's remaining operations easy to talk about: they are the sorted rest.
*/
module StringOrder {

  predicate Le(a: string, b: string) {
    a == "" || (b != "" && (a[0] < b[0] || (a[0] == b[0] && Le(a[1..], b[1..]))))
  }

  lemma {:induction false} LeTotal(a: string, b: string)
    ensures Le(a, b) || Le(b, a)
  {
    if a != "" && b != "" {
      LeTotal(a[1..], b[1..]);
    }
  }

  lemma {:induction false} LeAntisymmetric(a: string, b: string)
    requires Le(a, b) && Le(b, a)
    ensures a == b
  {
    if a != "" && b != "" {
      LeAntisymmetric(a[1..], b[1..]);
      assert a == [a[0]] + a[1..];
    }
  }

  lemma {:induction false} LeTransitive(a: string, b: string, c: string)
    requires Le(a, b) && Le(b, c)
    ensures Le(a, c)
  {
    if a != "" && a[0] == b[0] == c[0] {
      LeTransitive(a[1..], b[1..], c[1..]);
    }
  }

  predicate IsLeast(m: string, s: set<string>) {
    m in s && forall x :: x in s ==> Le(m, x)
  }

  lemma {:induction false} LeastExists(s: set<string>)
    requires s != {}
    ensures exists m :: IsLeast(m, s)
    decreases s
  {
    var x :| x in s;
    var rest := s - {x};
    if rest == {} {
      LeTotal(x, x);
      assert s == {x};
      assert IsLeast(x, s);
    } else {
      LeastExists(rest);
      var m :| IsLeast(m, rest);
      LeTotal(x, m);
      var l := if Le(x, m) then x else m;
      forall y | y in s ensures Le(l, y) {
        LeTotal(x, x);
        if y != x && l == x {
          LeTransitive(x, m, y);
        }
      }
      assert IsLeast(l, s);
    }
  }

  function Least(s: set<string>): (m: string)
    requires s != {}
    ensures IsLeast(m, s)
  {
    LeastExists(s);
    assert forall a, b :: IsLeast(a, s) && IsLeast(b, s) ==> a == b by {
      forall a, b | IsLeast(a, s) && IsLeast(b, s) ensures a == b {
        LeAntisymmetric(a, b);
      }
    }
    var m :| m in s && IsLeast(m, s);
    m
  }

  /** `sorted(s)`: every element once, in ascending order. */
  function Sorted(s: set<string>): (r: seq<string>)
    ensures forall x :: x in r <==> x in s
    ensures forall i, j :: 0 <= i < j < |r| ==> r[i] != r[j]
    ensures s == {} <==> r == []
  {
    if s == {} then []
    else
      var m := Least(s);
      [m] + Sorted(s - {m})
  }

  lemma SortedFirst(s: set<string>)
    requires s != {}
    ensures Sorted(s) == [Least(s)] + Sorted(s - {Least(s)})
  {
  }

  lemma {:induction false} SortedAscending(s: set<string>)
    ensures |Sorted(s)| == |s|
    ensures forall i, j :: 0 <= i < j < |Sorted(s)| ==> Le(Sorted(s)[i], Sorted(s)[j])
  {
    if s != {} {
      SortedFirst(s);
      SortedAscending(s - {Least(s)});
      forall j | 0 < j < |Sorted(s)| ensures Le(Sorted(s)[0], Sorted(s)[j]) {
        assert Sorted(s)[j] in Sorted(s);
      }
    }
  }
}
