/** Lexicographic order on component paths, and the sorted listing of a finite set of paths.
    An ancestor is a proper prefix, so a sorted listing meets ancestors before descendants. */
module Order {

  /** A relative path as its components; [] is the root directory. */
  type Path = seq<string>

  predicate TextLess(a: string, b: string) {
    |b| > 0 && (|a| == 0 || a[0] < b[0] || (a[0] == b[0] && TextLess(a[1..], b[1..])))
  }

  predicate Less(a: Path, b: Path) {
    |b| > 0 && (|a| == 0 || TextLess(a[0], b[0]) || (a[0] == b[0] && Less(a[1..], b[1..])))
  }

  lemma TextTotal(a: string, b: string)
    ensures TextLess(a, b) || a == b || TextLess(b, a)
    ensures !(TextLess(a, b) && TextLess(b, a))
    ensures a == b ==> !TextLess(a, b)
  {
    if |a| > 0 && |b| > 0 {
      TextTotal(a[1..], b[1..]);
      if a[0] == b[0] && a[1..] == b[1..] {
        assert a == [a[0]] + a[1..] == b;
      }
    }
  }

  lemma TextTransitive(a: string, b: string, c: string)
    requires TextLess(a, b) && TextLess(b, c)
    ensures TextLess(a, c)
  {
    if |a| > 0 && a[0] == b[0] == c[0] {
      TextTransitive(a[1..], b[1..], c[1..]);
    }
  }

  lemma Total(a: Path, b: Path)
    ensures Less(a, b) || a == b || Less(b, a)
    ensures !(Less(a, b) && Less(b, a))
    ensures a == b ==> !Less(a, b)
  {
    if |a| > 0 && |b| > 0 {
      TextTotal(a[0], b[0]);
      Total(a[1..], b[1..]);
      if a[0] == b[0] && a[1..] == b[1..] {
        assert a == [a[0]] + a[1..] == b;
      }
    }
  }

  lemma Transitive(a: Path, b: Path, c: Path)
    requires Less(a, b) && Less(b, c)
    ensures Less(a, c)
  {
    if |a| > 0 {
      TextTotal(a[0], b[0]);
      TextTotal(b[0], c[0]);
      if a[0] == b[0] == c[0] {
        Transitive(a[1..], b[1..], c[1..]);
      } else if TextLess(a[0], b[0]) && TextLess(b[0], c[0]) {
        TextTransitive(a[0], b[0], c[0]);
      }
    }
  }

  /** Ancestors come before their descendants. */
  lemma {:induction false} AncestorsFirst(a: Path, b: Path)
    requires a < b
    ensures Less(a, b)
  {
    if |a| > 0 {
      assert a[1..] < b[1..];
      AncestorsFirst(a[1..], b[1..]);
    }
  }

  predicate IsLeast(m: Path, s: set<Path>) {
    m in s && forall x :: x in s && x != m ==> Less(m, x)
  }

  lemma LeastExists(s: set<Path>)
    requires s != {}
    ensures exists m :: IsLeast(m, s)
  {
    var x :| x in s;
    var rest := s - {x};
    if rest == {} {
      assert s == {x};
      assert IsLeast(x, s);
    } else {
      LeastExists(rest);
      var m :| IsLeast(m, rest);
      Total(x, m);
      if Less(m, x) {
        assert IsLeast(m, s);
      } else {
        forall y | y in s && y != x ensures Less(x, y) {
          if y != m {
            assert y in rest;
            Transitive(x, m, y);
          }
        }
        assert IsLeast(x, s);
      }
    }
  }

  function Least(s: set<Path>): (m: Path)
    requires s != {}
    ensures IsLeast(m, s)
  {
    LeastExists(s);
    assert forall a, b :: IsLeast(a, s) && IsLeast(b, s) ==> a == b by {
      forall a, b | IsLeast(a, s) && IsLeast(b, s) ensures a == b {
        Total(a, b);
      }
    }
    var m :| m in s && IsLeast(m, s);
    m
  }

  ghost predicate Ascending(q: seq<Path>) {
    forall i, j :: 0 <= i < j < |q| ==> Less(q[i], q[j])
  }

  /** The members of `s`, each once, in ascending order. */
  function Sorted(s: set<Path>): (q: seq<Path>)
    ensures forall x :: x in q <==> x in s
    ensures Ascending(q)
    ensures |q| == |s|
  {
    if s == {} then [] else
      var m := Least(s);
      var rest := Sorted(s - {m});
      LeastFirst(m, rest, s);
      [m] + rest
  }

  lemma LeastFirst(m: Path, rest: seq<Path>, s: set<Path>)
    requires IsLeast(m, s) && Ascending(rest) && forall x :: x in rest <==> x in s - {m}
    ensures Ascending([m] + rest) && forall x :: x in [m] + rest <==> x in s
  {
    hide Less;
    forall i | 0 <= i < |rest| ensures Less(m, rest[i]) {
      assert rest[i] in rest;
    }
  }

  /** Listing twice the same set gives no path twice, and never a descendant before an ancestor. */
  lemma SortedDistinct(s: set<Path>, i: nat, j: nat)
    requires i < |Sorted(s)| && j < |Sorted(s)|
    ensures Sorted(s)[i] == Sorted(s)[j] ==> i == j
    ensures Sorted(s)[i] < Sorted(s)[j] ==> i < j
  {
    var q := Sorted(s);
    Total(q[i], q[j]);
    if q[i] < q[j] {
      AncestorsFirst(q[i], q[j]);
    }
  }
}
