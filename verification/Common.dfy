/** Small datatypes and set/map facts shared by every component model. */
module Common {

  datatype Option<+T> = None | Some(value: T)

  /** A subset of a finite set is no larger, and equal when it is as large. */
  lemma {:induction false} SubsetSize<T>(a: set<T>, b: set<T>)
    requires a <= b
    ensures |a| <= |b|
    ensures |a| == |b| ==> a == b
    decreases b
  {
    if x :| x in b && x !in a {
      SubsetSize(a, b - {x});
    } else {
      assert a == b;
    }
  }

  /** Splitting off a subset splits the size. */
  lemma SplitSize<T>(whole: set<T>, part: set<T>)
    requires part <= whole
    ensures |whole| == |part| + |whole - part|
  {
    assert whole == part + (whole - part);
  }

  function Elements<T>(s: seq<T>): set<T> {
    set x | x in s
  }

  predicate Distinct<T(==)>(s: seq<T>) {
    forall i, j :: 0 <= i < j < |s| ==> s[i] != s[j]
  }

  /** A duplicate-free sequence has as many members as positions. */
  lemma {:induction false} DistinctSize<T>(s: seq<T>)
    requires Distinct(s)
    ensures |Elements(s)| == |s|
  {
    if s != [] {
      var front, last := s[..|s| - 1], s[|s| - 1];
      DistinctSize(front);
      assert last !in front;
      assert Elements(s) == Elements(front) + {last};
    }
  }

  function Image<T, U>(domain: set<T>, f: T -> U): set<U> {
    set x | x in domain :: f(x)
  }

  /** A function's image is no larger than its domain. */
  lemma {:induction false} ImageSize<T, U>(domain: set<T>, f: T -> U)
    ensures |Image(domain, f)| <= |domain|
  {
    if domain != {} {
      var x :| x in domain;
      ImageSize(domain - {x}, f);
      assert Image(domain, f) == Image(domain - {x}, f) + {f(x)};
    }
  }
}
