/** Ordering lists of distinct dates, as `dates.sort((a, b) =>
    Temporal.PlainDate.compare(a, b))` does for the bucket dates and for the
    keys of the landings report. */
module DateOrder {
  import opened Dates

  predicate Distinct<T(==)>(s: seq<T>) {
    forall i, j :: 0 <= i < j < |s| ==> s[i] != s[j]
  }

  predicate StrictlyAscending(s: seq<PlainDate>) {
    forall i, j :: 0 <= i < j < |s| ==> Before(s[i], s[j])
  }

  lemma BeforeTotal(a: PlainDate, b: PlainDate)
    ensures a == b || Before(a, b) || Before(b, a)
    ensures !(Before(a, b) && Before(b, a))
  {
    CompareAntisymmetric(a, b);
  }

  lemma AscendingIsDistinct(s: seq<PlainDate>)
    requires StrictlyAscending(s)
    ensures Distinct(s)
  {
    forall i, j | 0 <= i < j < |s|
      ensures s[i] != s[j]
    {
      BeforeTotal(s[i], s[j]);
    }
  }

  /** Inserting a new date into an ascending list keeps it ascending. */
  function InsertDate(x: PlainDate, s: seq<PlainDate>): (r: seq<PlainDate>)
    requires StrictlyAscending(s) && x !in s
    ensures StrictlyAscending(r) && |r| == |s| + 1
    ensures forall d :: d in r <==> d == x || d in s
  {
    if s == [] then [x]
    else if Before(x, s[0]) then
      assert forall j :: 0 <= j < |s| ==> Before(x, s[j]) by {
        forall j | 0 <= j < |s| ensures Before(x, s[j]) {
          if j > 0 { BeforeTransitive(x, s[0], s[j]); }
        }
      }
      [x] + s
    else
      BeforeTotal(x, s[0]);
      var rest := InsertDate(x, s[1..]);
      assert forall d :: d in rest ==> Before(s[0], d);
      [s[0]] + rest
  }

  /** The array sort of the source, on a list without duplicates. */
  function SortDistinctDates(s: seq<PlainDate>): (r: seq<PlainDate>)
    requires Distinct(s)
    ensures StrictlyAscending(r) && |r| == |s|
    ensures forall d :: d in r <==> d in s
  {
    if s == [] then []
    else
      var n := |s| - 1;
      assert s == s[..n] + [s[n]];
      InsertDate(s[n], SortDistinctDates(s[..n]))
  }

  /** Every non-empty finite set of dates has a least element. */
  lemma {:induction false} MinimumExists(s: set<PlainDate>)
    requires s != {}
    ensures exists m :: m in s && forall x :: x in s && x != m ==> Before(m, x)
    decreases |s|
  {
    var y :| y in s;
    if s != {y} {
      var rest := s - {y};
      assert |rest| < |s|;
      MinimumExists(rest);
      var m :| m in rest && forall x :: x in rest && x != m ==> Before(m, x);
      BeforeTotal(m, y);
      if Before(y, m) {
        forall x | x in s && x != y
          ensures Before(y, x)
        {
          if x != m {
            assert x in rest;
            BeforeTransitive(y, m, x);
          }
        }
      } else {
        forall x | x in s && x != m
          ensures Before(m, x)
        {
          if x != y {
            assert x in rest;
          }
        }
      }
    } else {
      assert forall x :: x in s ==> x == y;
    }
  }

  /** The dates of a set in ascending order. */
  ghost function SortedDates(s: set<PlainDate>): (r: seq<PlainDate>)
    ensures StrictlyAscending(r)
    ensures forall d :: d in r <==> d in s
    decreases |s|
  {
    if s == {} then []
    else
      MinimumExists(s);
      var m :| m in s && forall x :: x in s && x != m ==> Before(m, x);
      var rest := SortedDates(s - {m});
      PrependLeast(m, rest);
      [m] + rest
  }

  lemma PrependLeast(m: PlainDate, rest: seq<PlainDate>)
    requires StrictlyAscending(rest)
    requires forall x :: x in rest ==> Before(m, x)
    ensures StrictlyAscending([m] + rest)
  {
    forall i, j | 0 <= i < j < |rest| + 1 ensures Before(([m] + rest)[i], ([m] + rest)[j]) {
      if i == 0 {
        assert ([m] + rest)[j] == rest[j - 1];
      } else {
        assert ([m] + rest)[i] == rest[i - 1] && ([m] + rest)[j] == rest[j - 1];
      }
    }
  }

  /** An ascending list is determined by its elements. */
  lemma {:induction false} AscendingUnique(a: seq<PlainDate>, b: seq<PlainDate>)
    requires StrictlyAscending(a) && StrictlyAscending(b)
    requires forall d :: d in a <==> d in b
    ensures a == b
    decreases |a|
  {
    assert a != [] ==> a[0] in b;
    assert b != [] ==> b[0] in a;
    if a != [] {
      assert a[0] in b;
      assert b != [];
      if a[0] != b[0] {
        assert b[0] in a;
        var i :| 0 <= i < |a| && a[i] == b[0];
        var j :| 0 <= j < |b| && b[j] == a[0];
        assert Before(a[0], b[0]) && Before(b[0], a[0]);
        BeforeTotal(a[0], b[0]);
      }
      AscendingIsDistinct(a);
      AscendingIsDistinct(b);
      forall d
        ensures d in a[1..] <==> d in b[1..]
      {
        if d in a[1..] {
          assert d != a[0];
          assert d in b;
        }
        if d in b[1..] {
          assert d != b[0];
          assert d in a;
        }
      }
      AscendingUnique(a[1..], b[1..]);
      assert a == [a[0]] + a[1..];
      assert b == [b[0]] + b[1..];
    }
  }
}
