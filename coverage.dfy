/** `summarizeCoverage`: the line counts of a bug's commits, summed over the
    commits that report coverage. */
module CoverageSummary {
  import opened Wrappers
  import opened Records

  const NoLines := Coverage(0, 0, 0)

  function Plus(a: Coverage, b: Coverage): Coverage {
    Coverage(a.added + b.added, a.covered + b.covered, a.unknown + b.unknown)
  }

  /** What one commit contributes: its coverage when it has any, nothing otherwise. */
  function Contribution(c: Commit): Coverage {
    if c.coverage.Some? then c.coverage.value else NoLines
  }

  /** The totals over the first `n` commits, accumulated front to back. */
  function TotalsUpTo(commits: seq<Commit>, n: nat): Coverage
    requires n <= |commits|
  {
    if n == 0 then NoLines else Plus(TotalsUpTo(commits, n - 1), Contribution(commits[n - 1]))
  }

  function CoverageTotals(commits: seq<Commit>): Coverage {
    TotalsUpTo(commits, |commits|)
  }

  /** The loop over `bugSummary.commits`. */
  method SummarizeCoverage(b: BugSummary) returns (r: Coverage)
    ensures r == CoverageTotals(b.commits)
  {
    var added, covered, unknown := 0, 0, 0;
    var i := 0;
    while i < |b.commits|
      invariant 0 <= i <= |b.commits|
      invariant Coverage(added, covered, unknown) == TotalsUpTo(b.commits, i)
    {
      var c := b.commits[i];
      if c.coverage.Some? {
        added := added + c.coverage.value.added;
        covered := covered + c.coverage.value.covered;
        unknown := unknown + c.coverage.value.unknown;
      }
      i := i + 1;
    }
    r := Coverage(added, covered, unknown);
  }

  /** A prefix of `a + b` that stays within `a` totals as in `a` alone. */
  lemma {:induction false} TotalsOfPrefix(a: seq<Commit>, b: seq<Commit>, n: nat)
    requires n <= |a|
    ensures TotalsUpTo(a + b, n) == TotalsUpTo(a, n)
  {
    if n > 0 {
      TotalsOfPrefix(a, b, n - 1);
      assert (a + b)[n - 1] == a[n - 1];
    }
  }

  lemma {:induction false} TotalsAcross(a: seq<Commit>, b: seq<Commit>, k: nat)
    requires k <= |b|
    ensures TotalsUpTo(a + b, |a| + k) == Plus(CoverageTotals(a), TotalsUpTo(b, k))
  {
    if k == 0 {
      TotalsAcrossBase(a, b);
    } else {
      TotalsAcross(a, b, k - 1);
      TotalsAcrossStep(a, b, k);
    }
  }

  /** With none of `b` yet, the totals are those of `a`. */
  lemma TotalsAcrossBase(a: seq<Commit>, b: seq<Commit>)
    ensures TotalsUpTo(a + b, |a|) == Plus(CoverageTotals(a), TotalsUpTo(b, 0))
  {
    TotalsOfPrefix(a, b, |a|);
  }

  /** One more commit of `b` adds its contribution on both sides. */
  lemma TotalsAcrossStep(a: seq<Commit>, b: seq<Commit>, k: nat)
    requires 0 < k <= |b|
    requires TotalsUpTo(a + b, |a| + k - 1) == Plus(CoverageTotals(a), TotalsUpTo(b, k - 1))
    ensures TotalsUpTo(a + b, |a| + k) == Plus(CoverageTotals(a), TotalsUpTo(b, k))
  {
    assert (a + b)[|a| + k - 1] == b[k - 1];
  }

  /** The totals of two runs of commits add up: how the commits are split
      into runs does not matter. */
  lemma CoverageOfConcat(a: seq<Commit>, b: seq<Commit>)
    ensures CoverageTotals(a + b) == Plus(CoverageTotals(a), CoverageTotals(b))
  {
    TotalsAcross(a, b, |b|);
  }

  /** A commit without coverage adds nothing wherever it stands. */
  lemma UncoveredCommitIgnored(a: seq<Commit>, c: Commit, b: seq<Commit>)
    requires c.coverage.None?
    ensures CoverageTotals(a + [c] + b) == CoverageTotals(a + b)
  {
    var ac := a + [c];
    CoverageOfConcat(a, [c]);
    SingleUncovered(c);
    assert Plus(CoverageTotals(a), NoLines) == CoverageTotals(a);
    CoverageOfConcat(ac, b);
    CoverageOfConcat(a, b);
  }

  lemma SingleUncovered(c: Commit)
    requires c.coverage.None?
    ensures CoverageTotals([c]) == NoLines
  {
    assert TotalsUpTo([c], 0) == NoLines;
  }

  /** A bug whose commits report no coverage has no lines at all. */
  lemma {:induction false} NoCoverageNoLines(commits: seq<Commit>, n: nat)
    requires n <= |commits|
    requires forall i :: 0 <= i < |commits| ==> commits[i].coverage.None?
    ensures TotalsUpTo(commits, n) == NoLines
  {
    if n > 0 {
      NoCoverageNoLines(commits, n - 1);
    }
  }

  /** When every commit covers at most the lines it adds, so do the totals. */
  lemma {:induction false} CoveredWithinAdded(commits: seq<Commit>, n: nat)
    requires n <= |commits|
    requires forall i :: 0 <= i < |commits| && commits[i].coverage.Some? ==>
               commits[i].coverage.value.covered + commits[i].coverage.value.unknown <= commits[i].coverage.value.added
    ensures TotalsUpTo(commits, n).covered + TotalsUpTo(commits, n).unknown <= TotalsUpTo(commits, n).added
  {
    if n > 0 {
      CoveredWithinAdded(commits, n - 1);
    }
  }
}
