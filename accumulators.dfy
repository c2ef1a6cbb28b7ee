/** The per-bug accumulators that the charts hand to `getSummaryData`.  Each
    one is modelled by the increments it adds to the bucket's counter: the
    accumulator `(counterObj, bug) => counterObj[k] += n` becomes a counter
    holding `n` at `k`, written even when `n` is 0. */
module Accumulators {
  import opened Wrappers
  import opened Dates
  import opened Counters
  import opened Records

  // ---------------------------------------------------------------------
  // Testing policy: one count per commit, by testing tag
  // ---------------------------------------------------------------------

  /** The testing-policy chart ignores every day up to and including this
      one, when the policy took effect. */
  const TestingPolicyStart: PlainDate := Date(2020, 9, 1)

  /** A missing or empty tag is counted as "unknown". */
  function TestingKey(c: Commit): (key: string)
    ensures key == "unknown" <==> c.testing.None? || c.testing.value in {"", "unknown"}
    ensures c.testing.Some? && c.testing.value != "" ==> key == c.testing.value
  {
    if c.testing.None? || c.testing.value == "" then "unknown" else c.testing.value
  }

  function TestingKeys(commits: seq<Commit>): (keys: seq<string>)
    ensures |keys| == |commits|
    ensures forall i :: 0 <= i < |commits| ==> keys[i] == TestingKey(commits[i])
  {
    seq(|commits|, i requires 0 <= i < |commits| => TestingKey(commits[i]))
  }

  /** The testing-policy accumulator: one count per commit under its tag. */
  function TestingAccumulator(b: BugSummary): (r: Counter)
    ensures forall key :: key in r <==> exists i :: 0 <= i < |b.commits| && TestingKey(b.commits[i]) == key
  {
    var keys := TestingKeys(b.commits);
    assert forall key :: key in keys <==> exists i :: 0 <= i < |b.commits| && keys[i] == key;
    Tally(keys)
  }

  /** Each tag counts exactly the commits carrying it, a missing tag counting as "unknown". */
  lemma TestingCounts(b: BugSummary, key: string)
    ensures Get(TestingAccumulator(b), key) == multiset(TestingKeys(b.commits))[key]
  {
    TallyCounts(TestingKeys(b.commits), key);
  }

  // ---------------------------------------------------------------------
  // Risk: one count per bug in one of three bands
  // ---------------------------------------------------------------------

  /** "l" is lower risk, "a" average, anything else (including `null`) higher. */
  function RiskLabel(band: Option<string>): string {
    if band == Some("l") then "low" else if band == Some("a") then "medium" else "high"
  }

  function RiskTally(b: BugSummary): (r: Counter)
    ensures |r.Keys| == 1
    ensures Get(r, "low") + Get(r, "medium") + Get(r, "high") == 1
    ensures Get(r, "low") == 1 <==> b.riskBand == Some("l")
    ensures Get(r, "medium") == 1 <==> b.riskBand == Some("a")
  {
    map[RiskLabel(b.riskBand) := 1]
  }

  // ---------------------------------------------------------------------
  // Regressions
  // ---------------------------------------------------------------------

  function RegressionTally(b: BugSummary): (r: Counter)
    ensures Get(r, "regressions") == (if b.regression then 1 else 0)
    ensures Get(r, "fixed_regressions") == (if b.regression && b.fixed then 1 else 0)
    ensures Dominated(r, "fixed_regressions", "regressions")
    ensures !b.regression ==> r == map[]
  {
    if !b.regression then map[]
    else
      var r := Increment(map[], "regressions", 1);
      if b.fixed then Increment(r, "fixed_regressions", 1) else r
  }

  // ---------------------------------------------------------------------
  // Bug types
  // ---------------------------------------------------------------------

  /** `for (const x of xs) counterObj[x] += 1`. */
  function Tally(xs: seq<string>): (r: Counter)
    ensures forall x :: x in r <==> x in xs
  {
    if xs == [] then map[]
    else
      var n := |xs| - 1;
      assert xs == xs[..n] + [xs[n]];
      Increment(Tally(xs[..n]), xs[n], 1)
  }

  /** Each label counts its occurrences. */
  lemma {:induction false} TallyCounts(xs: seq<string>, x: string)
    ensures Get(Tally(xs), x) == multiset(xs)[x]
  {
    if xs != [] {
      var n := |xs| - 1;
      TallyCounts(xs[..n], x);
      assert xs == xs[..n] + [xs[n]];
      assert multiset(xs) == multiset(xs[..n]) + multiset{xs[n]};
      assert Tally(xs) == Increment(Tally(xs[..n]), xs[n], 1);
    }
  }

  /** The bug-types accumulator: one count per type the bug lists. */
  function TypesAccumulator(b: BugSummary): (r: Counter)
    ensures forall t :: t in r <==> t in b.types
  {
    Tally(b.types)
  }

  // ---------------------------------------------------------------------
  // Fix time, time to bug, time to confirm: a sum and a bug count
  // ---------------------------------------------------------------------

  /** Days from the bug's creation to its fix. */
  function FixTimeTally(b: FixedBug): (r: Counter)
    ensures r.Keys == {"fix_time", "bugs"} && Get(r, "bugs") == 1
    ensures Get(r, "fix_time") == DayNumber(b.date.value) - DayNumber(b.creationDate)
    ensures Get(r, "fix_time") > 0 <==> Before(b.creationDate, b.date.value)
    ensures Get(r, "fix_time") == 0 <==> b.creationDate == b.date.value
  {
    Increment(Increment(map[], "fix_time", DaysUntil(b.creationDate, b.date.value)), "bugs", 1)
  }

  /** `counterObj.time_to_bug += bug.time_to_bug`: a `null` adds 0. */
  function TimeToBugTally(b: BugSummary): (r: Counter)
    ensures r.Keys == {"time_to_bug", "bugs"} && Get(r, "bugs") == 1
    ensures Get(r, "time_to_bug") == if b.timeToBug.Some? then b.timeToBug.value else 0
  {
    var added := if b.timeToBug.Some? then b.timeToBug.value else 0;
    Increment(Increment(map[], "time_to_bug", added), "bugs", 1)
  }

  function TimeToConfirmTally(b: BugSummary): (r: Counter)
    ensures r.Keys == {"time_to_confirm", "bugs"} && Get(r, "bugs") == 1
    ensures Get(r, "time_to_confirm") == if b.timeToConfirm.Some? then b.timeToConfirm.value else 0
  {
    var added := if b.timeToConfirm.Some? then b.timeToConfirm.value else 0;
    Increment(Increment(map[], "time_to_confirm", added), "bugs", 1)
  }
}
