/** What `getSummaryData` promises about its buckets: which dates get one,
    which records reach the accumulator, and how regrouping by week, month
    or release orders the buckets and keeps every label's total. */
module SummaryLaws {
  import opened Wrappers
  import opened Dates
  import opened DateOrder
  import opened Counters
  import opened Summary
  import Chain

  // ---------------------------------------------------------------------
  // Daily buckets
  // ---------------------------------------------------------------------

  /** The records the filter accepts, in their order. */
  function Accepted<R(!new)>(records: seq<R>, f: R -> bool): (r: seq<R>)
    ensures |r| <= |records|
    ensures forall x :: x in r <==> x in records && f(x)
  {
    if records == [] then []
    else
      var n := |records| - 1;
      assert records == records[..n] + [records[n]];
      var before := Accepted(records[..n], f);
      if f(records[n]) then before + [records[n]] else before
  }

  /** The accepted records keep their relative order. */
  lemma {:induction false} AcceptedInOrder<R(!new)>(records: seq<R>, f: R -> bool)
    ensures Chain.IsSubsequence(Accepted(records, f), records)
  {
    if records != [] {
      var n := |records| - 1;
      AcceptedInOrder(records[..n], f);
      assert records == records[..n] + [records[n]];
      Chain.SubsequenceSnoc(Accepted(records[..n], f), records[..n], records[n]);
    }
  }

  /** Passing a `filter` is the same as filtering the records beforehand:
      the accumulator sees exactly the accepted records of the date. */
  lemma {:induction false} FilterIsPrefilter<R(!new)>(records: seq<R>, d: PlainDate, acc: R -> Counter,
                                                f: R -> bool, dateOf: R -> Option<PlainDate>)
    ensures BucketTotal(records, d, acc, Some(f), dateOf) == BucketTotal(Accepted(records, f), d, acc, None, dateOf)
  {
    if records != [] {
      var n := |records| - 1;
      FilterIsPrefilter(records[..n], d, acc, f, dateOf);
      var kept := Accepted(records[..n], f);
      if f(records[n]) {
        assert (kept + [records[n]])[..|kept|] == kept;
      }
    }
  }

  /** A date none of whose records the filter accepts keeps an empty bucket. */
  lemma {:induction false} RejectedBucketIsEmpty<R>(records: seq<R>, d: PlainDate, acc: R -> Counter,
                                                    filter: Option<R -> bool>, dateOf: R -> Option<PlainDate>)
    requires forall i :: 0 <= i < |records| && dateOf(records[i]) == Some(d) ==> !Accepts(filter, records[i])
    ensures BucketTotal(records, d, acc, filter, dateOf) == map[]
  {
    if records != [] {
      var n := |records| - 1;
      assert forall i :: 0 <= i < n ==> records[..n][i] == records[i];
      RejectedBucketIsEmpty(records[..n], d, acc, filter, dateOf);
    }
  }

  /** The daily result: a bucket for exactly the record dates after `start`,
      in ascending order, and an empty one when the filter rejects every
      record of the date. */
  lemma DailyBuckets<R>(records: seq<R>, start: PlainDate, acc: R -> Counter,
                        filter: Option<R -> bool>, dateOf: R -> Option<PlainDate>, releases: seq<Release>, d: PlainDate)
    requires !HasNullDate(records, dateOf)
    ensures var res := SummaryOf(records, Daily, start, acc, filter, dateOf, releases);
      && res.Success?
      && (DayKey(d) in res.value.counters <==> Before(start, d) && exists i :: 0 <= i < |records| && dateOf(records[i]) == Some(d))
      && KeysAscending(res.value.keys)
      && (DayKey(d) in res.value.counters && (forall i :: 0 <= i < |records| && dateOf(records[i]) == Some(d) ==> !Accepts(filter, records[i]))
          ==> res.value.counters[DayKey(d)] == map[])
  {
    var days := BucketDates(records, dateOf, start);
    if DayKey(d) in SummaryOf(records, Daily, start, acc, filter, dateOf, releases).value.counters
       && (forall i :: 0 <= i < |records| && dateOf(records[i]) == Some(d) ==> !Accepts(filter, records[i])) {
      RejectedBucketIsEmpty(records, d, acc, filter, dateOf);
    }
  }

  // ---------------------------------------------------------------------
  // Regrouping keys
  // ---------------------------------------------------------------------

  /** Strict order between two keys of the same kind. */
  predicate KeyBefore(a: BucketKey, b: BucketKey) {
    (a.DayKey? && b.DayKey? && Before(a.day, b.day)) || (a.MonthKey? && b.MonthKey? && YearMonthBefore(a.month, b.month))
  }

  predicate KeysNonDecreasing(ks: seq<BucketKey>) {
    forall i, j :: 0 <= i < j < |ks| ==> ks[i] == ks[j] || KeyBefore(ks[i], ks[j])
  }

  predicate KeysAscending(ks: seq<BucketKey>) {
    forall i, j :: 0 <= i < j < |ks| ==> KeyBefore(ks[i], ks[j])
  }

  /** Keeping first occurrences of a non-decreasing list yields an ascending one. */
  lemma {:induction false} FirstOccurrencesAscending(ks: seq<BucketKey>)
    requires KeysNonDecreasing(ks)
    ensures KeysAscending(FirstOccurrences(ks))
  {
    if ks != [] {
      var n := |ks| - 1;
      assert KeysNonDecreasing(ks[..n]);
      FirstOccurrencesAscending(ks[..n]);
      var before := FirstOccurrences(ks[..n]);
      if ks[n] !in before {
        forall x | x in before ensures KeyBefore(x, ks[n]) {
          var i :| 0 <= i < n && ks[..n][i] == x;
          assert ks[i] == x;
        }
      }
    }
  }

  /** Later days never fall in earlier weeks or months. */
  lemma WeeklyMonthlyKeysNonDecreasing(grouping: Grouping, releases: seq<Release>, days: seq<PlainDate>)
    requires grouping == Weekly || grouping == Monthly
    requires StrictlyAscending(days)
    ensures KeysNonDecreasing(KeysOf(grouping, releases, days))
  {
    var ks := KeysOf(grouping, releases, days);
    forall i, j | 0 <= i < j < |ks| ensures ks[i] == ks[j] || KeyBefore(ks[i], ks[j]) {
      BeforeTotal(days[i], days[j]);
      if grouping == Weekly {
        WeekStartMonotone(days[i], days[j]);
        BeforeTotal(WeekStart(days[i]), WeekStart(days[j]));
      }
    }
  }

  /** Weekly and monthly buckets come out in calendar order, one per
      week or month, and every weekly key is a Sunday. */
  lemma RegroupedOrder(grouping: Grouping, releases: seq<Release>, days: seq<PlainDate>, daily: map<PlainDate, Counter>)
    requires grouping == Weekly || grouping == Monthly
    requires StrictlyAscending(days) && forall d :: d in days ==> d in daily
    ensures KeysAscending(Regrouped(grouping, releases, days, daily).keys)
    ensures grouping == Weekly ==> forall k :: k in Regrouped(grouping, releases, days, daily).keys ==> k.DayKey? && DayOfWeek(k.day) == 7
  {
    WeeklyMonthlyKeysNonDecreasing(grouping, releases, days);
    FirstOccurrencesAscending(KeysOf(grouping, releases, days));
    if grouping == Weekly {
      forall k | k in Regrouped(grouping, releases, days, daily).keys ensures k.DayKey? && DayOfWeek(k.day) == 7 {
        var ks := KeysOf(grouping, releases, days);
        assert k in ks;
        var i :| 0 <= i < |ks| && ks[i] == k;
        WeekStartIsPreviousSunday(days[i]);
      }
    }
  }

  /** Two days share a weekly bucket exactly when they share a Monday-to-Sunday week. */
  lemma SameWeeklyBucket(a: PlainDate, b: PlainDate)
    ensures KeyOf(Weekly, [], a) == KeyOf(Weekly, [], b) <==> WeekIndex(a) == WeekIndex(b)
  {
    SameWeekStart(a, b);
  }

  // ---------------------------------------------------------------------
  // Releases
  // ---------------------------------------------------------------------

  predicate ReleasesAscending(releases: seq<Release>) {
    forall i, j :: 0 <= i < j < |releases| ==> Before(releases[i].date, releases[j].date)
  }

  /** With release dates in ascending order, a day belongs to the latest
      release dated strictly before it, and to `null` when there is none. */
  lemma ReleaseForIsLatestBefore(releases: seq<Release>, d: PlainDate)
    requires ReleasesAscending(releases)
    ensures ReleaseFor(releases, d) == None <==> forall j :: 0 <= j < |releases| ==> !Before(releases[j].date, d)
    ensures forall j :: 0 <= j < |releases| && Before(releases[j].date, d)
                        && (j + 1 == |releases| || !Before(releases[j + 1].date, d))
                        ==> ReleaseFor(releases, d) == Some(releases[j].version)
  {
    var n := ReleasesBefore(releases, d);
    forall j | n <= j < |releases| ensures !Before(releases[j].date, d) {
      if j > n && Before(releases[j].date, d) {
        BeforeTransitive(releases[n].date, releases[j].date, d);
      }
    }
  }

  /** A day that is itself a release date still belongs to the release before. */
  lemma ReleaseDayGoesToPrevious(releases: seq<Release>, j: int)
    requires ReleasesAscending(releases) && 0 <= j < |releases|
    ensures ReleaseFor(releases, releases[j].date) == if j == 0 then None else Some(releases[j - 1].version)
  {
    var d := releases[j].date;
    ReleaseForIsLatestBefore(releases, d);
    BeforeTotal(d, d);
    if j > 0 {
      assert Before(releases[j - 1].date, d);
    } else {
      forall i | 0 <= i < |releases| ensures !Before(releases[i].date, d) {
        if i > 0 {
          BeforeTotal(releases[0].date, releases[i].date);
        }
      }
    }
  }

  // ---------------------------------------------------------------------
  // Labels and totals
  // ---------------------------------------------------------------------

  /** Completing a counter to a superset of its keys changes no reading. */
  lemma ProjectKeepsReadings(c: Counter, labels: set<string>, l: string)
    requires c.Keys <= labels
    ensures Get(Project(c, labels), l) == Get(c, l)
  {
  }

  /** A regrouped bucket has exactly the union of the daily labels as keys. */
  lemma {:induction false} GroupTotalKeys<K>(dates: seq<PlainDate>, counters: map<PlainDate, Counter>,
                                             labels: set<string>, keys: seq<K>, k: K)
    requires |keys| == |dates| && forall d :: d in dates ==> d in counters
    requires k in keys
    ensures GroupTotal(dates, counters, labels, keys, k).Keys == labels
  {
    var n := |dates| - 1;
    if k in keys[..n] {
      GroupTotalKeys(dates[..n], counters, labels, keys[..n], k);
    } else {
      assert keys == keys[..n] + [keys[n]];
      GroupTotalAbsent(dates[..n], counters, labels, keys[..n], k);
    }
  }

  /** The total of label `l` over the daily buckets. */
  function DailySum(days: seq<PlainDate>, daily: map<PlainDate, Counter>, l: string): int
    requires forall d :: d in days ==> d in daily
  {
    if days == [] then 0 else DailySum(days[..|days| - 1], daily, l) + Get(daily[days[|days| - 1]], l)
  }

  /** The total of label `l` over the buckets `ks`. */
  function GroupSum<K(==)>(ks: seq<K>, days: seq<PlainDate>, daily: map<PlainDate, Counter>, labels: set<string>,
                       keys: seq<K>, l: string): int
    requires |keys| == |days| && forall d :: d in days ==> d in daily
  {
    if ks == [] then 0 else Get(GroupTotal(days, daily, labels, keys, ks[0]), l) + GroupSum(ks[1..], days, daily, labels, keys, l)
  }

  /** Adding one more day adds its reading to the one bucket of its key. */
  lemma {:induction false} GroupSumStep<K>(ks: seq<K>, days: seq<PlainDate>, daily: map<PlainDate, Counter>,
                                           labels: set<string>, keys: seq<K>, l: string)
    requires |keys| == |days| > 0 && forall d :: d in days ==> d in daily
    requires Distinct(ks)
    ensures var n := |days| - 1;
      GroupSum(ks, days, daily, labels, keys, l)
      == GroupSum(ks, days[..n], daily, labels, keys[..n], l)
         + (if keys[n] in ks then Get(Project(daily[days[n]], labels), l) else 0)
  {
    if ks != [] {
      assert Distinct(ks[1..]) by {
        forall i, j | 0 <= i < j < |ks[1..]| ensures ks[1..][i] != ks[1..][j] {
          assert ks[1..][i] == ks[i + 1] && ks[1..][j] == ks[j + 1];
        }
      }
      GroupSumStep(ks[1..], days, daily, labels, keys, l);
      if ks[0] == keys[|days| - 1] {
        assert keys[|days| - 1] !in ks[1..] by {
          forall i | 0 <= i < |ks[1..]| ensures ks[1..][i] != ks[0] {
            assert ks[1..][i] == ks[i + 1];
          }
        }
      }
      assert keys[|days| - 1] in ks <==> keys[|days| - 1] == ks[0] || keys[|days| - 1] in ks[1..] by {
        assert ks == [ks[0]] + ks[1..];
      }
    }
  }

  lemma {:induction false} GroupSumEmpty<K>(ks: seq<K>, daily: map<PlainDate, Counter>, labels: set<string>, l: string)
    ensures GroupSum(ks, [], daily, labels, [], l) == 0
  {
    if ks != [] {
      GroupSumEmpty(ks[1..], daily, labels, l);
    }
  }

  /** Summing over a list of distinct keys that covers every day's key
      gives the daily total. */
  lemma {:induction false} GroupSumIsDailySum<K>(ks: seq<K>, days: seq<PlainDate>, daily: map<PlainDate, Counter>,
                                                 labels: set<string>, keys: seq<K>, l: string)
    requires |keys| == |days| && forall d :: d in days ==> d in daily
    requires Distinct(ks) && forall k :: k in keys ==> k in ks
    requires forall d :: d in days ==> daily[d].Keys <= labels
    ensures GroupSum(ks, days, daily, labels, keys, l) == DailySum(days, daily, l)
  {
    if days == [] {
      GroupSumEmpty(ks, daily, labels, l);
    } else {
      var n := |days| - 1;
      GroupSumStep(ks, days, daily, labels, keys, l);
      assert forall k :: k in keys[..n] ==> k in keys;
      GroupSumIsDailySum(ks, days[..n], daily, labels, keys[..n], l);
      ProjectKeepsReadings(daily[days[n]], labels, l);
    }
  }

  /** The total of label `l` over the buckets of a result. */
  function BucketsSum(ks: seq<BucketKey>, counters: map<BucketKey, Counter>, l: string): int {
    if ks == [] then 0 else (if ks[0] in counters then Get(counters[ks[0]], l) else 0) + BucketsSum(ks[1..], counters, l)
  }

  lemma {:induction false} BucketsSumIsGroupSum(ks: seq<BucketKey>, days: seq<PlainDate>, daily: map<PlainDate, Counter>,
                                                labels: set<string>, keys: seq<BucketKey>, l: string,
                                                counters: map<BucketKey, Counter>)
    requires |keys| == |days| && forall d :: d in days ==> d in daily
    requires forall k :: k in ks ==> k in counters && counters[k] == GroupTotal(days, daily, labels, keys, k)
    ensures BucketsSum(ks, counters, l) == GroupSum(ks, days, daily, labels, keys, l)
  {
    if ks != [] {
      BucketsSumIsGroupSum(ks[1..], days, daily, labels, keys, l, counters);
    }
  }

  /** Regrouping neither loses nor double-counts: for every label, the
      weekly, monthly or by-release buckets add up to the daily total, and
      each of them carries every daily label. */
  lemma RegroupedKeepsTotals(grouping: Grouping, releases: seq<Release>, days: seq<PlainDate>,
                             daily: map<PlainDate, Counter>, l: string)
    requires forall d :: d in days ==> d in daily
    ensures var b := Regrouped(grouping, releases, days, daily);
      && BucketsSum(b.keys, b.counters, l) == DailySum(days, daily, l)
      && forall k :: k in b.counters ==> b.counters[k].Keys == LabelsOf(days, daily)
  {
    var labels := LabelsOf(days, daily);
    var keys := KeysOf(grouping, releases, days);
    var b := Regrouped(grouping, releases, days, daily);
    BucketsSumIsGroupSum(b.keys, days, daily, labels, keys, l, b.counters);
    forall d | d in days ensures daily[d].Keys <= labels {
      var i :| 0 <= i < |days| && days[i] == d;
    }
    GroupSumIsDailySum(b.keys, days, daily, labels, keys, l);
    forall k | k in b.counters ensures b.counters[k].Keys == labels {
      GroupTotalKeys(days, daily, labels, keys, k);
    }
  }

  // ---------------------------------------------------------------------
  // Dominance between two labels
  // ---------------------------------------------------------------------

  lemma {:induction false} BucketTotalDominated<R>(records: seq<R>, d: PlainDate, acc: R -> Counter,
                                                   filter: Option<R -> bool>, dateOf: R -> Option<PlainDate>, a: string, b: string)
    requires forall r :: r in records ==> Dominated(acc(r), a, b)
    ensures Dominated(BucketTotal(records, d, acc, filter, dateOf), a, b)
  {
    if records != [] {
      var n := |records| - 1;
      assert forall r :: r in records[..n] ==> r in records;
      BucketTotalDominated(records[..n], d, acc, filter, dateOf, a, b);
    }
  }

  lemma {:induction false} GroupTotalDominated<K>(days: seq<PlainDate>, daily: map<PlainDate, Counter>, labels: set<string>,
                                                  keys: seq<K>, k: K, a: string, b: string)
    requires |keys| == |days| && forall d :: d in days ==> d in daily
    requires forall d :: d in days ==> daily[d].Keys <= labels && Dominated(daily[d], a, b)
    ensures Dominated(GroupTotal(days, daily, labels, keys, k), a, b)
  {
    if days != [] {
      var n := |days| - 1;
      assert forall d :: d in days[..n] ==> d in days;
      GroupTotalDominated(days[..n], daily, labels, keys[..n], k, a, b);
      ProjectKeepsReadings(daily[days[n]], labels, a);
      ProjectKeepsReadings(daily[days[n]], labels, b);
    }
  }

  /** When every record's increments keep label `a` at most label `b`, so does
      every bucket, whatever the grouping. */
  lemma SummaryDominated<R>(records: seq<R>, grouping: Grouping, start: PlainDate, acc: R -> Counter,
                            filter: Option<R -> bool>, dateOf: R -> Option<PlainDate>, releases: seq<Release>,
                            a: string, b: string)
    requires forall r :: r in records ==> Dominated(acc(r), a, b)
    requires SummaryOf(records, grouping, start, acc, filter, dateOf, releases).Success?
    ensures var out := SummaryOf(records, grouping, start, acc, filter, dateOf, releases).value;
      forall k :: k in out.counters ==> Dominated(out.counters[k], a, b)
  {
    var days := BucketDates(records, dateOf, start);
    var daily := DailyTotals(records, days, acc, filter, dateOf);
    forall d | d in days ensures Dominated(daily[d], a, b) {
      BucketTotalDominated(records, d, acc, filter, dateOf, a, b);
    }
    if grouping != Daily {
      RegroupedDominated(grouping, releases, days, daily, a, b);
    }
  }

  /** Regrouping daily buckets that all keep `a` at most `b` gives buckets that do too. */
  lemma RegroupedDominated(grouping: Grouping, releases: seq<Release>, days: seq<PlainDate>,
                           daily: map<PlainDate, Counter>, a: string, b: string)
    requires forall d :: d in days ==> d in daily && Dominated(daily[d], a, b)
    ensures var out := Regrouped(grouping, releases, days, daily);
      forall k :: k in out.counters ==> Dominated(out.counters[k], a, b)
  {
    var labels := LabelsOf(days, daily);
    var keys := KeysOf(grouping, releases, days);
    forall d | d in days ensures daily[d].Keys <= labels {
      var i :| 0 <= i < |days| && days[i] == d;
    }
    forall k | k in FirstOccurrences(keys) ensures Dominated(GroupTotal(days, daily, labels, keys, k), a, b) {
      GroupTotalDominated(days, daily, labels, keys, k, a, b);
    }
  }
}
