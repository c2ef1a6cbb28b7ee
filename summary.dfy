/** `getSummaryData`: buckets records by day, runs the accumulator on each
    record that lands in a bucket, then regroups the daily buckets by week,
    month or release.  The accumulator is modelled by the increments it
    adds to the bucket's counter. */
module Summary {
  import opened Wrappers
  import opened Dates
  import opened DateOrder
  import opened Counters

  /** The `grouping` argument; any value other than "weekly", "monthly" or
      "by_release" keeps the daily buckets. */
  datatype Grouping = Daily | Weekly | Monthly | ByRelease

  function GroupingOf(s: string): (g: Grouping)
    ensures g == Weekly <==> s == "weekly"
    ensures g == Monthly <==> s == "monthly"
    ensures g == ByRelease <==> s == "by_release"
  {
    if s == "weekly" then Weekly
    else if s == "monthly" then Monthly
    else if s == "by_release" then ByRelease
    else Daily
  }

  /** One entry of the release history, in the order the history lists it. */
  datatype Release = Release(version: string, date: PlainDate)

  /** The key of an output bucket: a day (daily and weekly), a year-month, or
      a release version (`None` for days before every listed release). */
  datatype BucketKey = DayKey(day: PlainDate) | MonthKey(month: YearMonth) | ReleaseKey(version: Option<string>)

  /** An insertion-ordered object of counters. */
  datatype Buckets = Buckets(keys: seq<BucketKey>, counters: map<BucketKey, Counter>)

  /** `getPlainDate(null)` throws when a record's date is `null`. */
  datatype SummaryError = NullDate

  // ---------------------------------------------------------------------
  // Specification
  // ---------------------------------------------------------------------

  predicate Accepts<R>(filter: Option<R -> bool>, r: R) {
    filter.None? || filter.value(r)
  }

  predicate HasNullDate<R>(records: seq<R>, dateOf: R -> Option<PlainDate>) {
    exists i :: 0 <= i < |records| && dateOf(records[i]).None?
  }

  /** The dates that get a daily bucket: every record date strictly after `start`. */
  ghost function BucketDates<R>(records: seq<R>, dateOf: R -> Option<PlainDate>, start: PlainDate): (r: seq<PlainDate>)
    ensures StrictlyAscending(r)
    ensures forall d :: d in r <==> Before(start, d) && exists i :: 0 <= i < |records| && dateOf(records[i]) == Some(d)
  {
    SortedDates(set i | 0 <= i < |records| && dateOf(records[i]).Some? && Before(start, dateOf(records[i]).value)
                      :: dateOf(records[i]).value)
  }

  /** The increments of every record dated `d` that the filter accepts, in
      record order. */
  function BucketTotal<R>(records: seq<R>, d: PlainDate, acc: R -> Counter,
                          filter: Option<R -> bool>, dateOf: R -> Option<PlainDate>): Counter
  {
    if records == [] then map[]
    else
      var n := |records| - 1;
      var before := BucketTotal(records[..n], d, acc, filter, dateOf);
      if dateOf(records[n]) == Some(d) && Accepts(filter, records[n]) then Add(before, acc(records[n])) else before
  }

  /** Every counter key used by the given daily buckets. */
  function LabelsOf(dates: seq<PlainDate>, counters: map<PlainDate, Counter>): (labels: set<string>)
    requires forall d :: d in dates ==> d in counters
    ensures forall l :: l in labels <==> exists i :: 0 <= i < |dates| && l in counters[dates[i]]
  {
    if dates == [] then {}
    else
      var n := |dates| - 1;
      var before := LabelsOf(dates[..n], counters);
      assert forall l :: l in before ==> exists i :: 0 <= i < |dates| && l in counters[dates[i]] by {
        forall l | l in before ensures exists i :: 0 <= i < |dates| && l in counters[dates[i]] {
          var i :| 0 <= i < n && l in counters[dates[..n][i]];
          assert dates[..n][i] == dates[i];
        }
      }
      assert forall l :: (exists i :: 0 <= i < |dates| && l in counters[dates[i]]) ==> l in before || l in counters[dates[n]] by {
        forall l | exists i :: 0 <= i < |dates| && l in counters[dates[i]] ensures l in before || l in counters[dates[n]] {
          var i :| 0 <= i < |dates| && l in counters[dates[i]];
          if i < n { assert dates[..n][i] == dates[i]; }
        }
      }
      before + counters[dates[n]].Keys
  }

  /** The labels of `c` restricted and completed to `labels`: what the inner
      `for (let label of labels)` loop adds to a regrouped bucket. */
  function Project(c: Counter, labels: set<string>): (r: Counter)
    ensures r.Keys == labels
    ensures forall l :: l in labels ==> r[l] == Get(c, l)
  {
    map l | l in labels :: Get(c, l)
  }

  /** The regrouping key of one day. */
  function KeyOf(grouping: Grouping, releases: seq<Release>, d: PlainDate): (k: BucketKey)
    ensures grouping == Daily ==> k == DayKey(d)
    ensures grouping == Weekly ==> k.DayKey? && DayOfWeek(k.day) == 7 && DayNumber(d) - 7 <= DayNumber(k.day) < DayNumber(d)
    ensures grouping == Monthly ==> k.MonthKey? && k.month.year == d.year && k.month.month == d.month
    ensures grouping == ByRelease ==> k.ReleaseKey?
  {
    WeekStartIsPreviousSunday(d);
    match grouping
    case Daily => DayKey(d)
    case Weekly => DayKey(WeekStart(d))
    case Monthly => MonthKey(MonthOf(d))
    case ByRelease => ReleaseKey(ReleaseFor(releases, d))
  }

  function KeysOf(grouping: Grouping, releases: seq<Release>, dates: seq<PlainDate>): (keys: seq<BucketKey>)
    ensures |keys| == |dates|
    ensures forall i :: 0 <= i < |dates| ==> keys[i] == KeyOf(grouping, releases, dates[i])
  {
    seq(|dates|, i requires 0 <= i < |dates| => KeyOf(grouping, releases, dates[i]))
  }

  /** The list without repetitions, in order of first occurrence. */
  function FirstOccurrences<K(==,!new)>(s: seq<K>): (r: seq<K>)
    ensures Distinct(r)
    ensures forall x :: x in r <==> x in s
  {
    if s == [] then []
    else
      var n := |s| - 1;
      var before := FirstOccurrences(s[..n]);
      assert s == s[..n] + [s[n]];
      if s[n] in before then before else before + [s[n]]
  }

  /** The position of the first occurrence of `x` in `s`. */
  function FirstIndex<K(==)>(s: seq<K>, x: K): (i: nat)
    requires x in s
    ensures i < |s| && s[i] == x
    ensures forall j :: 0 <= j < i ==> s[j] != x
  {
    if s[0] == x then 0
    else
      var i := FirstIndex(s[1..], x);
      assert forall j :: 0 <= j < i ==> s[1..][j] == s[j + 1];
      1 + i
  }

  /** A first occurrence within a prefix is the first occurrence in the whole. */
  lemma FirstIndexOfPrefix<K>(s: seq<K>, n: nat, x: K)
    requires n <= |s| && x in s[..n]
    ensures FirstIndex(s, x) == FirstIndex(s[..n], x)
  {
    var i := FirstIndex(s[..n], x);
    var j := FirstIndex(s, x);
    assert s[..n][i] == s[i];
    assert j <= i;
    assert s[..n][j] == s[j];
  }

  /** `r` lists elements of `s` in the order of their first occurrence in `s`. */
  ghost predicate InFirstOccurrenceOrder<K>(s: seq<K>, r: seq<K>) {
    (forall x :: x in r ==> x in s)
    && forall i, j :: 0 <= i < j < |r| ==> FirstIndex(s, r[i]) < FirstIndex(s, r[j])
  }

  /** The list of first occurrences keeps them in the order they first occur. */
  lemma {:induction false} FirstOccurrencesInOrder<K(!new)>(s: seq<K>)
    ensures InFirstOccurrenceOrder(s, FirstOccurrences(s))
  {
    if s != [] {
      var n := |s| - 1;
      var before := FirstOccurrences(s[..n]);
      var r := FirstOccurrences(s);
      FirstOccurrencesInOrder(s[..n]);
      assert InFirstOccurrenceOrder(s[..n], before);
      forall x | x in before ensures FirstIndex(s, x) == FirstIndex(s[..n], x) && FirstIndex(s, x) < n {
        FirstIndexOfPrefix(s, n, x);
      }
      if s[n] !in before {
        assert s[n] !in s[..n];
        assert forall j :: 0 <= j < n ==> s[..n][j] == s[j];
        assert FirstIndex(s, s[n]) == n;
      }
      assert r == if s[n] in before then before else before + [s[n]];
      forall i, j | 0 <= i < j < |r| ensures FirstIndex(s, r[i]) < FirstIndex(s, r[j]) {
        assert r[i] == before[i] && before[i] in before;
        if j < |before| {
          assert r[j] == before[j] && before[j] in before;
          assert FirstIndex(s[..n], before[i]) < FirstIndex(s[..n], before[j]);
        } else {
          assert r[j] == s[n] && s[n] !in before;
          assert FirstIndex(s, before[i]) < n;
        }
      }
    }
  }

  /** The sum, over the days `dates[i]` with key `keys[i] == k`, of their
      counters completed to `labels`. */
  function GroupTotal<K(==)>(dates: seq<PlainDate>, counters: map<PlainDate, Counter>, labels: set<string>,
                         keys: seq<K>, k: K): Counter
    requires |keys| == |dates| && forall d :: d in dates ==> d in counters
  {
    if dates == [] then map[]
    else
      var n := |dates| - 1;
      var before := GroupTotal(dates[..n], counters, labels, keys[..n], k);
      if keys[n] == k then Add(before, Project(counters[dates[n]], labels)) else before
  }

  /** Length of the leading run of releases dated strictly before `d`. */
  function ReleasesBefore(releases: seq<Release>, d: PlainDate): (n: nat)
    ensures n <= |releases|
    ensures forall j :: 0 <= j < n ==> Before(releases[j].date, d)
    ensures n < |releases| ==> !Before(releases[n].date, d)
  {
    if releases == [] || !Before(releases[0].date, d) then 0
    else 1 + ReleasesBefore(releases[1..], d)
  }

  /** The by-release key of a day: the release reached when the scan of the
      history stops at the first release dated on or after the day. */
  function ReleaseFor(releases: seq<Release>, d: PlainDate): (r: Option<string>)
    ensures r.None? <==> |releases| == 0 || !Before(releases[0].date, d)
    ensures r.Some? ==> exists j :: 0 <= j < |releases| && Before(releases[j].date, d) && releases[j].version == r.value
  {
    var n := ReleasesBefore(releases, d);
    if n == 0 then None else Some(releases[n - 1].version)
  }

  /** The daily counters: one per bucket date. */
  function DailyTotals<R>(records: seq<R>, days: seq<PlainDate>, acc: R -> Counter,
                          filter: Option<R -> bool>, dateOf: R -> Option<PlainDate>): map<PlainDate, Counter>
  {
    map d | d in days :: BucketTotal(records, d, acc, filter, dateOf)
  }

  /** The result of the "daily" grouping: the daily buckets as they are. */
  function DailyBuckets(days: seq<PlainDate>, daily: map<PlainDate, Counter>): Buckets
    requires forall d :: d in days ==> d in daily
  {
    Buckets(KeysOf(Daily, [], days), map d | d in days :: DayKey(d) := daily[d])
  }

  /** The result of the other groupings. */
  function Regrouped(grouping: Grouping, releases: seq<Release>, days: seq<PlainDate>, daily: map<PlainDate, Counter>): (r: Buckets)
    requires forall d :: d in days ==> d in daily
    ensures Distinct(r.keys)
    ensures forall k :: k in r.keys <==> exists i :: 0 <= i < |days| && KeyOf(grouping, releases, days[i]) == k
    ensures forall k :: k in r.counters <==> k in r.keys
  {
    var labels := LabelsOf(days, daily);
    var keys := KeysOf(grouping, releases, days);
    var order := FirstOccurrences(keys);
    Buckets(order, map k | k in order :: GroupTotal(days, daily, labels, keys, k))
  }

  /** What `getSummaryData` returns. */
  ghost function SummaryOf<R>(records: seq<R>, grouping: Grouping, start: PlainDate, acc: R -> Counter,
                              filter: Option<R -> bool>, dateOf: R -> Option<PlainDate>,
                              releases: seq<Release>): (r: Result<Buckets, SummaryError>)
    ensures r.Failure? <==> HasNullDate(records, dateOf)
    ensures r.Success? ==> Distinct(r.value.keys)
    ensures r.Success? ==> forall k :: k in r.value.counters <==> k in r.value.keys
    ensures r.Success? && grouping == Daily ==>
              forall d: PlainDate :: DayKey(d) in r.value.keys <==> Before(start, d) && exists i :: 0 <= i < |records| && dateOf(records[i]) == Some(d)
  {
    if HasNullDate(records, dateOf) then Failure(NullDate)
    else
      var days := BucketDates(records, dateOf, start);
      var daily := DailyTotals(records, days, acc, filter, dateOf);
      if grouping == Daily then Success(DailyBuckets(days, daily))
      else Success(Regrouped(grouping, releases, days, daily))
  }

  // ---------------------------------------------------------------------
  // The algorithm
  // ---------------------------------------------------------------------

  /** `[...new Set(bugSummaries.map(dateGetter))]`, failing on a `null` date. */
  method CollectDates<R>(records: seq<R>, dateOf: R -> Option<PlainDate>) returns (r: Result<seq<PlainDate>, SummaryError>)
    ensures r.Failure? <==> HasNullDate(records, dateOf)
    ensures r.Success? ==> Distinct(r.value)
    ensures r.Success? ==> forall d :: d in r.value <==> exists i :: 0 <= i < |records| && dateOf(records[i]) == Some(d)
  {
    var seen: seq<PlainDate> := [];
    var i := 0;
    while i < |records|
      invariant 0 <= i <= |records|
      invariant forall j :: 0 <= j < i ==> dateOf(records[j]).Some?
      invariant Distinct(seen)
      invariant forall d :: d in seen <==> exists j :: 0 <= j < i && dateOf(records[j]) == Some(d)
    {
      match dateOf(records[i]) {
        case None =>
          return Failure(NullDate);
        case Some(d) =>
          if d !in seen {
            seen := seen + [d];
          }
      }
      i := i + 1;
    }
    return Success(seen);
  }

  /** The first loop over the sorted dates: one empty counter for each date
      strictly after `start` (`compare(date, startDate) < 1` skips the rest). */
  method CreateDailyBuckets(sorted: seq<PlainDate>, start: PlainDate) returns (days: seq<PlainDate>, daily: map<PlainDate, Counter>)
    requires StrictlyAscending(sorted)
    ensures StrictlyAscending(days)
    ensures forall d :: d in days <==> d in sorted && Before(start, d)
    ensures daily == map d | d in days :: map[]
  {
    days, daily := [], map[];
    var i := 0;
    while i < |sorted|
      invariant 0 <= i <= |sorted|
      invariant StrictlyAscending(days)
      invariant forall d :: d in days <==> d in sorted[..i] && Before(start, d)
      invariant daily == map d | d in days :: map[]
    {
      var date := sorted[i];
      assert sorted[..i + 1] == sorted[..i] + [date];
      if Compare(date, start) < 1 {
        i := i + 1;
        continue;
      }
      CompareAntisymmetric(date, start);
      AppendNextAscending(sorted, i, days);
      days := days + [date];
      daily := daily[date := map[]];
      i := i + 1;
    }
    assert sorted[..i] == sorted;
  }

  /** A date taken from a strictly ascending list comes after every date taken earlier. */
  lemma AppendNextAscending(sorted: seq<PlainDate>, i: nat, days: seq<PlainDate>)
    requires StrictlyAscending(sorted) && i < |sorted|
    requires StrictlyAscending(days)
    requires forall d :: d in days ==> d in sorted[..i]
    ensures StrictlyAscending(days + [sorted[i]])
  {
    forall d | d in days ensures Before(d, sorted[i]) {
      var j :| 0 <= j < i && sorted[..i][j] == d;
    }
  }

  /** The second loop: feed each record that has a bucket and passes the
      filter to the accumulator. */
  method Accumulate<R>(records: seq<R>, daily: map<PlainDate, Counter>, acc: R -> Counter,
                       filter: Option<R -> bool>, dateOf: R -> Option<PlainDate>)
    returns (counters: map<PlainDate, Counter>)
    requires forall d :: d in daily ==> daily[d] == map[]
    ensures counters.Keys == daily.Keys
    ensures forall d :: d in counters ==> counters[d] == BucketTotal(records, d, acc, filter, dateOf)
  {
    counters := daily;
    var i := 0;
    while i < |records|
      invariant 0 <= i <= |records|
      invariant counters.Keys == daily.Keys
      invariant forall d :: d in counters ==> counters[d] == BucketTotal(records[..i], d, acc, filter, dateOf)
    {
      var r := records[i];
      BucketTotalStep(records, i, acc, filter, dateOf);
      match dateOf(r) {
        case None =>
        case Some(d) =>
          if d in counters && Accepts(filter, r) {
            counters := counters[d := Add(counters[d], acc(r))];
          }
      }
      i := i + 1;
    }
    assert records[..i] == records;
  }

  lemma BucketTotalStep<R>(records: seq<R>, i: nat, acc: R -> Counter,
                            filter: Option<R -> bool>, dateOf: R -> Option<PlainDate>)
    requires i < |records|
    ensures forall d ::
      BucketTotal(records[..i + 1], d, acc, filter, dateOf) ==
        (if dateOf(records[i]) == Some(d) && Accepts(filter, records[i])
         then Add(BucketTotal(records[..i], d, acc, filter, dateOf), acc(records[i]))
         else BucketTotal(records[..i], d, acc, filter, dateOf))
  {
    assert records[..i + 1][..i] == records[..i];
  }

  /** `new Set(Object.values(dailyData).flatMap((data) => Object.keys(data)))`. */
  method CollectLabels(days: seq<PlainDate>, counters: map<PlainDate, Counter>) returns (labels: set<string>)
    requires forall d :: d in days ==> d in counters
    ensures labels == LabelsOf(days, counters)
  {
    labels := {};
    var i := 0;
    while i < |days|
      invariant 0 <= i <= |days|
      invariant labels == LabelsOf(days[..i], counters)
    {
      LabelsOfStep(days, counters, i);
      labels := labels + counters[days[i]].Keys;
      i := i + 1;
    }
    assert days[..i] == days;
  }

  lemma LabelsOfStep(days: seq<PlainDate>, counters: map<PlainDate, Counter>, i: nat)
    requires i < |days|
    requires forall d :: d in days ==> d in counters
    ensures LabelsOf(days[..i + 1], counters) == LabelsOf(days[..i], counters) + counters[days[i]].Keys
  {
    assert days[..i + 1][..i] == days[..i];
  }

  /** `for (let label of labels) bucket[label] += dailyData[daily][label];` */
  method AddLabels(bucket: Counter, day: Counter, labels: set<string>) returns (r: Counter)
    ensures r == Add(bucket, Project(day, labels))
  {
    r := bucket;
    var rest := labels;
    AddProjectEmpty(bucket, day);
    while rest != {}
      invariant rest <= labels
      invariant r == Add(bucket, Project(day, labels - rest))
      decreases |rest|
    {
      var l :| l in rest;
      AddLabelsStep(bucket, day, labels, rest, l);
      r := Increment(r, l, Get(day, l));
      rest := rest - {l};
    }
    assert labels - rest == labels;
  }

  lemma AddLabelsStep(bucket: Counter, day: Counter, labels: set<string>, rest: set<string>, l: string)
    requires l in rest && rest <= labels
    ensures Increment(Add(bucket, Project(day, labels - rest)), l, Get(day, l))
         == Add(bucket, Project(day, labels - (rest - {l})))
  {
    AddProjectStep(bucket, day, labels - rest, l);
    assert labels - (rest - {l}) == (labels - rest) + {l};
  }

  lemma AddProjectEmpty(bucket: Counter, day: Counter)
    ensures Add(bucket, Project(day, {})) == bucket
  {
    assert Add(bucket, Project(day, {})).Keys == bucket.Keys;
  }

  /** Completing one more label is one more `+=`. */
  lemma AddProjectStep(bucket: Counter, day: Counter, done: set<string>, l: string)
    requires l !in done
    ensures Add(bucket, Project(day, done + {l})) == Increment(Add(bucket, Project(day, done)), l, Get(day, l))
  {
    var a := Add(bucket, Project(day, done + {l}));
    var b := Increment(Add(bucket, Project(day, done)), l, Get(day, l));
    assert a.Keys == b.Keys;
    forall k | k in a ensures a[k] == b[k] {
      assert a[k] == Get(a, k) && b[k] == Get(b, k);
      var p, q := Project(day, done + {l}), Project(day, done);
      if k == l {
        assert Get(p, k) == Get(day, k);
      } else {
        assert Get(p, k) == Get(q, k);
      }
    }
  }

  /** `for (const release of releases) { if (compare(day, date) < 1) break; version = ...; }` */
  method FindRelease(releases: seq<Release>, d: PlainDate) returns (version: Option<string>)
    ensures version == ReleaseFor(releases, d)
  {
    version := None;
    var i := 0;
    while i < |releases|
      invariant 0 <= i <= |releases|
      invariant forall j :: 0 <= j < i ==> Before(releases[j].date, d)
      invariant version == if i == 0 then None else Some(releases[i - 1].version)
    {
      if Compare(d, releases[i].date) < 1 {
        break;
      }
      CompareAntisymmetric(d, releases[i].date);
      version := Some(releases[i].version);
      i := i + 1;
    }
    ReleasesBeforeIsRun(releases, d, i);
  }

  lemma {:induction false} ReleasesBeforeIsRun(releases: seq<Release>, d: PlainDate, i: nat)
    requires i <= |releases|
    requires forall j :: 0 <= j < i ==> Before(releases[j].date, d)
    requires i < |releases| ==> !Before(releases[i].date, d)
    ensures ReleasesBefore(releases, d) == i
  {
    if i > 0 {
      ReleasesBeforeIsRun(releases[1..], d, i - 1);
    }
  }

  /** The regrouping key of each daily date, in daily order. */
  method ComputeKeys(grouping: Grouping, releases: seq<Release>, days: seq<PlainDate>) returns (keys: seq<BucketKey>)
    ensures keys == KeysOf(grouping, releases, days)
  {
    keys := [];
    var i := 0;
    while i < |days|
      invariant 0 <= i <= |days|
      invariant keys == KeysOf(grouping, releases, days[..i])
    {
      var k: BucketKey;
      match grouping {
        case Daily => k := DayKey(days[i]);
        case Weekly => k := DayKey(WeekStart(days[i]));
        case Monthly => k := MonthKey(MonthOf(days[i]));
        case ByRelease =>
          var version := FindRelease(releases, days[i]);
          k := ReleaseKey(version);
      }
      keys := keys + [k];
      i := i + 1;
    }
    assert days[..i] == days;
  }

  /** A key absent from `keys` collects nothing. */
  lemma {:induction false} GroupTotalAbsent<K>(dates: seq<PlainDate>, counters: map<PlainDate, Counter>,
                                               labels: set<string>, keys: seq<K>, k: K)
    requires |keys| == |dates| && forall d :: d in dates ==> d in counters
    requires k !in keys
    ensures GroupTotal(dates, counters, labels, keys, k) == map[]
  {
    if dates != [] {
      var n := |dates| - 1;
      assert forall x :: x in keys[..n] ==> x in keys;
      GroupTotalAbsent(dates[..n], counters, labels, keys[..n], k);
    }
  }

  /** The weekly, monthly and by-release loop: one bucket per key, in order
      of first appearance, each summing the completed daily counters. */
  method Regroup<K(==,!new)>(days: seq<PlainDate>, counters: map<PlainDate, Counter>, labels: set<string>, keys: seq<K>)
    returns (order: seq<K>, groups: map<K, Counter>)
    requires |keys| == |days| && forall d :: d in days ==> d in counters
    ensures order == FirstOccurrences(keys)
    ensures groups.Keys == set k | k in order
    ensures forall k :: k in groups ==> groups[k] == GroupTotal(days, counters, labels, keys, k)
  {
    order, groups := [], map[];
    var i := 0;
    while i < |days|
      invariant 0 <= i <= |days|
      invariant order == FirstOccurrences(keys[..i])
      invariant groups.Keys == set k | k in order
      invariant forall k :: k in groups ==> groups[k] == GroupTotal(days[..i], counters, labels, keys[..i], k)
    {
      var k := keys[i];
      assert days[..i + 1][..i] == days[..i];
      assert keys[..i + 1][..i] == keys[..i];
      assert keys[..i + 1] == keys[..i] + [k];
      if k !in groups {
        GroupTotalAbsent(days[..i], counters, labels, keys[..i], k);
        order := order + [k];
        groups := groups[k := map[]];
      }
      var updated := AddLabels(groups[k], counters[days[i]], labels);
      groups := groups[k := updated];
      i := i + 1;
    }
    assert days[..i] == days;
    assert keys[..i] == keys;
  }

  /** `getSummaryData(bugSummaries, grouping, startDate, counter, filter,
      dateGetter)`, with the release history of the "by_release" grouping
      passed in. */
  method GetSummaryData<R>(records: seq<R>, grouping: Grouping, start: PlainDate, acc: R -> Counter,
                           filter: Option<R -> bool>, dateOf: R -> Option<PlainDate>, releases: seq<Release>)
    returns (result: Result<Buckets, SummaryError>)
    ensures result == SummaryOf(records, grouping, start, acc, filter, dateOf, releases)
  {
    var days, empty := BucketDays(records, dateOf, start);
    if days.Failure? {
      return Failure(NullDate);
    }
    var daily := Accumulate(records, empty, acc, filter, dateOf);
    AccumulatedDailyTotals(records, days.value, empty, daily, acc, filter, dateOf);
    if grouping == Daily {
      return Success(DailyBuckets(days.value, daily));
    }
    var buckets := RegroupDaily(grouping, releases, days.value, daily);
    return Success(buckets);
  }

  lemma AccumulatedDailyTotals<R>(records: seq<R>, days: seq<PlainDate>, empty: map<PlainDate, Counter>,
                                  daily: map<PlainDate, Counter>, acc: R -> Counter,
                                  filter: Option<R -> bool>, dateOf: R -> Option<PlainDate>)
    requires empty == map d | d in days :: map[]
    requires daily.Keys == empty.Keys
    requires forall d :: d in daily ==> daily[d] == BucketTotal(records, d, acc, filter, dateOf)
    ensures daily == DailyTotals(records, days, acc, filter, dateOf)
  {
  }

  /** The sorted dates that get a bucket with their empty counters, or the failure of a `null` date. */
  method BucketDays<R>(records: seq<R>, dateOf: R -> Option<PlainDate>, start: PlainDate)
    returns (days: Result<seq<PlainDate>, SummaryError>, empty: map<PlainDate, Counter>)
    ensures days.Failure? <==> HasNullDate(records, dateOf)
    ensures days.Success? ==> days.value == BucketDates(records, dateOf, start)
    ensures days.Success? ==> empty == map d | d in days.value :: map[]
  {
    var collected := CollectDates(records, dateOf);
    if collected.Failure? {
      return Failure(NullDate), map[];
    }
    var sorted := SortDistinctDates(collected.value);
    var kept;
    kept, empty := CreateDailyBuckets(sorted, start);
    AscendingUnique(kept, BucketDates(records, dateOf, start));
    days := Success(kept);
  }

  /** The weekly, monthly and by-release branch of `getSummaryData`. */
  method RegroupDaily(grouping: Grouping, releases: seq<Release>, days: seq<PlainDate>, daily: map<PlainDate, Counter>)
    returns (buckets: Buckets)
    requires forall d :: d in days ==> d in daily
    ensures buckets == Regrouped(grouping, releases, days, daily)
  {
    var labels := CollectLabels(days, daily);
    var keys := ComputeKeys(grouping, releases, days);
    var order, groups := Regroup(days, daily, labels, keys);
    RegroupedFrom(grouping, releases, days, daily, order, groups);
    buckets := Buckets(order, groups);
  }

  lemma RegroupedFrom(grouping: Grouping, releases: seq<Release>, days: seq<PlainDate>, daily: map<PlainDate, Counter>,
                      order: seq<BucketKey>, groups: map<BucketKey, Counter>)
    requires forall d :: d in days ==> d in daily
    requires order == FirstOccurrences(KeysOf(grouping, releases, days))
    requires groups.Keys == set k | k in order
    requires forall k :: k in groups ==>
      groups[k] == GroupTotal(days, daily, LabelsOf(days, daily), KeysOf(grouping, releases, days), k)
    ensures Buckets(order, groups) == Regrouped(grouping, releases, days, daily)
  {
    var keys := KeysOf(grouping, releases, days);
    var m := map k | k in order :: GroupTotal(days, daily, LabelsOf(days, daily), keys, k);
    assert m.Keys == groups.Keys;
    assert m == groups;
  }
}
