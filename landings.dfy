/** The landings report as the dashboard loads it: an object from fix dates
    to the bug summaries fixed that day, re-keyed in ascending date order,
    then flattened into one list for the filter. */
module Landings {
  import opened Dates
  import opened DateOrder
  import opened Records

  type Report = map<PlainDate, seq<BugSummary>>

  /** Collects the report's dates (`for (let date in json)`) and sorts them
      with `Temporal.PlainDate.compare`. */
  method OrderedDates(report: Report) returns (dates: seq<PlainDate>)
    ensures dates == SortedDates(report.Keys)
    ensures StrictlyAscending(dates)
    ensures forall d :: d in dates <==> d in report
  {
    var keys: seq<PlainDate> := [];
    var rest := report.Keys;
    while rest != {}
      invariant rest <= report.Keys
      invariant Distinct(keys)
      invariant forall d :: d in keys <==> d in report.Keys - rest
      decreases |rest|
    {
      var d :| d in rest;
      assert d !in keys;
      keys := keys + [d];
      rest := rest - {d};
    }
    dates := SortDistinctDates(keys);
    AscendingUnique(dates, SortedDates(report.Keys));
  }

  /** `[].concat.apply([], Object.values(data))`: the records of each date in turn. */
  function Flatten(dates: seq<PlainDate>, report: Report): (r: seq<BugSummary>)
    requires forall d :: d in dates ==> d in report
    ensures forall b :: b in r <==> exists d :: d in dates && b in report[d]
  {
    if dates == [] then [] else report[dates[0]] + Flatten(dates[1..], report)
  }

  /** Flattening is concatenation: the records of one date keep their order
      and multiplicity, and the dates' runs follow the order of the dates. */
  lemma {:induction false} FlattenConcat(d1: seq<PlainDate>, d2: seq<PlainDate>, report: Report)
    requires forall d :: d in d1 + d2 ==> d in report
    ensures Flatten(d1 + d2, report) == Flatten(d1, report) + Flatten(d2, report)
    ensures d1 == [] && |d2| == 1 ==> Flatten(d2, report) == report[d2[0]]
  {
    if d1 != [] {
      assert (d1 + d2)[1..] == d1[1..] + d2;
      FlattenConcat(d1[1..], d2, report);
    } else {
      assert d1 + d2 == d2;
      if |d2| == 1 {
        assert d2[1..] == [];
      }
    }
  }

  /** The date each flattened record was listed under, position by position. */
  function FlattenDates(dates: seq<PlainDate>, report: Report): seq<PlainDate>
    requires forall d :: d in dates ==> d in report
  {
    if dates == [] then [] else seq(|report[dates[0]]|, _ => dates[0]) + FlattenDates(dates[1..], report)
  }

  /** Every flattened record comes from the date listed beside it, and the
      flattened list holds every record of every listed date. */
  lemma {:induction false} FlattenMembers(dates: seq<PlainDate>, report: Report)
    requires forall d :: d in dates ==> d in report
    ensures |FlattenDates(dates, report)| == |Flatten(dates, report)|
    ensures forall i :: 0 <= i < |Flatten(dates, report)| ==>
              FlattenDates(dates, report)[i] in dates && Flatten(dates, report)[i] in report[FlattenDates(dates, report)[i]]
    ensures forall b :: b in Flatten(dates, report) <==> exists d :: d in dates && b in report[d]
  {
    if dates != [] {
      FlattenMembers(dates[1..], report);
      var head := report[dates[0]];
      var flat, tags := Flatten(dates, report), FlattenDates(dates, report);
      forall i | 0 <= i < |flat| ensures tags[i] in dates && flat[i] in report[tags[i]] {
        if i >= |head| {
          assert flat[i] == Flatten(dates[1..], report)[i - |head|];
          assert tags[i] == FlattenDates(dates[1..], report)[i - |head|];
        }
      }
      forall b | exists d :: d in dates && b in report[d] ensures b in flat {
        var d :| d in dates && b in report[d];
        if d != dates[0] {
          assert d in dates[1..];
        }
      }
    }
  }

  /** With ascending dates, a record listed under an earlier date comes first. */
  lemma {:induction false} FlattenIsDateOrdered(dates: seq<PlainDate>, report: Report)
    requires forall d :: d in dates ==> d in report
    requires StrictlyAscending(dates)
    ensures forall i, j :: 0 <= i < j < |FlattenDates(dates, report)| ==>
              !Before(FlattenDates(dates, report)[j], FlattenDates(dates, report)[i])
  {
    if dates != [] {
      FlattenIsDateOrdered(dates[1..], report);
      FlattenMembers(dates[1..], report);
      var n := |report[dates[0]]|;
      var tags := FlattenDates(dates, report);
      var tail := FlattenDates(dates[1..], report);
      forall i, j | 0 <= i < j < |tags| ensures !Before(tags[j], tags[i]) {
        if j < n {
          BeforeTotal(tags[i], tags[j]);
        } else if i < n {
          assert tags[j] == tail[j - n] && tail[j - n] in dates[1..];
          BeforeTotal(dates[0], tags[j]);
        } else {
          assert tags[i] == tail[i - n] && tags[j] == tail[j - n];
        }
      }
    }
  }

  /** The list the filter starts from. */
  ghost function LandingsList(report: Report): seq<BugSummary> {
    Flatten(SortedDates(report.Keys), report)
  }

  /** The list holds exactly the report's records, grouped by ascending date. */
  lemma LandingsListContents(report: Report)
    ensures forall b :: b in LandingsList(report) <==> exists d :: d in report && b in report[d]
    ensures var tags := FlattenDates(SortedDates(report.Keys), report);
      |tags| == |LandingsList(report)|
      && (forall i :: 0 <= i < |tags| ==> tags[i] in report && LandingsList(report)[i] in report[tags[i]])
      && forall i, j :: 0 <= i < j < |tags| ==> !Before(tags[j], tags[i])
  {
    FlattenMembers(SortedDates(report.Keys), report);
    FlattenIsDateOrdered(SortedDates(report.Keys), report);
  }
}
