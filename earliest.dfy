/** The start date of each chart: `bugSummaries.reduce(...)` keeping the
    summary with the earliest date, and the risk chart's two-month clamp. */
module Earliest {
  import opened Wrappers
  import opened Dates
  import opened DateOrder

  /** The position the reduce ends on after the first `n` records: a record
      replaces the running minimum only when its date is strictly earlier. */
  function EarliestIndex<R>(rs: seq<R>, dateOf: R -> PlainDate, n: nat): (m: nat)
    requires 0 < n <= |rs|
    ensures m < n
    ensures forall j :: 0 <= j < n ==> !Before(dateOf(rs[j]), dateOf(rs[m]))
    ensures forall j :: 0 <= j < m ==> Before(dateOf(rs[m]), dateOf(rs[j]))
  {
    if n == 1 then 0
    else
      var m := EarliestIndex(rs, dateOf, n - 1);
      if Compare(dateOf(rs[n - 1]), dateOf(rs[m])) < 0 then
        assert forall j :: 0 <= j < n - 1 ==> Before(dateOf(rs[n - 1]), dateOf(rs[j])) by {
          forall j | 0 <= j < n - 1 ensures Before(dateOf(rs[n - 1]), dateOf(rs[j])) {
            BeforeTotal(dateOf(rs[j]), dateOf(rs[m]));
            if dateOf(rs[j]) != dateOf(rs[m]) {
              BeforeTransitive(dateOf(rs[n - 1]), dateOf(rs[m]), dateOf(rs[j]));
            }
          }
        }
        n - 1
      else
        BeforeTotal(dateOf(rs[n - 1]), dateOf(rs[m]));
        m
  }

  /** The reduce over a whole list; an empty list makes `reduce` without an
      initial value throw, modelled as `None`. */
  function Earliest<R>(rs: seq<R>, dateOf: R -> PlainDate): (r: Option<nat>)
    ensures r.None? <==> rs == []
    ensures r.Some? ==> (r.value < |rs|
      && (forall j :: 0 <= j < |rs| ==> !Before(dateOf(rs[j]), dateOf(rs[r.value])))
      && (forall j :: 0 <= j < r.value ==> dateOf(rs[j]) != dateOf(rs[r.value])))
  {
    if rs == [] then None
    else
      var m := EarliestIndex(rs, dateOf, |rs|);
      assert forall j :: 0 <= j < m ==> dateOf(rs[j]) != dateOf(rs[m]) by {
        forall j | 0 <= j < m ensures dateOf(rs[j]) != dateOf(rs[m]) {
          BeforeTotal(dateOf(rs[m]), dateOf(rs[j]));
        }
      }
      Some(m)
  }

  /** The earliest date is a lower bound of every record's date and is the date of one of them. */
  lemma EarliestIsMinimum<R>(rs: seq<R>, dateOf: R -> PlainDate)
    requires rs != []
    ensures var m := Earliest(rs, dateOf).value;
      forall j :: 0 <= j < |rs| ==> dateOf(rs[m]) == dateOf(rs[j]) || Before(dateOf(rs[m]), dateOf(rs[j]))
  {
    var m := Earliest(rs, dateOf).value;
    forall j | 0 <= j < |rs| ensures dateOf(rs[m]) == dateOf(rs[j]) || Before(dateOf(rs[m]), dateOf(rs[j])) {
      BeforeTotal(dateOf(rs[m]), dateOf(rs[j]));
    }
  }

  /** The risk chart starts no earlier than two months ago, and otherwise at
      the earliest fix date. */
  function RiskChartStart(earliest: PlainDate, twoMonthsAgo: PlainDate): (d: PlainDate)
    ensures !Before(d, earliest) && !Before(d, twoMonthsAgo)
    ensures d == earliest || d == twoMonthsAgo
  {
    if Compare(twoMonthsAgo, earliest) > 0 then
      CompareAntisymmetric(twoMonthsAgo, earliest);
      twoMonthsAgo
    else
      BeforeTotal(twoMonthsAgo, earliest);
      earliest
  }
}
