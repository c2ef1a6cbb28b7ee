/** The records of the landings report, as the dashboard reads them. */
module Records {
  import opened Wrappers
  import opened Dates

  /** `commit.coverage`: `[lines_added, lines_covered, lines_unknown]`. */
  datatype Coverage = Coverage(added: int, covered: int, unknown: int)

  /** A landed commit: its testing-policy tag (`null` = unknown) and its coverage. */
  datatype Commit = Commit(testing: Option<string>, coverage: Option<Coverage>)

  /** One bug summary of the landings report.  `date` is the fix (landing)
      date and is `null` for unresolved bugs; `riskBand` is "l", "a", "h" or
      `null`; `timeToBug` and `timeToConfirm` are `null` when unknown. */
  datatype BugSummary = BugSummary(
    id: int,
    component: string,
    team: string,
    whiteboard: string,
    creationDate: PlainDate,
    date: Option<PlainDate>,
    metaIds: seq<int>,
    versions: seq<int>,
    types: seq<string>,
    severity: string,
    riskBand: Option<string>,
    regression: bool,
    fixed: bool,
    timeToBug: Option<int>,
    timeToConfirm: Option<int>,
    commits: seq<Commit>)

  /** A bug summary that has a fix date, as left by
      `bugSummaries.filter((bugSummary) => bugSummary.date !== null)`. */
  type FixedBug = b: BugSummary | b.date.Some?
    witness BugSummary(0, "", "", "", Date(1970, 1, 1), Some(Date(1970, 1, 1)),
                       [], [], [], "", None, false, false, None, None, [])
}
