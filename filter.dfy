/** `getFilteredBugSummaries`: the flattened landings run through a chain of
    order-preserving filters, one for each option that is set (truthy in
    the JavaScript sense). */
module Filter {
  import opened Wrappers
  import opened Dates
  import opened Records
  import opened Options
  import opened Chain

  // ---------------------------------------------------------------------
  // `Number(text)` on decimal text
  // ---------------------------------------------------------------------

  predicate AllDigits(s: string) {
    forall i :: 0 <= i < |s| ==> IsDigit(s[i])
  }

  function DigitsValue(s: string): (n: nat)
    requires AllDigits(s)
  {
    if s == [] then 0 else DigitsValue(s[..|s| - 1]) * 10 + DigitValue(s[|s| - 1])
  }

  /** `Number(s)`: the empty text is 0, decimal digits are their value, and
      any other text is `NaN` (`None`), which equals no number. */
  function NumberOf(s: string): (r: Option<int>)
    ensures AllDigits(s) <==> r.Some?
    ensures r.Some? ==> r.value >= 0
  {
    if AllDigits(s) then Some(DigitsValue(s)) else None
  }

  /** The decimal text of a natural number. */
  function DecimalText(n: nat): (s: string)
    ensures AllDigits(s) && s != []
  {
    if n < 10 then [DigitChar(n)] else DecimalText(n / 10) + [DigitChar(n % 10)]
  }

  /** `Number` reads back the number a decimal text was written from. */
  lemma {:induction false} NumberOfDecimalText(n: nat)
    ensures NumberOf(DecimalText(n)) == Some(n)
  {
    if n >= 10 {
      NumberOfDecimalText(n / 10);
      var s := DecimalText(n);
      assert s[..|s| - 1] == DecimalText(n / 10);
      assert DigitValue(s[|s| - 1]) == n % 10;
      assert DigitsValue(s) == DigitsValue(DecimalText(n / 10)) * 10 + n % 10;
    }
  }

  // ---------------------------------------------------------------------
  // The filter chain
  // ---------------------------------------------------------------------

  /** One `bugSummaries.filter(...)` of the chain, with the option values it reads. */
  datatype Stage =
    | MetaBug(id: Option<int>)
    | FixFrom(fixFrom: PlainDate)
    | FixUntil(fixUntil: PlainDate)
    | CreatedFrom(createdFrom: PlainDate)
    | CreatedUntil(createdUntil: PlainDate)
    | TestingTagsIn(tags: seq<string>, includeNotAvailable: bool)
    | ComponentsIn(components: seq<string>)
    | TeamsIn(teams: seq<string>)
    | WhiteBoardHas(text: string)
    | VersionsIn(versions: seq<string>, includeUnfixed: bool)
    | TypesIn(types: seq<string>)
    | SeveritiesIn(severities: seq<string>)
    | RiskIn(bands: seq<string>)

  /** `s.includes(w)`. */
  predicate Contains(s: string, w: string) {
    exists i :: 0 <= i <= |s| && IsPrefix(w, s[i..])
  }

  predicate IsPrefix(w: string, s: string) {
    |w| <= |s| && s[..|w|] == w
  }

  /** `!commit.testing`. */
  predicate UntaggedCommit(c: Commit) {
    c.testing.None? || c.testing == Some("")
  }

  /** The predicate each stage keeps a record by. */
  predicate Holds(stage: Stage, b: BugSummary)
    ensures Holds(stage, b) && (stage.FixFrom? || stage.FixUntil?) ==> b.date.Some?
    ensures stage.MetaBug? && stage.id.None? ==> !Holds(stage, b)
    ensures stage.ComponentsIn? && stage.components == [] ==> !Holds(stage, b)
    ensures stage.TypesIn? && stage.types == [] ==> !Holds(stage, b)
  {
    match stage
    case MetaBug(id) => id.Some? && id.value in b.metaIds
    case FixFrom(d) => b.date.Some? && Compare(b.date.value, d) >= 0
    case FixUntil(d) => b.date.Some? && Compare(b.date.value, d) <= 0
    case CreatedFrom(d) => Compare(b.creationDate, d) >= 0
    case CreatedUntil(d) => Compare(b.creationDate, d) <= 0
    case TestingTagsIn(tags, includeNotAvailable) =>
      (includeNotAvailable && |b.commits| == 0)
      || exists c :: c in b.commits && (("unknown" in tags && UntaggedCommit(c)) || (c.testing.Some? && c.testing.value in tags))
    case ComponentsIn(cs) => b.component in cs
    case TeamsIn(ts) => b.team in ts
    case WhiteBoardHas(w) => Contains(b.whiteboard, w)
    case VersionsIn(vs, includeUnfixed) =>
      (includeUnfixed && |b.versions| == 0)
      || exists v :: v in vs && NumberOf(v).Some? && NumberOf(v).value in b.versions
    case TypesIn(ts) => exists t :: t in b.types && t in ts
    case SeveritiesIn(ss) => b.severity in ss
    case RiskIn(bands) => ("N/A" in bands && b.riskBand.None?) || (b.riskBand.Some? && b.riskBand.value in bands)
  }

  /** The exceptions the chain can raise before filtering anything. */
  datatype FilterError =
    | InvalidDate(option: OptionName)   // `Temporal.PlainDate.from` rejects the text
    | NullReleaseVersions               // `releaseVersions.includes` on `null`


  /** A date bound: nothing when the option is unset, its date when it parses. */
  function DateBound(name: OptionName, v: OptionValue): (r: Result<Option<PlainDate>, FilterError>)
    ensures r.Failure? <==> Truthy(v) && v.Text? && Parse(v.text).None?
    ensures r.Failure? ==> r.error == InvalidDate(name)
    ensures r.Success? && r.value.Some? ==> v.Text? && Truthy(v) && Parse(v.text) == r.value
    ensures Truthy(v) && v.Text? && Parse(v.text).Some? ==> r == Success(Parse(v.text))
    ensures !(Truthy(v) && v.Text?) ==> r == Success(None)
  {
    if !Truthy(v) || !v.Text? then Success(None)
    else match Parse(v.text)
      case None => Failure(InvalidDate(name))
      case Some(d) => Success(Some(d))
  }

  /** The four date stages, or the exception of the first date that does not parse. */
  function DateStages(opts: map<OptionName, OptionValue>): (r: Result<seq<Stage>, FilterError>)
    requires WellTyped(opts)
    ensures r.Failure? <==> DateBound(FixStartDate, opts[FixStartDate]).Failure?
                            || DateBound(FixEndDate, opts[FixEndDate]).Failure?
                            || DateBound(CreateStartDate, opts[CreateStartDate]).Failure?
                            || DateBound(CreateEndDate, opts[CreateEndDate]).Failure?
    ensures DateBound(FixStartDate, opts[FixStartDate]).Failure? ==> r == Failure(InvalidDate(FixStartDate))
    ensures r.Failure? ==> r.error.InvalidDate?
    ensures r.Success? ==> |r.value| <= 4
    ensures r.Success? ==> forall d :: FixFrom(d) in r.value <==> DateBound(FixStartDate, opts[FixStartDate]) == Success(Some(d))
    ensures r.Success? ==> forall d :: FixUntil(d) in r.value <==> DateBound(FixEndDate, opts[FixEndDate]) == Success(Some(d))
    ensures r.Success? ==> forall d :: CreatedFrom(d) in r.value <==> DateBound(CreateStartDate, opts[CreateStartDate]) == Success(Some(d))
    ensures r.Success? ==> forall d :: CreatedUntil(d) in r.value <==> DateBound(CreateEndDate, opts[CreateEndDate]) == Success(Some(d))
    ensures r.Success? ==> forall s :: s in r.value ==> s.FixFrom? || s.FixUntil? || s.CreatedFrom? || s.CreatedUntil?
  {
    var fixFrom :- DateBound(FixStartDate, opts[FixStartDate]);
    var fixUntil :- DateBound(FixEndDate, opts[FixEndDate]);
    var createdFrom :- DateBound(CreateStartDate, opts[CreateStartDate]);
    var createdUntil :- DateBound(CreateEndDate, opts[CreateEndDate]);
    Success(BoundStages(fixFrom, fixUntil, createdFrom, createdUntil))
  }

  /** The date stage `stage` is switched on: its option is set and parses to the stage's date. */
  predicate DateStageOn(opts: map<OptionName, OptionValue>, stage: Stage)
    requires WellTyped(opts)
  {
    match stage
    case FixFrom(d) => DateBound(FixStartDate, opts[FixStartDate]) == Success(Some(d))
    case FixUntil(d) => DateBound(FixEndDate, opts[FixEndDate]) == Success(Some(d))
    case CreatedFrom(d) => DateBound(CreateStartDate, opts[CreateStartDate]) == Success(Some(d))
    case CreatedUntil(d) => DateBound(CreateEndDate, opts[CreateEndDate]) == Success(Some(d))
    case _ => false
  }

  /** The date stages are exactly those whose option is set and parses. */
  lemma DateStagesSwitchedOn(opts: map<OptionName, OptionValue>)
    requires WellTyped(opts) && DateStages(opts).Success?
    ensures forall s :: s in DateStages(opts).value <==> DateStageOn(opts, s)
  {
    var r := DateStages(opts).value;
    forall s ensures s in r <==> DateStageOn(opts, s) {
      if !(s.FixFrom? || s.FixUntil? || s.CreatedFrom? || s.CreatedUntil?) {
        assert s !in r;
      }
    }
  }

  /** One stage per date bound that is set, in the order the chain applies them. */
  function BoundStages(fixFrom: Option<PlainDate>, fixUntil: Option<PlainDate>,
                       createdFrom: Option<PlainDate>, createdUntil: Option<PlainDate>): (r: seq<Stage>)
    ensures |r| <= 4
    ensures forall d :: FixFrom(d) in r <==> fixFrom == Some(d)
    ensures forall d :: FixUntil(d) in r <==> fixUntil == Some(d)
    ensures forall d :: CreatedFrom(d) in r <==> createdFrom == Some(d)
    ensures forall d :: CreatedUntil(d) in r <==> createdUntil == Some(d)
    ensures forall s :: s in r ==> s.FixFrom? || s.FixUntil? || s.CreatedFrom? || s.CreatedUntil?
  {
    FixStages(fixFrom, fixUntil) + CreatedStages(createdFrom, createdUntil)
  }

  function FixStages(fixFrom: Option<PlainDate>, fixUntil: Option<PlainDate>): (r: seq<Stage>)
    ensures |r| <= 2
    ensures forall d :: FixFrom(d) in r <==> fixFrom == Some(d)
    ensures forall d :: FixUntil(d) in r <==> fixUntil == Some(d)
    ensures forall s :: s in r ==> s.FixFrom? || s.FixUntil?
  {
    (if fixFrom.Some? then [FixFrom(fixFrom.value)] else [])
    + (if fixUntil.Some? then [FixUntil(fixUntil.value)] else [])
  }

  function CreatedStages(createdFrom: Option<PlainDate>, createdUntil: Option<PlainDate>): (r: seq<Stage>)
    ensures |r| <= 2
    ensures forall d :: CreatedFrom(d) in r <==> createdFrom == Some(d)
    ensures forall d :: CreatedUntil(d) in r <==> createdUntil == Some(d)
    ensures forall s :: s in r ==> s.CreatedFrom? || s.CreatedUntil?
  {
    (if createdFrom.Some? then [CreatedFrom(createdFrom.value)] else [])
    + (if createdUntil.Some? then [CreatedUntil(createdUntil.value)] else [])
  }

  /** Only the stages whose switch is on matter. */
  lemma {:induction false} SwitchedOnlyOn(a: seq<(bool, Stage)>, b: seq<(bool, Stage)>)
    requires |a| == |b|
    requires forall i :: 0 <= i < |a| ==> a[i].0 == b[i].0 && (a[i].0 ==> a[i].1 == b[i].1)
    ensures Switched(a) == Switched(b)
  {
    if a != [] {
      SwitchedOnlyOn(a[1..], b[1..]);
    }
  }

  /** The values of a select option, and the text of a text option. */
  function ValuesOf(v: OptionValue): seq<string> {
    if v.Selected? then v.values else []
  }

  function TextOf(v: OptionValue): string {
    if v.Text? then v.text else ""
  }

  /** The stages whose switch is on, in order. */
  function Switched(choices: seq<(bool, Stage)>): (r: seq<Stage>)
    ensures forall s :: s in r <==> exists i :: 0 <= i < |choices| && choices[i].0 && choices[i].1 == s
  {
    if choices == [] then []
    else
      var rest := Switched(choices[1..]);
      assert forall i :: 1 <= i < |choices| ==> choices[i] == choices[1..][i - 1];
      (if choices[0].0 then [choices[0].1] else []) + rest
  }

  function MetaStage(v: OptionValue): (r: seq<Stage>)
    ensures |r| <= 1
    ensures forall s :: s in r <==> Truthy(v) && v.Text? && s == MetaBug(NumberOf(v.text))
  {
    if Truthy(v) && v.Text? then [MetaBug(NumberOf(v.text))] else []
  }

  /** The stages after the dates, switched on by the select options and the
      whiteboard text. */
  function SelectChoices(opts: map<OptionName, OptionValue>): seq<(bool, Stage)>
    requires WellTyped(opts)
  {
    var tags, versions, types := opts[TestingTags], opts[ReleaseVersions], opts[Types];
    [ (tags.Selected?, TestingTagsIn(ValuesOf(tags), versions.Selected? && "N/A" in ValuesOf(versions))),
      (opts[Components].Selected?, ComponentsIn(ValuesOf(opts[Components]))),
      (opts[Teams].Selected?, TeamsIn(ValuesOf(opts[Teams]))),
      (Truthy(opts[WhiteBoard]) && opts[WhiteBoard].Text?, WhiteBoardHas(TextOf(opts[WhiteBoard]))),
      (versions.Selected?, VersionsIn(ValuesOf(versions), Truthy(opts[IncludeUnfixed]))),
      (types.Selected? && "unknown" !in ValuesOf(types), TypesIn(ValuesOf(types))),
      (opts[Severities].Selected?, SeveritiesIn(ValuesOf(opts[Severities]))),
      (opts[Riskiness].Selected?, RiskIn(ValuesOf(opts[Riskiness]))) ]
  }

  function SelectStages(opts: map<OptionName, OptionValue>): (r: seq<Stage>)
    requires WellTyped(opts)
    ensures forall s :: s in r <==> SelectStageOn(opts, s)
  {
    SelectChoicesOn(opts);
    Switched(SelectChoices(opts))
  }

  lemma SelectChoicesOn(opts: map<OptionName, OptionValue>)
    requires WellTyped(opts)
    ensures forall s :: (exists i :: 0 <= i < |SelectChoices(opts)| && SelectChoices(opts)[i].0 && SelectChoices(opts)[i].1 == s)
                        <==> SelectStageOn(opts, s)
  {
    var cs := SelectChoices(opts);
    forall s ensures (exists i :: 0 <= i < |cs| && cs[i].0 && cs[i].1 == s) <==> SelectStageOn(opts, s) {
      if SelectStageOn(opts, s) {
        var i := match s
          case TestingTagsIn(_, _) => 0
          case ComponentsIn(_) => 1
          case TeamsIn(_) => 2
          case WhiteBoardHas(_) => 3
          case VersionsIn(_, _) => 4
          case TypesIn(_) => 5
          case SeveritiesIn(_) => 6
          case _ => 7;
        assert cs[i].0 && cs[i].1 == s;
      }
    }
  }

  /** The select or whiteboard stage `stage` is switched on by the options. */
  predicate SelectStageOn(opts: map<OptionName, OptionValue>, stage: Stage)
    requires WellTyped(opts)
  {
    match stage
    case TestingTagsIn(tags, na) =>
      opts[TestingTags] == Selected(tags) && na == (opts[ReleaseVersions].Selected? && "N/A" in opts[ReleaseVersions].values)
    case ComponentsIn(cs) => opts[Components] == Selected(cs)
    case TeamsIn(ts) => opts[Teams] == Selected(ts)
    case WhiteBoardHas(w) => opts[WhiteBoard] == Text(w) && w != ""
    case VersionsIn(vs, u) => opts[ReleaseVersions] == Selected(vs) && u == Truthy(opts[IncludeUnfixed])
    case TypesIn(ts) => opts[Types] == Selected(ts) && "unknown" !in ts
    case SeveritiesIn(ss) => opts[Severities] == Selected(ss)
    case RiskIn(bs) => opts[Riskiness] == Selected(bs)
    case _ => false
  }

  /** The filters the options switch on, in the order the chain applies them,
      or the exception raised while setting the chain up. */
  function StagesOf(opts: map<OptionName, OptionValue>): (r: Result<seq<Stage>, FilterError>)
    requires WellTyped(opts)
    ensures DateStages(opts).Failure? ==> r == Failure(DateStages(opts).error)
    ensures DateStages(opts).Success? ==> (r.Failure? <==> opts[TestingTags].Selected? && opts[ReleaseVersions].Null?)
    ensures r.Failure? && DateStages(opts).Success? ==> r.error == NullReleaseVersions
    ensures r.Success? ==> forall s :: s in DateStages(opts).value ==> s in r.value
    ensures r.Success? ==> forall s :: s in SelectStages(opts) ==> s in r.value
    ensures r.Success? && Truthy(opts[MetaBugID]) && opts[MetaBugID].Text? ==>
              r.value != [] && r.value[0] == MetaBug(NumberOf(opts[MetaBugID].text))
  {
    var dates :- DateStages(opts);
    if opts[TestingTags].Selected? && opts[ReleaseVersions].Null? then Failure(NullReleaseVersions)
    else Success(MetaStage(opts[MetaBugID]) + dates + SelectStages(opts))
  }

  /** Whether the options switch on `stage`: the meta bug stage when the
      meta bug option is set, a date stage when its date is set and parses,
      and a select or whiteboard stage as `SelectStageOn` says. */
  predicate StageOn(opts: map<OptionName, OptionValue>, stage: Stage)
    requires WellTyped(opts)
  {
    (stage.MetaBug? && Truthy(opts[MetaBugID]) && opts[MetaBugID].Text? && stage.id == NumberOf(opts[MetaBugID].text))
    || DateStageOn(opts, stage)
    || SelectStageOn(opts, stage)
  }

  /** The chain holds exactly the stages the options switch on. */
  lemma StagesSwitchedOn(opts: map<OptionName, OptionValue>)
    requires WellTyped(opts) && StagesOf(opts).Success?
    ensures forall s :: s in StagesOf(opts).value <==> StageOn(opts, s)
  {
    DateStagesSwitchedOn(opts);
    var meta, dates, select := MetaStage(opts[MetaBugID]), DateStages(opts).value, SelectStages(opts);
    assert StagesOf(opts).value == meta + dates + select;
  }

  /** `getFilteredBugSummaries()` on the flattened landings and the current options. */
  function FilteredBugSummaries(opts: map<OptionName, OptionValue>, landings: seq<BugSummary>): (r: Result<seq<BugSummary>, FilterError>)
    requires WellTyped(opts)
    ensures r.Failure? <==> StagesOf(opts).Failure?
    ensures r.Failure? ==> r.error == StagesOf(opts).error
    ensures r.Success? ==> IsSubsequence(r.value, landings)
  {
    var stages :- StagesOf(opts);
    ApplyIsConjunction(Holds, stages, landings);
    Success(Apply(Holds, stages, landings))
  }

  // ---------------------------------------------------------------------
  // What the chain keeps
  // ---------------------------------------------------------------------

  /** A record survives exactly when it passes every filter the options switch
      on; survivors keep their order. */
  lemma FilteredIsConjunction(opts: map<OptionName, OptionValue>, landings: seq<BugSummary>)
    requires WellTyped(opts) && StagesOf(opts).Success?
    ensures var stages := StagesOf(opts).value;
      var r := FilteredBugSummaries(opts, landings).value;
      && IsSubsequence(r, landings)
      && forall b :: b in r <==> b in landings && forall s :: s in stages ==> Holds(s, b)
  {
    ApplyIsConjunction(Holds, StagesOf(opts).value, landings);
  }

  /** A select set to the empty selection is still truthy, so its filter
      runs and keeps nothing: `components=[]` empties the result. */
  lemma EmptyComponentsKeepNothing(opts: map<OptionName, OptionValue>, landings: seq<BugSummary>)
    requires WellTyped(opts) && opts[Components] == Selected([])
    requires StagesOf(opts).Success?
    ensures FilteredBugSummaries(opts, landings) == Success([])
  {
    var stages := StagesOf(opts).value;
    ComponentsStageIn(opts);
    assert ComponentsIn([]) in stages;
    ApplyUnsatisfiable(Holds, stages, ComponentsIn([]), landings);
  }

  lemma ComponentsStageIn(opts: map<OptionName, OptionValue>)
    requires WellTyped(opts) && opts[Components].Selected?
    ensures ComponentsIn(opts[Components].values) in SelectStages(opts)
  {
  }

  /** With testing tags selected, a `null` release-version option raises
      before any filtering, unless a date option has already raised. */
  lemma TestingTagsNeedReleaseVersions(opts: map<OptionName, OptionValue>, landings: seq<BugSummary>)
    requires WellTyped(opts)
    requires opts[TestingTags].Selected? && opts[ReleaseVersions].Null?
    requires DateStages(opts).Success?
    ensures FilteredBugSummaries(opts, landings) == Failure(NullReleaseVersions)
  {
  }

  /** A fix start date that does not parse raises, whatever the landings. */
  lemma InvalidFixStartRaises(opts: map<OptionName, OptionValue>, landings: seq<BugSummary>)
    requires WellTyped(opts) && opts[FixStartDate].Text? && opts[FixStartDate].text != ""
    requires Parse(opts[FixStartDate].text).None?
    ensures FilteredBugSummaries(opts, landings) == Failure(InvalidDate(FixStartDate))
  {
  }

  /** Selecting "unknown" among the types switches the type filter off. */
  lemma UnknownTypeDisablesTypes(opts: map<OptionName, OptionValue>, landings: seq<BugSummary>)
    requires WellTyped(opts) && opts[Types].Selected? && "unknown" in opts[Types].values
    ensures WellTyped(opts[Types := Null])
    ensures FilteredBugSummaries(opts, landings) == FilteredBugSummaries(opts[Types := Null], landings)
  {
    var other := opts[Types := Null];
    UnknownTypeSameSelectStages(opts);
    assert DateStages(other) == DateStages(opts);
    assert other[TestingTags] == opts[TestingTags] && other[ReleaseVersions] == opts[ReleaseVersions];
    assert other[MetaBugID] == opts[MetaBugID];
    assert StagesOf(other) == StagesOf(opts);
  }

  /** The select and whiteboard stages of the two option sets agree: the types
      choice is off in both, and every other choice reads the same options. */
  lemma UnknownTypeSameSelectStages(opts: map<OptionName, OptionValue>)
    requires WellTyped(opts) && opts[Types].Selected? && "unknown" in opts[Types].values
    ensures WellTyped(opts[Types := Null])
    ensures SelectStages(opts[Types := Null]) == SelectStages(opts)
  {
    var a, b := SelectChoices(opts[Types := Null]), SelectChoices(opts);
    assert |a| == |b| == 8;
    forall i | 0 <= i < 8
      ensures a[i].0 == b[i].0 && (a[i].0 ==> a[i].1 == b[i].1)
    {
      if i == 5 {
        assert !a[i].0 && !b[i].0;
      } else {
        assert a[i] == b[i];
      }
    }
    SwitchedOnlyOn(a, b);
  }

  /** Date bounds are inclusive, and a record with no fix date fails both fix bounds. */
  lemma DateBoundsInclusive(b: BugSummary, d: PlainDate)
    ensures b.date == Some(d) ==> Holds(FixFrom(d), b) && Holds(FixUntil(d), b)
    ensures b.date.None? ==> !Holds(FixFrom(d), b) && !Holds(FixUntil(d), b)
    ensures Holds(CreatedFrom(b.creationDate), b) && Holds(CreatedUntil(b.creationDate), b)
    ensures Holds(FixFrom(d), b) <==> b.date.Some? && !Before(b.date.value, d)
  {
  }

  /** The meta bug filter keeps a record when the option's number is among its meta bugs. */
  lemma MetaBugMatchesNumber(n: nat, b: BugSummary)
    ensures Holds(MetaBug(NumberOf(DecimalText(n))), b) <==> n in b.metaIds
  {
    NumberOfDecimalText(n);
  }

  /** A risk-band filter keeps a record without a band only when "N/A" is selected. */
  lemma RiskWithoutBand(bands: seq<string>, b: BugSummary)
    requires b.riskBand.None?
    ensures Holds(RiskIn(bands), b) <==> "N/A" in bands
  {
  }
}
