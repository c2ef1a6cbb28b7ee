/** The dashboard's option registry: sixteen named options, each with a
    declared input type and a current value, read with `getOption` and
    written with `setOption`; and the rules that turn URL query values into
    option values when the page loads. */
module Options {
  import opened DateOrder

  datatype OptionName =
    | MetaBugID | TestingTags | FixStartDate | FixEndDate | CreateStartDate | CreateEndDate
    | WhiteBoard | Components | Teams | Grouping | ReleaseVersions | IncludeUnfixed
    | Types | Severities | Riskiness | ChangeGrouping

  datatype OptionType = TextInput | SelectInput | CheckboxInput | RadioInput

  /** The registry, in declaration order. */
  const Registry: seq<(OptionName, OptionType)> := [
    (MetaBugID, TextInput), (TestingTags, SelectInput), (FixStartDate, TextInput),
    (FixEndDate, TextInput), (CreateStartDate, TextInput), (CreateEndDate, TextInput),
    (WhiteBoard, TextInput), (Components, SelectInput), (Teams, SelectInput),
    (Grouping, RadioInput), (ReleaseVersions, SelectInput), (IncludeUnfixed, CheckboxInput),
    (Types, SelectInput), (Severities, SelectInput), (Riskiness, SelectInput),
    (ChangeGrouping, SelectInput)]

  /** `getOptionType(name)`. */
  function TypeOf(name: OptionName): OptionType {
    match name
    case MetaBugID => TextInput
    case TestingTags => SelectInput
    case FixStartDate => TextInput
    case FixEndDate => TextInput
    case CreateStartDate => TextInput
    case CreateEndDate => TextInput
    case WhiteBoard => TextInput
    case Components => SelectInput
    case Teams => SelectInput
    case Grouping => RadioInput
    case ReleaseVersions => SelectInput
    case IncludeUnfixed => CheckboxInput
    case Types => SelectInput
    case Severities => SelectInput
    case Riskiness => SelectInput
    case ChangeGrouping => SelectInput
  }

  /** The registry lists every option, with the type `TypeOf` gives it. */
  lemma RegistryComplete(name: OptionName)
    ensures |Registry| == 16
    ensures exists i :: 0 <= i < |Registry| && Registry[i] == (name, TypeOf(name))
  {
    match name {
      case MetaBugID => assert Registry[0] == (name, TypeOf(name));
      case TestingTags => assert Registry[1] == (name, TypeOf(name));
      case FixStartDate => assert Registry[2] == (name, TypeOf(name));
      case FixEndDate => assert Registry[3] == (name, TypeOf(name));
      case CreateStartDate => assert Registry[4] == (name, TypeOf(name));
      case CreateEndDate => assert Registry[5] == (name, TypeOf(name));
      case WhiteBoard => assert Registry[6] == (name, TypeOf(name));
      case Components => assert Registry[7] == (name, TypeOf(name));
      case Teams => assert Registry[8] == (name, TypeOf(name));
      case Grouping => assert Registry[9] == (name, TypeOf(name));
      case ReleaseVersions => assert Registry[10] == (name, TypeOf(name));
      case IncludeUnfixed => assert Registry[11] == (name, TypeOf(name));
      case Types => assert Registry[12] == (name, TypeOf(name));
      case Severities => assert Registry[13] == (name, TypeOf(name));
      case Riskiness => assert Registry[14] == (name, TypeOf(name));
      case ChangeGrouping => assert Registry[15] == (name, TypeOf(name));
    }
  }

  /** The declaration position of each option. */
  function Position(name: OptionName): nat {
    match name
    case MetaBugID => 0
    case TestingTags => 1
    case FixStartDate => 2
    case FixEndDate => 3
    case CreateStartDate => 4
    case CreateEndDate => 5
    case WhiteBoard => 6
    case Components => 7
    case Teams => 8
    case Grouping => 9
    case ReleaseVersions => 10
    case IncludeUnfixed => 11
    case Types => 12
    case Severities => 13
    case Riskiness => 14
    case ChangeGrouping => 15
  }

  /** No option is listed twice. */
  lemma RegistryNamesDistinct()
    ensures forall i, j :: 0 <= i < j < |Registry| ==> Registry[i].0 != Registry[j].0
  {
    forall i | 0 <= i < |Registry| ensures Position(Registry[i].0) == i {
    }
  }

  /** An option's value: `null` before the page sets it up, then the text of
      a text or radio input, the state of a checkbox, or the selected values
      of a select. */
  datatype OptionValue = Null | Text(text: string) | Checked(checked: bool) | Selected(values: seq<string>)

  /** The value kinds each input type stores. */
  predicate Fits(name: OptionName, v: OptionValue) {
    match v
    case Null => true
    case Text(_) => TypeOf(name) == TextInput || TypeOf(name) == RadioInput
    case Checked(_) => TypeOf(name) == CheckboxInput
    case Selected(_) => TypeOf(name) == SelectInput
  }

  /** JavaScript truthiness: an array, even an empty one, is truthy. */
  predicate Truthy(v: OptionValue) {
    match v
    case Null => false
    case Text(s) => s != ""
    case Checked(b) => b
    case Selected(_) => true
  }

  /** A full set of option values, each of the kind its input stores. */
  predicate WellTyped(values: map<OptionName, OptionValue>) {
    forall name: OptionName :: name in values && Fits(name, values[name])
  }

  /** The module-level `options` object. */
  class OptionStore {
    var values: map<OptionName, OptionValue>

    ghost predicate Valid()
      reads this
    {
      WellTyped(values)
    }

    /** Every option starts out `null`. */
    constructor()
      ensures Valid()
      ensures forall name: OptionName :: values[name] == Null
    {
      values := map[MetaBugID := Null, TestingTags := Null, FixStartDate := Null, FixEndDate := Null,
                    CreateStartDate := Null, CreateEndDate := Null, WhiteBoard := Null, Components := Null,
                    Teams := Null, Grouping := Null, ReleaseVersions := Null, IncludeUnfixed := Null,
                    Types := Null, Severities := Null, Riskiness := Null, ChangeGrouping := Null];
      new;
      forall name: OptionName ensures name in values && values[name] == Null {
        match name {
          case MetaBugID => case TestingTags => case FixStartDate => case FixEndDate =>
          case CreateStartDate => case CreateEndDate => case WhiteBoard => case Components =>
          case Teams => case Grouping => case ReleaseVersions => case IncludeUnfixed =>
          case Types => case Severities => case Riskiness => case ChangeGrouping =>
        }
      }
    }

    /** `getOption(name)`. */
    function Get(name: OptionName): (v: OptionValue)
      reads this
      requires Valid()
      ensures Fits(name, v)
    {
      values[name]
    }

    /** `setOption(name, value)`: stores and returns the value; no other
        option changes. */
    method Set(name: OptionName, v: OptionValue) returns (r: OptionValue)
      modifies this
      requires Valid() && Fits(name, v)
      ensures Valid()
      ensures r == v && Get(name) == v
      ensures forall other :: other != name ==> Get(other) == old(Get(other))
    {
      values := values[name := v];
      r := v;
    }
  }

  // ---------------------------------------------------------------------
  // Query decoding at page load
  // ---------------------------------------------------------------------

  /** A text input: the first query value, if any, replaces the input's text. */
  function TextFromQuery(query: seq<string>, current: string): (s: string)
    ensures query != [] ==> s == query[0]
    ensures query == [] ==> s == current
  {
    if query != [] then query[0] else current
  }

  /** What a text input's change writes to the query: `searchParams.set`
      leaves exactly one value, the input's text. */
  function EncodeText(text: string): seq<string> {
    [text]
  }

  /** Reloading after a text change restores the input's text, the empty
      text included; without a query value the page's own text stays. */
  lemma TextRoundTrip(text: string, current: string)
    ensures TextFromQuery(EncodeText(text), current) == text
    ensures TextFromQuery([], current) == current
  {
  }

  /** A checkbox query value: anything but "0" and "false" checks the box. */
  predicate DecodeCheckbox(q: string) {
    q != "0" && q != "false"
  }

  /** What a checkbox change writes to the query. */
  function EncodeCheckbox(b: bool): string {
    if b then "1" else "0"
  }

  function CheckboxFromQuery(query: seq<string>, current: bool): bool {
    if query != [] then DecodeCheckbox(query[0]) else current
  }

  /** Decoding what a checkbox change wrote gives back the box's state. */
  lemma CheckboxRoundTrip(b: bool, current: bool)
    ensures CheckboxFromQuery([EncodeCheckbox(b)], current) == b
    ensures DecodeCheckbox("true") && DecodeCheckbox("") && !DecodeCheckbox("false")
  {
    assert "1" != "0" && "1" != "false";
    assert "true" != "0" && "true" != "false";
    assert "" != "0" && "" != "false";
  }

  /** The positions of the selected options, in increasing order. */
  function SelectedPositions(selected: seq<bool>): (ps: seq<nat>)
    ensures forall t :: 0 <= t < |ps| ==> ps[t] < |selected| && selected[ps[t]]
    ensures forall t, u :: 0 <= t < u < |ps| ==> ps[t] < ps[u]
  {
    if selected == [] then []
    else
      var n := |selected| - 1;
      var before := SelectedPositions(selected[..n]);
      assert forall i :: 0 <= i < n ==> selected[..n][i] == selected[i];
      if selected[n] then before + [n] else before
  }

  /** Every selected position is listed. */
  lemma {:induction false} SelectedPositionsComplete(selected: seq<bool>, i: nat)
    requires i < |selected| && selected[i]
    ensures i in SelectedPositions(selected)
  {
    var n := |selected| - 1;
    if i < n {
      assert selected[..n][i] == selected[i];
      SelectedPositionsComplete(selected[..n], i);
    }
  }

  /** The values of the selected options, in option order: the options at
      the selected positions. */
  function SelectedValues(options: seq<string>, selected: seq<bool>): (vs: seq<string>)
    requires |selected| == |options|
    ensures var ps := SelectedPositions(selected);
      |vs| == |ps| && forall t :: 0 <= t < |vs| ==> vs[t] == options[ps[t]]
    ensures forall v :: v in vs <==> exists i :: 0 <= i < |options| && selected[i] && options[i] == v
  {
    if options == [] then []
    else
      var n := |options| - 1;
      var before := SelectedValues(options[..n], selected[..n]);
      assert forall i :: 0 <= i < n ==> options[..n][i] == options[i] && selected[..n][i] == selected[i];
      var vs := if selected[n] then before + [options[n]] else before;
      SelectedValuesMembers(options, selected, vs);
      vs
  }

  lemma SelectedValuesMembers(options: seq<string>, selected: seq<bool>, vs: seq<string>)
    requires |selected| == |options|
    requires var ps := SelectedPositions(selected);
      |vs| == |ps| && forall t :: 0 <= t < |vs| ==> vs[t] == options[ps[t]]
    ensures forall v :: v in vs <==> exists i :: 0 <= i < |options| && selected[i] && options[i] == v
  {
    var ps := SelectedPositions(selected);
    forall v ensures v in vs <==> exists i :: 0 <= i < |options| && selected[i] && options[i] == v {
      if v in vs {
        var t :| 0 <= t < |vs| && vs[t] == v;
        assert selected[ps[t]] && options[ps[t]] == v;
      }
      if exists i :: 0 <= i < |options| && selected[i] && options[i] == v {
        var i :| 0 <= i < |options| && selected[i] && options[i] == v;
        SelectedPositionsComplete(selected, i);
        var t :| 0 <= t < |ps| && ps[t] == i;
        assert vs[t] == v;
      }
    }
  }

  /** A select: a non-empty query selects exactly the options whose value it
      lists; an empty query keeps the page's own selection. */
  function SelectionFromQuery(options: seq<string>, current: seq<bool>, query: seq<string>): (sel: seq<bool>)
    requires |current| == |options|
    ensures |sel| == |options|
    ensures query != [] ==> forall i :: 0 <= i < |options| ==> (sel[i] <==> options[i] in query)
    ensures query == [] ==> sel == current
  {
    if query == [] then current
    else seq(|options|, i requires 0 <= i < |options| => options[i] in query)
  }

  /** The option value of a select after page load. */
  function DecodeSelect(options: seq<string>, current: seq<bool>, query: seq<string>): seq<string>
    requires |current| == |options|
  {
    SelectedValues(options, SelectionFromQuery(options, current, query))
  }

  /** A select change writes each selected value to the query; reading that
      query back restores the same selection, provided something is selected
      (the option values of a select are distinct). */
  lemma SelectRoundTrip(options: seq<string>, selected: seq<bool>, current: seq<bool>)
    requires |selected| == |options| == |current| && Distinct(options)
    requires SelectedValues(options, selected) != []
    ensures SelectionFromQuery(options, current, SelectedValues(options, selected)) == selected
  {
    var sel := SelectionFromQuery(options, current, SelectedValues(options, selected));
    forall i | 0 <= i < |options| ensures sel[i] == selected[i] {
      if sel[i] {
        var j :| 0 <= j < |options| && selected[j] && options[j] == options[i];
      }
    }
  }

  /** Clearing a select writes no query value at all, so the next load keeps
      the page's own default selection rather than the empty one. */
  lemma EmptySelectionNotRestored(options: seq<string>, selected: seq<bool>, defaults: seq<bool>)
    requires |selected| == |options| == |defaults|
    requires forall i :: 0 <= i < |selected| ==> !selected[i]
    ensures DecodeSelect(options, defaults, SelectedValues(options, selected)) == SelectedValues(options, defaults)
  {
    NothingSelected(options, selected);
  }

  lemma {:induction false} NothingSelected(options: seq<string>, selected: seq<bool>)
    requires |selected| == |options|
    requires forall i :: 0 <= i < |selected| ==> !selected[i]
    ensures SelectedValues(options, selected) == []
  {
    if options != [] {
      var n := |options| - 1;
      NothingSelected(options[..n], selected[..n]);
    }
  }

  /** A radio group: a query value checks the radio with that value (and
      unchecks the others); the option takes the value of the last checked
      radio, or keeps its value when none is checked. */
  function RadioFromQuery(radios: seq<string>, checked: seq<bool>, query: seq<string>, current: OptionValue): (v: OptionValue)
    requires |checked| == |radios|
    ensures query != [] && query[0] in radios ==> v == Text(query[0])
    ensures query != [] && query[0] !in radios ==> v == current
    ensures query == [] && NoneChecked(checked) ==> v == current
    ensures query == [] ==> forall k :: LastChecked(checked, k) ==> v == Text(radios[k])
  {
    if query == [] then
      RadioLastChecked(radios, checked);
      LastCheckedValue(SelectedValues(radios, checked), current)
    else
      var sel := seq(|radios|, i requires 0 <= i < |radios| => radios[i] == query[0]);
      RadioQueryChecks(radios, query[0], sel);
      LastCheckedValue(SelectedValues(radios, sel), current)
  }

  predicate NoneChecked(checked: seq<bool>) {
    forall i :: 0 <= i < |checked| ==> !checked[i]
  }

  /** Position `k` is checked and no later one is. */
  predicate LastChecked(checked: seq<bool>, k: int) {
    0 <= k < |checked| && checked[k] && forall j :: k < j < |checked| ==> !checked[j]
  }

  /** The value of the last checked radio, or `current` when none is checked. */
  function LastCheckedValue(vs: seq<string>, current: OptionValue): OptionValue {
    if vs == [] then current else Text(vs[|vs| - 1])
  }

  /** Checking the radios that carry the query value: every checked radio
      carries it, and one is checked when some radio carries it. */
  lemma RadioQueryChecks(radios: seq<string>, q: string, sel: seq<bool>)
    requires |sel| == |radios| && forall i :: 0 <= i < |radios| ==> (sel[i] <==> radios[i] == q)
    ensures var vs := SelectedValues(radios, sel);
      (forall v :: v in vs ==> v == q) && (q in radios ==> vs != [])
  {
    var vs := SelectedValues(radios, sel);
    if q in radios {
      var i :| 0 <= i < |radios| && radios[i] == q;
      assert sel[i] && radios[i] == q;
      assert q in vs;
    }
  }

  /** Without a query value, the last checked radio gives the value. */
  lemma RadioLastChecked(radios: seq<string>, checked: seq<bool>)
    requires |checked| == |radios|
    ensures var vs := SelectedValues(radios, checked);
      (NoneChecked(checked) ==> vs == [])
      && forall k :: LastChecked(checked, k) ==> vs != [] && vs[|vs| - 1] == radios[k]
  {
    var vs := SelectedValues(radios, checked);
    if NoneChecked(checked) {
      NothingSelected(radios, checked);
    }
    forall k | LastChecked(checked, k)
      ensures vs != [] && vs[|vs| - 1] == radios[k]
    {
      LastCheckedValueIs(radios, checked, k);
    }
  }

  lemma LastCheckedValueIs(radios: seq<string>, checked: seq<bool>, k: int)
    requires |checked| == |radios| && LastChecked(checked, k)
    ensures var vs := SelectedValues(radios, checked); vs != [] && vs[|vs| - 1] == radios[k]
  {
    LastSelectedPosition(checked, k);
    var ps := SelectedPositions(checked);
    var vs := SelectedValues(radios, checked);
    assert |vs| == |ps| && vs[|vs| - 1] == radios[ps[|ps| - 1]];
  }

  /** The last selected position is the last of the selected positions. */
  lemma LastSelectedPosition(selected: seq<bool>, k: nat)
    requires k < |selected| && selected[k]
    requires forall j :: k < j < |selected| ==> !selected[j]
    ensures var ps := SelectedPositions(selected); ps != [] && ps[|ps| - 1] == k
  {
    var ps := SelectedPositions(selected);
    SelectedPositionsComplete(selected, k);
    var t :| 0 <= t < |ps| && ps[t] == k;
    var last := |ps| - 1;
    assert selected[ps[last]];
    assert ps[t] <= ps[last];
  }
}
