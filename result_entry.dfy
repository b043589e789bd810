/**
 * The result sheet of the result-entry form (src/components/TestResultEntry.jsx):
 * one entry per template parameter, the flag shown beside a classified
 * value, the one-parameter edit, the initial sheet built from a template,
 * the overall interpretation and the checks made before a result is saved.
 */
module ResultEntry {
  import opened Wrappers
  import JsText
  import Lists
  import opened StatusCalc

  /** One parameter of a test template. */
  datatype TemplateParam = TemplateParam(
    name: string, displayName: string, unit: string, referenceRange: string,
    order: real, required: bool)

  /** One row of the sheet (`test_parameters[name]`). */
  datatype ParamEntry = ParamEntry(
    value: string, unit: string, referenceRange: string, status: Status, flag: string)

  type Sheet = map<string, ParamEntry>

  /** The flag beside a value: '' when normal, 'C' when critical, 'H/L' when abnormal. */
  function Flag(status: Status): (f: string)
    ensures f == [] <==> status == Normal
    ensures f == "C" <==> status == Critical
    ensures f == "H/L" <==> status == Abnormal
  {
    match status
    case Normal => ""
    case Critical => "C"
    case Abnormal => "H/L"
  }

  /** The flag alone tells the status back. */
  lemma FlagDeterminesStatus(s1: Status, s2: Status)
    requires Flag(s1) == Flag(s2)
    ensures s1 == s2
  {
  }

  /** An entry whose status and flag are those its value and range call for. */
  predicate Classified(e: ParamEntry) {
    e.status == CalculateStatus(e.value, e.referenceRange, Tight) && e.flag == Flag(e.status)
  }

  predicate SheetClassified(sheet: Sheet) {
    forall k :: k in sheet ==> Classified(sheet[k])
  }

  /**
   * `handleParameterChange(paramName, value)`: the entry gets the new value
   * and the status and flag computed from it; its unit and range stay; no
   * other entry changes. A name with no entry gets one with no unit and no
   * range, which classifies as normal.
   */
  function ChangeParameter(sheet: Sheet, name: string, value: string): (r: Sheet)
    ensures r.Keys == sheet.Keys + {name}
    ensures forall k :: k in sheet && k != name ==> r[k] == sheet[k]
    ensures r[name].value == value && Classified(r[name])
    ensures name in sheet ==> r[name].unit == sheet[name].unit && r[name].referenceRange == sheet[name].referenceRange
    ensures name !in sheet ==> r[name].referenceRange == [] && r[name].status == Normal
  {
    sheet[name := EditedEntry(sheet, name, value)]
  }

  /** The entry an edit writes: the new value, classified against the entry's range. */
  function EditedEntry(sheet: Sheet, name: string, value: string): ParamEntry {
    var prior := if name in sheet then sheet[name] else ParamEntry([], [], [], Normal, []);
    var status := CalculateStatus(value, prior.referenceRange, Tight);
    ParamEntry(value, prior.unit, prior.referenceRange, status, Flag(status))
  }

  /** Every edit keeps every entry of the sheet classified. */
  lemma ChangeKeepsClassified(sheet: Sheet, name: string, value: string)
    requires SheetClassified(sheet)
    ensures SheetClassified(ChangeParameter(sheet, name, value))
  {
  }

  /** The last edit of a parameter is the one that counts. */
  lemma LastEditWins(sheet: Sheet, name: string, v1: string, v2: string)
    ensures ChangeParameter(ChangeParameter(sheet, name, v1), name, v2) == ChangeParameter(sheet, name, v2)
  {
  }

  /** Edits of two different parameters commute. */
  lemma EditsCommute(sheet: Sheet, n1: string, v1: string, n2: string, v2: string)
    requires n1 != n2
    ensures ChangeParameter(ChangeParameter(sheet, n1, v1), n2, v2) ==
            ChangeParameter(ChangeParameter(sheet, n2, v2), n1, v1)
  {
    var e1, e2 := EditedEntry(sheet, n1, v1), EditedEntry(sheet, n2, v2);
    assert EditedEntry(sheet[n1 := e1], n2, v2) == e2;
    assert EditedEntry(sheet[n2 := e2], n1, v1) == e1;
    assert sheet[n1 := e1][n2 := e2] == sheet[n2 := e2][n1 := e1];
  }

  // ---------------------------------------------------------------------
  // The sheet built from a template
  // ---------------------------------------------------------------------

  /** The empty entry a template parameter starts with. */
  function BlankEntry(p: TemplateParam): (e: ParamEntry)
    ensures Classified(e) && e.value == [] && e.status == Normal
  {
    ParamEntry([], p.unit, p.referenceRange, Normal, [])
  }

  function Order(p: TemplateParam): real {
    p.order
  }

  /** Position i is the last parameter named n among the first k of s. */
  predicate LastNamedBefore(s: seq<TemplateParam>, n: string, i: int, k: int) {
    0 <= i < k <= |s| && s[i].name == n && forall j :: i < j < k ==> s[j].name != n
  }

  /** Position i is the last parameter of s named n. */
  predicate LastNamed(s: seq<TemplateParam>, n: string, i: int) {
    LastNamedBefore(s, n, i, |s|)
  }

  /**
   * The template effect: the parameters sorted by `order`, and a sheet with
   * one blank entry per parameter name; when two parameters share a name,
   * the later one in sorted order is the one kept.
   */
  method InitParameters(params: seq<TemplateParam>) returns (sorted: seq<TemplateParam>, sheet: Sheet)
    ensures sorted == Lists.SortBy(params, Order)
    ensures forall i :: 0 <= i < |sorted| ==> sorted[i].name in sheet
    ensures forall n :: n in sheet ==> exists i :: LastNamed(sorted, n, i) && sheet[n] == BlankEntry(sorted[i])
    ensures SheetClassified(sheet)
  {
    sorted := Lists.SortBy(params, Order);
    sheet := map[];
    var k := 0;
    while k < |sorted|
      invariant 0 <= k <= |sorted|
      invariant forall i :: 0 <= i < k ==> sorted[i].name in sheet
      invariant BlankSheetOf(sorted, sheet, k)
    {
      BlankSheetStep(sorted, sheet, k);
      sheet := sheet[sorted[k].name := BlankEntry(sorted[k])];
      k := k + 1;
    }
    BlankSheetClassified(sorted, sheet);
  }

  /** Every entry of the sheet is the blank entry of the last parameter before k with its name. */
  ghost predicate BlankSheetOf(sorted: seq<TemplateParam>, sheet: Sheet, k: int) {
    forall n :: n in sheet ==> exists i :: LastNamedBefore(sorted, n, i, k) && sheet[n] == BlankEntry(sorted[i])
  }

  lemma BlankSheetStep(sorted: seq<TemplateParam>, sheet: Sheet, k: nat)
    requires k < |sorted| && BlankSheetOf(sorted, sheet, k)
    ensures BlankSheetOf(sorted, sheet[sorted[k].name := BlankEntry(sorted[k])], k + 1)
  {
    var p := sorted[k];
    var next := sheet[p.name := BlankEntry(p)];
    forall n | n in next
      ensures exists i :: LastNamedBefore(sorted, n, i, k + 1) && next[n] == BlankEntry(sorted[i])
    {
      if n == p.name {
        assert LastNamedBefore(sorted, n, k, k + 1);
      } else {
        var i :| LastNamedBefore(sorted, n, i, k) && sheet[n] == BlankEntry(sorted[i]);
        assert LastNamedBefore(sorted, n, i, k + 1);
      }
    }
  }

  lemma BlankSheetClassified(sorted: seq<TemplateParam>, sheet: Sheet)
    requires BlankSheetOf(sorted, sheet, |sorted|)
    ensures forall n :: n in sheet ==> exists i :: LastNamed(sorted, n, i) && sheet[n] == BlankEntry(sorted[i])
    ensures SheetClassified(sheet)
  {
    forall n | n in sheet ensures Classified(sheet[n]) {
      var i :| LastNamed(sorted, n, i) && sheet[n] == BlankEntry(sorted[i]);
    }
  }

  // ---------------------------------------------------------------------
  // Interpretation and saving
  // ---------------------------------------------------------------------

  predicate HasStatus(sheet: Sheet, status: Status) {
    exists k :: k in sheet && sheet[k].status == status
  }

  /** `overall_interpretation`: critical if any entry is, else abnormal if any is, else normal. */
  function Interpretation(sheet: Sheet): (r: Status)
    ensures r == Critical <==> HasStatus(sheet, Critical)
    ensures r == Abnormal <==> HasStatus(sheet, Abnormal) && !HasStatus(sheet, Critical)
    ensures r == Normal <==> !HasStatus(sheet, Abnormal) && !HasStatus(sheet, Critical)
  {
    if HasStatus(sheet, Critical) then Critical
    else if HasStatus(sheet, Abnormal) then Abnormal
    else Normal
  }

  function Severity(s: Status): nat {
    match s
    case Normal => 0
    case Abnormal => 1
    case Critical => 2
  }

  /** The interpretation is the most severe status on the sheet (normal for an empty sheet). */
  lemma InterpretationIsWorst(sheet: Sheet)
    ensures forall k :: k in sheet ==> Severity(sheet[k].status) <= Severity(Interpretation(sheet))
    ensures sheet != map[] ==> exists k :: k in sheet && sheet[k].status == Interpretation(sheet)
    ensures sheet == map[] ==> Interpretation(sheet) == Normal
  {
    if sheet != map[] && !HasStatus(sheet, Abnormal) && !HasStatus(sheet, Critical) {
      var k :| k in sheet;
      assert sheet[k].status == Normal;
    }
  }

  /** The fields of the form that are saved with a result. */
  datatype ResultForm = ResultForm(
    billId: string, patientMrno: string, patientName: string, patientAge: Option<int>,
    patientGender: string, testName: string, testParameters: Sheet,
    testedBy: string, technicianNotes: string, status: string)

  /**
   * The record handed to the result store: the form, overridden by the
   * interpretation, the two flags, the test date, the status and the author.
   */
  datatype SavedResult = SavedResult(
    form: ResultForm, overallInterpretation: Status, hasAbnormalValues: bool,
    hasCriticalValues: bool, testedDate: string, status: string, createdBy: string)

  datatype SubmitOutcome =
    | MissingTechnician
    | MissingParameters(displayNames: seq<string>)
    | Save(record: SavedResult)

  /** `test_parameters[name]?.value` is filled in. */
  predicate Filled(sheet: Sheet, name: string) {
    name in sheet && sheet[name].value != []
  }

  /** A required parameter whose value is missing. */
  function Unfilled(sheet: Sheet): TemplateParam -> bool {
    (p: TemplateParam) => p.required && !Filled(sheet, p.name)
  }

  /** The required parameters whose value is missing, in template order. */
  function MissingRequired(params: seq<TemplateParam>, sheet: Sheet): (r: seq<TemplateParam>)
    ensures forall i :: 0 <= i < |r| ==> r[i] in params && r[i].required && !Filled(sheet, r[i].name)
    ensures forall i :: 0 <= i < |params| && params[i].required && !Filled(sheet, params[i].name) ==> params[i] in r
  {
    Lists.Filter(params, Unfilled(sheet))
  }

  /**
   * The missing parameters come in template order: those of a template's
   * first part precede those of the rest, and a single parameter is listed
   * exactly when it is required and unfilled.
   */
  lemma MissingRequiredOrder(a: seq<TemplateParam>, b: seq<TemplateParam>, sheet: Sheet)
    ensures MissingRequired(a + b, sheet) == MissingRequired(a, sheet) + MissingRequired(b, sheet)
    ensures forall p :: MissingRequired([p], sheet) == if p.required && !Filled(sheet, p.name) then [p] else []
  {
    Lists.FilterAppend(a, b, Unfilled(sheet));
    forall p ensures MissingRequired([p], sheet) == if p.required && !Filled(sheet, p.name) then [p] else [] {
      Lists.FilterOne(p, Unfilled(sheet));
    }
  }

  /** A missing parameter is listed as often as the template holds it. */
  lemma MissingRequiredMultiplicity(params: seq<TemplateParam>, sheet: Sheet, p: TemplateParam)
    ensures multiset(MissingRequired(params, sheet))[p] ==
            if p.required && !Filled(sheet, p.name) then multiset(params)[p] else 0
  {
    Lists.FilterMultiplicity(params, Unfilled(sheet), p);
  }

  function DisplayNames(ps: seq<TemplateParam>): (r: seq<string>)
    ensures |r| == |ps| && forall i :: 0 <= i < |ps| ==> r[i] == ps[i].displayName
  {
    seq(|ps|, i requires 0 <= i < |ps| => ps[i].displayName)
  }

  /** The alert lists a display name exactly when some required parameter with that name is unfilled. */
  lemma MissingNamesExact(params: seq<TemplateParam>, sheet: Sheet)
    ensures forall d :: d in DisplayNames(MissingRequired(params, sheet)) <==>
              exists i :: 0 <= i < |params| && params[i].required && !Filled(sheet, params[i].name) && params[i].displayName == d
  {
    var missing := MissingRequired(params, sheet);
    var names := DisplayNames(missing);
    forall d | d in names
      ensures exists i :: 0 <= i < |params| && params[i].required && !Filled(sheet, params[i].name) && params[i].displayName == d
    {
      var m :| 0 <= m < |names| && names[m] == d;
      var i :| 0 <= i < |params| && params[i] == missing[m];
    }
    forall i | 0 <= i < |params| && params[i].required && !Filled(sheet, params[i].name)
      ensures params[i].displayName in names
    {
      var m :| 0 <= m < |missing| && missing[m] == params[i];
      assert names[m] == params[i].displayName;
    }
  }

  /**
   * `handleSubmit`: refused without a technician, refused when a required
   * parameter is empty, otherwise the saved record. `now` is the clock.
   */
  function Submit(form: ResultForm, params: seq<TemplateParam>, now: string): (r: SubmitOutcome)
    ensures r.MissingTechnician? <==> form.testedBy == []
    ensures r.MissingParameters? ==>
              r.displayNames != [] &&
              forall d :: d in r.displayNames <==>
                exists i :: 0 <= i < |params| && params[i].required &&
                            !Filled(form.testParameters, params[i].name) && params[i].displayName == d
    ensures r.MissingParameters? ==> r.displayNames == DisplayNames(MissingRequired(params, form.testParameters))
    ensures r.Save? <==> form.testedBy != [] && MissingRequired(params, form.testParameters) == []
    ensures r.Save? ==> r.record.status == "completed" && r.record.createdBy == form.testedBy
    ensures r.Save? ==> r.record.hasCriticalValues == HasStatus(form.testParameters, Critical)
    ensures r.Save? ==> r.record.hasAbnormalValues == HasStatus(form.testParameters, Abnormal)
    ensures r.Save? ==> r.record.overallInterpretation == Interpretation(form.testParameters)
    ensures r.Save? ==> r.record.form == form && r.record.testedDate == now
  {
    if form.testedBy == [] then MissingTechnician
    else
      var missing := MissingRequired(params, form.testParameters);
      if missing != [] then
        var names := DisplayNames(missing);
        MissingNamesExact(params, form.testParameters);
        MissingParameters(names)
      else
        var sheet := form.testParameters;
        Save(SavedResult(form, Interpretation(sheet), HasStatus(sheet, Abnormal),
                         HasStatus(sheet, Critical), now, "completed", form.testedBy))
  }

  /**
   * The alert text for a refused save. The two refusals read differently,
   * and the parameter alert ends with the display names joined by ", ".
   */
  function RefusalMessage(r: SubmitOutcome): (msg: string)
    requires !r.Save?
    ensures r.MissingTechnician? <==> msg == "Please enter technician name"
    ensures r.MissingParameters? ==>
              var names := JsText.Join(r.displayNames, ", ");
              |names| < |msg| && msg[|msg| - |names|..] == names
  {
    if r.MissingTechnician? then "Please enter technician name"
    else "Please fill in required parameters: " + JsText.Join(r.displayNames, ", ")
  }

  /** Whatever the draft/completed selector held, a saved result is completed. */
  lemma SavedStatusIgnoresSelector(form: ResultForm, params: seq<TemplateParam>, now: string, chosen: string)
    requires Submit(form, params, now).Save?
    ensures Submit(form.(status := chosen), params, now).Save?
    ensures Submit(form.(status := chosen), params, now).record.status == "completed"
  {
  }
}
