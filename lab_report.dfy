/**
 * The parameter table of the printed report (src/components/LabReport.jsx):
 * one row per stored parameter, its display name, and the result cell,
 * which carries a coloured up or down arrow when the stored status is
 * abnormal or critical.
 */
module LabReport {
  import opened Wrappers
  import opened JsText
  import opened JsNumber
  import opened JsValue
  import StatusCalc

  /**
   * `Object.entries(test_parameters).map(([key, value]) => ({name: key, ...value}))`:
   * the entries in object order, each a row that carries the key as its
   * `name` unless the stored value has a `name` of its own.
   */
  function ReportRows(entries: seq<(string, Row)>): (rows: seq<Row>)
    ensures |rows| == |entries|
    ensures forall i :: 0 <= i < |entries| ==> rows[i].Keys == entries[i].1.Keys + {"name"}
    ensures forall i :: 0 <= i < |entries| ==>
              rows[i]["name"] == if "name" in entries[i].1 then entries[i].1["name"] else Str(entries[i].0)
    ensures forall i, k :: 0 <= i < |entries| && k in entries[i].1 ==> rows[i][k] == entries[i].1[k]
  {
    seq(|entries|, i requires 0 <= i < |entries| => map["name" := Str(entries[i].0)] + entries[i].1)
  }

  /** `name.toUpperCase().replace(/_/g, ' ')`. */
  function DisplayName(name: string): (r: string)
    ensures |r| == |name|
    ensures forall i :: 0 <= i < |name| ==> r[i] == if name[i] == '_' then ' ' else UpperChar(name[i])
  {
    ReplaceAll(Upper(name), '_', ' ')
  }

  /** A display name has no underscore and no lower-case ASCII letter. */
  lemma DisplayNameShape(name: string)
    ensures forall i :: 0 <= i < |DisplayName(name)| ==> DisplayName(name)[i] != '_' && !('a' <= DisplayName(name)[i] <= 'z')
  {
    var r := DisplayName(name);
    forall i | 0 <= i < |r| ensures r[i] != '_' && !('a' <= r[i] <= 'z') {
      assert r[i] == if name[i] == '_' then ' ' else UpperChar(name[i]);
    }
  }

  datatype Arrow = Down | Up

  /** What the result column shows. */
  datatype Cell = Bare(value: Value) | Marked(arrow: Arrow, colour: string, value: Value)

  /**
   * `x < n` for a stored value x and a number n: the value is converted
   * with `Number`. A non-blank text that converts reads as `parseFloat`
   * reads it.
   */
  function NumericValue(v: Value): (r: Option<real>)
    ensures v.Num? ==> r == Some(v.n)
    ensures v.Str? && JsText.Trim(v.s) != [] && r.Some? ==> r == ParseFloat(v.s)
  {
    match v
    case Num(n) => Some(n)
    case Str(s) => ToNumberAgreesWithParseFloat(s); ToNumber(s)
    case Bool(b) => Some(if b then 1.0 else 0.0)
    case Null => None
  }

  /** `parseFloat(range?.split('-')[0]) || 0`: the number before the first hyphen, 0 when there is none. */
  function LowerBound(range: Value): (b: real)
    ensures range.Str? && ParseFloat(BeforeFirst(range.s, '-')).Some? ==> b == ParseFloat(BeforeFirst(range.s, '-')).value
    ensures range.Str? && ParseFloat(BeforeFirst(range.s, '-')).None? ==> b == 0.0
    ensures !range.Str? ==> b == 0.0
  {
    if range.Str? then ParseFloat(BeforeFirst(range.s, '-')).GetOr(0.0) else 0.0
  }

  /** The arrow points down exactly when the value is below the lower bound; NaN compares false. */
  function ArrowFor(value: Value, range: Value): (a: Arrow)
    ensures a == Down <==> NumericValue(value).Some? && NumericValue(value).value < LowerBound(range)
  {
    var n := NumericValue(value);
    if n.Some? && n.value < LowerBound(range) then Down else Up
  }

  /** The result cell of one row: a bare value unless the status is abnormal or critical. */
  function ResultCell(row: Row): (c: Cell)
    ensures c.Marked? <==> Get(row, "status") in {Str("abnormal"), Str("critical")}
    ensures c.value == Get(row, "value")
    ensures c.Marked? ==> c.arrow == ArrowFor(Get(row, "value"), Get(row, "reference_range"))
    ensures c.Marked? ==> (c.colour == "#d32f2f" <==> Get(row, "status") == Str("critical"))
  {
    var status := Get(row, "status");
    var value := Get(row, "value");
    if status == Str("abnormal") || status == Str("critical") then
      Marked(ArrowFor(value, Get(row, "reference_range")),
             if status == Str("critical") then "#d32f2f" else "#f57c00", value)
    else Bare(value)
  }

  /** Text that starts with '>' holds no number `parseFloat` can read. */
  lemma NoNumberAfterMarker(t: string)
    requires t != [] && t[0] == '>'
    ensures ParseFloat(t).None?
  {
    assert !IsSpace(t[0]);
    assert TrimStart(t) == t;
    assert DigitRun(t, 0) == 0;
  }

  /**
   * A one-sided range ">min" has no number before a hyphen, so its bound
   * falls to 0, and every non-negative flagged value gets the up arrow,
   * although the classifier flags such a value only when it is at or below min.
   */
  lemma OneSidedRangeShowsUp(range: string, value: Value)
    requires range != [] && range[0] == '>'
    requires NumericValue(value).Some? && NumericValue(value).value >= 0.0
    ensures LowerBound(Str(range)) == 0.0
    ensures ArrowFor(value, Str(range)) == Up
  {
    var head := BeforeFirst(range, '-');
    assert head != [] && head[0] == '>';
    NoNumberAfterMarker(head);
  }

  /**
   * On a range "a-b" the arrow points down exactly when the value is below a,
   * the bound the classifier compares against.
   */
  lemma ArrowOnBoundedRange(a: string, b: string, value: Value, v: real)
    requires StatusCalc.IsNumeral(a)
    requires NumericValue(value) == Some(v)
    ensures LowerBound(Str(a + "-" + b)) == Digits(a) as real
    ensures ArrowFor(value, Str(a + "-" + b)) == Down <==> v < Digits(a) as real
  {
    var s := a + "-" + b;
    assert s[|a|] == '-';
    assert forall i :: 0 <= i < |a| ==> s[i] == a[i];
    BeforeFirstPrefix(s, a);
    StatusCalc.ParseNumeral(a);
  }

  lemma BeforeFirstPrefix(s: string, a: string)
    requires |a| < |s| && s[..|a|] == a && s[|a|] == '-'
    requires forall i :: 0 <= i < |a| ==> IsDigit(a[i])
    ensures BeforeFirst(s, '-') == a
  {
    var r := BeforeFirst(s, '-');
    assert forall i :: 0 <= i < |a| ==> s[i] == a[i] != '-';
    assert |r| <= |a|;
  }
}
