/**
 * Reference-range classification of one measured value: `calculateStatus`
 * of the result-entry form (src/components/TestResultEntry.jsx) and its
 * stand-alone copy in test-status-calc.js. The two differ only in the
 * bounded-range pattern: the form's `(\d+\.?\d*)-(\d+\.?\d*)` wants the
 * digits right against the hyphen, the script's `(\d+\.?\d*)\s*-\s*(\d+\.?\d*)`
 * allows blanks around it. Both are one function here, parameterised by
 * that pattern.
 *
 * Each regular expression is modelled as a scanner that tries start
 * positions from the left, as `String.prototype.match` does. Backtracking
 * cannot produce a different match at a given start: every shorter reading
 * of `\d+\.?\d*` (or of `\s*`) is followed by a digit or a '.' (or a
 * blank), which the rest of the pattern cannot accept, so the greedy
 * reading is the only one that can succeed.
 */
module StatusCalc {
  import opened Wrappers
  import opened JsNumber
  import JsText

  datatype Status = Normal | Abnormal | Critical

  /** The bounded-range pattern: `Tight` is the form's, `Spaced` the test script's. */
  datatype Hyphen = Tight | Spaced

  /** The blanks the pattern allows at i: none for `Tight`, any for `Spaced`. */
  function Gap(s: string, i: nat, hyphen: Hyphen): (r: nat)
    requires i <= |s|
    ensures i <= r <= |s|
  {
    if hyphen == Spaced then JsText.SkipBlanks(s, i) else i
  }

  /** The bounds `(min, max)` the bounded pattern captures when its match starts at i. */
  function BoundedAt(s: string, i: nat, hyphen: Hyphen): (r: Option<(real, real)>)
    requires i <= |s|
    ensures r.Some? ==> r.value.0 >= 0.0 && r.value.1 >= 0.0
    ensures r.Some? ==> i < |s| && IsDigit(s[i])
  {
    if i < |s| && IsDigit(s[i]) then
      var (min, j) := ScanUnsigned(s, i).value;
      var h := Gap(s, j, hyphen);
      if h < |s| && s[h] == '-' then
        var k := Gap(s, h + 1, hyphen);
        if k < |s| && IsDigit(s[k]) then Some((min, ScanUnsigned(s, k).value.0)) else None
      else None
    else None
  }

  /** The leftmost match of the bounded pattern that starts at or after i. */
  function BoundedFrom(s: string, i: nat, hyphen: Hyphen): (r: Option<(real, real)>)
    requires i <= |s|
    ensures r.Some? ==> r.value.0 >= 0.0 && r.value.1 >= 0.0
    decreases |s| - i
  {
    if i == |s| then None
    else if BoundedAt(s, i, hyphen).Some? then BoundedAt(s, i, hyphen)
    else BoundedFrom(s, i + 1, hyphen)
  }

  /** `referenceRange.match(boundedPattern)`, as the captured bounds. */
  function BoundedMatch(s: string, hyphen: Hyphen): Option<(real, real)> {
    BoundedFrom(s, 0, hyphen)
  }

  /** The number the `<`/`>` pattern captures when its match starts at i: the marker, then a digit. */
  function MarkedAt(s: string, marker: char, i: nat): (r: Option<real>)
    ensures r.Some? ==> i + 1 < |s| && s[i] == marker && IsDigit(s[i + 1]) && r.value >= 0.0
  {
    if i + 1 < |s| && s[i] == marker && IsDigit(s[i + 1]) then Some(ScanUnsigned(s, i + 1).value.0) else None
  }

  /** The number right after the leftmost `marker` at or after i that a digit follows. */
  function MarkedFrom(s: string, marker: char, i: nat): (r: Option<real>)
    requires i <= |s|
    ensures r.Some? ==> r.value >= 0.0
    decreases |s| - i
  {
    if i + 1 >= |s| then None
    else if MarkedAt(s, marker, i).Some? then MarkedAt(s, marker, i)
    else MarkedFrom(s, marker, i + 1)
  }

  /** `referenceRange.match(/<(\d+\.?\d*)/)` for marker '<', and likewise for '>'. */
  function MarkedMatch(s: string, marker: char): Option<real> {
    MarkedFrom(s, marker, 0)
  }

  /**
   * `calculateStatus(value, referenceRange)`. A value is flagged only when
   * it is a number and one of the three patterns reads the range; under a
   * bounded range a critical value is always outside it.
   */
  function CalculateStatus(value: string, referenceRange: string, hyphen: Hyphen): (r: Status)
    ensures r != Normal ==>
              value != [] && ParseFloat(value).Some? &&
              (BoundedMatch(referenceRange, hyphen).Some? ||
               MarkedMatch(referenceRange, '<').Some? || MarkedMatch(referenceRange, '>').Some?)
    ensures r == Critical && BoundedMatch(referenceRange, hyphen).Some? ==>
              var v, b := ParseFloat(value).value, BoundedMatch(referenceRange, hyphen).value;
              v < b.0 || v > b.1
  {
    if value == [] || referenceRange == [] then Normal
    else match ParseFloat(value)
      case None => Normal
      case Some(v) =>
        match BoundedMatch(referenceRange, hyphen)
        case Some((min, max)) =>
          if v < min || v > max then
            if v < min * 0.8 || v > max * 1.2 then Critical else Abnormal
          else Normal
        case None =>
          match MarkedMatch(referenceRange, '<')
          case Some(max) =>
            if v >= max then (if v >= max * 1.2 then Critical else Abnormal) else Normal
          case None =>
            match MarkedMatch(referenceRange, '>')
            case Some(min) =>
              if v <= min then (if v <= min * 0.8 then Critical else Abnormal) else Normal
            case None => Normal
  }

  /**
   * The scan finds the leftmost match: when j is the first start at or after
   * i where the bounded pattern matches, its bounds are the answer.
   */
  lemma {:induction false} BoundedFromLeftmost(s: string, i: nat, hyphen: Hyphen, j: nat)
    requires i <= j < |s| && BoundedAt(s, j, hyphen).Some?
    requires forall k :: i <= k < j ==> BoundedAt(s, k, hyphen).None?
    ensures BoundedFrom(s, i, hyphen) == BoundedAt(s, j, hyphen)
    decreases j - i
  {
    if i < j {
      BoundedFromLeftmost(s, i + 1, hyphen, j);
    }
  }

  /** The bounded pattern has no match at or after i exactly when no start there matches. */
  lemma BoundedFromNone(s: string, i: nat, hyphen: Hyphen)
    requires i <= |s|
    ensures BoundedFrom(s, i, hyphen).None? <==> forall k :: i <= k < |s| ==> BoundedAt(s, k, hyphen).None?
  {
    if BoundedFrom(s, i, hyphen).None? {
      NoBoundedStart(s, i, hyphen);
    } else if forall k :: i <= k < |s| ==> BoundedAt(s, k, hyphen).None? {
      NoStartNoBounded(s, i, hyphen);
    }
  }

  lemma {:induction false} NoBoundedStart(s: string, i: nat, hyphen: Hyphen)
    requires i <= |s| && BoundedFrom(s, i, hyphen).None?
    ensures forall k :: i <= k < |s| ==> BoundedAt(s, k, hyphen).None?
    decreases |s| - i
  {
    if i < |s| {
      NoBoundedStart(s, i + 1, hyphen);
    }
  }

  lemma {:induction false} NoStartNoBounded(s: string, i: nat, hyphen: Hyphen)
    requires i <= |s| && forall k :: i <= k < |s| ==> BoundedAt(s, k, hyphen).None?
    ensures BoundedFrom(s, i, hyphen).None?
    decreases |s| - i
  {
    if i < |s| {
      assert BoundedAt(s, i, hyphen).None?;
      NoStartNoBounded(s, i + 1, hyphen);
    }
  }

  /** Likewise for the `<`/`>` pattern: the first start where the marker is followed by a digit gives the answer. */
  lemma {:induction false} MarkedFromLeftmost(s: string, marker: char, i: nat, j: nat)
    requires i <= j < |s| && MarkedAt(s, marker, j).Some?
    requires forall k :: i <= k < j ==> MarkedAt(s, marker, k).None?
    ensures MarkedFrom(s, marker, i) == MarkedAt(s, marker, j)
    decreases j - i
  {
    if i < j {
      assert MarkedAt(s, marker, i).None?;
      MarkedFromLeftmost(s, marker, i + 1, j);
    }
  }

  /** The `<`/`>` pattern has no match at or after i exactly when no start there matches. */
  lemma {:induction false} MarkedFromNone(s: string, marker: char, i: nat)
    requires i <= |s|
    ensures MarkedFrom(s, marker, i).None? <==> forall k :: i <= k < |s| ==> MarkedAt(s, marker, k).None?
    decreases |s| - i
  {
    if i < |s| {
      MarkedFromNone(s, marker, i + 1);
    }
  }

  // ---------------------------------------------------------------------
  // The classification rules
  // ---------------------------------------------------------------------

  /** An empty value, an empty range, or a value `parseFloat` reads as NaN is never flagged. */
  lemma PermissiveDefault(value: string, referenceRange: string, hyphen: Hyphen)
    requires value == [] || referenceRange == [] || ParseFloat(value).None?
    ensures CalculateStatus(value, referenceRange, hyphen) == Normal
  {
  }

  /**
   * Bounded range `min-max`: inside (both ends included) is normal, more
   * than 20% beyond an end is critical, the margin in between is abnormal.
   * Bounds are never negative, so critical implies out of range.
   */
  lemma BoundedRule(value: string, referenceRange: string, hyphen: Hyphen, v: real, min: real, max: real)
    requires value != [] && ParseFloat(value) == Some(v)
    requires BoundedMatch(referenceRange, hyphen) == Some((min, max))
    ensures min >= 0.0 && max >= 0.0
    ensures CalculateStatus(value, referenceRange, hyphen) == Normal <==> min <= v <= max
    ensures CalculateStatus(value, referenceRange, hyphen) == Critical <==> v < min * 0.8 || v > max * 1.2
    ensures CalculateStatus(value, referenceRange, hyphen) == Abnormal <==>
              (min * 0.8 <= v < min && v <= max * 1.2) || (max < v <= max * 1.2 && min * 0.8 <= v)
  {
    assert referenceRange != [];
  }

  /**
   * Upper bound only (`<max`, and no bounded match): below max is normal,
   * from max up to 1.2*max abnormal (so max itself is abnormal), from
   * 1.2*max on critical.
   */
  lemma UpperBoundRule(value: string, referenceRange: string, hyphen: Hyphen, v: real, max: real)
    requires value != [] && ParseFloat(value) == Some(v)
    requires BoundedMatch(referenceRange, hyphen).None? && MarkedMatch(referenceRange, '<') == Some(max)
    ensures CalculateStatus(value, referenceRange, hyphen) == Normal <==> v < max
    ensures CalculateStatus(value, referenceRange, hyphen) == Abnormal <==> max <= v < max * 1.2
    ensures CalculateStatus(value, referenceRange, hyphen) == Critical <==> v >= max * 1.2
  {
    assert referenceRange != [];
  }

  /**
   * Lower bound only (`>min`, and neither other pattern): above min is
   * normal, from 0.8*min (excluded) up to min abnormal, at or below 0.8*min
   * critical.
   */
  lemma LowerBoundRule(value: string, referenceRange: string, hyphen: Hyphen, v: real, min: real)
    requires value != [] && ParseFloat(value) == Some(v)
    requires BoundedMatch(referenceRange, hyphen).None? && MarkedMatch(referenceRange, '<').None?
    requires MarkedMatch(referenceRange, '>') == Some(min)
    ensures CalculateStatus(value, referenceRange, hyphen) == Normal <==> v > min
    ensures CalculateStatus(value, referenceRange, hyphen) == Abnormal <==> min * 0.8 < v <= min
    ensures CalculateStatus(value, referenceRange, hyphen) == Critical <==> v <= min * 0.8
  {
    assert referenceRange != [];
  }

  /** A range that matches none of the three patterns never flags a value. */
  lemma UnparsedRangeIsNormal(value: string, referenceRange: string, hyphen: Hyphen)
    requires BoundedMatch(referenceRange, hyphen).None?
    requires MarkedMatch(referenceRange, '<').None? && MarkedMatch(referenceRange, '>').None?
    ensures CalculateStatus(value, referenceRange, hyphen) == Normal
  {
  }

  /**
   * The same value sitting exactly at 0.8*min is abnormal under a bounded
   * range (the test is a strict `<`) but critical under `>min` (`<=`).
   */
  lemma BoundaryAsymmetry(value: string, bounded: string, lowerOnly: string, hyphen: Hyphen, min: real, max: real)
    requires value != [] && min > 0.0 && ParseFloat(value) == Some(min * 0.8)
    requires BoundedMatch(bounded, hyphen) == Some((min, max)) && min <= max
    requires BoundedMatch(lowerOnly, hyphen).None? && MarkedMatch(lowerOnly, '<').None?
    requires MarkedMatch(lowerOnly, '>') == Some(min)
    ensures CalculateStatus(value, bounded, hyphen) == Abnormal
    ensures CalculateStatus(value, lowerOnly, hyphen) == Critical
  {
    assert bounded != [] && lowerOnly != [];
  }

  /** A reversed range (min > max) never yields normal: every value is below min or above max. */
  lemma ReversedRangeNeverNormal(value: string, referenceRange: string, hyphen: Hyphen, min: real, max: real)
    requires value != [] && ParseFloat(value).Some?
    requires BoundedMatch(referenceRange, hyphen) == Some((min, max)) && min > max
    ensures CalculateStatus(value, referenceRange, hyphen) != Normal
  {
    assert referenceRange != [];
  }

  // ---------------------------------------------------------------------
  // The two patterns on the ranges the templates store ("a - b")
  // ---------------------------------------------------------------------

  predicate IsNumeral(a: string) {
    a != [] && AllDigits(a)
  }

  /** A digit run that ends at j (end of string or a non-digit) is found by DigitRun. */
  lemma {:induction false} DigitRunReaches(s: string, i: nat, j: nat)
    requires i <= j <= |s|
    requires forall k :: i <= k < j ==> IsDigit(s[k])
    requires j == |s| || !IsDigit(s[j])
    ensures DigitRun(s, i) == j
    decreases j - i
  {
    if i < j {
      DigitRunReaches(s, i + 1, j);
    }
  }

  /** A marker character absent from s is never matched. */
  lemma {:induction false} MarkerAbsent(s: string, marker: char, i: nat)
    requires i <= |s|
    requires forall k :: i <= k < |s| ==> s[k] != marker
    ensures MarkedFrom(s, marker, i).None?
    decreases |s| - i
  {
    if i + 1 < |s| {
      MarkerAbsent(s, marker, i + 1);
    }
  }

  /** No start position of "a - b" at or after i matches the form's bounded pattern. */
  lemma {:induction false} TightMissesFrom(a: string, b: string, i: nat)
    requires IsNumeral(a) && IsNumeral(b)
    requires i <= |a + " - " + b|
    ensures BoundedFrom(a + " - " + b, i, Tight).None?
    decreases |a + " - " + b| - i
  {
    var s := a + " - " + b;
    var n := |a|;
    if i < |s| {
      if i < n {
        DigitRunReaches(s, i, n);
        assert s[n] == ' ';
      } else if n + 3 <= i {
        DigitRunReaches(s, i, |s|);
      } else {
        assert !IsDigit(s[i]);
      }
      assert BoundedAt(s, i, Tight).None?;
      TightMissesFrom(a, b, i + 1);
    }
  }

  /**
   * The form's pattern never matches a range written "a - b" (the way every
   * stored template writes it), and such a range has no '<' or '>' either:
   * the form therefore classifies EVERY value against it as normal.
   */
  lemma {:induction false} SpacedRangeNeverFlaggedByForm(a: string, b: string, value: string)
    requires IsNumeral(a) && IsNumeral(b)
    ensures BoundedMatch(a + " - " + b, Tight).None?
    ensures CalculateStatus(value, a + " - " + b, Tight) == Normal
  {
    var s := a + " - " + b;
    TightMissesFrom(a, b, 0);
    MarkerAbsent(s, '<', 0);
    MarkerAbsent(s, '>', 0);
  }

  /** A run of digits from i to j, followed by neither a digit nor a '.', reads as the number it denotes. */
  lemma ScanNumeral(s: string, i: nat, j: nat)
    requires i < j <= |s| && AllDigits(s[i..j])
    requires j == |s| || (!IsDigit(s[j]) && s[j] != '.')
    ensures ScanUnsigned(s, i) == Some((Digits(s[i..j]) as real, j))
  {
    forall k | i <= k < j ensures IsDigit(s[k]) {
      assert s[k] == s[i..j][k - i];
    }
    DigitRunReaches(s, i, j);
  }

  /** The form's pattern reads "a-b" as the bounds (a, b). */
  lemma {:induction false} TightReadsRange(a: string, b: string)
    requires IsNumeral(a) && IsNumeral(b)
    ensures BoundedMatch(a + "-" + b, Tight) == Some((Digits(a) as real, Digits(b) as real))
  {
    var s := a + "-" + b;
    var n := |a|;
    assert s[0..n] == a && s[n] == '-';
    assert s[n + 1..|s|] == b;
    ScanNumeral(s, 0, n);
    ScanNumeral(s, n + 1, |s|);
    assert IsDigit(s[0]) && IsDigit(s[n + 1]);
    TightRangeAt(s, n, Digits(a) as real, Digits(b) as real);
  }

  /** Two numbers around a bare '-' at the start of s are matched there by the form's pattern. */
  lemma TightRangeAt(s: string, n: nat, x: real, y: real)
    requires n + 1 < |s| && IsDigit(s[0]) && IsDigit(s[n + 1]) && s[n] == '-'
    requires ScanUnsigned(s, 0) == Some((x, n)) && ScanUnsigned(s, n + 1) == Some((y, |s|))
    ensures BoundedAt(s, 0, Tight) == Some((x, y))
  {
  }

  /** The `<` pattern reads "<b" as the bound b, and the `>` pattern reads ">a" as a. */
  lemma {:induction false} MarkedReads(b: string, marker: char)
    requires IsNumeral(b)
    ensures MarkedMatch([marker] + b, marker) == Some(Digits(b) as real)
  {
    var s := [marker] + b;
    assert s[1..|s|] == b;
    ScanNumeral(s, 1, |s|);
    assert s[0] == marker && IsDigit(s[1]);
    assert MarkedAt(s, marker, 0) == Some(Digits(b) as real);
  }

  /** The test script's pattern reads "a - b" as the bounds (a, b). */
  lemma {:induction false} ScriptReadsSpacedRange(a: string, b: string)
    requires IsNumeral(a) && IsNumeral(b)
    ensures BoundedMatch(a + " - " + b, Spaced) == Some((Digits(a) as real, Digits(b) as real))
  {
    var s := a + " - " + b;
    var n := |a|;
    assert s[0..n] == a && s[n] == ' ' && s[n + 1] == '-' && s[n + 2] == ' ';
    assert s[n + 3..|s|] == b;
    ScanNumeral(s, 0, n);
    ScanNumeral(s, n + 3, |s|);
    assert IsDigit(s[0]) && IsDigit(s[n + 3]);
    SpacedRangeAt(s, n, Digits(a) as real, Digits(b) as real);
  }

  /** Two numbers around " - " at the start of s are matched there by the script's pattern. */
  lemma SpacedRangeAt(s: string, n: nat, x: real, y: real)
    requires n + 3 < |s| && IsDigit(s[0]) && IsDigit(s[n + 3])
    requires ScanUnsigned(s, 0) == Some((x, n)) && ScanUnsigned(s, n + 3) == Some((y, |s|))
    requires s[n] == ' ' && s[n + 1] == '-' && s[n + 2] == ' '
    ensures BoundedAt(s, 0, Spaced) == Some((x, y))
  {
    OneBlank(s, n);
    OneBlank(s, n + 2);
    BoundedAtSteps(s, 0, Spaced, x, n, n + 1, n + 3, y);
  }

  /** The bounded pattern at i, read off its parts: the first number, the hyphen, the second number. */
  lemma BoundedAtSteps(s: string, i: nat, hyphen: Hyphen, min: real, j: nat, h: nat, k: nat, max: real)
    requires i < |s| && IsDigit(s[i]) && ScanUnsigned(s, i) == Some((min, j))
    requires Gap(s, j, hyphen) == h && h < |s| && s[h] == '-'
    requires Gap(s, h + 1, hyphen) == k && k < |s| && IsDigit(s[k]) && ScanUnsigned(s, k).value.0 == max
    ensures BoundedAt(s, i, hyphen) == Some((min, max))
  {
  }

  /** The script's `\s*` at a single blank followed by a non-blank reads just that blank. */
  lemma OneBlank(s: string, i: nat)
    requires i + 1 < |s| && s[i] == ' ' && !JsText.IsSpace(s[i + 1])
    ensures Gap(s, i, Spaced) == i + 1
  {
    assert JsText.SkipBlanks(s, i + 1) == i + 1;
  }

  /**
   * Without blanks in the range the two patterns coincide, so the form and
   * the script agree on every value.
   */
  lemma FormAgreesWithScriptWithoutBlanks(value: string, referenceRange: string)
    requires JsText.NoSpace(referenceRange)
    ensures CalculateStatus(value, referenceRange, Tight) == CalculateStatus(value, referenceRange, Spaced)
  {
    BlankFreeSameMatch(referenceRange, 0);
  }

  lemma {:induction false} BlankFreeSameMatch(s: string, i: nat)
    requires JsText.NoSpace(s) && i <= |s|
    ensures BoundedFrom(s, i, Tight) == BoundedFrom(s, i, Spaced)
    decreases |s| - i
  {
    if i < |s| {
      BlankFreeSameMatch(s, i + 1);
    }
  }

  // ---------------------------------------------------------------------
  // The test script's five vectors, on the neutrophil range "40 - 70"
  // ---------------------------------------------------------------------

  /** `parseFloat` of a plain digit string is the number it denotes. */
  lemma ParseNumeral(s: string)
    requires IsNumeral(s)
    ensures ParseFloat(s) == Some(Digits(s) as real)
  {
    assert !JsText.IsSpace(s[0]);
    assert JsText.TrimStart(s) == s;
    assert s[0..|s|] == s;
    ScanNumeral(s, 0, |s|);
  }

  /** The value of a two-digit numeral. */
  lemma TwoDigits(s: string)
    requires |s| == 2 && AllDigits(s)
    ensures Digits(s) == 10 * DigitValue(s[0]) + DigitValue(s[1])
  {
    assert Digits(s) == 10 * Digits(s[..1]) + DigitValue(s[1]);
    assert s[..1][..0] == [];
    assert Digits(s[..1]) == DigitValue(s[0]);
  }

  /** The neutrophil range "40 - 70" reads as the bounds 40 and 70 under the script's pattern. */
  lemma NeutrophilBounds(range: string)
    requires range == "40 - 70"
    ensures BoundedMatch(range, Spaced) == Some((40.0, 70.0))
  {
    var a, b := "40", "70";
    TwoDigits(a);
    TwoDigits(b);
    ScriptReadsSpacedRange(a, b);
    assert a + " - " + b == range;
  }

  /** The script on "40 - 70": normal in [40, 70], critical below 32 or above 84, abnormal between. */
  lemma ScriptOnNeutrophilRange(value: string, v: real, range: string)
    requires range == "40 - 70"
    requires value != [] && ParseFloat(value) == Some(v)
    ensures CalculateStatus(value, range, Spaced) ==
              if 40.0 <= v <= 70.0 then Normal
              else if v < 32.0 || v > 84.0 then Critical
              else Abnormal
  {
    NeutrophilBounds(range);
    BoundedRule(value, range, Spaced, v, 40.0, 70.0);
  }

  /** `parseFloat` of a two-digit literal from the script. */
  lemma ParseTwoDigits(value: string)
    requires |value| == 2 && AllDigits(value)
    ensures ParseFloat(value) == Some((10 * DigitValue(value[0]) + DigitValue(value[1])) as real)
  {
    TwoDigits(value);
    var n := Digits(value);
    assert n == 10 * DigitValue(value[0]) + DigitValue(value[1]);
    ParseNumeral(value);
    assert ParseFloat(value) == Some(n as real);
  }

  /**
   * The script's expectations on "40 - 70", for a value read as each of its
   * five numbers: 29 critical (below 32 = 0.8*40), 35 abnormal, 50 normal,
   * 75 abnormal, 90 critical (above 84 = 1.2*70).
   */
  lemma ScriptTestVectors(value: string, range: string)
    requires range == "40 - 70" && value != []
    ensures ParseFloat(value) == Some(29.0) ==> CalculateStatus(value, range, Spaced) == Critical
    ensures ParseFloat(value) == Some(35.0) ==> CalculateStatus(value, range, Spaced) == Abnormal
    ensures ParseFloat(value) == Some(50.0) ==> CalculateStatus(value, range, Spaced) == Normal
    ensures ParseFloat(value) == Some(75.0) ==> CalculateStatus(value, range, Spaced) == Abnormal
    ensures ParseFloat(value) == Some(90.0) ==> CalculateStatus(value, range, Spaced) == Critical
  {
    if ParseFloat(value).Some? {
      ScriptOnNeutrophilRange(value, ParseFloat(value).value, range);
    }
  }
}
