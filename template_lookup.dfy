/**
 * `testTemplatesAPI.getTemplateByTestName` (src/lib/newApi.js): the active
 * templates are searched for the one a bill's test name refers to. The name
 * is trimmed and lower-cased; a copy with a leading "serum", "blood" and
 * "urine" stripped is also formed; three searches are then tried in turn,
 * each returning the first template of the list it accepts.
 */
module TemplateLookup {
  import opened Wrappers
  import opened JsText
  import Lists

  /** A test template; `testCode` is "" when the template has none. */
  datatype Template = Template(testName: string, testCode: string)

  /** `testName.trim().toLowerCase()`. */
  function Normalize(testName: string): (q: string)
    ensures |q| <= |testName|
  {
    Lower(Trim(testName))
  }

  /** s starts with `word`, in any letter case: the test each prefix pattern makes. */
  predicate StartsWithWord(s: string, word: string) {
    |word| <= |s| && Lower(s[..|word|]) == word
  }

  /**
   * `s.replace(/^<word>\s*-?\s*\/i, '')`: when s starts with the word (in
   * any letter case), the word, the blanks after it, one optional hyphen and
   * the blanks after that are removed; otherwise s is unchanged.
   */
  function StripPrefix(s: string, word: string): (r: string)
    ensures !StartsWithWord(s, word) ==> r == s
    ensures StartsWithWord(s, word) ==>
              |r| <= |s| - |word| && r == s[|s| - |r|..] && (r == [] || !IsSpace(r[0]))
  {
    if StartsWithWord(s, word) then
      var i := SkipBlanks(s, |word|);
      var j := if i < |s| && s[i] == '-' then SkipBlanks(s, i + 1) else i;
      s[j..]
    else s
  }

  /**
   * The query with the specimen prefixes removed, in the order serum,
   * blood, urine, then trimmed. It is never longer than the query, and a
   * query that starts with none of the three words is only trimmed.
   */
  function CleanQuery(normalized: string): (cleaned: string)
    ensures |cleaned| <= |normalized|
    ensures (!StartsWithWord(normalized, "serum") && !StartsWithWord(normalized, "blood") &&
             !StartsWithWord(normalized, "urine")) ==> cleaned == Trim(normalized)
  {
    Trim(StripPrefix(StripPrefix(StripPrefix(normalized, "serum"), "blood"), "urine"))
  }

  /** Tiers one and two: the template's name or code equals the query. Tier three accepts every such template too. */
  predicate ExactHit(t: Template, q: string)
    ensures ExactHit(t, q) ==> PartialHit(t, q)
  {
    assert StartsWith(q, q);
    Lower(t.testName) == q || (t.testCode != [] && Lower(t.testCode) == q)
  }

  /** Tier three: either name contains the other, or the query contains the code. The empty query hits every template. */
  predicate PartialHit(t: Template, q: string)
    ensures q == [] ==> PartialHit(t, q)
  {
    ContainsEmpty(Lower(t.testName));
    Contains(Lower(t.testName), q) || Contains(q, Lower(t.testName)) ||
    (t.testCode != [] && Contains(q, Lower(t.testCode)))
  }

  /** The three tiers for a normalised query q and its cleaned form. */
  function Lookup(templates: seq<Template>, q: string, cleaned: string): (r: Option<Template>)
    ensures r.Some? ==> r.value in templates
    ensures r.None? <==>
              forall t :: t in templates ==> !ExactHit(t, q) && !ExactHit(t, cleaned) && !PartialHit(t, cleaned)
  {
    var exact := Lists.Find(templates, (t: Template) => ExactHit(t, q));
    if exact.Some? then exact
    else
      var second := Lists.Find(templates, (t: Template) => ExactHit(t, cleaned));
      if second.Some? then second
      else Lists.Find(templates, (t: Template) => PartialHit(t, cleaned))
  }

  /**
   * The template for a test name: the first exact hit on the normalised
   * name, else the first exact hit on the cleaned name, else the first
   * partial hit on the cleaned name; `None` (null) when nothing hits.
   * `active` is the answer of the query for the active templates, `None`
   * when it failed; the failure is caught and the answer is null.
   */
  function GetTemplateByTestName(active: Option<seq<Template>>, testName: string): (r: Option<Template>)
    ensures active.None? ==> r.None?
    ensures r.Some? ==> active.Some? && r.value in active.value
  {
    match active
    case None => None
    case Some(templates) =>
      var q := Normalize(testName);
      Lookup(templates, q, CleanQuery(q))
  }

  /** The look-up answers null exactly when no tier accepts any template. */
  lemma NullIffNoTierHits(templates: seq<Template>, testName: string, q: string, cleaned: string)
    requires q == Normalize(testName) && cleaned == CleanQuery(q)
    ensures GetTemplateByTestName(Some(templates), testName).None? <==>
              forall t :: t in templates ==> !ExactHit(t, q) && !ExactHit(t, cleaned) && !PartialHit(t, cleaned)
  {
    assert GetTemplateByTestName(Some(templates), testName) == Lookup(templates, q, cleaned);
  }

  /** The first template of the list that an exact match on the normalised name accepts is the answer. */
  lemma ExactMatchWins(templates: seq<Template>, testName: string, i: nat)
    requires i < |templates| && ExactHit(templates[i], Normalize(testName))
    requires forall j :: 0 <= j < i ==> !ExactHit(templates[j], Normalize(testName))
    ensures GetTemplateByTestName(Some(templates), testName) == Some(templates[i])
  {
    var q := Normalize(testName);
    FirstTierWins(templates, q, CleanQuery(q), i);
  }

  lemma FirstTierWins(templates: seq<Template>, q: string, cleaned: string, i: nat)
    requires i < |templates| && ExactHit(templates[i], q)
    requires forall j :: 0 <= j < i ==> !ExactHit(templates[j], q)
    ensures Lookup(templates, q, cleaned) == Some(templates[i])
  {
    var r := Lists.Find(templates, (t: Template) => ExactHit(t, q));
    var k :| 0 <= k < |templates| && templates[k] == r.value && ExactHit(templates[k], q) &&
             forall j :: 0 <= j < k ==> !ExactHit(templates[j], q);
    assert !(k < i) && !(i < k);
  }

  /** When no template matches the name exactly, the first exact hit on the cleaned name wins, ahead of any partial hit. */
  lemma SecondTierWins(templates: seq<Template>, q: string, cleaned: string, i: nat)
    requires forall t :: t in templates ==> !ExactHit(t, q)
    requires i < |templates| && ExactHit(templates[i], cleaned)
    requires forall j :: 0 <= j < i ==> !ExactHit(templates[j], cleaned)
    ensures Lookup(templates, q, cleaned) == Some(templates[i])
  {
    assert Lists.Find(templates, (t: Template) => ExactHit(t, q)).None?;
    var r := Lists.Find(templates, (t: Template) => ExactHit(t, cleaned));
    var k :| 0 <= k < |templates| && templates[k] == r.value && ExactHit(templates[k], cleaned) &&
             forall j :: 0 <= j < k ==> !ExactHit(templates[j], cleaned);
    assert !(k < i) && !(i < k);
  }

  /** When neither name matches any template exactly, the first partial hit on the cleaned name wins. */
  lemma ThirdTierWins(templates: seq<Template>, q: string, cleaned: string, i: nat)
    requires forall t :: t in templates ==> !ExactHit(t, q) && !ExactHit(t, cleaned)
    requires i < |templates| && PartialHit(templates[i], cleaned)
    requires forall j :: 0 <= j < i ==> !PartialHit(templates[j], cleaned)
    ensures Lookup(templates, q, cleaned) == Some(templates[i])
  {
    assert Lists.Find(templates, (t: Template) => ExactHit(t, q)).None?;
    assert Lists.Find(templates, (t: Template) => ExactHit(t, cleaned)).None?;
    var r := Lists.Find(templates, (t: Template) => PartialHit(t, cleaned));
    var k :| 0 <= k < |templates| && templates[k] == r.value && PartialHit(templates[k], cleaned) &&
             forall j :: 0 <= j < k ==> !PartialHit(templates[j], cleaned);
    assert !(k < i) && !(i < k);
  }

  /** For a test name: with no exact hit on the normalised name, the first exact hit on the cleaned name is the answer. */
  lemma CleanedMatchWins(templates: seq<Template>, testName: string, i: nat)
    requires forall t :: t in templates ==> !ExactHit(t, Normalize(testName))
    requires i < |templates| && ExactHit(templates[i], CleanQuery(Normalize(testName)))
    requires forall j :: 0 <= j < i ==> !ExactHit(templates[j], CleanQuery(Normalize(testName)))
    ensures GetTemplateByTestName(Some(templates), testName) == Some(templates[i])
  {
    var q := Normalize(testName);
    SecondTierWins(templates, q, CleanQuery(q), i);
  }

  /** For a test name: with no exact hit on either form, the first partial hit on the cleaned name is the answer. */
  lemma PartialMatchWins(templates: seq<Template>, testName: string, i: nat)
    requires forall t :: t in templates ==>
               !ExactHit(t, Normalize(testName)) && !ExactHit(t, CleanQuery(Normalize(testName)))
    requires i < |templates| && PartialHit(templates[i], CleanQuery(Normalize(testName)))
    requires forall j :: 0 <= j < i ==> !PartialHit(templates[j], CleanQuery(Normalize(testName)))
    ensures GetTemplateByTestName(Some(templates), testName) == Some(templates[i])
  {
    var q := Normalize(testName);
    ThirdTierWins(templates, q, CleanQuery(q), i);
  }

  /** Every string contains the empty string, so an empty cleaned query reaches the third tier and takes the first template. */
  lemma EmptyCleanedQueryTakesFirst(templates: seq<Template>, testName: string)
    requires templates != []
    requires CleanQuery(Normalize(testName)) == []
    requires forall t :: t in templates ==> !ExactHit(t, Normalize(testName)) && !ExactHit(t, [])
    ensures GetTemplateByTestName(Some(templates), testName) == Some(templates[0])
  {
    EmptyQueryThirdTier(templates, Normalize(testName));
  }

  lemma EmptyQueryThirdTier(templates: seq<Template>, q: string)
    requires templates != []
    requires forall t :: t in templates ==> !ExactHit(t, q) && !ExactHit(t, [])
    ensures Lookup(templates, q, []) == Some(templates[0])
  {
    ContainsEmpty(Lower(templates[0].testName));
    assert PartialHit(templates[0], []);
    var r := Lists.Find(templates, (t: Template) => PartialHit(t, []));
    assert r.Some?;
    var k :| 0 <= k < |templates| && templates[k] == r.value && PartialHit(templates[k], []) &&
             forall j :: 0 <= j < k ==> !PartialHit(templates[j], []);
    assert k == 0;
  }

  /** Every slice of a lower-case string is lower-case. */
  lemma LowerSlice(q: string, i: nat, j: nat)
    requires i <= j <= |q| && Lower(q) == q
    ensures Lower(q[i..j]) == q[i..j]
  {
    forall k | 0 <= k < j - i ensures Lower(q[i..j])[k] == q[i..j][k] {
      assert Lower(q)[i + k] == LowerChar(q[i + k]);
    }
  }

  /** Lower-casing twice is lower-casing once, so a normalised query is lower-case. */
  lemma LowerIdempotent(s: string)
    ensures Lower(Lower(s)) == Lower(s)
  {
  }

  /** A query that is just a specimen word cleans to the empty query. */
  lemma {:induction false} SpecimenWordAloneCleansToEmpty(testName: string)
    requires Normalize(testName) == "serum"
    ensures CleanQuery(Normalize(testName)) == []
  {
    var q := Normalize(testName);
    LowerIdempotent(Trim(testName));
    assert q[..5] == q;
    assert StripPrefix(q, "serum") == [];
    assert StripPrefix([], "blood") == [] && StripPrefix([], "urine") == [];
    assert TrimStart([]) == [];
  }

  /** "serum - <rest>" cleans to rest: the word, the blanks and the one hyphen all go. */
  lemma {:induction false} SpecimenPrefixStripped(q: string, rest: string)
    requires Lower(q) == q && q == "serum - " + rest
    requires rest != [] && Trim(rest) == rest
    requires !StartsWith(rest, "blood") && !StartsWith(rest, "urine")
    ensures CleanQuery(q) == rest
  {
    assert q[..5] == "serum";
    LowerSlice(q, 0, 5);
    assert TrimStart(rest) == rest;
    assert q[5] == ' ' && q[6] == '-' && q[7] == ' ' && q[8] == rest[0] && !IsSpace(rest[0]);
    assert SkipBlanks(q, 6) == 6;
    assert SkipBlanks(q, 5) == 6;
    assert SkipBlanks(q, 8) == 8;
    assert SkipBlanks(q, 7) == 8;
    assert q[8..] == rest;
    assert StripPrefix(q, "serum") == rest;
    if 5 <= |rest| {
      LowerSlice(q, 8, 13);
      assert q[8..13] == rest[..5];
    }
    assert StripPrefix(rest, "blood") == rest;
    assert StripPrefix(rest, "urine") == rest;
  }
}
