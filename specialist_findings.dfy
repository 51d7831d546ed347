/** `_quick_analyze_findings` (src/specialist/specialist_advisor.py): a
    rule-based reading of the observations that picks the findings named in
    the prompt to the medical model. */
module SpecialistFindings {
  import opened Wrappers
  import opened Collections
  import opened Text
  import opened JsonValues

  /** The findings used when no observation gives one. */
  const DefaultFindings: seq<string> := ["High WBC", "High Creatinine", "Low Potassium"]

  /** The `if`/`elif` chain for one observation, on its lower-cased test name
      and upper-cased flag. */
  function FindingFor(testName: string, flag: string): Option<string> {
    if flag == "H" then
      if Contains(testName, "wbc") then Some("High WBC")
      else if Contains(testName, "creatinine") then Some("High Creatinine")
      else if Contains(testName, "glucose") then Some("High Glucose")
      else if Contains(testName, "cholesterol") then Some("High Cholesterol")
      else None
    else if flag == "L" then
      if Contains(testName, "potassium") then Some("Low Potassium")
      else if Contains(testName, "hemoglobin") then Some("Low Hemoglobin")
      else None
    else None
  }

  /** A rule: a test-name fragment and the finding it signals. */
  datatype Rule = Rule(fragment: string, finding: string)

  /** The rules for high values and for low values, in the order they are tried. */
  const HighRules: seq<Rule> := [
    Rule("wbc", "High WBC"), Rule("creatinine", "High Creatinine"),
    Rule("glucose", "High Glucose"), Rule("cholesterol", "High Cholesterol")
  ]
  const LowRules: seq<Rule> := [Rule("potassium", "Low Potassium"), Rule("hemoglobin", "Low Hemoglobin")]

  /** The finding of the first rule whose fragment occurs in the name. */
  function FirstMatch(rules: seq<Rule>, testName: string): (f: Option<string>)
    ensures f == None <==> forall k :: 0 <= k < |rules| ==> !Contains(testName, rules[k].fragment)
    ensures f.Some? ==> exists k :: (0 <= k < |rules| && Contains(testName, rules[k].fragment) &&
                                     f.value == rules[k].finding &&
                                     forall j :: 0 <= j < k ==> !Contains(testName, rules[j].fragment))
    decreases |rules|
  {
    if rules == [] then None
    else if Contains(testName, rules[0].fragment) then Some(rules[0].finding)
    else
      var f := FirstMatch(rules[1..], testName);
      assert forall k :: 1 <= k < |rules| ==> rules[k] == rules[1..][k - 1];
      f
  }

  /** The chain is the first match in the rule table of its flag: one finding
      at most per observation, and the earlier rule wins. */
  lemma FindingForIsFirstMatch(testName: string, flag: string)
    ensures FindingFor(testName, flag) ==
      if flag == "H" then FirstMatch(HighRules, testName)
      else if flag == "L" then FirstMatch(LowRules, testName)
      else None
  {
    assert HighRules[1..][1..][1..][1..] == [];
    assert LowRules[1..][1..] == [];
  }

  /** What one observation contributes: `None` when reading it raises (it is
      not a dictionary, or its test name or flag is not a string), otherwise
      its finding, if any. */
  function Classify(obs: Json): Option<Option<string>> {
    if !obs.JObject? then None
    else
      var testName := Get(obs.fields, "test_name", JString(""));
      var flag := Get(obs.fields, "flag", JString("N"));
      if !testName.JString? || !flag.JString? then None
      else Some(FindingFor(Lower(testName.s), Upper(flag.s)))
  }

  /** The findings gathered from `items` in order, up to the first one whose
      reading raises; the exception ends the loop, keeping what came before. */
  function Collected(items: seq<Json>): seq<string>
    decreases |items|
  {
    if items == [] then []
    else match Classify(items[0])
      case None => []
      case Some(None) => Collected(items[1..])
      case Some(Some(f)) => [f] + Collected(items[1..])
  }

  /** The observations the loop runs over: the list under "observations" of
      a dictionary.  Anything else gives no finding (a missing key iterates
      the default `[]`; a non-dictionary, a non-list or a bad parse raises). */
  function ObservationItems(parsed: Option<Json>): seq<Json> {
    if parsed.Some? && parsed.value.JObject? then
      match Get(parsed.value.fields, "observations", JArray([]))
      case JArray(items) => items
      case _ => []
    else []
  }

  /** The findings of a block of well-formed observations come first, followed
      by those of the observations after it. */
  lemma {:induction false} CollectedAppend(a: seq<Json>, b: seq<Json>)
    requires forall k :: 0 <= k < |a| ==> Classify(a[k]).Some?
    ensures Collected(a + b) == Collected(a) + Collected(b)
    decreases |a|
  {
    if a == [] {
      assert a + b == b;
    } else {
      assert (a + b)[0] == a[0];
      assert (a + b)[1..] == a[1..] + b;
      CollectedAppend(a[1..], b);
    }
  }

  /** Every finding is one of the six rule findings; at most one per observation. */
  lemma {:induction false} CollectedBounds(items: seq<Json>)
    ensures |Collected(items)| <= |items|
    ensures forall k :: 0 <= k < |Collected(items)| ==>
      Collected(items)[k] in {"High WBC", "High Creatinine", "High Glucose", "High Cholesterol", "Low Potassium", "Low Hemoglobin"}
    decreases |items|
  {
    if items != [] {
      CollectedBounds(items[1..]);
    }
  }

  /** The findings list an observation's finding adds. */
  function Found(f: Option<string>): seq<string> {
    if f.Some? then [f.value] else []
  }

  lemma CollectedStep(items: seq<Json>, i: nat)
    requires i < |items| && Classify(items[i]).Some?
    ensures Collected(items[i..]) == Found(Classify(items[i]).value) + Collected(items[i + 1..])
  {
    assert items[i..][1..] == items[i + 1..];
  }

  /** `_quick_analyze_findings` on the result of `json.loads` (`None` when the
      text does not parse). */
  method QuickAnalyzeFindings(parsed: Option<Json>) returns (findings: seq<string>)
    ensures |findings| > 0
    ensures Collected(ObservationItems(parsed)) != [] ==> findings == Collected(ObservationItems(parsed))
    ensures Collected(ObservationItems(parsed)) == [] ==> findings == DefaultFindings
  {
    findings := [];
    var items := ObservationItems(parsed);
    var i := 0;
    while i < |items|
      invariant i <= |items|
      invariant forall k :: 0 <= k < i ==> Classify(items[k]).Some?
      invariant Collected(items) == findings + Collected(items[i..])
    {
      var obs := items[i];
      ghost var before := findings;
      if !obs.JObject? {
        break;
      }
      var testName := Get(obs.fields, "test_name", JString(""));
      var flag := Get(obs.fields, "flag", JString("N"));
      if !testName.JString? || !flag.JString? {
        break;
      }
      var found := FindingFor(Lower(testName.s), Upper(flag.s));
      if found.Some? {
        findings := findings + [found.value];
      }
      CollectedStep(items, i);
      assert Collected(items) == before + (Found(found) + Collected(items[i + 1..]));
      i := i + 1;
    }
    if i == |items| {
      assert items[i..] == [];
    }
    if findings == [] {
      findings := DefaultFindings;
    }
  }
}
