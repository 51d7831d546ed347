/** The checks the advisor applies to a formatting model's reply
    (src/specialist/specialist_advisor.py): `_validate_json_structure` and the
    two markdown-fence cleanups that run before `json.loads`. */
module SpecialistJson {
  import opened Text
  import opened JsonValues

  // ---------------------------------------------------------------------
  // _validate_json_structure

  const RequiredKeys: seq<string> := ["diet_plan", "exercise_plan", "disclaimer"]

  /** `_validate_json_structure`: the three top-level keys are present, the
      two plans are dictionaries, and `recommendations`, when present, is a
      list.  On a value that is not a dictionary the key test either fails or
      the subscript raises, and the `except` answers false. */
  function ValidateJsonStructure(data: Json): bool {
    if !data.JObject? then false
    else if "diet_plan" !in data.fields || "exercise_plan" !in data.fields || "disclaimer" !in data.fields then false
    else if !data.fields["diet_plan"].JObject? then false
    else if !data.fields["exercise_plan"].JObject? then false
    else if "recommendations" in data.fields["exercise_plan"].fields
      && !data.fields["exercise_plan"].fields["recommendations"].JArray? then false
    else true
  }

  /** A reply missing any required key is rejected. */
  lemma MissingKeyRejected(data: Json, k: nat)
    requires data.JObject? && k < |RequiredKeys| && RequiredKeys[k] !in data.fields
    ensures !ValidateJsonStructure(data)
  {
  }

  /** A reply that is not a dictionary is rejected. */
  lemma NonObjectRejected(data: Json)
    requires !data.JObject?
    ensures !ValidateJsonStructure(data)
  {
  }

  /** An accepted reply has exactly the shape the check looks for. */
  lemma AcceptedShape(data: Json)
    requires ValidateJsonStructure(data)
    ensures data.JObject?
    ensures forall k :: 0 <= k < |RequiredKeys| ==> RequiredKeys[k] in data.fields
    ensures "diet_plan" in data.fields && "exercise_plan" in data.fields
    ensures data.fields["diet_plan"].JObject? && data.fields["exercise_plan"].JObject?
    ensures "recommendations" in data.fields["exercise_plan"].fields ==>
      data.fields["exercise_plan"].fields["recommendations"].JArray?
  {
  }

  /** Keys other than the three required ones play no part in the verdict. */
  lemma ExtraKeyIrrelevant(fields: map<string, Json>, key: string, value: Json)
    requires key !in RequiredKeys
    ensures ValidateJsonStructure(JObject(fields[key := value])) == ValidateJsonStructure(JObject(fields))
  {
    var m := fields[key := value];
    if exists k :: 0 <= k < |RequiredKeys| && RequiredKeys[k] !in fields {
      var k :| 0 <= k < |RequiredKeys| && RequiredKeys[k] !in fields;
      assert RequiredKeys[k] !in m;
    } else {
      assert forall k :: 0 <= k < |RequiredKeys| ==> m[RequiredKeys[k]] == fields[RequiredKeys[k]];
    }
  }

  /** A dictionary reply is accepted exactly when it has the three required
      keys, both plans are dictionaries and the exercise plan's
      `recommendations`, if any, is a list; the disclaimer may hold any value
      and other keys may be present. */
  lemma ShapeAccepted(fields: map<string, Json>)
    ensures ValidateJsonStructure(JObject(fields)) <==>
      && (forall k :: 0 <= k < |RequiredKeys| ==> RequiredKeys[k] in fields)
      && "diet_plan" in fields && fields["diet_plan"].JObject?
      && "exercise_plan" in fields && fields["exercise_plan"].JObject?
      && ("recommendations" in fields["exercise_plan"].fields ==>
            fields["exercise_plan"].fields["recommendations"].JArray?)
  {
    if forall k :: 0 <= k < |RequiredKeys| ==> RequiredKeys[k] in fields {
      assert "disclaimer" in fields by { assert RequiredKeys[2] in fields; }
    }
  }

  // ---------------------------------------------------------------------
  // Fence cleanups

  const JsonFence: string := "```json"
  const Fence: string := "```"

  /** The text after a leading "```json", or else after a leading "```". */
  function AfterOpening(s: string): string {
    if JsonFence <= s then s[7..] else if Fence <= s then s[3..] else s
  }

  /** The text before a trailing "```". */
  function BeforeClosing(s: string): string {
    if EndsWith(s, Fence) then s[..|s| - 3] else s
  }

  lemma BeforeClosingFence(p: string)
    ensures BeforeClosing(p + Fence) == p
  {
    assert (p + Fence)[|p|..] == Fence;
    assert (p + Fence)[..|p|] == p;
  }

  /** The text between the fences that the Gemini cleanup removes. */
  function Unfenced(s: string): string {
    BeforeClosing(AfterOpening(s))
  }

  lemma UnfencedJson(p: string)
    ensures Unfenced(JsonFence + p + Fence) == p
  {
    var s := JsonFence + p + Fence;
    assert s[..7] == JsonFence;
    assert s[7..] == p + Fence;
    BeforeClosingFence(p);
  }

  /** `a` is not a prefix of `b` when they differ at some index. */
  lemma NotPrefixAt(a: string, b: string, k: nat)
    requires k < |a| && k < |b| && a[k] != b[k]
    ensures !(a <= b)
  {
  }

  lemma UnfencedPlain(p: string)
    requires !("json" <= p)
    ensures Unfenced(Fence + p + Fence) == p
  {
    var s := Fence + p + Fence;
    assert s[..3] == Fence;
    if |p| >= 4 {
      assert p[..4] != "json";
      var k :| 0 <= k < 4 && p[k] != "json"[k];
      assert s[3 + k] == p[k] && JsonFence[3 + k] == "json"[k];
      NotPrefixAt(JsonFence, s, 3 + k);
    } else {
      assert s[3 + |p|] == '`' && JsonFence[3 + |p|] != '`';
      NotPrefixAt(JsonFence, s, 3 + |p|);
    }
    assert AfterOpening(s) == p + Fence;
    BeforeClosingFence(p);
  }

  lemma UnfencedNone(s: string)
    requires !(Fence <= s) && !EndsWith(s, Fence)
    ensures Unfenced(s) == s
  {
  }

  /** What the Gemini cleanup leaves of a reply: the stripped text between
      its fences, stripped again. */
  function GeminiCleanup(raw: string): string {
    Strip(Unfenced(Strip(raw)))
  }

  /** The cleanup of a Gemini reply, step by step: strip, drop a leading
      "```json" (or else a leading "```"), drop a trailing "```", strip
      again. */
  method CleanGeminiOutput(raw: string) returns (cleaned: string)
    ensures cleaned == GeminiCleanup(raw)
  {
    cleaned := Strip(raw);
    ghost var stripped := cleaned;
    if JsonFence <= cleaned {
      cleaned := cleaned[7..];
    } else if Fence <= cleaned {
      cleaned := cleaned[3..];
    }
    assert cleaned == AfterOpening(stripped);
    ghost var afterOpen := cleaned;
    if EndsWith(cleaned, Fence) {
      cleaned := cleaned[..|cleaned| - 3];
    }
    assert cleaned == Unfenced(stripped) by {
      assert cleaned == BeforeClosing(afterOpen);
    }
    cleaned := Strip(cleaned);
  }

  /** A fenced payload comes out trimmed, a reply without fences only
      trimmed, and the result never starts or ends with white space. */
  lemma GeminiCleanupSpec(raw: string)
    ensures IsStripped(GeminiCleanup(raw))
    ensures forall p :: Strip(raw) == JsonFence + p + Fence ==> GeminiCleanup(raw) == Strip(p)
    ensures forall p :: Strip(raw) == Fence + p + Fence && !("json" <= p) ==> GeminiCleanup(raw) == Strip(p)
    ensures !(Fence <= Strip(raw)) && !EndsWith(Strip(raw), Fence) ==> GeminiCleanup(raw) == Strip(raw)
  {
    StripIsStripped(Unfenced(Strip(raw)));
    forall p | Strip(raw) == JsonFence + p + Fence
      ensures GeminiCleanup(raw) == Strip(p)
    {
      UnfencedJson(p);
    }
    forall p | Strip(raw) == Fence + p + Fence && !("json" <= p)
      ensures GeminiCleanup(raw) == Strip(p)
    {
      UnfencedPlain(p);
    }
    if !(Fence <= Strip(raw)) && !EndsWith(Strip(raw), Fence) {
      UnfencedNone(Strip(raw));
      StripIdempotent(raw);
    }
  }

  /** The cleanup of a Hugging Face reply as written: when the stripped reply
      starts with "```json", keep `stripped[7:-3]` (Python's slice, empty
      once the reply is shorter than 10 characters); otherwise the reply is
      parsed as it came. */
  function CleanHuggingFaceOutput(raw: string): string {
    var s := Strip(raw);
    if JsonFence <= s then (if |s| >= 10 then s[7..|s| - 3] else "") else raw
  }

  /** A fenced reply yields its payload. */
  lemma HuggingFaceFencedPayload(raw: string, p: string)
    requires Strip(raw) == JsonFence + p + Fence
    ensures CleanHuggingFaceOutput(raw) == p
  {
    assert Strip(raw)[..7] == JsonFence;
    assert Strip(raw)[7..|Strip(raw)| - 3] == p;
  }

  /** A reply that opens the fence but never closes it loses the last three
      characters of its payload. */
  lemma HuggingFaceDropsUnclosedTail(raw: string, p: string)
    requires Strip(raw) == JsonFence + p && |p| >= 3
    ensures CleanHuggingFaceOutput(raw) == p[..|p| - 3]
  {
    assert Strip(raw)[..7] == JsonFence;
    assert Strip(raw)[7..|Strip(raw)| - 3] == p[..|p| - 3];
  }

  /** The payload `[1, 2]` without its closing fence comes out as `[1,`. */
  lemma HuggingFaceUnclosedExample(raw: string)
    requires raw == JsonFence + "[1, 2]"
    ensures CleanHuggingFaceOutput(raw) == "[1,"
  {
    assert |raw| == 13 && raw[0] == '`' && raw[12] == ']';
    assert IsStripped(raw);
    StripOfStripped(raw);
    HuggingFaceDropsUnclosedTail(raw, "[1, 2]");
    assert "[1, 2]"[..3] == "[1,";
  }

  /** The cleanup as evidently intended: the closing fence is removed only
      when it is there. */
  function CleanHuggingFaceOutputFenced(raw: string): string {
    var s := Strip(raw);
    if JsonFence <= s then BeforeClosing(s[7..]) else raw
  }

  /** The corrected cleanup returns the payload with or without a closing fence. */
  lemma HuggingFaceFencedKeepsPayload(raw: string, p: string)
    requires Strip(raw) == JsonFence + p + Fence || (Strip(raw) == JsonFence + p && !EndsWith(p, Fence))
    ensures CleanHuggingFaceOutputFenced(raw) == p
  {
    var s := Strip(raw);
    assert s[..7] == JsonFence;
    if s == JsonFence + p + Fence {
      assert s[7..] == p + Fence;
      BeforeClosingFence(p);
    } else {
      assert s[7..] == p;
    }
  }

  /** The two cleanups agree on every reply that closes its fence. */
  lemma HuggingFaceCleanupsAgreeWhenClosed(raw: string, p: string)
    requires Strip(raw) == JsonFence + p + Fence
    ensures CleanHuggingFaceOutputFenced(raw) == CleanHuggingFaceOutput(raw)
  {
    HuggingFaceFencedPayload(raw, p);
    HuggingFaceFencedKeepsPayload(raw, p);
  }
}
