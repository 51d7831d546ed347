/** The in-memory cache of `get_health_recommendations`
    (src/specialist/specialist_advisor.py).  The serialized medical data is
    the cache key (its md5 digest in the source); the model pipeline that
    produces recommendations, `_get_health_plan_optimized`, is the function
    `generate`. */
module SpecialistCache {
  import opened Wrappers
  import opened Text
  import opened JsonValues

  /** Python's `"error" in result`: key membership on a dictionary, element
      equality on a list, substring on a string; any other value makes `in`
      raise a TypeError (`None`). */
  function ErrorTest(result: Json): Option<bool> {
    match result
    case JObject(fields) => Some("error" in fields)
    case JArray(items) => Some(JString("error") in items)
    case JString(s) => Some(Contains(s, "error"))
    case _ => None
  }

  /** The dictionary the outer `except` returns; the text of the exception
      after the colon is not modelled. */
  const FailureObject: Json := JObject(map["error" := JString("Failed to generate recommendations: ")])

  lemma FailureObjectIsError()
    ensures ErrorTest(FailureObject) == Some(true)
  {
  }

  /** A dictionary reply counts as an error exactly when it has an "error"
      key; a number, boolean or null reply cannot be tested at all. */
  lemma ErrorTestCases(result: Json)
    ensures result.JObject? ==> (ErrorTest(result) == Some(true) <==> "error" in result.fields)
    ensures (result.JNull? || result.JBool? || result.JNumber?) <==> ErrorTest(result) == None
  {
  }

  class RecommendationCache {
    /** `self._cache`: serialized medical data to recommendations. */
    var entries: map<string, Json>

    /** Only replies without an "error" are ever stored. */
    ghost predicate Valid()
      reads this
    {
      forall key :: key in entries ==> ErrorTest(entries[key]) == Some(false)
    }

    constructor()
      ensures entries == map[] && Valid()
    {
      entries := map[];
    }

    /** `get_health_recommendations`, from the serialized data on.  A key
        already stored is answered from the cache without running the
        pipeline; otherwise the pipeline's reply is stored when it has no
        "error", returned either way, and replaced by the failure object when
        the "error" test itself raises.  `generated` records whether the
        pipeline ran. */
    method GetHealthRecommendations(medicalJson: string, generate: string -> Json)
      returns (result: Json, ghost generated: bool)
      requires Valid()
      modifies this
      ensures Valid()
      ensures medicalJson in old(entries) ==>
        result == old(entries)[medicalJson] && entries == old(entries) && !generated
      ensures medicalJson !in old(entries) ==> generated
      ensures medicalJson !in old(entries) && ErrorTest(generate(medicalJson)) == Some(false) ==>
        result == generate(medicalJson) && entries == old(entries)[medicalJson := result]
      ensures medicalJson !in old(entries) && ErrorTest(generate(medicalJson)) == Some(true) ==>
        result == generate(medicalJson) && entries == old(entries)
      ensures medicalJson !in old(entries) && ErrorTest(generate(medicalJson)) == None ==>
        result == FailureObject && entries == old(entries)
    {
      if medicalJson in entries {
        return entries[medicalJson], false;
      }
      generated := true;
      result := generate(medicalJson);
      var hasError := ErrorTest(result);
      if hasError.None? {
        return FailureObject, generated;
      }
      if !hasError.value {
        entries := entries[medicalJson := result];
      }
    }
  }

  /** Two requests with the same data, the pipeline answering `generate1`
      the first time and `generate2` the second (a language model need not
      repeat itself).  Once the first reply has been stored, the second is
      that same reply and does not run the pipeline; an error reply is not
      stored, so the second request runs the pipeline again, and its reply is
      stored exactly when it has no "error". */
  method RepeatRequest(cache: RecommendationCache, medicalJson: string,
                       generate1: string -> Json, generate2: string -> Json)
    returns (first: Json, second: Json, ghost secondGenerated: bool)
    requires cache.Valid()
    modifies cache
    ensures cache.Valid()
    ensures ErrorTest(first) == Some(false) ==>
      second == first && !secondGenerated && medicalJson in cache.entries
    ensures ErrorTest(first) != Some(false) ==>
      secondGenerated &&
      (medicalJson in cache.entries <==> ErrorTest(generate2(medicalJson)) == Some(false))
  {
    ghost var g1;
    first, g1 := cache.GetHealthRecommendations(medicalJson, generate1);
    second, secondGenerated := cache.GetHealthRecommendations(medicalJson, generate2);
  }
}
