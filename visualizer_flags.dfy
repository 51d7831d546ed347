/** The flag lookups of the visualizer (src/visualizer/json_visualizer.py):
    `_get_flag_color`, `_get_flag_name` and `_get_flag_code`. */
module VisualizerFlags {
  import opened Text

  const UnknownColor: string := "#6c757d"

  /** `flag_colors`. */
  const FlagColors: map<string, string> :=
    map["N" := "#28a745", "H" := "#dc3545", "L" := "#ffc107", "C" := "#17a2b8"]

  /** `flag_names`. */
  const FlagNames: map<string, string> :=
    map["N" := "Normal", "H" := "High", "L" := "Low", "C" := "Critical"]

  /** `name_to_code`. */
  const NameToCode: map<string, string> :=
    map["Normal" := "N", "High" := "H", "Low" := "L", "Critical" := "C"]

  /** `_get_flag_color`: the colour of the upper-cased flag, grey when unknown. */
  function FlagColor(flag: string): string {
    var code := Upper(flag);
    if code in FlagColors then FlagColors[code] else UnknownColor
  }

  /** `_get_flag_name`: the name of the upper-cased flag, "Unknown" when unknown. */
  function FlagName(flag: string): string {
    var code := Upper(flag);
    if code in FlagNames then FlagNames[code] else "Unknown"
  }

  /** `_get_flag_code`: the code of a name, "N" for any other name. */
  function FlagCode(name: string): string {
    if name in NameToCode then NameToCode[name] else "N"
  }

  /** The colour and name tables know the same four codes, and the name
      table inverts the code table on them. */
  lemma TablesAgree(code: string)
    ensures code in FlagColors <==> code in FlagNames
    ensures code in FlagNames ==> FlagNames[code] in NameToCode && NameToCode[FlagNames[code]] == code
  {
    if code in FlagNames {
      assert code == "N" || code == "H" || code == "L" || code == "C";
    }
  }

  /** For a known flag, the code of its name is the flag, upper-cased. */
  lemma NameCodeRoundTrip(flag: string)
    requires Upper(flag) in FlagNames
    ensures FlagCode(FlagName(flag)) == Upper(flag)
  {
    TablesAgree(Upper(flag));
  }

  /** For a known name, the name of its code is the name again. */
  lemma CodeNameRoundTrip(name: string)
    requires name in NameToCode
    ensures FlagName(FlagCode(name)) == name
  {
    var code := NameToCode[name];
    assert |code| == 1 && 'A' <= code[0] <= 'Z';
    assert Upper(code) == code;
  }

  /** An unknown flag is named "Unknown", and that name maps back to "N", so
      the pie slice of unknown flags takes the colour of Normal while the
      flag itself is coloured grey. */
  lemma UnknownFlagRoundTrip(flag: string)
    requires Upper(flag) !in FlagNames
    ensures FlagName(flag) == "Unknown" && FlagCode(FlagName(flag)) == "N"
    ensures FlagColor(FlagCode(FlagName(flag))) == FlagColors["N"]
    ensures FlagColor(flag) == UnknownColor
  {
    TablesAgree(Upper(flag));
    assert "Unknown" !in NameToCode;
    assert Upper("N") == "N";
  }

  /** The colour of a known flag's pie slice is the flag's own colour. */
  lemma KnownFlagSliceColor(flag: string)
    requires Upper(flag) in FlagNames
    ensures FlagColor(FlagCode(FlagName(flag))) == FlagColor(flag)
  {
    NameCodeRoundTrip(flag);
    UpperIdempotent(flag);
  }

  /** Case does not matter to either lookup. */
  lemma LookupsIgnoreCase(flag: string)
    ensures FlagColor(Lower(flag)) == FlagColor(flag)
    ensures FlagName(Lower(flag)) == FlagName(flag)
  {
    UpperOfLower(flag);
  }

  /** The four known flags have four different colours, none of them grey. */
  lemma KnownColorsDistinct(a: string, b: string)
    requires Upper(a) in FlagColors && Upper(b) in FlagColors && Upper(a) != Upper(b)
    ensures FlagColor(a) != FlagColor(b) && FlagColor(a) != UnknownColor
  {
  }
}
