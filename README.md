# SehatScan core, modelled in Dafny

SehatScan reads a photographed lab report. It turns it into a structured
medical record, asks a language model for health advice and draws charts.
This project models the deterministic core of three of its modules and proves
properties of that model.

- **OCR layout reconstruction** (`src/medical_ocr/ocr_processor.py`):
  - `extract_detections` zips the engine's parallel arrays into detections;
  - `group_lines` sorts the detections and chains them into horizontal lines
    by vertical-centre proximity;
  - `parse_report` reads label/value fields, locates the table header,
    assigns each cell to its nearest header and filters the rows;
  - `process_image` is covered for what it does after the OCR engine
    returns.
- **Specialist advisor** (`src/specialist/specialist_advisor.py`):
  - the rule-based findings classifier;
  - the JSON shape validator;
  - the two markdown-fence cleanups;
  - the result cache of `get_health_recommendations`.
- **Visualizer** (`src/visualizer/json_visualizer.py`):
  - the flag colour/name/code tables and their round trips;
  - the gauge keys of `create_visualizations`;
  - the lists and flag counting of `_create_overview_charts`;
  - the hyphen split of `_parse_reference_range`.

Layout of the project:

| file | module | contents |
|---|---|---|
| wrappers.dfy | `Wrappers` | `Option` and `Result` |
| collections.dfy | `Collections` | `s[-1]` and `d.get(key, default)` |
| text.dfy | `Text` | the Python `str` operations used: `strip`, `lower`/`upper`, `in`, `join`, `split`, `replace`, `str(int)` (ASCII) |
| sorting.dfy | `Sorting` | Python's stable `sorted`, as an insertion sort proved ordered, a permutation and stable |
| ocr_detections.dfy | `OcrDetections` | boxes, detections, sort keys, `extract_detections` |
| ocr_lines.dfy | `OcrLines` | `group_lines` and the runs it builds |
| ocr_report.dfy | `OcrReport` | `parse_report` and the post-OCR part of `process_image` |
| json.dfy | `JsonValues` | the values `json.loads` produces |
| specialist_findings.dfy | `SpecialistFindings` | `_quick_analyze_findings` |
| specialist_json.dfy | `SpecialistJson` | `_validate_json_structure` and the fence cleanups |
| specialist_cache.dfy | `SpecialistCache` | the cache of `get_health_recommendations`, as a class |
| visualizer_flags.dfy | `VisualizerFlags` | `_get_flag_color`, `_get_flag_name`, `_get_flag_code` |
| visualizer_charts.dfy | `VisualizerCharts` | `create_visualizations`, `_create_gauge_chart`, `_create_overview_charts`, `_parse_reference_range` |

Modelling choices:
- **Fences.** Below, "the json fence" is three backquotes followed by
  `json`, which opens a fenced code block in a model's markdown reply. "A
  plain fence" and "the closing fence" are three backquotes alone.
- **Coordinates** are integers. Every centre the source computes as a mean of
  two coordinates is kept doubled, as the sum of the two. The tolerance test
  `|curr_y - prev_y| < y_tolerance` is therefore
  `|2·curr_y - 2·prev_y| < 2·y_tolerance`, which has the same meaning.
- **Python's `sorted`** is `Sorting.SortBy` with a key relation. The model
  proves that it orders, permutes and is stable.
- **Imperative code becomes methods.** The loops of `group_lines`,
  `parse_report`, `extract_detections`, `_quick_analyze_findings`,
  `_create_overview_charts` and `create_visualizations` are methods with loop
  invariants. So are the step-by-step reassignments of the Gemini cleanup.
  Each method is proved equal to a function, and the properties are lemmas
  about that function.
- **The cache** is a class whose `entries` map the method updates.
- **Foreign code is abstracted.**
  - `float()` parsing is a function parameter `parseFloat`.
  - The output of `json.loads` is the datatype `Json`. A parse failure is
    `None`.
  - The recommendation pipeline behind the cache is a function parameter
    `generate`.

Behaviour of the code worth knowing when reading the model:
- Within a line, detections are ordered by their top-left x `box[0][0]`
  (lines 144 and 148 of `ocr_processor.py`), not by their x-centre.
- Lines come out in the order of the (top-left y, top-left x) sort key
  (`OcrLines.LinesInReadingOrder`).
- An empty detection list makes `process_image` raise (lines 87-88,
  `OcrReport.ProcessImage`). `group_lines` and `parse_report` on their own
  do return empty results (`OcrLines.LinesCoverDetections`,
  `OcrReport.EmptyReport`).

## Model

| member | source | states |
|---|---|---|
| OcrDetections.ExtractDetections | src/medical_ocr/ocr_processor.py:104-121 | the loop yields the zipped page: min(len boxes, texts, scores) detections, the i-th built from the i-th box, text and score: `zip` silently truncates unequal arrays |
| OcrDetections.ReadingOrderIsPreorder | src/medical_ocr/ocr_processor.py:129 | the (top-left y, top-left x) sort key is a total preorder, so the sort is well defined |
| OcrDetections.LeftOrderIsPreorder | src/medical_ocr/ocr_processor.py:144 | the top-left-x key used within a line is a total preorder |
| Sorting.SortByIsPermutation | src/medical_ocr/ocr_processor.py:129 | `sorted` returns a permutation of its input: same multiset, same members |
| Sorting.SortBySorts | src/medical_ocr/ocr_processor.py:129 | `sorted` returns its input ordered by the key |
| Sorting.SortByIsStable | src/medical_ocr/ocr_processor.py:144-148 | `sorted` is stable: elements with equal keys keep their input order |
| OcrLines.AddToRuns | src/medical_ocr/ocr_processor.py:136-145 | adding one detection to the runs appends exactly that detection to their concatenation, and leaves a non-empty open run |
| OcrLines.Runs | src/medical_ocr/ocr_processor.py:131-148 | chaining gives no run exactly for no input, and every run is non-empty |
| OcrLines.RunsCutInput | src/medical_ocr/ocr_processor.py:131-148 | the runs, concatenated, are exactly the sorted input: nothing lost, duplicated or reordered |
| OcrLines.RunsAppend | src/medical_ocr/ocr_processor.py:136-145 | a detection joins the open line iff its y-centre is within the tolerance of the last detection added, and otherwise starts a new line |
| OcrLines.RunsChain | src/medical_ocr/ocr_processor.py:134-145 | consecutive detections inside a line are within the tolerance, and each line starts out of the band of the previous line's last detection |
| OcrLines.RunsFollowReadingOrder | src/medical_ocr/ocr_processor.py:129-148 | runs of a sorted list are in sort order: every detection of an earlier run precedes every detection of a later one |
| OcrLines.GroupLines | src/medical_ocr/ocr_processor.py:123-150 | the loop with `current_line` returns the runs of the sorted detections, each sorted by top-left x |
| OcrLines.LinesCoverDetections | src/medical_ocr/ocr_processor.py:125-148 | the lines together are a permutation of the detections, and there are no lines exactly when there are no detections |
| OcrLines.LinesAreSortedRuns | src/medical_ocr/ocr_processor.py:144-148 | each line is non-empty, is a permutation of its run, is sorted by top-left x, and keeps detections with equal x in their run's order |
| OcrLines.LinesInReadingOrder | src/medical_ocr/ocr_processor.py:129-148 | lines are emitted in the (top-left y, top-left x) order: every detection of an earlier line precedes every detection of a later one |
| OcrReport.ValueAfterLabelSpec | src/medical_ocr/ocr_processor.py:174-181 | a label's value is the token right after the first token that equals or contains the label and has a successor |
| OcrReport.ValueAfterLabelNone | src/medical_ocr/ocr_processor.py:174-181 | a line gives a label no value exactly when no token other than the last mentions it |
| OcrReport.ApplyRulesField | src/medical_ocr/ocr_processor.py:173-181 | each label is scanned independently: a field takes its label's value on the line, or keeps its old value, whatever the other labels matched |
| OcrReport.ApplyRulesUntouched | src/medical_ocr/ocr_processor.py:173-181 | a field no label targets is never changed |
| OcrReport.KeyMapTargetsDistinct | src/medical_ocr/ocr_processor.py:161-168 | the six labels write six different fields |
| OcrReport.DetailsLastLineWins | src/medical_ocr/ocr_processor.py:170-181 | after all lines, each field holds the value from the last line that gives its label one: later lines overwrite earlier ones |
| OcrReport.LastValueSpec | src/medical_ocr/ocr_processor.py:170-181 | the last line that gives a label a value decides it |
| OcrReport.LastValueNone | src/medical_ocr/ocr_processor.py:170-181 | a field stays unset exactly when no line gives its label a value |
| OcrReport.DetailsShape | src/medical_ocr/ocr_processor.py:154-181 | field extraction only writes the three patient fields and the three report fields, and leaves observations empty |
| OcrReport.ReadDetails | src/medical_ocr/ocr_processor.py:170-181 | the nested label loops with `break` compute the fields the label rules define |
| OcrReport.HeaderFromIsFirst | src/medical_ocr/ocr_processor.py:188-204 | the header is the first line whose lower-cased, space-joined text contains "test" and "result", or "test name"; there is none exactly when no line does |
| OcrReport.HeaderLineNotEmpty | src/medical_ocr/ocr_processor.py:193-207 | a header line has at least one detection, so `table_headers` is non-empty whenever a header was found |
| OcrReport.HeaderOrderIsPreorder | src/medical_ocr/ocr_processor.py:202 | the header x-centre key is a total preorder |
| OcrReport.SortedHeadersSpec | src/medical_ocr/ocr_processor.py:196-202 | the headers are those of the header line, one per detection, sorted by x-centre |
| OcrReport.LocateHeader | src/medical_ocr/ocr_processor.py:184-204 | gives -1 and no headers without a header line; otherwise the index after it and its sorted headers |
| OcrReport.Nearest | src/medical_ocr/ocr_processor.py:229-231 | `min` by distance picks a header at the least distance, and no earlier header is as close |
| OcrReport.NearestTieGoesLeft | src/medical_ocr/ocr_processor.py:230 | on a tie, the header chosen is not to the right of any other equally close header |
| OcrReport.RowDataSpec | src/medical_ocr/ocr_processor.py:224-235 | a cell's text is stored under its column key unless a later cell of the row maps to the same key: last write wins |
| OcrReport.RowDataKeys | src/medical_ocr/ocr_processor.py:224-235 | the row's keys are exactly the column keys of its cells |
| OcrReport.RowKeysAreColumns | src/medical_ocr/ocr_processor.py:230-235 | every row key is a header's lower-cased text with spaces replaced by `_` |
| OcrReport.ColumnsBound | src/medical_ocr/ocr_processor.py:233-235 | there are no more column keys than headers |
| OcrReport.MapRow | src/medical_ocr/ocr_processor.py:224-235 | the cell loop builds the row the nearest-header rule defines |
| OcrReport.ObservationsAppend | src/medical_ocr/ocr_processor.py:210-239 | rows are appended in line order, each line judged on its own |
| OcrReport.ObservationsShape | src/medical_ocr/ocr_processor.py:210-239 | at most one observation per line, each with at least 3 keys, all of them column keys |
| OcrReport.FewColumnsNoRows | src/medical_ocr/ocr_processor.py:237-239 | with fewer than 3 distinct column keys no row is ever kept |
| OcrReport.ReadRows | src/medical_ocr/ocr_processor.py:206-239 | the row loop (skip short lines and lines with a skip word, keep rows of 3 keys or more) yields the observations of the lines after the header |
| OcrReport.ParseReport | src/medical_ocr/ocr_processor.py:152-243 | `parse_report` computes the record of fields, header and rows defined above |
| OcrReport.ReportFields | src/medical_ocr/ocr_processor.py:160-181 | each patient and report field of the result is its label's value on the last line that has one |
| OcrReport.ReportObservations | src/medical_ocr/ocr_processor.py:183-239 | without a header line there are no observations; with one they are the kept rows after it, mapped to its non-empty sorted headers |
| OcrReport.EmptyReport | src/medical_ocr/ocr_processor.py:152-181 | no lines give the empty record |
| OcrReport.ProcessImage | src/medical_ocr/ocr_processor.py:78-98 | no page is an error, no detection on the first page is an error, otherwise the report of the first page's lines |
| SpecialistFindings.FirstMatch | src/specialist/specialist_advisor.py:321-335 | a rule table gives nothing iff no fragment occurs in the name, else the finding of the first rule whose fragment occurs |
| SpecialistFindings.FindingForIsFirstMatch | src/specialist/specialist_advisor.py:321-335 | for "H" the first of wbc, creatinine, glucose, cholesterol to occur decides; for "L" potassium before hemoglobin; any other flag adds nothing |
| SpecialistFindings.CollectedAppend | src/specialist/specialist_advisor.py:317-335 | findings follow observation order, a block of readable observations contributing its findings before the next |
| SpecialistFindings.CollectedBounds | src/specialist/specialist_advisor.py:317-335 | at most one finding per observation, each one of the six rule findings |
| SpecialistFindings.QuickAnalyzeFindings | src/specialist/specialist_advisor.py:301-340 | the findings collected up to the first observation that raises, and the three default findings when there are none: never empty |
| SpecialistJson.MissingKeyRejected | src/specialist/specialist_advisor.py:353-357 | a reply missing diet_plan, exercise_plan or disclaimer is rejected |
| SpecialistJson.NonObjectRejected | src/specialist/specialist_advisor.py:351-381 | a reply that is not a dictionary is rejected |
| SpecialistJson.AcceptedShape | src/specialist/specialist_advisor.py:352-377 | an accepted reply has the three keys, two dictionary plans, and `recommendations` is a list when present |
| SpecialistJson.ExtraKeyIrrelevant | src/specialist/specialist_advisor.py:352-377 | adding or changing any other top-level key does not change the verdict |
| SpecialistJson.ShapeAccepted | src/specialist/specialist_advisor.py:359-377 | a dictionary reply is accepted iff it has the three keys, both plans are dictionaries and `recommendations` is a list or absent, whatever the disclaimer holds and whatever other keys it has |
| SpecialistJson.BeforeClosingFence | src/specialist/specialist_advisor.py:235-236 | dropping the trailing fence from a payload followed by a fence gives back the payload |
| SpecialistJson.UnfencedJson | src/specialist/specialist_advisor.py:230-236 | a payload between the json fence and the closing fence loses exactly both fences |
| SpecialistJson.UnfencedPlain | src/specialist/specialist_advisor.py:232-236 | a payload between two plain fences, not starting with "json", loses exactly both fences |
| SpecialistJson.UnfencedNone | src/specialist/specialist_advisor.py:230-236 | text with neither fence is left alone |
| SpecialistJson.CleanGeminiOutput | src/specialist/specialist_advisor.py:227-238 | the step-by-step reassignments compute the stripped text between the fences, stripped again |
| SpecialistJson.GeminiCleanupSpec | src/specialist/specialist_advisor.py:227-238 | the result is trimmed; a fenced payload comes out as the payload trimmed; unfenced text comes out trimmed only |
| SpecialistJson.HuggingFaceFencedPayload | src/specialist/specialist_advisor.py:284-285 | a reply between the json fence and the closing fence yields its payload |
| SpecialistJson.HuggingFaceDropsUnclosedTail | src/specialist/specialist_advisor.py:284-285 | as written, a reply that opens the fence but never closes it loses the last three characters of its payload |
| SpecialistJson.HuggingFaceUnclosedExample | src/specialist/specialist_advisor.py:284-285 | as written, the json fence followed by "[1, 2]" and no closing fence comes out as "[1," |
| SpecialistJson.HuggingFaceFencedKeepsPayload | src/specialist/specialist_advisor.py:284-285 | the corrected cleanup yields the payload whether or not the closing fence is there |
| SpecialistJson.HuggingFaceCleanupsAgreeWhenClosed | src/specialist/specialist_advisor.py:284-285 | the corrected and the written cleanup agree on every reply that closes its fence |
| SpecialistCache.FailureObjectIsError | src/specialist/specialist_advisor.py:92-94 | the failure object the outer `except` returns counts as an error |
| SpecialistCache.ErrorTestCases | src/specialist/specialist_advisor.py:86 | `"error" in result` is key membership on a dictionary, and raises on a number, boolean or null |
| SpecialistCache.RecommendationCache.constructor | src/specialist/specialist_advisor.py:58 | the cache starts empty |
| SpecialistCache.RecommendationCache.GetHealthRecommendations | src/specialist/specialist_advisor.py:72-94 | a stored key is answered from the cache without running the pipeline; a new reply is stored iff it has no "error"; a reply whose test raises becomes the failure object; only error-free replies are ever stored |
| SpecialistCache.RepeatRequest | src/specialist/specialist_advisor.py:76-90 | a repeat request after an error-free reply returns that reply without running the pipeline; after an error reply it runs the pipeline again, whose new reply is stored iff it has no "error" |
| VisualizerFlags.TablesAgree | src/visualizer/json_visualizer.py:265-307 | the colour and name tables know the same four codes, and the name-to-code table inverts the name table |
| VisualizerFlags.NameCodeRoundTrip | src/visualizer/json_visualizer.py:283-307 | for a known flag, the code of its name is the flag upper-cased |
| VisualizerFlags.CodeNameRoundTrip | src/visualizer/json_visualizer.py:283-307 | for a known name, the name of its code is the name |
| VisualizerFlags.UnknownFlagRoundTrip | src/visualizer/json_visualizer.py:265-307 | an unknown flag is grey and named "Unknown", whose code is "N", so its pie slice takes Normal's green |
| VisualizerFlags.KnownFlagSliceColor | src/visualizer/json_visualizer.py:216 | a known flag's pie slice has the flag's own colour |
| VisualizerFlags.LookupsIgnoreCase | src/visualizer/json_visualizer.py:271-289 | the colour and name lookups do not depend on the flag's case |
| VisualizerFlags.KnownColorsDistinct | src/visualizer/json_visualizer.py:265-271 | the four known flags have four different colours, none of them the grey of unknown flags |
| VisualizerCharts.RangeNeedsOneHyphen | src/visualizer/json_visualizer.py:244-253 | a range without exactly one '-' fails, so a negative bound or a second hyphen gives no range |
| VisualizerCharts.RangeSides | src/visualizer/json_visualizer.py:244-249 | with its one '-' at i, a range is the parsed, stripped text before and after i |
| VisualizerCharts.NoGaugeWithoutOneHyphen | src/visualizer/json_visualizer.py:99-103 | an observation whose range lacks exactly one '-' gets no gauge |
| VisualizerCharts.AssignLastWins | src/visualizer/json_visualizer.py:56-62 | a key holds the gauge of the last observation that has one under that key |
| VisualizerCharts.AssignKeys | src/visualizer/json_visualizer.py:56-62 | every key comes from an observation that has a gauge |
| VisualizerCharts.GaugeKeyEnds | src/visualizer/json_visualizer.py:57-62 | every gauge key ends in "_gauge" |
| VisualizerCharts.UnnamedGaugeKeysDiffer | src/visualizer/json_visualizer.py:57-62 | two observations at different positions without a test name get different keys (`Test_<i+1>`), so neither gauge replaces the other |
| Text.NatToStringInjective | src/visualizer/json_visualizer.py:57 | different positions give different decimal numbers in `Test_<i+1>` |
| VisualizerCharts.GaugeKeysEnd | src/visualizer/json_visualizer.py:56-62 | every gauge in the dictionary is under a key ending in "_gauge" |
| VisualizerCharts.GaugeShown | src/visualizer/json_visualizer.py:56-66 | an observation's gauge is in the final dictionary unless a later same-named test has a gauge; the overview charts never replace a gauge |
| VisualizerCharts.GaugeKeysNotOverviewKeys | src/visualizer/json_visualizer.py:62-66 | no gauge key is an overview key |
| VisualizerCharts.KeptFromObservations | src/visualizer/json_visualizer.py:162-175 | each bar comes from an observation whose result parses, with its test name, flag and unit |
| VisualizerCharts.KeptCount | src/visualizer/json_visualizer.py:162-178 | no more bars than observations; all of them when every result parses, none when no result does |
| VisualizerCharts.TallySpec | src/visualizer/json_visualizer.py:205-208 | the counted names are exactly the distinct names, each once, counted as often as they occur |
| VisualizerCharts.TallyFirstAppearance | src/visualizer/json_visualizer.py:205-208 | the names are in order of first appearance: wherever a name occurs, every earlier name has already occurred |
| VisualizerCharts.TallySum | src/visualizer/json_visualizer.py:205-208 | the counts add up to the number of flags counted |
| VisualizerCharts.TallyCountsPositive | src/visualizer/json_visualizer.py:205-208 | every counted name has a count of at least 1 |
| VisualizerCharts.TallyManyLabels | src/visualizer/json_visualizer.py:205-210 | there is more than one name iff two of the counted names differ |
| VisualizerCharts.CountFlags | src/visualizer/json_visualizer.py:205-208 | the `flag_counts` loop computes that tally |
| VisualizerCharts.OverviewShape | src/visualizer/json_visualizer.py:177-226 | the bar chart exists iff some result parses; the pie chart exists iff two kept flags have different names; there is nothing else |
| VisualizerCharts.BarShape | src/visualizer/json_visualizer.py:181-202 | one bar per kept observation, with its name and value, coloured by its flag |
| VisualizerCharts.FlagPieSpec | src/visualizer/json_visualizer.py:204-226 | the pie of a tally has one slice per distinct name and none other, each counting that name's occurrences and coloured by its code, the counts summing to the number of names |
| VisualizerCharts.PieShape | src/visualizer/json_visualizer.py:204-226 | the flag pie has more than one slice, one per distinct kept flag name and none other, each counting that name's occurrences among the kept observations and coloured by the name's code, the counts summing to the number of kept observations |
| VisualizerCharts.CollectEntries | src/visualizer/json_visualizer.py:157-175 | the loop keeps, in order, the name, value, flag and unit of exactly the observations whose result parses |
| VisualizerCharts.CreateOverviewCharts | src/visualizer/json_visualizer.py:143-231 | the loop over observations and the chart assembly compute the overview charts |
| VisualizerCharts.CreateVisualizations | src/visualizer/json_visualizer.py:36-73 | no or empty observations give no charts; otherwise the gauges under their keys, then the overview charts on top |

## Left out

- Image loading, the OCR engine call and its temporary file (`ocr_processor.py`, 62-76) are foreign calls and file I/O. `ProcessImage` starts from the engine's result.
- The PaddleOCR import guard is import plumbing.
- The numpy `tolist()`/`float()` coercion of boxes and scores is left out. Boxes and scores arrive as plain values.
- Coordinates are modelled as integers. Fractional coordinates are not modelled.
- The exception text of `process_image` is not modelled. The two errors are the `ProcessError` values.
- The language-model clients, prompts and network calls are foreign code, and so is the Gemini-to-Hugging-Face fallback decision of `_get_health_plan_optimized`. The cache takes the pipeline as the function `generate`.
- `json.dumps`, `json.loads` and the md5 digest of the cache key are foreign libraries. The serialized text is the cache key, and parsed replies are `Json` values.
- The text after the colon in the error messages is not modelled, because it is the exception's own message.
- `_create_gauge_chart` and `_create_overview_charts` also build figures, which are left out. This covers titles, sizes, the gauge axis and delta (floating-point arithmetic), and the bar text labels `f"{result} {unit}"`. A chart is kept as the data it is drawn from.
- `float()` is the parameter `parseFloat`, because its grammar is not modelled.
- Observations in the visualizer are string-to-string dictionaries. The `except` branches that return `{}` for a malformed record are not modelled. No exception can arise on such input.
- `SpecialistFindings.QuickAnalyzeFindings`: `json.loads` is replaced by its result. A bad parse is `None`.
- Case mapping is the ASCII one, not Python's full Unicode table.
- Strip removes the ASCII white space Python's `str.strip()` removes (space, tab, line feed, carriage return, vertical tab, form feed, U+001C to U+001F), but not the white space outside ASCII (U+0085, U+00A0, U+2028 and the other Unicode spaces).
- Logging is left out, and so is `app.py` (the Streamlit interface).

## Findings

| source | as written | input that shows it | evidently intended | confidence | as-written member | corrected member |
|---|---|---|---|---|---|---|
| src/specialist/specialist_advisor.py:284-285 | after a leading json fence, the slice stripped[7:-3] always drops the last three characters | the json fence followed by "[1, 2]", with no closing fence, becomes "[1,", which json.loads rejects | drop the closing fence only when it is there | not executed | SpecialistJson.HuggingFaceUnclosedExample | SpecialistJson.HuggingFaceFencedKeepsPayload |
