/** `parse_report` and the post-OCR part of `process_image`
    (src/medical_ocr/ocr_processor.py): the grouped lines become a medical
    record of patient fields, report fields and a table of observations. */
module OcrReport {
  import opened Wrappers
  import opened Collections
  import opened Text
  import opened Sorting
  import opened OcrDetections
  import opened OcrLines

  /** A string-to-string dictionary: a patient or report-details mapping, or
      one table row keyed by column. */
  type Record = map<string, string>

  /** The returned `data`: `patient`, `report_details` and `observations`. */
  datatype MedicalData = MedicalData(patient: Record, reportDetails: Record, observations: seq<Record>)

  const NoData: MedicalData := MedicalData(map[], map[], [])

  /** The first half of a dotted `key_map` path. */
  datatype Category = Patient | ReportDetails

  /** One `key_map` entry: a key and the path `category.field` it fills. */
  datatype LabelRule = LabelRule(key: string, category: Category, field: string)

  /** `key_map`, in its insertion order; the dotted paths are given already
      split at their single dot. */
  const KeyMap: seq<LabelRule> := [
    LabelRule("Patient Name", Patient, "name"),
    LabelRule("DOB", Patient, "dob"),
    LabelRule("Sex", Patient, "sex"),
    LabelRule("Report Date", ReportDetails, "report_date"),
    LabelRule("Specimen", ReportDetails, "specimen"),
    LabelRule("Accession", ReportDetails, "accession")
  ]

  /** `[det['text'] for det in line]`. */
  function Texts(line: Line): (texts: seq<string>)
    ensures |texts| == |line|
  {
    seq(|line|, k requires 0 <= k < |line| => line[k].text)
  }

  // ---------------------------------------------------------------------
  // Patient and report fields

  /** `key == txt or key in txt`. */
  predicate Mentions(text: string, key: string) {
    key == text || Contains(text, key)
  }

  /** The inner scan from position `j` on: the token after the first token
      that mentions `key` and is not the last one. */
  function ValueFrom(texts: seq<string>, key: string, j: nat): Option<string>
    decreases |texts| - j
  {
    if j + 1 >= |texts| then None
    else if Mentions(texts[j], key) then Some(texts[j + 1])
    else ValueFrom(texts, key, j + 1)
  }

  /** The value a line gives to a key, if any. */
  function ValueAfterLabel(texts: seq<string>, key: string): Option<string> {
    ValueFrom(texts, key, 0)
  }

  /** A line gives a value to a key exactly when some token other than the
      last one mentions it, and the value is the token right after the first
      such mention. */
  lemma ValueAfterLabelSpec(texts: seq<string>, key: string, j: nat)
    requires j + 1 < |texts| && Mentions(texts[j], key)
    requires forall i :: 0 <= i < j ==> !Mentions(texts[i], key)
    ensures ValueAfterLabel(texts, key) == Some(texts[j + 1])
  {
    ValueFromSkips(texts, key, 0, j);
  }

  lemma ValueAfterLabelNone(texts: seq<string>, key: string)
    ensures ValueAfterLabel(texts, key) == None <==>
      forall i :: 0 <= i < |texts| - 1 ==> !Mentions(texts[i], key)
  {
    if ValueAfterLabel(texts, key) == None {
      forall i | 0 <= i < |texts| - 1
        ensures !Mentions(texts[i], key)
      {
        if Mentions(texts[i], key) {
          var j := FirstMention(texts, key, i);
          ValueAfterLabelSpec(texts, key, j);
        }
      }
    } else if forall i :: 0 <= i < |texts| - 1 ==> !Mentions(texts[i], key) {
      ValueFromSkips(texts, key, 0, |texts|);
    }
  }

  lemma {:induction false} ValueFromSkips(texts: seq<string>, key: string, i: nat, j: nat)
    requires i <= j
    requires forall k :: i <= k < j && k + 1 < |texts| ==> !Mentions(texts[k], key)
    ensures ValueFrom(texts, key, i) == ValueFrom(texts, key, j)
    decreases j - i
  {
    if i < j && i + 1 < |texts| {
      ValueFromSkips(texts, key, i + 1, j);
    } else if i < j {
      assert ValueFrom(texts, key, i) == None;
      assert ValueFrom(texts, key, j) == None;
    }
  }

  /** The first position at or before `i` whose token mentions `key`. */
  lemma {:induction false} FirstMention(texts: seq<string>, key: string, i: nat) returns (j: nat)
    requires i < |texts| && Mentions(texts[i], key)
    ensures j <= i && Mentions(texts[j], key)
    ensures forall k :: 0 <= k < j ==> !Mentions(texts[k], key)
    decreases i
  {
    if exists k :: 0 <= k < i && Mentions(texts[k], key) {
      var k :| 0 <= k < i && Mentions(texts[k], key);
      j := FirstMention(texts, key, k);
    } else {
      j := i;
    }
  }

  /** `data[category][field] = value`. */
  function SetField(data: MedicalData, rule: LabelRule, value: string): MedicalData {
    match rule.category
    case Patient => data.(patient := data.patient[rule.field := value])
    case ReportDetails => data.(reportDetails := data.reportDetails[rule.field := value])
  }

  /** `data[category].get(field)`. */
  function Field(data: MedicalData, rule: LabelRule): Option<string> {
    var record := if rule.category == Patient then data.patient else data.reportDetails;
    if rule.field in record then Some(record[rule.field]) else None
  }

  /** The rules `rules`, applied in order to one line's texts. */
  function ApplyRules(texts: seq<string>, rules: seq<LabelRule>, data: MedicalData): MedicalData
    decreases |rules|
  {
    if rules == [] then data
    else
      var d := ApplyRules(texts, rules[..|rules| - 1], data);
      match ValueAfterLabel(texts, Last(rules).key)
      case None => d
      case Some(v) => SetField(d, Last(rules), v)
  }

  /** Every line in order, each with the whole key map. */
  function ApplyLines(lines: seq<Line>, data: MedicalData): MedicalData
    decreases |lines|
  {
    if lines == [] then data
    else ApplyRules(Texts(Last(lines)), KeyMap, ApplyLines(lines[..|lines| - 1], data))
  }

  /** The patient and report fields `parse_report` fills. */
  function Details(lines: seq<Line>): MedicalData {
    ApplyLines(lines, NoData)
  }

  /** The value of a key on the last line that gives it one. */
  function LastValue(lines: seq<Line>, key: string): Option<string>
    decreases |lines|
  {
    if lines == [] then None
    else match ValueAfterLabel(Texts(Last(lines)), key)
      case Some(v) => Some(v)
      case None => LastValue(lines[..|lines| - 1], key)
  }

  /** Two rules that fill different places. */
  predicate DistinctTargets(rules: seq<LabelRule>) {
    forall i, j :: 0 <= i < j < |rules| ==>
      (rules[i].category, rules[i].field) != (rules[j].category, rules[j].field)
  }

  lemma {:induction false} ApplyRulesField(texts: seq<string>, rules: seq<LabelRule>, data: MedicalData, r: nat)
    requires DistinctTargets(rules) && r < |rules|
    ensures Field(ApplyRules(texts, rules, data), rules[r]) ==
      match ValueAfterLabel(texts, rules[r].key)
      case Some(v) => Some(v)
      case None => Field(data, rules[r])
    decreases |rules|
  {
    var init := rules[..|rules| - 1];
    if r < |rules| - 1 {
      assert init[r] == rules[r];
      ApplyRulesField(texts, init, data, r);
    } else {
      ApplyRulesUntouched(texts, init, data, rules[r]);
    }
  }

  /** Rules for other places leave a place as it was. */
  lemma {:induction false} ApplyRulesUntouched(texts: seq<string>, rules: seq<LabelRule>, data: MedicalData, other: LabelRule)
    requires forall i :: 0 <= i < |rules| ==> (rules[i].category, rules[i].field) != (other.category, other.field)
    ensures Field(ApplyRules(texts, rules, data), other) == Field(data, other)
    decreases |rules|
  {
    if rules != [] {
      ApplyRulesUntouched(texts, rules[..|rules| - 1], data, other);
    }
  }

  lemma {:induction false} ApplyRulesKeepsObservations(texts: seq<string>, rules: seq<LabelRule>, data: MedicalData)
    ensures ApplyRules(texts, rules, data).observations == data.observations
    decreases |rules|
  {
    if rules != [] {
      ApplyRulesKeepsObservations(texts, rules[..|rules| - 1], data);
    }
  }

  lemma KeyMapTargetsDistinct()
    ensures DistinctTargets(KeyMap)
  {
  }

  /** Each key-map field holds the value its key has on the last line that
      gives it one; later lines overwrite earlier ones. */
  lemma {:induction false} DetailsLastLineWins(lines: seq<Line>, r: nat)
    requires r < |KeyMap|
    ensures Field(Details(lines), KeyMap[r]) == LastValue(lines, KeyMap[r].key)
    decreases |lines|
  {
    if lines != [] {
      KeyMapTargetsDistinct();
      DetailsLastLineWins(lines[..|lines| - 1], r);
      ApplyRulesField(Texts(Last(lines)), KeyMap, ApplyLines(lines[..|lines| - 1], NoData), r);
    }
  }

  /** The last line that gives a key a value decides it; no such line
      leaves the field out. */
  lemma {:induction false} LastValueSpec(lines: seq<Line>, key: string, i: nat)
    requires i < |lines| && ValueAfterLabel(Texts(lines[i]), key).Some?
    requires forall k :: i < k < |lines| ==> ValueAfterLabel(Texts(lines[k]), key) == None
    ensures LastValue(lines, key) == ValueAfterLabel(Texts(lines[i]), key)
    decreases |lines|
  {
    if i < |lines| - 1 {
      var init := lines[..|lines| - 1];
      assert init[i] == lines[i];
      LastValueSpec(init, key, i);
    }
  }

  lemma {:induction false} LastValueNone(lines: seq<Line>, key: string)
    ensures LastValue(lines, key) == None <==>
      forall k :: 0 <= k < |lines| ==> ValueAfterLabel(Texts(lines[k]), key) == None
    decreases |lines|
  {
    if lines != [] {
      var init := lines[..|lines| - 1];
      LastValueNone(init, key);
      assert forall k :: 0 <= k < |init| ==> init[k] == lines[k];
    }
  }

  /** Only the key-map fields are ever filled, and no observation comes from
      the key scan. */
  lemma {:induction false} DetailsShape(lines: seq<Line>)
    ensures Details(lines).patient.Keys <= {"name", "dob", "sex"}
    ensures Details(lines).reportDetails.Keys <= {"report_date", "specimen", "accession"}
    ensures Details(lines).observations == []
    decreases |lines|
  {
    if lines != [] {
      DetailsShape(lines[..|lines| - 1]);
      RulesShape(Texts(Last(lines)), KeyMap, ApplyLines(lines[..|lines| - 1], NoData));
    }
  }

  lemma {:induction false} RulesShape(texts: seq<string>, rules: seq<LabelRule>, data: MedicalData)
    requires forall i :: 0 <= i < |rules| ==> rules[i] in KeyMap
    requires data.patient.Keys <= {"name", "dob", "sex"}
    requires data.reportDetails.Keys <= {"report_date", "specimen", "accession"}
    ensures ApplyRules(texts, rules, data).patient.Keys <= {"name", "dob", "sex"}
    ensures ApplyRules(texts, rules, data).reportDetails.Keys <= {"report_date", "specimen", "accession"}
    ensures ApplyRules(texts, rules, data).observations == data.observations
    decreases |rules|
  {
    if rules != [] {
      RulesShape(texts, rules[..|rules| - 1], data);
    }
  }

  /** The key scan of `parse_report`: every line, every key-map entry in
      order, and the first mentioning token that has a successor. */
  method ReadDetails(lines: seq<Line>) returns (data: MedicalData)
    ensures data == Details(lines)
  {
    data := NoData;
    for i := 0 to |lines|
      invariant data == ApplyLines(lines[..i], NoData)
    {
      var texts := Texts(lines[i]);
      ghost var before := data;
      for r := 0 to |KeyMap|
        invariant data == ApplyRules(texts, KeyMap[..r], before)
      {
        var rule := KeyMap[r];
        var j := 0;
        while j < |texts|
          invariant j <= |texts|
          invariant ValueAfterLabel(texts, rule.key) == ValueFrom(texts, rule.key, j)
        {
          if texts[j] == rule.key || Contains(texts[j], rule.key) {
            if j + 1 < |texts| {
              data := SetField(data, rule, texts[j + 1]);
              break;
            }
          }
          j := j + 1;
        }
        assert KeyMap[..r + 1][..r] == KeyMap[..r];
      }
      assert KeyMap[..|KeyMap|] == KeyMap;
      assert lines[..i + 1][..i] == lines[..i];
    }
    assert lines[..|lines|] == lines;
  }

  // ---------------------------------------------------------------------
  // The table header

  /** `[det['text'].lower() for det in line]`. */
  function LowerTexts(line: Line): (texts: seq<string>)
    ensures |texts| == |line|
  {
    seq(|line|, k requires 0 <= k < |line| => Lower(line[k].text))
  }

  /** The joined lower-cased texts contain "test" and "result", or "test name". */
  predicate IsHeaderLine(line: Line) {
    var lineText := Join(LowerTexts(line), " ");
    (Contains(lineText, "test") && Contains(lineText, "result")) || Contains(lineText, "test name")
  }

  /** The first header line at or after `i`. */
  function HeaderFrom(lines: seq<Line>, i: nat): (h: Option<nat>)
    ensures h.Some? ==> i <= h.value < |lines| && IsHeaderLine(lines[h.value])
    decreases |lines| - i
  {
    if i >= |lines| then None
    else if IsHeaderLine(lines[i]) then Some(i)
    else HeaderFrom(lines, i + 1)
  }

  /** The index of the table header line, if there is one. */
  function HeaderIndex(lines: seq<Line>): Option<nat> {
    HeaderFrom(lines, 0)
  }

  /** The header line is the first line that looks like one; there is none
      exactly when no line does. */
  lemma {:induction false} HeaderFromIsFirst(lines: seq<Line>, i: nat)
    ensures HeaderFrom(lines, i).Some? ==>
      forall k :: i <= k < HeaderFrom(lines, i).value ==> !IsHeaderLine(lines[k])
    ensures HeaderFrom(lines, i) == None <==> forall k :: i <= k < |lines| ==> !IsHeaderLine(lines[k])
    decreases |lines| - i
  {
    if i < |lines| && !IsHeaderLine(lines[i]) {
      HeaderFromIsFirst(lines, i + 1);
    }
  }

  /** Nothing is joined from an empty line, so a header line has detections. */
  lemma HeaderLineNotEmpty(line: Line)
    requires IsHeaderLine(line)
    ensures line != []
  {
  }

  /** `(det['text'], x_center)`, with the centre doubled. */
  datatype Header = Header(text: string, doubledX: int)

  function HeaderOf(d: Detection): Header {
    Header(d.text, DoubledXCentre(d))
  }

  /** The sort key `h[1]`. */
  predicate HeaderLe(a: Header, b: Header) {
    a.doubledX <= b.doubledX
  }

  lemma HeaderOrderIsPreorder()
    ensures TotalPreorder(HeaderLe)
  {
  }

  /** One header per detection of the line, in the line's order. */
  function HeaderEntries(line: Line): (headers: seq<Header>)
    ensures |headers| == |line|
  {
    seq(|line|, k requires 0 <= k < |line| => HeaderOf(line[k]))
  }

  /** `sorted(table_headers, key=lambda h: h[1])`. */
  function SortedHeaders(line: Line): seq<Header> {
    SortBy(HeaderEntries(line), HeaderLe)
  }

  /** The headers are those of the header line, left to right. */
  lemma SortedHeadersSpec(line: Line)
    ensures SortedBy(SortedHeaders(line), HeaderLe)
    ensures multiset(SortedHeaders(line)) == multiset(HeaderEntries(line))
    ensures |SortedHeaders(line)| == |line|
  {
    HeaderOrderIsPreorder();
    SortBySorts(HeaderEntries(line), HeaderLe);
  }

  /** The header search of `parse_report`: `tableStart` is the index after
      the header line, or -1 when there is none. */
  method LocateHeader(lines: seq<Line>) returns (tableStart: int, headers: seq<Header>)
    ensures HeaderIndex(lines) == None ==> tableStart == -1 && headers == []
    ensures HeaderIndex(lines).Some? ==>
      tableStart == HeaderIndex(lines).value + 1 && headers == SortedHeaders(lines[HeaderIndex(lines).value])
  {
    headers := [];
    tableStart := -1;
    for i := 0 to |lines|
      invariant HeaderIndex(lines) == HeaderFrom(lines, i)
    {
      var lineText := Join(LowerTexts(lines[i]), " ");
      if (Contains(lineText, "test") && Contains(lineText, "result")) || Contains(lineText, "test name") {
        tableStart := i + 1;
        for k := 0 to |lines[i]|
          invariant headers == HeaderEntries(lines[i][..k])
        {
          var det := lines[i][k];
          headers := headers + [Header(det.text, det.box.topLeft.x + det.box.topRight.x)];
          assert lines[i][..k + 1] == lines[i][..k] + [det];
        }
        assert lines[i][..|lines[i]|] == lines[i];
        headers := SortBy(headers, HeaderLe);
        return;
      }
    }
  }

  // ---------------------------------------------------------------------
  // Table rows

  const SkipWords: seq<string> := ["panel", "count", "physician", "laboratory", "complete", "metabolic"]

  /** A line the row loop passes over: fewer than two detections, or a word
      of a section heading in its lower-cased text. */
  predicate SkippedRow(row: Line) {
    |row| < 2 || HasSkipWord(Lower(Join(Texts(row), " ")))
  }

  /** `any(word in line_str for word in skip_words)`. */
  predicate HasSkipWord(lineText: string) {
    exists w :: 0 <= w < |SkipWords| && Contains(lineText, SkipWords[w])
  }

  function Distance(h: Header, x2: int): nat {
    Abs(h.doubledX - x2)
  }

  /** `min(table_headers, key=lambda h: abs(h[1] - x_center))`, as an index:
      the first header at the least distance. */
  function Nearest(headers: seq<Header>, x2: int): (n: nat)
    requires |headers| > 0
    ensures n < |headers|
    ensures forall j :: 0 <= j < |headers| ==> Distance(headers[n], x2) <= Distance(headers[j], x2)
    ensures forall j :: 0 <= j < n ==> Distance(headers[j], x2) > Distance(headers[n], x2)
    decreases |headers|
  {
    if |headers| == 1 then 0
    else
      var m := Nearest(headers[..|headers| - 1], x2);
      assert headers[..|headers| - 1][m] == headers[m];
      if Distance(Last(headers), x2) < Distance(headers[m], x2) then |headers| - 1 else m
  }

  /** With the headers sorted left to right, a cell halfway between two
      headers goes to the left one. */
  lemma NearestTieGoesLeft(headers: seq<Header>, x2: int, j: nat)
    requires |headers| > 0 && SortedBy(headers, HeaderLe)
    requires j < |headers| && Distance(headers[j], x2) == Distance(headers[Nearest(headers, x2)], x2)
    ensures headers[Nearest(headers, x2)].doubledX <= headers[j].doubledX
  {
  }

  /** `header_text.lower().replace(" ", "_")`. */
  function ColumnKey(headerText: string): string {
    ReplaceChar(Lower(headerText), ' ', '_')
  }

  /** The column key a detection's text goes under. */
  function CellKey(headers: seq<Header>, d: Detection): string
    requires |headers| > 0
  {
    ColumnKey(headers[Nearest(headers, DoubledXCentre(d))].text)
  }

  /** `row_data` after its detections in order. */
  function RowData(row: Line, headers: seq<Header>): Record
    requires |headers| > 0
    decreases |row|
  {
    if row == [] then map[]
    else RowData(row[..|row| - 1], headers)[CellKey(headers, Last(row)) := Last(row).text]
  }

  /** Each key of a row is the column of one of its detections, and holds the
      text of the last detection of the row that falls in that column. */
  lemma {:induction false} RowDataSpec(row: Line, headers: seq<Header>, i: nat)
    requires |headers| > 0 && i < |row|
    requires forall k :: i < k < |row| ==> CellKey(headers, row[k]) != CellKey(headers, row[i])
    ensures CellKey(headers, row[i]) in RowData(row, headers)
    ensures RowData(row, headers)[CellKey(headers, row[i])] == row[i].text
    decreases |row|
  {
    if i < |row| - 1 {
      var init := row[..|row| - 1];
      assert init[i] == row[i];
      RowDataSpec(init, headers, i);
    }
  }

  lemma {:induction false} RowDataKeys(row: Line, headers: seq<Header>)
    requires |headers| > 0
    ensures forall key :: key in RowData(row, headers) <==>
      exists k :: 0 <= k < |row| && CellKey(headers, row[k]) == key
    decreases |row|
  {
    if row != [] {
      var init := row[..|row| - 1];
      RowDataKeys(init, headers);
      assert forall k :: 0 <= k < |init| ==> init[k] == row[k];
    }
  }

  /** The key set of every row lies in the header columns. */
  function Columns(headers: seq<Header>): set<string> {
    set k | 0 <= k < |headers| :: ColumnKey(headers[k].text)
  }

  lemma RowKeysAreColumns(row: Line, headers: seq<Header>)
    requires |headers| > 0
    ensures RowData(row, headers).Keys <= Columns(headers)
  {
    RowDataKeys(row, headers);
  }

  lemma {:induction false} ColumnsBound(headers: seq<Header>)
    ensures |Columns(headers)| <= |headers|
    decreases |headers|
  {
    if headers != [] {
      var init := headers[..|headers| - 1];
      ColumnsBound(init);
      assert Columns(headers) == Columns(init) + {ColumnKey(Last(headers).text)} by {
        forall c | c in Columns(headers)
          ensures c in Columns(init) + {ColumnKey(Last(headers).text)}
        {
          var k :| 0 <= k < |headers| && ColumnKey(headers[k].text) == c;
          if k < |headers| - 1 {
            assert init[k] == headers[k];
          }
        }
      }
    }
  }

  /** A row is kept when it has at least 3 columns. */
  predicate KeptRow(row: Line, headers: seq<Header>)
    requires |headers| > 0
  {
    !SkippedRow(row) && |RowData(row, headers)| >= 3
  }

  /** The observations the row loop collects from `rows`, in order. */
  function Observations(rows: seq<Line>, headers: seq<Header>): seq<Record>
    requires |headers| > 0
    decreases |rows|
  {
    if rows == [] then []
    else
      var init := Observations(rows[..|rows| - 1], headers);
      if KeptRow(Last(rows), headers) then init + [RowData(Last(rows), headers)] else init
  }

  /** Rows keep the order of their lines: the observations of two blocks of
      lines are those of the first block, then those of the second. */
  lemma {:induction false} ObservationsAppend(a: seq<Line>, b: seq<Line>, headers: seq<Header>)
    requires |headers| > 0
    ensures Observations(a + b, headers) == Observations(a, headers) + Observations(b, headers)
    decreases |b|
  {
    if b == [] {
      assert a + b == a;
    } else {
      assert (a + b)[..|a + b| - 1] == a + b[..|b| - 1];
      assert Last(a + b) == Last(b);
      ObservationsAppend(a, b[..|b| - 1], headers);
    }
  }

  /** Every observation has at least three keys, all of them header columns,
      and there is at most one per line. */
  lemma {:induction false} ObservationsShape(rows: seq<Line>, headers: seq<Header>)
    requires |headers| > 0
    ensures |Observations(rows, headers)| <= |rows|
    ensures forall k :: 0 <= k < |Observations(rows, headers)| ==>
      |Observations(rows, headers)[k]| >= 3 && Observations(rows, headers)[k].Keys <= Columns(headers)
    decreases |rows|
  {
    if rows != [] {
      ObservationsShape(rows[..|rows| - 1], headers);
      RowKeysAreColumns(Last(rows), headers);
    }
  }

  /** With fewer than three distinct columns no row can be kept. */
  lemma FewColumnsNoRows(rows: seq<Line>, headers: seq<Header>)
    requires |headers| > 0 && |Columns(headers)| < 3
    ensures Observations(rows, headers) == []
  {
    ObservationsShape(rows, headers);
    if Observations(rows, headers) != [] {
      var o := Observations(rows, headers)[0];
      assert o.Keys <= Columns(headers);
      SubsetCardinality(o.Keys, Columns(headers));
    }
  }

  lemma SubsetCardinality<T>(a: set<T>, b: set<T>)
    requires a <= b
    ensures |a| <= |b|
  {
    if a != b {
      assert |b| == |a| + |b - a|;
    }
  }

  lemma ObservationsStep(rows: seq<Line>, row: Line, headers: seq<Header>)
    requires |headers| > 0
    ensures Observations(rows + [row], headers) ==
      if KeptRow(row, headers) then Observations(rows, headers) + [RowData(row, headers)] else Observations(rows, headers)
  {
    assert (rows + [row])[..|rows|] == rows;
  }

  /** `row_data` built from one row: each detection's text under the column
      of its nearest header. */
  method MapRow(row: Line, headers: seq<Header>) returns (rowData: Record)
    requires |headers| > 0
    ensures rowData == RowData(row, headers)
  {
    rowData := map[];
    for k := 0 to |row|
      invariant rowData == RowData(row[..k], headers)
    {
      var det := row[k];
      var closest := headers[Nearest(headers, det.box.topLeft.x + det.box.topRight.x)];
      rowData := rowData[ColumnKey(closest.text) := det.text];
      assert row[..k + 1] == row[..k] + [det];
    }
    assert row[..|row|] == row;
  }

  /** The row loop of `parse_report`, over the lines after the header. */
  method ReadRows(lines: seq<Line>, tableStart: nat, headers: seq<Header>) returns (observations: seq<Record>)
    requires tableStart <= |lines| && |headers| > 0
    ensures observations == Observations(lines[tableStart..], headers)
  {
    observations := [];
    for i := tableStart to |lines|
      invariant observations == Observations(lines[tableStart..i], headers)
    {
      var row := lines[i];
      assert lines[tableStart..i + 1] == lines[tableStart..i] + [row];
      ObservationsStep(lines[tableStart..i], row, headers);
      if |row| < 2 {
        continue;
      }
      var lineText := Lower(Join(Texts(row), " "));
      if HasSkipWord(lineText) {
        continue;
      }
      var rowData := MapRow(row, headers);
      if |rowData| >= 3 {
        observations := observations + [rowData];
      }
    }
    assert lines[tableStart..|lines|] == lines[tableStart..];
  }

  // ---------------------------------------------------------------------
  // The whole report

  /** The value of `parse_report(lines)`. */
  function Report(lines: seq<Line>): MedicalData {
    var details := Details(lines);
    match HeaderIndex(lines)
    case None => details
    case Some(i) =>
      var headers := SortedHeaders(lines[i]);
      if headers == [] then details
      else details.(observations := Observations(lines[i + 1..], headers))
  }

  /** `parse_report`. */
  method ParseReport(lines: seq<Line>) returns (data: MedicalData)
    ensures data == Report(lines)
  {
    data := ReadDetails(lines);
    DetailsShape(lines);
    var tableStart, headers := LocateHeader(lines);
    if tableStart != -1 && |headers| > 0 {
      var rows := ReadRows(lines, tableStart, headers);
      data := data.(observations := data.observations + rows);
    }
  }

  /** The patient and report fields come from the labels alone: each holds
      the value its label has on the last line that gives it one. */
  lemma ReportFields(lines: seq<Line>, r: nat)
    requires r < |KeyMap|
    ensures Field(Report(lines), KeyMap[r]) == LastValue(lines, KeyMap[r].key)
  {
    DetailsLastLineWins(lines, r);
  }

  /** Observations come only from the lines after the first header line,
      each cell under its nearest header; with no header line there are none. */
  lemma ReportObservations(lines: seq<Line>)
    ensures HeaderIndex(lines) == None ==> Report(lines).observations == []
    ensures HeaderIndex(lines).Some? ==>
      var i := HeaderIndex(lines).value;
      |SortedHeaders(lines[i])| > 0 &&
      Report(lines).observations == Observations(lines[i + 1..], SortedHeaders(lines[i]))
  {
    DetailsShape(lines);
    if HeaderIndex(lines).Some? {
      var i := HeaderIndex(lines).value;
      HeaderLineNotEmpty(lines[i]);
      SortedHeadersSpec(lines[i]);
    }
  }

  /** The ways `process_image` fails after OCR. */
  datatype ProcessError = NoOcrResults | NoDetections

  /** `process_image` after the OCR engine has returned `pages`: the first
      page is turned into detections, lines and the report; no page, or no
      detection on the first page, is an error. */
  method ProcessImage(pages: seq<OcrPage>) returns (result: Result<MedicalData, ProcessError>)
    ensures pages == [] ==> result == Failure(NoOcrResults)
    ensures pages != [] && Zip(pages[0]) == [] ==> result == Failure(NoDetections)
    ensures pages != [] && Zip(pages[0]) != [] ==>
      result == Success(Report(Lines(Zip(pages[0]), DefaultYTolerance)))
  {
    if |pages| == 0 {
      return Failure(NoOcrResults);
    }
    var detections := ExtractDetections(pages[0]);
    if |detections| == 0 {
      return Failure(NoDetections);
    }
    var lines := GroupLines(detections, DefaultYTolerance);
    var data := ParseReport(lines);
    return Success(data);
  }

  /** No line at all gives the empty record. */
  lemma EmptyReport()
    ensures Report([]) == NoData
  {
  }
}
