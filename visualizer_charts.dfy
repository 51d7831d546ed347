/** Which charts the visualizer builds and under which keys
    (src/visualizer/json_visualizer.py): `create_visualizations`,
    `_create_gauge_chart`, `_create_overview_charts` and
    `_parse_reference_range`.  A chart is kept as the data it is drawn from;
    `float()` is the parameter `parseFloat`. */
module VisualizerCharts {
  import opened Wrappers
  import opened Collections
  import opened Text
  import opened VisualizerFlags

  /** One observation of the medical record: column name to cell text. */
  type Observation = map<string, string>

  datatype Chart =
    | Gauge(testName: string, value: real, rangeMin: real, rangeMax: real, color: string)
    | Bar(testNames: seq<string>, results: seq<real>, colors: seq<string>, units: seq<string>)
    | Pie(labels: seq<string>, counts: seq<nat>, colors: seq<string>)

  // ---------------------------------------------------------------------
  // _parse_reference_range

  /** `_parse_reference_range`: both sides of the one '-' of a "min-max"
      string, stripped and parsed; `None` for `(None, None)`. */
  function ParseReferenceRange(range: string, parseFloat: string -> Option<real>): Option<(real, real)> {
    if '-' in range then
      var parts := Split(range, '-');
      if |parts| == 2 then
        match (parseFloat(Strip(parts[0])), parseFloat(Strip(parts[1])))
        case (Some(lo), Some(hi)) => Some((lo, hi))
        case _ => None
      else None
    else None
  }

  /** A range parses only when it holds exactly one '-'; so a negative bound,
      which brings a second '-', makes the whole range fail. */
  lemma RangeNeedsOneHyphen(range: string, parseFloat: string -> Option<real>)
    requires multiset(range)['-'] != 1
    ensures ParseReferenceRange(range, parseFloat) == None
  {
  }

  /** With its one '-' at `i`, a range is the two parsed sides of `i`. */
  lemma RangeSides(range: string, parseFloat: string -> Option<real>, i: nat)
    requires i < |range| && range[i] == '-' && '-' !in range[..i] && '-' !in range[i + 1..]
    ensures ParseReferenceRange(range, parseFloat) ==
      match (parseFloat(Strip(range[..i])), parseFloat(Strip(range[i + 1..])))
      case (Some(lo), Some(hi)) => Some((lo, hi))
      case _ => None
  {
    SplitAtOnlySeparator(range, '-', i);
  }

  // ---------------------------------------------------------------------
  // Gauges

  /** `_create_gauge_chart`: a gauge for an observation whose result and
      reference range parse, coloured by its flag. */
  function GaugeChart(obs: Observation, parseFloat: string -> Option<real>): Option<Chart> {
    var testName := Get(obs, "test_name", "Unknown Test");
    match parseFloat(Get(obs, "result", "0"))
    case None => None
    case Some(value) =>
      match ParseReferenceRange(Get(obs, "reference_range", ""), parseFloat)
      case None => None
      case Some((lo, hi)) => Some(Gauge(testName, value, lo, hi, FlagColor(Get(obs, "flag", "N"))))
  }

  /** `f"{test_name}_gauge"`, the test name defaulting to `Test_<i+1>`. */
  function GaugeKey(obs: Observation, i: nat): string {
    Get(obs, "test_name", "Test_" + NatToString(i + 1)) + "_gauge"
  }

  /** Each observation's key and gauge, if it has one, in order. */
  function GaugePairs(observations: seq<Observation>, parseFloat: string -> Option<real>): (pairs: seq<(string, Option<Chart>)>)
    ensures |pairs| == |observations|
  {
    seq(|observations|, i requires 0 <= i < |observations| =>
      (GaugeKey(observations[i], i), GaugeChart(observations[i], parseFloat)))
  }

  /** The dictionary after `visualizations[key] = gauge` for each pair that
      has a gauge, in order. */
  function Assign(pairs: seq<(string, Option<Chart>)>): map<string, Chart>
    decreases |pairs|
  {
    if pairs == [] then map[]
    else
      var earlier := Assign(pairs[..|pairs| - 1]);
      match Last(pairs).1
      case None => earlier
      case Some(g) => earlier[Last(pairs).0 := g]
  }

  /** A key holds the gauge of the last pair that has a gauge under it: a
      later test of the same name replaces an earlier one. */
  lemma {:induction false} AssignLastWins(pairs: seq<(string, Option<Chart>)>, i: nat)
    requires i < |pairs| && pairs[i].1.Some?
    requires forall j :: i < j < |pairs| && pairs[j].0 == pairs[i].0 ==> pairs[j].1 == None
    ensures pairs[i].0 in Assign(pairs) && Assign(pairs)[pairs[i].0] == pairs[i].1.value
    decreases |pairs|
  {
    if i < |pairs| - 1 {
      var init := pairs[..|pairs| - 1];
      assert init[i] == pairs[i];
      AssignLastWins(init, i);
    }
  }

  /** Every key comes from a pair that has a gauge. */
  lemma {:induction false} AssignKeys(pairs: seq<(string, Option<Chart>)>, key: string)
    requires key in Assign(pairs)
    ensures exists i :: 0 <= i < |pairs| && pairs[i].0 == key && pairs[i].1.Some?
    decreases |pairs|
  {
    var init := pairs[..|pairs| - 1];
    if key in Assign(init) {
      AssignKeys(init, key);
      var i :| 0 <= i < |init| && init[i].0 == key && init[i].1.Some?;
      assert pairs[i] == init[i];
    } else {
      assert Last(pairs).0 == key;
    }
  }

  /** The gauges of all observations, each under its key. */
  function Gauges(observations: seq<Observation>, parseFloat: string -> Option<real>): map<string, Chart> {
    Assign(GaugePairs(observations, parseFloat))
  }

  /** Every gauge key is the key of an observation that has a gauge, and so
      ends in "_gauge". */
  lemma GaugeKeysEnd(observations: seq<Observation>, parseFloat: string -> Option<real>, key: string)
    requires key in Gauges(observations, parseFloat)
    ensures EndsWith(key, "_gauge")
  {
    AssignKeys(GaugePairs(observations, parseFloat), key);
    var i :| 0 <= i < |observations| && GaugePairs(observations, parseFloat)[i].0 == key;
    GaugeKeyEnds(observations[i], i);
  }

  lemma GaugeKeyEnds(obs: Observation, i: nat)
    ensures EndsWith(GaugeKey(obs, i), "_gauge")
  {
    var key := GaugeKey(obs, i);
    assert key[|key| - 6..] == "_gauge";
  }

  /** Observations without a test name never share a gauge key: the default
      name `Test_<i+1>` tells their positions apart, so neither replaces the
      other's gauge. */
  lemma UnnamedGaugeKeysDiffer(obs1: Observation, i: nat, obs2: Observation, j: nat)
    requires "test_name" !in obs1 && "test_name" !in obs2 && i != j
    ensures GaugeKey(obs1, i) != GaugeKey(obs2, j)
  {
    var d1, d2 := NatToString(i + 1), NatToString(j + 1);
    if GaugeKey(obs1, i) == GaugeKey(obs2, j) {
      assert ("Test_" + d1 + "_gauge")[5..|d1| + 5] == d1;
      assert ("Test_" + d2 + "_gauge")[5..|d2| + 5] == d2;
      assert |d1| == |d2|;
      NatToStringInjective(i + 1, j + 1);
    }
  }

  // ---------------------------------------------------------------------
  // Overview charts

  /** An observation whose result parses, as the four parallel lists keep it. */
  datatype Entry = Entry(testName: string, result: real, flag: string, unit: string)

  /** The entries of the observations whose result parses, in order. */
  function Kept(observations: seq<Observation>, parseFloat: string -> Option<real>): seq<Entry>
    decreases |observations|
  {
    if observations == [] then []
    else
      var init := Kept(observations[..|observations| - 1], parseFloat);
      var obs := Last(observations);
      match parseFloat(Get(obs, "result", "0"))
      case None => init
      case Some(v) => init + [Entry(Get(obs, "test_name", "Unknown"), v, Get(obs, "flag", "N"), Get(obs, "unit", ""))]
  }

  /** The flag names of a list of flags, one per flag. */
  function NamesOf(flags: seq<string>): (names: seq<string>)
    ensures |names| == |flags|
  {
    seq(|flags|, k requires 0 <= k < |flags| => FlagName(flags[k]))
  }

  /** `flag_counts` after counting `names`: its keys in insertion order and
      its values. */
  function Tally(names: seq<string>): (seq<string>, map<string, nat>)
    decreases |names|
  {
    if names == [] then ([], map[])
    else
      var (labels, counts) := Tally(names[..|names| - 1]);
      var name := Last(names);
      if name in counts then (labels, counts[name := counts[name] + 1])
      else (labels + [name], counts[name := 1])
  }

  predicate NoDuplicates<T(==)>(s: seq<T>) {
    forall i, j :: 0 <= i < j < |s| ==> s[i] != s[j]
  }

  /** The tally holds each name once, in order of first appearance, counted as
      many times as it occurs. */
  lemma {:induction false} TallySpec(names: seq<string>)
    ensures forall l :: l in Tally(names).0 <==> l in names
    ensures Tally(names).1.Keys == set l | l in names
    ensures forall l :: l in Tally(names).1 ==> Tally(names).1[l] == multiset(names)[l]
    ensures NoDuplicates(Tally(names).0)
    decreases |names|
  {
    if names != [] {
      var init := names[..|names| - 1];
      TallySpec(init);
      assert names == init + [Last(names)];
    }
  }

  /** The labels are in order of first appearance: wherever a label occurs
      among the names, every earlier label has already occurred. */
  lemma {:induction false} TallyFirstAppearance(names: seq<string>)
    ensures forall i, j, q :: 0 <= i < j < |Tally(names).0| && 0 <= q < |names| && names[q] == Tally(names).0[j] ==>
      Tally(names).0[i] in names[..q]
    decreases |names|
  {
    if names != [] {
      var init := names[..|names| - 1];
      TallyFirstAppearance(init);
      TallySpec(init);
      var labels := Tally(names).0;
      var prior := Tally(init).0;
      forall i, j, q | 0 <= i < j < |labels| && 0 <= q < |names| && names[q] == labels[j]
        ensures labels[i] in names[..q]
      {
        assert labels[i] == prior[i];
        if q < |init| {
          assert init[q] == names[q];
          if j < |prior| {
            assert labels[j] == prior[j];
          } else {
            // `labels[j]` would be the last name, new to `init`, yet `init[q]`.
            assert false;
          }
          assert init[..q] == names[..q];
        } else {
          assert names[..q] == init;
        }
      }
    }
  }

  function Sum(s: seq<nat>): nat
    decreases |s|
  {
    if s == [] then 0 else Sum(s[..|s| - 1]) + Last(s)
  }

  /** `list(flag_counts.values())`. */
  function CountsOf(labels: seq<string>, counts: map<string, nat>): (values: seq<nat>)
    requires forall k :: 0 <= k < |labels| ==> labels[k] in counts
    ensures |values| == |labels|
  {
    seq(|labels|, k requires 0 <= k < |labels| => counts[labels[k]])
  }

  /** The counts add up to the number of names counted. */
  lemma {:induction false} TallySum(names: seq<string>)
    ensures forall k :: 0 <= k < |Tally(names).0| ==> Tally(names).0[k] in Tally(names).1
    ensures Sum(CountsOf(Tally(names).0, Tally(names).1)) == |names|
    decreases |names|
  {
    TallySpec(names);
    if names != [] {
      var init := names[..|names| - 1];
      TallySpec(init);
      TallySum(init);
      var labels, counts := Tally(init).0, Tally(init).1;
      var name := Last(names);
      if name in counts {
        assert Tally(names) == (labels, counts[name := counts[name] + 1]);
        SumBumped(labels, counts, name);
      } else {
        assert Tally(names) == (labels + [name], counts[name := 1]);
        SumExtended(labels, counts, name);
      }
    }
  }

  lemma SumBumped(labels: seq<string>, counts: map<string, nat>, name: string)
    requires forall k :: 0 <= k < |labels| ==> labels[k] in counts
    requires name in labels && name in counts && NoDuplicates(labels)
    ensures Sum(CountsOf(labels, counts[name := counts[name] + 1])) == Sum(CountsOf(labels, counts)) + 1
  {
    var p :| 0 <= p < |labels| && labels[p] == name;
    var before := CountsOf(labels, counts);
    var after := CountsOf(labels, counts[name := counts[name] + 1]);
    assert after == before[p := before[p] + 1];
    SumIncrement(before, p);
  }

  lemma SumExtended(labels: seq<string>, counts: map<string, nat>, name: string)
    requires forall k :: 0 <= k < |labels| ==> labels[k] in counts
    requires name !in labels
    ensures Sum(CountsOf(labels + [name], counts[name := 1])) == Sum(CountsOf(labels, counts)) + 1
  {
    var after := CountsOf(labels + [name], counts[name := 1]);
    assert after[..|after| - 1] == CountsOf(labels, counts);
  }

  lemma {:induction false} SumIncrement(s: seq<nat>, p: nat)
    requires p < |s|
    ensures Sum(s[p := s[p] + 1]) == Sum(s) + 1
    decreases |s|
  {
    var t := s[p := s[p] + 1];
    assert t[..|t| - 1] == if p < |s| - 1 then s[..|s| - 1][p := s[p] + 1] else s[..|s| - 1];
    if p < |s| - 1 {
      SumIncrement(s[..|s| - 1], p);
    }
  }

  /** There is more than one label exactly when two of the names differ. */
  lemma TallyManyLabels(names: seq<string>)
    ensures |Tally(names).0| > 1 <==> exists i, j :: 0 <= i < j < |names| && names[i] != names[j]
  {
    TallySpec(names);
    var labels := Tally(names).0;
    if |labels| > 1 {
      assert labels[0] in names && labels[1] in names;
      var i :| 0 <= i < |names| && names[i] == labels[0];
      var j :| 0 <= j < |names| && names[j] == labels[1];
      if i < j {
        assert names[i] != names[j];
      } else {
        assert names[j] != names[i];
      }
    }
    if exists i, j :: 0 <= i < j < |names| && names[i] != names[j] {
      var i, j :| 0 <= i < j < |names| && names[i] != names[j];
      assert names[i] in labels && names[j] in labels;
      var p :| 0 <= p < |labels| && labels[p] == names[i];
      var q :| 0 <= q < |labels| && labels[q] == names[j];
      assert p != q;
    }
  }

  /** The flags of the kept entries, one per entry. */
  function FlagsOf(kept: seq<Entry>): (flags: seq<string>)
    ensures |flags| == |kept|
  {
    seq(|kept|, k requires 0 <= k < |kept| => kept[k].flag)
  }

  /** The bar chart of all kept entries: test names along the axis, results
      as heights, each bar coloured by its flag. */
  function OverviewBar(kept: seq<Entry>): Chart {
    Bar(seq(|kept|, k requires 0 <= k < |kept| => kept[k].testName),
        seq(|kept|, k requires 0 <= k < |kept| => kept[k].result),
        seq(|kept|, k requires 0 <= k < |kept| => FlagColor(kept[k].flag)),
        seq(|kept|, k requires 0 <= k < |kept| => kept[k].unit))
  }

  /** The pie chart of a tally: one slice per flag name, coloured by the
      colour of the name's code. */
  function FlagPie(labels: seq<string>, counts: map<string, nat>): Chart
    requires forall k :: 0 <= k < |labels| ==> labels[k] in counts
  {
    Pie(labels, CountsOf(labels, counts),
        seq(|labels|, k requires 0 <= k < |labels| => FlagColor(FlagCode(labels[k]))))
  }

  /** `_create_overview_charts` as a value: nothing when no result parses,
      otherwise the bar chart, and the pie chart too when the kept flags have
      more than one name. */
  function OverviewCharts(observations: seq<Observation>, parseFloat: string -> Option<real>): map<string, Chart> {
    var kept := Kept(observations, parseFloat);
    if kept == [] then map[]
    else
      var tally := Tally(NamesOf(FlagsOf(kept)));
      TallySum(NamesOf(FlagsOf(kept)));
      if |tally.0| > 1 then
        map["overview_bar" := OverviewBar(kept), "flag_distribution" := FlagPie(tally.0, tally.1)]
      else map["overview_bar" := OverviewBar(kept)]
  }

  /** `create_visualizations` as a value; `None` is a record without an
      "observations" entry. */
  function Visualizations(observations: Option<seq<Observation>>, parseFloat: string -> Option<real>): map<string, Chart> {
    match observations
    case None => map[]
    case Some(obs) =>
      if obs == [] then map[] else Gauges(obs, parseFloat) + OverviewCharts(obs, parseFloat)
  }

  // ---------------------------------------------------------------------
  // Properties of the dictionary

  /** An observation's gauge is in the dictionary under its key unless a
      later observation with the same key has a gauge too; the overview
      charts, whose keys do not end in "_gauge", never replace a gauge. */
  lemma GaugeShown(observations: seq<Observation>, parseFloat: string -> Option<real>, i: nat)
    requires i < |observations| && GaugeChart(observations[i], parseFloat).Some?
    requires forall j :: i < j < |observations| && GaugeKey(observations[j], j) == GaugeKey(observations[i], i) ==>
      GaugeChart(observations[j], parseFloat) == None
    ensures var vis := Visualizations(Some(observations), parseFloat);
      GaugeKey(observations[i], i) in vis && vis[GaugeKey(observations[i], i)] == GaugeChart(observations[i], parseFloat).value
  {
    var pairs := GaugePairs(observations, parseFloat);
    var key := GaugeKey(observations[i], i);
    assert pairs[i] == (key, GaugeChart(observations[i], parseFloat));
    forall j | i < j < |pairs| && pairs[j].0 == pairs[i].0
      ensures pairs[j].1 == None
    {
      assert pairs[j] == (GaugeKey(observations[j], j), GaugeChart(observations[j], parseFloat));
    }
    AssignLastWins(pairs, i);
    GaugeKeyEnds(observations[i], i);
    GaugeKeysNotOverviewKeys(observations, parseFloat, key);
  }

  lemma GaugeKeysNotOverviewKeys(observations: seq<Observation>, parseFloat: string -> Option<real>, key: string)
    requires EndsWith(key, "_gauge")
    ensures key !in OverviewCharts(observations, parseFloat)
  {
    OverviewShape(observations, parseFloat);
    assert !EndsWith("overview_bar", "_gauge");
    assert !EndsWith("flag_distribution", "_gauge");
  }

  /** An observation whose reference range does not hold exactly one '-'
      (no range at all, or a negative bound) gets no gauge. */
  lemma NoGaugeWithoutOneHyphen(obs: Observation, parseFloat: string -> Option<real>)
    requires multiset(Get(obs, "reference_range", ""))['-'] != 1
    ensures GaugeChart(obs, parseFloat) == None
  {
    RangeNeedsOneHyphen(Get(obs, "reference_range", ""), parseFloat);
  }

  /** Every kept entry comes from an observation whose result parses, with
      that observation's test name, flag and unit. */
  lemma {:induction false} KeptFromObservations(observations: seq<Observation>, parseFloat: string -> Option<real>, k: nat)
    requires k < |Kept(observations, parseFloat)|
    ensures exists i :: (0 <= i < |observations| &&
      var e := Kept(observations, parseFloat)[k];
      && parseFloat(Get(observations[i], "result", "0")) == Some(e.result)
      && e == Entry(Get(observations[i], "test_name", "Unknown"), e.result,
                    Get(observations[i], "flag", "N"), Get(observations[i], "unit", "")))
    decreases |observations|
  {
    var init := observations[..|observations| - 1];
    if k < |Kept(init, parseFloat)| {
      KeptFromObservations(init, parseFloat, k);
      var i :| 0 <= i < |init| &&
        var e := Kept(init, parseFloat)[k];
        && parseFloat(Get(init[i], "result", "0")) == Some(e.result)
        && e == Entry(Get(init[i], "test_name", "Unknown"), e.result, Get(init[i], "flag", "N"), Get(init[i], "unit", ""));
      assert observations[i] == init[i];
    } else {
      assert parseFloat(Get(Last(observations), "result", "0")).Some?;
      assert Last(observations) == observations[|observations| - 1];
    }
  }

  /** Nothing is dropped when every result parses, and everything is when
      none does. */
  lemma {:induction false} KeptCount(observations: seq<Observation>, parseFloat: string -> Option<real>)
    ensures |Kept(observations, parseFloat)| <= |observations|
    ensures (forall i :: 0 <= i < |observations| ==> parseFloat(Get(observations[i], "result", "0")).Some?) ==>
      |Kept(observations, parseFloat)| == |observations|
    ensures (forall i :: 0 <= i < |observations| ==> parseFloat(Get(observations[i], "result", "0")).None?) ==>
      Kept(observations, parseFloat) == []
    decreases |observations|
  {
    if observations != [] {
      var init := observations[..|observations| - 1];
      KeptCount(init, parseFloat);
      assert forall i :: 0 <= i < |init| ==> init[i] == observations[i];
    }
  }

  /** The overview has the bar chart exactly when some result parses, and the
      pie chart exactly when two kept flags have different names. */
  lemma OverviewShape(observations: seq<Observation>, parseFloat: string -> Option<real>)
    ensures var charts := OverviewCharts(observations, parseFloat);
      var kept := Kept(observations, parseFloat);
      && charts.Keys <= {"overview_bar", "flag_distribution"}
      && ("overview_bar" in charts <==> kept != [])
      && ("flag_distribution" in charts <==>
            exists i, j :: 0 <= i < j < |kept| && FlagName(kept[i].flag) != FlagName(kept[j].flag))
  {
    var kept := Kept(observations, parseFloat);
    TallyManyLabels(NamesOf(FlagsOf(kept)));
    NamesDiffer(kept);
  }

  lemma NamesDiffer(kept: seq<Entry>)
    ensures (exists i, j :: 0 <= i < j < |kept| && FlagName(kept[i].flag) != FlagName(kept[j].flag)) <==>
      (exists i, j :: 0 <= i < j < |kept| && NamesOf(FlagsOf(kept))[i] != NamesOf(FlagsOf(kept))[j])
  {
    var names := NamesOf(FlagsOf(kept));
    assert forall i :: 0 <= i < |kept| ==> names[i] == FlagName(kept[i].flag);
  }

  /** The bar chart has one bar per kept entry, coloured by its flag. */
  lemma BarShape(observations: seq<Observation>, parseFloat: string -> Option<real>)
    requires "overview_bar" in OverviewCharts(observations, parseFloat)
    ensures var bar := OverviewCharts(observations, parseFloat)["overview_bar"];
      var kept := Kept(observations, parseFloat);
      && bar.Bar?
      && |bar.testNames| == |bar.results| == |bar.colors| == |bar.units| == |kept|
      && forall k :: 0 <= k < |kept| ==>
           bar.testNames[k] == kept[k].testName && bar.results[k] == kept[k].result &&
           bar.colors[k] == FlagColor(kept[k].flag)
  {
  }

  /** The pie chart has one slice per distinct flag name, in order of first
      appearance; each slice counts at least one test and the slices count
      every kept test once. */
  lemma PieShape(observations: seq<Observation>, parseFloat: string -> Option<real>)
    requires "flag_distribution" in OverviewCharts(observations, parseFloat)
    ensures var pie := OverviewCharts(observations, parseFloat)["flag_distribution"];
      var kept := Kept(observations, parseFloat);
      && pie.Pie?
      && |pie.labels| == |pie.counts| == |pie.colors| > 1
      && NoDuplicates(pie.labels)
      && (forall k :: 0 <= k < |pie.labels| ==> pie.labels[k] in NamesOf(FlagsOf(kept)) && pie.counts[k] >= 1)
      && (forall n :: n in NamesOf(FlagsOf(kept)) ==> n in pie.labels)
      && (forall k :: 0 <= k < |pie.labels| ==>
            pie.counts[k] == multiset(NamesOf(FlagsOf(kept)))[pie.labels[k]] &&
            pie.colors[k] == FlagColor(FlagCode(pie.labels[k])))
      && Sum(pie.counts) == |kept|
  {
    var names := NamesOf(FlagsOf(Kept(observations, parseFloat)));
    FlagPieSpec(names);
    assert OverviewCharts(observations, parseFloat)["flag_distribution"] == FlagPie(Tally(names).0, Tally(names).1);
  }

  /** The pie of a tally: one slice per distinct name, counting its
      occurrences and coloured by its code, the slices together counting
      every name once. */
  lemma FlagPieSpec(names: seq<string>)
    ensures forall k :: 0 <= k < |Tally(names).0| ==> Tally(names).0[k] in Tally(names).1
    ensures var pie := FlagPie(Tally(names).0, Tally(names).1);
      && pie.labels == Tally(names).0
      && |pie.labels| == |pie.counts| == |pie.colors|
      && NoDuplicates(pie.labels)
      && (forall k :: 0 <= k < |pie.labels| ==> pie.labels[k] in names && pie.counts[k] >= 1)
      && (forall n :: n in names ==> n in pie.labels)
      && (forall k :: 0 <= k < |pie.labels| ==>
            pie.counts[k] == multiset(names)[pie.labels[k]] &&
            pie.colors[k] == FlagColor(FlagCode(pie.labels[k])))
      && Sum(pie.counts) == |names|
  {
    TallySpec(names);
    TallySum(names);
    TallyCountsPositive(names);
    var labels, counts := Tally(names).0, Tally(names).1;
    var pie := FlagPie(labels, counts);
    assert pie.labels == labels && pie.counts == CountsOf(labels, counts);
    forall k | 0 <= k < |labels|
      ensures pie.counts[k] == multiset(names)[labels[k]]
      ensures pie.colors[k] == FlagColor(FlagCode(labels[k]))
    {
      assert pie.counts[k] == counts[labels[k]];
    }
  }

  /** Every label of a tally counts at least one name. */
  lemma TallyCountsPositive(names: seq<string>)
    ensures forall k :: 0 <= k < |Tally(names).0| ==>
      Tally(names).0[k] in Tally(names).1 && Tally(names).1[Tally(names).0[k]] >= 1
  {
    TallySpec(names);
    var labels, counts := Tally(names).0, Tally(names).1;
    forall k | 0 <= k < |labels|
      ensures labels[k] in counts && counts[labels[k]] >= 1
    {
      assert labels[k] in multiset(names);
    }
  }

  // ---------------------------------------------------------------------
  // The loops

  /** The `flag_counts` loop: counts the flag names in the order they first
      appear. */
  method CountFlags(flags: seq<string>) returns (labels: seq<string>, counts: map<string, nat>)
    ensures (labels, counts) == Tally(NamesOf(flags))
  {
    labels, counts := [], map[];
    for i := 0 to |flags|
      invariant (labels, counts) == Tally(NamesOf(flags)[..i])
    {
      var name := FlagName(flags[i]);
      assert NamesOf(flags)[..i + 1] == NamesOf(flags)[..i] + [name];
      if name in counts {
        counts := counts[name := counts[name] + 1];
      } else {
        labels := labels + [name];
        counts := counts[name := 1];
      }
    }
    assert NamesOf(flags)[..|flags|] == NamesOf(flags);
  }

  /** The loop of `_create_overview_charts`: the four parallel lists of the
      observations whose result parses. */
  method CollectEntries(observations: seq<Observation>, parseFloat: string -> Option<real>)
    returns (testNames: seq<string>, results: seq<real>, flags: seq<string>, units: seq<string>)
    ensures var kept := Kept(observations, parseFloat);
      && |testNames| == |results| == |flags| == |units| == |kept|
      && forall k :: 0 <= k < |kept| ==> kept[k] == Entry(testNames[k], results[k], flags[k], units[k])
  {
    testNames, results, flags, units := [], [], [], [];
    for i := 0 to |observations|
      invariant var kept := Kept(observations[..i], parseFloat);
        && |testNames| == |results| == |flags| == |units| == |kept|
        && forall k :: 0 <= k < |kept| ==>
             kept[k] == Entry(testNames[k], results[k], flags[k], units[k])
    {
      var obs := observations[i];
      KeptStep(observations, parseFloat, i);
      match parseFloat(Get(obs, "result", "0")) {
        case None =>
        case Some(v) =>
          testNames := testNames + [Get(obs, "test_name", "Unknown")];
          results := results + [v];
          flags := flags + [Get(obs, "flag", "N")];
          units := units + [Get(obs, "unit", "")];
      }
    }
    assert observations[..|observations|] == observations;
  }

  /** One more observation adds its entry to the kept ones exactly when its
      result parses. */
  lemma KeptStep(observations: seq<Observation>, parseFloat: string -> Option<real>, i: nat)
    requires i < |observations|
    ensures var obs := observations[i];
      Kept(observations[..i + 1], parseFloat) ==
        match parseFloat(Get(obs, "result", "0"))
        case None => Kept(observations[..i], parseFloat)
        case Some(v) =>
          Kept(observations[..i], parseFloat) + [Entry(Get(obs, "test_name", "Unknown"), v, Get(obs, "flag", "N"), Get(obs, "unit", ""))]
  {
    assert observations[..i + 1][..i] == observations[..i];
  }

  /** `_create_overview_charts`: collects the four parallel lists of the
      observations whose result parses, then builds the charts. */
  method CreateOverviewCharts(observations: seq<Observation>, parseFloat: string -> Option<real>)
    returns (charts: map<string, Chart>)
    ensures charts == OverviewCharts(observations, parseFloat)
  {
    charts := map[];
    var testNames, results, flags, units := CollectEntries(observations, parseFloat);
    ghost var kept := Kept(observations, parseFloat);
    if |testNames| == 0 {
      return;
    }
    var colors := seq(|flags|, k requires 0 <= k < |flags| => FlagColor(flags[k]));
    charts := charts["overview_bar" := Bar(testNames, results, colors, units)];
    assert Bar(testNames, results, colors, units) == OverviewBar(kept);
    assert flags == FlagsOf(kept);
    var labels, counts := CountFlags(flags);
    if |labels| > 1 {
      TallySum(NamesOf(flags));
      var values := seq(|labels|, k requires 0 <= k < |labels| => counts[labels[k]]);
      var sliceColors := seq(|labels|, k requires 0 <= k < |labels| => FlagColor(FlagCode(labels[k])));
      assert Pie(labels, values, sliceColors) == FlagPie(labels, counts);
      charts := charts["flag_distribution" := Pie(labels, values, sliceColors)];
    }
  }

  /** `create_visualizations`: a gauge per observation that has one, under
      its test name, then the overview charts on top. */
  method CreateVisualizations(observations: Option<seq<Observation>>, parseFloat: string -> Option<real>)
    returns (visualizations: map<string, Chart>)
    ensures visualizations == Visualizations(observations, parseFloat)
  {
    visualizations := map[];
    if observations.None? || observations.value == [] {
      return;
    }
    var obs := observations.value;
    ghost var pairs := GaugePairs(obs, parseFloat);
    for i := 0 to |obs|
      invariant visualizations == Assign(pairs[..i])
    {
      var testName := Get(obs[i], "test_name", "Test_" + NatToString(i + 1));
      var gauge := GaugeChart(obs[i], parseFloat);
      assert pairs[..i + 1][..i] == pairs[..i];
      assert pairs[i] == (testName + "_gauge", gauge);
      if gauge.Some? {
        visualizations := visualizations[testName + "_gauge" := gauge.value];
      }
    }
    assert pairs[..|obs|] == pairs;
    var overview := CreateOverviewCharts(obs, parseFloat);
    visualizations := visualizations + overview;
  }
}
