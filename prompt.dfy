/**
 * What the two prompt builders select, leaving their prose aside: which columns
 * and samples they show (and how many), which output-format lines the
 * column-identification prompt asks for and in what order, whether it writes
 * a column guide, and which common columns it cross-references.
 */
module PromptSelection {
  import opened Wrappers
  import opened Text
  import opened FileTypeDetection
  import opened Heuristics
  import opened CrossFile

  // ----- truncations -----

  /** `xs[:n]`. */
  function FirstN<T>(xs: seq<T>, n: nat): (r: seq<T>)
    ensures r <= xs
    ensures |r| == if |xs| <= n then |xs| else n
  {
    if |xs| <= n then xs else xs[..n]
  }

  /** One line of a prompt's column details: the column and the sample values shown for it. */
  datatype SampleLine = SampleLine(column: string, samples: seq<string>)

  /** `sample_data.get(col, [])`: the sample values recorded for a column, or none. */
  function SamplesOf(sampleData: map<string, seq<string>>, c: string): seq<string> {
    if c in sampleData then sampleData[c] else []
  }

  /** The first three samples of each column shown, in column order. */
  function Details(columns: seq<string>, sampleData: map<string, seq<string>>): (r: seq<SampleLine>)
    ensures |r| == |columns|
    ensures forall k :: 0 <= k < |r| ==> (r[k].column == columns[k]
      && r[k].samples <= SamplesOf(sampleData, columns[k])
      && |r[k].samples| == if |SamplesOf(sampleData, columns[k])| <= 3 then |SamplesOf(sampleData, columns[k])| else 3)
  {
    seq(|columns|, k requires 0 <= k < |columns| => SampleLine(columns[k], FirstN(SamplesOf(sampleData, columns[k]), 3)))
  }

  /** The columns the file-type prompt lists (the first 15) and details (the first 8). */
  function FileTypeView(columns: seq<string>, sampleData: map<string, seq<string>>): (seq<string>, seq<SampleLine>) {
    (FirstN(columns, 15), Details(FirstN(columns, 8), sampleData))
  }

  /**
   * The file-type prompt lists exactly the first 15 columns (all of them when
   * there are fewer) and details exactly the first 8, each with its first
   * three samples.
   */
  lemma FileTypeViewBounds(columns: seq<string>, sampleData: map<string, seq<string>>)
    ensures var v := FileTypeView(columns, sampleData);
      v.0 <= columns && |v.0| == (if |columns| <= 15 then |columns| else 15)
      && |v.1| == (if |columns| <= 8 then |columns| else 8)
    ensures var v := FileTypeView(columns, sampleData);
      forall k :: 0 <= k < |v.1| ==> (v.1[k].column == columns[k] && v.1[k].column == v.0[k]
        && v.1[k].samples <= SamplesOf(sampleData, columns[k])
        && |v.1[k].samples| == if |SamplesOf(sampleData, columns[k])| <= 3 then |SamplesOf(sampleData, columns[k])| else 3)
  {
    var listed := FirstN(columns, 15);
    var shown := FirstN(columns, 8);
    assert forall k :: 0 <= k < |shown| ==> shown[k] == columns[k] == listed[k];
  }

  /** `[c for c in xs if c in keys]`. */
  function KeepIn(xs: seq<string>, keys: set<string>): (r: seq<string>)
    ensures |r| <= |xs|
    ensures forall c :: c in r <==> c in xs && c in keys
  {
    if xs == [] then []
    else (if xs[0] in keys then [xs[0]] else []) + KeepIn(xs[1..], keys)
  }

  /** Filtering keeps the order of the list: filtering a concatenation concatenates the filtered parts. */
  lemma {:induction false} KeepInAppend(a: seq<string>, b: seq<string>, keys: set<string>)
    ensures KeepIn(a + b, keys) == KeepIn(a, keys) + KeepIn(b, keys)
  {
    if a == [] {
      assert a + b == b;
    } else {
      assert (a + b)[0] == a[0];
      assert (a + b)[1..] == a[1..] + b;
      KeepInAppend(a[1..], b, keys);
    }
  }

  /** The column-identification prompt's statistics lines: those of the first 10 columns that have statistics. */
  function StatsColumns(columns: seq<string>, stats: Option<set<string>>): (r: seq<string>)
    ensures stats.None? ==> r == []
    ensures stats.Some? ==> forall c :: c in r <==> c in columns[..if |columns| <= 10 then |columns| else 10] && c in stats.value
  {
    match stats
    case None => []
    case Some(keys) => KeepIn(FirstN(columns, 10), keys)
  }

  /** What the column-identification prompt shows: every column by name, the first 10 with samples, and the statistics lines. */
  datatype ColumnsView = ColumnsView(listed: seq<string>, detailed: seq<SampleLine>, withStats: seq<string>)

  function ColumnTaskView(columns: seq<string>, sampleData: map<string, seq<string>>, stats: Option<set<string>>): (r: ColumnsView)
    ensures r.listed == columns && |r.detailed| == (if |columns| <= 10 then |columns| else 10)
    ensures forall k :: 0 <= k < |r.detailed| ==> (r.detailed[k].column == columns[k]
      && r.detailed[k].samples <= SamplesOf(sampleData, columns[k])
      && |r.detailed[k].samples| == if |SamplesOf(sampleData, columns[k])| <= 3 then |SamplesOf(sampleData, columns[k])| else 3)
    ensures r.withStats == StatsColumns(columns, stats) && |r.withStats| <= 10
  {
    ColumnsView(columns, Details(FirstN(columns, 10), sampleData), StatsColumns(columns, stats))
  }

  // ----- output-format lines -----

  /** The output-format lines the column-identification prompt can ask for. */
  datatype FormatLine =
    | HoleNameFormat | DipFormat | AzimuthFormat | DepthAtFormat | CoordinatesFormat
    | GradeColumnsFormat | DepthIntervalsFormat | LithologyFormat | DensityFormat

  /** The required-columns keys the output-format chain tests. */
  const HoleIdKey := "hole_id"
  const DipKey := "dip"
  const AzimuthKey := "azimuth"
  const DepthKey := "depth"
  const CoordinatesKey := "coordinates"
  const ElementColumnsKey := "element_columns"
  const DepthIntervalsKey := "depth_intervals"
  const LithologyCodeKey := "lithology_code"
  const DensityKey := "density"

  /** The required-columns key whose presence asks for each line. */
  function KeyOf(l: FormatLine): string {
    match l
    case HoleNameFormat => HoleIdKey
    case DipFormat => DipKey
    case AzimuthFormat => AzimuthKey
    case DepthAtFormat => DepthKey
    case CoordinatesFormat => CoordinatesKey
    case GradeColumnsFormat => ElementColumnsKey
    case DepthIntervalsFormat => DepthIntervalsKey
    case LithologyFormat => LithologyCodeKey
    case DensityFormat => DensityKey
  }

  /** Each line's place in the order the heuristics branch tests the keys. */
  function Rank(l: FormatLine): nat {
    match l
    case HoleNameFormat => 0
    case DipFormat => 1
    case AzimuthFormat => 2
    case DepthAtFormat => 3
    case CoordinatesFormat => 4
    case GradeColumnsFormat => 5
    case DepthIntervalsFormat => 6
    case LithologyFormat => 7
    case DensityFormat => 8
  }

  /** The five lines the prompt asks for when no heuristics are loaded, in that branch's own order. */
  const FallbackFormat: seq<FormatLine> := [HoleNameFormat, DipFormat, AzimuthFormat, GradeColumnsFormat, CoordinatesFormat]

  /** `required_cols[k]`, when `k in required_cols` (the first entry with that key). */
  function ValueOf(req: Required, k: string): Option<ColData> {
    if req == [] then None
    else if req[0].0 == k then Some(req[0].1)
    else ValueOf(req[1..], k)
  }

  /** A key is found exactly when some entry carries it, and what is found is that entry's description. */
  lemma {:induction false} ValueOfFound(req: Required, k: string)
    ensures ValueOf(req, k).Some? <==> exists i :: 0 <= i < |req| && req[i].0 == k
    ensures ValueOf(req, k).Some? ==> exists i :: 0 <= i < |req| && req[i] == (k, ValueOf(req, k).value)
  {
    if req != [] && req[0].0 != k {
      ValueOfFound(req[1..], k);
      assert forall i :: 1 <= i < |req| ==> req[1..][i - 1] == req[i];
    }
  }

  /** `'common_names' in coord_data`, for a description that is a dict. */
  predicate HasCommonNames(d: ColData) {
    d.ColDict? && d.commonNames.Some?
  }

  /** A line is asked for when its key is required; the coordinates line also needs the coordinate synonyms. */
  predicate Selected(req: Required, l: FormatLine) {
    ValueOf(req, KeyOf(l)).Some? && (l == CoordinatesFormat ==> HasCommonNames(ValueOf(req, KeyOf(l)).value))
  }

  /** One test of the chain: the line is appended when it is selected. */
  function Step(lines: seq<FormatLine>, req: Required, l: FormatLine): seq<FormatLine> {
    lines + (if Selected(req, l) then [l] else [])
  }

  /** The heuristics branch's output-format lines: the nine tests in their fixed order. */
  function OutputFormatSpec(req: Required): seq<FormatLine> {
    Step(Step(Step(Step(Step(Step(Step(Step(Step([],
      req, HoleNameFormat), req, DipFormat), req, AzimuthFormat), req, DepthAtFormat), req, CoordinatesFormat),
      req, GradeColumnsFormat), req, DepthIntervalsFormat), req, LithologyFormat), req, DensityFormat)
  }

  /** Lines whose ranks strictly increase. */
  predicate Ordered(lines: seq<FormatLine>) {
    forall i, j :: 0 <= i < j < |lines| ==> Rank(lines[i]) < Rank(lines[j])
  }

  /** A step after lower-ranked lines keeps the lines ordered and adds only its own line. */
  lemma StepFacts(lines: seq<FormatLine>, req: Required, l: FormatLine)
    requires Ordered(lines) && forall x :: x in lines ==> Rank(x) < Rank(l)
    ensures Ordered(Step(lines, req, l))
    ensures forall x :: x in Step(lines, req, l) <==> x in lines || (x == l && Selected(req, l))
    ensures forall x :: x in Step(lines, req, l) ==> Rank(x) <= Rank(l)
  {
    var r := Step(lines, req, l);
    forall i, j | 0 <= i < j < |r|
      ensures Rank(r[i]) < Rank(r[j])
    {
      if j == |lines| {
        assert r[i] == lines[i] && r[i] in lines;
      } else {
        assert r[i] == lines[i] && r[j] == lines[j];
      }
    }
  }

  /**
   * With heuristics, a line is asked for exactly when its key is required (the
   * coordinates line also needing the coordinate synonyms), and the lines come in
   * the fixed order, each at most once.
   */
  lemma OutputFormatShape(req: Required)
    ensures forall l :: l in OutputFormatSpec(req) <==> Selected(req, l)
    ensures Ordered(OutputFormatSpec(req))
  {
    var s0: seq<FormatLine> := [];
    var s1 := Step(s0, req, HoleNameFormat);
    StepFacts(s0, req, HoleNameFormat);
    var s2 := Step(s1, req, DipFormat);
    StepFacts(s1, req, DipFormat);
    var s3 := Step(s2, req, AzimuthFormat);
    StepFacts(s2, req, AzimuthFormat);
    var s4 := Step(s3, req, DepthAtFormat);
    StepFacts(s3, req, DepthAtFormat);
    var s5 := Step(s4, req, CoordinatesFormat);
    StepFacts(s4, req, CoordinatesFormat);
    var s6 := Step(s5, req, GradeColumnsFormat);
    StepFacts(s5, req, GradeColumnsFormat);
    var s7 := Step(s6, req, DepthIntervalsFormat);
    StepFacts(s6, req, DepthIntervalsFormat);
    var s8 := Step(s7, req, LithologyFormat);
    StepFacts(s7, req, LithologyFormat);
    StepFacts(s8, req, DensityFormat);
  }

  /** The if-chain of the heuristics branch, appending one line per key found. */
  method BuildOutputFormat(req: Required) returns (lines: seq<FormatLine>)
    ensures lines == OutputFormatSpec(req)
  {
    lines := AppendSurveyFormats(req, []);
    lines := AppendColumnFormats(req, lines);
  }

  /** The first four tests of the chain: hole name, dip, azimuth and depth. */
  method AppendSurveyFormats(req: Required, prev: seq<FormatLine>) returns (lines: seq<FormatLine>)
    ensures lines == Step(Step(Step(Step(prev, req, HoleNameFormat), req, DipFormat), req, AzimuthFormat), req, DepthAtFormat)
  {
    lines := prev;
    if ValueOf(req, HoleIdKey).Some? {
      lines := lines + [HoleNameFormat];
    }
    ghost var spec := Step(prev, req, HoleNameFormat);
    assert lines == spec;
    if ValueOf(req, DipKey).Some? {
      lines := lines + [DipFormat];
    }
    spec := Step(spec, req, DipFormat);
    assert lines == spec;
    if ValueOf(req, AzimuthKey).Some? {
      lines := lines + [AzimuthFormat];
    }
    spec := Step(spec, req, AzimuthFormat);
    assert lines == spec;
    if ValueOf(req, DepthKey).Some? {
      lines := lines + [DepthAtFormat];
    }
  }

  /** The last five tests of the chain: coordinates, grades, depth intervals, lithology and density. */
  method AppendColumnFormats(req: Required, prev: seq<FormatLine>) returns (lines: seq<FormatLine>)
    ensures lines == Step(Step(Step(Step(Step(prev, req, CoordinatesFormat), req, GradeColumnsFormat),
      req, DepthIntervalsFormat), req, LithologyFormat), req, DensityFormat)
  {
    lines := prev;
    var coordData := ValueOf(req, CoordinatesKey);
    if coordData.Some? {
      if HasCommonNames(coordData.value) {
        lines := lines + [CoordinatesFormat];
      }
    }
    ghost var spec := Step(prev, req, CoordinatesFormat);
    assert lines == spec;
    if ValueOf(req, ElementColumnsKey).Some? {
      lines := lines + [GradeColumnsFormat];
    }
    spec := Step(spec, req, GradeColumnsFormat);
    assert lines == spec;
    if ValueOf(req, DepthIntervalsKey).Some? {
      lines := lines + [DepthIntervalsFormat];
    }
    spec := Step(spec, req, DepthIntervalsFormat);
    assert lines == spec;
    if ValueOf(req, LithologyCodeKey).Some? {
      lines := lines + [LithologyFormat];
    }
    spec := Step(spec, req, LithologyFormat);
    assert lines == spec;
    if ValueOf(req, DensityKey).Some? {
      lines := lines + [DensityFormat];
    }
  }

  // ----- the column-identification prompt -----

  /** `detected_file_type in heuristics["file_types"]`: an exact-case key test. */
  predicate ExactKey(h: Heuristics, t: string) {
    exists k :: 0 <= k < |h.fileTypes| && h.fileTypes[k].0 == t
  }

  /** The cross-reference block: the common columns that this file also has, with their entries. */
  function CrossRef(common: map<string, Common>, columns: seq<string>): (r: map<string, Common>)
    ensures forall c :: c in r <==> c in common && c in columns
    ensures forall c :: c in r ==> r[c] == common[c]
  {
    map c | c in common && c in columns :: common[c]
  }

  /** What the column-identification prompt selects. */
  datatype ColumnPrompt = ColumnPrompt(
    formatLines: seq<FormatLine>,
    guideType: Option<string>,
    crossRef: map<string, Common>)

  /**
   * With heuristics: the type read from the classification text, its required
   * columns found ignoring case, a column guide only under an exact-case key, the
   * selected output lines and the cross-references.  Without: the fixed fallback lines.
   */
  function ColumnPromptSpec(typeText: string, columns: seq<string>, h: Option<Heuristics>,
                            common: map<string, Common>): (r: ColumnPrompt)
    ensures h.None? ==> r.formatLines == FallbackFormat && r.guideType.None? && r.crossRef == map[]
    ensures h.Some? ==> (forall l :: l in r.formatLines <==>
      Selected(GetRequiredColumns(ExtractFileType(typeText), h), l)) && Ordered(r.formatLines)
    ensures r.guideType.Some? ==> (h.Some? && ExtractFileType(typeText) == r.guideType
      && ExactKey(h.value, r.guideType.value))
    ensures h.Some? ==> (r.guideType.Some? <==>
      ExtractFileType(typeText).Some? && ExactKey(h.value, ExtractFileType(typeText).value))
    ensures h.Some? ==> r.crossRef == CrossRef(common, columns)
  {
    if h.None? then ColumnPrompt(FallbackFormat, None, map[])
    else
      var detected := ExtractFileType(typeText);
      var req := if detected.Some? then GetRequiredColumns(detected, h) else [];
      var guide := if detected.Some? && ExactKey(h.value, detected.value) then detected else None;
      OutputFormatShape(req);
      ColumnPrompt(OutputFormatSpec(req), guide, CrossRef(common, columns))
  }

  /** A classification naming a type that matches no heuristics key asks for no output lines and writes no guide. */
  lemma UnknownTypeAsksNothing(typeText: string, columns: seq<string>, h: Heuristics, common: map<string, Common>)
    requires ExtractFileType(typeText).Some?
    requires forall j :: 0 <= j < |h.fileTypes| ==> LowerStr(h.fileTypes[j].0) != LowerStr(ExtractFileType(typeText).value)
    ensures ColumnPromptSpec(typeText, columns, Some(h), common).formatLines == []
    ensures ColumnPromptSpec(typeText, columns, Some(h), common).guideType.None?
  {
    var d := ExtractFileType(typeText).value;
    assert GetRequiredColumns(Some(d), Some(h)) == [] by {
      UnknownTypeHasNoColumns(h, d);
    }
    assert !ExactKey(h, d);
    NothingRequiredAsksNothing();
  }

  /** With no required columns, every test of the chain fails. */
  lemma NothingRequiredAsksNothing()
    ensures OutputFormatSpec([]) == []
  {
  }

  /** A hole-identifier description with none of the optional keys. */
  const PlainHoleId := ColDict(None, None, None, None, None, None, None, None, None, None)

  /** Heuristics with a single `Collar` type that requires only a hole identifier. */
  const CollarOnly := Heuristics([("Collar", [(HoleIdKey, PlainHoleId)])])

  /** The label word is read as written: `collar`. */
  lemma CollarLabelRead()
    ensures ExtractFileType("FILE TYPE: collar") == Some("collar")
  {
    OccursMatchesFrom(TypeLabel, 0, TypeLabel, 0);
    assert [] + TypeLabel + [' '] + "collar" + [] == "FILE TYPE: collar";
    LabelledWordVerbatim([], TypeLabel, "collar", []);
  }

  /** `collar` finds the `Collar` columns ignoring case, but is not itself a key. */
  lemma CollarLookup()
    ensures GetRequiredColumns(Some("collar"), Some(CollarOnly)) == [(HoleIdKey, PlainHoleId)]
    ensures !ExactKey(CollarOnly, "collar")
  {
    assert LowerStr("Collar") == LowerStr("collar") by {
      assert forall k :: 0 <= k < 6 ==> Lower("Collar"[k]) == Lower("collar"[k]);
    }
    FirstCaseInsensitiveMatch(CollarOnly, "collar", 0);
    assert "Collar"[0] != "collar"[0];
  }

  /**
   * A classification read as `collar` (as `FILE TYPE: collar` is) finds the
   * `Collar` columns, because the lookup ignores case, and so asks for the
   * hole-name line; yet it gets no column guide, whose key test is exact.
   */
  lemma LowercaseLabelLosesGuide(typeText: string, columns: seq<string>, common: map<string, Common>)
    requires ExtractFileType(typeText) == Some("collar")
    ensures ColumnPromptSpec(typeText, columns, Some(CollarOnly), common).formatLines == [HoleNameFormat]
    ensures ColumnPromptSpec(typeText, columns, Some(CollarOnly), common).guideType.None?
  {
    CollarLookup();
    OnlyHoleIdRequired([(HoleIdKey, PlainHoleId)], PlainHoleId);
  }

  /** Required columns holding only a hole identifier ask for the hole-name line alone. */
  lemma OnlyHoleIdRequired(req: Required, d: ColData)
    requires req == [(HoleIdKey, d)]
    ensures OutputFormatSpec(req) == [HoleNameFormat]
  {
    assert forall k :: ValueOf(req, k) == if k == HoleIdKey then Some(d) else None by {
      forall k ensures ValueOf(req, k) == if k == HoleIdKey then Some(d) else None {
        assert req[1..] == [];
      }
    }
    assert HoleIdKey[0] != DipKey[0] && HoleIdKey[0] != AzimuthKey[0] && HoleIdKey[0] != DepthKey[0]
      && HoleIdKey[0] != CoordinatesKey[0] && HoleIdKey[0] != ElementColumnsKey[0]
      && HoleIdKey[0] != DepthIntervalsKey[0] && HoleIdKey[0] != LithologyCodeKey[0] && HoleIdKey[0] != DensityKey[0];
  }
}
