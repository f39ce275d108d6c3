/**
 * `format_consolidated_summary_json`: every analysed file's parsed column
 * record and original column list flattened into rows of
 * `{file_type, field, found, comment}`.  First come the rows of the standard
 * fields the file's type makes relevant, in a fixed order; then one
 * "(original column)" row for every original column no field claimed.
 */
module Summary {
  import opened Wrappers
  import opened ColumnScan
  import opened FileTypeDetection
  import opened ColumnParser

  // ----- the per-type field table (`get_relevant_fields_for_file_type`) -----

  const HoleIdField := "hole_id"
  const CoordinatesField := "coordinates"
  const DipField := "dip"
  const AzimuthField := "azimuth"
  const DepthField := "depth"
  const FromField := "from"
  const ToField := "to"
  const GradesField := "grades"
  const DensityField := "density"
  const LithologyField := "lithology"

  /** The fields shown for a file type; the type must match one of the five names exactly, case included. */
  function RelevantFields(fileType: string): (r: seq<string>)
    ensures r == [] <==> fileType !in KnownTypes
    ensures fileType in KnownTypes ==> |r| >= 2 && r[0] == HoleIdField
    ensures CoordinatesField in r <==> fileType == "Collar"
    ensures GradesField in r <==> fileType == "Assay"
    ensures (FromField in r <==> ToField in r) && (FromField in r <==> fileType in {"Assay", "Lithology", "Density"})
  {
    if fileType == "Collar" then [HoleIdField, CoordinatesField]
    else if fileType == "Survey" then [HoleIdField, DipField, AzimuthField, DepthField]
    else if fileType == "Assay" then [HoleIdField, FromField, ToField, GradesField]
    else if fileType == "Lithology" then [HoleIdField, FromField, ToField, LithologyField]
    else if fileType == "Density" then [HoleIdField, FromField, ToField, DensityField]
    else []
  }

  // ----- rows -----

  const NotFound := "NOT FOUND"
  const NotIdentified := "Not identified"
  const AxisComment := "OK"
  const UnknownType := "Unknown"
  const OriginalMarker := "(original column)"
  const UnmappedComment := "Column present in file but not mapped to standard field"

  const HoleIdTitle := "Hole ID"
  const XTitle := "Coordinates X"
  const YTitle := "Coordinates Y"
  const ZTitle := "Coordinates Z"
  const DipTitle := "DIP"
  const AzimuthTitle := "Azimuth"
  const DepthTitle := "Depth (AT)"
  const FromTitle := "FROM (depth)"
  const ToTitle := "TO (depth)"
  const GradesTitle := "Grades"
  const DensityTitle := "Density"
  const LithologyTitle := "Lithology"

  /** One output record. */
  datatype Row = Row(fileType: string, field: string, found: string, comment: string)

  /** A slot value as the formatter sees it: a string, or Python's `None`. */
  datatype PyValue = PyNone | PyStr(s: string)

  /** `str(v)`. */
  function Str(v: PyValue): string {
    match v
    case PyNone => "None"
    case PyStr(s) => s
  }

  /** `v != "NOT FOUND"`: the test that decides whether a field counts as identified. */
  predicate IsIdentified(v: PyValue) {
    v != PyStr(NotFound)
  }

  /** One analysis result: the type stage's text, the column stage's text if any, the file key if any. */
  datatype AnalysisResult = AnalysisResult(typeText: string, columns: Option<string>, file: Option<string>)

  /** The analyses by file key; each entry's `"columns"` list when it has one. */
  type AnalysisTable = map<string, Option<seq<string>>>

  /** The single-value fields, each with its key in the field table and its row title. */
  datatype SingleField = HoleId | Dip | Azimuth | Depth | From | To | Density | Lithology {
    function Key(): string {
      match this
      case HoleId => HoleIdField
      case Dip => DipField
      case Azimuth => AzimuthField
      case Depth => DepthField
      case From => FromField
      case To => ToField
      case Density => DensityField
      case Lithology => LithologyField
    }

    function Title(): string {
      match this
      case HoleId => HoleIdTitle
      case Dip => DipTitle
      case Azimuth => AzimuthTitle
      case Depth => DepthTitle
      case From => FromTitle
      case To => ToTitle
      case Density => DensityTitle
      case Lithology => LithologyTitle
    }

    function SlotOf(p: Parsed): Slot {
      match this
      case HoleId => p.holeId
      case Dip => p.dip
      case Azimuth => p.azimuth
      case Depth => p.depth
      case From => p.depthFrom
      case To => p.depthTo
      case Density => p.density
      case Lithology => p.lithology
    }
  }

  /** `parsed_cols.get(key, {}).get("found", "NOT FOUND")`: the default only when the parse gave `{}`. */
  function FoundOf(parsed: Option<Parsed>, f: SingleField): PyValue {
    match parsed
    case None => PyStr(NotFound)
    case Some(p) => if f.SlotOf(p).found.Some? then PyStr(f.SlotOf(p).found.value) else PyNone
  }

  datatype Axis = X | Y | Z

  /** `parsed_cols.get("coordinates", {}).get(axis, "NOT FOUND")`. */
  function AxisOf(parsed: Option<Parsed>, a: Axis): PyValue {
    match parsed
    case None => PyStr(NotFound)
    case Some(p) =>
      var v := match a case X => p.coordinates.x case Y => p.coordinates.y case Z => p.coordinates.z;
      if v.Some? then PyStr(v.value) else PyNone
  }

  /** `parsed_cols.get("grades", {}).get("found", [])`. */
  function GradesOf(parsed: Option<Parsed>): seq<string> {
    match parsed
    case None => []
    case Some(p) => p.grades.found
  }

  /** `", ".join(parts)`. */
  function JoinComma(parts: seq<string>): string {
    if parts == [] then [] else if |parts| == 1 then parts[0] else parts[0] + ", " + JoinComma(parts[1..])
  }

  /** The rows emitted so far for one file and the column names claimed by identified fields. */
  datatype Acc = Acc(rows: seq<Row>, identified: set<string>)

  /** A single-value field's row, when the field is relevant. */
  function SingleStep(acc: Acc, fileType: string, relevant: seq<string>, parsed: Option<Parsed>, f: SingleField): (r: Acc)
    ensures acc.rows <= r.rows && acc.identified <= r.identified
    ensures |r.rows| == |acc.rows| + (if f.Key() in relevant then 1 else 0)
  {
    if f.Key() !in relevant then acc
    else
      var found := FoundOf(parsed, f);
      if IsIdentified(found) then
        Acc(acc.rows + [Row(fileType, f.Title(), Str(found), f.SlotOf(parsed.value).comment)], acc.identified + {Str(found)})
      else
        Acc(acc.rows + [Row(fileType, f.Title(), Str(found), NotIdentified)], acc.identified)
  }

  /** The three coordinate rows, when coordinates are relevant; only X's comment depends on the parse. */
  function CoordStep(acc: Acc, fileType: string, relevant: seq<string>, parsed: Option<Parsed>): (r: Acc)
    ensures acc.rows <= r.rows && acc.identified <= r.identified
    ensures |r.rows| == |acc.rows| + (if CoordinatesField in relevant then 3 else 0)
  {
    if CoordinatesField !in relevant then acc
    else
      var x := AxisOf(parsed, X);
      var y := AxisOf(parsed, Y);
      var z := AxisOf(parsed, Z);
      var comment := if IsIdentified(x) then parsed.value.coordinates.comment else NotIdentified;
      Acc(acc.rows + [Row(fileType, XTitle, Str(x), comment), Row(fileType, YTitle, Str(y), AxisComment),
                      Row(fileType, ZTitle, Str(z), AxisComment)],
          acc.identified + (if IsIdentified(x) then {Str(x)} else {})
            + (if IsIdentified(y) then {Str(y)} else {}) + (if IsIdentified(z) then {Str(z)} else {}))
  }

  /** The grades row, when grades are relevant and the list is not empty. */
  function GradeStep(acc: Acc, fileType: string, relevant: seq<string>, parsed: Option<Parsed>): (r: Acc)
    ensures acc.rows <= r.rows && acc.identified <= r.identified
    ensures |r.rows| == |acc.rows| + (if GradesField in relevant && GradesOf(parsed) != [] then 1 else 0)
  {
    if GradesField !in relevant then acc
    else
      var grades := GradesOf(parsed);
      if grades == [] then acc
      else
        Acc(acc.rows + [Row(fileType, GradesTitle, JoinComma(grades), parsed.value.grades.comment)],
            acc.identified + set g | g in grades)
  }

  /** All standard-field rows of one file, in the fixed order, and the columns they claim. */
  function FieldRowsSpec(fileType: string, parsed: Option<Parsed>): Acc {
    var rel := RelevantFields(fileType);
    var a0 := SingleStep(Acc([], {}), fileType, rel, parsed, HoleId);
    var a1 := CoordStep(a0, fileType, rel, parsed);
    var a2 := SingleStep(a1, fileType, rel, parsed, Dip);
    var a3 := SingleStep(a2, fileType, rel, parsed, Azimuth);
    var a4 := SingleStep(a3, fileType, rel, parsed, Depth);
    var a5 := SingleStep(a4, fileType, rel, parsed, From);
    var a6 := SingleStep(a5, fileType, rel, parsed, To);
    var a7 := GradeStep(a6, fileType, rel, parsed);
    var a8 := SingleStep(a7, fileType, rel, parsed, Density);
    SingleStep(a8, fileType, rel, parsed, Lithology)
  }

  /** The row that marks an original column no field claimed. */
  function OriginalRow(fileType: string, col: string): Row {
    Row(fileType, col, OriginalMarker, UnmappedComment)
  }

  /** One marker row per original column outside `identified`, in the columns' order. */
  function OriginalRows(fileType: string, cols: seq<string>, identified: set<string>): (r: seq<Row>)
    ensures |r| <= |cols|
    ensures forall i :: 0 <= i < |r| ==>
      (r[i].fileType == fileType && r[i].found == OriginalMarker
       && r[i].comment == UnmappedComment && r[i].field in cols && r[i].field !in identified)
    ensures forall c :: c in cols && c !in identified ==> OriginalRow(fileType, c) in r
  {
    if cols == [] then []
    else
      var last := cols[|cols| - 1];
      var init := OriginalRows(fileType, cols[..|cols| - 1], identified);
      assert forall c :: c in cols ==> c in cols[..|cols| - 1] || c == last;
      init + if last in identified then [] else [OriginalRow(fileType, last)]
  }

  /** The original column list of a file: empty without analyses, without the key, or without a list. */
  function OriginalColumns(analyses: Option<AnalysisTable>, fileKey: string): seq<string> {
    if analyses.Some? && fileKey in analyses.value then analyses.value[fileKey].GetOr([]) else []
  }

  /** The type the summary shows for a result. */
  function FileTypeOf(r: AnalysisResult): string {
    ExtractFileType(r.typeText).GetOr(UnknownType)
  }

  /** The rows of one file: its field rows, then the marker rows of the columns they leave unclaimed. */
  function RowsFor(fileType: string, parsed: Option<Parsed>, cols: seq<string>): seq<Row> {
    var acc := FieldRowsSpec(fileType, parsed);
    acc.rows + OriginalRows(fileType, cols, acc.identified)
  }

  /** The rows of one result. */
  function FileRows(r: AnalysisResult, analyses: Option<AnalysisTable>): seq<Row> {
    RowsFor(FileTypeOf(r), ParseSpec(r.columns.GetOr([])), OriginalColumns(analyses, r.file.GetOr([])))
  }

  /** The rows of several results, one result's rows after another's. */
  function Concat(results: seq<AnalysisResult>, rowsOf: AnalysisResult -> seq<Row>): seq<Row> {
    if results == [] then []
    else Concat(results[..|results| - 1], rowsOf) + rowsOf(results[|results| - 1])
  }

  /** The rows of all results, result by result. */
  function SummaryRows(results: seq<AnalysisResult>, analyses: Option<AnalysisTable>): seq<Row> {
    Concat(results, r => FileRows(r, analyses))
  }

  // ----- the formatter as the source runs it -----

  /** One single-value field's block: a row when relevant, and its column claimed when identified. */
  method AddSingleField(acc: Acc, fileType: string, relevant: seq<string>, parsed: Option<Parsed>, f: SingleField)
    returns (next: Acc)
    ensures next == SingleStep(acc, fileType, relevant, parsed, f)
  {
    next := acc;
    if f.Key() in relevant {
      var found := FoundOf(parsed, f);
      var comment := NotIdentified;
      if found != PyStr(NotFound) {
        comment := f.SlotOf(parsed.value).comment;
      }
      next := next.(rows := next.rows + [Row(fileType, f.Title(), Str(found), comment)]);
      if found != PyStr(NotFound) {
        next := next.(identified := next.identified + {Str(found)});
      }
    }
  }

  /** The coordinates block: three rows, then each identified axis claimed. */
  method AddCoordinates(acc: Acc, fileType: string, relevant: seq<string>, parsed: Option<Parsed>) returns (next: Acc)
    ensures next == CoordStep(acc, fileType, relevant, parsed)
  {
    next := acc;
    if CoordinatesField in relevant {
      var x := AxisOf(parsed, X);
      var y := AxisOf(parsed, Y);
      var z := AxisOf(parsed, Z);
      var comment := NotIdentified;
      if x != PyStr(NotFound) {
        comment := parsed.value.coordinates.comment;
      }
      var rows := next.rows;
      rows := rows + [Row(fileType, XTitle, Str(x), comment)];
      rows := rows + [Row(fileType, YTitle, Str(y), AxisComment)];
      rows := rows + [Row(fileType, ZTitle, Str(z), AxisComment)];
      var identified := next.identified;
      if x != PyStr(NotFound) {
        identified := identified + {Str(x)};
      }
      if y != PyStr(NotFound) {
        identified := identified + {Str(y)};
      }
      if z != PyStr(NotFound) {
        identified := identified + {Str(z)};
      }
      next := Acc(rows, identified);
    }
  }

  /** The grades block: a joined row and every grade column claimed, only for a non-empty list. */
  method AddGrades(acc: Acc, fileType: string, relevant: seq<string>, parsed: Option<Parsed>) returns (next: Acc)
    ensures next == GradeStep(acc, fileType, relevant, parsed)
  {
    next := acc;
    if GradesField in relevant {
      var grades := GradesOf(parsed);
      if grades != [] {
        next := Acc(next.rows + [Row(fileType, GradesTitle, JoinComma(grades), parsed.value.grades.comment)],
                    next.identified + set g | g in grades);
      }
    }
  }

  /** The closing loop over the original columns. */
  method AddOriginalColumns(rows: seq<Row>, fileType: string, cols: seq<string>, identified: set<string>)
    returns (out: seq<Row>)
    ensures out == rows + OriginalRows(fileType, cols, identified)
  {
    out := rows;
    for j := 0 to |cols|
      invariant out == rows + OriginalRows(fileType, cols[..j], identified)
    {
      assert cols[..j + 1][..j] == cols[..j];
      if cols[j] !in identified {
        out := out + [OriginalRow(fileType, cols[j])];
      }
    }
    assert cols[..|cols|] == cols;
  }

  /** The field blocks of one file, in the source's order. */
  method AddFieldRows(fileType: string, parsed: Option<Parsed>) returns (acc: Acc)
    ensures acc == FieldRowsSpec(fileType, parsed)
  {
    var relevant := RelevantFields(fileType);
    acc := Acc([], {});
    acc := AddSingleField(acc, fileType, relevant, parsed, HoleId);
    acc := AddCoordinates(acc, fileType, relevant, parsed);
    acc := AddSingleField(acc, fileType, relevant, parsed, Dip);
    acc := AddSingleField(acc, fileType, relevant, parsed, Azimuth);
    acc := AddSingleField(acc, fileType, relevant, parsed, Depth);
    acc := AddSingleField(acc, fileType, relevant, parsed, From);
    acc := AddSingleField(acc, fileType, relevant, parsed, To);
    acc := AddGrades(acc, fileType, relevant, parsed);
    acc := AddSingleField(acc, fileType, relevant, parsed, Density);
    acc := AddSingleField(acc, fileType, relevant, parsed, Lithology);
  }

  /** One iteration of the formatter's loop: the rows of one result. */
  method AddResultRows(r: AnalysisResult, analyses: Option<AnalysisTable>) returns (fileRows: seq<Row>)
    ensures fileRows == FileRows(r, analyses)
  {
    var fileType := ExtractFileType(r.typeText).GetOr(UnknownType);
    var parsed := ParseColumnIdentification(r.columns.GetOr([]));
    var fileKey := r.file.GetOr([]);
    var original: seq<string> := [];
    if analyses.Some? && fileKey in analyses.value {
      original := analyses.value[fileKey].GetOr([]);
    }
    var acc := AddFieldRows(fileType, parsed);
    fileRows := AddOriginalColumns(acc.rows, fileType, original, acc.identified);
  }

  /** The rows of a prefix of the results grow by the next result's rows. */
  lemma SummaryRowsSnoc(results: seq<AnalysisResult>, i: nat, analyses: Option<AnalysisTable>)
    requires i < |results|
    ensures SummaryRows(results[..i + 1], analyses) == SummaryRows(results[..i], analyses) + FileRows(results[i], analyses)
  {
    assert results[..i + 1][..i] == results[..i];
  }

  /** `format_consolidated_summary_json`. */
  method FormatSummaryJson(results: seq<AnalysisResult>, analyses: Option<AnalysisTable>) returns (rows: seq<Row>)
    ensures rows == SummaryRows(results, analyses)
  {
    rows := [];
    for i := 0 to |results|
      invariant rows == SummaryRows(results[..i], analyses)
    {
      var fileRows := AddResultRows(results[i], analyses);
      SummaryRowsSnoc(results, i, analyses);
      rows := rows + fileRows;
    }
    assert results[..|results|] == results;
  }
}

/** Facts about the summary rows. */
module SummaryFacts {
  import opened Wrappers
  import opened Text
  import opened ColumnScan
  import opened FileTypeDetection
  import opened ColumnParser
  import opened ColumnParserFacts
  import opened ColumnNames
  import opened Summary

  /** The field titles each type shows, in order; Assay's grades row only for a non-empty grade list. */
  function ExpectedTitles(fileType: string, hasGrades: bool): seq<string> {
    if fileType == "Collar" then [HoleIdTitle, XTitle, YTitle, ZTitle]
    else if fileType == "Survey" then [HoleIdTitle, DipTitle, AzimuthTitle, DepthTitle]
    else if fileType == "Assay" then [HoleIdTitle, FromTitle, ToTitle] + (if hasGrades then [GradesTitle] else [])
    else if fileType == "Lithology" then [HoleIdTitle, FromTitle, ToTitle, LithologyTitle]
    else if fileType == "Density" then [HoleIdTitle, FromTitle, ToTitle, DensityTitle]
    else []
  }

  /** The rows carry the given titles, in order, and the given type. */
  predicate Titled(rows: seq<Row>, fileType: string, titles: seq<string>) {
    |rows| == |titles| && forall i :: 0 <= i < |rows| ==> rows[i].field == titles[i] && rows[i].fileType == fileType
  }

  function When(b: bool, titles: seq<string>): seq<string> {
    if b then titles else []
  }

  lemma SingleStepTitled(acc: Acc, fileType: string, rel: seq<string>, parsed: Option<Parsed>, f: SingleField,
                         titles: seq<string>)
    requires Titled(acc.rows, fileType, titles)
    ensures Titled(SingleStep(acc, fileType, rel, parsed, f).rows, fileType, titles + When(f.Key() in rel, [f.Title()]))
  {
  }

  lemma CoordStepTitled(acc: Acc, fileType: string, rel: seq<string>, parsed: Option<Parsed>, titles: seq<string>)
    requires Titled(acc.rows, fileType, titles)
    ensures Titled(CoordStep(acc, fileType, rel, parsed).rows, fileType,
                   titles + When(CoordinatesField in rel, [XTitle, YTitle, ZTitle]))
  {
  }

  lemma GradeStepTitled(acc: Acc, fileType: string, rel: seq<string>, parsed: Option<Parsed>, titles: seq<string>)
    requires Titled(acc.rows, fileType, titles)
    ensures Titled(GradeStep(acc, fileType, rel, parsed).rows, fileType,
                   titles + When(GradesField in rel && GradesOf(parsed) != [], [GradesTitle]))
  {
  }

  /** The titles the ten steps produce for a relevant-field list. */
  function TitleChain(rel: seq<string>, hasGrades: bool): seq<string> {
    [] + When(HoleIdField in rel, [HoleIdTitle]) + When(CoordinatesField in rel, [XTitle, YTitle, ZTitle])
    + When(DipField in rel, [DipTitle]) + When(AzimuthField in rel, [AzimuthTitle])
    + When(DepthField in rel, [DepthTitle]) + When(FromField in rel, [FromTitle]) + When(ToField in rel, [ToTitle])
    + When(GradesField in rel && hasGrades, [GradesTitle]) + When(DensityField in rel, [DensityTitle])
    + When(LithologyField in rel, [LithologyTitle])
  }

  lemma TitleChainTable(fileType: string, hasGrades: bool)
    ensures TitleChain(RelevantFields(fileType), hasGrades) == ExpectedTitles(fileType, hasGrades)
  {
    if fileType == "Collar" {
      CollarTitleChain(hasGrades);
    } else if fileType == "Survey" {
      SurveyTitleChain(hasGrades);
    } else if fileType == "Assay" {
      AssayTitleChain(hasGrades);
    } else if fileType in {"Lithology", "Density"} {
      IntervalTitleChain(fileType, hasGrades);
    } else {
      assert RelevantFields(fileType) == [];
    }
  }

  /** Collar shows the hole identifier and the three coordinates. */
  lemma CollarTitleChain(hasGrades: bool)
    ensures TitleChain(RelevantFields("Collar"), hasGrades) == [HoleIdTitle, XTitle, YTitle, ZTitle]
  {
    var rel := RelevantFields("Collar");
    assert rel == [HoleIdField, CoordinatesField];
    assert DipField !in rel && AzimuthField !in rel && DepthField !in rel && FromField !in rel;
    assert ToField !in rel && GradesField !in rel && DensityField !in rel && LithologyField !in rel;
  }

  /** Survey shows the hole identifier, dip, azimuth and depth. */
  lemma SurveyTitleChain(hasGrades: bool)
    ensures TitleChain(RelevantFields("Survey"), hasGrades) == [HoleIdTitle, DipTitle, AzimuthTitle, DepthTitle]
  {
    var rel := RelevantFields("Survey");
    assert rel == [HoleIdField, DipField, AzimuthField, DepthField];
    assert CoordinatesField !in rel && FromField !in rel;
    assert ToField !in rel && GradesField !in rel && DensityField !in rel && LithologyField !in rel;
  }

  /** Assay shows the hole identifier, the interval and, when there are any, the grades. */
  lemma AssayTitleChain(hasGrades: bool)
    ensures TitleChain(RelevantFields("Assay"), hasGrades)
      == [HoleIdTitle, FromTitle, ToTitle] + (if hasGrades then [GradesTitle] else [])
  {
    var rel := RelevantFields("Assay");
    assert rel == [HoleIdField, FromField, ToField, GradesField];
    assert CoordinatesField !in rel && DipField !in rel && AzimuthField !in rel && DepthField !in rel;
    assert DensityField !in rel && LithologyField !in rel;
  }

  /** Lithology and Density show the hole identifier, the interval and their own value. */
  lemma IntervalTitleChain(fileType: string, hasGrades: bool)
    requires fileType in {"Lithology", "Density"}
    ensures TitleChain(RelevantFields(fileType), hasGrades) == ExpectedTitles(fileType, hasGrades)
  {
    var rel := RelevantFields(fileType);
    if fileType == "Lithology" {
      assert rel == [HoleIdField, FromField, ToField, LithologyField];
      assert DensityField !in rel;
    } else {
      assert rel == [HoleIdField, FromField, ToField, DensityField];
      assert LithologyField !in rel;
    }
    assert CoordinatesField !in rel && DipField !in rel && AzimuthField !in rel && DepthField !in rel;
    assert GradesField !in rel;
  }

  /** The standard-field rows are exactly the type's titles in the fixed order, all tagged with the type. */
  lemma FieldRowTitles(fileType: string, parsed: Option<Parsed>)
    ensures Titled(FieldRowsSpec(fileType, parsed).rows, fileType, ExpectedTitles(fileType, GradesOf(parsed) != []))
  {
    FieldRowChain(fileType, parsed);
    TitleChainTable(fileType, GradesOf(parsed) != []);
  }

  lemma FieldRowChain(fileType: string, parsed: Option<Parsed>)
    ensures Titled(FieldRowsSpec(fileType, parsed).rows, fileType, TitleChain(RelevantFields(fileType), GradesOf(parsed) != []))
  {
    var rel := RelevantFields(fileType);
    var a0 := SingleStep(Acc([], {}), fileType, rel, parsed, HoleId);
    var a1 := CoordStep(a0, fileType, rel, parsed);
    var a2 := SingleStep(a1, fileType, rel, parsed, Dip);
    var a3 := SingleStep(a2, fileType, rel, parsed, Azimuth);
    var a4 := SingleStep(a3, fileType, rel, parsed, Depth);
    var t4 := [] + When(HoleIdField in rel, [HoleIdTitle]) + When(CoordinatesField in rel, [XTitle, YTitle, ZTitle])
      + When(DipField in rel, [DipTitle]) + When(AzimuthField in rel, [AzimuthTitle]) + When(DepthField in rel, [DepthTitle]);
    assert Titled(a4.rows, fileType, t4) by {
      FirstStepsTitled(fileType, rel, parsed);
    }
    var a9 := SingleStep(SingleStep(GradeStep(SingleStep(SingleStep(a4, fileType, rel, parsed, From),
      fileType, rel, parsed, To), fileType, rel, parsed), fileType, rel, parsed, Density), fileType, rel, parsed, Lithology);
    var t9 := t4 + When(FromField in rel, [FromTitle]) + When(ToField in rel, [ToTitle])
      + When(GradesField in rel && GradesOf(parsed) != [], [GradesTitle]) + When(DensityField in rel, [DensityTitle])
      + When(LithologyField in rel, [LithologyTitle]);
    assert Titled(a9.rows, fileType, t9) by {
      LastStepsTitled(a4, fileType, rel, parsed, t4);
    }
    assert FieldRowsSpec(fileType, parsed) == a9;
    assert t9 == TitleChain(rel, GradesOf(parsed) != []);
  }

  /** The titles of the first five steps: hole identifier, coordinates, dip, azimuth and depth. */
  lemma FirstStepsTitled(fileType: string, rel: seq<string>, parsed: Option<Parsed>)
    ensures Titled(SingleStep(SingleStep(SingleStep(CoordStep(SingleStep(Acc([], {}), fileType, rel, parsed, HoleId),
        fileType, rel, parsed), fileType, rel, parsed, Dip), fileType, rel, parsed, Azimuth), fileType, rel, parsed, Depth).rows,
      fileType, [] + When(HoleIdField in rel, [HoleIdTitle]) + When(CoordinatesField in rel, [XTitle, YTitle, ZTitle])
      + When(DipField in rel, [DipTitle]) + When(AzimuthField in rel, [AzimuthTitle]) + When(DepthField in rel, [DepthTitle]))
  {
    var a0 := SingleStep(Acc([], {}), fileType, rel, parsed, HoleId);
    var t0 := [] + When(HoleIdField in rel, [HoleIdTitle]);
    assert Titled(a0.rows, fileType, t0) by {
      SingleStepTitled(Acc([], {}), fileType, rel, parsed, HoleId, []);
    }
    var a1 := CoordStep(a0, fileType, rel, parsed);
    var t1 := t0 + When(CoordinatesField in rel, [XTitle, YTitle, ZTitle]);
    assert Titled(a1.rows, fileType, t1) by {
      CoordStepTitled(a0, fileType, rel, parsed, t0);
    }
    var a2 := SingleStep(a1, fileType, rel, parsed, Dip);
    var t2 := t1 + When(DipField in rel, [DipTitle]);
    assert Titled(a2.rows, fileType, t2) by {
      SingleStepTitled(a1, fileType, rel, parsed, Dip, t1);
    }
    var a3 := SingleStep(a2, fileType, rel, parsed, Azimuth);
    var t3 := t2 + When(AzimuthField in rel, [AzimuthTitle]);
    assert Titled(a3.rows, fileType, t3) by {
      SingleStepTitled(a2, fileType, rel, parsed, Azimuth, t2);
    }
    SingleStepTitled(a3, fileType, rel, parsed, Depth, t3);
  }

  /** The titles of the last five steps, after any rows: from, to, grades, density and lithology. */
  lemma LastStepsTitled(a4: Acc, fileType: string, rel: seq<string>, parsed: Option<Parsed>, t4: seq<string>)
    requires Titled(a4.rows, fileType, t4)
    ensures Titled(SingleStep(SingleStep(GradeStep(SingleStep(SingleStep(a4, fileType, rel, parsed, From),
        fileType, rel, parsed, To), fileType, rel, parsed), fileType, rel, parsed, Density), fileType, rel, parsed, Lithology).rows,
      fileType, t4 + When(FromField in rel, [FromTitle]) + When(ToField in rel, [ToTitle])
      + When(GradesField in rel && GradesOf(parsed) != [], [GradesTitle]) + When(DensityField in rel, [DensityTitle])
      + When(LithologyField in rel, [LithologyTitle]))
  {
    var a5 := SingleStep(a4, fileType, rel, parsed, From);
    var t5 := t4 + When(FromField in rel, [FromTitle]);
    assert Titled(a5.rows, fileType, t5) by {
      SingleStepTitled(a4, fileType, rel, parsed, From, t4);
    }
    var a6 := SingleStep(a5, fileType, rel, parsed, To);
    var t6 := t5 + When(ToField in rel, [ToTitle]);
    assert Titled(a6.rows, fileType, t6) by {
      SingleStepTitled(a5, fileType, rel, parsed, To, t5);
    }
    var a7 := GradeStep(a6, fileType, rel, parsed);
    var t7 := t6 + When(GradesField in rel && GradesOf(parsed) != [], [GradesTitle]);
    assert Titled(a7.rows, fileType, t7) by {
      GradeStepTitled(a6, fileType, rel, parsed, t6);
    }
    var a8 := SingleStep(a7, fileType, rel, parsed, Density);
    var t8 := t7 + When(DensityField in rel, [DensityTitle]);
    assert Titled(a8.rows, fileType, t8) by {
      SingleStepTitled(a7, fileType, rel, parsed, Density, t7);
    }
    SingleStepTitled(a8, fileType, rel, parsed, Lithology, t8);
  }

  /** Every Coordinates Y and Coordinates Z row carries the comment "OK", whatever was parsed. */
  lemma AxisRowsSayOk(fileType: string, parsed: Option<Parsed>)
    ensures var rows := FieldRowsSpec(fileType, parsed).rows;
      forall i :: 0 <= i < |rows| && rows[i].field in {YTitle, ZTitle} ==> rows[i].comment == AxisComment
  {
    if fileType == "Collar" {
      CollarAxisRows(parsed);
    } else {
      var rows := FieldRowsSpec(fileType, parsed).rows;
      var titles := ExpectedTitles(fileType, GradesOf(parsed) != []);
      FieldRowTitles(fileType, parsed);
      OnlyCollarHasAxes(fileType, GradesOf(parsed) != []);
      NoAxisRows(rows, fileType, titles);
    }
  }

  /** Only Collar's titles include Y and Z. */
  lemma OnlyCollarHasAxes(fileType: string, hasGrades: bool)
    requires fileType != "Collar"
    ensures YTitle !in ExpectedTitles(fileType, hasGrades) && ZTitle !in ExpectedTitles(fileType, hasGrades)
  {
  }

  /** Rows titled without Y and Z have no Y or Z row. */
  lemma NoAxisRows(rows: seq<Row>, fileType: string, titles: seq<string>)
    requires Titled(rows, fileType, titles) && YTitle !in titles && ZTitle !in titles
    ensures forall i :: 0 <= i < |rows| ==> rows[i].field !in {YTitle, ZTitle}
  {
    forall i | 0 <= i < |rows|
      ensures rows[i].field !in {YTitle, ZTitle}
    {
      assert rows[i].field == titles[i];
    }
  }

  /** A Collar file's Y and Z rows, its third and fourth, carry the fixed comment. */
  lemma CollarAxisRows(parsed: Option<Parsed>)
    ensures var rows := FieldRowsSpec("Collar", parsed).rows;
      forall i :: 0 <= i < |rows| && rows[i].field in {YTitle, ZTitle} ==> rows[i].comment == AxisComment
  {
    var rows := FieldRowsSpec("Collar", parsed).rows;
    var rel := RelevantFields("Collar");
    assert rel == [HoleIdField, CoordinatesField];
    var a0 := SingleStep(Acc([], {}), "Collar", rel, parsed, HoleId);
    var a1 := CoordStep(a0, "Collar", rel, parsed);
    assert |a0.rows| == 1;
    assert rows == a1.rows;
    assert rows[0].field == HoleIdTitle && rows[1].field == XTitle;
  }

  /** A claimed-nothing property of the accumulated rows that every step keeps, for an empty parse. */
  predicate NothingIdentified(acc: Acc) {
    acc.identified == {}
    && forall i :: 0 <= i < |acc.rows| ==>
      (acc.rows[i].found == NotFound && (acc.rows[i].comment == NotIdentified || acc.rows[i].field in {YTitle, ZTitle}))
  }

  lemma SingleStepNothing(acc: Acc, fileType: string, rel: seq<string>, f: SingleField)
    requires NothingIdentified(acc)
    ensures NothingIdentified(SingleStep(acc, fileType, rel, None, f))
  {
  }

  lemma CoordStepNothing(acc: Acc, fileType: string, rel: seq<string>)
    requires NothingIdentified(acc)
    ensures NothingIdentified(CoordStep(acc, fileType, rel, None))
  {
  }

  /**
   * Empty column-identification text parses to `{}`: then every field row
   * shows "NOT FOUND", every comment except Y's and Z's is "Not identified",
   * and no column is claimed.
   */
  lemma EmptyTextClaimsNothing(fileType: string, text: string)
    requires text == []
    ensures NothingIdentified(FieldRowsSpec(fileType, ParseSpec(text)))
  {
    var rel := RelevantFields(fileType);
    var a0 := SingleStep(Acc([], {}), fileType, rel, None, HoleId);
    SingleStepNothing(Acc([], {}), fileType, rel, HoleId);
    var a1 := CoordStep(a0, fileType, rel, None);
    CoordStepNothing(a0, fileType, rel);
    var a2 := SingleStep(a1, fileType, rel, None, Dip);
    SingleStepNothing(a1, fileType, rel, Dip);
    var a3 := SingleStep(a2, fileType, rel, None, Azimuth);
    SingleStepNothing(a2, fileType, rel, Azimuth);
    var a4 := SingleStep(a3, fileType, rel, None, Depth);
    SingleStepNothing(a3, fileType, rel, Depth);
    var a5 := SingleStep(a4, fileType, rel, None, From);
    SingleStepNothing(a4, fileType, rel, From);
    var a6 := SingleStep(a5, fileType, rel, None, To);
    SingleStepNothing(a5, fileType, rel, To);
    var a7 := GradeStep(a6, fileType, rel, None);
    var a8 := SingleStep(a7, fileType, rel, None, Density);
    SingleStepNothing(a7, fileType, rel, Density);
    var a9 := SingleStep(a8, fileType, rel, None, Lithology);
    SingleStepNothing(a8, fileType, rel, Lithology);
    assert FieldRowsSpec(fileType, ParseSpec(text)) == a9;
  }

  /** "NOT FOUND" contains a space, so no parsed token can equal it. */
  lemma TokenIsNotNotFound(t: string)
    requires IsToken(t)
    ensures t != NotFound
  {
    assert !IsTokenChar(NotFound[3]);
  }

  /** "NOT FOUND" holds a space, so a column without one is never it. */
  lemma SpacelessIsNotNotFound(v: Option<string>)
    requires Spaceless(v)
    ensures v != Some(NotFound)
  {
    assert NotFound[3] == ' ';
  }

  /** Joining two or more columns puts a comma in, and "NOT FOUND" has none: only a lone column can read as it. */
  lemma JoinedNotFound(parts: seq<string>)
    ensures JoinComma(parts) == NotFound ==> |parts| == 1 && parts[0] == NotFound
  {
    if |parts| >= 2 {
      assert JoinComma(parts)[|parts[0]|] == ',';
      assert forall k :: 0 <= k < |NotFound| ==> NotFound[k] != ',';
    }
  }

  /** A bare grade column is a trimmed piece of a token, so it holds no space. */
  lemma BareGradesSpaceless(token: string, g: string)
    requires IsToken(token) && g in KeepBareItems(Split(token, ','))
    ensures Spaceless(Some(g))
  {
    var parts := Split(token, ',');
    assert exists k :: 0 <= k < |parts| && g == Strip(parts[k]) by {
      BareItemsExactly(parts);
    }
    var k :| 0 <= k < |parts| && g == Strip(parts[k]);
    assert ' ' !in parts[k] by {
      TokenSpaceless(token);
      SplitKeepsOut(token, ',', ' ');
    }
    StripKeepsOut(parts[k], ' ');
  }

  /** A grade list from either form of the grade pattern has no column that reads "NOT FOUND". */
  lemma GradeListNeverNotFound(m: GradeMatch, k: nat)
    requires m.Bare? ==> IsToken(m.token)
    requires k < |GradeList(m)|
    ensures GradeList(m)[k] != NotFound
  {
    match m
    case Bracketed(inner) =>
      assert !Contains(UpperStr(GradeList(m)[k]), "NOT FOUND");
      assert Contains(UpperStr(NotFound), "NOT FOUND") by {
        UpperStrFixed(NotFound);
        assert OccursAt(UpperStr(NotFound), 0, "NOT FOUND");
      }
    case Bare(token) =>
      var grades := GradeList(m);
      assert grades == KeepBareItems(Split(token, ',')) by {
        BareTokenNeverNotFound(token);
      }
      BareGradesSpaceless(token, grades[k]);
      SpacelessIsNotNotFound(Some(grades[k]));
  }

  /** The grades row never reads "NOT FOUND": bracketed columns that mention it are dropped, and bare ones hold no space. */
  lemma GradesNeverNotFound(s: string)
    ensures JoinComma(GradesSlot(s).found) != NotFound
  {
    var grades := GradesSlot(s).found;
    JoinedNotFound(grades);
    if |grades| == 1 {
      GradeListNeverNotFound(FindGrades(s).value, 0);
    }
  }

  /** No slot of the parse, and not the joined grade list, reads "NOT FOUND". */
  predicate NeverNotFound(p: Parsed) {
    p.holeId.found != Some(NotFound) && p.dip.found != Some(NotFound) && p.azimuth.found != Some(NotFound)
    && p.depth.found != Some(NotFound) && p.density.found != Some(NotFound) && p.lithology.found != Some(NotFound)
    && p.depthFrom.found != Some(NotFound) && p.depthTo.found != Some(NotFound)
    && p.coordinates.x != Some(NotFound) && p.coordinates.y != Some(NotFound) && p.coordinates.z != Some(NotFound)
    && JoinComma(p.grades.found) != NotFound
  }

  /** A non-empty column text parses to a record in which nothing reads "NOT FOUND". */
  lemma NonEmptyParseNeverNotFound(s: string)
    requires s != []
    ensures NeverNotFound(ParseSpec(s).value)
  {
    var p := ParseSpec(s).value;
    ParsedColumnsSpaceless(s);
    SpacelessIsNotNotFound(p.holeId.found);
    SpacelessIsNotNotFound(p.dip.found);
    SpacelessIsNotNotFound(p.azimuth.found);
    SpacelessIsNotNotFound(p.depth.found);
    SpacelessIsNotNotFound(p.density.found);
    SpacelessIsNotNotFound(p.lithology.found);
    SpacelessIsNotNotFound(p.depthFrom.found);
    SpacelessIsNotNotFound(p.depthTo.found);
    SpacelessIsNotNotFound(p.coordinates.x);
    SpacelessIsNotNotFound(p.coordinates.y);
    SpacelessIsNotNotFound(p.coordinates.z);
    assert p.grades == GradesSlot(s);
    GradesNeverNotFound(s);
  }

  /** No row accumulated so far shows "NOT FOUND". */
  predicate EveryFieldFound(acc: Acc) {
    forall i :: 0 <= i < |acc.rows| ==> acc.rows[i].found != NotFound
  }

  lemma SingleStepFinds(acc: Acc, fileType: string, rel: seq<string>, p: Parsed, f: SingleField)
    requires EveryFieldFound(acc) && NeverNotFound(p)
    ensures EveryFieldFound(SingleStep(acc, fileType, rel, Some(p), f))
  {
    assert f.SlotOf(p).found != Some(NotFound) by {
      match f
      case HoleId =>
      case Dip =>
      case Azimuth =>
      case Depth =>
      case From =>
      case To =>
      case Density =>
      case Lithology =>
    }
  }

  lemma CoordStepFinds(acc: Acc, fileType: string, rel: seq<string>, p: Parsed)
    requires EveryFieldFound(acc) && NeverNotFound(p)
    ensures EveryFieldFound(CoordStep(acc, fileType, rel, Some(p)))
  {
  }

  lemma GradeStepFinds(acc: Acc, fileType: string, rel: seq<string>, p: Parsed)
    requires EveryFieldFound(acc) && NeverNotFound(p)
    ensures EveryFieldFound(GradeStep(acc, fileType, rel, Some(p)))
  {
  }

  /**
   * Non-empty column-identification text never yields a "NOT FOUND" field
   * row, so the formatter's "Not identified" comment is confined to empty text
   * (`EmptyTextClaimsNothing`).
   */
  lemma NonEmptyTextFindsEveryField(fileType: string, text: string)
    requires text != []
    ensures EveryFieldFound(FieldRowsSpec(fileType, ParseSpec(text)))
  {
    var p := ParseSpec(text).value;
    NonEmptyParseNeverNotFound(text);
    var rel := RelevantFields(fileType);
    var a0 := SingleStep(Acc([], {}), fileType, rel, Some(p), HoleId);
    SingleStepFinds(Acc([], {}), fileType, rel, p, HoleId);
    var a1 := CoordStep(a0, fileType, rel, Some(p));
    CoordStepFinds(a0, fileType, rel, p);
    var a2 := SingleStep(a1, fileType, rel, Some(p), Dip);
    SingleStepFinds(a1, fileType, rel, p, Dip);
    var a3 := SingleStep(a2, fileType, rel, Some(p), Azimuth);
    SingleStepFinds(a2, fileType, rel, p, Azimuth);
    var a4 := SingleStep(a3, fileType, rel, Some(p), Depth);
    SingleStepFinds(a3, fileType, rel, p, Depth);
    var a5 := SingleStep(a4, fileType, rel, Some(p), From);
    SingleStepFinds(a4, fileType, rel, p, From);
    var a6 := SingleStep(a5, fileType, rel, Some(p), To);
    SingleStepFinds(a5, fileType, rel, p, To);
    var a7 := GradeStep(a6, fileType, rel, Some(p));
    GradeStepFinds(a6, fileType, rel, p);
    var a8 := SingleStep(a7, fileType, rel, Some(p), Density);
    SingleStepFinds(a7, fileType, rel, p, Density);
    var a9 := SingleStep(a8, fileType, rel, Some(p), Lithology);
    SingleStepFinds(a8, fileType, rel, p, Lithology);
    assert FieldRowsSpec(fileType, ParseSpec(text)) == a9;
  }

  /** For a known type the first row is the hole row, and it shows "NOT FOUND" exactly when the column text is empty. */
  lemma HoleRowNotFoundIffEmptyText(fileType: string, text: string)
    requires fileType in KnownTypes
    ensures var rows := FieldRowsSpec(fileType, ParseSpec(text)).rows;
      rows != [] && rows[0].field == HoleIdTitle
      && (rows[0].found == NotFound <==> text == [])
      && (text == [] ==> rows[0].comment == NotIdentified)
  {
    var parsed := ParseSpec(text);
    HoleRowOf(fileType, parsed);
    if text != [] {
      var slot := parsed.value.holeId;
      assert slot == SingleSlot(text, HoleLabel);
      if slot.found.Some? {
        TokenIsNotNotFound(slot.found.value);
      }
    }
  }

  /** For a known type the first row is the hole row, showing the hole identifier's value. */
  lemma HoleRowOf(fileType: string, parsed: Option<Parsed>)
    requires fileType in KnownTypes
    ensures var rows := FieldRowsSpec(fileType, parsed).rows;
      rows != [] && rows[0].field == HoleIdTitle && rows[0].found == Str(FoundOf(parsed, HoleId))
      && (!IsIdentified(FoundOf(parsed, HoleId)) ==> rows[0].comment == NotIdentified)
  {
    var rel := RelevantFields(fileType);
    var a0 := SingleStep(Acc([], {}), fileType, rel, parsed, HoleId);
    assert HoleIdField in rel;
    assert FieldRowsSpec(fileType, parsed).rows[..1] == a0.rows;
  }

  /** A parsed slot without a column keeps the empty comment the parser starts it with. */
  lemma EmptySlotHasNoComment(text: string, f: SingleField)
    requires text != [] && f.SlotOf(ParseSpec(text).value).found.None?
    ensures f.SlotOf(ParseSpec(text).value).comment == []
  {
    var p := ParseSpec(text).value;
    match f
    case HoleId => assert p.holeId == SingleSlot(text, HoleLabel);
    case Dip => assert p.dip == SingleSlot(text, DipLabel);
    case Azimuth => assert p.azimuth == SingleSlot(text, AzimuthLabel);
    case Depth => assert p.depth == DepthSlot(text);
    case From => assert p.depthFrom == IntervalSlots(text).0;
    case To => assert p.depthTo == IntervalSlots(text).1;
    case Density => assert p.density == SingleSlot(text, DensityLabel);
    case Lithology => assert p.lithology == SingleSlot(text, LithologyLabel);
  }

  /** The row a relevant field with an empty slot gets, and the "None" it claims. */
  predicate ShowsNone(acc: Acc, fileType: string, f: SingleField) {
    Row(fileType, f.Title(), "None", []) in acc.rows && "None" in acc.identified
  }

  lemma GrowthKeepsNone(a: Acc, b: Acc, fileType: string, f: SingleField)
    requires a.rows <= b.rows && a.identified <= b.identified
    ensures ShowsNone(a, fileType, f) ==> ShowsNone(b, fileType, f)
  {
    if ShowsNone(a, fileType, f) {
      var k :| 0 <= k < |a.rows| && a.rows[k] == Row(fileType, f.Title(), "None", []);
      assert b.rows[k] == a.rows[k];
    }
  }

  /**
   * With non-empty column text, a relevant field whose slot stayed empty is
   * shown as found "None" with an empty comment, and "None" counts as a
   * claimed column, so an original column of that name gets no marker row.
   */
  lemma EmptySlotShowsNone(fileType: string, text: string, f: SingleField, cols: seq<string>)
    requires text != [] && f.Key() in RelevantFields(fileType)
    requires f.SlotOf(ParseSpec(text).value).found.None?
    ensures ShowsNone(FieldRowsSpec(fileType, ParseSpec(text)), fileType, f)
    ensures forall row :: row in OriginalRows(fileType, cols, FieldRowsSpec(fileType, ParseSpec(text)).identified) ==>
      row.field != "None"
  {
    EmptySlotHasNoComment(text, f);
    FieldRowsShowNone(fileType, ParseSpec(text), f);
  }

  /** The chain of field blocks keeps the "None" row of an empty relevant slot. */
  lemma FieldRowsShowNone(fileType: string, parsed: Option<Parsed>, f: SingleField)
    requires parsed.Some? && f.Key() in RelevantFields(fileType)
    requires f.SlotOf(parsed.value) == Slot(None, [])
    ensures ShowsNone(FieldRowsSpec(fileType, parsed), fileType, f)
  {
    var rel := RelevantFields(fileType);
    var a0 := SingleStep(Acc([], {}), fileType, rel, parsed, HoleId);
    var a1 := CoordStep(a0, fileType, rel, parsed);
    var a2 := SingleStep(a1, fileType, rel, parsed, Dip);
    var a3 := SingleStep(a2, fileType, rel, parsed, Azimuth);
    var a4 := SingleStep(a3, fileType, rel, parsed, Depth);
    var a5 := SingleStep(a4, fileType, rel, parsed, From);
    var a6 := SingleStep(a5, fileType, rel, parsed, To);
    var a7 := GradeStep(a6, fileType, rel, parsed);
    var a8 := SingleStep(a7, fileType, rel, parsed, Density);
    var a9 := SingleStep(a8, fileType, rel, parsed, Lithology);
    assert f == HoleId ==> ShowsNone(a0, fileType, f);
    GrowthKeepsNone(a0, a1, fileType, f);
    assert f == Dip ==> ShowsNone(a2, fileType, f);
    GrowthKeepsNone(a1, a2, fileType, f);
    assert f == Azimuth ==> ShowsNone(a3, fileType, f);
    GrowthKeepsNone(a2, a3, fileType, f);
    assert f == Depth ==> ShowsNone(a4, fileType, f);
    GrowthKeepsNone(a3, a4, fileType, f);
    assert f == From ==> ShowsNone(a5, fileType, f);
    GrowthKeepsNone(a4, a5, fileType, f);
    assert f == To ==> ShowsNone(a6, fileType, f);
    GrowthKeepsNone(a5, a6, fileType, f);
    GrowthKeepsNone(a6, a7, fileType, f);
    assert f == Density ==> ShowsNone(a8, fileType, f);
    GrowthKeepsNone(a7, a8, fileType, f);
    assert f == Lithology ==> ShowsNone(a9, fileType, f);
    GrowthKeepsNone(a8, a9, fileType, f);
  }

  /** The marker rows follow the original columns' order: a split list gives the two parts' rows in turn. */
  lemma {:induction false} OriginalRowsAppend(fileType: string, a: seq<string>, b: seq<string>, identified: set<string>)
    ensures OriginalRows(fileType, a + b, identified)
      == OriginalRows(fileType, a, identified) + OriginalRows(fileType, b, identified)
  {
    if b == [] {
      assert a + b == a;
    } else {
      var init := b[..|b| - 1];
      assert (a + b)[..|a + b| - 1] == a + init;
      assert (a + b)[|a + b| - 1] == b[|b| - 1];
      OriginalRowsAppend(fileType, a, init, identified);
    }
  }

  /** An unclaimed last column adds its marker row after the rows of the columns before it. */
  lemma OriginalRowsSnoc(fileType: string, cols: seq<string>, identified: set<string>)
    requires cols != [] && cols[|cols| - 1] !in identified
    ensures OriginalRows(fileType, cols, identified)
      == OriginalRows(fileType, cols[..|cols| - 1], identified) + [OriginalRow(fileType, cols[|cols| - 1])]
  {
  }

  /** With nothing claimed, every original column gets exactly one marker row, at its own position. */
  lemma {:induction false} OriginalRowsAllUnclaimed(fileType: string, cols: seq<string>, identified: set<string>)
    requires forall c :: c in cols ==> c !in identified
    ensures var r := OriginalRows(fileType, cols, identified);
      |r| == |cols| && forall i :: 0 <= i < |cols| ==> r[i] == OriginalRow(fileType, cols[i])
  {
    if cols != [] {
      var init := cols[..|cols| - 1];
      assert forall c :: c in init ==> c in cols;
      OriginalRowsAllUnclaimed(fileType, init, identified);
      var r0 := OriginalRows(fileType, init, identified);
      var r := OriginalRows(fileType, cols, identified);
      assert r == r0 + [OriginalRow(fileType, cols[|cols| - 1])] by {
        assert cols[|cols| - 1] in cols;
        OriginalRowsSnoc(fileType, cols, identified);
      }
      forall i | 0 <= i < |cols|
        ensures r[i] == OriginalRow(fileType, cols[i])
      {
        if i < |init| {
          assert r[i] == r0[i] && init[i] == cols[i];
        }
      }
    }
  }

  /** A column that occurs several times unclaimed is marked once per occurrence. */
  lemma DuplicateColumnMarkedTwice(fileType: string, c: string, identified: set<string>)
    requires c !in identified
    ensures OriginalRows(fileType, [c, c], identified) == [OriginalRow(fileType, c), OriginalRow(fileType, c)]
  {
    OriginalRowsAllUnclaimed(fileType, [c, c], identified);
  }

  /** A type outside the exact-case table yields no field rows: every original column is marked, in order. */
  lemma UnknownTypeMarksEveryColumn(fileType: string, parsed: Option<Parsed>, cols: seq<string>)
    requires fileType !in KnownTypes
    ensures var rows := RowsFor(fileType, parsed, cols);
      |rows| == |cols| && forall i :: 0 <= i < |cols| ==> rows[i] == OriginalRow(fileType, cols[i])
  {
    NoFieldRows(fileType, parsed);
    assert RowsFor(fileType, parsed, cols) == OriginalRows(fileType, cols, {});
    OriginalRowsAllUnclaimed(fileType, cols, {});
  }

  lemma NoFieldRows(fileType: string, parsed: Option<Parsed>)
    requires fileType !in KnownTypes
    ensures FieldRowsSpec(fileType, parsed) == Acc([], {})
  {
    assert RelevantFields(fileType) == [];
  }

  /** Every original column of a file is either claimed by a field or marked as an original column. */
  lemma EveryColumnAccountedFor(fileType: string, parsed: Option<Parsed>, cols: seq<string>, c: string)
    requires c in cols
    ensures c in FieldRowsSpec(fileType, parsed).identified || OriginalRow(fileType, c) in RowsFor(fileType, parsed, cols)
  {
  }

  lemma {:induction false} ConcatAppend(a: seq<AnalysisResult>, b: seq<AnalysisResult>, rowsOf: AnalysisResult -> seq<Row>)
    ensures Concat(a + b, rowsOf) == Concat(a, rowsOf) + Concat(b, rowsOf)
  {
    if b == [] {
      assert a + b == a;
    } else {
      var init := b[..|b| - 1];
      assert (a + b)[..|a + b| - 1] == a + init;
      assert (a + b)[|a + b| - 1] == b[|b| - 1];
      ConcatAppend(a, init, rowsOf);
    }
  }

  /** The rows of a batch are the rows of its parts, part after part. */
  lemma SummaryRowsAppend(a: seq<AnalysisResult>, b: seq<AnalysisResult>, analyses: Option<AnalysisTable>)
    ensures SummaryRows(a + b, analyses) == SummaryRows(a, analyses) + SummaryRows(b, analyses)
  {
    ConcatAppend(a, b, r => FileRows(r, analyses));
  }

}
