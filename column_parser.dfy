/**
 * `parse_column_identification_result`: the column-identification stage's free
 * text turned into a fixed record of slots.  `ParseSpec` states the whole
 * record as a function of the text; the method fills a preallocated record slot
 * by slot, as the source does, and is proved to produce exactly `ParseSpec`.
 */
module ColumnParser {
  import opened Wrappers
  import opened Text
  import opened ColumnScan

  /** A single-value field: the column found (or none) and its comment. */
  datatype Slot = Slot(found: Option<string>, comment: string)

  /** The coordinates field: one column per axis and a shared comment. */
  datatype CoordSlot = CoordSlot(x: Option<string>, y: Option<string>, z: Option<string>, comment: string)

  /** The grades field: a list of columns and a comment. */
  datatype GradeSlot = GradeSlot(found: seq<string>, comment: string)

  /** The parser's result record, one slot per standard field. */
  datatype Parsed = Parsed(
    holeId: Slot,
    coordinates: CoordSlot,
    grades: GradeSlot,
    depthFrom: Slot,
    depthTo: Slot,
    dip: Slot,
    azimuth: Slot,
    depth: Slot,
    density: Slot,
    lithology: Slot)

  const EmptySlot := Slot(None, [])

  /** The record every parse starts from. */
  const InitialRecord := Parsed(EmptySlot, CoordSlot(None, None, None, []), GradeSlot([], []),
    EmptySlot, EmptySlot, EmptySlot, EmptySlot, EmptySlot, EmptySlot, EmptySlot)

  /** Synonyms tried, in order, for each axis when the combined coordinates pattern fails. */
  const XWords: seq<string> := ["XCOLLAR", "X", "EAST", "EASTING", "X_UTM", "XCOORD"]
  const YWords: seq<string> := ["YCOLLAR", "Y", "NORTH", "NORTHING", "Y_UTM", "YCOORD"]
  const ZWords: seq<string> := ["ZCOLLAR", "Z", "ELEV", "ELEVATION", "RL", "Z_UTM", "ZCOORD"]

  /** Words tried, in order, for the depth slot when there is no `DEPTH (AT):` label. */
  const DepthWords: seq<string> := ["AT", "DEPTH", "MD", "MEASURED_DEPTH", "FROM_DEPTH", "TO_DEPTH"]

  const DepthComment := "Depth measurement"

  /**
   * A single-value field: the first label's token unless it reads as an absence
   * ("NOT", or containing "FOUND"), with a comment only when a column was found.
   */
  function SingleSlot(s: string, lab: Label): (r: Slot)
    ensures r.comment != [] ==> r.found.Some?
    ensures r.found.Some? <==> FindToken(s, lab).Some? && !IsAbsenceToken(FindToken(s, lab).value)
    ensures r.found.Some? ==> r.found == FindToken(s, lab) && r.comment == FindComment(s, lab).GetOr([])
  {
    match FindToken(s, lab)
    case None => EmptySlot
    case Some(t) =>
      if IsAbsenceToken(t) then EmptySlot else Slot(Some(t), FindComment(s, lab).GetOr([]))
  }

  /**
   * The depth slot: as a single-value field under `DEPTH (AT):`, with a fixed
   * comment when no comment matches; without that label, the first depth word
   * present as a whole word, with the fixed comment.
   */
  function DepthSlot(s: string): (r: Slot)
    ensures r.comment != [] ==> r.found.Some?
    ensures FindToken(s, DepthAt).Some? && IsAbsenceToken(FindToken(s, DepthAt).value) ==> r == EmptySlot
    ensures FindToken(s, DepthAt).Some? && !IsAbsenceToken(FindToken(s, DepthAt).value) ==>
      r.found == FindToken(s, DepthAt) && r.comment == FindComment(s, DepthAt).GetOr(DepthComment)
    ensures FindToken(s, DepthAt).None? ==>
      r.found == FirstWholeWord(s, DepthWords) && (r.found.Some? ==> r.comment == DepthComment)
  {
    match FindToken(s, DepthAt)
    case Some(t) =>
      if IsAbsenceToken(t) then EmptySlot else Slot(Some(t), FindComment(s, DepthAt).GetOr(DepthComment))
    case None =>
      match FirstWholeWord(s, DepthWords)
      case None => EmptySlot
      case Some(w) => Slot(Some(w), DepthComment)
  }

  /**
   * The coordinates field: all three axes and one comment from the combined
   * pattern; otherwise each axis on its own from its synonym list, with no comment.
   */
  function CoordinatesSlot(s: string): (r: CoordSlot)
    ensures FindCoordinates(s).Some? ==>
      r.x == Some(FindCoordinates(s).value.0) && r.y == Some(FindCoordinates(s).value.1)
      && r.z == Some(FindCoordinates(s).value.2) && r.comment == FindComment(s, CoordinatesLabel).GetOr([])
    ensures FindCoordinates(s).None? ==>
      r.comment == [] && r.x == FirstWholeWord(s, XWords) && r.y == FirstWholeWord(s, YWords)
      && r.z == FirstWholeWord(s, ZWords)
  {
    match FindCoordinates(s)
    case Some((x, y, z)) => CoordSlot(Some(x), Some(y), Some(z), FindComment(s, CoordinatesLabel).GetOr([]))
    case None => CoordSlot(FirstWholeWord(s, XWords), FirstWholeWord(s, YWords), FirstWholeWord(s, ZWords), [])
  }

  /** The grades field: the list the grade pattern yields, with a comment whenever the pattern matched. */
  function GradesSlot(s: string): (r: GradeSlot)
    ensures FindGrades(s).None? ==> r == GradeSlot([], [])
    ensures FindGrades(s).Some? ==>
      r.found == GradeList(FindGrades(s).value) && r.comment == FindComment(s, GradeLabel).GetOr([])
  {
    match FindGrades(s)
    case None => GradeSlot([], [])
    case Some(m) => GradeSlot(GradeList(m), FindComment(s, GradeLabel).GetOr([]))
  }

  /** FROM and TO are set together from one match of the intervals pattern and share one comment. */
  function IntervalSlots(s: string): (r: (Slot, Slot))
    ensures r.0.found.Some? <==> r.1.found.Some?
    ensures r.0.comment == r.1.comment
    ensures r.0.comment != [] ==> r.0.found.Some?
    ensures FindIntervals(s).None? ==> r == (EmptySlot, EmptySlot)
    ensures FindIntervals(s).Some? ==>
      r.0.found == Some(FindIntervals(s).value.0) && r.1.found == Some(FindIntervals(s).value.1)
      && r.0.comment == FindComment(s, IntervalsLabel).GetOr([])
  {
    match FindIntervals(s)
    case None => (EmptySlot, EmptySlot)
    case Some((f, t)) =>
      var c := FindComment(s, IntervalsLabel).GetOr([]);
      (Slot(Some(f), c), Slot(Some(t), c))
  }

  /** The whole parse: no record (`{}`) exactly for empty text, otherwise every slot as above. */
  function ParseSpec(s: string): (r: Option<Parsed>)
    ensures r.None? <==> s == []
  {
    if s == [] then None
    else
      var intervals := IntervalSlots(s);
      Some(Parsed(
        SingleSlot(s, HoleLabel),
        CoordinatesSlot(s),
        GradesSlot(s),
        intervals.0,
        intervals.1,
        SingleSlot(s, DipLabel),
        SingleSlot(s, AzimuthLabel),
        DepthSlot(s),
        SingleSlot(s, DensityLabel),
        SingleSlot(s, LithologyLabel)))
  }

  /** The parser as the source runs it: a preallocated record, filled field by field. */
  method ParseColumnIdentification(s: string) returns (r: Option<Parsed>)
    ensures r == ParseSpec(s)
  {
    if s == [] {
      return None;
    }
    var result := InitialRecord;
    var hole := FindToken(s, HoleLabel);
    if hole.Some? && !IsAbsenceToken(hole.value) {
      result := result.(holeId := Slot(hole, FindComment(s, HoleLabel).GetOr([])));
    }
    var coordinates := FillCoordinates(s);
    result := result.(coordinates := coordinates);
    result := result.(dip := SingleSlot(s, DipLabel));
    result := result.(azimuth := SingleSlot(s, AzimuthLabel));
    var grades := FindGrades(s);
    if grades.Some? {
      result := result.(grades := GradeSlot(GradeList(grades.value), FindComment(s, GradeLabel).GetOr([])));
    }
    var intervals := FindIntervals(s);
    if intervals.Some? {
      var c := FindComment(s, IntervalsLabel).GetOr([]);
      result := result.(depthFrom := Slot(Some(intervals.value.0), c), depthTo := Slot(Some(intervals.value.1), c));
    }
    result := result.(density := SingleSlot(s, DensityLabel));
    result := result.(lithology := SingleSlot(s, LithologyLabel));
    var depth := FillDepth(s);
    result := result.(depth := depth);
    r := Some(result);
  }

  /** The coordinates block: the combined pattern, else the synonym search axis by axis, keeping the empty comment. */
  method FillCoordinates(s: string) returns (c: CoordSlot)
    ensures c == CoordinatesSlot(s)
  {
    c := InitialRecord.coordinates;
    var coords := FindCoordinates(s);
    if coords.Some? {
      var (x, y, z) := coords.value;
      c := CoordSlot(Some(x), Some(y), Some(z), FindComment(s, CoordinatesLabel).GetOr([]));
    } else {
      var x := FindFirstWholeWord(s, XWords);
      var y := FindFirstWholeWord(s, YWords);
      var z := FindFirstWholeWord(s, ZWords);
      c := c.(x := x, y := y, z := z);
    }
  }

  /** The depth block: the labelled form unless it reads as absent, else the first depth word; otherwise the slot stays empty. */
  method FillDepth(s: string) returns (d: Slot)
    ensures d == DepthSlot(s)
  {
    d := InitialRecord.depth;
    var depth := FindToken(s, DepthAt);
    if depth.Some? {
      if !IsAbsenceToken(depth.value) {
        d := Slot(depth, FindComment(s, DepthAt).GetOr(DepthComment));
      }
    } else {
      var w := FindFirstWholeWord(s, DepthWords);
      if w.Some? {
        d := Slot(w, DepthComment);
      }
    }
  }
}
