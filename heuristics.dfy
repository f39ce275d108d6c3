/**
 * The file-type heuristics document and the two lookups over it:
 * `get_required_columns_for_file_type`, a case-insensitive key lookup, and
 * `extract_column_info_from_heuristics`, which merges the column descriptions
 * of every file type (lists extended, scalars last-writer-wins) and then removes
 * duplicates from every list, keeping first occurrences.
 */
module Heuristics {
  import opened Wrappers
  import opened Text

  /** A `from` / `to` entry of a depth-intervals description: a dict (with or without `names`), a list, or another value. */
  datatype Bound = BoundDict(names: Option<seq<string>>) | BoundList(items: seq<string>) | BoundOther

  /** A `range` value: a list of numbers, or a value that is not a list. */
  datatype RangeValue = RangeList(bounds: seq<real>) | RangeText(text: string)

  /**
   * One value of `required_columns`: a dict holding the keys the program reads
   * (`None` for an absent key), or a value that is not a dict.
   */
  datatype ColData =
    | ColDict(
        names: Option<seq<string>>,
        kind: Option<string>,
        characteristics: Option<string>,
        range: Option<RangeValue>,
        validation: Option<string>,
        commonNames: Option<seq<(string, seq<string>)>>,
        commonElements: Option<seq<string>>,
        compoundPatterns: Option<seq<string>>,
        fromBound: Option<Bound>,
        toBound: Option<Bound>)
    | NotDict

  /** A file type's `required_columns`, in key order. */
  type Required = seq<(string, ColData)>

  /** The heuristics document: each file type's name and `required_columns`, in key order. */
  datatype Heuristics = Heuristics(fileTypes: seq<(string, Required)>)

  // ----- get_required_columns_for_file_type -----

  /** The indices of the file types whose name equals `t` ignoring case. */
  function KeyMatches(h: Heuristics, t: string): nat -> bool {
    (k: nat) => k < |h.fileTypes| && LowerStr(h.fileTypes[k].0) == LowerStr(t)
  }

  /** The first file type, in key order, whose name equals `t` ignoring case. */
  function MatchingType(h: Heuristics, t: string): Option<nat> {
    FirstWhere(KeyMatches(h, t), 0, |h.fileTypes|)
  }

  /**
   * The required columns of the detected type: none without heuristics or
   * without a (non-empty) type, none when no key matches, otherwise those of the
   * first key that matches ignoring case.
   */
  function GetRequiredColumns(t: Option<string>, h: Option<Heuristics>): (r: Required)
    ensures h.None? || t.None? || t.value == [] ==> r == []
    ensures h.Some? && t.Some? && t.value != [] && r != [] ==>
      exists k :: 0 <= k < |h.value.fileTypes| && LowerStr(h.value.fileTypes[k].0) == LowerStr(t.value)
        && r == h.value.fileTypes[k].1
  {
    if h.None? || t.None? || t.value == [] then []
    else match MatchingType(h.value, t.value)
      case None => []
      case Some(k) => h.value.fileTypes[k].1
  }

  /** The first key that matches ignoring case is the one whose columns are returned. */
  lemma FirstCaseInsensitiveMatch(h: Heuristics, t: string, k: nat)
    requires t != [] && k < |h.fileTypes| && LowerStr(h.fileTypes[k].0) == LowerStr(t)
    requires forall j :: 0 <= j < k ==> LowerStr(h.fileTypes[j].0) != LowerStr(t)
    ensures GetRequiredColumns(Some(t), Some(h)) == h.fileTypes[k].1
  {
    FirstWhereIs(KeyMatches(h, t), 0, |h.fileTypes|, k);
  }

  /** A type name that matches no key ignoring case has no required columns. */
  lemma UnknownTypeHasNoColumns(h: Heuristics, t: string)
    requires forall j :: 0 <= j < |h.fileTypes| ==> LowerStr(h.fileTypes[j].0) != LowerStr(t)
    ensures GetRequiredColumns(Some(t), Some(h)) == []
  {
    if t != [] {
      assert MatchingType(h, t).None?;
    }
  }

  /** Two spellings of a type that differ only in case get the same columns. */
  lemma LookupIgnoresCase(h: Heuristics, t: string, u: string)
    requires LowerStr(t) == LowerStr(u)
    ensures GetRequiredColumns(Some(t), Some(h)) == GetRequiredColumns(Some(u), Some(h))
  {
    assert KeyMatches(h, t) == KeyMatches(h, u);
    assert t == [] <==> u == [] by {
      assert |LowerStr(t)| == |t| && |LowerStr(u)| == |u|;
    }
  }

  // ----- extract_column_info_from_heuristics -----

  /** Description and names of the hole-id column. */
  datatype NamedField = NamedField(names: seq<string>, kind: string, characteristics: string)

  /** Names, range and validation of an angle column (dip, azimuth). */
  datatype RangedField = RangedField(names: seq<string>, range: RangeValue, validation: string, kind: string)

  datatype CoordNames = CoordNames(x: seq<string>, y: seq<string>, z: seq<string>)

  datatype ElementNames = ElementNames(common: seq<string>, patterns: seq<string>)

  datatype IntervalNames = IntervalNames(from: seq<string>, to: seq<string>)

  /** The merged column information. */
  datatype ColumnInfo = ColumnInfo(
    holeId: NamedField,
    dip: RangedField,
    azimuth: RangedField,
    coordinates: CoordNames,
    elements: ElementNames,
    depthIntervals: IntervalNames)

  const EmptyRanged := RangedField([], RangeList([]), "", "")

  /** The record the merge starts from: empty lists and empty texts. */
  const InitialInfo := ColumnInfo(NamedField([], "", ""), EmptyRanged, EmptyRanged,
    CoordNames([], [], []), ElementNames([], []), IntervalNames([], []))

  /** The names a `from` / `to` entry contributes: a dict's `names`, or the list itself. */
  function BoundNames(b: Option<Bound>): seq<string> {
    match b
    case Some(BoundDict(Some(names))) => names
    case Some(BoundList(items)) => items
    case _ => []
  }

  /** Dip and azimuth: names extended, the other keys overwritten when present. */
  function AbsorbRanged(f: RangedField, d: ColData): (r: RangedField)
    requires d.ColDict? && d.names.Some?
    ensures r.names == f.names + d.names.value
    ensures r.range == d.range.GetOr(f.range) && r.validation == d.validation.GetOr(f.validation)
    ensures r.kind == d.kind.GetOr(f.kind)
  {
    RangedField(f.names + d.names.value, d.range.GetOr(f.range), d.validation.GetOr(f.validation), d.kind.GetOr(f.kind))
  }

  /** One `common_names` item: extends the x, y or z list it names, and nothing else. */
  function AddAxis(c: CoordNames, item: (string, seq<string>)): CoordNames {
    if item.0 == "x" then c.(x := c.x + item.1)
    else if item.0 == "y" then c.(y := c.y + item.1)
    else if item.0 == "z" then c.(z := c.z + item.1)
    else c
  }

  /** Every `common_names` item in order. */
  function AbsorbCoords(c: CoordNames, items: seq<(string, seq<string>)>): CoordNames
    decreases |items|
  {
    if items == [] then c else AddAxis(AbsorbCoords(c, items[..|items| - 1]), items[|items| - 1])
  }

  /** Does this entry describe the hole id (a dict with `names`)? */
  predicate IsHoleEntry(e: (string, ColData)) {
    e.0 == "hole_id" && e.1.ColDict? && e.1.names.Some?
  }

  /** One `required_columns` entry merged into the record: the `elif` chain of the source. */
  function Absorb(ci: ColumnInfo, e: (string, ColData)): ColumnInfo {
    var (colType, d) := e;
    if IsHoleEntry(e) then
      ci.(holeId := NamedField(ci.holeId.names + d.names.value, d.kind.GetOr(ci.holeId.kind),
        d.characteristics.GetOr(ci.holeId.characteristics)))
    else if colType == "dip" && d.ColDict? && d.names.Some? then ci.(dip := AbsorbRanged(ci.dip, d))
    else if colType == "azimuth" && d.ColDict? && d.names.Some? then ci.(azimuth := AbsorbRanged(ci.azimuth, d))
    else if colType == "coordinates" && d.ColDict? && d.commonNames.Some? then
      ci.(coordinates := AbsorbCoords(ci.coordinates, d.commonNames.value))
    else if colType == "element_columns" && d.ColDict? then
      ci.(elements := ElementNames(ci.elements.common + d.commonElements.GetOr([]),
        ci.elements.patterns + d.compoundPatterns.GetOr([])))
    else if colType == "depth_intervals" && d.ColDict? then
      ci.(depthIntervals := IntervalNames(ci.depthIntervals.from + BoundNames(d.fromBound),
        ci.depthIntervals.to + BoundNames(d.toBound)))
    else ci
  }

  /** Every entry, in order. */
  function AbsorbEntries(ci: ColumnInfo, es: Required): ColumnInfo
    decreases |es|
  {
    if es == [] then ci else Absorb(AbsorbEntries(ci, es[..|es| - 1]), es[|es| - 1])
  }

  /** The entries of all file types, type by type, each in key order: the order of the nested loops. */
  function Entries(ts: seq<(string, Required)>): Required
    decreases |ts|
  {
    if ts == [] then [] else Entries(ts[..|ts| - 1]) + ts[|ts| - 1].1
  }

  /** One more file type adds its entries at the end. */
  lemma EntriesStep(ts: seq<(string, Required)>, i: nat)
    requires i < |ts|
    ensures Entries(ts[..i + 1]) == Entries(ts[..i]) + ts[i].1
  {
    assert ts[..i + 1][..i] == ts[..i];
  }

  /** `xs` has no repeated element. */
  predicate NoDup<T(==,!new)>(xs: seq<T>) {
    forall i, j :: 0 <= i < j < |xs| ==> xs[i] != xs[j]
  }

  /** `list(dict.fromkeys(xs))`: the first occurrence of each element, in order. */
  function Dedup<T(==,!new)>(xs: seq<T>): (r: seq<T>)
    ensures NoDup(r)
    ensures forall x :: x in r <==> x in xs
    decreases |xs|
  {
    if xs == [] then []
    else
      var d := Dedup(xs[..|xs| - 1]);
      var x := xs[|xs| - 1];
      assert forall y :: y in xs <==> y in xs[..|xs| - 1] || y == x by {
        assert xs == xs[..|xs| - 1] + [x];
      }
      if x in d then d else d + [x]
  }

  /** Every list of the record without repetitions. */
  function DedupInfo(ci: ColumnInfo): ColumnInfo {
    ColumnInfo(
      NamedField(Dedup(ci.holeId.names), ci.holeId.kind, ci.holeId.characteristics),
      DedupRanged(ci.dip),
      DedupRanged(ci.azimuth),
      CoordNames(Dedup(ci.coordinates.x), Dedup(ci.coordinates.y), Dedup(ci.coordinates.z)),
      ElementNames(Dedup(ci.elements.common), Dedup(ci.elements.patterns)),
      IntervalNames(Dedup(ci.depthIntervals.from), Dedup(ci.depthIntervals.to)))
  }

  /** A range that is a list is a list too, and loses its repetitions. */
  function DedupRanged(f: RangedField): RangedField {
    f.(names := Dedup(f.names), range := if f.range.RangeList? then RangeList(Dedup(f.range.bounds)) else f.range)
  }

  /** The whole extraction: nothing (`{}`) without heuristics, otherwise the merged and de-duplicated record. */
  function ColumnInfoSpec(h: Option<Heuristics>): (r: Option<ColumnInfo>)
    ensures r.None? <==> h.None?
    ensures r.Some? ==> r.value == DedupInfo(FieldwiseInfo(Entries(h.value.fileTypes)))
    ensures r.Some? ==> (NoDup(r.value.holeId.names) && NoDup(r.value.dip.names) && NoDup(r.value.azimuth.names)
      && NoDup(r.value.coordinates.x) && NoDup(r.value.coordinates.y) && NoDup(r.value.coordinates.z)
      && NoDup(r.value.elements.common) && NoDup(r.value.elements.patterns)
      && NoDup(r.value.depthIntervals.from) && NoDup(r.value.depthIntervals.to))
  {
    if h.None? then None
    else
      MergeIsFieldwise(Entries(h.value.fileTypes));
      Some(DedupInfo(AbsorbEntries(InitialInfo, Entries(h.value.fileTypes))))
  }

  /** `dict.fromkeys` as a loop over the list with the set of keys seen so far. */
  method DedupKeepFirst<T(==,!new)>(xs: seq<T>) returns (r: seq<T>)
    ensures r == Dedup(xs)
  {
    r := [];
    var seen: set<T> := {};
    for i := 0 to |xs|
      invariant r == Dedup(xs[..i])
      invariant forall x :: x in seen <==> x in r
    {
      assert xs[..i + 1][..i] == xs[..i];
      if xs[i] !in seen {
        r := r + [xs[i]];
        seen := seen + {xs[i]};
      }
    }
    assert xs[..|xs|] == xs;
  }

  /** The merge of one dip/azimuth-style field's lists, de-duplicated in place. */
  method DedupRangedField(f: RangedField) returns (r: RangedField)
    ensures r == DedupRanged(f)
  {
    var names := DedupKeepFirst(f.names);
    r := f.(names := names);
    if f.range.RangeList? {
      var bounds := DedupKeepFirst(f.range.bounds);
      r := r.(range := RangeList(bounds));
    }
  }

  /**
   * `extract_column_info_from_heuristics`: a loop over file types and, inside,
   * over their entries, merging each; the `coordinates` entry loops over its
   * `common_names`; finally every list is de-duplicated.
   */
  method ExtractColumnInfo(h: Option<Heuristics>) returns (r: Option<ColumnInfo>)
    ensures r == ColumnInfoSpec(h)
  {
    if h.None? {
      return None;
    }
    var ts := h.value.fileTypes;
    var ci := InitialInfo;
    for i := 0 to |ts|
      invariant ci == AbsorbEntries(InitialInfo, Entries(ts[..i]))
    {
      EntriesStep(ts, i);
      AbsorbEntriesAppend(InitialInfo, Entries(ts[..i]), ts[i].1);
      ci := AbsorbTypeEntries(ci, ts[i].1);
    }
    assert ts[..|ts|] == ts;
    var merged := DedupLists(ci);
    r := Some(merged);
  }

  /** The inner loop: one file type's entries, in key order. */
  method AbsorbTypeEntries(ci: ColumnInfo, req: Required) returns (r: ColumnInfo)
    ensures r == AbsorbEntries(ci, req)
  {
    r := ci;
    for j := 0 to |req|
      invariant r == AbsorbEntries(ci, req[..j])
    {
      assert req[..j + 1][..j] == req[..j];
      r := AbsorbEntry(r, req[j]);
    }
    assert req[..|req|] == req;
  }

  /** Merging two lists of entries one after the other is merging their concatenation. */
  lemma {:induction false} AbsorbEntriesAppend(ci: ColumnInfo, a: Required, b: Required)
    ensures AbsorbEntries(ci, a + b) == AbsorbEntries(AbsorbEntries(ci, a), b)
    decreases |b|
  {
    if b == [] {
      assert a + b == a;
    } else {
      var init := b[..|b| - 1];
      assert (a + b)[..|a + b| - 1] == a + init;
      assert (a + b)[|a + b| - 1] == b[|b| - 1];
      AbsorbEntriesAppend(ci, a, init);
    }
  }

  /** One entry of the `elif` chain; the `coordinates` entry loops over its `common_names`. */
  method AbsorbEntry(ci: ColumnInfo, e: (string, ColData)) returns (r: ColumnInfo)
    ensures r == Absorb(ci, e)
  {
    var (colType, d) := e;
    if colType == "coordinates" && d.ColDict? && d.commonNames.Some? {
      var items := d.commonNames.value;
      var c := ci.coordinates;
      for k := 0 to |items|
        invariant c == AbsorbCoords(ci.coordinates, items[..k])
      {
        assert items[..k + 1][..k] == items[..k];
        c := AddAxis(c, items[k]);
      }
      assert items[..|items|] == items;
      r := ci.(coordinates := c);
    } else {
      r := Absorb(ci, e);
    }
  }

  /** The final pass: every list of the record de-duplicated in place. */
  method DedupLists(ci: ColumnInfo) returns (r: ColumnInfo)
    ensures r == DedupInfo(ci)
  {
    var hole := DedupKeepFirst(ci.holeId.names);
    var dip := DedupRangedField(ci.dip);
    var azimuth := DedupRangedField(ci.azimuth);
    var x := DedupKeepFirst(ci.coordinates.x);
    var y := DedupKeepFirst(ci.coordinates.y);
    var z := DedupKeepFirst(ci.coordinates.z);
    var common := DedupKeepFirst(ci.elements.common);
    var patterns := DedupKeepFirst(ci.elements.patterns);
    var from := DedupKeepFirst(ci.depthIntervals.from);
    var to := DedupKeepFirst(ci.depthIntervals.to);
    r := ColumnInfo(NamedField(hole, ci.holeId.kind, ci.holeId.characteristics), dip, azimuth,
      CoordNames(x, y, z), ElementNames(common, patterns), IntervalNames(from, to));
  }

  // ----- what the merge promises, field by field -----

  /** What the entries contribute to one list of the record, in traversal order. */
  function Contributed(es: Required, of: ((string, ColData)) -> seq<string>): (r: seq<string>)
    ensures forall x :: x in r <==> exists k :: 0 <= k < |es| && x in of(es[k])
    decreases |es|
  {
    if es == [] then []
    else
      var init := es[..|es| - 1];
      var r := Contributed(init, of) + of(es[|es| - 1]);
      assert forall k :: 0 <= k < |init| ==> init[k] == es[k];
      r
  }

  /** The value the last entry that gives one assigns to a scalar of the record; none when no entry gives one. */
  function LastGiven<T>(es: Required, pick: ((string, ColData)) -> Option<T>): (r: Option<T>)
    ensures r.None? <==> forall k :: 0 <= k < |es| ==> pick(es[k]).None?
    ensures r.Some? ==> exists k :: (0 <= k < |es| && pick(es[k]) == r
      && forall j :: k < j < |es| ==> pick(es[j]).None?)
    decreases |es|
  {
    if es == [] then None
    else if pick(es[|es| - 1]).Some? then pick(es[|es| - 1])
    else
      var init := es[..|es| - 1];
      assert forall k :: 0 <= k < |init| ==> init[k] == es[k];
      LastGiven(init, pick)
  }

  /** A list of the record that every entry extends by its contribution ends up extended by all of them, in order. */
  lemma {:induction false} Accumulates(ci: ColumnInfo, es: Required, get: ColumnInfo -> seq<string>,
    of: ((string, ColData)) -> seq<string>)
    requires forall c, e :: get(Absorb(c, e)) == get(c) + of(e)
    ensures get(AbsorbEntries(ci, es)) == get(ci) + Contributed(es, of)
    decreases |es|
  {
    if es != [] {
      var init := es[..|es| - 1];
      Accumulates(ci, init, get, of);
      assert get(AbsorbEntries(ci, es)) == get(ci) + Contributed(init, of) + of(es[|es| - 1]);
    }
  }

  /** A scalar of the record that every entry either sets or leaves alone ends up with the last value set. */
  lemma {:induction false} LastWriterWins<T>(ci: ColumnInfo, es: Required, get: ColumnInfo -> T,
    pick: ((string, ColData)) -> Option<T>)
    requires forall c, e :: get(Absorb(c, e)) == pick(e).GetOr(get(c))
    ensures get(AbsorbEntries(ci, es)) == LastGiven(es, pick).GetOr(get(ci))
    decreases |es|
  {
    if es != [] {
      LastWriterWins(ci, es[..|es| - 1], get, pick);
    }
  }

  // The contribution of one entry to each list, and the value it gives each scalar.

  function HoleNamesOf(e: (string, ColData)): seq<string> {
    if IsHoleEntry(e) then e.1.names.value else []
  }

  function HoleKindOf(e: (string, ColData)): Option<string> {
    if IsHoleEntry(e) then e.1.kind else None
  }

  function HoleTraitsOf(e: (string, ColData)): Option<string> {
    if IsHoleEntry(e) then e.1.characteristics else None
  }

  /** Does this entry describe the angle column `key` (a dict with `names`)? */
  predicate IsRangedEntry(key: string, e: (string, ColData)) {
    e.0 == key && e.1.ColDict? && e.1.names.Some?
  }

  function RangedNamesOf(key: string): ((string, ColData)) -> seq<string> {
    e => if IsRangedEntry(key, e) then e.1.names.value else []
  }

  function RangeOf(key: string): ((string, ColData)) -> Option<RangeValue> {
    e => if IsRangedEntry(key, e) then e.1.range else None
  }

  function ValidationOf(key: string): ((string, ColData)) -> Option<string> {
    e => if IsRangedEntry(key, e) then e.1.validation else None
  }

  function RangedKindOf(key: string): ((string, ColData)) -> Option<string> {
    e => if IsRangedEntry(key, e) then e.1.kind else None
  }

  /** The names of the `common_names` items for one axis, in order. */
  function AxisNames(items: seq<(string, seq<string>)>, axis: string): seq<string>
    decreases |items|
  {
    if items == [] then []
    else
      var item := items[|items| - 1];
      AxisNames(items[..|items| - 1], axis) + (if item.0 == axis then item.1 else [])
  }

  function AxisOf(c: CoordNames, axis: string): seq<string> {
    if axis == "x" then c.x else if axis == "y" then c.y else c.z
  }

  /** Folding the `common_names` items extends each axis by exactly the names given for it. */
  lemma {:induction false} AbsorbCoordsAxis(c: CoordNames, items: seq<(string, seq<string>)>, axis: string)
    requires axis == "x" || axis == "y" || axis == "z"
    ensures AxisOf(AbsorbCoords(c, items), axis) == AxisOf(c, axis) + AxisNames(items, axis)
    decreases |items|
  {
    if items != [] {
      AbsorbCoordsAxis(c, items[..|items| - 1], axis);
    }
  }

  predicate IsCoordEntry(e: (string, ColData)) {
    e.0 == "coordinates" && e.1.ColDict? && e.1.commonNames.Some?
  }

  function AxisNamesOf(axis: string): ((string, ColData)) -> seq<string> {
    e => if IsCoordEntry(e) then AxisNames(e.1.commonNames.value, axis) else []
  }

  predicate IsElementEntry(e: (string, ColData)) {
    e.0 == "element_columns" && e.1.ColDict?
  }

  function CommonOf(e: (string, ColData)): seq<string> {
    if IsElementEntry(e) then e.1.commonElements.GetOr([]) else []
  }

  function PatternsOf(e: (string, ColData)): seq<string> {
    if IsElementEntry(e) then e.1.compoundPatterns.GetOr([]) else []
  }

  predicate IsDepthEntry(e: (string, ColData)) {
    e.0 == "depth_intervals" && e.1.ColDict?
  }

  function FromOf(e: (string, ColData)): seq<string> {
    if IsDepthEntry(e) then BoundNames(e.1.fromBound) else []
  }

  function ToOf(e: (string, ColData)): seq<string> {
    if IsDepthEntry(e) then BoundNames(e.1.toBound) else []
  }

  /** An angle field built field by field: all names given for it, and the last range, validation and type given. */
  function FieldwiseRanged(es: Required, key: string): RangedField {
    RangedField(Contributed(es, RangedNamesOf(key)), LastGiven(es, RangeOf(key)).GetOr(RangeList([])),
      LastGiven(es, ValidationOf(key)).GetOr(""), LastGiven(es, RangedKindOf(key)).GetOr(""))
  }

  /**
   * The merged record built field by field rather than entry by entry: every
   * list is the concatenation of what the entries give it, every scalar the
   * last value given or its initial default.
   */
  function FieldwiseInfo(es: Required): ColumnInfo {
    ColumnInfo(
      NamedField(Contributed(es, HoleNamesOf), LastGiven(es, HoleKindOf).GetOr(""), LastGiven(es, HoleTraitsOf).GetOr("")),
      FieldwiseRanged(es, "dip"),
      FieldwiseRanged(es, "azimuth"),
      CoordNames(Contributed(es, AxisNamesOf("x")), Contributed(es, AxisNamesOf("y")), Contributed(es, AxisNamesOf("z"))),
      ElementNames(Contributed(es, CommonOf), Contributed(es, PatternsOf)),
      IntervalNames(Contributed(es, FromOf), Contributed(es, ToOf)))
  }

  /** One entry extends the hole-id names by its contribution and sets the scalars it gives. */
  lemma HoleStep(c: ColumnInfo, e: (string, ColData))
    ensures Absorb(c, e).holeId.names == c.holeId.names + HoleNamesOf(e)
    ensures Absorb(c, e).holeId.kind == HoleKindOf(e).GetOr(c.holeId.kind)
    ensures Absorb(c, e).holeId.characteristics == HoleTraitsOf(e).GetOr(c.holeId.characteristics)
  {
  }

  /** The hole-id names: all names of the hole-id entries, in order. */
  lemma HoleNamesFieldwise(es: Required)
    ensures AbsorbEntries(InitialInfo, es).holeId.names == Contributed(es, HoleNamesOf)
  {
    forall c, e
      ensures Absorb(c, e).holeId.names == c.holeId.names + HoleNamesOf(e)
    {
      HoleStep(c, e);
    }
    Accumulates(InitialInfo, es, (c: ColumnInfo) => c.holeId.names, HoleNamesOf);
    assert [] + Contributed(es, HoleNamesOf) == Contributed(es, HoleNamesOf);
  }

  /** The hole id's type: the last one given, `""` when none is. */
  lemma HoleKindFieldwise(es: Required)
    ensures AbsorbEntries(InitialInfo, es).holeId.kind == LastGiven(es, HoleKindOf).GetOr("")
  {
    forall c, e
      ensures Absorb(c, e).holeId.kind == HoleKindOf(e).GetOr(c.holeId.kind)
    {
      HoleStep(c, e);
    }
    LastWriterWins(InitialInfo, es, (c: ColumnInfo) => c.holeId.kind, HoleKindOf);
  }

  /** The hole id's characteristics: the last given, `""` when none is. */
  lemma HoleTraitsFieldwise(es: Required)
    ensures AbsorbEntries(InitialInfo, es).holeId.characteristics == LastGiven(es, HoleTraitsOf).GetOr("")
  {
    forall c, e
      ensures Absorb(c, e).holeId.characteristics == HoleTraitsOf(e).GetOr(c.holeId.characteristics)
    {
      HoleStep(c, e);
    }
    LastWriterWins(InitialInfo, es, (c: ColumnInfo) => c.holeId.characteristics, HoleTraitsOf);
  }

  function RangedIn(c: ColumnInfo, key: string): RangedField {
    if key == "dip" then c.dip else c.azimuth
  }

  /** One entry extends the dip (or azimuth) names by its contribution and sets the scalars it gives. */
  lemma RangedStep(c: ColumnInfo, e: (string, ColData), key: string)
    requires key == "dip" || key == "azimuth"
    ensures RangedIn(Absorb(c, e), key).names == RangedIn(c, key).names + RangedNamesOf(key)(e)
    ensures RangedIn(Absorb(c, e), key).range == RangeOf(key)(e).GetOr(RangedIn(c, key).range)
    ensures RangedIn(Absorb(c, e), key).validation == ValidationOf(key)(e).GetOr(RangedIn(c, key).validation)
    ensures RangedIn(Absorb(c, e), key).kind == RangedKindOf(key)(e).GetOr(RangedIn(c, key).kind)
  {
  }

  /** The names of the dip or the azimuth record: all names given for it, in order. */
  lemma RangedNamesFieldwise(es: Required, key: string)
    requires key == "dip" || key == "azimuth"
    ensures RangedIn(AbsorbEntries(InitialInfo, es), key).names == Contributed(es, RangedNamesOf(key))
  {
    forall c, e
      ensures RangedIn(Absorb(c, e), key).names == RangedIn(c, key).names + RangedNamesOf(key)(e)
    {
      RangedStep(c, e, key);
    }
    Accumulates(InitialInfo, es, (c: ColumnInfo) => RangedIn(c, key).names, RangedNamesOf(key));
    assert [] + Contributed(es, RangedNamesOf(key)) == Contributed(es, RangedNamesOf(key));
  }

  /** The dip or the azimuth record: names accumulated, range, validation and type last-writer-wins. */
  lemma RangedFieldwise(es: Required, key: string)
    requires key == "dip" || key == "azimuth"
    ensures RangedIn(AbsorbEntries(InitialInfo, es), key) == FieldwiseRanged(es, key)
  {
    var f := RangedIn(AbsorbEntries(InitialInfo, es), key);
    RangedNamesFieldwise(es, key);
    assert f.range == LastGiven(es, RangeOf(key)).GetOr(RangeList([])) by {
      forall c, e
        ensures RangedIn(Absorb(c, e), key).range == RangeOf(key)(e).GetOr(RangedIn(c, key).range)
      {
        RangedStep(c, e, key);
      }
      LastWriterWins(InitialInfo, es, (c: ColumnInfo) => RangedIn(c, key).range, RangeOf(key));
    }
    assert f.validation == LastGiven(es, ValidationOf(key)).GetOr("") by {
      forall c, e
        ensures RangedIn(Absorb(c, e), key).validation == ValidationOf(key)(e).GetOr(RangedIn(c, key).validation)
      {
        RangedStep(c, e, key);
      }
      LastWriterWins(InitialInfo, es, (c: ColumnInfo) => RangedIn(c, key).validation, ValidationOf(key));
    }
    assert f.kind == LastGiven(es, RangedKindOf(key)).GetOr("") by {
      forall c, e
        ensures RangedIn(Absorb(c, e), key).kind == RangedKindOf(key)(e).GetOr(RangedIn(c, key).kind)
      {
        RangedStep(c, e, key);
      }
      LastWriterWins(InitialInfo, es, (c: ColumnInfo) => RangedIn(c, key).kind, RangedKindOf(key));
    }
  }

  /** One axis of the coordinates: the names given for that axis by every `coordinates` entry, in order. */
  lemma AxisFieldwise(es: Required, axis: string)
    requires axis == "x" || axis == "y" || axis == "z"
    ensures AxisOf(AbsorbEntries(InitialInfo, es).coordinates, axis) == Contributed(es, AxisNamesOf(axis))
  {
    forall c, e
      ensures AxisOf(Absorb(c, e).coordinates, axis) == AxisOf(c.coordinates, axis) + AxisNamesOf(axis)(e)
    {
      if IsCoordEntry(e) {
        AbsorbCoordsAxis(c.coordinates, e.1.commonNames.value, axis);
      }
    }
    Accumulates(InitialInfo, es, (c: ColumnInfo) => AxisOf(c.coordinates, axis), AxisNamesOf(axis));
    assert AxisOf(InitialInfo.coordinates, axis) + Contributed(es, AxisNamesOf(axis)) == Contributed(es, AxisNamesOf(axis));
  }

  /** One entry extends the element and depth-interval lists by its contributions. */
  lemma ListsStep(c: ColumnInfo, e: (string, ColData))
    ensures Absorb(c, e).elements == ElementNames(c.elements.common + CommonOf(e), c.elements.patterns + PatternsOf(e))
    ensures Absorb(c, e).depthIntervals == IntervalNames(c.depthIntervals.from + FromOf(e), c.depthIntervals.to + ToOf(e))
  {
  }

  /** The common element names: accumulated from the `element_columns` entries. */
  lemma CommonFieldwise(es: Required)
    ensures AbsorbEntries(InitialInfo, es).elements.common == Contributed(es, CommonOf)
  {
    forall c, e
      ensures Absorb(c, e).elements.common == c.elements.common + CommonOf(e)
    {
      ListsStep(c, e);
    }
    Accumulates(InitialInfo, es, (c: ColumnInfo) => c.elements.common, CommonOf);
    assert [] + Contributed(es, CommonOf) == Contributed(es, CommonOf);
  }

  /** The compound patterns: accumulated from the `element_columns` entries. */
  lemma PatternsFieldwise(es: Required)
    ensures AbsorbEntries(InitialInfo, es).elements.patterns == Contributed(es, PatternsOf)
  {
    forall c, e
      ensures Absorb(c, e).elements.patterns == c.elements.patterns + PatternsOf(e)
    {
      ListsStep(c, e);
    }
    Accumulates(InitialInfo, es, (c: ColumnInfo) => c.elements.patterns, PatternsOf);
    assert [] + Contributed(es, PatternsOf) == Contributed(es, PatternsOf);
  }

  /** The interval-start names: accumulated from the `depth_intervals` entries. */
  lemma FromFieldwise(es: Required)
    ensures AbsorbEntries(InitialInfo, es).depthIntervals.from == Contributed(es, FromOf)
  {
    forall c, e
      ensures Absorb(c, e).depthIntervals.from == c.depthIntervals.from + FromOf(e)
    {
      ListsStep(c, e);
    }
    Accumulates(InitialInfo, es, (c: ColumnInfo) => c.depthIntervals.from, FromOf);
    assert [] + Contributed(es, FromOf) == Contributed(es, FromOf);
  }

  /** The interval-end names: accumulated from the `depth_intervals` entries. */
  lemma ToFieldwise(es: Required)
    ensures AbsorbEntries(InitialInfo, es).depthIntervals.to == Contributed(es, ToOf)
  {
    forall c, e
      ensures Absorb(c, e).depthIntervals.to == c.depthIntervals.to + ToOf(e)
    {
      ListsStep(c, e);
    }
    Accumulates(InitialInfo, es, (c: ColumnInfo) => c.depthIntervals.to, ToOf);
    assert [] + Contributed(es, ToOf) == Contributed(es, ToOf);
  }

  /** The entry-by-entry merge of the source and the field-by-field reference agree on every field. */
  lemma MergeIsFieldwise(es: Required)
    ensures AbsorbEntries(InitialInfo, es) == FieldwiseInfo(es)
  {
    var ci := AbsorbEntries(InitialInfo, es);
    HoleNamesFieldwise(es);
    HoleKindFieldwise(es);
    HoleTraitsFieldwise(es);
    RangedFieldwise(es, "dip");
    RangedFieldwise(es, "azimuth");
    AxisFieldwise(es, "x");
    AxisFieldwise(es, "y");
    AxisFieldwise(es, "z");
    CommonFieldwise(es);
    PatternsFieldwise(es);
    FromFieldwise(es);
    ToFieldwise(es);
  }

  /** De-duplication keeps first occurrences: what it yields for a prefix stays a prefix of what it yields for the whole. */
  lemma {:induction false} DedupPrefixStable<T(!new)>(xs: seq<T>, ys: seq<T>)
    ensures Dedup(xs) <= Dedup(xs + ys)
    decreases |ys|
  {
    if ys == [] {
      assert xs + ys == xs;
    } else {
      var init := ys[..|ys| - 1];
      DedupPrefixStable(xs, init);
      assert (xs + ys)[..|xs + ys| - 1] == xs + init;
    }
  }

  /** A list without repetitions is left as it is. */
  lemma {:induction false} DedupKeepsDistinct<T(!new)>(xs: seq<T>)
    requires NoDup(xs)
    ensures Dedup(xs) == xs
    decreases |xs|
  {
    if xs != [] {
      var init := xs[..|xs| - 1];
      assert NoDup(init);
      DedupKeepsDistinct(init);
      assert xs[|xs| - 1] !in init;
      assert init + [xs[|xs| - 1]] == xs;
    }
  }
}
