/**
 * The column names the parser reads hold no space, because every pattern that
 * yields one takes it from a run of non-space characters or from a fixed word
 * list.  Grade columns are the exception: a bracketed list may name a column
 * with a space in it.
 */
module ColumnNames {
  import opened Wrappers
  import opened Text
  import opened ColumnScan
  import opened ColumnParser

  /** A column slot holds no space, or holds nothing. */
  predicate Spaceless(v: Option<string>) {
    v.Some? ==> ' ' !in v.value
  }

  /** A non-empty token is a run of non-space characters. */
  lemma TokenSpaceless(t: string)
    requires IsToken(t)
    ensures Spaceless(Some(t))
  {
    assert forall k :: 0 <= k < |t| ==> IsTokenChar(t[k]);
  }

  /** The backtracking FROM group is a prefix of the text from `g` that ends by `k`. */
  lemma {:induction false} ShrinkFromSlice(s: string, g: nat, k: nat)
    requires g <= k <= |s|
    ensures var r := ShrinkFrom(s, g, k);
      r.Some? ==> g + |r.value.0| <= k && r.value.0 == s[g..g + |r.value.0|]
    decreases k
  {
    if g < k && ToValueAt(s, k).None? {
      ShrinkFromSlice(s, g, k - 1);
    }
  }

  /** The FROM name of the intervals pattern is cut from a run of `[^\s,]`, so it holds no space. */
  lemma IntervalNamesSpaceless(s: string, j: nat)
    ensures IntervalAt(s, j).Some? ==> Spaceless(Some(IntervalAt(s, j).value.0)) && IsToken(IntervalAt(s, j).value.1)
  {
    if IntervalAt(s, j).Some? {
      var g := j + 5;
      var run := RunEnd(s, g, IsFromChar);
      ShrinkFromSlice(s, g, run - 1);
      var name := IntervalAt(s, j).value.0;
      assert g + |name| <= run && name == s[g..g + |name|];
      assert forall k :: 0 <= k < |name| ==> name[k] == s[g + k] && IsFromChar(s[g + k]);
    }
  }

  /** The value group before the next axis label is a run of `[^\s,=]`, so it holds no space. */
  lemma AxisValueSpaceless(s: string, g: nat, axis: char)
    requires g <= |s| && AxisStep(s, g, axis).Some?
    ensures Spaceless(Some(s[g..AxisStep(s, g, axis).value.0]))
  {
    var e := AxisStep(s, g, axis).value.0;
    assert forall k :: 0 <= k < e - g ==> s[g..e][k] == s[g + k] && IsCoordChar(s[g + k]);
  }

  /** The Z group is a run of `[^\s(,=]`, so it holds no space. */
  lemma LastValueSpaceless(s: string, g: nat)
    requires g <= |s|
    ensures Spaceless(Some(s[g..RunEnd(s, g, IsLastCoordChar)]))
  {
    var e := RunEnd(s, g, IsLastCoordChar);
    assert forall k :: 0 <= k < e - g ==> s[g..e][k] == s[g + k] && IsLastCoordChar(s[g + k]);
  }

  /** The three coordinate names are cut from runs of `[^\s,=]`, so none holds a space. */
  lemma CoordNamesSpaceless(s: string, j: nat)
    ensures var r := CoordAt(s, j);
      r.Some? ==> Spaceless(Some(r.value.0)) && Spaceless(Some(r.value.1)) && Spaceless(Some(r.value.2))
  {
    if CoordAt(s, j).Some? {
      var (e1, g2) := AxisStep(s, j + 2, 'Y').value;
      var (e2, g3) := AxisStep(s, g2, 'Z').value;
      AxisValueSpaceless(s, j + 2, 'Y');
      AxisValueSpaceless(s, g2, 'Z');
      LastValueSpaceless(s, g3);
    }
  }

  /** The intervals pattern, when it matches, names a FROM and a TO column without spaces. */
  lemma FoundIntervalsSpaceless(s: string)
    ensures FindIntervals(s).Some? ==>
      Spaceless(Some(FindIntervals(s).value.0)) && Spaceless(Some(FindIntervals(s).value.1))
  {
    if FindIntervals(s).Some? {
      var i :| 0 <= i <= |s| && IntervalMatches(s)(i) && FindIntervals(s) == IntervalFrom(s, LabelEnd(s, i, IntervalsLabel).value);
      var e := LabelEnd(s, i, IntervalsLabel).value;
      IntervalFromFirstStart(s, e);
      var j :| e <= j <= LineEnd(s, e) && IntervalAt(s, j) == IntervalFrom(s, e);
      IntervalNamesSpaceless(s, j);
      TokenSpaceless(FindIntervals(s).value.1);
    }
  }

  /** The coordinates pattern, when it matches, names three columns without spaces. */
  lemma FoundCoordinatesSpaceless(s: string)
    ensures var r := FindCoordinates(s);
      r.Some? ==> Spaceless(Some(r.value.0)) && Spaceless(Some(r.value.1)) && Spaceless(Some(r.value.2))
  {
    if FindCoordinates(s).Some? {
      var i :| 0 <= i <= |s| && CoordMatches(s)(i) && FindCoordinates(s) == CoordFrom(s, LabelEnd(s, i, CoordinatesLabel).value);
      var e := LabelEnd(s, i, CoordinatesLabel).value;
      CoordFromFirstStart(s, e);
      var j :| e <= j <= LineEnd(s, e) && CoordAt(s, j) == CoordFrom(s, e);
      CoordNamesSpaceless(s, j);
    }
  }

  /** A word picked from a list of words without spaces holds no space. */
  lemma WordFromListSpaceless(s: string, words: seq<string>)
    requires forall k :: 0 <= k < |words| ==> ' ' !in words[k]
    ensures Spaceless(FirstWholeWord(s, words))
  {
  }

  /** A single-value slot holds a token or nothing. */
  lemma SingleSlotSpaceless(s: string, lab: Label)
    ensures Spaceless(SingleSlot(s, lab).found)
  {
    if FindToken(s, lab).Some? {
      TokenSpaceless(FindToken(s, lab).value);
    }
  }

  /** The depth slot holds a token or one of the depth words. */
  lemma DepthSlotSpaceless(s: string)
    ensures Spaceless(DepthSlot(s).found)
  {
    if FindToken(s, DepthAt).Some? {
      TokenSpaceless(FindToken(s, DepthAt).value);
    } else {
      WordFromListSpaceless(s, DepthWords);
    }
  }

  /** The coordinates slot holds the names the pattern reads, or axis words. */
  lemma CoordinatesSlotSpaceless(s: string)
    ensures var c := CoordinatesSlot(s); Spaceless(c.x) && Spaceless(c.y) && Spaceless(c.z)
  {
    var c := CoordinatesSlot(s);
    if FindCoordinates(s).Some? {
      FoundCoordinatesSpaceless(s);
    } else {
      assert c.x == FirstWholeWord(s, XWords) && c.y == FirstWholeWord(s, YWords) && c.z == FirstWholeWord(s, ZWords);
      AxisWordsSpaceless();
      WordFromListSpaceless(s, XWords);
      WordFromListSpaceless(s, YWords);
      WordFromListSpaceless(s, ZWords);
    }
  }

  /** No axis synonym holds a space. */
  lemma AxisWordsSpaceless()
    ensures forall k :: 0 <= k < |XWords| ==> ' ' !in XWords[k]
    ensures forall k :: 0 <= k < |YWords| ==> ' ' !in YWords[k]
    ensures forall k :: 0 <= k < |ZWords| ==> ' ' !in ZWords[k]
  {
  }

  /** The FROM and TO slots hold the names the intervals pattern reads, or nothing. */
  lemma IntervalSlotsSpaceless(s: string)
    ensures Spaceless(IntervalSlots(s).0.found) && Spaceless(IntervalSlots(s).1.found)
  {
    FoundIntervalsSpaceless(s);
  }

  /**
   * Every column a non-empty parse puts outside the grade list holds no space:
   * the tokens, the depth and axis words, and the names the coordinates and
   * intervals patterns read.
   */
  lemma ParsedColumnsSpaceless(s: string)
    requires s != []
    ensures var p := ParseSpec(s).value;
      Spaceless(p.holeId.found) && Spaceless(p.dip.found) && Spaceless(p.azimuth.found)
      && Spaceless(p.depth.found) && Spaceless(p.density.found) && Spaceless(p.lithology.found)
      && Spaceless(p.depthFrom.found) && Spaceless(p.depthTo.found)
      && Spaceless(p.coordinates.x) && Spaceless(p.coordinates.y) && Spaceless(p.coordinates.z)
  {
    var p := ParseSpec(s).value;
    assert p.holeId == SingleSlot(s, HoleLabel) && p.dip == SingleSlot(s, DipLabel)
      && p.azimuth == SingleSlot(s, AzimuthLabel) && p.density == SingleSlot(s, DensityLabel)
      && p.lithology == SingleSlot(s, LithologyLabel) && p.depth == DepthSlot(s)
      && p.coordinates == CoordinatesSlot(s) && p.depthFrom == IntervalSlots(s).0 && p.depthTo == IntervalSlots(s).1;
    SingleSlotSpaceless(s, HoleLabel);
    SingleSlotSpaceless(s, DipLabel);
    SingleSlotSpaceless(s, AzimuthLabel);
    SingleSlotSpaceless(s, DensityLabel);
    SingleSlotSpaceless(s, LithologyLabel);
    DepthSlotSpaceless(s);
    CoordinatesSlotSpaceless(s);
    IntervalSlotsSpaceless(s);
  }
}
