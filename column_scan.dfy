/**
 * The scanners behind `parse_column_identification_result`: one function per
 * regular expression of the parser, each written as "the first start position
 * at which the anchored pattern matches", with the pattern's backtracking
 * worked out by hand.
 */
module ColumnScan {
  import opened Wrappers
  import opened Text

  /** The label a pattern starts with: a literal, or `DEPTH\s*\(AT\):`. */
  datatype Label = Literal(text: string) | DepthAt

  const HoleLabel := Literal("HOLE NAME:")
  const DipLabel := Literal("DIP:")
  const AzimuthLabel := Literal("AZIMUTH:")
  const DensityLabel := Literal("DENSITY:")
  const LithologyLabel := Literal("LITHOLOGY CODE:")
  const CoordinatesLabel := Literal("COORDINATES:")
  const GradeLabel := Literal("GRADE COLUMNS:")
  const IntervalsLabel := Literal("DEPTH INTERVALS:")

  /** The end of the label when it matches (ignoring case) at `i`. */
  function LabelEnd(s: string, i: nat, lab: Label): (r: Option<nat>)
    ensures r.Some? ==> i < r.value <= |s|
  {
    match lab
    case Literal(t) =>
      if t != [] && MatchesAt(s, i, t) then Some(i + |t|) else None
    case DepthAt =>
      if !MatchesAt(s, i, "DEPTH") then None
      else
        var p := SkipSpace(s, i + 5);
        if MatchesAt(s, p, "(AT):") then Some(p + 5) else None
  }

  // ----- `LABEL\s*([^\s(]+)` -----

  /** The value token after the label at `i`: whitespace skipped, then a maximal run of `[^\s(]`. */
  function TokenAt(s: string, i: nat, lab: Label): (r: Option<string>)
    ensures r.Some? ==> IsToken(r.value)
  {
    match LabelEnd(s, i, lab)
    case None => None
    case Some(e) =>
      var p := SkipSpace(s, e);
      var q := RunEnd(s, p, IsTokenChar);
      if p < q then Some(s[p..q]) else None
  }

  /** A non-empty run of `[^\s(]` characters. */
  predicate IsToken(t: string) {
    t != [] && forall k :: 0 <= k < |t| ==> IsTokenChar(t[k])
  }

  function TokenMatches(s: string, lab: Label): nat -> bool {
    (i: nat) => TokenAt(s, i, lab).Some?
  }

  /** `re.search(LABEL + r'\s*([^\s(]+)', s, re.IGNORECASE).group(1)`: the token at the first position where the pattern matches. */
  function FindToken(s: string, lab: Label): (r: Option<string>)
    ensures r.Some? ==> IsToken(r.value)
    ensures r.Some? ==> exists i :: (0 <= i <= |s| && TokenAt(s, i, lab) == r
      && forall j :: 0 <= j < i ==> TokenAt(s, j, lab).None?)
    ensures r.None? <==> forall i :: 0 <= i <= |s| ==> TokenAt(s, i, lab).None?
  {
    match FirstWhere(TokenMatches(s, lab), 0, |s| + 1)
    case None =>
      assert forall i {:trigger TokenAt(s, i, lab)} :: 0 <= i <= |s| ==> !TokenMatches(s, lab)(i);
      None
    case Some(i) =>
      assert forall j {:trigger TokenAt(s, j, lab)} :: 0 <= j < i ==> !TokenMatches(s, lab)(j);
      TokenAt(s, i, lab)
  }

  /** Conversely, the token at a position where the pattern matches, with no match before it, is the one found. */
  lemma FindTokenAt(s: string, lab: Label, i: nat)
    requires i <= |s| && TokenAt(s, i, lab).Some?
    requires forall j :: 0 <= j < i ==> TokenAt(s, j, lab).None?
    ensures FindToken(s, lab) == TokenAt(s, i, lab)
  {
    FirstWhereIs(TokenMatches(s, lab), 0, |s| + 1, i);
  }

  /** The absence test applied to every single-value token: "NOT" in any case, or anything containing "FOUND". */
  predicate IsAbsenceToken(t: string) {
    UpperStr(t) == "NOT" || Contains(UpperStr(t), "FOUND")
  }

  // ----- `LABEL.*?-\s*(.+?)(?:\n|$)` with DOTALL -----

  function DashAt(s: string): nat -> bool {
    (d: nat) => d < |s| && s[d] == '-'
  }

  /** A comment as the parser keeps it: on one line, with no whitespace at either end. */
  predicate CommentShaped(c: string) {
    '\n' !in c && (c == [] || (!IsSpace(c[0]) && !IsSpace(c[|c| - 1])))
  }

  /**
   * The comment part of the pattern, from the label's end `e`: the first `-`
   * that is not the last character, then whitespace skipped, then the rest of
   * that line stripped; when only whitespace follows, the empty comment.
   */
  function CommentFrom(s: string, e: nat): Option<string>
    requires e <= |s|
  {
    if |s| == 0 then None
    else match FirstWhere(DashAt(s), e, |s| - 1)
      case None => None
      case Some(d) => Some(CommentAfter(s, d + 1))
  }

  /** No comment is read exactly when no dash before the last character follows the label. */
  lemma CommentFromNone(s: string, e: nat)
    requires e <= |s|
    ensures CommentFrom(s, e).None? <==> forall d :: e <= d < |s| - 1 ==> s[d] != '-'
  {
    if |s| > 0 && FirstWhere(DashAt(s), e, |s| - 1).None? {
      assert forall d {:trigger s[d]} :: e <= d < |s| - 1 ==> !DashAt(s)(d);
    }
  }

  /** `d` holds the first dash at or after `e`, and is not the last character. */
  predicate FirstDashAfter(s: string, e: nat, d: nat) {
    e <= d < |s| - 1 && s[d] == '-' && forall k :: e <= k < d ==> s[k] != '-'
  }

  /** A comment is read from the first dash after the label's end that is not the last character. */
  lemma CommentFromFirstDash(s: string, e: nat)
    requires e <= |s|
    ensures CommentFrom(s, e).Some? ==> exists d: nat :: FirstDashAfter(s, e, d) && CommentFrom(s, e).value == CommentAfter(s, d + 1)
  {
    var m := if |s| == 0 then None else FirstWhere(DashAt(s), e, |s| - 1);
    if m.Some? {
      CommentAtFirstDash(s, e, m.value);
    } else {
      assert CommentFrom(s, e).None?;
    }
  }

  /** The dash the search stops at is the first one, and the comment is read after it. */
  lemma CommentAtFirstDash(s: string, e: nat, d: nat)
    requires e <= |s| && |s| > 0 && FirstWhere(DashAt(s), e, |s| - 1) == Some(d)
    ensures FirstDashAfter(s, e, d) && CommentFrom(s, e) == Some(CommentAfter(s, d + 1))
  {
    assert FirstDashAfter(s, e, d) by {
      var P := DashAt(s);
      assert P(d) && forall k {:trigger s[k]} :: e <= k < d ==> !P(k);
    }
  }

  /** What follows the dash at `p - 1`: whitespace skipped, then the rest of that line stripped. */
  function CommentAfter(s: string, p: nat): string
    requires p <= |s|
  {
    var q := SkipSpace(s, p);
    if q < |s| then Strip(s[q..LineEnd(s, q)]) else []
  }

  /** The text after a dash is kept on one line and stripped. */
  lemma CommentAfterShaped(s: string, p: nat)
    requires p <= |s|
    ensures CommentShaped(CommentAfter(s, p))
  {
    var q := SkipSpace(s, p);
    if q < |s| {
      var line := s[q..LineEnd(s, q)];
      assert '\n' !in line by {
        assert forall k :: 0 <= k < |line| ==> line[k] == s[q + k];
      }
      StrippedLineShaped(line);
    }
  }

  /** A line stripped of its edge whitespace is a shaped comment. */
  lemma StrippedLineShaped(line: string)
    requires '\n' !in line
    ensures CommentShaped(Strip(line))
  {
    StripSlice(line);
    var a, b :| 0 <= a <= b <= |line| && Strip(line) == line[a..b];
    assert forall c :: c in line[a..b] ==> c in line;
  }

  function CommentMatches(s: string, lab: Label): nat -> bool {
    (i: nat) => LabelEnd(s, i, lab).Some? && CommentFrom(s, LabelEnd(s, i, lab).value).Some?
  }

  /**
   * The comment search for a label: absent exactly when no label has a usable
   * `-` after it; otherwise the comment after the first such label.
   */
  function FindComment(s: string, lab: Label): (r: Option<string>)
    ensures r.None? <==> forall i :: 0 <= i <= |s| ==> !CommentMatches(s, lab)(i)
    ensures r.Some? ==> exists i :: (0 <= i <= |s| && CommentMatches(s, lab)(i)
      && (forall j :: 0 <= j < i ==> !CommentMatches(s, lab)(j))
      && r == CommentFrom(s, LabelEnd(s, i, lab).value))
  {
    match FirstWhere(CommentMatches(s, lab), 0, |s| + 1)
    case None => None
    case Some(i) => CommentFrom(s, LabelEnd(s, i, lab).value)
  }

  /** Conversely, a label with a usable dash after it, with no label before it, gives the comment found. */
  lemma FindCommentAt(s: string, lab: Label, i: nat)
    requires i <= |s| && CommentMatches(s, lab)(i)
    requires forall j :: 0 <= j < i ==> LabelEnd(s, j, lab).None?
    ensures FindComment(s, lab) == CommentFrom(s, LabelEnd(s, i, lab).value)
  {
    FirstWhereIs(CommentMatches(s, lab), 0, |s| + 1, i);
  }

  /** A comment read after a label's end is on one line and stripped. */
  lemma CommentFromShaped(s: string, e: nat)
    requires e <= |s|
    ensures CommentFrom(s, e).Some? ==> CommentShaped(CommentFrom(s, e).value)
  {
    if |s| > 0 {
      match FirstWhere(DashAt(s), e, |s| - 1)
      case None =>
      case Some(d) => CommentAfterShaped(s, d + 1);
    }
  }

  /** A comment found for a label is on one line and stripped. */
  lemma FindCommentShaped(s: string, lab: Label)
    ensures FindComment(s, lab).Some? ==> CommentShaped(FindComment(s, lab).value)
  {
    match FirstWhere(CommentMatches(s, lab), 0, |s| + 1)
    case None =>
    case Some(i) => CommentFromShaped(s, LabelEnd(s, i, lab).value);
  }

  // ----- `\bWORD\b` -----

  /** `word` occurs at `i` ignoring case, with no word character on either side. */
  predicate WholeWordAt(s: string, i: nat, word: string) {
    MatchesAt(s, i, word)
    && (i == 0 || !IsWordChar(s[i - 1]))
    && (i + |word| == |s| || !IsWordChar(s[i + |word|]))
  }

  /** `re.search(r'\b' + re.escape(word) + r'\b', s, re.IGNORECASE)` succeeds. */
  predicate HasWholeWord(s: string, word: string) {
    exists i: nat | i <= |s| :: WholeWordAt(s, i, word)
  }

  function WordPresent(s: string, words: seq<string>): nat -> bool {
    (k: nat) => k < |words| && HasWholeWord(s, words[k])
  }

  /** The first of `words`, in list order, that occurs in the text as a whole word. */
  function FirstWholeWord(s: string, words: seq<string>): (r: Option<string>)
    ensures r.Some? ==> r.value in words && HasWholeWord(s, r.value)
    ensures r.None? <==> forall k :: 0 <= k < |words| ==> !HasWholeWord(s, words[k])
  {
    match FirstWhere(WordPresent(s, words), 0, |words|)
    case None =>
      assert forall k {:trigger words[k]} :: 0 <= k < |words| ==> !WordPresent(s, words)(k);
      None
    case Some(k) => Some(words[k])
  }

  /** The break-on-first-match loop over a synonym list: the word it stops at is `FirstWholeWord`. */
  method FindFirstWholeWord(s: string, words: seq<string>) returns (r: Option<string>)
    ensures r.Some? ==> exists k :: (0 <= k < |words| && words[k] == r.value
      && HasWholeWord(s, words[k]) && forall j :: 0 <= j < k ==> !HasWholeWord(s, words[j]))
    ensures r.None? ==> forall k :: 0 <= k < |words| ==> !HasWholeWord(s, words[k])
    ensures r == FirstWholeWord(s, words)
  {
    r := None;
    for k := 0 to |words|
      invariant forall j :: 0 <= j < k ==> !HasWholeWord(s, words[j])
    {
      if HasWholeWord(s, words[k]) {
        r := Some(words[k]);
        FirstWhereIs(WordPresent(s, words), 0, |words|, k);
        return;
      }
    }
  }

  // ----- `COORDINATES:.*?X=([^\s,=]+),?\s*Y=([^\s,=]+),?\s*Z=([^\s(,=]+)` -----

  predicate IsCoordChar(c: char) {
    !IsSpace(c) && c != ',' && c != '='
  }

  predicate IsLastCoordChar(c: char) {
    IsCoordChar(c) && c != '('
  }

  /**
   * A value group `[^\s,=]+` starting at `g`, followed by `,?\s*A=` for the next
   * axis letter `axis`: the group's end and where the next value starts.  The
   * group is the maximal run, except when the run is glued to the next label
   * (`X=12Y=`), where the axis letter is given back.
   */
  function AxisStep(s: string, g: nat, axis: char): (r: Option<(nat, nat)>)
    requires g <= |s|
    ensures r.Some? ==> g < r.value.0 < r.value.1 <= |s|
    ensures r.Some? ==> forall k :: g <= k < r.value.0 ==> IsCoordChar(s[k])
    ensures r.Some? ==> Lower(s[r.value.1 - 2]) == Lower(axis) && s[r.value.1 - 1] == '='
  {
    var run := RunEnd(s, g, IsCoordChar);
    if run == g || run == |s| then None
    else if s[run] == ',' || IsSpace(s[run]) then
      var p := SkipSpace(s, if s[run] == ',' then run + 1 else run);
      if MatchesAt(s, p, [axis, '=']) then
        assert MatchesFrom(s, p, [axis, '='], 1);
        assert Lower(s[p + 1]) == Lower('=');
        Some((run, p + 2))
      else None
    else if run - 1 > g && Lower(s[run - 1]) == Lower(axis) then Some((run - 1, run + 1))
    else None
  }

  /** The rest of the coordinates pattern, from the start of the Y value: the Y and Z columns. */
  function CoordTailAt(s: string, g: nat): (r: Option<(string, string)>)
    requires g <= |s|
    ensures r.Some? ==> r.value.0 != [] && r.value.1 != []
  {
    match AxisStep(s, g, 'Z')
    case None => None
    case Some((e2, g3)) =>
      var e3 := RunEnd(s, g3, IsLastCoordChar);
      if g3 < e3 then Some((s[g..e2], s[g3..e3])) else None
  }

  /** The three coordinate columns named by `X=..Y=..Z=..` starting at `j`. */
  function CoordAt(s: string, j: nat): (r: Option<(string, string, string)>)
    ensures r.Some? ==> r.value.0 != [] && r.value.1 != [] && r.value.2 != []
  {
    if !MatchesAt(s, j, "X=") then None
    else match AxisStep(s, j + 2, 'Y')
      case None => None
      case Some((e1, g2)) =>
        match CoordTailAt(s, g2)
        case None => None
        case Some((y, z)) => Some((s[j + 2..e1], y, z))
  }

  function CoordStarts(s: string): nat -> bool {
    (j: nat) => CoordAt(s, j).Some?
  }

  /** The lazy `.*?` (no DOTALL) tries start positions up to the end of the label's line. */
  function CoordFrom(s: string, e: nat): Option<(string, string, string)>
    requires e <= |s|
  {
    match FirstWhere(CoordStarts(s), e, LineEnd(s, e) + 1)
    case None => None
    case Some(j) => CoordAt(s, j)
  }

  /**
   * The lazy `.*?` gives the names of the first start on the label's line where
   * `X=..Y=..Z=..` matches, and fails exactly when there is none.
   */
  lemma CoordFromFirstStart(s: string, e: nat)
    requires e <= |s|
    ensures CoordFrom(s, e).None? <==> forall j :: e <= j <= LineEnd(s, e) ==> CoordAt(s, j).None?
    ensures CoordFrom(s, e).Some? ==> exists j :: (e <= j <= LineEnd(s, e) && CoordAt(s, j) == CoordFrom(s, e)
      && forall k :: e <= k < j ==> CoordAt(s, k).None?)
  {
    match FirstWhere(CoordStarts(s), e, LineEnd(s, e) + 1)
    case None =>
      assert forall j {:trigger CoordAt(s, j)} :: e <= j <= LineEnd(s, e) ==> !CoordStarts(s)(j);
    case Some(j) =>
      assert forall k {:trigger CoordAt(s, k)} :: e <= k < j ==> !CoordStarts(s)(k);
  }

  function CoordMatches(s: string): nat -> bool {
    (i: nat) => LabelEnd(s, i, CoordinatesLabel).Some? && CoordFrom(s, LabelEnd(s, i, CoordinatesLabel).value).Some?
  }

  /**
   * The combined coordinates pattern: no match exactly when no label is followed
   * on its line by the pattern; otherwise the three non-empty names read after
   * the first label that is.
   */
  function FindCoordinates(s: string): (r: Option<(string, string, string)>)
    ensures r.Some? ==> r.value.0 != [] && r.value.1 != [] && r.value.2 != []
    ensures r.None? <==> forall i :: 0 <= i <= |s| ==> !CoordMatches(s)(i)
    ensures r.Some? ==> exists i :: (0 <= i <= |s| && CoordMatches(s)(i)
      && (forall j :: 0 <= j < i ==> !CoordMatches(s)(j))
      && r == CoordFrom(s, LabelEnd(s, i, CoordinatesLabel).value))
  {
    match FirstWhere(CoordMatches(s), 0, |s| + 1)
    case None => None
    case Some(i) =>
      assert CoordMatches(s)(i) && forall j :: 0 <= j < i ==> !CoordMatches(s)(j);
      CoordFrom(s, LabelEnd(s, i, CoordinatesLabel).value)
  }

  // ----- `DEPTH INTERVALS:.*?FROM=([^\s,]+),?\s*TO=([^\s(]+)` -----

  predicate IsFromChar(c: char) {
    !IsSpace(c) && c != ','
  }

  /** `TO=([^\s(]+)` anchored at `k`. */
  function ToValueAt(s: string, k: nat): (r: Option<string>)
    ensures r.Some? ==> IsToken(r.value)
  {
    if !MatchesAt(s, k, "TO=") then None
    else
      var q := RunEnd(s, k + 3, IsTokenChar);
      if k + 3 < q then Some(s[k + 3..q]) else None
  }

  /** Backtracking into the FROM group: ends `k`, `k - 1`, ... down to one character, where `TO=` follows directly. */
  function ShrinkFrom(s: string, g: nat, k: nat): (r: Option<(string, string)>)
    requires g <= k <= |s|
    ensures r.Some? ==> r.value.0 != [] && IsToken(r.value.1)
    decreases k
  {
    if k <= g then None
    else match ToValueAt(s, k)
      case Some(t) => Some((s[g..k], t))
      case None => ShrinkFrom(s, g, k - 1)
  }

  /** The FROM and TO column names of the pattern tried at `j`. */
  function IntervalAt(s: string, j: nat): (r: Option<(string, string)>)
    ensures r.Some? ==> r.value.0 != [] && IsToken(r.value.1)
  {
    if !MatchesAt(s, j, "FROM=") then None
    else
      var g := j + 5;
      var run := RunEnd(s, g, IsFromChar);
      if run == g then None
      else
        var whole := if run == |s| then None
          else ToValueAt(s, SkipSpace(s, if s[run] == ',' then run + 1 else run));
        if whole.Some? then Some((s[g..run], whole.value)) else ShrinkFrom(s, g, run - 1)
  }

  function IntervalStarts(s: string): nat -> bool {
    (j: nat) => IntervalAt(s, j).Some?
  }

  function IntervalFrom(s: string, e: nat): Option<(string, string)>
    requires e <= |s|
  {
    match FirstWhere(IntervalStarts(s), e, LineEnd(s, e) + 1)
    case None => None
    case Some(j) => IntervalAt(s, j)
  }

  /**
   * The lazy `.*?` gives the names of the first start on the label's line where
   * `FROM=..TO=..` matches, and fails exactly when there is none.
   */
  lemma IntervalFromFirstStart(s: string, e: nat)
    requires e <= |s|
    ensures IntervalFrom(s, e).None? <==> forall j :: e <= j <= LineEnd(s, e) ==> IntervalAt(s, j).None?
    ensures IntervalFrom(s, e).Some? ==> exists j :: (e <= j <= LineEnd(s, e) && IntervalAt(s, j) == IntervalFrom(s, e)
      && forall k :: e <= k < j ==> IntervalAt(s, k).None?)
  {
    match FirstWhere(IntervalStarts(s), e, LineEnd(s, e) + 1)
    case None =>
      assert forall j {:trigger IntervalAt(s, j)} :: e <= j <= LineEnd(s, e) ==> !IntervalStarts(s)(j);
    case Some(j) =>
      assert forall k {:trigger IntervalAt(s, k)} :: e <= k < j ==> !IntervalStarts(s)(k);
  }

  function IntervalMatches(s: string): nat -> bool {
    (i: nat) => LabelEnd(s, i, IntervalsLabel).Some? && IntervalFrom(s, LabelEnd(s, i, IntervalsLabel).value).Some?
  }

  /**
   * The DEPTH INTERVALS pattern: no match exactly when no label is followed on
   * its line by the pattern; otherwise the FROM and TO names read after the
   * first label that is.
   */
  function FindIntervals(s: string): (r: Option<(string, string)>)
    ensures r.Some? ==> r.value.0 != [] && IsToken(r.value.1)
    ensures r.None? <==> forall i :: 0 <= i <= |s| ==> !IntervalMatches(s)(i)
    ensures r.Some? ==> exists i :: (0 <= i <= |s| && IntervalMatches(s)(i)
      && (forall j :: 0 <= j < i ==> !IntervalMatches(s)(j))
      && r == IntervalFrom(s, LabelEnd(s, i, IntervalsLabel).value))
  {
    match FirstWhere(IntervalMatches(s), 0, |s| + 1)
    case None => None
    case Some(i) =>
      assert IntervalMatches(s)(i) && forall j :: 0 <= j < i ==> !IntervalMatches(s)(j);
      IntervalFrom(s, LabelEnd(s, i, IntervalsLabel).value)
  }

  // ----- `GRADE COLUMNS:\s*(?:\[([^\]]+)\]|([^\s(]+))` -----

  /** Which alternative of the grade pattern matched, with its group. */
  datatype GradeMatch = Bracketed(inner: string) | Bare(token: string)

  function GradeAt(s: string, i: nat): (r: Option<GradeMatch>)
    ensures r.Some? && r.value.Bracketed? ==> r.value.inner != [] && ']' !in r.value.inner
    ensures r.Some? && r.value.Bare? ==> IsToken(r.value.token)
  {
    match LabelEnd(s, i, GradeLabel)
    case None => None
    case Some(e) =>
      var p := SkipSpace(s, e);
      var close := if p < |s| && s[p] == '[' then RunEnd(s, p + 1, Not(']')) else p;
      if p < |s| && s[p] == '[' && p + 1 < close < |s| then
        var inner := s[p + 1..close];
        assert forall k :: 0 <= k < |inner| ==> inner[k] == s[p + 1 + k];
        Some(Bracketed(inner))
      else
        var q := RunEnd(s, p, IsTokenChar);
        if p < q then Some(Bare(s[p..q])) else None
  }

  function GradeMatches(s: string): nat -> bool {
    (i: nat) => GradeAt(s, i).Some?
  }

  /** The grade pattern: the match at the first position where either alternative matches, or none. */
  function FindGrades(s: string): (r: Option<GradeMatch>)
    ensures r.Some? && r.value.Bracketed? ==> r.value.inner != [] && ']' !in r.value.inner
    ensures r.Some? && r.value.Bare? ==> IsToken(r.value.token)
    ensures r.None? <==> forall i :: 0 <= i <= |s| ==> GradeAt(s, i).None?
    ensures r.Some? ==> exists i :: (0 <= i <= |s| && GradeAt(s, i) == r
      && forall j :: 0 <= j < i ==> GradeAt(s, j).None?)
  {
    match FirstWhere(GradeMatches(s), 0, |s| + 1)
    case None =>
      assert forall i {:trigger GradeAt(s, i)} :: 0 <= i <= |s| ==> !GradeMatches(s)(i);
      None
    case Some(i) =>
      assert forall j {:trigger GradeAt(s, j)} :: 0 <= j < i ==> !GradeMatches(s)(j);
      GradeAt(s, i)
  }

  predicate IsQuote(c: char) {
    c == '"' || c == '\''
  }

  /** The bracketed list keeps an item when it is not blank and does not mention NOT FOUND in any case. */
  predicate KeepsBracketItem(g: string) {
    Strip(g) != [] && !Contains(UpperStr(g), "NOT FOUND")
  }

  /** A kept bracketed item is trimmed, then stripped of quote characters. */
  function BracketValue(g: string): string {
    StripBy(Strip(g), IsQuote)
  }

  /** The list comprehension over the comma-separated pieces of the bracketed group. */
  function KeepBracketItems(parts: seq<string>): (r: seq<string>)
    ensures |r| <= |parts|
    ensures forall k :: 0 <= k < |r| ==> !Contains(UpperStr(r[k]), "NOT FOUND")
  {
    if parts == [] then []
    else
      var rest := KeepBracketItems(parts[1..]);
      if KeepsBracketItem(parts[0]) then
        BracketValueMentionsLess(parts[0]);
        [BracketValue(parts[0])] + rest
      else rest
  }

  /** Trimming and quote-stripping only cut the ends, so a value mentions NOT FOUND only if its piece did. */
  lemma BracketValueMentionsLess(g: string)
    ensures Contains(UpperStr(BracketValue(g)), "NOT FOUND") ==> Contains(UpperStr(g), "NOT FOUND")
  {
    var t := Strip(g);
    StripSlice(g);
    StripBySlice(t, IsQuote);
    var a, b :| 0 <= a <= b <= |g| && t == g[a..b];
    var c, d :| 0 <= c <= d <= |t| && BracketValue(g) == t[c..d];
    ContainsUpperSlice(t, c, d, "NOT FOUND");
    ContainsUpperSlice(g, a, b, "NOT FOUND");
  }

  /** The bracketed list holds exactly the cleaned values of the pieces that pass the filter. */
  lemma {:induction false} BracketItemsExactly(parts: seq<string>)
    ensures forall k :: 0 <= k < |parts| && KeepsBracketItem(parts[k]) ==> BracketValue(parts[k]) in KeepBracketItems(parts)
    ensures forall x :: x in KeepBracketItems(parts) ==>
      exists k :: 0 <= k < |parts| && KeepsBracketItem(parts[k]) && x == BracketValue(parts[k])
  {
    if parts != [] {
      var tail := parts[1..];
      BracketItemsExactly(tail);
      var r := KeepBracketItems(parts);
      var rest := KeepBracketItems(tail);
      assert r == (if KeepsBracketItem(parts[0]) then [BracketValue(parts[0])] else []) + rest;
      forall k | 0 <= k < |parts| && KeepsBracketItem(parts[k])
        ensures BracketValue(parts[k]) in r
      {
        if k > 0 {
          assert parts[k] == tail[k - 1];
        }
      }
      forall x | x in r
        ensures exists k :: 0 <= k < |parts| && KeepsBracketItem(parts[k]) && x == BracketValue(parts[k])
      {
        if x in rest {
          var j :| 0 <= j < |tail| && KeepsBracketItem(tail[j]) && x == BracketValue(tail[j]);
          assert parts[j + 1] == tail[j];
        } else {
          assert KeepsBracketItem(parts[0]) && x == BracketValue(parts[0]);
        }
      }
    }
  }

  /** The bare form keeps every non-blank comma-separated piece of the token. */
  function KeepBareItems(parts: seq<string>): (r: seq<string>)
    ensures |r| <= |parts|
    ensures forall k :: 0 <= k < |r| ==> r[k] != []
  {
    if parts == [] then []
    else
      var rest := KeepBareItems(parts[1..]);
      if Strip(parts[0]) != [] then [Strip(parts[0])] + rest else rest
  }

  /** The bare list holds exactly the non-blank pieces, trimmed. */
  lemma {:induction false} BareItemsExactly(parts: seq<string>)
    ensures forall k :: 0 <= k < |parts| && Strip(parts[k]) != [] ==> Strip(parts[k]) in KeepBareItems(parts)
    ensures forall x :: x in KeepBareItems(parts) ==> exists k :: 0 <= k < |parts| && x == Strip(parts[k])
  {
    if parts != [] {
      var tail := parts[1..];
      BareItemsExactly(tail);
      var r := KeepBareItems(parts);
      var rest := KeepBareItems(tail);
      assert r == (if Strip(parts[0]) != [] then [Strip(parts[0])] else []) + rest;
      forall k | 0 <= k < |parts| && Strip(parts[k]) != []
        ensures Strip(parts[k]) in r
      {
        if k > 0 {
          assert parts[k] == tail[k - 1];
        }
      }
      forall x | x in r
        ensures exists k :: 0 <= k < |parts| && x == Strip(parts[k])
      {
        if x in rest {
          var j :| 0 <= j < |tail| && x == Strip(tail[j]);
          assert parts[j + 1] == tail[j];
        }
      }
    }
  }

  /** The grade list a grade match yields. The bare form's own NOT FOUND check can never fire (see `BareTokenNeverNotFound`). */
  function GradeList(m: GradeMatch): seq<string> {
    match m
    case Bracketed(inner) => KeepBracketItems(Split(inner, ','))
    case Bare(token) =>
      if Contains(UpperStr(token), "NOT FOUND") then [] else KeepBareItems(Split(token, ','))
  }
}
