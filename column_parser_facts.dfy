/**
 * What the column-identification parser reads back from the line formats the
 * stage is asked to produce, and the edge cases where its tolerant scanning
 * gives surprising answers.
 */
module ColumnParserFacts {
  import opened Wrappers
  import opened Text
  import opened ColumnScan
  import opened ColumnParser

  /** No label starts inside such a prefix, whatever follows it. */
  lemma NoLabelInPrefix(pre: string, s: string, lit: string)
    requires NoLabelBefore(pre, lit) && pre <= s
    ensures forall i :: 0 <= i < |pre| ==> LabelEnd(s, i, Literal(lit)).None?
  {
    forall i | 0 <= i < |pre|
      ensures !MatchesAt(s, i, lit)
    {
      NoLabelAt(pre, s, lit, i);
    }
  }

  /** The label written after `pre` is matched there. */
  lemma LabelAfter(pre: string, lit: string, s: string, n: nat)
    requires lit != [] && pre + lit <= s && n == |pre| + |lit|
    ensures MatchesAt(s, |pre|, lit) && LabelEnd(s, |pre|, Literal(lit)) == Some(n)
  {
    assert s[|pre|..|pre| + |lit|] == lit by {
      assert s[..|pre| + |lit|] == pre + lit;
      assert s[|pre|..|pre| + |lit|] == (pre + lit)[|pre|..];
    }
    OccursMatchesFrom(s, |pre|, lit, 0);
  }

  /** A label after the prefix `pre`, one space and a token: where the label, the space and the token sit. */
  lemma LeadingLabelLayout(pre: string, lit: string, t: string, tail: string)
    requires lit != [] && IsToken(t)
    requires tail == [] || !IsTokenChar(tail[0])
    ensures var s := pre + lit + " " + t + tail; var n := |pre| + |lit|;
      MatchesAt(s, |pre|, lit) && s[n + 1] == t[0]
      && SkipSpace(s, n) == n + 1
      && RunEnd(s, n + 1, IsTokenChar) == n + 1 + |t|
      && s[n + 1..n + 1 + |t|] == t
  {
    var s := pre + lit + " " + t + tail;
    var n := |pre| + |lit|;
    MiddleOf(pre + lit + " ", t, tail);
    LabelAfter(pre, lit, s, n);
    assert SkipSpace(s, n) == n + 1 by {
      assert s[n] == ' ';
      assert RunEnd(s, n + 1, IsSpace) == n + 1;
    }
    assert RunEnd(s, n + 1, IsTokenChar) == n + 1 + |t| by {
      assert n + 1 + |t| < |s| ==> s[n + 1 + |t|] == tail[0];
    }
  }

  /** The first label, after label-free lines, one space and a token: the token is what the search returns. */
  lemma LeadingLabelToken(pre: string, lit: string, t: string, tail: string)
    requires lit != [] && IsToken(t) && NoLabelBefore(pre, lit)
    requires tail == [] || !IsTokenChar(tail[0])
    ensures FindToken(pre + lit + " " + t + tail, Literal(lit)) == Some(t)
  {
    var s := pre + lit + " " + t + tail;
    assert TokenAt(s, |pre|, Literal(lit)) == Some(t) by {
      LeadingLabelLayout(pre, lit, t, tail);
    }
    assert forall j :: 0 <= j < |pre| ==> TokenAt(s, j, Literal(lit)).None? by {
      assert pre <= s;
      NoLabelInPrefix(pre, s, lit);
    }
    FindTokenAt(s, Literal(lit), |pre|);
  }

  /**
   * From `e`, a dash preceded by no other dash and followed by one space and a
   * single-line comment with no whitespace at either end, which ends the text or
   * its line: that comment is read.
   */
  lemma CommentAfterDash(s: string, e: nat, d: nat, c: string, tail: string)
    requires e <= d < |s| && s[d] == '-'
    requires forall k :: e <= k < d ==> s[k] != '-'
    requires s[d + 1..] == " " + c + tail
    requires c != [] && '\n' !in c && !IsSpace(c[0]) && !IsSpace(c[|c| - 1])
    requires tail == [] || tail[0] == '\n'
    ensures CommentFrom(s, e) == Some(c)
  {
    var g := d + 2;
    var l := g + |c|;
    assert |s| == l + |tail|;
    assert FirstWhere(DashAt(s), e, |s| - 1) == Some(d) by {
      FirstWhereIs(DashAt(s), e, |s| - 1, d);
    }
    assert SkipSpace(s, d + 1) == g by {
      assert s[d + 1] == ' ' && s[g] == c[0];
      assert RunEnd(s, g, IsSpace) == g;
    }
    assert LineEnd(s, g) == l && s[g..l] == c by {
      DashTail(s, d, g, l, c, tail);
    }
    assert Strip(s[g..l]) == c by {
      StripNoEdgeSpace(c);
    }
    CommentAfterParts(s, d, g, l, c);
    CommentFromParts(s, e, d, c);
  }

  /** After the dash and its space, the comment runs to the end of its line. */
  lemma DashTail(s: string, d: nat, g: nat, l: nat, c: string, tail: string)
    requires d < |s| && s[d + 1..] == " " + c + tail && '\n' !in c
    requires tail == [] || tail[0] == '\n'
    requires g == d + 2 && l == g + |c|
    ensures l <= |s| && LineEnd(s, g) == l && s[g..l] == c
  {
    assert forall k :: g <= k < l ==> s[k] == c[k - g];
    assert l < |s| ==> s[l] == tail[0];
  }

  /** `CommentFrom` assembled from its steps: the dash, then the comment after it. */
  lemma CommentFromParts(s: string, e: nat, d: nat, c: string)
    requires e <= d && d + 2 < |s|
    requires FirstWhere(DashAt(s), e, |s| - 1) == Some(d) && CommentAfter(s, d + 1) == c
    ensures CommentFrom(s, e) == Some(c)
  {
  }

  /** The comment after the dash: the skipped space, then the line. */
  lemma CommentAfterParts(s: string, d: nat, g: nat, l: nat, c: string)
    requires g == d + 2 && g < |s| && g <= l <= |s|
    requires SkipSpace(s, d + 1) == g
    requires LineEnd(s, g) == l && Strip(s[g..l]) == c
    ensures CommentAfter(s, d + 1) == c
  {
  }

  /** The first label, after label-free lines, then text with no dash, then `- <comment>` ending the text or its line: the comment is read. */
  lemma LeadingLabelComment(pre: string, lit: string, u: string, c: string, tail: string)
    requires lit != [] && '-' !in u && NoLabelBefore(pre, lit)
    requires c != [] && '\n' !in c && !IsSpace(c[0]) && !IsSpace(c[|c| - 1])
    requires tail == [] || tail[0] == '\n'
    ensures FindComment(pre + lit + u + ("- " + c + tail), Literal(lit)) == Some(c)
  {
    var s := pre + lit + u + ("- " + c + tail);
    var n := |pre| + |lit|;
    assert CommentFrom(s, n) == Some(c) by {
      DashAfterLabel(pre, lit, u, c, tail, n);
    }
    assert LabelEnd(s, |pre|, Literal(lit)) == Some(n) by {
      LabelAfter(pre, lit, s, n);
    }
    assert forall j :: 0 <= j < |pre| ==> LabelEnd(s, j, Literal(lit)).None? by {
      assert pre <= s;
      NoLabelInPrefix(pre, s, lit);
    }
    FindCommentAt(s, Literal(lit), |pre|);
  }

  /** After `pre` and the label, text with no dash, then `- <comment>` ending the text or its line: the comment is read from the label's end. */
  lemma DashAfterLabel(pre: string, lit: string, u: string, c: string, tail: string, n: nat)
    requires n == |pre| + |lit| && '-' !in u
    requires c != [] && '\n' !in c && !IsSpace(c[0]) && !IsSpace(c[|c| - 1])
    requires tail == [] || tail[0] == '\n'
    ensures CommentFrom(pre + lit + u + ("- " + c + tail), n) == Some(c)
  {
    var s := pre + lit + u + ("- " + c + tail);
    var d := n + |u|;
    assert s[d] == '-' && s[d + 1..] == " " + c + tail by {
      MiddleOf(pre + lit, u, "- " + c + tail);
    }
    forall k | n <= k < d
      ensures s[k] != '-'
    {
      MiddleOf(pre + lit, u, "- " + c + tail);
      assert s[k] == u[k - n];
    }
    CommentAfterDash(s, n, d, c, tail);
  }

  /**
   * The line format `LABEL: <column><middle>- <comment>` asked of the stage, for
   * example `HOLE NAME: DHID (confidence: high) - unique id`, after lines that do
   * not hold the label and ending the text or followed by further lines, is read
   * back exactly: the column, and the comment after the dash.  Neither the
   * column nor the middle may hold a dash: the lazy `.*?-` stops at the first one.
   */
  lemma SingleFieldRoundTrip(pre: string, lit: string, t: string, m: string, c: string, tail: string)
    requires lit != [] && NoLabelBefore(pre, lit)
    requires IsToken(t) && '-' !in t && !IsAbsenceToken(t)
    requires m != [] && !IsTokenChar(m[0]) && '-' !in m
    requires c != [] && '\n' !in c && !IsSpace(c[0]) && !IsSpace(c[|c| - 1])
    requires tail == [] || tail[0] == '\n'
    ensures SingleSlot(pre + lit + " " + t + m + "- " + c + tail, Literal(lit)) == Slot(Some(t), c)
  {
    FieldLineToken(pre, lit, t, m, c, tail);
    FieldLineComment(pre, lit, t, m, c, tail);
    SlotOfParts(pre + lit + " " + t + m + "- " + c + tail, Literal(lit), t, c);
  }

  /** The field line's column is the token after the label. */
  lemma FieldLineToken(pre: string, lit: string, t: string, m: string, c: string, tail: string)
    requires lit != [] && NoLabelBefore(pre, lit) && IsToken(t) && m != [] && !IsTokenChar(m[0])
    ensures FindToken(pre + lit + " " + t + m + "- " + c + tail, Literal(lit)) == Some(t)
  {
    FieldLineShapes(pre, lit, t, m, c, tail);
    LeadingLabelToken(pre, lit, t, m + "- " + c + tail);
  }

  /** The field line's comment is the text after the dash. */
  lemma FieldLineComment(pre: string, lit: string, t: string, m: string, c: string, tail: string)
    requires lit != [] && NoLabelBefore(pre, lit) && '-' !in t && '-' !in m
    requires c != [] && '\n' !in c && !IsSpace(c[0]) && !IsSpace(c[|c| - 1])
    requires tail == [] || tail[0] == '\n'
    ensures FindComment(pre + lit + " " + t + m + "- " + c + tail, Literal(lit)) == Some(c)
  {
    FieldLineShapes(pre, lit, t, m, c, tail);
    assert '-' !in " " + t + m;
    LeadingLabelComment(pre, lit, " " + t + m, c, tail);
  }

  /** A token that is no absence, with its comment, fills the slot. */
  lemma SlotOfParts(s: string, lab: Label, t: string, c: string)
    requires FindToken(s, lab) == Some(t) && !IsAbsenceToken(t) && FindComment(s, lab) == Some(c)
    ensures SingleSlot(s, lab) == Slot(Some(t), c)
  {
  }

  /** The same field line, split at the token and at the dash. */
  lemma FieldLineShapes(pre: string, lit: string, t: string, m: string, c: string, tail: string)
    ensures pre + lit + " " + t + m + "- " + c + tail == pre + lit + " " + t + (m + "- " + c + tail)
    ensures pre + lit + " " + t + m + "- " + c + tail == pre + lit + (" " + t + m) + ("- " + c + tail)
  {
  }

  /** `DHID` is a column token and no absence marker. */
  lemma DhidIsColumn()
    ensures IsToken("DHID") && !IsAbsenceToken("DHID")
  {
    var t := "DHID";
    assert IsToken(t) by {
      assert forall k :: 0 <= k < |t| ==> t[k] in "DHID";
    }
    assert !IsAbsenceToken(t) by {
      assert UpperStr(t) == t;
      assert !Contains(t, "FOUND");
    }
  }

  /** `HOLE NAME: DHID (confidence: high) - id`, followed by the dip line, reads back as column DHID with comment `id`. */
  lemma HoleNameExample()
    ensures ParseSpec("HOLE NAME:" + " " + "DHID" + " (confidence: high) " + "- " + "id" + "\nDIP: DIP - angle").value.holeId
      == Slot(Some("DHID"), "id")
  {
    var t := "DHID";
    DhidIsColumn();
    var m := " (confidence: high) ";
    var c := "id";
    var tail := "\nDIP: DIP - angle";
    assert !IsTokenChar(m[0]) && '-' !in m;
    assert '\n' !in c && !IsSpace(c[0]) && !IsSpace(c[|c| - 1]);
    SingleFieldRoundTrip([], "HOLE NAME:", t, m, c, tail);
    assert [] + "HOLE NAME:" == "HOLE NAME:";
  }

  /** `DIP: DIP - angle` holds no hole label. */
  lemma DipLineHasNoHoleLabel()
    ensures NoLabelBefore("DIP: DIP - angle\n", "HOLE NAME:")
  {
    var pre := "DIP: DIP - angle\n";
    var lit := "HOLE NAME:";
    assert '\n' !in lit;
    forall i | 0 <= i < |pre|
      ensures !MatchesAt(pre, i, lit)
    {
      if i + |lit| <= |pre| {
        assert Lower(pre[i]) != Lower(lit[0]);
      }
    }
  }

  /** The same hole line after the dip line, and before the azimuth line, reads back the same. */
  lemma HoleNameAfterDipExample()
    ensures ParseSpec("DIP: DIP - angle\n" + "HOLE NAME:" + " " + "DHID" + " (confidence: high) " + "- " + "id" + "\nAZIMUTH: AZ - bearing").value.holeId
      == Slot(Some("DHID"), "id")
  {
    var t := "DHID";
    DhidIsColumn();
    DipLineHasNoHoleLabel();
    var m := " (confidence: high) ";
    var c := "id";
    assert !IsTokenChar(m[0]) && '-' !in m;
    assert '\n' !in c && !IsSpace(c[0]) && !IsSpace(c[|c| - 1]);
    SingleFieldRoundTrip("DIP: DIP - angle\n", "HOLE NAME:", t, m, c, "\nAZIMUTH: AZ - bearing");
  }

  /**
   * A column name holding a dash is cut there by the comment pattern, whose lazy
   * `.*?-` stops at the first dash after the label: `HOLE NAME: Hole-ID - unique`
   * reads the column `Hole-ID` but the comment `ID - unique`.
   */
  lemma DashInColumnSplitsComment()
    ensures ParseSpec("HOLE NAME:" + " " + "Hole-ID" + " - unique").value.holeId == Slot(Some("Hole-ID"), "ID - unique")
  {
    var s := "HOLE NAME:" + " " + "Hole-ID" + " - unique";
    var t := "Hole-ID";
    HoleIdIsColumn();
    assert FindToken(s, HoleLabel) == Some(t) by {
      LeadingLabelToken([], "HOLE NAME:", t, " - unique");
      assert [] + "HOLE NAME:" == "HOLE NAME:";
    }
    HoleIdDashComment();
    SlotOfParts(s, HoleLabel, t, "ID - unique");
  }

  /** `Hole-ID` is a column token and no absence marker. */
  lemma HoleIdIsColumn()
    ensures IsToken("Hole-ID") && !IsAbsenceToken("Hole-ID")
  {
    var t := "Hole-ID";
    assert IsToken(t) by {
      assert forall k :: 0 <= k < |t| ==> t[k] in "Hole-ID";
    }
    assert !IsAbsenceToken(t) by {
      var u := "HOLE-ID";
      assert UpperStr(t) == u;
      forall i: nat | i <= |u|
        ensures !OccursAt(u, i, "FOUND")
      {
        if i + 5 <= |u| {
          assert u[i..i + 5][0] == u[i] != 'F';
        }
      }
    }
  }

  /** What follows the dash inside `Hole-ID`, to the end of the line. */
  lemma HoleIdDashTail()
    ensures CommentAfter("HOLE NAME:" + " " + "Hole-ID" + " - unique", 16) == "ID - unique"
  {
    var s := "HOLE NAME:" + " " + "Hole-ID" + " - unique";
    var c := "ID - unique";
    assert SkipSpace(s, 16) == 16;
    assert LineEnd(s, 16) == 27 by {
      assert forall k :: 16 <= k < 27 ==> s[k] != '\n';
    }
    assert s[16..27] == c;
    StripNoEdgeSpace(c);
  }

  /** From the label's end, the first dash is the one inside `Hole-ID`. */
  lemma HoleIdCommentFrom()
    ensures CommentFrom("HOLE NAME:" + " " + "Hole-ID" + " - unique", 10) == Some("ID - unique")
  {
    var s := "HOLE NAME:" + " " + "Hole-ID" + " - unique";
    var c := "ID - unique";
    assert |s| == 27 && s[15] == '-';
    assert FirstWhere(DashAt(s), 10, 26) == Some(15) by {
      assert forall k :: 10 <= k < 15 ==> s[k] != '-';
      FirstWhereIs(DashAt(s), 10, 26, 15);
    }
    assert CommentAfter(s, 16) == c by {
      HoleIdDashTail();
    }
    CommentFromParts(s, 10, 15, c);
  }

  /** The comment read from `HOLE NAME: Hole-ID - unique` starts after the dash inside the column name. */
  lemma HoleIdDashComment()
    ensures FindComment("HOLE NAME:" + " " + "Hole-ID" + " - unique", HoleLabel) == Some("ID - unique")
  {
    var s := "HOLE NAME:" + " " + "Hole-ID" + " - unique";
    var c := "ID - unique";
    HoleIdCommentFrom();
    assert LabelEnd(s, 0, HoleLabel) == Some(10) by {
      OccursMatchesFrom(s, 0, "HOLE NAME:", 0);
    }
    FindCommentAt(s, HoleLabel, 0);
  }

  /**
   * A quoted `"NOT FOUND"` yields the token `"NOT` (the token stops at the
   * space), which passes the absence test: the slot holds `"NOT`.
   */
  lemma QuotedNotFoundIsAccepted()
    ensures ParseSpec("HOLE NAME:" + " " + "\"NOT" + " FOUND\"").value.holeId.found == Some("\"NOT")
  {
    var t := "\"NOT";
    assert IsToken(t) by {
      assert forall k :: 0 <= k < |t| ==> t[k] in "\"NOT";
    }
    assert FindToken("HOLE NAME:" + " " + t + " FOUND\"", HoleLabel) == Some(t) by {
      LeadingLabelToken([], "HOLE NAME:", t, " FOUND\"");
      assert [] + "HOLE NAME:" == "HOLE NAME:";
    }
    assert !IsAbsenceToken(t) by {
      // four characters: neither "NOT" nor long enough to hold "FOUND"
      assert |UpperStr(t)| == 4;
    }
  }

  /** A leading label whose token reads as an absence leaves its slot empty: no column, no comment. */
  lemma AbsentTokenLeavesSlotEmpty(lit: string, t: string, tail: string)
    requires lit != [] && IsToken(t) && IsAbsenceToken(t)
    requires tail == [] || !IsTokenChar(tail[0])
    ensures SingleSlot(lit + " " + t + tail, Literal(lit)) == EmptySlot
  {
    LeadingLabelToken([], lit, t, tail);
    assert [] + lit == lit;
  }

  /** An unquoted `NOT FOUND` is recognised as an absence: the slot stays empty. */
  lemma PlainNotFoundIsAbsent()
    ensures ParseSpec("DIP:" + " " + "NOT" + " FOUND").value.dip == EmptySlot
  {
    var t := "NOT";
    assert IsToken(t) by {
      assert forall k :: 0 <= k < |t| ==> t[k] in "NOT";
    }
    assert IsAbsenceToken(t) by {
      UpperStrFixed(t);
    }
    AbsentTokenLeavesSlotEmpty("DIP:", t, " FOUND");
  }

  /** The bare form's `NOT FOUND` check can never fire: a token holds no space. */
  lemma BareTokenNeverNotFound(t: string)
    requires IsToken(t)
    ensures !Contains(UpperStr(t), "NOT FOUND")
  {
    forall i: nat | i <= |UpperStr(t)| && i + 9 <= |t|
      ensures !OccursAt(UpperStr(t), i, "NOT FOUND")
    {
      assert IsTokenChar(t[i + 3]);
    }
  }

  /** The grade label at the start followed by a bare token that does not open a bracket: the bare alternative. */
  lemma LeadingBareGrade(t: string, tail: string)
    requires IsToken(t) && t[0] != '['
    requires tail == [] || !IsTokenChar(tail[0])
    ensures FindGrades(GradeLabel.text + " " + t + tail) == Some(Bare(t))
  {
    var s := GradeLabel.text + " " + t + tail;
    assert GradeAt(s, 0) == Some(Bare(t)) by {
      LeadingLabelLayout([], GradeLabel.text, t, tail);
      assert [] + GradeLabel.text == GradeLabel.text;
    }
    FirstWhereIs(GradeMatches(s), 0, |s| + 1, 0);
  }

  /** `GRADE COLUMNS: NOT FOUND` yields the one-column list `["NOT"]`. */
  lemma BareGradeNotFound()
    ensures ParseSpec("GRADE COLUMNS:" + " " + "NOT" + " FOUND").value.grades.found == ["NOT"]
  {
    var t := "NOT";
    assert IsToken(t) by {
      assert forall k :: 0 <= k < |t| ==> t[k] in "NOT";
    }
    LeadingBareGrade(t, " FOUND");
    BareTokenNeverNotFound(t);
    assert RunEnd(t, 0, Not(',')) == 3;
    assert Split(t, ',') == [t];
    StripNoEdgeSpace(t);
  }

  /** Without a `DEPTH (AT):` label, a whole-word "at" anywhere fills the depth slot with AT. */
  lemma ProseAtFillsDepth(s: string, i: nat)
    requires s != [] && FindToken(s, DepthAt).None?
    requires WholeWordAt(s, i, "AT")
    ensures ParseSpec(s).value.depth == Slot(Some("AT"), DepthComment)
  {
    assert HasWholeWord(s, DepthWords[0]);
    FirstWhereIs(WordPresent(s, DepthWords), 0, |DepthWords|, 0);
  }

  /** Ordinary prose: "Hole at top" gets the depth column AT. */
  lemma ProseAtExample()
    ensures ParseSpec("Hole at top").value.depth == Slot(Some("AT"), DepthComment)
  {
    var s := "Hole at top";
    forall i: nat | i <= |s|
      ensures TokenAt(s, i, DepthAt).None?
    {
      assert !MatchesAt(s, i, "DEPTH");
    }
    assert s[4] == ' ' && s[5] == 'a' && s[6] == 't' && s[7] == ' ';
    assert MatchesFrom(s, 5, "AT", 2);
    assert WholeWordAt(s, 5, "AT");
    ProseAtFillsDepth(s, 5);
  }

  /** The coordinates line the stage is asked to write: `X=<x>, Y=<y>, Z=<z>`. */
  function CoordinatesLine(x: string, y: string, z: string): string {
    "X=" + x + ", Y=" + y + ", Z=" + z
  }

  /** The depth-intervals line the stage is asked to write: `FROM=<from>, TO=<to>`. */
  function IntervalsLine(from: string, to: string): string {
    "FROM=" + from + ", TO=" + to
  }

  /** Text known to start with `a` at `g` continues with `rest` after it. */
  lemma DropPrefix(s: string, g: nat, a: string, rest: string)
    requires g <= |s| && s[g..] == a + rest
    ensures g + |a| <= |s| && s[g..g + |a|] == a && s[g + |a|..] == rest
  {
    assert s[g..][..|a|] == a;
    assert s[g..][|a|..] == rest;
  }

  /** Text holding the pattern `pat` at `j` matches it there and continues with `rest`. */
  lemma PrefixMatches(s: string, j: nat, pat: string, rest: string)
    requires j <= |s| && s[j..] == pat + rest
    ensures MatchesAt(s, j, pat) && j + |pat| <= |s| && s[j + |pat|..] == rest
  {
    DropPrefix(s, j, pat, rest);
    OccursMatchesFrom(s, j, pat, 0);
  }

  /** Text holding the run `a` at `g` and then a character outside the class: the run ends after `a`. */
  lemma RunOver(s: string, g: nat, a: string, rest: string, inClass: char -> bool)
    requires g <= |s| && s[g..] == a + rest
    requires forall k :: 0 <= k < |a| ==> inClass(a[k])
    requires rest == [] || !inClass(rest[0])
    ensures RunEnd(s, g, inClass) == g + |a| && s[g..g + |a|] == a && s[g + |a|..] == rest
  {
    DropPrefix(s, g, a, rest);
    forall k | g <= k < g + |a|
      ensures inClass(s[k])
    {
      assert s[k] == s[g..g + |a|][k - g];
    }
    if g + |a| < |s| {
      assert s[g + |a|] == s[g + |a|..][0];
    }
  }

  /** A value followed by `, A=`: the value is the group and the next one starts after the `=`. */
  lemma AxisStepAfterComma(s: string, g: nat, a: string, axis: char, rest: string)
    requires g <= |s| && s[g..] == a + ([',', ' ', axis, '='] + rest)
    requires a != [] && forall k :: 0 <= k < |a| ==> IsCoordChar(a[k])
    requires !IsSpace(axis)
    ensures AxisStep(s, g, axis) == Some((g + |a|, g + |a| + 4))
    ensures s[g..g + |a|] == a && s[g + |a| + 4..] == rest
  {
    var sep := [',', ' ', axis, '='];
    var e := g + |a|;
    RunOver(s, g, a, sep + rest, IsCoordChar);
    DropPrefix(s, e, sep, rest);
    assert s[e..e + 4][0] == s[e];
    assert s[e] == ',' && s[e + 1] == ' ' && s[e + 2] == axis && s[e + 3] == '=';
    assert SkipSpace(s, e + 1) == e + 2 by {
      assert RunEnd(s, e + 2, IsSpace) == e + 2;
    }
    assert MatchesAt(s, e + 2, [axis, '=']) by {
      assert s[e + 2..e + 4] == [axis, '='] by {
        assert s[e + 2..e + 4] == s[e..e + 4][2..];
      }
      OccursMatchesFrom(s, e + 2, [axis, '='], 0);
    }
  }

  /** The last coordinate name ends where the coordinate class ends. */
  lemma LastCoordRun(s: string, g: nat, z: string, tail: string)
    requires g <= |s| && s[g..] == z + tail
    requires z != [] && forall k :: 0 <= k < |z| ==> IsLastCoordChar(z[k])
    requires tail == [] || !IsLastCoordChar(tail[0])
    ensures RunEnd(s, g, IsLastCoordChar) == g + |z| && s[g..g + |z|] == z
  {
    RunOver(s, g, z, tail, IsLastCoordChar);
  }

  /** The coordinates line, nested to the right so that each step can peel one piece. */
  lemma CoordinatesLineShape(x: string, y: string, z: string, tail: string)
    ensures CoordinatesLine(x, y, z) + tail
      == "X=" + (x + ([',', ' ', 'Y', '='] + (y + ([',', ' ', 'Z', '='] + (z + tail)))))
  {
  }

  /** The coordinates line at `j` is read back as its three names. */
  lemma CoordAtLine(s: string, j: nat, x: string, y: string, z: string, tail: string)
    requires j <= |s| && s[j..] == CoordinatesLine(x, y, z) + tail
    requires x != [] && forall k :: 0 <= k < |x| ==> IsCoordChar(x[k])
    requires y != [] && forall k :: 0 <= k < |y| ==> IsCoordChar(y[k])
    requires z != [] && forall k :: 0 <= k < |z| ==> IsLastCoordChar(z[k])
    requires tail == [] || !IsLastCoordChar(tail[0])
    ensures CoordAt(s, j) == Some((x, y, z))
  {
    var rest := y + ([',', ' ', 'Z', '='] + (z + tail));
    var rx := x + ([',', ' ', 'Y', '='] + rest);
    assert s[j..] == "X=" + rx by {
      CoordinatesLineShape(x, y, z, tail);
    }
    PrefixMatches(s, j, "X=", rx);
    CoordAfterX(s, j, j + 2, x, y, z, tail);
  }

  /** After a matched `X=`, the X value, the Y step and the rest of the line give the three names. */
  lemma CoordAfterX(s: string, j: nat, p: nat, x: string, y: string, z: string, tail: string)
    requires p == j + 2 && MatchesAt(s, j, "X=")
    requires p <= |s| && s[p..] == x + ([',', ' ', 'Y', '='] + (y + ([',', ' ', 'Z', '='] + (z + tail))))
    requires x != [] && forall k :: 0 <= k < |x| ==> IsCoordChar(x[k])
    requires y != [] && forall k :: 0 <= k < |y| ==> IsCoordChar(y[k])
    requires z != [] && forall k :: 0 <= k < |z| ==> IsLastCoordChar(z[k])
    requires tail == [] || !IsLastCoordChar(tail[0])
    ensures CoordAt(s, j) == Some((x, y, z))
  {
    var rest := y + ([',', ' ', 'Z', '='] + (z + tail));
    var h := p + |x| + 4;
    assert AxisStep(s, p, 'Y') == Some((p + |x|, h)) && s[p..p + |x|] == x && s[h..] == rest by {
      AxisStepAfterComma(s, p, x, 'Y', rest);
    }
    assert CoordTailAt(s, h) == Some((y, z)) by {
      CoordTailLine(s, h, y, z, tail);
    }
    CoordAtFromSteps(s, j, p, x, h, y, z);
  }

  /** The combined pattern at `j`, assembled from the X step and the rest of the line. */
  lemma CoordAtFromSteps(s: string, j: nat, p: nat, x: string, h: nat, y: string, z: string)
    requires p == j + 2 && MatchesAt(s, j, "X=")
    requires AxisStep(s, p, 'Y') == Some((p + |x|, h)) && s[p..p + |x|] == x
    requires CoordTailAt(s, h) == Some((y, z))
    ensures CoordAt(s, j) == Some((x, y, z))
  {
  }

  /** From the start of the Y value, the rest of the line yields the Y and Z names. */
  lemma CoordTailLine(s: string, g: nat, y: string, z: string, tail: string)
    requires g <= |s| && s[g..] == y + ([',', ' ', 'Z', '='] + (z + tail))
    requires y != [] && forall k :: 0 <= k < |y| ==> IsCoordChar(y[k])
    requires z != [] && forall k :: 0 <= k < |z| ==> IsLastCoordChar(z[k])
    requires tail == [] || !IsLastCoordChar(tail[0])
    ensures CoordTailAt(s, g) == Some((y, z))
  {
    var h := g + |y| + 4;
    assert AxisStep(s, g, 'Z') == Some((g + |y|, h)) && s[g..g + |y|] == y && s[h..] == z + tail by {
      AxisStepAfterComma(s, g, y, 'Z', z + tail);
    }
    LastCoordRun(s, h, z, tail);
  }

  /** A label at the very start followed by one space: where the label ends and what follows it. */
  lemma LeadingLabelLine(lit: string, line: string)
    requires lit != []
    ensures var s := lit + " " + line;
      MatchesAt(s, 0, lit) && s[|lit|] == ' ' && s[|lit| + 1..] == line
  {
    var s := lit + " " + line;
    MiddleOf(lit, " ", line);
    assert MatchesAt(s, 0, lit) by {
      OccursMatchesFrom(s, 0, lit, 0);
    }
  }

  /** The coordinates label at the start, one space, and a coordinates match right after it. */
  lemma CoordinatesAtStart(s: string, n: nat, v: (string, string, string))
    requires LabelEnd(s, 0, CoordinatesLabel) == Some(n) && n < |s| && s[n] == ' '
    requires CoordAt(s, n + 1) == Some(v)
    ensures FindCoordinates(s) == Some(v)
  {
    CoordFromAfterSpace(s, n, v);
    FindCoordinatesAtStart(s, n, v);
  }

  /** After the label's end, a space and then a coordinates match: the lazy search finds it there. */
  lemma CoordFromAfterSpace(s: string, n: nat, v: (string, string, string))
    requires n < |s| && s[n] == ' ' && CoordAt(s, n + 1) == Some(v)
    ensures CoordFrom(s, n) == Some(v)
  {
    assert FirstWhere(CoordStarts(s), n, LineEnd(s, n) + 1) == Some(n + 1) by {
      assert !CoordStarts(s)(n) by {
        NoMatchAtSpace(s, n, "X=");
      }
      assert LineEnd(s, n) >= n + 1;
      FirstWhereIs(CoordStarts(s), n, LineEnd(s, n) + 1, n + 1);
    }
    CoordFromParts(s, n, n + 1, v);
  }

  /** The lazy search assembled from its steps: the first start that matches on the line. */
  lemma CoordFromParts(s: string, e: nat, j: nat, v: (string, string, string))
    requires e <= |s| && FirstWhere(CoordStarts(s), e, LineEnd(s, e) + 1) == Some(j) && CoordAt(s, j) == Some(v)
    ensures CoordFrom(s, e) == Some(v)
  {
  }

  /** A pattern that starts with a letter does not match at a space. */
  lemma NoMatchAtSpace(s: string, n: nat, pat: string)
    requires n < |s| && s[n] == ' ' && pat != [] && 'A' <= pat[0] <= 'Z'
    ensures !MatchesAt(s, n, pat)
  {
    assert Lower(s[n]) != Lower(pat[0]);
  }

  /** A label at the start whose line matches: the first label is the one used. */
  lemma FindCoordinatesAtStart(s: string, n: nat, v: (string, string, string))
    requires LabelEnd(s, 0, CoordinatesLabel) == Some(n) && n <= |s| && CoordFrom(s, n) == Some(v)
    ensures FindCoordinates(s) == Some(v)
  {
    assert CoordMatches(s)(0);
    FirstWhereIs(CoordMatches(s), 0, |s| + 1, 0);
  }

  /** `COORDINATES: X=x, Y=y, Z=z` at the start of the text reads back the three column names. */
  lemma CoordinatesRoundTrip(x: string, y: string, z: string, tail: string)
    requires x != [] && forall k :: 0 <= k < |x| ==> IsCoordChar(x[k])
    requires y != [] && forall k :: 0 <= k < |y| ==> IsCoordChar(y[k])
    requires z != [] && forall k :: 0 <= k < |z| ==> IsLastCoordChar(z[k])
    requires tail == [] || !IsLastCoordChar(tail[0])
    ensures FindCoordinates(CoordinatesLabel.text + " " + (CoordinatesLine(x, y, z) + tail)) == Some((x, y, z))
  {
    var lit := CoordinatesLabel.text;
    var line := CoordinatesLine(x, y, z) + tail;
    var s := lit + " " + line;
    LeadingLabelLine(lit, line);
    CoordAtLine(s, |lit| + 1, x, y, z, tail);
    CoordinatesAtStart(s, |lit|, (x, y, z));
  }

  /** The intervals label at the start, one space, and an intervals match right after it. */
  lemma IntervalsAtStart(s: string, n: nat, v: (string, string))
    requires LabelEnd(s, 0, IntervalsLabel) == Some(n) && n < |s| && s[n] == ' '
    requires IntervalAt(s, n + 1) == Some(v)
    ensures FindIntervals(s) == Some(v)
  {
    IntervalFromAfterSpace(s, n, v);
    FindIntervalsAtStart(s, n, v);
  }

  /** After the label's end, a space and then an intervals match: the lazy search finds it there. */
  lemma IntervalFromAfterSpace(s: string, n: nat, v: (string, string))
    requires n < |s| && s[n] == ' ' && IntervalAt(s, n + 1) == Some(v)
    ensures IntervalFrom(s, n) == Some(v)
  {
    assert FirstWhere(IntervalStarts(s), n, LineEnd(s, n) + 1) == Some(n + 1) by {
      assert !IntervalStarts(s)(n) by {
        NoMatchAtSpace(s, n, "FROM=");
      }
      assert LineEnd(s, n) >= n + 1;
      FirstWhereIs(IntervalStarts(s), n, LineEnd(s, n) + 1, n + 1);
    }
    IntervalFromParts(s, n, n + 1, v);
  }

  /** The lazy search assembled from its steps: the first start that matches on the line. */
  lemma IntervalFromParts(s: string, e: nat, j: nat, v: (string, string))
    requires e <= |s| && FirstWhere(IntervalStarts(s), e, LineEnd(s, e) + 1) == Some(j) && IntervalAt(s, j) == Some(v)
    ensures IntervalFrom(s, e) == Some(v)
  {
  }

  /** A label at the start whose line matches: the first label is the one used. */
  lemma FindIntervalsAtStart(s: string, n: nat, v: (string, string))
    requires LabelEnd(s, 0, IntervalsLabel) == Some(n) && n <= |s| && IntervalFrom(s, n) == Some(v)
    ensures FindIntervals(s) == Some(v)
  {
    assert IntervalMatches(s)(0);
    FirstWhereIs(IntervalMatches(s), 0, |s| + 1, 0);
  }

  /** `DEPTH INTERVALS: FROM=f, TO=t` at the start of the text reads back the two column names. */
  lemma IntervalsRoundTrip(f: string, t: string, tail: string)
    requires f != [] && forall k :: 0 <= k < |f| ==> IsFromChar(f[k])
    requires IsToken(t)
    requires tail == [] || !IsTokenChar(tail[0])
    ensures FindIntervals(IntervalsLabel.text + " " + (IntervalsLine(f, t) + tail)) == Some((f, t))
  {
    var lit := IntervalsLabel.text;
    var line := IntervalsLine(f, t) + tail;
    var s := lit + " " + line;
    LeadingLabelLine(lit, line);
    IntervalAtLine(s, |lit| + 1, f, t, tail);
    IntervalsAtStart(s, |lit|, (f, t));
  }

  /** The intervals line, nested to the right so that each step can peel one piece. */
  lemma IntervalsLineShape(f: string, t: string, tail: string)
    ensures IntervalsLine(f, t) + tail == "FROM=" + (f + ([',', ' '] + ("TO=" + (t + tail))))
  {
  }

  /** `TO=` and a token: the token is the TO group. */
  lemma ToValueLine(s: string, k: nat, t: string, tail: string)
    requires k <= |s| && s[k..] == "TO=" + (t + tail)
    requires IsToken(t)
    requires tail == [] || !IsTokenChar(tail[0])
    ensures ToValueAt(s, k) == Some(t)
  {
    PrefixMatches(s, k, "TO=", t + tail);
    RunOver(s, k + 3, t, tail, IsTokenChar);
  }

  /** A FROM value followed by `, `: the FROM run ends at the comma, and the TO label follows the space. */
  lemma FromValueLine(s: string, g: nat, f: string, rest: string)
    requires g <= |s| && s[g..] == f + ([',', ' '] + rest)
    requires f != [] && forall k :: 0 <= k < |f| ==> IsFromChar(f[k])
    requires rest != [] && !IsSpace(rest[0])
    ensures g + |f| + 2 <= |s| && s[g + |f|] == ','
    ensures RunEnd(s, g, IsFromChar) == g + |f| && s[g..g + |f|] == f
    ensures SkipSpace(s, g + |f| + 1) == g + |f| + 2 && s[g + |f| + 2..] == rest
  {
    var e := g + |f|;
    RunOver(s, g, f, [',', ' '] + rest, IsFromChar);
    DropPrefix(s, e, [',', ' '], rest);
    assert s[e..e + 2][0] == s[e] && s[e..e + 2][1] == s[e + 1];
    assert SkipSpace(s, e + 1) == e + 2 by {
      assert s[e + 2] == rest[0];
      assert RunEnd(s, e + 2, IsSpace) == e + 2;
    }
  }

  /** The intervals pattern at `j`, assembled from its steps: the whole FROM run is kept. */
  lemma IntervalAtFromSteps(s: string, j: nat, g: nat, f: string, t: string)
    requires g == j + 5 && MatchesAt(s, j, "FROM=") && f != []
    requires RunEnd(s, g, IsFromChar) == g + |f| && s[g..g + |f|] == f
    requires g + |f| < |s| && s[g + |f|] == ','
    requires ToValueAt(s, SkipSpace(s, g + |f| + 1)) == Some(t)
    ensures IntervalAt(s, j) == Some((f, t))
  {
  }

  /** The intervals line at `j` is read back as its two names, without backtracking into FROM. */
  lemma IntervalAtLine(s: string, j: nat, f: string, t: string, tail: string)
    requires j <= |s| && s[j..] == IntervalsLine(f, t) + tail
    requires f != [] && forall k :: 0 <= k < |f| ==> IsFromChar(f[k])
    requires IsToken(t)
    requires tail == [] || !IsTokenChar(tail[0])
    ensures IntervalAt(s, j) == Some((f, t))
  {
    var rf := f + ([',', ' '] + ("TO=" + (t + tail)));
    assert s[j..] == "FROM=" + rf by {
      IntervalsLineShape(f, t, tail);
    }
    PrefixMatches(s, j, "FROM=", rf);
    var g := j + 5;
    FromToLine(s, g, f, t, tail);
    IntervalAtFromSteps(s, j, g, f, t);
  }

  /** From the start of the FROM value: the whole run is the FROM group and the TO group follows. */
  lemma FromToLine(s: string, g: nat, f: string, t: string, tail: string)
    requires g <= |s| && s[g..] == f + ([',', ' '] + ("TO=" + (t + tail)))
    requires f != [] && forall k :: 0 <= k < |f| ==> IsFromChar(f[k])
    requires IsToken(t)
    requires tail == [] || !IsTokenChar(tail[0])
    ensures RunEnd(s, g, IsFromChar) == g + |f| && s[g..g + |f|] == f
    ensures g + |f| < |s| && s[g + |f|] == ','
    ensures ToValueAt(s, SkipSpace(s, g + |f| + 1)) == Some(t)
  {
    FromValueLine(s, g, f, "TO=" + (t + tail));
    ToValueLine(s, g + |f| + 2, t, tail);
  }

  /** In every parsed record, a comment is present only on a field that holds a column. */
  lemma CommentsOnlyOnFoundFields(s: string)
    requires s != []
    ensures var p := ParseSpec(s).value;
      (p.holeId.comment != [] ==> p.holeId.found.Some?)
      && (p.dip.comment != [] ==> p.dip.found.Some?)
      && (p.azimuth.comment != [] ==> p.azimuth.found.Some?)
      && (p.depth.comment != [] ==> p.depth.found.Some?)
      && (p.density.comment != [] ==> p.density.found.Some?)
      && (p.lithology.comment != [] ==> p.lithology.found.Some?)
      && (p.depthFrom.comment != [] ==> p.depthFrom.found.Some? && p.depthTo.found.Some?)
      && (p.coordinates.comment != [] ==> p.coordinates.x.Some? && p.coordinates.y.Some? && p.coordinates.z.Some?)
  {
  }

}
