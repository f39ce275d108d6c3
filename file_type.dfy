/**
 * Reading the file type out of the classification stage's free text: a
 * `FILE TYPE: <word>` label first, then a fixed-order substring scan over the
 * five known type names.
 */
module FileTypeDetection {
  import opened Wrappers
  import opened Text

  const TypeLabel := "FILE TYPE:"

  /** The known file types, in the order the fallback scan tries them. */
  const KnownTypes: seq<string> := ["Collar", "Survey", "Assay", "Lithology", "Density"]

  /** `FILE TYPE:\s*(\w+)` anchored at `i` (case-insensitive): the word after the label. */
  function LabelWordAt(s: string, i: nat): (r: Option<string>)
    ensures r.Some? ==> r.value != [] && forall k :: 0 <= k < |r.value| ==> IsWordChar(r.value[k])
  {
    if !MatchesAt(s, i, TypeLabel) then None
    else
      var p := SkipSpace(s, i + |TypeLabel|);
      var q := RunEnd(s, p, IsWordChar);
      if p < q then Some(s[p..q]) else None
  }

  /** The start positions at which the label pattern matches. */
  function LabelMatches(s: string): nat -> bool {
    (i: nat) => LabelWordAt(s, i).Some?
  }

  /** Where `re.search` finds the label pattern: the first label followed by a word. */
  function LabelPosition(s: string): Option<nat> {
    FirstWhere(LabelMatches(s), 0, |s| + 1)
  }

  /**
   * The word captured by `re.search` with the label pattern: none exactly when
   * the label followed by a word occurs nowhere; otherwise the word at the first
   * position where it does.
   */
  function LabelWord(s: string): (r: Option<string>)
    ensures r.None? <==> forall i :: 0 <= i <= |s| ==> LabelWordAt(s, i).None?
    ensures r.Some? ==> exists i :: (0 <= i <= |s| && LabelWordAt(s, i) == r
      && forall j :: 0 <= j < i ==> LabelWordAt(s, j).None?)
  {
    match LabelPosition(s)
    case None =>
      assert forall i {:trigger LabelWordAt(s, i)} :: 0 <= i <= |s| ==> !LabelMatches(s)(i);
      None
    case Some(i) =>
      assert forall j {:trigger LabelWordAt(s, j)} :: 0 <= j < i ==> !LabelMatches(s)(j);
      LabelWordAt(s, i)
  }

  /** `t.lower() in s.lower()`. */
  predicate Mentions(s: string, t: string) {
    Contains(LowerStr(s), LowerStr(t))
  }

  /** The indices of the known types that the text mentions. */
  function MentionedTypes(s: string): nat -> bool {
    (k: nat) => k < |KnownTypes| && Mentions(s, KnownTypes[k])
  }

  /** The index in `KnownTypes` of the first type the text mentions. */
  function FallbackIndex(s: string): Option<nat> {
    FirstWhere(MentionedTypes(s), 0, |KnownTypes|)
  }

  /**
   * `extract_file_type_from_result`: nothing for empty text; otherwise the
   * labelled word, verbatim and taking precedence; otherwise the first known
   * type (in list order) that occurs in the text ignoring case.
   */
  function ExtractFileType(s: string): (r: Option<string>)
    ensures s == [] ==> r.None?
    ensures s != [] && LabelWord(s).Some? ==> r == LabelWord(s)
    ensures r.Some? && LabelWord(s).None? ==>
      r.value in KnownTypes && Mentions(s, r.value)
    ensures r.None? && s != [] ==>
      LabelWord(s).None? && forall t :: t in KnownTypes ==> !Mentions(s, t)
  {
    if s == [] then None
    else match LabelWord(s)
      case Some(w) => Some(w)
      case None =>
        match FallbackIndex(s)
        case None =>
          assert forall k {:trigger KnownTypes[k]} :: 0 <= k < |KnownTypes| ==> !MentionedTypes(s)(k);
          None
        case Some(k) => Some(KnownTypes[k])
  }

  /** Without a label, the type found is the first in list order that occurs; every earlier one is absent. */
  lemma FallbackIsFirstInListOrder(s: string, k: nat)
    requires s != [] && LabelWord(s).None?
    requires k < |KnownTypes| && ExtractFileType(s) == Some(KnownTypes[k])
    ensures forall j :: 0 <= j < k ==> !Mentions(s, KnownTypes[j])
  {
    var f := FallbackIndex(s);
    assert f.Some?;
    assert KnownTypes[f.value] == KnownTypes[k];
    forall j | 0 <= j < k
      ensures !Mentions(s, KnownTypes[j])
    {
      assert !MentionedTypes(s)(j);
    }
  }

  /**
   * After lines that hold no label, the label in any case, one space and a word
   * yield that word exactly as written, whatever follows and whatever type names
   * occur elsewhere.
   */
  lemma LabelledWordVerbatim(pre: string, head: string, w: string, tail: string)
    requires NoLabelBefore(pre, TypeLabel)
    requires |head| == |TypeLabel| && MatchesAt(head, 0, TypeLabel)
    requires w != [] && forall k :: 0 <= k < |w| ==> IsWordChar(w[k])
    requires tail == [] || !IsWordChar(tail[0])
    ensures ExtractFileType(pre + head + [' '] + w + tail) == Some(w)
  {
    var s := pre + head + [' '] + w + tail;
    assert LabelWord(s) == Some(w) by {
      assert LabelWordAt(s, |pre|) == Some(w) by {
        LabelWordAfter(pre, head, w, tail, |pre| + |TypeLabel|);
      }
      assert forall j :: 0 <= j < |pre| ==> LabelWordAt(s, j).None? by {
        assert pre <= s;
        forall j | 0 <= j < |pre|
          ensures LabelWordAt(s, j).None?
        {
          NoLabelAt(pre, s, TypeLabel, j);
        }
      }
      FirstLabelWord(s, |pre|);
    }
  }

  /** A labelled word at `i`, with no label before `i`, is the word the search returns. */
  lemma FirstLabelWord(s: string, i: nat)
    requires i <= |s| && LabelWordAt(s, i).Some?
    requires forall j :: 0 <= j < i ==> LabelWordAt(s, j).None?
    ensures LabelWord(s) == LabelWordAt(s, i)
  {
    assert LabelPosition(s) == Some(i) by {
      FirstWhereIs(LabelMatches(s), 0, |s| + 1, i);
    }
  }

  /** Where the label, the space and the word sit, with the label ending at `n`. */
  lemma LabelWordAfter(pre: string, head: string, w: string, tail: string, n: nat)
    requires |head| == |TypeLabel| && MatchesAt(head, 0, TypeLabel) && n == |pre| + |head|
    requires w != [] && forall k :: 0 <= k < |w| ==> IsWordChar(w[k])
    requires tail == [] || !IsWordChar(tail[0])
    ensures LabelWordAt(pre + head + [' '] + w + tail, |pre|) == Some(w)
  {
    var s := pre + head + [' '] + w + tail;
    assert MatchesAt(s, |pre|, TypeLabel) by {
      assert forall j :: 0 <= j < |head| ==> s[|pre| + j] == head[j];
      MatchesShiftFrom(s, |pre|, head, TypeLabel, 0);
    }
    MiddleOf(pre + head + [' '], w, tail);
    assert SkipSpace(s, n) == n + 1 by {
      assert s[n] == ' ';
      assert RunEnd(s, n + 1, IsSpace) == n + 1;
    }
    assert RunEnd(s, n + 1, IsWordChar) == n + 1 + |w| by {
      assert n + 1 + |w| < |s| ==> s[n + 1 + |w|] == tail[0];
    }
  }

  /** A label on a later line wins over a type named on an earlier line and after it. */
  lemma LabelOnLaterLine()
    ensures ExtractFileType("Collar?\n" + "FILE TYPE:" + [' '] + "Assay" + "\nCollar") == Some("Assay")
  {
    var pre := "Collar?\n";
    assert NoLabelBefore(pre, TypeLabel) by {
      assert forall i :: 0 <= i < |pre| ==> !MatchesAt(pre, i, TypeLabel);
    }
    OccursMatchesFrom(TypeLabel, 0, TypeLabel, 0);
    LabelledWordVerbatim(pre, TypeLabel, "Assay", "\nCollar");
  }
}
