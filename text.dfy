/**
 * Character classes, case folding and the scanning primitives out of which the
 * source's regular expressions are rebuilt.  A regular-expression search is the
 * first start position at which an anchored match succeeds (`FirstWhere`); each
 * anchored match is written by hand in the module that uses it.
 */
module Text {
  import opened Wrappers

  /** Python's `str.isspace()`, which is also what `\s` and `str.strip()` use on text. */
  predicate IsSpace(c: char) {
    c == ' ' || '\t' <= c <= '\r' || '\U{1c}' <= c <= '\U{1f}' || c == '\U{85}' || c == '\U{a0}'
    || c == '\U{1680}' || '\U{2000}' <= c <= '\U{200a}' || c == '\U{2028}' || c == '\U{2029}'
    || c == '\U{202f}' || c == '\U{205f}' || c == '\U{3000}'
  }

  /** The `\w` class, restricted to ASCII. */
  predicate IsWordChar(c: char) {
    'a' <= c <= 'z' || 'A' <= c <= 'Z' || '0' <= c <= '9' || c == '_'
  }

  function Lower(c: char): char {
    if 'A' <= c <= 'Z' then (c as int + 32) as char else c
  }

  function Upper(c: char): char {
    if 'a' <= c <= 'z' then (c as int - 32) as char else c
  }

  function LowerStr(s: string): (r: string)
    ensures |r| == |s|
    ensures forall k :: 0 <= k < |s| ==> r[k] == Lower(s[k])
  {
    seq(|s|, k requires 0 <= k < |s| => Lower(s[k]))
  }

  function UpperStr(s: string): (r: string)
    ensures |r| == |s|
    ensures forall k :: 0 <= k < |s| ==> r[k] == Upper(s[k])
  {
    seq(|s|, k requires 0 <= k < |s| => Upper(s[k]))
  }

  /** Text without lower-case letters is its own upper-case form. */
  lemma UpperStrFixed(s: string)
    requires forall k :: 0 <= k < |s| ==> !('a' <= s[k] <= 'z')
    ensures UpperStr(s) == s
  {
    assert forall k :: 0 <= k < |s| ==> UpperStr(s)[k] == s[k];
  }

  /** Case-insensitive match of `pat[k..]` against `s` at `i + k`. */
  predicate MatchesFrom(s: string, i: nat, pat: string, k: nat)
    decreases |pat| - k
  {
    k >= |pat| || (i + k < |s| && Lower(s[i + k]) == Lower(pat[k]) && MatchesFrom(s, i, pat, k + 1))
  }

  /** `pat` occurs at position `i` of `s`, ignoring (ASCII) case: a literal under `re.IGNORECASE`. */
  predicate MatchesAt(s: string, i: nat, pat: string) {
    i + |pat| <= |s| && MatchesFrom(s, i, pat, 0)
  }

  /** An exact occurrence is also a case-insensitive match. */
  lemma {:induction false} OccursMatchesFrom(s: string, i: nat, pat: string, k: nat)
    requires i + |pat| <= |s| && s[i..i + |pat|] == pat && k <= |pat|
    ensures MatchesFrom(s, i, pat, k)
    decreases |pat| - k
  {
    if k < |pat| {
      assert s[i + k] == s[i..i + |pat|][k];
      OccursMatchesFrom(s, i, pat, k + 1);
    }
  }

  /** A case-insensitive match inside a prefix of the text stays a match in the whole text. */
  lemma {:induction false} MatchesExtendFrom(head: string, s: string, i: nat, pat: string, k: nat)
    requires head <= s && k <= |pat| && MatchesFrom(head, i, pat, k)
    ensures MatchesFrom(s, i, pat, k)
    decreases |pat| - k
  {
    if k < |pat| {
      MatchesExtendFrom(head, s, i, pat, k + 1);
    }
  }

  /** Each character of a case-insensitive match agrees with the pattern's character, up to case. */
  lemma {:induction false} MatchesFromChar(s: string, i: nat, pat: string, k: nat, j: nat)
    requires MatchesFrom(s, i, pat, k) && k <= j < |pat|
    ensures i + j < |s| && Lower(s[i + j]) == Lower(pat[j])
    decreases j - k
  {
    if k < j {
      MatchesFromChar(s, i, pat, k + 1, j);
    }
  }

  /** A case-insensitive match that ends inside a prefix of the text is a match in that prefix. */
  lemma {:induction false} MatchesShrinkFrom(head: string, s: string, i: nat, pat: string, k: nat)
    requires head <= s && i + |pat| <= |head| && MatchesFrom(s, i, pat, k)
    ensures MatchesFrom(head, i, pat, k)
    decreases |pat| - k
  {
    if k < |pat| {
      MatchesShrinkFrom(head, s, i, pat, k + 1);
    }
  }

  /** A case-insensitive match in `head` is a match wherever `head` is copied into the text. */
  lemma {:induction false} MatchesShiftFrom(s: string, i: nat, head: string, pat: string, k: nat)
    requires i + |head| <= |s| && forall j :: 0 <= j < |head| ==> s[i + j] == head[j]
    requires MatchesFrom(head, 0, pat, k)
    ensures MatchesFrom(s, i, pat, k)
    decreases |pat| - k
  {
    if k < |pat| {
      MatchesShiftFrom(s, i, head, pat, k + 1);
    }
  }

  /**
   * What may come before a labelled line: nothing, or whole lines (it ends with a
   * line break) in none of which the one-line label `lit` occurs.
   */
  predicate NoLabelBefore(pre: string, lit: string) {
    pre == [] || (pre[|pre| - 1] == '\n' && '\n' !in lit && forall i :: 0 <= i < |pre| ==> !MatchesAt(pre, i, lit))
  }

  /** A match starting in the prefix would either lie inside it or cross its final line break. */
  lemma NoLabelAt(pre: string, s: string, lit: string, i: nat)
    requires NoLabelBefore(pre, lit) && pre <= s && i < |pre|
    ensures !MatchesAt(s, i, lit)
  {
    if MatchesAt(s, i, lit) {
      if i + |lit| <= |pre| {
        assert !MatchesAt(pre, i, lit);
        MatchesShrinkFrom(pre, s, i, lit, 0);
      } else {
        MatchesFromChar(s, i, lit, 0, |pre| - 1 - i);
      }
    }
  }

  /** Where the middle piece of a three-piece text sits. */
  lemma MiddleOf(a: string, b: string, c: string)
    ensures forall k :: 0 <= k < |b| ==> (a + b + c)[|a| + k] == b[k]
    ensures (a + b + c)[|a|..|a| + |b|] == b
    ensures (a + b + c)[|a| + |b|..] == c
  {
    assert (a + b + c)[|a|..|a| + |b|] == b;
    assert (a + b + c)[|a| + |b|..] == c;
  }

  /** `pat` occurs exactly (case-sensitively) at position `i` of `s`. */
  predicate OccursAt(s: string, i: nat, pat: string) {
    i + |pat| <= |s| && s[i..i + |pat|] == pat
  }

  /** Python's `pat in s`: a case-sensitive substring test. */
  predicate Contains(s: string, pat: string) {
    exists i: nat | i <= |s| :: OccursAt(s, i, pat)
  }

  /** The class of every character except `sep`. */
  function Not(sep: char): char -> bool {
    c => c != sep
  }

  /**
   * The first `j` with `lo <= j < hi` that satisfies `P`: the order in which a
   * regular-expression search, or a `for ... break` loop, tries its candidates.
   */
  function FirstWhere(P: nat -> bool, lo: nat, hi: nat): (r: Option<nat>)
    ensures r.Some? ==> lo <= r.value < hi && P(r.value)
    ensures r.Some? ==> forall j :: lo <= j < r.value ==> !P(j)
    ensures r.None? ==> forall j :: lo <= j < hi ==> !P(j)
    decreases hi - lo
  {
    if lo >= hi then None else if P(lo) then Some(lo) else FirstWhere(P, lo + 1, hi)
  }

  /** A candidate that holds, with none before it, is the one found. */
  lemma FirstWhereIs(P: nat -> bool, lo: nat, hi: nat, k: nat)
    requires lo <= k < hi && P(k)
    requires forall j :: lo <= j < k ==> !P(j)
    ensures FirstWhere(P, lo, hi) == Some(k)
  {
  }

  /** The end of the run of `inClass` characters starting at `p`: a greedy `[...]*`. */
  function RunEnd(s: string, p: nat, inClass: char -> bool): (r: nat)
    requires p <= |s|
    ensures p <= r <= |s|
    ensures forall k :: p <= k < r ==> inClass(s[k])
    ensures r < |s| ==> !inClass(s[r])
    decreases |s| - p
  {
    if p < |s| && inClass(s[p]) then RunEnd(s, p + 1, inClass) else p
  }

  /** Greedy `\s*` from `p`. */
  function SkipSpace(s: string, p: nat): (r: nat)
    requires p <= |s|
    ensures p <= r <= |s|
    ensures forall k :: p <= k < r ==> IsSpace(s[k])
    ensures r < |s| ==> !IsSpace(s[r])
  {
    RunEnd(s, p, IsSpace)
  }

  /** The index of the next line break at or after `p`, or the end of the text. */
  function LineEnd(s: string, p: nat): (r: nat)
    requires p <= |s|
    ensures p <= r <= |s|
    ensures forall k :: p <= k < r ==> s[k] != '\n'
    ensures r < |s| ==> s[r] == '\n'
  {
    RunEnd(s, p, Not('\n'))
  }

  /** The `[^\s(]` class that ends every label's value token. */
  predicate IsTokenChar(c: char) {
    !IsSpace(c) && c != '('
  }

  /** The index just past the last character of `s` that is not stripped. */
  function TrimRight(s: string, b: nat, stripped: char -> bool): (r: nat)
    requires b <= |s|
    ensures r <= b
    ensures forall k :: r <= k < b ==> stripped(s[k])
    ensures r > 0 ==> !stripped(s[r - 1])
  {
    if b > 0 && stripped(s[b - 1]) then TrimRight(s, b - 1, stripped) else b
  }

  /** Python's `s.strip(chars)`: both ends lose every character in the stripped class. */
  function StripBy(s: string, stripped: char -> bool): (r: string)
    ensures r == [] || (!stripped(r[0]) && !stripped(r[|r| - 1]))
  {
    var a := RunEnd(s, 0, stripped);
    var b := TrimRight(s, |s|, stripped);
    if a < b then s[a..b] else []
  }

  /**
   * Stripping keeps a slice of the text and removes only stripped characters
   * before and after it, and empties exactly a text made only of stripped characters.
   */
  lemma StripBySlice(s: string, stripped: char -> bool)
    ensures StripBy(s, stripped) == [] <==> forall k :: 0 <= k < |s| ==> stripped(s[k])
    ensures var r := StripBy(s, stripped); r == [] || (!stripped(r[0]) && !stripped(r[|r| - 1]))
    ensures exists a, b :: (0 <= a <= b <= |s| && StripBy(s, stripped) == s[a..b]
      && (forall k :: 0 <= k < a ==> stripped(s[k])) && (forall k :: b <= k < |s| ==> stripped(s[k])))
  {
    var a := RunEnd(s, 0, stripped);
    var b := TrimRight(s, |s|, stripped);
    if a < b {
      assert StripBy(s, stripped) == s[a..b];
    } else {
      assert forall k :: 0 <= k < |s| ==> stripped(s[k]);
      assert StripBy(s, stripped) == s[0..0];
    }
  }

  /** Python's `s.strip()`. */
  function Strip(s: string): (r: string)
    ensures r == [] || (!IsSpace(r[0]) && !IsSpace(r[|r| - 1]))
  {
    StripBy(s, IsSpace)
  }

  /** `strip()` keeps a slice of the text and removes only whitespace around it, and empties exactly an all-whitespace text. */
  lemma StripSlice(s: string)
    ensures Strip(s) == [] <==> forall k :: 0 <= k < |s| ==> IsSpace(s[k])
    ensures var r := Strip(s); r == [] || (!IsSpace(r[0]) && !IsSpace(r[|r| - 1]))
    ensures exists a, b :: (0 <= a <= b <= |s| && Strip(s) == s[a..b]
      && (forall k :: 0 <= k < a ==> IsSpace(s[k])) && (forall k :: b <= k < |s| ==> IsSpace(s[k])))
  {
    StripBySlice(s, IsSpace);
  }

  /** A text with no whitespace at either end is left as it is by `strip()`. */
  lemma {:induction false} StripNoEdgeSpace(s: string)
    requires s != [] && !IsSpace(s[0]) && !IsSpace(s[|s| - 1])
    ensures Strip(s) == s
  {
    assert RunEnd(s, 0, IsSpace) == 0;
    assert TrimRight(s, |s|, IsSpace) == |s|;
  }

  /** Whatever occurs, ignoring case, inside a slice also occurs inside the whole text. */
  lemma ContainsUpperSlice(s: string, a: nat, b: nat, pat: string)
    requires a <= b <= |s|
    ensures Contains(UpperStr(s[a..b]), pat) ==> Contains(UpperStr(s), pat)
  {
    var u := UpperStr(s);
    var v := UpperStr(s[a..b]);
    if Contains(v, pat) {
      var i: nat :| i <= |v| && OccursAt(v, i, pat);
      forall k | 0 <= k < |pat|
        ensures u[a + i + k] == pat[k]
      {
        assert v[i + k] == pat[k];
        assert s[a..b][i + k] == s[a + i + k];
      }
      assert u[a + i..a + i + |pat|] == pat;
      assert OccursAt(u, a + i, pat);
    }
  }

  /** Python's `s.split(sep)` for a one-character separator. */
  function Split(s: string, sep: char): (parts: seq<string>)
    ensures |parts| >= 1
    ensures forall k :: 0 <= k < |parts| ==> sep !in parts[k]
    decreases |s|
  {
    var e := RunEnd(s, 0, Not(sep));
    if e == |s| then [s] else [s[..e]] + Split(s[e + 1..], sep)
  }

  /** Python's `sep.join(parts)`. */
  function Join(parts: seq<string>, sep: string): (r: string)
    ensures |parts| == 1 ==> r == parts[0]
  {
    if parts == [] then [] else if |parts| == 1 then parts[0] else parts[0] + sep + Join(parts[1..], sep)
  }

  /** Joining a first piece onto at least one more. */
  lemma JoinCons(a: string, tail: seq<string>, sep: string)
    requires tail != []
    ensures Join([a] + tail, sep) == a + sep + Join(tail, sep)
  {
    assert ([a] + tail)[1..] == tail;
  }

  /** A text with a separator at `e` splits into the text before it and the pieces after it. */
  lemma SplitAt(s: string, sep: char, e: nat)
    requires e == RunEnd(s, 0, Not(sep)) && e < |s|
    ensures Split(s, sep) == [s[..e]] + Split(s[e + 1..], sep)
  {
  }

  /** Stripping only cuts the ends, so it brings no character in. */
  lemma StripKeepsOut(s: string, c: char)
    requires c !in s
    ensures c !in Strip(s)
  {
    StripSlice(s);
    var a, b :| 0 <= a <= b <= |s| && Strip(s) == s[a..b];
    assert forall i :: 0 <= i < b - a ==> s[a..b][i] == s[a + i];
  }

  /** A character missing from a text is missing from every piece of its split. */
  lemma {:induction false} SplitKeepsOut(s: string, sep: char, c: char)
    requires c !in s
    ensures forall k :: 0 <= k < |Split(s, sep)| ==> c !in Split(s, sep)[k]
    decreases |s|
  {
    var e := RunEnd(s, 0, Not(sep));
    if e < |s| {
      SplitKeepsOut(s[e + 1..], sep, c);
      SplitAt(s, sep, e);
      assert c !in s[..e] && c !in s[e + 1..];
    }
  }

  /** Joining the pieces of a split with the same separator gives the text back. */
  lemma {:induction false} JoinSplit(s: string, sep: char)
    ensures Join(Split(s, sep), [sep]) == s
    decreases |s|
  {
    var e := RunEnd(s, 0, Not(sep));
    if e < |s| {
      var rest := s[e + 1..];
      JoinSplit(rest, sep);
      SplitAt(s, sep, e);
      JoinCons(s[..e], Split(rest, sep), [sep]);
      assert s == s[..e] + [sep] + rest by {
        assert s[e] == sep;
      }
    }
  }
}
