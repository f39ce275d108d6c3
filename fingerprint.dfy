/**
 * The per-column part of `analyze_csv_structure` and `estimate_tokens`.  A
 * column is the sequence of its cells, a missing cell (`NaN`) being `None`;
 * the table reader itself is not modelled.
 */
module Fingerprint {
  import opened Wrappers

  /** Python's `//` on non-negative integers. */
  function FloorDiv(n: nat, d: nat): nat
    requires d > 0
  {
    n / d
  }

  /** `estimate_tokens`: no tokens for missing or empty text, otherwise a quarter of its length, rounded down. */
  function EstimateTokens(text: Option<string>): (r: nat)
    ensures text.None? || text == Some([]) ==> r == 0
    ensures text.Some? ==> r * 4 <= |text.value| < r * 4 + 4
  {
    if text.None? || text.value == [] then 0 else FloorDiv(|text.value|, 4)
  }

  /** `df[col].dropna()`: the present values, in row order. */
  function Present<V(==,!new)>(col: seq<Option<V>>): (r: seq<V>)
    ensures |r| <= |col|
    ensures forall v :: v in r <==> Some(v) in col
    ensures r == [] <==> forall i :: 0 <= i < |col| ==> col[i].None?
  {
    if col == [] then []
    else
      var init := col[..|col| - 1];
      var last := col[|col| - 1];
      assert forall c :: c in col <==> c in init || c == last;
      Present(init) + if last.Some? then [last.value] else []
  }

  /** `.head(3)`. */
  function Head<V>(xs: seq<V>, n: nat): (r: seq<V>)
    ensures r <= xs && |r| == if |xs| < n then |xs| else n
  {
    if |xs| <= n then xs else xs[..n]
  }

  /** The sample values shown for a column: its first three present values. */
  function Samples<V(==,!new)>(col: seq<Option<V>>): (r: seq<V>)
    ensures r <= Present(col) && |r| <= 3
    ensures |Present(col)| >= 3 ==> |r| == 3
    ensures |Present(col)| < 3 ==> r == Present(col)
  {
    Head(Present(col), 3)
  }

  /** The statistics the classifier sees for a column. */
  datatype ColumnStats = ColumnStats(uniqueCount: nat, totalCount: nat, isCategorical: bool)

  /** `col_data.nunique()`: the number of distinct present values. */
  function Distinct<V(==,!new)>(xs: seq<V>): set<V> {
    set v | v in xs
  }

  /** `unique_count < total_count * 0.1 and total_count > 10`, in exact arithmetic. */
  predicate Categorical(unique: nat, total: nat) {
    (unique as real) < (total as real) * 0.1 && total > 10
  }

  /** Statistics exist only for a column with at least one present value. */
  function Stats<V(==,!new)>(col: seq<Option<V>>): (r: Option<ColumnStats>)
    ensures r.Some? <==> exists i :: 0 <= i < |col| && col[i].Some?
    ensures r.Some? ==> r.value.totalCount == |Present(col)| > 0
    ensures r.Some? ==> r.value.uniqueCount == |Distinct(Present(col))|
    ensures r.Some? && r.value.isCategorical ==> r.value.totalCount > 10
  {
    var data := Present(col);
    if |data| > 0 then
      var unique := |Distinct(data)|;
      var total := |data|;
      Some(ColumnStats(unique, total, Categorical(unique, total)))
    else
      None
  }

  /** A sequence has no more distinct values than elements, and at least one when it is not empty. */
  lemma {:induction false} DistinctBounds<V(!new)>(xs: seq<V>)
    ensures |Distinct(xs)| <= |xs|
    ensures xs != [] ==> |Distinct(xs)| >= 1
  {
    if xs != [] {
      var init := xs[..|xs| - 1];
      DistinctBounds(init);
      DistinctSnoc(xs);
    }
  }

  /** The distinct values of a sequence are those before its last element, and that element. */
  lemma DistinctSnoc<V(!new)>(xs: seq<V>)
    requires xs != []
    ensures Distinct(xs) == Distinct(xs[..|xs| - 1]) + {xs[|xs| - 1]}
  {
    assert xs == xs[..|xs| - 1] + [xs[|xs| - 1]];
  }

  /** A column's statistics count between one and all of its present values as distinct. */
  lemma StatsBounds<V(!new)>(col: seq<Option<V>>)
    requires Stats(col).Some?
    ensures 1 <= Stats(col).value.uniqueCount <= Stats(col).value.totalCount
  {
    DistinctBounds(Present(col));
  }

  /** A column whose present values are all different is never categorical. */
  lemma {:induction false} AllDistinctNotCategorical<V(!new)>(col: seq<Option<V>>)
    requires Stats(col).Some?
    requires |Distinct(Present(col))| == |Present(col)|
    ensures !Stats(col).value.isCategorical
  {
    var total := |Present(col)|;
    assert (total as real) * 0.1 <= total as real;
  }

  /** More than ten present copies of a single value make a categorical column. */
  lemma ConstantColumnCategorical<V(!new)>(col: seq<Option<V>>, v: V)
    requires |Present(col)| > 10
    requires forall i :: 0 <= i < |col| ==> col[i].None? || col[i] == Some(v)
    ensures Stats(col).Some? && Stats(col).value.isCategorical
  {
    var data := Present(col);
    assert Distinct(data) == {v} by {
      assert data[0] in data;
      forall w | w in data ensures w == v {
        assert Some(w) in col;
      }
    }
    assert (|data| as real) * 0.1 > 1.0;
  }

  /** Up to ten present values are never categorical, however few distinct values they hold. */
  lemma FewValuesNotCategorical<V(!new)>(col: seq<Option<V>>)
    requires |Present(col)| <= 10
    ensures Stats(col).None? || !Stats(col).value.isCategorical
  {
  }

  /** In exact arithmetic, categorical means fewer distinct values than a tenth of the present ones, and more than ten of those. */
  lemma CategoricalIsTenthRule(unique: nat, total: nat)
    ensures Categorical(unique, total) <==> 10 * unique < total && total > 10
  {
    assert (unique as real) < (total as real) * 0.1 <==> 10.0 * (unique as real) < total as real;
  }
}
