/**
 * The common-columns block of the multi-file run: for every column name that
 * occurs in at least two analysed files, the keys of those files (in file
 * order) and how many there are.  Nothing is shared when only one file was
 * analysed.
 */
module CrossFile {

  /** The analysed files, in order: each file's key and its column names. */
  type Analyses = seq<(string, seq<string>)>

  /** One entry of the common-columns map: `{"files": ..., "count": ...}`. */
  datatype Common = Common(files: seq<string>, count: nat)

  /** The union of every file's column names. */
  function AllColumnNames(fs: Analyses): (r: set<string>)
    ensures forall c :: c in r <==> exists i :: 0 <= i < |fs| && c in fs[i].1
  {
    if fs == [] then {}
    else
      var last := fs[|fs| - 1];
      var r := AllColumnNames(fs[..|fs| - 1]) + set c | c in last.1;
      assert forall i :: 0 <= i < |fs| - 1 ==> fs[..|fs| - 1][i] == fs[i];
      r
  }

  /** `[f for f, a in all_analyses.items() if col_name in a["columns"]]`. */
  function FilesWith(fs: Analyses, c: string): seq<string> {
    if fs == [] then [] else (if c in fs[0].1 then [fs[0].0] else []) + FilesWith(fs[1..], c)
  }

  /** The files listed for a column are the keys of the files that hold it, no more than there are files. */
  lemma {:induction false} FilesWithHolders(fs: Analyses, c: string)
    ensures |FilesWith(fs, c)| <= |fs|
    ensures forall f :: f in FilesWith(fs, c) <==> exists i :: 0 <= i < |fs| && fs[i].0 == f && c in fs[i].1
    ensures FilesWith(fs, c) == [] <==> forall i :: 0 <= i < |fs| ==> c !in fs[i].1
  {
    if fs != [] {
      FilesWithHolders(fs[1..], c);
      assert forall i :: 1 <= i < |fs| ==> fs[1..][i - 1] == fs[i];
    }
  }

  /** The files holding a column keep the order of the analysed files. */
  lemma {:induction false} FilesWithAppend(a: Analyses, b: Analyses, c: string)
    ensures FilesWith(a + b, c) == FilesWith(a, c) + FilesWith(b, c)
  {
    if a == [] {
      assert a + b == b;
    } else {
      assert (a + b)[0] == a[0];
      assert (a + b)[1..] == a[1..] + b;
      FilesWithAppend(a[1..], b, c);
    }
  }

  /** Two distinct files contain the column. */
  predicate HeldTwice(fs: Analyses, c: string) {
    exists i, j :: 0 <= i < j < |fs| && c in fs[i].1 && c in fs[j].1
  }

  /** Some file contains the column. */
  predicate HeldOnce(fs: Analyses, c: string) {
    exists i :: 0 <= i < |fs| && c in fs[i].1
  }

  /** With the first file holding the column, a second holder is any holder among the rest. */
  lemma TwiceWithFirst(fs: Analyses, c: string)
    requires fs != [] && c in fs[0].1
    ensures HeldTwice(fs, c) <==> HeldOnce(fs[1..], c)
  {
    var tail := fs[1..];
    if HeldOnce(tail, c) {
      var j :| 0 <= j < |tail| && c in tail[j].1;
      assert tail[j] == fs[j + 1];
    }
    if HeldTwice(fs, c) {
      var i, j :| 0 <= i < j < |fs| && c in fs[i].1 && c in fs[j].1;
      assert tail[j - 1] == fs[j];
    }
  }

  /** Without the first file holding the column, two holders must both be among the rest. */
  lemma TwiceWithoutFirst(fs: Analyses, c: string)
    requires fs != [] && c !in fs[0].1
    ensures HeldTwice(fs, c) <==> HeldTwice(fs[1..], c)
  {
    var tail := fs[1..];
    if HeldTwice(fs, c) {
      var i, j :| 0 <= i < j < |fs| && c in fs[i].1 && c in fs[j].1;
      assert tail[i - 1] == fs[i] && tail[j - 1] == fs[j];
    }
    if HeldTwice(tail, c) {
      var i, j :| 0 <= i < j < |tail| && c in tail[i].1 && c in tail[j].1;
      assert tail[i] == fs[i + 1] && tail[j] == fs[j + 1];
    }
  }

  /** A column is listed by at least two files exactly when two distinct files contain it. */
  lemma {:induction false} TwoHolders(fs: Analyses, c: string)
    ensures |FilesWith(fs, c)| >= 2 <==> HeldTwice(fs, c)
  {
    if fs != [] {
      var tail := fs[1..];
      if c in fs[0].1 {
        assert |FilesWith(fs, c)| == 1 + |FilesWith(tail, c)|;
        FilesWithHolders(tail, c);
        TwiceWithFirst(fs, c);
      } else {
        assert FilesWith(fs, c) == FilesWith(tail, c);
        TwoHolders(tail, c);
        TwiceWithoutFirst(fs, c);
      }
    }
  }

  /** The common-columns map as a whole, when more than one file was analysed. */
  function CommonSpec(fs: Analyses): (r: map<string, Common>)
    ensures |fs| <= 1 ==> r == map[]
    ensures forall c :: c in r <==> |fs| > 1 && HeldTwice(fs, c)
    ensures forall c :: c in r ==> (r[c].count == |r[c].files| >= 2
      && forall f :: f in r[c].files <==> exists i :: 0 <= i < |fs| && fs[i].0 == f && c in fs[i].1)
  {
    if |fs| <= 1 then map[]
    else
      var r := map c | c in AllColumnNames(fs) && |FilesWith(fs, c)| > 1 ::
        Common(FilesWith(fs, c), |FilesWith(fs, c)|);
      forall c
        ensures c in r <==> HeldTwice(fs, c)
        ensures forall f :: f in FilesWith(fs, c) <==> exists i :: 0 <= i < |fs| && fs[i].0 == f && c in fs[i].1
      {
        TwoHolders(fs, c);
        FilesWithHolders(fs, c);
        if HeldTwice(fs, c) {
          var i, j :| 0 <= i < j < |fs| && c in fs[i].1 && c in fs[j].1;
        }
      }
      r
  }

  /** The block as the source runs it: collect every column name, then keep those held by two files or more. */
  method CommonColumns(fs: Analyses) returns (r: map<string, Common>)
    ensures r == CommonSpec(fs)
  {
    r := map[];
    if |fs| > 1 {
      var all := CollectColumnNames(fs);
      r := KeepShared(fs, all);
    }
  }

  /** The first loop: the union of the files' column names. */
  method CollectColumnNames(fs: Analyses) returns (all: set<string>)
    ensures all == AllColumnNames(fs)
  {
    all := {};
    for i := 0 to |fs|
      invariant all == AllColumnNames(fs[..i])
    {
      assert fs[..i + 1][..i] == fs[..i];
      all := all + set c | c in fs[i].1;
    }
    assert fs[..|fs|] == fs;
  }

  /** The second loop: an entry for every collected name that at least two files hold. */
  method KeepShared(fs: Analyses, all: set<string>) returns (r: map<string, Common>)
    ensures r == map c | c in all && |FilesWith(fs, c)| > 1 :: Common(FilesWith(fs, c), |FilesWith(fs, c)|)
  {
    r := map[];
    var todo := all;
    while todo != {}
      invariant todo <= all
      invariant forall c :: c in r <==> c in all && c !in todo && |FilesWith(fs, c)| > 1
      invariant forall c :: c in r ==> r[c] == Common(FilesWith(fs, c), |FilesWith(fs, c)|)
      decreases |todo|
    {
      var c :| c in todo;
      var files := FilesWith(fs, c);
      if |files| > 1 {
        r := r[c := Common(files, |files|)];
      }
      todo := todo - {c};
    }
  }
}
