/**
 * The line-coverage table of src/gcov_json_handler.hpp: a map from file path to
 * a vector of (line number, unexecuted) tuples, and the meaning of that vector
 * as a map from line number to verdict.
 */
module Coverage {

  /** One element of `lines_t`: a line number and whether its block never ran. */
  datatype LineRecord = LineRecord(line: nat, uncovered: bool)

  /** `lines_t`. */
  type FileCoverage = seq<LineRecord>

  /** `files_t`: path, exactly as the tool reports it, to that file's lines. */
  type Table = map<string, FileCoverage>

  /** The vector is strictly increasing by line number (so one entry per line). */
  predicate Sorted(s: FileCoverage) {
    forall i, j :: 0 <= i < j < |s| ==> s[i].line < s[j].line
  }

  predicate TableSorted(t: Table) {
    forall f :: f in t ==> Sorted(t[f])
  }

  /** What a file's vector says: line number to "uncovered". */
  function LinesView(s: FileCoverage): map<nat, bool> {
    if s == [] then map[] else LinesView(s[1..])[s[0].line := s[0].uncovered]
  }

  function TableView(t: Table): map<string, map<nat, bool>> {
    map f | f in t :: LinesView(t[f])
  }

  /**
   * The conjunctive rule: a line stays uncovered only while every report
   * mentioning it says so; a line seen for the first time takes the new verdict.
   */
  function MergeVerdict(m: map<nat, bool>, n: nat, u: bool): map<nat, bool> {
    m[n := if n in m then m[n] && u else u]
  }

  lemma {:induction false} LinesViewDomain(s: FileCoverage, n: nat)
    ensures n in LinesView(s) <==> exists i :: 0 <= i < |s| && s[i].line == n
  {
    if s != [] {
      LinesViewDomain(s[1..], n);
      if n in LinesView(s[1..]) {
        var i :| 0 <= i < |s| - 1 && s[1..][i].line == n;
        assert s[i + 1].line == n;
      }
      if exists i :: 0 <= i < |s| && s[i].line == n {
        var i :| 0 <= i < |s| && s[i].line == n;
        if i > 0 { assert s[1..][i - 1].line == n; }
      }
    }
  }

  lemma {:induction false} LinesViewAt(s: FileCoverage, i: nat)
    requires Sorted(s) && i < |s|
    ensures s[i].line in LinesView(s) && LinesView(s)[s[i].line] == s[i].uncovered
  {
    if i > 0 {
      assert s[1..][i - 1] == s[i];
      LinesViewAt(s[1..], i - 1);
    }
  }

  /** A sorted vector is the one whose view has exactly its entries. */
  lemma LinesViewIs(s: FileCoverage, m: map<nat, bool>)
    requires Sorted(s)
    requires forall i :: 0 <= i < |s| ==> s[i].line in m && m[s[i].line] == s[i].uncovered
    requires forall n :: n in m ==> exists i :: 0 <= i < |s| && s[i].line == n
    ensures LinesView(s) == m
  {
    forall n ensures n in LinesView(s) <==> n in m {
      LinesViewDomain(s, n);
    }
    forall n | n in m ensures LinesView(s)[n] == m[n] {
      var i :| 0 <= i < |s| && s[i].line == n;
      LinesViewAt(s, i);
    }
  }

  /** Two sorted vectors that say the same thing are the same vector. */
  lemma {:induction false} SortedViewDetermines(a: FileCoverage, b: FileCoverage)
    requires Sorted(a) && Sorted(b) && LinesView(a) == LinesView(b)
    ensures a == b
  {
    if a == [] {
      if b != [] { LinesViewAt(b, 0); assert false; }
    } else if b == [] {
      LinesViewAt(a, 0); assert false;
    } else {
      LinesViewAt(a, 0);
      LinesViewAt(b, 0);
      LinesViewDomain(a, b[0].line);
      LinesViewDomain(b, a[0].line);
      assert a[0] == b[0];
      LinesViewDomain(a[1..], a[0].line);
      LinesViewDomain(b[1..], b[0].line);
      assert LinesView(a[1..]) == LinesView(a) - {a[0].line};
      assert LinesView(b[1..]) == LinesView(b) - {b[0].line};
      SortedViewDetermines(a[1..], b[1..]);
      assert a == [a[0]] + a[1..] && b == [b[0]] + b[1..];
    }
  }

  /** Two sorted tables that say the same thing are the same table. */
  lemma TableViewDetermines(a: Table, b: Table)
    requires TableSorted(a) && TableSorted(b) && TableView(a) == TableView(b)
    ensures a == b
  {
    assert a.Keys == TableView(a).Keys && b.Keys == TableView(b).Keys;
    forall f | f in a ensures a[f] == b[f] {
      assert LinesView(a[f]) == TableView(a)[f] == TableView(b)[f] == LinesView(b[f]);
      SortedViewDetermines(a[f], b[f]);
    }
  }

  lemma TableViewUpdate(t: Table, f: string, s: FileCoverage)
    ensures TableView(t[f := s]) == TableView(t)[f := LinesView(s)]
  {
  }
}
