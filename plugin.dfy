/**
 * `GetCoverageGcovLines` of python/vimgcov.py: the guards that raise, and
 * the loop that splits the vector of the requested file into covered and
 * uncovered line numbers.
 *
 * `Path(filename).is_file()`, the `.gcno` files found under the current
 * directory and `multiprocessing.cpu_count()` are parameters.
 */
module Plugin {
  import opened Wrappers
  import opened Json
  import opened Coverage
  import opened Entry

  /** The two exceptions the function raises. */
  datatype PyError = FileNotFoundError(filename: string) | KeyError(filename: string)

  /** The line numbers of the entries flagged `unexecuted_block`, in order. */
  function Uncovered(s: FileCoverage): seq<nat> {
    if s == [] then []
    else Uncovered(s[..|s| - 1]) + (if s[|s| - 1].uncovered then [s[|s| - 1].line] else [])
  }

  /** The line numbers of all other entries, in order. */
  function Covered(s: FileCoverage): seq<nat> {
    if s == [] then []
    else Covered(s[..|s| - 1]) + (if s[|s| - 1].uncovered then [] else [s[|s| - 1].line])
  }

  /** Lines 31-38: one pass appending each line number to one of two lists. */
  method Partition(s: FileCoverage) returns (covered: seq<nat>, uncovered: seq<nat>)
    ensures covered == Covered(s) && uncovered == Uncovered(s)
  {
    covered, uncovered := [], [];
    for i := 0 to |s|
      invariant covered == Covered(s[..i]) && uncovered == Uncovered(s[..i])
    {
      assert s[..i + 1][..i] == s[..i];
      var entry := s[i];
      if entry.uncovered {
        uncovered := uncovered + [entry.line];
      } else {
        covered := covered + [entry.line];
      }
    }
    assert s[..|s|] == s;
  }

  /**
   * Lines 6-44: `FileNotFoundError` when the file does not exist, before any
   * coverage is computed; `KeyError` when the coverage map has no entry for
   * it; otherwise the covered and uncovered line numbers of its vector.
   */
  method GetCoverageGcovLines(filename: string, isFile: bool, gcnos: seq<string>, cpuCount: nat,
                              run: Runner, decode: string -> Document)
    returns (r: Result<(seq<nat>, seq<nat>), PyError>)
    requires cpuCount >= 1
    ensures !isFile ==> r == Failure(FileNotFoundError(filename))
    ensures isFile && filename !in GcovCoverage(run, decode, gcnos, filename) ==> r == Failure(KeyError(filename))
    ensures isFile && filename in GcovCoverage(run, decode, gcnos, filename) ==>
      var lines := GcovCoverage(run, decode, gcnos, filename)[filename];
      r == Success((Covered(lines), Uncovered(lines)))
  {
    if !isFile {
      return Failure(FileNotFoundError(filename));
    }
    var files := GetCoverage(run, decode, gcnos, cpuCount, filename);
    if filename !in files {
      return Failure(KeyError(filename));
    }
    var covered, uncovered := Partition(files[filename]);
    r := Success((covered, uncovered));
  }

  /** Every entry lands in exactly one of the two lists. */
  lemma {:induction false} PartitionSizes(s: FileCoverage)
    ensures |Covered(s)| + |Uncovered(s)| == |s|
    decreases |s|
  {
    if s != [] {
      PartitionSizes(s[..|s| - 1]);
    }
  }

  /** A number is in the uncovered list iff some entry has it as line number and is flagged. */
  lemma {:induction false} UncoveredMembers(s: FileCoverage)
    ensures forall n :: n in Uncovered(s) <==> exists k :: 0 <= k < |s| && s[k].line == n && s[k].uncovered
    decreases |s|
  {
    if s != [] {
      var p := s[..|s| - 1];
      UncoveredMembers(p);
      forall n ensures n in Uncovered(s) <==> exists k :: 0 <= k < |s| && s[k].line == n && s[k].uncovered {
        if exists k :: 0 <= k < |s| && s[k].line == n && s[k].uncovered {
          var k :| 0 <= k < |s| && s[k].line == n && s[k].uncovered;
          if k < |p| { assert p[k] == s[k]; }
        }
        if n in Uncovered(p) {
          var k :| 0 <= k < |p| && p[k].line == n && p[k].uncovered;
          assert s[k] == p[k];
        }
      }
    }
  }

  /** A number is in the covered list iff some entry has it as line number and is not flagged. */
  lemma {:induction false} CoveredMembers(s: FileCoverage)
    ensures forall n :: n in Covered(s) <==> exists k :: 0 <= k < |s| && s[k].line == n && !s[k].uncovered
    decreases |s|
  {
    if s != [] {
      var p := s[..|s| - 1];
      CoveredMembers(p);
      forall n ensures n in Covered(s) <==> exists k :: 0 <= k < |s| && s[k].line == n && !s[k].uncovered {
        if exists k :: 0 <= k < |s| && s[k].line == n && !s[k].uncovered {
          var k :| 0 <= k < |s| && s[k].line == n && !s[k].uncovered;
          if k < |p| { assert p[k] == s[k]; }
        }
        if n in Covered(p) {
          var k :| 0 <= k < |p| && p[k].line == n && !p[k].uncovered;
          assert s[k] == p[k];
        }
      }
    }
  }

  predicate Increasing(xs: seq<nat>) {
    forall i, j :: 0 <= i < j < |xs| ==> xs[i] < xs[j]
  }

  /** Appending a number above everything in an increasing list keeps it increasing. */
  lemma AppendAbove(xs: seq<nat>, ys: seq<nat>, n: nat)
    requires Increasing(xs) && (forall x :: x in xs ==> x < n) && (ys == [] || ys == [n])
    ensures Increasing(xs + ys)
  {
    if ys == [n] {
      forall i, j | 0 <= i < j < |xs + ys| ensures (xs + ys)[i] < (xs + ys)[j] {
        if j == |xs| { assert xs[i] in xs; }
      }
    } else {
      assert xs + ys == xs;
    }
  }

  /**
   * On a sorted vector both lists are strictly increasing, so they keep the
   * order of the vector, and no line number is in both.
   */
  lemma {:induction false} PartitionIncreasing(s: FileCoverage)
    requires Sorted(s)
    ensures Increasing(Covered(s)) && Increasing(Uncovered(s))
    ensures forall n :: !(n in Covered(s) && n in Uncovered(s))
    decreases |s|
  {
    if s != [] {
      var p := s[..|s| - 1];
      var last := s[|s| - 1];
      PartitionIncreasing(p);
      CoveredMembers(p);
      UncoveredMembers(p);
      forall x | x in Covered(p) ensures x < last.line {
        var k :| 0 <= k < |p| && p[k].line == x && !p[k].uncovered;
        assert p[k] == s[k];
      }
      forall x | x in Uncovered(p) ensures x < last.line {
        var k :| 0 <= k < |p| && p[k].line == x && p[k].uncovered;
        assert p[k] == s[k];
      }
      AppendAbove(Covered(p), if last.uncovered then [] else [last.line], last.line);
      AppendAbove(Uncovered(p), if last.uncovered then [last.line] else [], last.line);
    }
  }

  /** The vector of the valid-file test: lines 1 and 3 covered, 2 and 4 uncovered. */
  lemma PartitionFixture()
    ensures var s := [LineRecord(1, false), LineRecord(2, true), LineRecord(3, false), LineRecord(4, true)];
      Covered(s) == [1, 3] && Uncovered(s) == [2, 4]
  {
    var s := [LineRecord(1, false), LineRecord(2, true), LineRecord(3, false), LineRecord(4, true)];
    assert s[..3] == s[..4][..3] && s[..3][..2] == s[..2] && s[..2][..1] == s[..1] && s[..1][..0] == [];
    assert s[..4] == s;
    assert Covered(s[..1]) == [1] && Uncovered(s[..1]) == [];
    assert Covered(s[..2]) == [1] && Uncovered(s[..2]) == [2];
    assert Covered(s[..3]) == [1, 3] && Uncovered(s[..3]) == [2];
  }
}
