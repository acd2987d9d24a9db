/**
 * `parse_gcov_json` (src/gcov_json_handler.cpp): validate a gcov JSON document
 * and merge its line verdicts into the caller's table.
 *
 * The functions below state what one call does, check by check and merge by
 * merge; `ParseGcovJson` is the imperative routine with the source's nested
 * loops, binary search and early returns, proved to agree with them.
 */
module GcovJson {
  import opened Wrappers
  import opened Json
  import opened Coverage

  /** One per early `return` of parse_gcov_json, in the order it checks them. */
  datatype GcovError =
    | ParseError
    | RootNotObject
    | NoFiles
    | FilesNotArray
    | FileNotObject
    | NoFileName
    | FileNameNotString
    | NoLines
    | LinesNotArray
    | LineNotObject
    | NoUnexecutedBlock
    | UnexecutedBlockNotBool
    | NoLineNumber
    | LineNumberNotUint
    | NoCount
    | CountNotUint

  /** The string returned for each error, spelled as the source spells it. */
  function Message(e: GcovError): (m: string)
    ensures m != ""
  {
    match e
    case ParseError => "parse error"
    case RootNotObject => "root isn't object"
    case NoFiles => "no 'files' attribute"
    case FilesNotArray => "'files' isn't array"
    case FileNotObject => "file isn't object"
    case NoFileName => "no 'file' attribute"
    case FileNameNotString => "'file' isn't string"
    case NoLines => "no lines attribute"
    case LinesNotArray => "'lines' isn't array"
    case LineNotObject => "line isn't object"
    case NoUnexecutedBlock => "no unexecute_block attribute"
    case UnexecutedBlockNotBool => "'unexecuted_block' isn't bool"
    case NoLineNumber => "no 'line_number' attribute"
    case LineNumberNotUint => "'line_number' isn't uint"
    case NoCount => "no 'count' attribute"
    case CountNotUint => "'count isn't uint"
  }

  /** The returned string: empty on success (`return {}`), the message otherwise. */
  function ErrorString(e: Option<GcovError>): (s: string)
    ensures s == "" <==> e.None?
  {
    match e
    case None => ""
    case Some(err) => Message(err)
  }

  /** The table as a call left it, and the error that stopped it, if any. */
  datatype Outcome<S> = Outcome(state: S, error: Option<GcovError>)

  /** Lines 18-26: the document parses, its root is an object, `files` is an array. */
  function FilesOf(doc: Document): Result<seq<Value>, GcovError> {
    match doc
    case Malformed => Failure(ParseError)
    case Parsed(root) =>
      if !root.JObject? then Failure(RootNotObject)
      else match Find(root.members, "files")
        case None => Failure(NoFiles)
        case Some(files) => if !files.JArray? then Failure(FilesNotArray) else Success(files.elems)
  }

  /**
   * The `std::string` made from the `const char*` that `GetString` returns:
   * the characters before the first NUL, or all of them when there is none.
   */
  function CString(s: string): (r: string)
    ensures r <= s
    ensures '\0' !in r
    ensures |r| < |s| ==> s[|r|] == '\0'
    ensures '\0' !in s ==> r == s
  {
    if s == [] || s[0] == '\0' then [] else [s[0]] + CString(s[1..])
  }

  /**
   * Lines 29-36: a file entry is an object with a string `file`; the name the
   * selector, the lookup and the insertion see (lines 37-42) is that string
   * cut at its first NUL.
   */
  function FileName(file: Value): (r: Result<string, GcovError>)
    ensures r.Success? ==> file.JObject?
  {
    if !file.JObject? then Failure(FileNotObject)
    else match Find(file.members, "file")
      case None => Failure(NoFileName)
      case Some(name) => if !name.JString? then Failure(FileNameNotString) else Success(CString(name.s))
  }

  /** Lines 48-52: a selected file entry has a `lines` array. */
  function FileLines(members: seq<(string, Value)>): Result<seq<Value>, GcovError> {
    match Find(members, "lines")
    case None => Failure(NoLines)
    case Some(lines) => if !lines.JArray? then Failure(LinesNotArray) else Success(lines.elems)
  }

  /**
   * Lines 55-75: a line entry is an object with a bool `unexecuted_block`, a
   * uint `line_number` and a uint `count`; its verdict is "uncovered" exactly
   * when the block is flagged unexecuted and the count is zero.
   */
  function LineVerdict(line: Value): Result<LineRecord, GcovError> {
    if !line.JObject? then Failure(LineNotObject)
    else
      var block := Find(line.members, "unexecuted_block");
      if block.None? then Failure(NoUnexecutedBlock)
      else if !block.value.JBool? then Failure(UnexecutedBlockNotBool)
      else
        var number := Find(line.members, "line_number");
        if number.None? then Failure(NoLineNumber)
        else if !IsUint(number.value) then Failure(LineNumberNotUint)
        else
          var count := Find(line.members, "count");
          if count.None? then Failure(NoCount)
          else if !IsUint(count.value) then Failure(CountNotUint)
          else Success(LineRecord(number.value.i, block.value.b && count.value.i == 0))
  }

  /**
   * The position `std::lower_bound` finds (lines 77-82): the first entry whose
   * line number is not below `n`, on a vector sorted by line number.
   */
  function LowerBoundIndex(s: FileCoverage, n: nat): (i: nat)
    ensures i <= |s|
    ensures forall k :: 0 <= k < i ==> s[k].line < n
    ensures i < |s| ==> s[i].line >= n
  {
    if s == [] || s[0].line >= n then 0 else 1 + LowerBoundIndex(s[1..], n)
  }

  /** Lines 83-86: AND into the entry for `n`, or insert a new entry at the bound. */
  function MergeLine(s: FileCoverage, n: nat, u: bool): FileCoverage {
    var i := LowerBoundIndex(s, n);
    if i < |s| && s[i].line == n then s[i := LineRecord(n, s[i].uncovered && u)]
    else s[..i] + [LineRecord(n, u)] + s[i..]
  }

  /**
   * Lines 83-86 on a sorted vector: the vector stays sorted; an existing entry
   * for `n` keeps its place and becomes `old && u`, otherwise exactly one entry
   * for `n` is added; nothing else changes.
   */
  lemma MergeLineCorrect(s: FileCoverage, n: nat, u: bool)
    requires Sorted(s)
    ensures Sorted(MergeLine(s, n, u))
    ensures LinesView(MergeLine(s, n, u)) == MergeVerdict(LinesView(s), n, u)
    ensures |MergeLine(s, n, u)| == if n in LinesView(s) then |s| else |s| + 1
  {
    var i := LowerBoundIndex(s, n);
    LinesViewDomain(s, n);
    if i < |s| && s[i].line == n {
      MergeExisting(s, i, u);
    } else {
      assert forall k :: 0 <= k < |s| ==> s[k].line != n by {
        forall k | 0 <= k < |s| ensures s[k].line != n {
          if k > i { assert s[i].line < s[k].line; }
        }
      }
      MergeInsert(s, i, n, u);
    }
  }

  lemma MergeExisting(s: FileCoverage, i: nat, u: bool)
    requires Sorted(s) && i < |s|
    ensures var r := s[i := LineRecord(s[i].line, s[i].uncovered && u)];
      Sorted(r) && LinesView(r) == MergeVerdict(LinesView(s), s[i].line, u)
  {
    var n := s[i].line;
    var r := s[i := LineRecord(n, s[i].uncovered && u)];
    var m := MergeVerdict(LinesView(s), n, u);
    LinesViewAt(s, i);
    forall k | 0 <= k < |r| ensures r[k].line in m && m[r[k].line] == r[k].uncovered {
      if k != i { LinesViewAt(s, k); }
    }
    forall x | x in m ensures exists k :: 0 <= k < |r| && r[k].line == x {
      if x == n {
        assert r[i].line == x;
      } else {
        LinesViewDomain(s, x);
        var k :| 0 <= k < |s| && s[k].line == x;
        assert r[k].line == x;
      }
    }
    LinesViewIs(r, m);
  }

  lemma MergeInsert(s: FileCoverage, i: nat, n: nat, u: bool)
    requires Sorted(s) && i <= |s|
    requires forall k :: 0 <= k < i ==> s[k].line < n
    requires forall k :: i <= k < |s| ==> s[k].line > n
    ensures var r := s[..i] + [LineRecord(n, u)] + s[i..];
      Sorted(r) && LinesView(r) == MergeVerdict(LinesView(s), n, u)
  {
    var r := s[..i] + [LineRecord(n, u)] + s[i..];
    InsertAt(s, i, LineRecord(n, u));
    InsertSorted(s, i, n, u);
    var m := MergeVerdict(LinesView(s), n, u);
    LinesViewDomain(s, n);
    forall k | 0 <= k < |r| ensures r[k].line in m && m[r[k].line] == r[k].uncovered {
      if k < i { LinesViewAt(s, k); } else if k > i { LinesViewAt(s, k - 1); }
    }
    forall x | x in m ensures exists k :: 0 <= k < |r| && r[k].line == x {
      if x == n {
        assert r[i].line == x;
      } else {
        LinesViewDomain(s, x);
        var k :| 0 <= k < |s| && s[k].line == x;
        if k < i { assert r[k].line == x; } else { assert r[k + 1].line == x; }
      }
    }
    LinesViewIs(r, m);
  }

  lemma InsertAt(s: FileCoverage, i: nat, x: LineRecord)
    requires i <= |s|
    ensures var r := s[..i] + [x] + s[i..];
      |r| == |s| + 1 && r[i] == x &&
      (forall k :: 0 <= k < i ==> r[k] == s[k]) &&
      (forall k :: i < k < |r| ==> r[k] == s[k - 1])
  {
  }

  lemma InsertSorted(s: FileCoverage, i: nat, n: nat, u: bool)
    requires Sorted(s) && i <= |s|
    requires forall k :: 0 <= k < i ==> s[k].line < n
    requires forall k :: i <= k < |s| ==> s[k].line > n
    ensures Sorted(s[..i] + [LineRecord(n, u)] + s[i..])
  {
    var r := s[..i] + [LineRecord(n, u)] + s[i..];
    InsertAt(s, i, LineRecord(n, u));
    forall a, b | 0 <= a < b < |r| ensures r[a].line < r[b].line {
      if b < i {
        assert r[a] == s[a] && r[b] == s[b];
      } else if b == i {
        assert r[a] == s[a];
      } else if a < i {
        assert r[a] == s[a] && r[b] == s[b - 1];
      } else if a == i {
        assert r[b] == s[b - 1];
      } else {
        assert r[a] == s[a - 1] && r[b] == s[b - 1];
      }
    }
  }

  /** Lines 53-87: merge each line entry in turn, stopping at the first bad one. */
  function ProcessLines(acc: FileCoverage, lines: seq<Value>): Outcome<FileCoverage>
    decreases |lines|
  {
    if lines == [] then Outcome(acc, None)
    else match LineVerdict(lines[0])
      case Failure(e) => Outcome(acc, Some(e))
      case Success(r) => ProcessLines(MergeLine(acc, r.line, r.uncovered), lines[1..])
  }

  /**
   * Lines 29-87 for one file entry: a rejected name is skipped; a selected one
   * gets its key (lines 39-44) before its `lines` are looked at.
   */
  function ProcessFile(t: Table, file: Value, selector: string -> bool): Outcome<Table> {
    match FileName(file)
    case Failure(e) => Outcome(t, Some(e))
    case Success(name) =>
      if !selector(name) then Outcome(t, None)
      else
        var t1 := if name in t then t else t[name := []];
        match FileLines(file.members)
        case Failure(e) => Outcome(t1, Some(e))
        case Success(lines) =>
          var r := ProcessLines(t1[name], lines);
          Outcome(t1[name := r.state], r.error)
  }

  /** Lines 27-88: the file entries in order, stopping at the first error. */
  function ProcessFiles(t: Table, files: seq<Value>, selector: string -> bool): Outcome<Table>
    decreases |files|
  {
    if files == [] then Outcome(t, None)
    else
      var r := ProcessFile(t, files[0], selector);
      if r.error.Some? then r else ProcessFiles(r.state, files[1..], selector)
  }

  /** The whole call: the table it leaves and the error it reports. */
  function ParseGcov(t: Table, doc: Document, selector: string -> bool): Outcome<Table> {
    match FilesOf(doc)
    case Failure(e) => Outcome(t, Some(e))
    case Success(files) => ProcessFiles(t, files, selector)
  }

  /** A sorted vector has one place where lines stop being below `n`. */
  lemma PartitionPointUnique(s: FileCoverage, n: nat, a: nat, b: nat)
    requires a <= |s| && b <= |s|
    requires forall k :: 0 <= k < a ==> s[k].line < n
    requires a < |s| ==> s[a].line >= n
    requires forall k :: 0 <= k < b ==> s[k].line < n
    requires b < |s| ==> s[b].line >= n
    ensures a == b
  {
  }

  /** `std::lower_bound` by bisection on a sorted vector. */
  method LowerBound(s: FileCoverage, n: nat) returns (i: nat)
    requires Sorted(s)
    ensures i == LowerBoundIndex(s, n)
  {
    var lo, hi := 0, |s|;
    while lo < hi
      invariant 0 <= lo <= hi <= |s|
      invariant forall k :: 0 <= k < lo ==> s[k].line < n
      invariant forall k :: hi <= k < |s| ==> s[k].line >= n
    {
      var mid := lo + (hi - lo) / 2;
      if s[mid].line < n {
        lo := mid + 1;
      } else {
        hi := mid;
      }
    }
    PartitionPointUnique(s, n, lo, LowerBoundIndex(s, n));
    i := lo;
  }

  /**
   * The inner loop of parse_gcov_json (lines 53-87) over one selected file's
   * vector `lines_out`: each line entry is checked and merged at the position
   * the binary search finds; the first bad entry stops the loop, and the merges
   * before it stay.
   */
  method MergeLines(linesOut: FileCoverage, lines: seq<Value>) returns (merged: FileCoverage, error: Option<GcovError>)
    requires Sorted(linesOut)
    ensures Outcome(merged, error) == ProcessLines(linesOut, lines)
    ensures Sorted(merged)
  {
    merged := linesOut;
    var k := 0;
    while k < |lines|
      invariant 0 <= k <= |lines|
      invariant Sorted(merged)
      invariant ProcessLines(merged, lines[k..]) == ProcessLines(linesOut, lines)
    {
      assert lines[k..][0] == lines[k] && lines[k..][1..] == lines[k + 1..];
      var record: LineRecord;
      match LineVerdict(lines[k]) {
        case Failure(e) => return merged, Some(e);
        case Success(r) => record := r;
      }
      ghost var previous := merged;
      var pos := LowerBound(merged, record.line);
      if pos < |merged| && merged[pos].line == record.line {
        merged := merged[pos := LineRecord(record.line, merged[pos].uncovered && record.uncovered)];
      } else {
        merged := merged[..pos] + [record] + merged[pos..];
      }
      assert merged == MergeLine(previous, record.line, record.uncovered);
      MergeLineCorrect(previous, record.line, record.uncovered);
      k := k + 1;
    }
    assert lines[k..] == [];
    error := None;
  }

  /**
   * parse_gcov_json. `out` is the caller's table; `res` is that table as the
   * call leaves it, including the merges made before an error return.
   * Every vector must be sorted on entry, as `std::lower_bound` demands.
   */
  method ParseGcovJson(out: Table, doc: Document, selector: string -> bool) returns (res: Table, err: string)
    requires TableSorted(out)
    ensures res == ParseGcov(out, doc, selector).state
    ensures err == ErrorString(ParseGcov(out, doc, selector).error)
    ensures TableSorted(res)
  {
    res := out;
    var files: seq<Value>;
    match FilesOf(doc) {
      case Failure(e) => return res, Message(e);
      case Success(fs) => files := fs;
    }
    var i := 0;
    while i < |files|
      invariant 0 <= i <= |files|
      invariant TableSorted(res)
      invariant ProcessFiles(res, files[i..], selector) == ProcessFiles(out, files, selector)
    {
      ghost var start := res;
      var file := files[i];
      assert files[i..][0] == file && files[i..][1..] == files[i + 1..];
      ghost var step := ProcessFile(start, file, selector);
      assert ProcessFiles(start, files[i..], selector)
          == if step.error.Some? then step else ProcessFiles(step.state, files[i + 1..], selector);
      var name: string;
      match FileName(file) {
        case Failure(e) =>
          assert step == Outcome(start, Some(e));
          return res, Message(e);
        case Success(n) => name := n;
      }
      if !selector(name) {
        assert step == Outcome(start, None);
        i := i + 1;
        continue;
      }
      if name !in res {
        res := res[name := []];
      }
      var lines: seq<Value>;
      match FileLines(file.members) {
        case Failure(e) =>
          assert step == Outcome(res, Some(e));
          return res, Message(e);
        case Success(ls) => lines := ls;
      }
      var merged, lineError := MergeLines(res[name], lines);
      res := res[name := merged];
      if lineError.Some? {
        return res, Message(lineError.value);
      }
      i := i + 1;
    }
    err := "";
  }
}
