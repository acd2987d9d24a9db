/**
 * What parse_gcov_json (src/gcov_json_handler.cpp) guarantees, stated about the
 * functions of module GcovJson that `ParseGcovJson` is proved to compute.
 */
module GcovJsonProps {
  import opened Wrappers
  import opened Json
  import opened Coverage
  import opened MergeOps
  import opened GcovJson

  // ---------------------------------------------------------------------------
  // Sortedness: every vector stays strictly increasing, whether the call
  // succeeds or stops at an error.

  lemma {:induction false} ProcessLinesSorted(acc: FileCoverage, lines: seq<Value>)
    requires Sorted(acc)
    ensures Sorted(ProcessLines(acc, lines).state)
    decreases |lines|
  {
    if lines != [] && LineVerdict(lines[0]).Success? {
      var r := LineVerdict(lines[0]).value;
      MergeLineCorrect(acc, r.line, r.uncovered);
      ProcessLinesSorted(MergeLine(acc, r.line, r.uncovered), lines[1..]);
    }
  }

  lemma ProcessFileSorted(t: Table, file: Value, selector: string -> bool)
    requires TableSorted(t)
    ensures TableSorted(ProcessFile(t, file, selector).state)
  {
    if FileName(file).Success? {
      var name := FileName(file).value;
      var t1 := if name in t then t else t[name := []];
      if selector(name) && FileLines(file.members).Success? {
        ProcessLinesSorted(t1[name], FileLines(file.members).value);
      }
    }
  }

  lemma {:induction false} ProcessFilesSorted(t: Table, files: seq<Value>, selector: string -> bool)
    requires TableSorted(t)
    ensures TableSorted(ProcessFiles(t, files, selector).state)
    decreases |files|
  {
    if files != [] {
      ProcessFileSorted(t, files[0], selector);
      ProcessFilesSorted(ProcessFile(t, files[0], selector).state, files[1..], selector);
    }
  }

  /** Sorted vectors in, sorted vectors out, on success and on every error return. */
  lemma ParseGcovSorted(t: Table, doc: Document, selector: string -> bool)
    requires TableSorted(t)
    ensures TableSorted(ParseGcov(t, doc, selector).state)
  {
    if FilesOf(doc).Success? {
      ProcessFilesSorted(t, FilesOf(doc).value, selector);
    }
  }

  // ---------------------------------------------------------------------------
  // Filtering: what the selector rejects, and what the document does not name,
  // is left alone; keys are only ever added.

  /** The names of the file entries that pass the object/`file`/string checks. */
  function Names(files: seq<Value>): set<string> {
    if files == [] then {}
    else (if FileName(files[0]).Success? then {FileName(files[0]).value} else {}) + Names(files[1..])
  }

  function DocumentNames(doc: Document): set<string> {
    if FilesOf(doc).Success? then Names(FilesOf(doc).value) else {}
  }

  /** Key `k` is present after iff before, with the same vector. */
  ghost predicate Untouched(before: Table, after: Table, k: string) {
    (k in after <==> k in before) && (k in before ==> after[k] == before[k])
  }

  lemma ProcessFileFrame(t: Table, file: Value, selector: string -> bool)
    ensures t.Keys <= ProcessFile(t, file, selector).state.Keys
    ensures forall k :: !selector(k) || k !in Names([file]) ==> Untouched(t, ProcessFile(t, file, selector).state, k)
  {
    assert [file][1..] == [];
  }

  lemma {:induction false} ProcessFilesFrame(t: Table, files: seq<Value>, selector: string -> bool)
    ensures t.Keys <= ProcessFiles(t, files, selector).state.Keys
    ensures forall k :: !selector(k) || k !in Names(files) ==> Untouched(t, ProcessFiles(t, files, selector).state, k)
    decreases |files|
  {
    if files != [] {
      var r := ProcessFile(t, files[0], selector);
      ProcessFileFrame(t, files[0], selector);
      assert Names([files[0]]) <= Names(files) by { assert [files[0]][1..] == []; }
      if r.error.None? {
        ProcessFilesFrame(r.state, files[1..], selector);
      }
    }
  }

  /**
   * A rejected name gains no key and no change; so does any key the document
   * never names. Existing keys are never removed.
   */
  lemma ParseGcovFrame(t: Table, doc: Document, selector: string -> bool)
    ensures t.Keys <= ParseGcov(t, doc, selector).state.Keys
    ensures forall k :: !selector(k) || k !in DocumentNames(doc) ==> Untouched(t, ParseGcov(t, doc, selector).state, k)
  {
    if FilesOf(doc).Success? {
      ProcessFilesFrame(t, FilesOf(doc).value, selector);
    }
  }

  /**
   * A selected file entry gets its key before its `lines` are checked: it is
   * in the table afterwards whatever follows, and a missing or non-array
   * `lines` leaves it there, with an empty vector if it was new.
   */
  lemma SelectedFileGetsKey(t: Table, files: seq<Value>, selector: string -> bool, name: string)
    requires files != [] && FileName(files[0]) == Success(name) && selector(name)
    ensures name in ProcessFiles(t, files, selector).state
    ensures FileLines(files[0].members).Failure? ==>
      ProcessFiles(t, files, selector)
      == Outcome(if name in t then t else t[name := []], Some(FileLines(files[0].members).error))
  {
    var r := ProcessFile(t, files[0], selector);
    assert name in r.state;
    if r.error.None? {
      ProcessFilesFrame(r.state, files[1..], selector);
    }
  }

  // ---------------------------------------------------------------------------
  // Success: the empty string comes back exactly for well-typed documents.
  // Files the selector rejects are not looked into past their name.

  predicate HasBool(members: seq<(string, Value)>, name: string) {
    Find(members, name).Some? && Find(members, name).value.JBool?
  }

  predicate HasUint(members: seq<(string, Value)>, name: string) {
    Find(members, name).Some? && IsUint(Find(members, name).value)
  }

  predicate HasString(members: seq<(string, Value)>, name: string) {
    Find(members, name).Some? && Find(members, name).value.JString?
  }

  predicate HasArray(members: seq<(string, Value)>, name: string) {
    Find(members, name).Some? && Find(members, name).value.JArray?
  }

  ghost predicate WellTypedLine(line: Value) {
    && line.JObject?
    && HasBool(line.members, "unexecuted_block")
    && HasUint(line.members, "line_number")
    && HasUint(line.members, "count")
  }

  ghost predicate WellTypedFile(file: Value, selector: string -> bool) {
    && file.JObject?
    && HasString(file.members, "file")
    && (selector(CString(Find(file.members, "file").value.s)) ==>
          && HasArray(file.members, "lines")
          && forall line :: line in Find(file.members, "lines").value.elems ==> WellTypedLine(line))
  }

  ghost predicate WellTypedDocument(doc: Document, selector: string -> bool) {
    && doc.Parsed?
    && doc.root.JObject?
    && HasArray(doc.root.members, "files")
    && forall file :: file in Find(doc.root.members, "files").value.elems ==> WellTypedFile(file, selector)
  }

  lemma LineVerdictSucceedsIff(line: Value)
    ensures LineVerdict(line).Success? <==> WellTypedLine(line)
  {
  }

  lemma {:induction false} ProcessLinesSucceedsIff(acc: FileCoverage, lines: seq<Value>)
    ensures ProcessLines(acc, lines).error.None? <==> forall line :: line in lines ==> WellTypedLine(line)
    decreases |lines|
  {
    if lines != [] {
      assert lines == [lines[0]] + lines[1..];
      LineVerdictSucceedsIff(lines[0]);
      if LineVerdict(lines[0]).Success? {
        var r := LineVerdict(lines[0]).value;
        ProcessLinesSucceedsIff(MergeLine(acc, r.line, r.uncovered), lines[1..]);
      }
    }
  }

  lemma ProcessFileSucceedsIff(t: Table, file: Value, selector: string -> bool)
    ensures ProcessFile(t, file, selector).error.None? <==> WellTypedFile(file, selector)
  {
    if FileName(file).Success? {
      var name := FileName(file).value;
      var t1 := if name in t then t else t[name := []];
      if selector(name) && FileLines(file.members).Success? {
        ProcessLinesSucceedsIff(t1[name], FileLines(file.members).value);
      }
    }
  }

  lemma {:induction false} ProcessFilesSucceedsIff(t: Table, files: seq<Value>, selector: string -> bool)
    ensures ProcessFiles(t, files, selector).error.None? <==> forall file :: file in files ==> WellTypedFile(file, selector)
    decreases |files|
  {
    if files != [] {
      assert files == [files[0]] + files[1..];
      ProcessFileSucceedsIff(t, files[0], selector);
      var r := ProcessFile(t, files[0], selector);
      if r.error.None? {
        ProcessFilesSucceedsIff(r.state, files[1..], selector);
      }
    }
  }

  /** The call returns "" exactly when the document is well-typed. */
  lemma ParseGcovSucceedsIff(t: Table, doc: Document, selector: string -> bool)
    ensures ErrorString(ParseGcov(t, doc, selector).error) == "" <==> WellTypedDocument(doc, selector)
  {
    if FilesOf(doc).Success? {
      ProcessFilesSucceedsIff(t, FilesOf(doc).value, selector);
    }
  }

  // ---------------------------------------------------------------------------
  // Error order within one line entry: the error returned is the first failed
  // check in source order.

  /** Position of each check in parse_gcov_json. */
  function Rank(e: GcovError): nat {
    match e
    case ParseError => 0
    case RootNotObject => 1
    case NoFiles => 2
    case FilesNotArray => 3
    case FileNotObject => 4
    case NoFileName => 5
    case FileNameNotString => 6
    case NoLines => 7
    case LinesNotArray => 8
    case LineNotObject => 9
    case NoUnexecutedBlock => 10
    case UnexecutedBlockNotBool => 11
    case NoLineNumber => 12
    case LineNumberNotUint => 13
    case NoCount => 14
    case CountNotUint => 15
  }

  /** Every check a line entry fails, each field judged on its own. */
  function LineViolations(line: Value): set<GcovError> {
    if !line.JObject? then {LineNotObject}
    else
      var ms := line.members;
      (if Find(ms, "unexecuted_block").None? then {NoUnexecutedBlock}
       else if !HasBool(ms, "unexecuted_block") then {UnexecutedBlockNotBool} else {})
      + (if Find(ms, "line_number").None? then {NoLineNumber}
         else if !HasUint(ms, "line_number") then {LineNumberNotUint} else {})
      + (if Find(ms, "count").None? then {NoCount}
         else if !HasUint(ms, "count") then {CountNotUint} else {})
  }

  lemma LineRejectedIffViolation(line: Value)
    ensures LineVerdict(line).Success? <==> LineViolations(line) == {}
  {
  }

  lemma LineErrorIsViolation(line: Value)
    ensures LineVerdict(line).Failure? ==> LineVerdict(line).error in LineViolations(line)
  {
  }

  lemma LineErrorIsFirst(line: Value)
    ensures LineVerdict(line).Failure? ==>
      forall e :: e in LineViolations(line) ==> Rank(LineVerdict(line).error) <= Rank(e)
  {
  }

  /**
   * Every check a file entry fails at its own level (lines 29-51), each field
   * judged on its own; `lines` is judged unless the entry is skipped for a
   * well-typed name the selector rejects.
   */
  function FileViolations(file: Value, selector: string -> bool): set<GcovError> {
    if !file.JObject? then {FileNotObject}
    else
      var ms := file.members;
      var skipped := HasString(ms, "file") && !selector(CString(Find(ms, "file").value.s));
      (if Find(ms, "file").None? then {NoFileName}
       else if !HasString(ms, "file") then {FileNameNotString} else {})
      + (if skipped then {}
         else if Find(ms, "lines").None? then {NoLines}
         else if !HasArray(ms, "lines") then {LinesNotArray} else {})
  }

  /**
   * A file entry that fails a check of its own is rejected with the earliest
   * of them; one that fails none is rejected, if at all, by a line entry.
   */
  lemma FileErrorIsFirst(t: Table, file: Value, selector: string -> bool)
    ensures var r := ProcessFile(t, file, selector);
      FileViolations(file, selector) != {} ==>
        && r.error.Some?
        && r.error.value in FileViolations(file, selector)
        && forall e :: e in FileViolations(file, selector) ==> Rank(r.error.value) <= Rank(e)
    ensures var r := ProcessFile(t, file, selector);
      FileViolations(file, selector) == {} && r.error.Some? ==> Rank(r.error.value) >= Rank(LineNotObject)
  {
    if FileName(file).Success? && selector(FileName(file).value) && FileLines(file.members).Success? {
      var name := FileName(file).value;
      var t1 := if name in t then t else t[name := []];
      ProcessLinesErrorIsLine(t1[name], FileLines(file.members).value);
    }
  }

  /** A line entry is only ever rejected by a line-level check. */
  lemma LineErrorRank(line: Value)
    ensures LineVerdict(line).Failure? ==> Rank(LineVerdict(line).error) >= Rank(LineNotObject)
  {
  }

  /** Whatever stops a run of line entries is a line-level check. */
  lemma {:induction false} ProcessLinesErrorIsLine(acc: FileCoverage, lines: seq<Value>)
    ensures ProcessLines(acc, lines).error.Some? ==> Rank(ProcessLines(acc, lines).error.value) >= Rank(LineNotObject)
    decreases |lines|
  {
    if lines != [] {
      LineErrorRank(lines[0]);
      match LineVerdict(lines[0]) {
        case Failure(e) =>
          assert ProcessLines(acc, lines) == Outcome(acc, Some(e));
        case Success(r) =>
          var next := MergeLine(acc, r.line, r.uncovered);
          assert ProcessLines(acc, lines) == ProcessLines(next, lines[1..]);
          ProcessLinesErrorIsLine(next, lines[1..]);
      }
    }
  }

  /** The checks of lines 18-25 that a document fails; each needs the one before it to pass. */
  function DocumentViolations(doc: Document): set<GcovError> {
    if doc.Malformed? then {ParseError}
    else if !doc.root.JObject? then {RootNotObject}
    else if Find(doc.root.members, "files").None? then {NoFiles}
    else if !HasArray(doc.root.members, "files") then {FilesNotArray}
    else {}
  }

  /**
   * A document that fails a check of lines 18-25 is rejected with the
   * earliest one and the table untouched; otherwise any error comes from a
   * file entry or a line entry.
   */
  lemma DocumentErrorIsFirst(t: Table, doc: Document, selector: string -> bool)
    ensures var r := ParseGcov(t, doc, selector);
      DocumentViolations(doc) != {} ==>
        && r.state == t
        && r.error.Some?
        && r.error.value in DocumentViolations(doc)
        && forall e :: e in DocumentViolations(doc) ==> Rank(r.error.value) <= Rank(e)
    ensures var r := ParseGcov(t, doc, selector);
      DocumentViolations(doc) == {} && r.error.Some? ==> Rank(r.error.value) >= Rank(FileNotObject)
  {
    if FilesOf(doc).Success? {
      ProcessFilesErrorIsEntry(t, FilesOf(doc).value, selector);
    }
  }

  /** The name checks of lines 31-35 are file-level checks. */
  lemma FileNameErrorRank(file: Value)
    ensures FileName(file).Failure? ==> 4 <= Rank(FileName(file).error) <= 6
  {
  }

  /** The `lines` checks of lines 48-51 are file-level checks. */
  lemma FileLinesErrorRank(members: seq<(string, Value)>)
    ensures FileLines(members).Failure? ==> 7 <= Rank(FileLines(members).error) <= 8
  {
  }

  /** A file entry is only ever rejected by a file-level or line-level check. */
  lemma FileErrorRank(t: Table, file: Value, selector: string -> bool)
    ensures ProcessFile(t, file, selector).error.Some? ==> Rank(ProcessFile(t, file, selector).error.value) >= Rank(FileNotObject)
  {
    var r := ProcessFile(t, file, selector);
    FileNameErrorRank(file);
    match FileName(file) {
      case Failure(e) =>
        assert r.error == Some(e);
      case Success(name) =>
        if selector(name) {
          var t1 := if name in t then t else t[name := []];
          FileLinesErrorRank(file.members);
          match FileLines(file.members) {
            case Failure(e) =>
              assert r.error == Some(e);
            case Success(lines) =>
              ProcessLinesErrorIsLine(t1[name], lines);
              assert r.error == ProcessLines(t1[name], lines).error;
          }
        }
    }
  }

  /** Whatever stops a run of file entries is a file-level or line-level check. */
  lemma {:induction false} ProcessFilesErrorIsEntry(t: Table, files: seq<Value>, selector: string -> bool)
    ensures ProcessFiles(t, files, selector).error.Some? ==> Rank(ProcessFiles(t, files, selector).error.value) >= Rank(FileNotObject)
    decreases |files|
  {
    if files != [] {
      FileErrorRank(t, files[0], selector);
      var r := ProcessFile(t, files[0], selector);
      if r.error.Some? {
        assert ProcessFiles(t, files, selector) == r;
      } else {
        assert ProcessFiles(t, files, selector) == ProcessFiles(r.state, files[1..], selector);
        ProcessFilesErrorIsEntry(r.state, files[1..], selector);
      }
    }
  }

  /**
   * The first ill-typed line entry decides the error: the entries before it
   * are merged and the error is its own.
   */
  lemma FirstBadLine(acc: FileCoverage, a: seq<Value>, line: Value, b: seq<Value>)
    requires forall x :: x in a ==> WellTypedLine(x)
    requires !WellTypedLine(line)
    ensures LineVerdict(line).Failure?
    ensures ProcessLines(acc, a + [line] + b) == Outcome(ProcessLines(acc, a).state, Some(LineVerdict(line).error))
  {
    LineVerdictSucceedsIff(line);
    ProcessLinesSucceedsIff(acc, a);
    ProcessLinesAppend(acc, a, [line] + b);
    assert a + [line] + b == a + ([line] + b);
    assert ([line] + b)[0] == line;
  }

  /**
   * The first ill-typed file entry decides the error: the entries before it
   * are processed and the outcome is that entry's own.
   */
  lemma FirstBadFile(t: Table, a: seq<Value>, file: Value, b: seq<Value>, selector: string -> bool)
    requires forall x :: x in a ==> WellTypedFile(x, selector)
    requires !WellTypedFile(file, selector)
    ensures var r := ProcessFile(ProcessFiles(t, a, selector).state, file, selector);
      && r.error.Some?
      && ProcessFiles(t, a + [file] + b, selector) == r
  {
    var ra := ProcessFiles(t, a, selector);
    ProcessFileSucceedsIff(ra.state, file, selector);
    ProcessFilesSucceedsIff(t, a, selector);
    ProcessFilesAppend(t, a, [file] + b, selector);
    assert a + [file] + b == a + ([file] + b);
    assert ([file] + b)[0] == file;
  }

  /** Each error has its own message. */
  lemma MessagesDistinct(e1: GcovError, e2: GcovError)
    requires e1 != e2
    ensures Message(e1) != Message(e2)
  {
  }

  // ---------------------------------------------------------------------------
  // Extra members: the parser looks members up by name, so a member whose name
  // it never asks for changes nothing, at any level.

  /** A line entry's verdict ignores members other than the three it reads (lines 58-73). */
  lemma ExtraLineMember(a: seq<(string, Value)>, k: string, v: Value, b: seq<(string, Value)>)
    requires k != "unexecuted_block" && k != "line_number" && k != "count"
    ensures LineVerdict(JObject(a + [(k, v)] + b)) == LineVerdict(JObject(a + b))
  {
    FindSkipsOther(a, k, v, b, "unexecuted_block");
    FindSkipsOther(a, k, v, b, "line_number");
    FindSkipsOther(a, k, v, b, "count");
  }

  /** A file entry is read the same without members other than `file` and `lines` (lines 32-51). */
  lemma ExtraFileMember(t: Table, a: seq<(string, Value)>, k: string, v: Value, b: seq<(string, Value)>,
                        selector: string -> bool)
    requires k != "file" && k != "lines"
    ensures FileName(JObject(a + [(k, v)] + b)) == FileName(JObject(a + b))
    ensures FileLines(a + [(k, v)] + b) == FileLines(a + b)
    ensures ProcessFile(t, JObject(a + [(k, v)] + b), selector) == ProcessFile(t, JObject(a + b), selector)
  {
    FindSkipsOther(a, k, v, b, "file");
    FindSkipsOther(a, k, v, b, "lines");
  }

  /** The root is read the same without members other than `files` (lines 22-26). */
  lemma ExtraRootMember(t: Table, a: seq<(string, Value)>, k: string, v: Value, b: seq<(string, Value)>,
                        selector: string -> bool)
    requires k != "files"
    ensures FilesOf(Parsed(JObject(a + [(k, v)] + b))) == FilesOf(Parsed(JObject(a + b)))
    ensures ParseGcov(t, Parsed(JObject(a + [(k, v)] + b)), selector) == ParseGcov(t, Parsed(JObject(a + b)), selector)
  {
    FindSkipsOther(a, k, v, b, "files");
  }

  // ---------------------------------------------------------------------------
  // No rollback: an error return keeps every merge made before it, and a later
  // entry can change neither the table nor the error once one is reported.

  lemma {:induction false} ProcessLinesAppend(acc: FileCoverage, a: seq<Value>, b: seq<Value>)
    ensures var ra := ProcessLines(acc, a);
      ProcessLines(acc, a + b) == if ra.error.Some? then ra else ProcessLines(ra.state, b)
    decreases |a|
  {
    if a == [] {
      assert a + b == b;
    } else {
      assert (a + b)[0] == a[0] && (a + b)[1..] == a[1..] + b;
      if LineVerdict(a[0]).Success? {
        var r := LineVerdict(a[0]).value;
        ProcessLinesAppend(MergeLine(acc, r.line, r.uncovered), a[1..], b);
      }
    }
  }

  lemma {:induction false} ProcessFilesAppend(t: Table, a: seq<Value>, b: seq<Value>, selector: string -> bool)
    ensures var ra := ProcessFiles(t, a, selector);
      ProcessFiles(t, a + b, selector) == if ra.error.Some? then ra else ProcessFiles(ra.state, b, selector)
    decreases |a|
  {
    if a == [] {
      assert a + b == b;
    } else {
      assert (a + b)[0] == a[0] && (a + b)[1..] == a[1..] + b;
      var r := ProcessFile(t, a[0], selector);
      if r.error.None? {
        ProcessFilesAppend(r.state, a[1..], b, selector);
      }
    }
  }

  // ---------------------------------------------------------------------------
  // The call as a list of updates (MergeOps): the keys it inserts and the line
  // verdicts it merges, in order, up to the first error. Which updates are made
  // depends on the document and the selector only, never on the table.

  function PlanLines(file: string, lines: seq<Value>): Outcome<seq<Op>>
    decreases |lines|
  {
    if lines == [] then Outcome([], None)
    else match LineVerdict(lines[0])
      case Failure(e) => Outcome([], Some(e))
      case Success(r) =>
        var rest := PlanLines(file, lines[1..]);
        Outcome([Merge(file, r.line, r.uncovered)] + rest.state, rest.error)
  }

  function PlanFile(file: Value, selector: string -> bool): Outcome<seq<Op>> {
    match FileName(file)
    case Failure(e) => Outcome([], Some(e))
    case Success(name) =>
      if !selector(name) then Outcome([], None)
      else match FileLines(file.members)
        case Failure(e) => Outcome([Touch(name)], Some(e))
        case Success(lines) =>
          var p := PlanLines(name, lines);
          Outcome([Touch(name)] + p.state, p.error)
  }

  function PlanFiles(files: seq<Value>, selector: string -> bool): Outcome<seq<Op>>
    decreases |files|
  {
    if files == [] then Outcome([], None)
    else
      var p := PlanFile(files[0], selector);
      if p.error.Some? then p
      else
        var rest := PlanFiles(files[1..], selector);
        Outcome(p.state + rest.state, rest.error)
  }

  function Plan(doc: Document, selector: string -> bool): Outcome<seq<Op>> {
    match FilesOf(doc)
    case Failure(e) => Outcome([], Some(e))
    case Success(files) => PlanFiles(files, selector)
  }

  lemma {:induction false} ProcessLinesPlan(acc: FileCoverage, lines: seq<Value>, v: View, f: string)
    requires Sorted(acc) && f in v && v[f] == LinesView(acc)
    ensures ApplyView(v, PlanLines(f, lines).state) == v[f := LinesView(ProcessLines(acc, lines).state)]
    ensures PlanLines(f, lines).error == ProcessLines(acc, lines).error
    decreases |lines|
  {
    if lines == [] || LineVerdict(lines[0]).Failure? {
      assert v[f := LinesView(acc)] == v;
    } else {
      var r := LineVerdict(lines[0]).value;
      var acc' := MergeLine(acc, r.line, r.uncovered);
      MergeLineCorrect(acc, r.line, r.uncovered);
      var rest := PlanLines(f, lines[1..]);
      var after := ProcessLines(acc', lines[1..]);
      assert PlanLines(f, lines) == Outcome([Merge(f, r.line, r.uncovered)] + rest.state, rest.error);
      assert ProcessLines(acc, lines) == after;
      ProcessLinesPlan(acc', lines[1..], v[f := LinesView(acc')], f);
      MergeThenRest(v, f, acc, r.line, r.uncovered, rest.state, after.state);
    }
  }

  /** A merge followed by operations that leave `f` at `final` leaves `f` at `final`. */
  lemma MergeThenRest(v: View, f: string, acc: FileCoverage, n: nat, u: bool, rest: seq<Op>, final: FileCoverage)
    requires Sorted(acc) && f in v && v[f] == LinesView(acc)
    requires var v' := v[f := LinesView(MergeLine(acc, n, u))];
      ApplyView(v', rest) == v'[f := LinesView(final)]
    ensures ApplyView(v, [Merge(f, n, u)] + rest) == v[f := LinesView(final)]
  {
    var v' := v[f := LinesView(MergeLine(acc, n, u))];
    MergeLineCorrect(acc, n, u);
    assert StepView(v, Merge(f, n, u)) == v';
    ApplyViewCons(v, Merge(f, n, u), rest);
    assert v'[f := LinesView(final)] == v[f := LinesView(final)];
  }

  lemma ApplyViewCons(v: View, o: Op, rest: seq<Op>)
    ensures ApplyView(v, [o] + rest) == ApplyView(StepView(v, o), rest)
  {
    assert ([o] + rest)[0] == o && ([o] + rest)[1..] == rest;
  }

  lemma ProcessFilePlan(t: Table, file: Value, selector: string -> bool)
    requires TableSorted(t)
    ensures TableView(ProcessFile(t, file, selector).state) == ApplyView(TableView(t), PlanFile(file, selector).state)
    ensures ProcessFile(t, file, selector).error == PlanFile(file, selector).error
  {
    if FileName(file).Success? && selector(FileName(file).value) {
      var name := FileName(file).value;
      var t1 := if name in t then t else t[name := []];
      var o := Touch(name);
      TableViewUpdate(t, name, []);
      assert TableView(t1) == StepView(TableView(t), o);
      match FileLines(file.members)
      case Failure(e) =>
        assert ApplyView(TableView(t), [o]) == ApplyView(StepView(TableView(t), o), []);
      case Success(lines) =>
        var p := PlanLines(name, lines).state;
        assert ([o] + p)[0] == o && ([o] + p)[1..] == p;
        ProcessLinesPlan(t1[name], lines, TableView(t1), name);
        TableViewUpdate(t1, name, ProcessLines(t1[name], lines).state);
    }
  }

  lemma {:induction false} ProcessFilesPlan(t: Table, files: seq<Value>, selector: string -> bool)
    requires TableSorted(t)
    ensures TableView(ProcessFiles(t, files, selector).state) == ApplyView(TableView(t), PlanFiles(files, selector).state)
    ensures ProcessFiles(t, files, selector).error == PlanFiles(files, selector).error
    decreases |files|
  {
    if files != [] {
      var r := ProcessFile(t, files[0], selector);
      var p := PlanFile(files[0], selector);
      ProcessFilePlan(t, files[0], selector);
      if r.error.None? {
        ProcessFileSorted(t, files[0], selector);
        ProcessFilesPlan(r.state, files[1..], selector);
        ApplyViewAppend(TableView(t), p.state, PlanFiles(files[1..], selector).state);
      }
    }
  }

  /** The call replays its plan onto what the table says, and reports the plan's error. */
  lemma ParseGcovPlan(t: Table, doc: Document, selector: string -> bool)
    requires TableSorted(t)
    ensures TableView(ParseGcov(t, doc, selector).state) == ApplyView(TableView(t), Plan(doc, selector).state)
    ensures ParseGcov(t, doc, selector).error == Plan(doc, selector).error
  {
    if FilesOf(doc).Success? {
      ProcessFilesPlan(t, FilesOf(doc).value, selector);
    }
  }

  /**
   * Parsing the same document twice into the same table gives what parsing it
   * once gives, error included (AND is idempotent).
   */
  lemma ParseGcovIdempotent(t: Table, doc: Document, selector: string -> bool)
    requires TableSorted(t)
    ensures ParseGcov(ParseGcov(t, doc, selector).state, doc, selector) == ParseGcov(t, doc, selector)
  {
    var once := ParseGcov(t, doc, selector);
    var twice := ParseGcov(once.state, doc, selector);
    ParseGcovSorted(t, doc, selector);
    ParseGcovSorted(once.state, doc, selector);
    ParseGcovPlan(t, doc, selector);
    ParseGcovPlan(once.state, doc, selector);
    ApplyViewIdempotent(TableView(t), Plan(doc, selector).state);
    TableViewDetermines(twice.state, once.state);
  }

  /**
   * Two reports merged in either order give the same table (AND is commutative
   * and associative), whatever errors either of them stops at.
   */
  lemma ParseGcovCommutes(t: Table, d1: Document, s1: string -> bool, d2: Document, s2: string -> bool)
    requires TableSorted(t)
    ensures ParseGcov(ParseGcov(t, d1, s1).state, d2, s2).state == ParseGcov(ParseGcov(t, d2, s2).state, d1, s1).state
  {
    var a := ParseGcov(t, d1, s1).state;
    var b := ParseGcov(t, d2, s2).state;
    ParseGcovSorted(t, d1, s1);
    ParseGcovSorted(t, d2, s2);
    ParseGcovSorted(a, d2, s2);
    ParseGcovSorted(b, d1, s1);
    ParseGcovPlan(t, d1, s1);
    ParseGcovPlan(t, d2, s2);
    ParseGcovPlan(a, d2, s2);
    ParseGcovPlan(b, d1, s1);
    ApplyViewCommutes(TableView(t), Plan(d1, s1).state, Plan(d2, s2).state);
    TableViewDetermines(ParseGcov(a, d2, s2).state, ParseGcov(b, d1, s1).state);
  }
}
