/**
 * Concrete documents from tests/test_gcov_json_parser.cpp and the error paths
 * of src/gcov_json_handler.cpp, worked through the model.
 */
module GcovJsonExamples {
  import opened Wrappers
  import opened Json
  import opened Coverage
  import opened GcovJson

  function LineEntry(count: int, lineNumber: int, unexecuted: bool): Value {
    JObject([("branches", JArray([])), ("count", JInt(count)), ("line_number", JInt(lineNumber)),
             ("unexecuted_block", JBool(unexecuted)), ("function_name", JString("lv_chart_create"))])
  }

  lemma LineEntryFields(count: int, lineNumber: int, unexecuted: bool)
    ensures Find(LineEntry(count, lineNumber, unexecuted).members, "unexecuted_block") == Some(JBool(unexecuted))
    ensures Find(LineEntry(count, lineNumber, unexecuted).members, "line_number") == Some(JInt(lineNumber))
    ensures Find(LineEntry(count, lineNumber, unexecuted).members, "count") == Some(JInt(count))
  {
    var ms := LineEntry(count, lineNumber, unexecuted).members;
    assert |"branches"| == 8 && |"count"| == 5 && |"line_number"| == 11 && |"unexecuted_block"| == 16;
    assert ms[0].0 == "branches" && ms[1].0 == "count" && ms[2].0 == "line_number" && ms[3].0 == "unexecuted_block";
    assert Find(ms[1..], "count") == Some(JInt(count));
    assert Find(ms[2..], "line_number") == Some(JInt(lineNumber));
    assert ms[2..][1..] == ms[3..];
    assert ms[1..][1..] == ms[2..];
    assert Find(ms[3..], "unexecuted_block") == Some(JBool(unexecuted));
    assert Find(ms[2..], "unexecuted_block") == Some(JBool(unexecuted));
    assert Find(ms[1..], "unexecuted_block") == Some(JBool(unexecuted));
    assert Find(ms[1..], "line_number") == Some(JInt(lineNumber));
  }

  /** The verdict of any line object whose three fields hold the given values. */
  lemma VerdictOfFields(line: Value, count: int, lineNumber: int, unexecuted: bool)
    requires line.JObject?
    requires Find(line.members, "unexecuted_block") == Some(JBool(unexecuted))
    requires Find(line.members, "line_number") == Some(JInt(lineNumber))
    requires Find(line.members, "count") == Some(JInt(count))
    ensures LineVerdict(line)
      == if !(0 <= lineNumber < UINT_LIMIT) then Failure(LineNumberNotUint)
         else if !(0 <= count < UINT_LIMIT) then Failure(CountNotUint)
         else Success(LineRecord(lineNumber, unexecuted && count == 0))
  {
  }

  /** What one test line entry yields. */
  lemma LineEntryVerdict(count: int, lineNumber: int, unexecuted: bool)
    ensures LineVerdict(LineEntry(count, lineNumber, unexecuted))
      == if !(0 <= lineNumber < UINT_LIMIT) then Failure(LineNumberNotUint)
         else if !(0 <= count < UINT_LIMIT) then Failure(CountNotUint)
         else Success(LineRecord(lineNumber, unexecuted && count == 0))
  {
    LineEntryFields(count, lineNumber, unexecuted);
    VerdictOfFields(LineEntry(count, lineNumber, unexecuted), count, lineNumber, unexecuted);
  }

  /** The verdict is `unexecuted_block && count == 0`: the count wins over the flag. */
  lemma VerdictCases()
    ensures LineVerdict(LineEntry(102, 67, true)) == Success(LineRecord(67, false))
    ensures LineVerdict(LineEntry(0, 67, false)) == Success(LineRecord(67, false))
    ensures LineVerdict(LineEntry(0, 67, true)) == Success(LineRecord(67, true))
    ensures LineVerdict(LineEntry(5, 67, false)) == Success(LineRecord(67, false))
  {
    LineEntryVerdict(102, 67, true);
    LineEntryVerdict(0, 67, false);
    LineEntryVerdict(0, 67, true);
    LineEntryVerdict(5, 67, false);
  }

  /** A line number or count outside rapidjson's `IsUint` range is refused. */
  lemma UintBounds()
    ensures LineVerdict(LineEntry(0, -1, true)) == Failure(LineNumberNotUint)
    ensures LineVerdict(LineEntry(0, 0x1_0000_0000, true)) == Failure(LineNumberNotUint)
    ensures LineVerdict(LineEntry(0x1_0000_0000, 1, true)) == Failure(CountNotUint)
    ensures LineVerdict(LineEntry(0xFFFF_FFFF, 0xFFFF_FFFF, true)) == Success(LineRecord(0xFFFF_FFFF, false))
  {
    LineEntryVerdict(0, -1, true);
    LineEntryVerdict(0, 0x1_0000_0000, true);
    LineEntryVerdict(0x1_0000_0000, 1, true);
    LineEntryVerdict(0xFFFF_FFFF, 0xFFFF_FFFF, true);
  }

  /** Two accepted line entries, line 67 then line 69, both covered, into an empty vector. */
  lemma TwoCoveredLines(a: Value, b: Value)
    requires LineVerdict(a) == Success(LineRecord(67, false))
    requires LineVerdict(b) == Success(LineRecord(69, false))
    ensures ProcessLines([], [a, b]) == Outcome([LineRecord(67, false), LineRecord(69, false)], None)
  {
    var first := [LineRecord(67, false)];
    var both := [LineRecord(67, false), LineRecord(69, false)];
    assert MergeLine([], 67, false) == first;
    assert LowerBoundIndex(first, 69) == 1;
    assert MergeLine(first, 69, false) == both;
    assert [a, b][1..] == [b] && [b][1..] == [];
    assert ProcessLines(both, []) == Outcome(both, None);
    assert ProcessLines(first, [b]) == Outcome(both, None);
  }

  /** The two line entries of the second test document, merged into an empty vector. */
  lemma CountOverridesFlagLines()
    ensures ProcessLines([], [LineEntry(0, 67, false), LineEntry(102, 69, true)])
      == Outcome([LineRecord(67, false), LineRecord(69, false)], None)
  {
    LineEntryVerdict(0, 67, false);
    LineEntryVerdict(102, 69, true);
    TwoCoveredLines(LineEntry(0, 67, false), LineEntry(102, 69, true));
  }

  /** A selected file entry whose lines all merge, read into an empty table. */
  lemma SingleFileEntry(file: Value, name: string, lines: seq<Value>, merged: FileCoverage, selector: string -> bool)
    requires FileName(file) == Success(name) && selector(name)
    requires FileLines(file.members) == Success(lines)
    requires ProcessLines([], lines) == Outcome(merged, None)
    ensures ProcessFile(map[], file, selector) == Outcome(map[name := merged], None)
  {
    var empty: Table := map[];
    var t1 := empty[name := []];
    assert t1[name] == [];
    assert t1[name := merged] == map[name := merged];
  }

  /** A document with one selected file entry whose lines all merge. */
  lemma SingleFileDocument(doc: Document, file: Value, name: string, lines: seq<Value>,
                           merged: FileCoverage, selector: string -> bool)
    requires FilesOf(doc) == Success([file])
    requires FileName(file) == Success(name) && selector(name)
    requires FileLines(file.members) == Success(lines)
    requires ProcessLines([], lines) == Outcome(merged, None)
    ensures ParseGcov(map[], doc, selector) == Outcome(map[name := merged], None)
  {
    SingleFileEntry(file, name, lines, merged, selector);
    var empty: Table := map[];
    var after := map[name := merged];
    assert [file][1..] == [];
    assert ProcessFiles(after, [], selector) == Outcome(after, None);
    assert ProcessFiles(empty, [file], selector) == Outcome(after, None);
  }

  /** Lookups in an object of two members with different names. */
  lemma FindPair(k1: string, v1: Value, k2: string, v2: Value)
    requires k1 != k2
    ensures Find([(k1, v1), (k2, v2)], k1) == Some(v1)
    ensures Find([(k1, v1), (k2, v2)], k2) == Some(v2)
  {
    assert [(k1, v1), (k2, v2)][1..] == [(k2, v2)];
  }

  /** A file entry whose `file` and `lines` members are a string and an array. */
  lemma FileEntryLookups(ms: seq<(string, Value)>, raw: string, name: string, lines: seq<Value>)
    requires Find(ms, "file") == Some(JString(raw)) && CString(raw) == name
    requires Find(ms, "lines") == Some(JArray(lines))
    ensures FileName(JObject(ms)) == Success(name)
    ensures FileLines(ms) == Success(lines)
  {
  }

  /** The file names of the examples hold no NUL, so they are kept whole. */
  lemma PlainNames()
    ensures CString("lv_area.h") == "lv_area.h" && CString("a.c") == "a.c"
  {
    assert '\0' !in "lv_area.h";
    assert '\0' !in "a.c";
  }

  /** The lookups of the second test document, for any `lines` array. */
  lemma LvAreaLookups(lines: seq<Value>)
    ensures var file := JObject([("lines", JArray(lines)), ("file", JString("lv_area.h"))]);
      && FilesOf(Parsed(JObject([("gcc_version", JString("12.2.0")), ("files", JArray([file]))])))
         == Success([file])
      && FileName(file) == Success("lv_area.h")
      && FileLines(file.members) == Success(lines)
  {
    var fileMembers := [("lines", JArray(lines)), ("file", JString("lv_area.h"))];
    var file := JObject(fileMembers);
    assert |"gcc_version"| == 11 && |"files"| == 5 && |"lines"| == 5 && |"file"| == 4;
    FindPair("gcc_version", JString("12.2.0"), "files", JArray([file]));
    FindPair("lines", JArray(lines), "file", JString("lv_area.h"));
    PlainNames();
    FileEntryLookups(fileMembers, "lv_area.h", "lv_area.h", lines);
  }

  /** The second document of the test: count 0 with the flag clear, and count 102 with it set. */
  lemma CountOverridesFlagFixture()
    ensures
      var doc := Parsed(JObject([
        ("gcc_version", JString("12.2.0")),
        ("files", JArray([JObject([
          ("lines", JArray([LineEntry(0, 67, false), LineEntry(102, 69, true)])),
          ("file", JString("lv_area.h"))])]))]));
      ParseGcov(map[], doc, _ => true)
      == Outcome(map["lv_area.h" := [LineRecord(67, false), LineRecord(69, false)]], None)
  {
    var lines := [LineEntry(0, 67, false), LineEntry(102, 69, true)];
    var file := JObject([("lines", JArray(lines)), ("file", JString("lv_area.h"))]);
    var doc := Parsed(JObject([("gcc_version", JString("12.2.0")), ("files", JArray([file]))]));
    var all: string -> bool := _ => true;
    LvAreaLookups(lines);
    CountOverridesFlagLines();
    SingleFileDocument(doc, file, "lv_area.h", lines, [LineRecord(67, false), LineRecord(69, false)], all);
  }

  /** `{ "files": {} }` is refused at the `files` check and the table is untouched. */
  lemma FilesNotArrayFixture(t: Table, selector: string -> bool)
    ensures ParseGcov(t, Parsed(JObject([("files", JObject([]))])), selector) == Outcome(t, Some(FilesNotArray))
    ensures Message(FilesNotArray) == "'files' isn't array"
  {
  }

  /**
   * The call is not atomic: a bad second file entry is reported after the
   * first entry's line has been merged, and that merge stays.
   */
  lemma NotAtomicFixture()
    ensures
      var good := JObject([("file", JString("a.c")),
                           ("lines", JArray([JObject([("unexecuted_block", JBool(true)),
                                                      ("line_number", JInt(1)), ("count", JInt(0))])]))]);
      ParseGcov(map[], Parsed(JObject([("files", JArray([good, JInt(5)]))])), _ => true)
      == Outcome(map["a.c" := [LineRecord(1, true)]], Some(FileNotObject))
  {
    var line := JObject([("unexecuted_block", JBool(true)), ("line_number", JInt(1)), ("count", JInt(0))]);
    var good := JObject([("file", JString("a.c")), ("lines", JArray([line]))]);
    var all: string -> bool := _ => true;
    GoodLineLookups();
    GoodEntryLookups(line);
    VerdictOfFields(line, 0, 1, true);
    OneLine(line, 1, true);
    assert all("a.c");
    GoodThenNonObject(good, JInt(5), "a.c", [line], [LineRecord(1, true)], all);
    assert |"files"| == 5;
  }

  /** One accepted line entry into an empty vector. */
  lemma OneLine(line: Value, n: nat, u: bool)
    requires LineVerdict(line) == Success(LineRecord(n, u))
    ensures ProcessLines([], [line]) == Outcome([LineRecord(n, u)], None)
  {
    assert [line][1..] == [];
    assert MergeLine([], n, u) == [LineRecord(n, u)];
    assert ProcessLines([LineRecord(n, u)], []) == Outcome([LineRecord(n, u)], None);
  }

  /** A good selected file entry, then an entry that is not an object. */
  lemma GoodThenNonObject(good: Value, bad: Value, name: string, lines: seq<Value>, merged: FileCoverage,
                          selector: string -> bool)
    requires FileName(good) == Success(name) && selector(name)
    requires FileLines(good.members) == Success(lines)
    requires ProcessLines([], lines) == Outcome(merged, None)
    requires !bad.JObject?
    ensures ParseGcov(map[], Parsed(JObject([("files", JArray([good, bad]))])), selector)
         == Outcome(map[name := merged], Some(FileNotObject))
  {
    SingleFileEntry(good, name, lines, merged, selector);
    var files := [good, bad];
    var after := map[name := merged];
    assert files[1..] == [bad] && [bad][1..] == [];
    assert ProcessFile(after, bad, selector) == Outcome(after, Some(FileNotObject));
    assert ProcessFiles(after, [bad], selector) == Outcome(after, Some(FileNotObject));
    assert ProcessFiles(map[], files, selector) == Outcome(after, Some(FileNotObject));
    var root := [("files", JArray(files))];
    assert Find(root, "files") == Some(JArray(files));
  }

  /** The lookups of the line entry of the non-atomic example. */
  lemma GoodLineLookups()
    ensures var lineMembers := [("unexecuted_block", JBool(true)), ("line_number", JInt(1)), ("count", JInt(0))];
      && Find(lineMembers, "unexecuted_block") == Some(JBool(true))
      && Find(lineMembers, "line_number") == Some(JInt(1))
      && Find(lineMembers, "count") == Some(JInt(0))
  {
    var lineMembers := [("unexecuted_block", JBool(true)), ("line_number", JInt(1)), ("count", JInt(0))];
    assert |"unexecuted_block"| == 16 && |"line_number"| == 11 && |"count"| == 5;
    assert lineMembers[1..][1..] == [("count", JInt(0))];
    assert Find(lineMembers[1..], "line_number") == Some(JInt(1));
    assert Find(lineMembers[1..][1..], "count") == Some(JInt(0));
  }

  /** The lookups of the first file entry of the non-atomic example. */
  lemma GoodEntryLookups(line: Value)
    ensures var good := JObject([("file", JString("a.c")), ("lines", JArray([line]))]);
      && FileName(good) == Success("a.c")
      && FileLines(good.members) == Success([line])
  {
    var fileMembers := [("file", JString("a.c")), ("lines", JArray([line]))];
    assert |"file"| == 4 && |"lines"| == 5;
    FindPair("file", JString("a.c"), "lines", JArray([line]));
    PlainNames();
    FileEntryLookups(fileMembers, "a.c", "a.c", [line]);
  }

  /** The name `"a.c\0b"` as a C string. */
  lemma NulCut()
    ensures CString("a.c\0b") == "a.c"
  {
    assert "a.c\0b"[1..][1..][1..] == "\0b";
  }

  /** The lookups of the NUL-name example. */
  lemma NulEntryLookups()
    ensures var file := JObject([("file", JString("a.c\0b")), ("lines", JArray([]))]);
      && FilesOf(Parsed(JObject([("files", JArray([file]))]))) == Success([file])
      && FileName(file) == Success("a.c")
      && FileLines(file.members) == Success([])
  {
    var fileMembers := [("file", JString("a.c\0b")), ("lines", JArray([]))];
    assert |"file"| == 4 && |"lines"| == 5;
    FindPair("file", JString("a.c\0b"), "lines", JArray([]));
    NulCut();
    FileEntryLookups(fileMembers, "a.c\0b", "a.c", []);
  }

  /**
   * A file name with a NUL in it is cut there: the entry `"a.c\0b"` passes a
   * selector for `a.c` and is stored under `a.c`.
   */
  lemma NulFileNameFixture()
    ensures
      var file := JObject([("file", JString("a.c\0b")), ("lines", JArray([]))]);
      ParseGcov(map[], Parsed(JObject([("files", JArray([file]))])), x => x == "a.c")
      == Outcome(map["a.c" := []], None)
  {
    var file := JObject([("file", JString("a.c\0b")), ("lines", JArray([]))]);
    var doc := Parsed(JObject([("files", JArray([file]))]));
    var selector: string -> bool := x => x == "a.c";
    NulEntryLookups();
    assert selector("a.c");
    assert ProcessLines([], []) == Outcome([], None);
    SingleFileDocument(doc, file, "a.c", [], [], selector);
  }
}
