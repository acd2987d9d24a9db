/**
 * `getcoverage` and `getllvmcoverage` of src/vimgcov.cpp: `process_files`
 * with the gcov (or llvm-cov) command line as launcher and a consumer that
 * keeps only the entries of the requested path.
 *
 * `run` maps a command line to what its child produces; `decode` stands for
 * rapidjson turning the captured text into a document, and `llvm` for
 * `parse_llvm_json`, which is not part of this model.
 */
module Entry {
  import opened Json
  import opened Coverage
  import opened GcovJson
  import opened GcovJsonProps
  import opened Batch
  import opened BatchProps

  type Runner = seq<string> -> ProcessResult
  type LlvmParser = (Table, string, string -> bool) -> Consumed

  /** The selector both entry points hand to the parser: the file name equals `path` (lines 110-112, 138-140). */
  function PathSelector(path: string): (selector: string -> bool)
    ensures forall x :: selector(x) <==> x == path
  {
    x => x == path
  }

  /** The gcov command line for one `.gcno` file (lines 98-108); `search_path("gcov")` is the name `gcov`. */
  function GcovLauncher(run: Runner): Launcher {
    file => run(["gcov", "--stdout", "--json-format", file])
  }

  /** The llvm-cov command line for one executable (lines 127-136). */
  function LlvmLauncher(run: Runner, profdata: string): Launcher {
    file => run(["llvm-cov", "export", "-instr-profile", profdata, "-format=text", file])
  }

  /**
   * The consumer of lines 109-113: the captured text is decoded, then
   * `parse_gcov_json` runs with the path selector; the error string it
   * returns is dropped and nothing is thrown.
   */
  function GcovConsumer(decode: string -> Document, path: string): Consumer {
    (t, buf) => Returned(ParseGcov(t, decode(buf), PathSelector(path)).state)
  }

  /** The consumer of lines 137-141: `parse_llvm_json` with the path selector. */
  function LlvmConsumer(llvm: LlvmParser, path: string): Consumer {
    (t, buf) => llvm(t, buf, PathSelector(path))
  }

  /** `parse_gcov_json` over the outputs in order, each into the table the previous call left. */
  function GcovFold(t: Table, outputs: seq<string>, decode: string -> Document, path: string): Table
    decreases |outputs|
  {
    if outputs == [] then t
    else GcovFold(ParseGcov(t, decode(outputs[0]), PathSelector(path)).state, outputs[1..], decode, path)
  }

  lemma {:induction false} GcovFoldIsParseAll(t: Table, outputs: seq<string>, decode: string -> Document, path: string)
    ensures ParseAll(t, outputs, GcovConsumer(decode, path)) == GcovFold(t, outputs, decode, path)
    decreases |outputs|
  {
    if outputs != [] {
      GcovFoldIsParseAll(ParseGcov(t, decode(outputs[0]), PathSelector(path)).state, outputs[1..], decode, path);
    }
  }

  /**
   * Whatever the outputs, the table keeps its vectors sorted, gains no key
   * but `path`, and keeps every other entry as it was.
   */
  lemma {:induction false} GcovFoldShape(t: Table, outputs: seq<string>, decode: string -> Document, path: string)
    requires TableSorted(t)
    ensures TableSorted(GcovFold(t, outputs, decode, path))
    ensures GcovFold(t, outputs, decode, path).Keys <= t.Keys + {path}
    ensures forall k :: k in t && k != path ==>
      k in GcovFold(t, outputs, decode, path) && GcovFold(t, outputs, decode, path)[k] == t[k]
    decreases |outputs|
  {
    if outputs != [] {
      var doc := decode(outputs[0]);
      var sel := PathSelector(path);
      var next := ParseGcov(t, doc, sel).state;
      ParseGcovSorted(t, doc, sel);
      ParseGcovFrame(t, doc, sel);
      assert next.Keys <= t.Keys + {path} by {
        forall k | k in next && k != path ensures k in t {
          assert !sel(k);
          assert Untouched(t, next, k);
        }
      }
      forall k | k in t && k != path ensures k in next && next[k] == t[k] {
        assert !sel(k);
        assert Untouched(t, next, k);
      }
      GcovFoldShape(next, outputs[1..], decode, path);
    }
  }

  /** Two outputs merged in either order give the same table. */
  lemma GcovFoldSwapFront(t: Table, a: string, b: string, rest: seq<string>, decode: string -> Document, path: string)
    requires TableSorted(t)
    ensures GcovFold(t, [a, b] + rest, decode, path) == GcovFold(t, [b, a] + rest, decode, path)
  {
    var sel := PathSelector(path);
    ParseGcovCommutes(t, decode(a), sel, decode(b), sel);
    assert ([a, b] + rest)[1..] == [b] + rest && ([b] + rest)[1..] == rest;
    assert ([b, a] + rest)[1..] == [a] + rest && ([a] + rest)[1..] == rest;
  }

  /** One merge step of the fold. */
  lemma GcovFoldStep(t: Table, outputs: seq<string>, decode: string -> Document, path: string)
    requires outputs != []
    ensures GcovFold(t, outputs, decode, path)
         == GcovFold(ParseGcov(t, decode(outputs[0]), PathSelector(path)).state, outputs[1..], decode, path)
  {
  }

  /** The sequence identities behind moving element `i` to the front. */
  lemma MoveFrontShape(outputs: seq<string>, i: nat)
    requires 0 < i < |outputs|
    ensures var tail := outputs[1..];
      var rest := tail[..i - 1] + tail[i..];
      && [tail[i - 1]] + tail[..i - 1] + tail[i..] == [outputs[i]] + rest
      && ([outputs[0], outputs[i]] + rest)[0] == outputs[0]
      && ([outputs[0], outputs[i]] + rest)[1..] == [outputs[i]] + rest
      && [outputs[i], outputs[0]] + rest == [outputs[i]] + outputs[..i] + outputs[i + 1..]
  {
    var tail := outputs[1..];
    assert [outputs[0]] + tail[..i - 1] == outputs[..i];
    assert tail[i..] == outputs[i + 1..];
  }

  /** Any one output can be merged first. */
  lemma {:induction false} GcovFoldMoveFront(t: Table, outputs: seq<string>, i: nat, decode: string -> Document, path: string)
    requires TableSorted(t) && i < |outputs|
    ensures GcovFold(t, outputs, decode, path)
         == GcovFold(t, [outputs[i]] + outputs[..i] + outputs[i + 1..], decode, path)
    decreases i
  {
    if i == 0 {
      assert [outputs[0]] + outputs[..0] + outputs[1..] == outputs;
    } else {
      var sel := PathSelector(path);
      var t1 := ParseGcov(t, decode(outputs[0]), sel).state;
      ParseGcovSorted(t, decode(outputs[0]), sel);
      var tail := outputs[1..];
      var rest := tail[..i - 1] + tail[i..];
      MoveFrontShape(outputs, i);
      GcovFoldStep(t, outputs, decode, path);
      GcovFoldMoveFront(t1, tail, i - 1, decode, path);
      GcovFoldStep(t, [outputs[0], outputs[i]] + rest, decode, path);
      GcovFoldSwapFront(t, outputs[0], outputs[i], rest, decode, path);
    }
  }

  /** Where `x` sits in `a`, with what remains of `a` without it. */
  lemma Position(a: seq<string>, x: string) returns (i: nat)
    requires x in multiset(a)
    ensures i < |a| && a[i] == x
    ensures multiset(a[..i] + a[i + 1..]) == multiset(a) - multiset{x}
  {
    assert x in a;
    i :| 0 <= i < |a| && a[i] == x;
    assert a == a[..i] + [a[i]] + a[i + 1..];
  }

  /**
   * The table does not depend on the order in which the outputs are merged:
   * any permutation of them gives the same table.
   */
  lemma {:induction false} GcovFoldPermutation(t: Table, a: seq<string>, b: seq<string>, decode: string -> Document, path: string)
    requires TableSorted(t) && multiset(a) == multiset(b)
    ensures GcovFold(t, a, decode, path) == GcovFold(t, b, decode, path)
    decreases |a|
  {
    if a == [] {
      assert |b| == |multiset(b)| == 0;
    } else {
      assert |b| == |multiset(b)| == |multiset(a)| == |a|;
      var x := b[0];
      assert x in multiset(b);
      var i := Position(a, x);
      var rest := a[..i] + a[i + 1..];
      assert b == [x] + b[1..];
      assert multiset(b[1..]) == multiset(b) - multiset{x};
      var t1 := ParseGcov(t, decode(x), PathSelector(path)).state;
      ParseGcovSorted(t, decode(x), PathSelector(path));
      GcovFoldPermutation(t1, rest, b[1..], decode, path);
      GcovFoldMoveFront(t, a, i, decode, path);
      var moved := [a[i]] + a[..i] + a[i + 1..];
      assert moved[0] == x && moved[1..] == rest;
      GcovFoldStep(t, moved, decode, path);
      GcovFoldStep(t, b, decode, path);
    }
  }

  /** What `getcoverage(gcnos, j, path)` returns, for any `j >= 1`. */
  function GcovCoverage(run: Runner, decode: string -> Document, gcnos: seq<string>, path: string): Table {
    GcovFold(map[], OkOutputs(Reversed(gcnos), GcovLauncher(run)), decode, path)
  }

  /**
   * Lines 92-117: the table holds what `parse_gcov_json` made of the
   * outputs of the gcov runs that exited with 0, taken from the back of
   * `gcnos`; it has at most the key `path`, with a sorted vector.
   */
  method GetCoverage(run: Runner, decode: string -> Document, gcnos: seq<string>, j: nat, path: string)
    returns (rv: Table)
    requires j >= 1
    ensures rv == GcovCoverage(run, decode, gcnos, path)
    ensures rv.Keys <= {path}
    ensures TableSorted(rv)
  {
    rv := Batch.ProcessFiles(GcovLauncher(run), GcovConsumer(decode, path), gcnos, j);
    ProcessFilesResult(GcovLauncher(run), GcovConsumer(decode, path), gcnos, j);
    var outputs := OkOutputs(Reversed(gcnos), GcovLauncher(run));
    DrainParsesOkOutputs(map[], Reversed(gcnos), GcovLauncher(run), GcovConsumer(decode, path));
    GcovFoldIsParseAll(map[], outputs, decode, path);
    GcovFoldShape(map[], outputs, decode, path);
  }

  /**
   * Lines 120-145: `parse_llvm_json`, with the path selector, over the
   * outputs of the llvm-cov runs that exited with 0, taken from the back of
   * `executables`.
   */
  method GetLlvmCoverage(run: Runner, llvm: LlvmParser, executables: seq<string>, j: nat,
                         path: string, profdata: string)
    returns (rv: Table)
    requires j >= 1
    ensures rv == ParseAll(map[], OkOutputs(Reversed(executables), LlvmLauncher(run, profdata)), LlvmConsumer(llvm, path))
  {
    rv := Batch.ProcessFiles(LlvmLauncher(run, profdata), LlvmConsumer(llvm, path), executables, j);
    ProcessFilesResult(LlvmLauncher(run, profdata), LlvmConsumer(llvm, path), executables, j);
    DrainParsesOkOutputs(map[], Reversed(executables), LlvmLauncher(run, profdata), LlvmConsumer(llvm, path));
  }
}
