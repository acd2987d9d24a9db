# vimgcov line-coverage core, in Dafny

vimgcov shows line coverage inside Vim. A Python entry point asks a C++
extension for coverage of one source file. The extension:

- runs `gcov --stdout --json-format` (or `llvm-cov export`) over every
  compiled unit, in bounded wavefronts of child processes;
- merges the JSON reports into a table `path → vector of (line number,
  uncovered)`.

The Python side then splits the vector of the requested file into covered
and uncovered line numbers.

This project models three parts of that program.

- **The gcov JSON merge.** `parse_gcov_json` in src/gcov_json_handler.cpp
  lives in `gcov_json.dfy`, with properties in `gcov_json_props.dfy` and
  worked examples in `gcov_json_examples.dfy`.
  - The report is an already-parsed JSON value (`json.dfy`).
  - The table is a `map<string, seq<LineRecord>>` (`coverage.dfy`).
  - `ParseGcovJson` is the imperative method with the source's nested loops,
    early returns and `std::lower_bound` bisection (`LowerBound`). It is
    proved equal to the functional specification `ParseGcov`, and every
    property is proved about that specification.
  - `merge_ops.dfy` gives each vector its meaning, a map from line number to
    "uncovered". A report then becomes a list of touch/merge operations.
    This is how idempotence and order-independence are proved.
- **The wavefront driver.** `process_files` in src/vimgcov.cpp lives in
  `batch.dfy`, with properties in `batch_props.dfy` and the driver test in
  `batch_examples.dfy`. The entry points `getcoverage` and
  `getllvmcoverage` are in `entry.dfy`.
  - A child process is an oracle from identifier (or command line) to exit
    code and captured standard output.
  - `parse_json` is a state transformer on the table.
  - `ProcessFiles` keeps the source's loops: a `push` loop (`StartWave`) and
    a `pop` loop (`DrainWave`) inside the outer `while`.
- **The Python partition.** `GetCoverageGcovLines` in python/vimgcov.py
  lives in `plugin.dfy`. Its file-system and host queries are parameters.

Where the code and the written design of the program disagree, the model
follows the code:

- **A failed `parse_gcov_json` call is not atomic.** The design says a failed
  parse leaves the table as it was. The code returns at the first violation.
  By then it has merged all earlier lines and files, and inserted the key of
  the file being read. `NotAtomicFixture`, `ProcessFilesAppend` and
  `SelectedFileGetsKey` state this.
- **The verdict is `unexecuted_block && count == 0`.** The design says a zero
  count alone forces "uncovered". In the code, a zero count with
  `unexecuted_block == false` stays covered, as the parser test expects
  (`VerdictCases`, `CountOverridesFlagFixture`).
- **Errors are strings, not exceptions.** The design describes parse errors
  as raised exceptions. In the code, `parse_gcov_json` returns a string, and
  the `getcoverage` consumer drops it. So a bad report is neither raised nor
  reported (`GcovConsumer`, `GetCoverage`).

## Model

| member | source | states |
|---|---|---|
| Json.Find | src/gcov_json_handler.cpp:22-24 | a member lookup finds nothing iff no member has that name; otherwise it yields the value of the first member with that name |
| Json.FindSkipsOther | src/gcov_json_handler.cpp:22-24 | a member whose name differs from the one looked up changes no lookup, wherever it is inserted |
| Coverage.SortedViewDetermines | src/gcov_json_handler.cpp:77-86 | two strictly sorted vectors with the same line→uncovered mapping are equal, so a sorted vector is fully described by that mapping |
| Coverage.TableViewDetermines | src/gcov_json_handler.cpp:39-45 | two tables of sorted vectors with the same per-file mappings are equal |
| MergeOps.ApplyViewClosed | src/gcov_json_handler.cpp:83-86 | replaying touch/merge operations equals the order-free closed form: each touched file, each line's old flag AND every merged flag |
| MergeOps.ApplyViewIdempotent | src/gcov_json_handler.cpp:84 | replaying the same operations twice gives what replaying them once gives |
| MergeOps.ApplyViewCommutes | src/gcov_json_handler.cpp:83-86 | two operation lists replayed in either order give the same mapping |
| GcovJson.Message | src/gcov_json_handler.cpp:18-73 | every error has a non-empty message, the exact string the source returns |
| GcovJson.ErrorString | src/gcov_json_handler.cpp:89 | the returned string is empty iff no error occurred |
| GcovJson.CString | src/gcov_json_handler.cpp:36-42 | the name the selector and the table see is the longest prefix of the JSON string without a NUL; a string with no NUL is kept whole |
| GcovJson.LowerBoundIndex | src/gcov_json_handler.cpp:77-82 | the insertion point: every entry before it has a smaller line number, and the entry at it (if any) does not |
| GcovJson.MergeLineCorrect | src/gcov_json_handler.cpp:77-86 | merging one line into a sorted vector keeps it sorted; its mapping becomes old AND new for a present line, or the new verdict for a new one; it grows by one entry exactly when the line is new |
| GcovJson.MergeExisting | src/gcov_json_handler.cpp:83-84 | AND-ing the flag of a present entry keeps the vector sorted and changes the mapping only at that line |
| GcovJson.MergeInsert | src/gcov_json_handler.cpp:85-86 | inserting at the lower-bound position keeps the vector sorted and adds exactly that line to the mapping |
| GcovJson.LowerBound | src/gcov_json_handler.cpp:77-82 | the bisection over a sorted vector returns exactly the insertion point `LowerBoundIndex` |
| GcovJson.MergeLines | src/gcov_json_handler.cpp:53-87 | the inner loop over one file's lines leaves the vector and the error of the specification `ProcessLines`, and the vector stays sorted |
| GcovJson.ParseGcovJson | src/gcov_json_handler.cpp:13-90 | the whole call leaves the table of the specification `ParseGcov` and returns its error string; the table stays sorted |
| GcovJsonProps.ProcessLinesSorted | src/gcov_json_handler.cpp:53-87 | a sorted vector stays sorted through any run of lines, including an early error return |
| GcovJsonProps.ParseGcovSorted | src/gcov_json_handler.cpp:13-90 | if every vector of the table is sorted before the call, every vector is sorted after it, whether the call succeeds or fails |
| GcovJsonProps.ProcessFilesFrame | src/gcov_json_handler.cpp:27-88 | over any file entries, keys are only added, and a key the selector rejects or no entry names keeps its presence and its vector |
| GcovJsonProps.ParseGcovFrame | src/gcov_json_handler.cpp:37-45 | the call only adds keys, and leaves untouched every key the selector rejects or the document does not name |
| GcovJsonProps.SelectedFileGetsKey | src/gcov_json_handler.cpp:39-51 | a selected file gets its key before its `lines` attribute is checked; if that check fails, the key stays with the vector it had, or an empty one |
| GcovJsonProps.ProcessLinesSucceedsIff | src/gcov_json_handler.cpp:53-74 | a file's lines are accepted iff every line entry is well typed |
| GcovJsonProps.ProcessFilesSucceedsIff | src/gcov_json_handler.cpp:27-88 | the file entries are accepted iff every one is well typed for the selector |
| GcovJsonProps.ParseGcovSucceedsIff | src/gcov_json_handler.cpp:18-89 | the returned string is empty iff the document is well typed (object root, `files` array, each file well typed, each selected file's lines well typed) |
| GcovJsonProps.LineRejectedIffViolation | src/gcov_json_handler.cpp:55-75 | a line entry is rejected exactly when it violates some check (not an object, `unexecuted_block` missing or not a bool, `line_number` missing or not an unsigned int, `count` missing or not an unsigned int) |
| GcovJsonProps.LineErrorIsViolation | src/gcov_json_handler.cpp:55-73 | the error reported for a rejected line entry is one of the checks it violates |
| GcovJsonProps.LineErrorIsFirst | src/gcov_json_handler.cpp:55-73 | no violated check comes earlier than the reported one in the order line object, `unexecuted_block`, `line_number`, `count` |
| GcovJsonProps.FileErrorIsFirst | src/gcov_json_handler.cpp:29-51 | a file entry that fails a check of its own is rejected with the earliest of them, in the order object, `file` present, `file` a string, `lines` present, `lines` an array; one that fails none is rejected, if at all, by a line-level check |
| GcovJsonProps.DocumentErrorIsFirst | src/gcov_json_handler.cpp:18-25 | a document that fails a check of lines 18-25 is rejected with the earliest one and the table untouched; otherwise any error comes from a file or line entry |
| GcovJsonProps.FirstBadLine | src/gcov_json_handler.cpp:53-75 | the first ill-typed line entry decides the error, and the entries before it stay merged |
| GcovJsonProps.FirstBadFile | src/gcov_json_handler.cpp:27-52 | the first ill-typed file entry decides the outcome: the call ends as that entry's own processing ends, after the entries before it |
| GcovJsonProps.ExtraLineMember | src/gcov_json_handler.cpp:58-73 | a line entry's verdict, error included, is the same with or without a member other than `unexecuted_block`, `line_number` and `count` |
| GcovJsonProps.ExtraFileMember | src/gcov_json_handler.cpp:32-51 | a file entry's name, its `lines`, and what processing it does to the table and the error are the same with or without a member other than `file` and `lines` |
| GcovJsonProps.ExtraRootMember | src/gcov_json_handler.cpp:22-26 | the whole call leaves the same table and error with or without a root member other than `files` |
| GcovJsonProps.MessagesDistinct | src/gcov_json_handler.cpp:18-73 | different errors have different messages |
| GcovJsonProps.ProcessLinesAppend | src/gcov_json_handler.cpp:53-87 | lines after an error change neither the vector nor the error; merges made before the error stay |
| GcovJsonProps.ProcessFilesAppend | src/gcov_json_handler.cpp:27-88 | file entries after an error change neither the table nor the error; everything merged before the error stays (no rollback) |
| GcovJsonProps.ProcessLinesPlan | src/gcov_json_handler.cpp:53-87 | merging a file's lines has the effect on the mapping of replaying its merge operations, and fails with the same error |
| GcovJsonProps.ProcessFilesPlan | src/gcov_json_handler.cpp:27-88 | processing the file entries has the effect on the mapping of replaying their operations, and fails with the same error |
| GcovJsonProps.ParseGcovPlan | src/gcov_json_handler.cpp:13-90 | the call has the effect on the mapping of replaying the document's operations, and fails with the same error |
| GcovJsonProps.ParseGcovIdempotent | src/gcov_json_handler.cpp:84 | parsing the same document a second time into the table it produced changes nothing and reports the same error |
| GcovJsonProps.ParseGcovCommutes | src/gcov_json_handler.cpp:83-86 | two documents parsed in either order, with any selectors, leave the same table |
| GcovJsonExamples.VerdictCases | src/gcov_json_handler.cpp:62-75 | count 102 with the flag set gives covered; count 0 with the flag clear gives covered; count 0 with the flag set gives uncovered |
| GcovJsonExamples.UintBounds | src/gcov_json_handler.cpp:66-73 | a negative or 2^32 line number, or a 2^32 count, is refused; 2^32-1 is accepted |
| GcovJsonExamples.CountOverridesFlagFixture | tests/test_gcov_json_parser.cpp:42-67 | the second test document yields lines 67 and 69 of `lv_area.h`, both covered, and no error |
| GcovJsonExamples.FilesNotArrayFixture | src/gcov_json_handler.cpp:24-25 | `{"files": {}}` is refused with "'files' isn't array" and the table is unchanged |
| GcovJsonExamples.NotAtomicFixture | src/gcov_json_handler.cpp:27-30 | a good first file entry followed by a non-object entry reports "file isn't object", and the first entry's line stays merged |
| GcovJsonExamples.NulFileNameFixture | src/gcov_json_handler.cpp:36-42 | an entry named `"a.c\0b"` passes the selector for `a.c` and is stored under `a.c` |
| Batch.StartWave | src/vimgcov.cpp:35-84 | starts min(j, remaining) children, at least one and at most j, taking identifiers from the back of the deque, and removes them from it |
| Batch.DrainWave | src/vimgcov.cpp:57-87 | the pending children are drained in launch order, each consumed as its exit code decides, and the pending deque is left empty |
| Batch.ProcessFiles | src/vimgcov.cpp:11-90 | with `j >= 1` the loop ends, and its table is the wavefronts of the deque drained one after the other |
| BatchProps.WavesFlatten | src/vimgcov.cpp:40-88 | the wavefronts in order start the identifiers from the back of the deque to its front |
| BatchProps.StartedOnce | src/vimgcov.cpp:80-88 | every identifier is started exactly once |
| BatchProps.WavesCount | src/vimgcov.cpp:80-88 | there are ceil(n / j) wavefronts for n identifiers |
| BatchProps.WavesSizes | src/vimgcov.cpp:83-87 | no wavefront is empty or holds more than j children, and all but the last are full |
| BatchProps.ProcessFilesResult | src/vimgcov.cpp:80-89 | the table is all children drained in reverse input order, so it does not depend on j |
| BatchProps.DrainParsesOkOutputs | src/vimgcov.cpp:58-77 | `rv` changes only through `parse_json`, which sees exactly the outputs of the children that exit with 0, in drain order, whether it returns or throws |
| BatchProps.OkOutputsMembers | src/vimgcov.cpp:58-72 | an output reaches `parse_json` iff some child that printed it exited with 0 |
| BatchProps.OkOutputsAllSucceed | src/vimgcov.cpp:58-72 | when every child exits with 0, `parse_json` sees every output, in drain order |
| BatchExamples.EchoWaves | tests/test_vimgcov.cpp:19-20 | identifiers "1","2","3" with `j == 1` make three wavefronts: "3", then "2", then "1" |
| BatchExamples.EchoFixture | tests/test_vimgcov.cpp:5-27 | the driver test's run yields exactly one, two and three `(0, false)` entries under "1", "2" and "3" |
| Entry.PathSelector | src/vimgcov.cpp:110-112 | the selector accepts a file name iff it equals `path` |
| Entry.GcovFoldIsParseAll | src/vimgcov.cpp:109-113 | feeding outputs to the gcov consumer is running `parse_gcov_json` on each in turn, with its error string dropped |
| Entry.GcovFoldShape | src/vimgcov.cpp:109-113 | whatever the outputs, vectors stay sorted, no key but `path` is added, and every other entry is kept |
| Entry.GcovFoldPermutation | src/vimgcov.cpp:86-87 | any permutation of the gcov outputs gives the same table, so the order the children are drained in does not matter |
| Entry.GetCoverage | src/vimgcov.cpp:92-117 | the result is `parse_gcov_json` over the outputs of the zero-exit gcov runs, from the back of `gcnos`; it has at most the key `path`, with a sorted vector |
| Entry.GetLlvmCoverage | src/vimgcov.cpp:120-145 | the result is `parse_llvm_json`, with the path selector, over the outputs of the zero-exit llvm-cov runs, from the back of `executables` |
| Plugin.Partition | python/vimgcov.py:31-38 | the loop builds exactly the covered and the uncovered line-number lists |
| Plugin.GetCoverageGcovLines | python/vimgcov.py:6-44 | `FileNotFoundError` when the file does not exist; `KeyError` when the coverage map lacks it; otherwise the two lists of its vector |
| Plugin.PartitionSizes | python/vimgcov.py:31-38 | every entry lands in exactly one list, so the list sizes add up to the input size |
| Plugin.UncoveredMembers | python/vimgcov.py:34-36 | a number is in the uncovered list iff some entry has it and is flagged |
| Plugin.CoveredMembers | python/vimgcov.py:37-38 | a number is in the covered list iff some entry has it and is not flagged |
| Plugin.PartitionIncreasing | python/vimgcov.py:34-38 | on a sorted vector both lists are strictly increasing (input order kept), and no number is in both |
| Plugin.PartitionFixture | tests/test_vimgcov.py:48-60 | `[(1,F),(2,T),(3,F),(4,T)]` gives `([1,3],[2,4])` |

## Left out

- rapidjson's text parser (src/gcov_json_handler.cpp:17-19). A report is an
  already-parsed value. Malformed text is the `Malformed` document, and
  `IsUint` is an integer in `[0, 2^32)`. The model has no floating-point
  numbers, and a JSON number with a fraction is never `IsUint`.
- Boost.Process and asio (pipes, `async_read`, `io_context`, `child::wait`,
  `search_path`). A child is an oracle from command line to exit code and
  output. The result is fixed when the child is started. Concurrency inside
  a wavefront is not modelled.
- Standard-error diagnostics (src/vimgcov.cpp:63-65,75). These are only
  logging.
- Exceptions other than `parse_exception` thrown by `parse_json` or by
  process start-up. The source does not catch them, and the model does not
  raise them.
- `parse_llvm_json`. It is not part of this model. `GetLlvmCoverage` takes
  it as an opaque parameter.
- pybind11 bindings (src/vimgcov.cpp:147-154). These are a thin wrapper.
- `Path.is_file`, `rglob("*.gcno")` and `multiprocessing.cpu_count`
  (python/vimgcov.py:18,22,25). These are parameters of
  `GetCoverageGcovLines`.
- The `except KeyError: pass` around the Python loop
  (python/vimgcov.py:33,39-42). The key was checked just before, and the
  loop raises nothing.
- a.py, a timing script with no logic.
- tests/test_vimgcov_module.py, an end-to-end test that needs a compiler.
- The unused iterator at src/gcov_json_handler.cpp:46.
- Batch.ProcessFiles: requires `j >= 1`. With `j == 0` and a non-empty
  deque the source never starts a child and never leaves its outer loop;
  such a run is not expressible here. The call with `j == 0` and an empty
  deque, which returns an empty table, is excluded as well.
- GcovJson.ParseGcovJson: takes the table by value and returns it, instead
  of updating the caller's map in place. It requires every vector to be
  sorted, which is `std::lower_bound`'s precondition.
