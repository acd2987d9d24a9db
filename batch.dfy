/**
 * The wavefront driver of src/vimgcov.cpp (`process_files`).
 *
 * A child process is an oracle: `launch` maps an identifier to the exit code
 * and the standard output its child leaves behind. Pipes, the asio event
 * loop and standard error are not modelled. `parse_json` is a state
 * transformer on the table that either returns or throws `parse_exception`
 * after having updated the table (the table is passed by reference, so
 * what it did before throwing stays).
 */
module Batch {
  import opened Coverage

  /** What a finished child leaves: `child->exit_code()` and its captured stdout. */
  datatype ProcessResult = ProcessResult(exitCode: int, stdout: string)

  /** The outcome of one `parse_json(rv, buf)` call; both cases keep the table it left. */
  datatype Consumed = Returned(table: Table) | Threw(table: Table)

  /** One `per_proc_t` entry: the identifier it was started for and what the child produced. */
  datatype Pending = Pending(gcno: string, result: ProcessResult)

  type Launcher = string -> ProcessResult
  type Consumer = (Table, string) -> Consumed

  /** `s` back to front. */
  function Reversed<T>(s: seq<T>): (r: seq<T>)
    ensures |r| == |s|
    ensures forall k :: 0 <= k < |s| ==> r[k] == s[|s| - 1 - k]
  {
    if s == [] then [] else Reversed(s[1..]) + [s[0]]
  }

  /**
   * Lines 57-78 for one child: a non-zero exit code skips the output (lines
   * 61-68); otherwise `parse_json` runs and a `parse_exception` is caught
   * (lines 69-76), so the table is whatever the call left in both cases.
   */
  function Consume(rv: Table, r: ProcessResult, parse: Consumer): Table {
    if r.exitCode != 0 then rv else parse(rv, r.stdout).table
  }

  /** The children for `ids`, drained front to back. */
  function DrainAll(rv: Table, ids: seq<string>, launch: Launcher, parse: Consumer): Table
    decreases |ids|
  {
    if ids == [] then rv else DrainAll(Consume(rv, launch(ids[0]), parse), ids[1..], launch, parse)
  }

  /**
   * The wavefronts of lines 80-88 for a deque `files` whose back is its last
   * element: each takes up to `j` identifiers from the back (lines 83-84,
   * 40, 46, 55), in the order they are started.
   */
  function Waves(files: seq<string>, j: nat): seq<seq<string>>
    requires j >= 1
    decreases |files|
  {
    if files == [] then []
    else
      var k := if |files| < j then |files| else j;
      [Reversed(files[|files| - k..])] + Waves(files[..|files| - k], j)
  }

  /** The wavefronts drained one after the other. */
  function RunWaves(rv: Table, waves: seq<seq<string>>, launch: Launcher, parse: Consumer): Table
    decreases |waves|
  {
    if waves == [] then rv else RunWaves(DrainAll(rv, waves[0], launch, parse), waves[1..], launch, parse)
  }

  /** The pending entries for `ids`, each with the result its child produced. */
  function Launched(ids: seq<string>, launch: Launcher): (r: seq<Pending>)
    ensures |r| == |ids|
    ensures forall k :: 0 <= k < |ids| ==> r[k] == Pending(ids[k], launch(ids[k]))
  {
    if ids == [] then [] else [Pending(ids[0], launch(ids[0]))] + Launched(ids[1..], launch)
  }

  lemma LaunchedSuffix(ids: seq<string>, launch: Launcher, i: nat)
    requires i <= |ids|
    ensures Launched(ids, launch)[i..] == Launched(ids[i..], launch)
  {
  }

  /**
   * Lines 83-84 with the `push` lambda of lines 35-56: while fewer than `j`
   * children are pending and identifiers remain, start the child for the
   * back of the deque and drop it from the deque.
   */
  method StartWave(launch: Launcher, queue: seq<string>, j: nat) returns (rest: seq<string>, perProc: seq<Pending>)
    requires j >= 1
    ensures queue != [] ==> 1 <= |perProc| <= j
    ensures var k := if |queue| < j then |queue| else j;
      && rest == queue[..|queue| - k]
      && perProc == Launched(Reversed(queue[|queue| - k..]), launch)
  {
    rest := queue;
    perProc := [];
    while |perProc| < j && rest != []
      invariant |perProc| <= j
      invariant |rest| + |perProc| == |queue|
      invariant rest == queue[..|rest|]
      invariant perProc == Launched(Reversed(queue[|rest|..]), launch)
      decreases |rest|
    {
      ghost var m := |rest|;
      var gcno := rest[|rest| - 1];
      perProc := perProc + [Pending(gcno, launch(gcno))];
      rest := rest[..|rest| - 1];
      assert queue[m - 1..] == [gcno] + queue[m..];
      assert Reversed(queue[m - 1..]) == Reversed(queue[m..]) + [gcno];
    }
  }

  /**
   * Lines 86-87 with the `pop` lambda of lines 57-78: the pending children
   * are consumed oldest first and each is erased once handled, so the
   * deque handed back is empty.
   */
  method DrainWave(launch: Launcher, parse: Consumer, rv: Table, perProc: seq<Pending>, ghost wave: seq<string>)
    returns (out: Table, pending: seq<Pending>)
    requires perProc == Launched(wave, launch)
    ensures out == DrainAll(rv, wave, launch, parse)
    ensures pending == []
  {
    out := rv;
    pending := perProc;
    ghost var drained := 0;
    while pending != []
      invariant drained <= |wave|
      invariant pending == Launched(wave[drained..], launch)
      invariant DrainAll(out, wave[drained..], launch, parse) == DrainAll(rv, wave, launch, parse)
      decreases |pending|
    {
      var head := pending[0];
      LaunchedSuffix(wave[drained..], launch, 1);
      assert wave[drained..][1..] == wave[drained + 1..];
      if head.result.exitCode == 0 {
        var consumed := parse(out, head.result.stdout);
        out := consumed.table;
      }
      pending := pending[1..];
      drained := drained + 1;
    }
    assert wave[drained..] == [];
  }

  /**
   * Lines 11-90: wavefront after wavefront until the deque is empty; every
   * wavefront starts with `per_proc` empty and leaves it empty. Requires
   * `j >= 1`: with `j == 0` the inner `push` loop never runs and the outer
   * loop never ends.
   */
  method ProcessFiles(launch: Launcher, parse: Consumer, files: seq<string>, j: nat) returns (rv: Table)
    requires j >= 1
    ensures rv == RunWaves(map[], Waves(files, j), launch, parse)
  {
    rv := map[];
    var queue := files;
    var perProc: seq<Pending> := [];
    while queue != []
      invariant perProc == []
      invariant RunWaves(rv, Waves(queue, j), launch, parse) == RunWaves(map[], Waves(files, j), launch, parse)
      decreases |queue|
    {
      ghost var before := queue;
      ghost var k := if |before| < j then |before| else j;
      queue, perProc := StartWave(launch, queue, j);
      ghost var wave := Reversed(before[|before| - k..]);
      assert Waves(before, j) == [wave] + Waves(queue, j);
      rv, perProc := DrainWave(launch, parse, rv, perProc, wave);
    }
  }
}
