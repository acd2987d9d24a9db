/**
 * What the wavefront loop of src/vimgcov.cpp guarantees: every identifier is
 * started exactly once, back of the deque first, in wavefronts of at most
 * `j`; only children that exit with 0 reach `parse_json`, in the order they
 * were started; and the table is the same whatever `j` is.
 */
module BatchProps {
  import opened Coverage
  import opened Batch

  /** The wavefronts one after the other. */
  function Flatten<T>(waves: seq<seq<T>>): seq<T> {
    if waves == [] then [] else waves[0] + Flatten(waves[1..])
  }

  /** The standard outputs of the children that exited with 0, in the order they are drained. */
  function OkOutputs(ids: seq<string>, launch: Launcher): seq<string> {
    if ids == [] then []
    else
      var rest := OkOutputs(ids[1..], launch);
      if launch(ids[0]).exitCode == 0 then [launch(ids[0]).stdout] + rest else rest
  }

  /** An output is kept exactly when some child that printed it exited with 0. */
  lemma {:induction false} OkOutputsMembers(ids: seq<string>, launch: Launcher)
    ensures forall o :: o in OkOutputs(ids, launch) <==>
      exists k :: 0 <= k < |ids| && launch(ids[k]).exitCode == 0 && launch(ids[k]).stdout == o
    decreases |ids|
  {
    if ids != [] {
      OkOutputsMembers(ids[1..], launch);
      forall o | (exists k :: 0 <= k < |ids| && launch(ids[k]).exitCode == 0 && launch(ids[k]).stdout == o)
        ensures o in OkOutputs(ids, launch)
      {
        var k :| 0 <= k < |ids| && launch(ids[k]).exitCode == 0 && launch(ids[k]).stdout == o;
        if k > 0 { assert ids[1..][k - 1] == ids[k]; }
      }
      forall o | o in OkOutputs(ids[1..], launch)
        ensures exists k :: 0 <= k < |ids| && launch(ids[k]).exitCode == 0 && launch(ids[k]).stdout == o
      {
        var k :| 0 <= k < |ids[1..]| && launch(ids[1..][k]).exitCode == 0 && launch(ids[1..][k]).stdout == o;
        assert ids[k + 1] == ids[1..][k];
      }
    }
  }

  /** When every child exits with 0, each output is kept, in drain order. */
  lemma {:induction false} OkOutputsAllSucceed(ids: seq<string>, launch: Launcher)
    requires forall k :: 0 <= k < |ids| ==> launch(ids[k]).exitCode == 0
    ensures |OkOutputs(ids, launch)| == |ids|
    ensures forall k :: 0 <= k < |ids| ==> OkOutputs(ids, launch)[k] == launch(ids[k]).stdout
    decreases |ids|
  {
    if ids != [] {
      assert forall k :: 0 <= k < |ids[1..]| ==> ids[1..][k] == ids[k + 1];
      OkOutputsAllSucceed(ids[1..], launch);
    }
  }

  /** `parse_json` applied to each output in turn, each into the table the previous call left. */
  function ParseAll(rv: Table, outputs: seq<string>, parse: Consumer): Table
    decreases |outputs|
  {
    if outputs == [] then rv else ParseAll(parse(rv, outputs[0]).table, outputs[1..], parse)
  }

  lemma {:induction false} ReversedAppend<T>(a: seq<T>, b: seq<T>)
    ensures Reversed(a + b) == Reversed(b) + Reversed(a)
    decreases |a|
  {
    if a == [] {
      assert a + b == b;
    } else {
      assert (a + b)[1..] == a[1..] + b && (a + b)[0] == a[0];
      ReversedAppend(a[1..], b);
    }
  }

  lemma {:induction false} ReversedMultiset<T>(s: seq<T>)
    ensures multiset(Reversed(s)) == multiset(s)
    decreases |s|
  {
    if s != [] {
      ReversedMultiset(s[1..]);
      assert s == [s[0]] + s[1..];
    }
  }

  /** The wavefronts, in order, start the identifiers from the back of the deque to its front. */
  lemma {:induction false} WavesFlatten(files: seq<string>, j: nat)
    requires j >= 1
    ensures Flatten(Waves(files, j)) == Reversed(files)
    decreases |files|
  {
    if files != [] {
      var k := if |files| < j then |files| else j;
      var front, back := files[..|files| - k], files[|files| - k..];
      WavesFlatten(front, j);
      assert files == front + back;
      ReversedAppend(front, back);
      var w := Waves(files, j);
      assert w[0] == Reversed(back) && w[1..] == Waves(front, j);
    }
  }

  /** Every identifier is started exactly once. */
  lemma StartedOnce(files: seq<string>, j: nat)
    requires j >= 1
    ensures multiset(Flatten(Waves(files, j))) == multiset(files)
  {
    WavesFlatten(files, j);
    ReversedMultiset(files);
  }

  lemma {:induction false} MulAtLeast(a: nat, j: nat)
    requires a >= 1
    ensures a * j >= j
    decreases a
  {
    if a > 1 {
      MulAtLeast(a - 1, j);
      assert a * j == (a - 1) * j + j;
    }
  }

  /** Division by `j` is determined by quotient and remainder. */
  lemma DivUnique(x: nat, j: nat, q: nat, r: nat)
    requires 0 <= r < j && x == q * j + r
    ensures x / j == q
  {
    var d := x / j;
    var e := x % j;
    assert x == d * j + e && 0 <= e < j;
    if d < q {
      MulAtLeast(q - d, j);
      assert false;
    } else if d > q {
      MulAtLeast(d - q, j);
      assert false;
    }
  }

  /** Taking one full wavefront off `n >= j` identifiers leaves one wavefront fewer to go. */
  lemma CeilStep(n: nat, j: nat)
    requires 1 <= j <= n
    ensures (n + j - 1) / j == (n - j + j - 1) / j + 1
  {
    var m := n - 1;
    var q, r := m / j, m % j;
    assert m == q * j + r;
    assert m + j == (q + 1) * j + r;
    DivUnique(m + j, j, q + 1, r);
  }

  /** There are `ceil(|files| / j)` wavefronts. */
  lemma {:induction false} WavesCount(files: seq<string>, j: nat)
    requires j >= 1
    ensures |Waves(files, j)| == (|files| + j - 1) / j
    decreases |files|
  {
    if files != [] {
      var k := if |files| < j then |files| else j;
      var front := files[..|files| - k];
      WavesCount(front, j);
      assert Waves(files, j)[1..] == Waves(front, j);
      if |files| < j {
        assert (|files| + j - 1) / j == 1;
      } else {
        CeilStep(|files|, j);
      }
    }
  }

  /** No wavefront is empty or larger than `j`, and every one but the last is full. */
  lemma {:induction false} WavesSizes(files: seq<string>, j: nat)
    requires j >= 1
    ensures var w := Waves(files, j);
      && (forall i :: 0 <= i < |w| ==> 1 <= |w[i]| <= j)
      && (forall i :: 0 <= i < |w| - 1 ==> |w[i]| == j)
    decreases |files|
  {
    if files != [] {
      var k := if |files| < j then |files| else j;
      var front := files[..|files| - k];
      WavesSizes(front, j);
      var w := Waves(files, j);
      assert w[1..] == Waves(front, j);
      assert |w[0]| == k;
      forall i | 0 <= i < |w| ensures 1 <= |w[i]| <= j {
        if i > 0 { assert w[i] == w[1..][i - 1]; }
      }
      forall i | 0 <= i < |w| - 1 ensures |w[i]| == j {
        if i > 0 { assert w[i] == w[1..][i - 1]; }
        else { assert |front| > 0; }
      }
    }
  }

  lemma {:induction false} DrainAllAppend(rv: Table, a: seq<string>, b: seq<string>, launch: Launcher, parse: Consumer)
    ensures DrainAll(rv, a + b, launch, parse) == DrainAll(DrainAll(rv, a, launch, parse), b, launch, parse)
    decreases |a|
  {
    if a == [] {
      assert a + b == b;
    } else {
      assert (a + b)[0] == a[0] && (a + b)[1..] == a[1..] + b;
      DrainAllAppend(Consume(rv, launch(a[0]), parse), a[1..], b, launch, parse);
    }
  }

  /** Draining wavefront after wavefront is draining their concatenation. */
  lemma {:induction false} RunWavesFlat(rv: Table, waves: seq<seq<string>>, launch: Launcher, parse: Consumer)
    ensures RunWaves(rv, waves, launch, parse) == DrainAll(rv, Flatten(waves), launch, parse)
    decreases |waves|
  {
    if waves != [] {
      RunWavesFlat(DrainAll(rv, waves[0], launch, parse), waves[1..], launch, parse);
      DrainAllAppend(rv, waves[0], Flatten(waves[1..]), launch, parse);
    }
  }

  /**
   * The table `process_files` returns is the children drained in reverse
   * input order, whatever the wavefront size `j`.
   */
  lemma ProcessFilesResult(launch: Launcher, parse: Consumer, files: seq<string>, j: nat)
    requires j >= 1
    ensures RunWaves(map[], Waves(files, j), launch, parse) == DrainAll(map[], Reversed(files), launch, parse)
  {
    RunWavesFlat(map[], Waves(files, j), launch, parse);
    WavesFlatten(files, j);
  }

  /**
   * `rv` changes only through `parse_json`, and `parse_json` sees exactly the
   * outputs of the children that exited with 0, in the order they are drained.
   */
  lemma {:induction false} DrainParsesOkOutputs(rv: Table, ids: seq<string>, launch: Launcher, parse: Consumer)
    ensures DrainAll(rv, ids, launch, parse) == ParseAll(rv, OkOutputs(ids, launch), parse)
    decreases |ids|
  {
    if ids != [] {
      DrainParsesOkOutputs(Consume(rv, launch(ids[0]), parse), ids[1..], launch, parse);
      if launch(ids[0]).exitCode == 0 {
        var outs := OkOutputs(ids, launch);
        assert outs[0] == launch(ids[0]).stdout && outs[1..] == OkOutputs(ids[1..], launch);
      }
    }
  }
}
