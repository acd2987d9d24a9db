/**
 * The driver test of tests/test_vimgcov.cpp: each child prints its own
 * identifier and exits with 0, and the consumer stores, under the printed
 * text, a vector of that many `(0, false)` entries.
 */
module BatchExamples {
  import opened Coverage
  import opened Batch
  import opened BatchProps

  /** The value of a string of decimal digits, as `std::stoul` reads the test's outputs. */
  function DecimalValue(s: string): nat {
    if s == [] then 0
    else
      var c := s[|s| - 1];
      DecimalValue(s[..|s| - 1]) * 10 + (if '0' <= c <= '9' then (c - '0') as nat else 0)
  }

  /** `n` default entries, as `lines_t{ n }` builds them. */
  function Zeros(n: nat): (z: FileCoverage)
    ensures |z| == n && forall k :: 0 <= k < n ==> z[k] == LineRecord(0, false)
  {
    seq(n, _ => LineRecord(0, false))
  }

  function EchoLauncher(): Launcher {
    id => ProcessResult(0, id)
  }

  function StoreCount(): Consumer {
    (t, buf) => Returned(t[buf := Zeros(DecimalValue(buf))])
  }

  lemma DigitValues()
    ensures DecimalValue("1") == 1 && DecimalValue("2") == 2 && DecimalValue("3") == 3
  {
    assert "1"[..0] == [] && "2"[..0] == [] && "3"[..0] == [];
  }

  /** One echoing child drained into `t`. */
  lemma EchoStep(t: Table, id: string, rest: seq<string>)
    ensures DrainAll(t, [id] + rest, EchoLauncher(), StoreCount())
         == DrainAll(t[id := Zeros(DecimalValue(id))], rest, EchoLauncher(), StoreCount())
  {
    assert ([id] + rest)[0] == id && ([id] + rest)[1..] == rest;
  }

  /** Three echoing children drained in order into an empty table. */
  lemma DrainEchoes(a: string, b: string, c: string)
    ensures DrainAll(map[], [a, b, c], EchoLauncher(), StoreCount())
         == map[a := Zeros(DecimalValue(a))][b := Zeros(DecimalValue(b))][c := Zeros(DecimalValue(c))]
  {
    var empty: Table := map[];
    var t1 := empty[a := Zeros(DecimalValue(a))];
    var t2 := t1[b := Zeros(DecimalValue(b))];
    var t3 := t2[c := Zeros(DecimalValue(c))];
    EchoStep(empty, a, [b, c]);
    EchoStep(t1, b, [c]);
    EchoStep(t2, c, []);
    assert [a] + [b, c] == [a, b, c] && [b] + [c] == [b, c] && [c] + [] == [c];
    assert DrainAll(t3, [], EchoLauncher(), StoreCount()) == t3;
  }

  lemma DrainThreeEchoes()
    ensures DrainAll(map[], ["3", "2", "1"], EchoLauncher(), StoreCount())
         == map["1" := Zeros(1), "2" := Zeros(2), "3" := Zeros(3)]
  {
    DigitValues();
    DrainEchoes("3", "2", "1");
    assert "1"[0] != "2"[0] && "1"[0] != "3"[0] && "2"[0] != "3"[0];
  }

  /** With `j == 1` each wavefront is the back identifier alone. */
  lemma WavesOfOne(files: seq<string>)
    requires files != []
    ensures Waves(files, 1) == [[files[|files| - 1]]] + Waves(files[..|files| - 1], 1)
  {
    assert files[|files| - 1..] == [files[|files| - 1]];
    assert Reversed([files[|files| - 1]]) == [files[|files| - 1]];
  }

  /** Identifiers "1", "2", "3" with `j == 1`: three wavefronts of one child, "3" first. */
  lemma EchoWaves()
    ensures Waves(["1", "2", "3"], 1) == [["3"], ["2"], ["1"]]
  {
    var files := ["1", "2", "3"];
    WavesOfOne(files);
    assert files[..2] == ["1", "2"];
    WavesOfOne(["1", "2"]);
    assert ["1", "2"][..1] == ["1"];
    WavesOfOne(["1"]);
    assert ["1"][..0] == [];
  }

  /** The same run leaves one entry per identifier, with as many entries as the identifier says. */
  lemma EchoFixture()
    ensures RunWaves(map[], Waves(["1", "2", "3"], 1), EchoLauncher(), StoreCount())
         == map["1" := [LineRecord(0, false)],
                "2" := [LineRecord(0, false), LineRecord(0, false)],
                "3" := [LineRecord(0, false), LineRecord(0, false), LineRecord(0, false)]]
  {
    var files := ["1", "2", "3"];
    ProcessFilesResult(EchoLauncher(), StoreCount(), files, 1);
    assert Reversed(files) == ["3", "2", "1"];
    DrainThreeEchoes();
    assert Zeros(1) == [LineRecord(0, false)];
    assert Zeros(2) == [LineRecord(0, false), LineRecord(0, false)];
    assert Zeros(3) == [LineRecord(0, false), LineRecord(0, false), LineRecord(0, false)];
  }
}
