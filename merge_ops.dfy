/**
 * The effect of a parse on what a table says, as a list of elementary updates:
 * `Touch(f)` is the key insertion at src/gcov_json_handler.cpp:39-44 and
 * `Merge(f, n, u)` is one line's merge at lines 77-86. Replaying a list of them
 * is the same as meeting the table with a closed form (`Closed`), from which the
 * laws the batch relies on follow: replaying is idempotent and two lists
 * commute.
 */
module MergeOps {
  import opened Coverage

  datatype Op = Touch(file: string) | Merge(file: string, line: nat, uncovered: bool)

  type View = map<string, map<nat, bool>>

  function StepView(v: View, op: Op): View {
    match op
    case Touch(f) => if f in v then v else v[f := map[]]
    case Merge(f, n, u) => v[f := MergeVerdict(if f in v then v[f] else map[], n, u)]
  }

  /** Replays the updates in order. */
  function ApplyView(v: View, ops: seq<Op>): View
    decreases |ops|
  {
    if ops == [] then v else ApplyView(StepView(v, ops[0]), ops[1..])
  }

  /** Files named by some update. */
  function Files(ops: seq<Op>): set<string> {
    if ops == [] then {} else {ops[0].file} + Files(ops[1..])
  }

  /** Lines merged into file `f`. */
  function LinesOf(ops: seq<Op>, f: string): set<nat> {
    if ops == [] then {}
    else (if ops[0].Merge? && ops[0].file == f then {ops[0].line} else {}) + LinesOf(ops[1..], f)
  }

  /** Whether every verdict merged into line `n` of file `f` says "uncovered". */
  function AllUncovered(ops: seq<Op>, f: string, n: nat): bool {
    if ops == [] then true
    else (!(ops[0].Merge? && ops[0].file == f && ops[0].line == n) || ops[0].uncovered)
         && AllUncovered(ops[1..], f, n)
  }

  function ClosedLines(m: map<nat, bool>, ops: seq<Op>, f: string): map<nat, bool> {
    map n | n in m.Keys + LinesOf(ops, f) :: (n !in m || m[n]) && AllUncovered(ops, f, n)
  }

  /**
   * What the table says after the updates, written without order: every file
   * touched is present, and a line is uncovered iff it was uncovered before (or
   * absent) and every merged verdict for it says uncovered.
   */
  function Closed(v: View, ops: seq<Op>): View {
    map f | f in v.Keys + Files(ops) :: ClosedLines(Get(v, f), ops, f)
  }

  /** The lines a view holds for `f`, none when `f` is absent. */
  function Get(v: View, f: string): map<nat, bool> {
    if f in v then v[f] else map[]
  }

  lemma {:induction false} ApplyViewAppend(v: View, a: seq<Op>, b: seq<Op>)
    ensures ApplyView(v, a + b) == ApplyView(ApplyView(v, a), b)
    decreases |a|
  {
    if a == [] {
      assert a + b == b;
    } else {
      assert (a + b)[0] == a[0] && (a + b)[1..] == a[1..] + b;
      ApplyViewAppend(StepView(v, a[0]), a[1..], b);
    }
  }

  lemma ClosedLinesStep(m: map<nat, bool>, o: Op, rest: seq<Op>, f: string)
    ensures ClosedLines(if o.Merge? && o.file == f then MergeVerdict(m, o.line, o.uncovered) else m, rest, f)
            == ClosedLines(m, [o] + rest, f)
  {
    var ops := [o] + rest;
    assert ops[0] == o && ops[1..] == rest;
    var m' := if o.Merge? && o.file == f then MergeVerdict(m, o.line, o.uncovered) else m;
    assert LinesOf(ops, f) == (if o.Merge? && o.file == f then {o.line} else {}) + LinesOf(rest, f);
    assert ClosedLines(m', rest, f).Keys == ClosedLines(m, ops, f).Keys;
    forall n | n in ClosedLines(m', rest, f)
      ensures ClosedLines(m', rest, f)[n] == ClosedLines(m, ops, f)[n]
    {
      assert AllUncovered(ops, f, n) == ((!(o.Merge? && o.file == f && o.line == n) || o.uncovered)
                                         && AllUncovered(rest, f, n));
    }
  }

  lemma StepViewGet(v: View, o: Op, f: string)
    ensures StepView(v, o).Keys == v.Keys + {o.file}
    ensures Get(StepView(v, o), f)
            == if o.Merge? && o.file == f then MergeVerdict(Get(v, f), o.line, o.uncovered) else Get(v, f)
  {
  }

  lemma ClosedStep(v: View, o: Op, rest: seq<Op>)
    ensures Closed(StepView(v, o), rest) == Closed(v, [o] + rest)
  {
    var ops := [o] + rest;
    assert ops[0] == o && ops[1..] == rest;
    var sv := StepView(v, o);
    var l, r := Closed(sv, rest), Closed(v, ops);
    assert Files(ops) == {o.file} + Files(rest);
    StepViewGet(v, o, o.file);
    assert l.Keys == r.Keys;
    forall f | f in l ensures l[f] == r[f] {
      assert l[f] == ClosedLines(Get(sv, f), rest, f);
      assert r[f] == ClosedLines(Get(v, f), ops, f);
      StepViewGet(v, o, f);
      ClosedLinesStep(Get(v, f), o, rest, f);
    }
  }

  /** Replaying the updates meets the table with their closed form. */
  lemma {:induction false} ApplyViewClosed(v: View, ops: seq<Op>)
    ensures ApplyView(v, ops) == Closed(v, ops)
    decreases |ops|
  {
    if ops == [] {
      assert Closed(v, ops) == v by {
        forall f | f in v ensures Closed(v, ops)[f] == v[f] {
          assert ClosedLines(v[f], ops, f) == v[f];
        }
      }
    } else {
      ApplyViewClosed(StepView(v, ops[0]), ops[1..]);
      ClosedStep(v, ops[0], ops[1..]);
      assert [ops[0]] + ops[1..] == ops;
    }
  }

  lemma {:induction false} FilesAppend(a: seq<Op>, b: seq<Op>)
    ensures Files(a + b) == Files(a) + Files(b)
    decreases |a|
  {
    if a == [] {
      assert a + b == b;
    } else {
      assert (a + b)[0] == a[0] && (a + b)[1..] == a[1..] + b;
      FilesAppend(a[1..], b);
    }
  }

  lemma {:induction false} LinesOfAppend(a: seq<Op>, b: seq<Op>, f: string)
    ensures LinesOf(a + b, f) == LinesOf(a, f) + LinesOf(b, f)
    decreases |a|
  {
    if a == [] {
      assert a + b == b;
    } else {
      assert (a + b)[0] == a[0] && (a + b)[1..] == a[1..] + b;
      LinesOfAppend(a[1..], b, f);
    }
  }

  lemma {:induction false} AllUncoveredAppend(a: seq<Op>, b: seq<Op>, f: string, n: nat)
    ensures AllUncovered(a + b, f, n) == (AllUncovered(a, f, n) && AllUncovered(b, f, n))
    decreases |a|
  {
    if a == [] {
      assert a + b == b;
    } else {
      assert (a + b)[0] == a[0] && (a + b)[1..] == a[1..] + b;
      AllUncoveredAppend(a[1..], b, f, n);
    }
  }

  lemma ClosedLinesSame(m: map<nat, bool>, a: seq<Op>, b: seq<Op>, f: string)
    requires LinesOf(a, f) == LinesOf(b, f)
    requires forall n :: AllUncovered(a, f, n) == AllUncovered(b, f, n)
    ensures ClosedLines(m, a, f) == ClosedLines(m, b, f)
  {
  }

  /** Closed forms agree when they touch the same files and lines with the same verdicts. */
  lemma ClosedSame(v: View, a: seq<Op>, b: seq<Op>)
    requires Files(a) == Files(b)
    requires forall f :: LinesOf(a, f) == LinesOf(b, f)
    requires forall f, n :: AllUncovered(a, f, n) == AllUncovered(b, f, n)
    ensures Closed(v, a) == Closed(v, b)
  {
    var l, r := Closed(v, a), Closed(v, b);
    assert l.Keys == r.Keys;
    forall f | f in l ensures l[f] == r[f] {
      ClosedLinesSame(Get(v, f), a, b, f);
    }
  }

  /** Replaying a list of updates a second time changes nothing. */
  lemma ApplyViewIdempotent(v: View, ops: seq<Op>)
    ensures ApplyView(ApplyView(v, ops), ops) == ApplyView(v, ops)
  {
    ApplyViewAppend(v, ops, ops);
    ApplyViewClosed(v, ops + ops);
    ApplyViewClosed(v, ops);
    FilesAppend(ops, ops);
    forall f ensures LinesOf(ops + ops, f) == LinesOf(ops, f) {
      LinesOfAppend(ops, ops, f);
    }
    forall f, n ensures AllUncovered(ops + ops, f, n) == AllUncovered(ops, f, n) {
      AllUncoveredAppend(ops, ops, f, n);
    }
    ClosedSame(v, ops + ops, ops);
  }

  /** Two lists of updates replayed in either order leave the same table. */
  lemma ApplyViewCommutes(v: View, a: seq<Op>, b: seq<Op>)
    ensures ApplyView(ApplyView(v, a), b) == ApplyView(ApplyView(v, b), a)
  {
    ApplyViewAppend(v, a, b);
    ApplyViewAppend(v, b, a);
    ApplyViewClosed(v, a + b);
    ApplyViewClosed(v, b + a);
    FilesAppend(a, b);
    FilesAppend(b, a);
    forall f ensures LinesOf(a + b, f) == LinesOf(b + a, f) {
      LinesOfAppend(a, b, f);
      LinesOfAppend(b, a, f);
    }
    forall f, n ensures AllUncovered(a + b, f, n) == AllUncovered(b + a, f, n) {
      AllUncoveredAppend(a, b, f, n);
      AllUncoveredAppend(b, a, f, n);
    }
    ClosedSame(v, a + b, b + a);
  }
}
