/** Day 10: the look-and-say sequence. */
module Day10 {
  import opened Common

  /** A run of `n` copies of `c`. */
  datatype Run = Run(c: char, n: nat)

  function Repeat(c: char, n: nat): (s: string)
    ensures |s| == n && forall i :: 0 <= i < n ==> s[i] == c
  {
    seq(n, _ => c)
  }

  /** The string that the runs spell out. */
  function Expand(runs: seq<Run>): string {
    if runs == [] then [] else Expand(runs[..|runs| - 1]) + Repeat(runs[|runs| - 1].c, runs[|runs| - 1].n)
  }

  /** `runs` cuts `s` into maximal runs: each run is non-empty and two
      neighbouring runs repeat different characters. */
  predicate IsRunDecomposition(s: string, runs: seq<Run>) {
    Expand(runs) == s
    && (forall i :: 0 <= i < |runs| ==> runs[i].n >= 1)
    && (forall i :: 0 < i < |runs| ==> runs[i - 1].c != runs[i].c)
  }

  /** The maximal runs of `s`, from left to right. */
  function Runs(s: string): seq<Run> {
    if s == [] then [] else AddChar(Runs(s[..|s| - 1]), s[|s| - 1])
  }

  /** The runs after one more character: the last run grows when it
      repeats `c`, otherwise a new run of one starts. */
  function AddChar(runs: seq<Run>, c: char): seq<Run> {
    if runs != [] && runs[|runs| - 1].c == c then runs[..|runs| - 1] + [Run(c, runs[|runs| - 1].n + 1)]
    else runs + [Run(c, 1)]
  }

  lemma RunsSnoc(prefix: string, c: char)
    ensures Runs(prefix + [c]) == AddChar(Runs(prefix), c)
  {
    var s := prefix + [c];
    assert s[..|s| - 1] == prefix && s[|s| - 1] == c;
  }

  /** Extending the last run by one more copy of its character. */
  lemma ExtendLastRun(prefix: string, c: char)
    requires IsRunDecomposition(prefix, Runs(prefix))
    requires Runs(prefix) != [] && Runs(prefix)[|Runs(prefix)| - 1].c == c
    ensures IsRunDecomposition(prefix + [c], Runs(prefix + [c]))
  {
    RunsSnoc(prefix, c);
    ExtendDecomposition(prefix, Runs(prefix), c);
  }

  /** A decomposition of `prefix` whose last run repeats `c` becomes one of
      `prefix + [c]` once that run is one longer. */
  lemma ExtendDecomposition(prefix: string, init: seq<Run>, c: char)
    requires IsRunDecomposition(prefix, init)
    requires init != [] && init[|init| - 1].c == c
    ensures IsRunDecomposition(prefix + [c], init[..|init| - 1] + [Run(c, init[|init| - 1].n + 1)])
  {
    var front := init[..|init| - 1];
    var last := init[|init| - 1];
    var r := Run(c, last.n + 1);
    assert init == front + [last];
    ExtendExpands(front, c, last.n);
    ReplaceLastKeepsNeighbours(init, r);
    var runs := front + [r];
    forall i | 0 <= i < |runs| ensures runs[i].n >= 1 {
      if i < |front| {
        assert runs[i] == init[i];
      }
    }
  }

  /** Lengthening the last run appends its character to the expansion. */
  lemma ExtendExpands(front: seq<Run>, c: char, n: nat)
    ensures Expand(front + [Run(c, n + 1)]) == Expand(front + [Run(c, n)]) + [c]
  {
    ExpandSnoc(front, Run(c, n));
    ExpandSnoc(front, Run(c, n + 1));
    RepeatSnoc(c, n);
    AppendAssoc(Expand(front), Repeat(c, n), [c]);
  }

  lemma RepeatSnoc(c: char, n: nat)
    ensures Repeat(c, n + 1) == Repeat(c, n) + [c]
  {
    var x := Repeat(c, n + 1);
    var y := Repeat(c, n) + [c];
    forall i | 0 <= i < n + 1 ensures x[i] == y[i] {
      if i < n {
        assert y[i] == Repeat(c, n)[i];
      }
    }
    assert x == y;
  }

  lemma AppendAssoc(a: string, b: string, d: string)
    ensures a + (b + d) == (a + b) + d
  {
  }

  /** The expansion of runs with one more run at the end. */
  lemma ExpandSnoc(front: seq<Run>, r: Run)
    ensures Expand(front + [r]) == Expand(front) + Repeat(r.c, r.n)
  {
    var runs := front + [r];
    assert runs[..|runs| - 1] == front;
  }

  /** Neighbouring runs stay different when the last run is replaced by
      one of the same character. */
  lemma ReplaceLastKeepsNeighbours(init: seq<Run>, r: Run)
    requires init != [] && init[|init| - 1].c == r.c
    requires forall i :: 0 < i < |init| ==> init[i - 1].c != init[i].c
    ensures var runs := init[..|init| - 1] + [r];
      forall i :: 0 < i < |runs| ==> runs[i - 1].c != runs[i].c
  {
    var runs := init[..|init| - 1] + [r];
    forall i | 0 < i < |runs| ensures runs[i - 1].c != runs[i].c {
      assert runs[i - 1] == init[i - 1];
      if i < |runs| - 1 {
        assert runs[i] == init[i];
      }
    }
  }

  /** Starting a new run with a character different from the last one. */
  lemma StartNewRun(prefix: string, c: char)
    requires IsRunDecomposition(prefix, Runs(prefix))
    requires Runs(prefix) == [] || Runs(prefix)[|Runs(prefix)| - 1].c != c
    ensures IsRunDecomposition(prefix + [c], Runs(prefix + [c]))
  {
    RunsSnoc(prefix, c);
    StartDecomposition(prefix, Runs(prefix), c);
  }

  /** A decomposition of `prefix` whose last run does not repeat `c`
      becomes one of `prefix + [c]` with a new run of one `c`. */
  lemma StartDecomposition(prefix: string, init: seq<Run>, c: char)
    requires IsRunDecomposition(prefix, init)
    requires init == [] || init[|init| - 1].c != c
    ensures IsRunDecomposition(prefix + [c], init + [Run(c, 1)])
  {
    var runs := init + [Run(c, 1)];
    ExpandSnoc(init, Run(c, 1));
    assert Repeat(c, 1) == [c];
    forall i | 0 < i < |runs| ensures runs[i - 1].c != runs[i].c {
      assert runs[i - 1] == init[i - 1];
      if i < |init| {
        assert runs[i] == init[i];
      }
    }
  }

  /** `Runs` cuts every string into its maximal runs; the last run of a
      non-empty string ends with its last character. */
  lemma {:induction false} RunsDecompose(s: string)
    ensures IsRunDecomposition(s, Runs(s))
    ensures s != [] ==> Runs(s) != [] && Runs(s)[|Runs(s)| - 1].c == s[|s| - 1]
  {
    if s != [] {
      var prefix := s[..|s| - 1];
      var c := s[|s| - 1];
      assert s == prefix + [c];
      RunsDecompose(prefix);
      var init := Runs(prefix);
      if init != [] && init[|init| - 1].c == c {
        ExtendLastRun(prefix, c);
      } else {
        StartNewRun(prefix, c);
      }
    }
  }

  /** What one run becomes: its length in decimal, then its character. */
  function Say(run: Run): string {
    Decimal(run.n) + [run.c]
  }

  /** The concatenation of what the runs become, in order. */
  function Emit(runs: seq<Run>): string {
    if runs == [] then [] else Emit(runs[..|runs| - 1]) + Say(runs[|runs| - 1])
  }

  /** The look-and-say step of `s`. */
  function LookAndSay(s: string): string {
    Emit(Runs(s))
  }

  /** `Solution::analyse_step`: the loop over the characters that counts
      the current run and writes each finished one. */
  method Step(input: string) returns (output: string)
    ensures output == LookAndSay(input)
  {
    var lastChar: Option<char> := None;
    output := [];
    var count: nat := 0;
    ghost var done: seq<Run> := [];
    var i := 0;
    while i < |input|
      invariant 0 <= i <= |input|
      invariant lastChar.None? <==> i == 0
      invariant i == 0 ==> output == [] && done == []
      invariant i > 0 ==> Runs(input[..i]) == done + [Run(lastChar.value, count)] && output == Emit(done)
    {
      var c := input[i];
      assert input[..i + 1][..i] == input[..i] && input[..i + 1][i] == c;
      match lastChar {
        case None =>
          lastChar := Some(c);
          count := 1;
        case Some(lc) =>
          if c == lc {
            assert (done + [Run(lc, count)])[..|done|] == done;
            count := count + 1;
          } else {
            output := output + Say(Run(lc, count));
            assert (done + [Run(lc, count)])[..|done|] == done;
            done := done + [Run(lc, count)];
            lastChar := Some(c);
            count := 1;
          }
      }
      if lastChar.None? {
        assert false;
      }
      i := i + 1;
    }
    assert input[..i] == input;
    if lastChar.Some? {
      assert (done + [Run(lastChar.value, count)])[..|done|] == done;
      output := output + Say(Run(lastChar.value, count));
    }
  }

  /** The step of the empty string is empty. */
  lemma EmptyStep()
    ensures LookAndSay("") == ""
  {
  }

  /** When every run is shorter than 10, each run becomes two characters. */
  lemma {:induction false} EmitShortRuns(runs: seq<Run>)
    requires forall i :: 0 <= i < |runs| ==> runs[i].n < 10
    ensures |Emit(runs)| == 2 * |runs|
  {
    if runs != [] {
      var init := runs[..|runs| - 1];
      assert forall i :: 0 <= i < |init| ==> init[i] == runs[i];
      EmitShortRuns(init);
    }
  }

  /** The step doubles the number of runs when all of them are shorter than 10. */
  lemma StepLength(s: string)
    requires forall i :: 0 <= i < |Runs(s)| ==> Runs(s)[i].n < 10
    ensures |LookAndSay(s)| == 2 * |Runs(s)|
  {
    EmitShortRuns(Runs(s));
  }

  lemma KnownSteps()
    ensures LookAndSay("1") == "11"
    ensures LookAndSay("11") == "21"
    ensures LookAndSay("21") == "1211"
  {
    assert "11"[..1] == "1";
    assert "21"[..1] == "2";
  }

  /** The string after `n` steps from `s`. */
  function Iterate(s: string, n: nat): string {
    if n == 0 then s else LookAndSay(Iterate(s, n - 1))
  }

  /** The loop that applies the step `rounds` times and reports the byte
      length of the result. */
  method IteratedLength(input: string, rounds: nat) returns (length: nat)
    ensures length == Utf8Length(Iterate(input, rounds))
  {
    var current := input;
    var round := 0;
    while round < rounds
      invariant 0 <= round <= rounds
      invariant current == Iterate(input, round)
    {
      current := Step(current);
      round := round + 1;
    }
    length := Utf8Length(current);
  }

  class Solution {
    var input: string
    var answerPart1: Option<int>
    var answerPart2: Option<int>

    constructor ()
      ensures input == [] && answerPart1 == None && answerPart2 == None
    {
      input := [];
      answerPart1 := None;
      answerPart2 := None;
    }

    /** `Solution::set_input`. */
    method SetInput(s: string)
      modifies this
      ensures input == s && answerPart1 == old(answerPart1) && answerPart2 == old(answerPart2)
    {
      input := s;
    }

    /** `analyse_part1`: the length after 40 steps. */
    method AnalysePart1() returns (answer: Option<int>)
      ensures answer == Some(Utf8Length(Iterate(input, 40)))
    {
      var length := IteratedLength(input, 40);
      answer := Some(length);
    }

    /** `analyse_part2`: the length after 50 steps. */
    method AnalysePart2() returns (answer: Option<int>)
      ensures answer == Some(Utf8Length(Iterate(input, 50)))
    {
      var length := IteratedLength(input, 50);
      answer := Some(length);
    }

    /** `analyse`. */
    method Analyse()
      modifies this
      ensures input == old(input)
      ensures answerPart1 == Some(Utf8Length(Iterate(input, 40)))
      ensures answerPart2 == Some(Utf8Length(Iterate(input, 50)))
    {
      answerPart1 := AnalysePart1();
      answerPart2 := AnalysePart2();
    }
  }
}
