/** Day 1, part 1: the floor Santa ends on, where '(' goes up one floor and
    ')' goes down one. */
module D1p1 {
  import opened Common

  /** The instructions may hold only parentheses; any other character is
      unreachable in the source. */
  predicate IsParens(s: string) {
    forall i :: 0 <= i < |s| ==> s[i] == '(' || s[i] == ')'
  }

  function Delta(c: char): int
    requires c == '(' || c == ')'
  {
    if c == '(' then 1 else -1
  }

  /** `Solution::answer`: the sum of the per-character deltas. */
  function Answer(s: string): int
    requires IsParens(s)
  {
    if s == [] then 0 else Delta(s[0]) + Answer(s[1..])
  }

  /** The floor is the number of '(' minus the number of ')'. */
  lemma {:induction false} AnswerCounts(s: string)
    requires IsParens(s)
    ensures Answer(s) == Count(s, '(') - Count(s, ')')
    ensures -|s| <= Answer(s) <= |s|
  {
    if s != [] {
      AnswerCounts(s[1..]);
    }
  }

  /** The floor reached is additive over concatenated instructions. */
  lemma {:induction false} AnswerAppend(s: string, t: string)
    requires IsParens(s) && IsParens(t)
    ensures IsParens(s + t)
    ensures Answer(s + t) == Answer(s) + Answer(t)
  {
    if s == [] {
      assert s + t == t;
    } else {
      assert (s + t)[1..] == s[1..] + t;
      AnswerAppend(s[1..], t);
    }
  }

  /** The floor and the length have the same parity. */
  lemma {:induction false} AnswerParity(s: string)
    requires IsParens(s)
    ensures (Answer(s) - |s|) % 2 == 0
  {
    if s != [] {
      AnswerParity(s[1..]);
    }
  }

  lemma KnownResultsGround()
    ensures Answer("(())") == 0 && Answer("()()") == 0
  {
  }

  lemma KnownResultsUp()
    ensures Answer("(((") == 3 && Answer("(()(()(") == 3
    ensures Answer("))(((((") == 3
  {
  }

  lemma KnownResultsDown()
    ensures Answer("())") == -1 && Answer("))(") == -1
    ensures Answer(")))") == -3 && Answer(")())())") == -3
  {
  }
}
