/** Day 1, part 2: the 1-based position of the first instruction that takes
    Santa to floor -1. */
module D1p2 {
  import opened Common
  import opened D1p1

  /** The first `n` characters are parentheses. */
  predicate ParensUpTo(s: string, n: nat) {
    n <= |s| && forall i :: 0 <= i < n ==> s[i] == '(' || s[i] == ')'
  }

  /** Floor after the first `q` instructions. */
  function PrefixFloor(s: string, q: nat): int
    requires ParensUpTo(s, q)
  {
    assert IsParens(s[..q]);
    Answer(s[..q])
  }

  /** `p` is the first position whose prefix floor is -1. */
  ghost predicate IsFirstBasement(s: string, p: nat) {
    1 <= p <= |s| && ParensUpTo(s, p) && PrefixFloor(s, p) == -1
    && forall q :: 0 <= q < p ==> PrefixFloor(s, q) >= 0
  }

  /** The walk reads only parentheses: a character that is not one comes only
      after some prefix of parentheses has already reached floor -1, where the
      walk returns before reading it. */
  ghost predicate ReadsOnlyParens(s: string) {
    forall i :: 0 <= i < |s| && s[i] != '(' && s[i] != ')' ==>
      exists q :: 1 <= q <= i && ParensUpTo(s, q) && PrefixFloor(s, q) == -1
  }

  lemma PrefixStep(s: string, q: nat)
    requires q < |s| && ParensUpTo(s, q + 1)
    ensures PrefixFloor(s, q + 1) == PrefixFloor(s, q) + Delta(s[q])
  {
    assert s[..q + 1] == s[..q] + [s[q]];
    AnswerAppend(s[..q], [s[q]]);
  }

  class Solution {
    const instructions: string
    var answer: Option<int>

    constructor (input: string)
      ensures instructions == input && answer == None
    {
      instructions := input;
      answer := None;
    }

    /** `Solution::analyse`: walks the instructions until the floor is -1. */
    method Analyse()
      requires ReadsOnlyParens(instructions)
      modifies this
      ensures answer.Some? ==> answer.value >= 1 && IsFirstBasement(instructions, answer.value)
      ensures answer.None? ==> IsParens(instructions)
      ensures answer.None? ==> forall q :: 0 <= q <= |instructions| ==> PrefixFloor(instructions, q) >= 0
    {
      var floor := 0;
      var pos := 0;
      while pos < |instructions|
        invariant 0 <= pos <= |instructions|
        invariant ParensUpTo(instructions, pos)
        invariant floor == PrefixFloor(instructions, pos)
        invariant forall q :: 0 <= q <= pos ==> PrefixFloor(instructions, q) >= 0
      {
        if instructions[pos] != '(' && instructions[pos] != ')' {
          // The requires puts a basement before `pos`, but every earlier floor is at least 0.
          assert false;
        }
        PrefixStep(instructions, pos);
        floor := floor + Delta(instructions[pos]);
        if floor == -1 {
          answer := Some(1 + pos);
          return;
        }
        pos := pos + 1;
      }
      answer := None;
    }
  }

  /** The first basement position is unique. */
  lemma FirstBasementUnique(s: string, p: nat, p': nat)
    requires IsFirstBasement(s, p) && IsFirstBasement(s, p')
    ensures p == p'
  {
  }

  /** Reaching floor -1 takes an odd number of instructions. */
  lemma FirstBasementOdd(s: string, p: nat)
    requires IsFirstBasement(s, p)
    ensures p % 2 == 1
  {
    assert IsParens(s[..p]);
    AnswerParity(s[..p]);
  }

  lemma KnownResults()
    ensures IsFirstBasement(")", 1)
    ensures IsFirstBasement("()())", 5)
  {
    var s := "()())";
    assert s[..0] == [] && s[..1] == "(" && s[..2] == "()" && s[..3] == "()(";
    assert s[..4] == "()()" && s[..5] == s;
    assert PrefixFloor(s, 5) == -1;
    assert forall q :: 0 <= q < 5 ==> PrefixFloor(s, q) >= 0;
    assert ")"[..1] == ")" && ")"[..0] == [];
  }

  /** The line read from the input file keeps its newline; the walk stops
      before reaching it. */
  lemma KnownResultNewline()
    ensures ReadsOnlyParens(")\n")
    ensures IsFirstBasement(")\n", 1)
  {
    var s := ")\n";
    assert s[..1] == ")" && s[..0] == [];
    assert ParensUpTo(s, 1) && PrefixFloor(s, 1) == -1;
  }
}
