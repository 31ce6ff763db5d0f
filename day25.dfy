/** Day 25: the codes on the weather machine's manual are written along the
    anti-diagonals of an infinite grid, starting at row 1, column 1; each code
    is the previous one times 252533, modulo 33554393. */
module Day25 {
  import opened Common

  const FIRST_CODE: nat := 20151125
  const MULTIPLIER: nat := 252533
  const MODULUS: nat := 33554393
  const U64_LIMIT: nat := 0x1_0000_0000_0000_0000

  /** The code after `n` steps of the recurrence. */
  function CodeAt(n: nat): nat {
    if n == 0 then FIRST_CODE else CodeAt(n - 1) * MULTIPLIER % MODULUS
  }

  /** 0 + 1 + ... + k. */
  function Tri(k: nat): nat {
    if k == 0 then 0 else Tri(k - 1) + k
  }

  /** Number of steps the walk takes from (1, 1) to (r, c). */
  function Index(r: nat, c: nat): nat
    requires r >= 1 && c >= 1
  {
    Tri(r + c - 2) + c - 1
  }

  /** The cell after (r, c) in the walk: the top of a diagonal moves to the
      bottom of the next one, any other cell moves up and right. */
  function Next(r: nat, c: nat): (rc: (nat, nat))
    requires r >= 1 && c >= 1
    ensures rc.0 >= 1 && rc.1 >= 1
  {
    if r == 1 then (c + 1, 1) else (r - 1, c + 1)
  }

  lemma {:induction false} TriClosedForm(k: nat)
    ensures Tri(k) == k * (k + 1) / 2
  {
    if k > 0 {
      TriClosedForm(k - 1);
      assert (k - 1) * k + 2 * k == k * (k + 1);
    }
  }

  /** The position (r, c) is reached after (r+c-2)(r+c-1)/2 + c - 1 steps. */
  lemma IndexClosedForm(r: nat, c: nat)
    requires r >= 1 && c >= 1
    ensures Index(r, c) == (r + c - 2) * (r + c - 1) / 2 + c - 1
  {
    TriClosedForm(r + c - 2);
  }

  /** Each step of the walk advances the index by exactly one; r + c is
      constant along a diagonal and grows by one at each wrap. */
  lemma NextIndex(r: nat, c: nat)
    requires r >= 1 && c >= 1
    ensures Index(Next(r, c).0, Next(r, c).1) == Index(r, c) + 1
    ensures r == 1 ==> Next(r, c).0 + Next(r, c).1 == r + c + 1
    ensures r > 1 ==> Next(r, c).0 + Next(r, c).1 == r + c
  {
  }

  lemma {:induction false} TriMonotone(j: nat, k: nat)
    requires j <= k
    ensures Tri(j) <= Tri(k)
  {
    if j < k {
      TriMonotone(j, k - 1);
    }
  }

  /** Different cells have different indices, so the walk visits every cell
      exactly once. */
  lemma IndexInjective(r: nat, c: nat, r': nat, c': nat)
    requires r >= 1 && c >= 1 && r' >= 1 && c' >= 1
    requires Index(r, c) == Index(r', c')
    ensures r == r' && c == c'
  {
    if r + c < r' + c' {
      TriMonotone(r + c - 1, r' + c' - 2);
    } else if r' + c' < r + c {
      TriMonotone(r' + c' - 1, r + c - 2);
    }
  }

  /** Every code is below the modulus, so `code * 252533` fits in a `u64`. */
  lemma CodeBounded(n: nat)
    ensures CodeAt(n) < MODULUS
    ensures CodeAt(n) * MULTIPLIER < U64_LIMIT
  {
  }

  class Solution {
    const row: nat
    const column: nat
    var answerPart1: Option<nat>
    var answerPart2: Option<nat>

    constructor (row: nat, column: nat)
      ensures this.row == row && this.column == column
      ensures answerPart1 == None && answerPart2 == None
    {
      this.row := row;
      this.column := column;
      answerPart1 := None;
      answerPart2 := None;
    }

    /** `analyse_part1`: walks the diagonals from (1, 1) until it reaches
        (row, column). The walk never ends for row or column 0. */
    method AnalysePart1() returns (code: nat)
      requires row >= 1 && column >= 1
      ensures code == CodeAt(Index(row, column))
      ensures code < MODULUS
    {
      var r, c := 1, 1;
      code := FIRST_CODE;
      ghost var n := 0;
      while !(r == row && c == column)
        invariant r >= 1 && c >= 1
        invariant n == Index(r, c) <= Index(row, column)
        invariant code == CodeAt(n)
        decreases Index(row, column) - n
      {
        if n == Index(row, column) {
          IndexInjective(r, c, row, column);
        }
        CodeBounded(n);
        code := code * MULTIPLIER;
        code := code % MODULUS;
        NextIndex(r, c);
        if r == 1 {
          r := c + 1;
          c := 1;
        } else {
          r := r - 1;
          c := c + 1;
        }
        n := n + 1;
      }
      CodeBounded(n);
    }

    /** `analyse`: part 1 is the code at (row, column); part 2 is always
        `None`. */
    method Analyse()
      requires row >= 1 && column >= 1
      modifies this
      ensures answerPart1 == Some(CodeAt(Index(row, column)))
      ensures answerPart2 == None
    {
      var code := AnalysePart1();
      answerPart1 := Some(code);
      answerPart2 := None;
    }
  }

  lemma KnownCodes()
    ensures CodeAt(Index(1, 1)) == 20151125
    ensures CodeAt(Index(2, 1)) == 31916031
    ensures CodeAt(Index(1, 2)) == 18749137
  {
  }
}
