/** Day 6: a grid of lights switched by rectangle instructions. Part 1
    lights are on or off; part 2 lights have a brightness. */
module Day6 {
  import opened Common

  datatype Mode = On | Off | Toggle

  /** `turn on`, `turn off` or `toggle` the inclusive rectangle from
      (sx, sy) to (ex, ey). */
  datatype Instruction = Instruction(mode: Mode, sx: nat, sy: nat, ex: nat, ey: nat)

  type Cell = (int, int)

  /** Which of the two puzzles interprets the instructions. */
  datatype Part = Part1 | Part2

  /** `Mode::from_str`; any other text is `unreachable!`, which is `None`. */
  function ParseMode(s: string): (m: Option<Mode>)
    ensures m == Some(On) <==> s == "turn on"
    ensures m == Some(Off) <==> s == "turn off"
    ensures m == Some(Toggle) <==> s == "toggle"
    ensures m.None? <==> s != "turn on" && s != "turn off" && s != "toggle"
  {
    if s == "turn on" then Some(On)
    else if s == "toggle" then Some(Toggle)
    else if s == "turn off" then Some(Off)
    else None
  }

  /** `v ^ 1` on a two's complement integer: the lowest bit flips. */
  function Xor1(v: int): (r: int)
    ensures v == 0 <==> r == 1
    ensures v == 1 <==> r == 0
  {
    if v % 2 == 0 then v + 1 else v - 1
  }

  /** The new value of a light that held `v` (0 when it was never set). */
  function NewValue(part: Part, mode: Mode, v: int): int {
    match (part, mode)
    case (Part1, On) => 1
    case (Part1, Off) => 0
    case (Part1, Toggle) => Xor1(v)
    case (Part2, On) => v + 1
    case (Part2, Off) => if v > 0 then v - 1 else v
    case (Part2, Toggle) => v + 2
  }

  /** The rules of the two parts: part 1 switches between 0 and 1, part 2
      adds 1, subtracts 1 down to 0, or adds 2. */
  lemma NewValueRules(mode: Mode, v: int)
    ensures 0 <= v <= 1 ==> 0 <= NewValue(Part1, mode, v) <= 1
    ensures mode == Toggle && 0 <= v <= 1 ==> NewValue(Part1, mode, v) == 1 - v
    ensures v >= 0 ==> NewValue(Part2, mode, v) >= 0
    ensures mode == Off && v >= 0 ==> NewValue(Part2, mode, v) == Max(0, v - 1)
    ensures mode != Off ==> NewValue(Part2, mode, v) > v
  {
  }

  predicate InRect(i: Instruction, c: Cell) {
    i.sx <= c.0 <= i.ex && i.sy <= c.1 <= i.ey
  }

  function Rect(i: Instruction): (r: set<Cell>)
    ensures forall c :: c in r <==> InRect(i, c)
  {
    set x, y | i.sx <= x <= i.ex && i.sy <= y <= i.ey :: (x, y)
  }

  function Get(lights: map<Cell, int>, c: Cell): int {
    if c in lights then lights[c] else 0
  }

  /** The lights after one instruction: every cell of the rectangle is
      stored with its new value; every other cell keeps its entry. */
  function Apply(lights: map<Cell, int>, i: Instruction, part: Part): (r: map<Cell, int>)
    ensures r.Keys == lights.Keys + Rect(i)
  {
    map c | c in lights.Keys + Rect(i) :: if InRect(i, c) then NewValue(part, i.mode, Get(lights, c)) else lights[c]
  }

  /** A rectangle with its start after its end touches nothing. */
  lemma EmptyRect(lights: map<Cell, int>, i: Instruction, part: Part)
    requires i.sx > i.ex || i.sy > i.ey
    ensures Apply(lights, i, part) == lights
  {
    assert Rect(i) == {};
  }

  /** The lights after all the instructions, from an empty map. */
  function RunAll(instructions: seq<Instruction>, part: Part): map<Cell, int> {
    if instructions == [] then map[]
    else Apply(RunAll(instructions[..|instructions| - 1], part), instructions[|instructions| - 1], part)
  }

  /** The cells some instruction covers. */
  function Touched(instructions: seq<Instruction>): set<Cell> {
    if instructions == [] then {}
    else Touched(instructions[..|instructions| - 1]) + Rect(instructions[|instructions| - 1])
  }

  /** A light is stored exactly when some instruction covered it; part 1
      keeps every light in {0, 1} and part 2 keeps every one non-negative. */
  lemma {:induction false} RunAllInvariant(instructions: seq<Instruction>)
    ensures RunAll(instructions, Part1).Keys == Touched(instructions)
    ensures RunAll(instructions, Part2).Keys == Touched(instructions)
    ensures forall c :: c in RunAll(instructions, Part1) ==> 0 <= RunAll(instructions, Part1)[c] <= 1
    ensures forall c :: c in RunAll(instructions, Part2) ==> RunAll(instructions, Part2)[c] >= 0
  {
    if instructions != [] {
      var init := instructions[..|instructions| - 1];
      var i := instructions[|instructions| - 1];
      RunAllInvariant(init);
      forall c | c in RunAll(instructions, Part1) ensures 0 <= RunAll(instructions, Part1)[c] <= 1 {
        NewValueRules(i.mode, Get(RunAll(init, Part1), c));
      }
      forall c | c in RunAll(instructions, Part2) ensures RunAll(instructions, Part2)[c] >= 0 {
        NewValueRules(i.mode, Get(RunAll(init, Part2), c));
      }
    }
  }

  /** The sum of the values of `keys`, in no particular order. */
  ghost function SumOver(m: map<Cell, int>, keys: set<Cell>): int
    requires keys <= m.Keys
    decreases |keys|
  {
    if keys == {} then 0 else var k :| k in keys; m[k] + SumOver(m, keys - {k})
  }

  /** The sum does not depend on which key is taken first. */
  lemma SumRemove(m: map<Cell, int>, keys: set<Cell>, k: Cell)
    requires k in keys && keys <= m.Keys
    ensures SumOver(m, keys) == m[k] + SumOver(m, keys - {k})
    decreases |keys|
  {
    var j :| j in keys && SumOver(m, keys) == m[j] + SumOver(m, keys - {j});
    if j != k {
      SumRemove(m, keys - {j}, k);
      SumRemove(m, keys - {k}, j);
      assert keys - {j} - {k} == keys - {k} - {j};
    }
  }

  /** Values in {0, 1} sum to at most the number of keys; non-negative
      values sum to a non-negative total. */
  lemma {:induction false} SumBounds(m: map<Cell, int>, keys: set<Cell>)
    requires keys <= m.Keys
    ensures (forall c :: c in keys ==> 0 <= m[c] <= 1) ==> 0 <= SumOver(m, keys) <= |keys|
    ensures (forall c :: c in keys ==> m[c] >= 0) ==> SumOver(m, keys) >= 0
    decreases |keys|
  {
    if keys != {} {
      var k :| k in keys;
      SumRemove(m, keys, k);
      SumBounds(m, keys - {k});
    }
  }

  ghost function Total(m: map<Cell, int>): int {
    SumOver(m, m.Keys)
  }

  /** Part 1 counts at most one per light any instruction covered; part 2
      is never negative. */
  lemma AnswerBounds(instructions: seq<Instruction>)
    ensures 0 <= Total(RunAll(instructions, Part1)) <= |Touched(instructions)|
    ensures Total(RunAll(instructions, Part2)) >= 0
  {
    RunAllInvariant(instructions);
    SumBounds(RunAll(instructions, Part1), Touched(instructions));
    SumBounds(RunAll(instructions, Part2), Touched(instructions));
  }

  /** The cells of the rectangle before (x, y) in the loop's order. */
  predicate Done(i: Instruction, c: Cell, x: int, y: int) {
    InRect(i, c) && (c.0 < x || (c.0 == x && c.1 < y))
  }

  /** `lights` is `before` with the cells before (x, y) updated. */
  ghost predicate Partial(before: map<Cell, int>, lights: map<Cell, int>, i: Instruction, part: Part, x: int, y: int) {
    && (forall c :: c in lights <==> c in before || Done(i, c, x, y))
    && (forall c :: c in lights ==> lights[c] == if Done(i, c, x, y) then NewValue(part, i.mode, Get(before, c)) else before[c])
  }

  /** The two nested `for` loops over the rectangle of one instruction. */
  method ApplyInstruction(lights: map<Cell, int>, i: Instruction, part: Part) returns (result: map<Cell, int>)
    ensures result == Apply(lights, i, part)
  {
    result := lights;
    var x := i.sx;
    while x <= i.ex
      invariant i.sx <= x <= Max(i.sx, i.ex + 1)
      invariant Partial(lights, result, i, part, x, i.sy)
    {
      var y := i.sy;
      while y <= i.ey
        invariant i.sy <= y <= Max(i.sy, i.ey + 1)
        invariant Partial(lights, result, i, part, x, y)
      {
        var current := if (x, y) in result then result[(x, y)] else 0;
        assert current == Get(lights, (x, y));
        result := result[(x, y) := NewValue(part, i.mode, current)];
        y := y + 1;
      }
      x := x + 1;
    }
    assert forall c :: Done(i, c, x, i.sy) <==> InRect(i, c);
  }

  /** `for (_, v) in lights { total += v }`: the visiting order does not
      matter. */
  method Sum(lights: map<Cell, int>) returns (total: int)
    ensures total == Total(lights)
  {
    var keys := lights.Keys;
    total := 0;
    while keys != {}
      invariant keys <= lights.Keys
      invariant total + SumOver(lights, keys) == Total(lights)
      decreases |keys|
    {
      var k :| k in keys;
      SumRemove(lights, keys, k);
      total := total + lights[k];
      keys := keys - {k};
    }
  }

  class Solution {
    var instructions: seq<Instruction>
    var answerPart1: Option<int>
    var answerPart2: Option<int>

    constructor ()
      ensures instructions == [] && answerPart1 == None && answerPart2 == None
    {
      instructions := [];
      answerPart1 := None;
      answerPart2 := None;
    }

    /** `Solution::add_instruction`. */
    method AddInstruction(i: Instruction)
      modifies this
      ensures instructions == old(instructions) + [i]
      ensures answerPart1 == old(answerPart1) && answerPart2 == old(answerPart2)
    {
      instructions := instructions + [i];
    }

    /** The lights after every instruction in order, and their sum: the
        body of `analyse_part1` and of `analyse_part2`. */
    method Analyse(part: Part) returns (answer: Option<int>)
      ensures answer == Some(Total(RunAll(instructions, part)))
    {
      var lights: map<Cell, int> := map[];
      var k := 0;
      while k < |instructions|
        invariant 0 <= k <= |instructions|
        invariant lights == RunAll(instructions[..k], part)
      {
        assert instructions[..k + 1][..k] == instructions[..k];
        lights := ApplyInstruction(lights, instructions[k], part);
        k := k + 1;
      }
      assert instructions[..k] == instructions;
      var total := Sum(lights);
      answer := Some(total);
    }

    method AnalyseBoth()
      modifies this
      ensures instructions == old(instructions)
      ensures answerPart1 == Some(Total(RunAll(instructions, Part1)))
      ensures answerPart2 == Some(Total(RunAll(instructions, Part2)))
    {
      var first := Analyse(Part1);
      var second := Analyse(Part2);
      answerPart1, answerPart2 := first, second;
    }
  }
}
