/** Day 23: a two-register machine with halve, triple, increment and three
    kinds of relative jump. */
module Day23 {
  import opened Common

  const U64_LIMIT: int := 0x1_0000_0000_0000_0000
  const I64_MIN: int := -0x8000_0000_0000_0000
  const I64_LIMIT: int := 0x8000_0000_0000_0000

  /** An operand: an offset or one of the two registers. */
  datatype Param = Value(delta: int) | A | B

  datatype Instruction =
    | Hlf(p: Param)
    | Tpl(p: Param)
    | Inc(p: Param)
    | Jmp(offset: Param)
    | Jie(r: Param, offset: Param)
    | Jio(r: Param, offset: Param)

  /** The registers and the instruction pointer. */
  datatype State = State(a: nat, b: nat, ip: nat)

  /** The register a parameter names. */
  function Get(st: State, p: Param): nat
    requires !p.Value?
  {
    if p.A? then st.a else st.b
  }

  /** `st` with register `p` set to `v`. */
  function Put(st: State, p: Param, v: nat): State
    requires !p.Value?
  {
    if p.A? then st.(a := v) else st.(b := v)
  }

  /** Where a taken jump from instruction `index` lands: `index + delta`,
      or the length of the program (which halts) when that is off either
      end. */
  function JumpTarget(index: nat, delta: int, len: nat): (ip: nat)
    ensures ip <= len || ip == index + delta
  {
    var target := index + delta;
    if target < 0 || target > len then len else target
  }

  /** A taken jump first adds `delta` to the already advanced pointer
      `index + 1` as an `i64`; a sum of 2^63 or more is an overflow panic.
      The sum cannot fall below the `i64` range, since `index + 1 >= 1` and
      `delta` is an `i64`. */
  predicate JumpOverflows(index: nat, delta: int) {
    index + 1 + delta >= I64_LIMIT
  }

  /** A taken jump from instruction `index`: the overflow panic, or the
      state with the pointer at the jump's target. */
  function TakeJump(st: State, delta: int, len: nat): (r: Option<State>)
    ensures r.None? <==> JumpOverflows(st.ip, delta)
    ensures r.Some? ==> r.value == st.(ip := JumpTarget(st.ip, delta, len))
  {
    if JumpOverflows(st.ip, delta) then None else Some(st.(ip := JumpTarget(st.ip, delta, len)))
  }

  /** The instruction pointer stays between 0 and the length. */
  lemma JumpTargetInRange(index: nat, delta: int, len: nat)
    ensures JumpTarget(index, delta, len) <= len
    ensures 0 <= index + delta <= len <==> JumpTarget(index, delta, len) == index + delta
  {
  }

  /** The combinations of instruction and operand kinds the machine knows;
      any other reaches `unreachable!`. */
  predicate WellFormed(i: Instruction) {
    match i
    case Hlf(p) => !p.Value?
    case Tpl(p) => !p.Value?
    case Inc(p) => !p.Value?
    case Jmp(o) => o.Value?
    case Jie(r, o) => !r.Value? && o.Value?
    case Jio(r, o) => !r.Value? && o.Value?
  }

  /** One iteration of the `while let` loop of `run_program`. `None` is a
      panic: an instruction the machine does not know, a `u64` overflow
      of `tpl` or `inc`, or an `i64` overflow of a taken jump. */
  function Step(program: seq<Instruction>, st: State): (r: Option<State>)
    requires st.ip < |program|
  {
    var i := program[st.ip];
    var next := st.ip + 1;
    if !WellFormed(i) then None
    else
      match i
      case Hlf(p) => Some(Put(st, p, Get(st, p) / 2).(ip := next))
      case Tpl(p) => if Get(st, p) * 3 < U64_LIMIT then Some(Put(st, p, Get(st, p) * 3).(ip := next)) else None
      case Inc(p) => if Get(st, p) + 1 < U64_LIMIT then Some(Put(st, p, Get(st, p) + 1).(ip := next)) else None
      case Jmp(o) => TakeJump(st, o.delta, |program|)
      case Jie(r, o) =>
        if Get(st, r) % 2 == 0 then TakeJump(st, o.delta, |program|) else Some(st.(ip := next))
      case Jio(r, o) =>
        if Get(st, r) == 1 then TakeJump(st, o.delta, |program|) else Some(st.(ip := next))
  }

  /** A step keeps the instruction pointer within `[0, len]`; non-jumps
      advance it by one and change only their own register; jumps change
      no register, and the conditional ones jump exactly when their test
      holds, and then without overflowing. */
  lemma StepSpec(program: seq<Instruction>, st: State)
    requires st.ip < |program| && Step(program, st).Some?
    ensures Step(program, st).value.ip <= |program|
    ensures var i := program[st.ip]; var r := Step(program, st).value;
      && (i.Hlf? || i.Tpl? || i.Inc? ==> r.ip == st.ip + 1 && (if i.p.A? then r.b == st.b else r.a == st.a))
      && (i.Hlf? ==> Get(r, i.p) == Get(st, i.p) / 2)
      && (i.Tpl? ==> Get(r, i.p) == Get(st, i.p) * 3)
      && (i.Inc? ==> Get(r, i.p) == Get(st, i.p) + 1)
      && (i.Jmp? || i.Jie? || i.Jio? ==> r.a == st.a && r.b == st.b)
      && (i.Jmp? ==> r.ip == JumpTarget(st.ip, i.offset.delta, |program|))
      && (i.Jie? ==> (r.ip == JumpTarget(st.ip, i.offset.delta, |program|) || Get(st, i.r) % 2 != 0)
                     && (Get(st, i.r) % 2 != 0 ==> r.ip == st.ip + 1))
      && (i.Jio? ==> (r.ip == JumpTarget(st.ip, i.offset.delta, |program|) || Get(st, i.r) != 1)
                     && (Get(st, i.r) != 1 ==> r.ip == st.ip + 1))
      && (i.Jmp? || (i.Jie? && Get(st, i.r) % 2 == 0) || (i.Jio? && Get(st, i.r) == 1) ==>
            !JumpOverflows(st.ip, i.offset.delta))
  {
    JumpTargetInRange(st.ip, if program[st.ip].Jmp? || program[st.ip].Jie? || program[st.ip].Jio? then program[st.ip].offset.delta else 0, |program|);
  }

  /** How a run from a state ends. */
  datatype Outcome = Halted(final: State) | Panicked | OutOfFuel

  /** At most `fuel` steps from `st`; the machine halts once the
      instruction pointer is past the last instruction. */
  function Exec(program: seq<Instruction>, st: State, fuel: nat): Outcome
    decreases fuel
  {
    if st.ip >= |program| then Halted(st)
    else if fuel == 0 then OutOfFuel
    else
      match Step(program, st)
      case None => Panicked
      case Some(next) => Exec(program, next, fuel - 1)
  }

  /** More fuel does not change a run that halted, so a halting run has
      one result. */
  lemma {:induction false} ExecMonotone(program: seq<Instruction>, st: State, fuel: nat, more: nat)
    requires Exec(program, st, fuel).Halted? && fuel <= more
    ensures Exec(program, st, more) == Exec(program, st, fuel)
    decreases fuel
  {
    if st.ip < |program| {
      ExecMonotone(program, Step(program, st).value, fuel - 1, more - 1);
    }
  }

  lemma ExecDeterministic(program: seq<Instruction>, st: State, f1: nat, f2: nat)
    requires Exec(program, st, f1).Halted? && Exec(program, st, f2).Halted?
    ensures Exec(program, st, f1) == Exec(program, st, f2)
  {
    if f1 <= f2 {
      ExecMonotone(program, st, f1, f2);
    } else {
      ExecMonotone(program, st, f2, f1);
    }
  }

  /** A run that starts inside `[0, len]` halts with the pointer exactly at
      the length. */
  lemma {:induction false} HaltsAtEnd(program: seq<Instruction>, st: State, fuel: nat)
    requires st.ip <= |program| && Exec(program, st, fuel).Halted?
    ensures Exec(program, st, fuel).final.ip == |program|
    decreases fuel
  {
    if st.ip < |program| {
      StepSpec(program, st);
      HaltsAtEnd(program, Step(program, st).value, fuel - 1);
    }
  }

  ghost predicate Halts(program: seq<Instruction>, st: State) {
    exists fuel: nat :: Exec(program, st, fuel).Halted?
  }

  /** `run_program`: the loop runs until the instruction pointer leaves the
      program. It must halt without a panic. */
  method RunProgram(program: seq<Instruction>, a: nat, b: nat, ip: nat) returns (ra: nat, rb: nat)
    requires Halts(program, State(a, b, ip))
    ensures exists fuel: nat :: Exec(program, State(a, b, ip), fuel) == Halted(State(ra, rb, Max(ip, |program|)))
  {
    ghost var fuel: nat :| Exec(program, State(a, b, ip), fuel).Halted?;
    ghost var left: nat := fuel;
    var st := State(a, b, ip);
    while st.ip < |program|
      invariant left <= fuel && st.ip <= Max(ip, |program|)
      invariant Exec(program, st, left) == Exec(program, State(a, b, ip), fuel)
      invariant st.ip > |program| ==> st == State(a, b, ip)
      decreases left
    {
      assert left > 0;
      StepSpec(program, st);
      var instruction := program[st.ip];
      var next := st.ip + 1;
      if !WellFormed(instruction) {
        assert false;
      }
      match instruction {
        case Hlf(p) => st := Put(st, p, Get(st, p) / 2).(ip := next);
        case Tpl(p) =>
          if Get(st, p) * 3 >= U64_LIMIT {
            assert false;
          }
          st := Put(st, p, Get(st, p) * 3).(ip := next);
        case Inc(p) =>
          if Get(st, p) + 1 >= U64_LIMIT {
            assert false;
          }
          st := Put(st, p, Get(st, p) + 1).(ip := next);
        case Jmp(o) =>
          if JumpOverflows(st.ip, o.delta) {
            assert false;
          }
          st := st.(ip := JumpTarget(st.ip, o.delta, |program|));
        case Jie(r, o) =>
          if Get(st, r) % 2 == 0 {
            if JumpOverflows(st.ip, o.delta) {
              assert false;
            }
            st := st.(ip := JumpTarget(st.ip, o.delta, |program|));
          } else {
            st := st.(ip := next);
          }
        case Jio(r, o) =>
          if Get(st, r) == 1 {
            if JumpOverflows(st.ip, o.delta) {
              assert false;
            }
            st := st.(ip := JumpTarget(st.ip, o.delta, |program|));
          } else {
            st := st.(ip := next);
          }
      }
      left := left - 1;
    }
    ra, rb := st.a, st.b;
  }

  predicate IsSeparator(c: char) {
    IsWhitespace(c) || c == ','
  }

  /** The words of `s` from `start` on, the current word having begun at
      `start` and reached `k`; a comma separates words like a space, as
      `replace(',', " ")` makes it do. */
  function WordsFrom(s: string, start: nat, k: nat): seq<string>
    requires start <= k <= |s|
    decreases |s| - k
  {
    var word := if start == k then [] else [s[start..k]];
    if k == |s| then word
    else if IsSeparator(s[k]) then word + WordsFrom(s, k + 1, k + 1)
    else WordsFrom(s, start, k + 1)
  }

  function Words(s: string): seq<string> {
    WordsFrom(s, 0, 0)
  }

  /** No word is empty and none holds a separator. */
  lemma {:induction false} WordsFromClean(s: string, start: nat, k: nat)
    requires start <= k <= |s| && forall j :: start <= j < k ==> !IsSeparator(s[j])
    ensures forall w :: w in WordsFrom(s, start, k) ==> w != [] && forall j :: 0 <= j < |w| ==> !IsSeparator(w[j])
    decreases |s| - k
  {
    if k < |s| {
      if IsSeparator(s[k]) {
        WordsFromClean(s, k + 1, k + 1);
      } else {
        WordsFromClean(s, start, k + 1);
      }
    }
  }

  lemma WordsClean(s: string)
    ensures forall w :: w in Words(s) ==> w != [] && forall j :: 0 <= j < |w| ==> !IsSeparator(w[j])
  {
    WordsFromClean(s, 0, 0);
  }

  /** `i64::from_str`: an optional sign, then one or more digits, in the
      range of `i64`; the `unwrap` panics otherwise, which is `None`. */
  function ParseI64(s: string): (r: Option<int>)
    ensures r.Some? ==> I64_MIN <= r.value < I64_LIMIT
  {
    var sign := if s != [] && (s[0] == '+' || s[0] == '-') then 1 else 0;
    var digits := s[sign..];
    if digits == [] || exists i :: 0 <= i < |digits| && !IsDigit(digits[i]) then None
    else
      var magnitude := DecimalValue(digits);
      var v: int := if sign == 1 && s[0] == '-' then -(magnitude as int) else magnitude;
      if I64_MIN <= v < I64_LIMIT then Some(v) else None
  }

  /** Parsing back a number's own digits, with or without a sign. */
  lemma ParseI64Decimal(n: nat)
    requires n < I64_LIMIT
    ensures ParseI64(Decimal(n)) == Some(n)
    ensures ParseI64("+" + Decimal(n)) == Some(n)
    ensures ParseI64("-" + Decimal(n)) == Some(-(n as int))
  {
    DecimalRoundTrip(n);
    ParseSigned('+', n);
    ParseSigned('-', n);
  }

  lemma ParseSigned(sign: char, n: nat)
    requires sign == '+' || sign == '-'
    requires n < I64_LIMIT
    ensures ParseI64([sign] + Decimal(n)) == Some(if sign == '-' then -(n as int) else n)
  {
    DecimalRoundTrip(n);
    var s := [sign] + Decimal(n);
    assert s[0] == sign && s[1..] == Decimal(n);
  }

  /** `Param::from_str`: the register names, else an offset. */
  function ParseParam(s: string): Option<Param> {
    if s == "a" then Some(A)
    else if s == "b" then Some(B)
    else
      match ParseI64(s)
      case None => None
      case Some(v) => Some(Value(v))
  }

  /** Parses every word, failing if one fails. */
  function ParseParams(words: seq<string>): (r: Option<seq<Param>>)
    ensures r.Some? ==> |r.value| == |words|
  {
    if words == [] then Some([])
    else
      match (ParseParam(words[0]), ParseParams(words[1..]))
      case (Some(p), Some(ps)) => Some([p] + ps)
      case _ => None
  }

  /** `Instruction::from_str`: the first word is the operation, the others
      its operands. A missing operand, an operand that is not a number or
      register, or an unknown operation panics, which is `None`. */
  function ParseInstruction(line: string): Option<Instruction> {
    var words := Words(line);
    var op := if words == [] then "" else words[0];
    match ParseParams(if words == [] then [] else words[1..])
    case None => None
    case Some(ps) =>
      if op == "hlf" && |ps| >= 1 then Some(Hlf(ps[0]))
      else if op == "tpl" && |ps| >= 1 then Some(Tpl(ps[0]))
      else if op == "inc" && |ps| >= 1 then Some(Inc(ps[0]))
      else if op == "jmp" && |ps| >= 1 then Some(Jmp(ps[0]))
      else if op == "jie" && |ps| >= 2 then Some(Jie(ps[0], ps[1]))
      else if op == "jio" && |ps| >= 2 then Some(Jio(ps[0], ps[1]))
      else None
  }

  lemma KnownWordsShort()
    ensures Words("inc a") == ["inc", "a"]
  {
    var s := "inc a";
    assert s[4..5] == "a" && s[0..3] == "inc";
    assert WordsFrom(s, 4, 4) == ["a"];
  }

  lemma KnownWordsComma()
    ensures Words("jio a, +19") == ["jio", "a", "+19"]
  {
    var t := "jio a, +19";
    assert t[7..10] == "+19" && t[4..5] == "a" && t[0..3] == "jio";
    assert WordsFrom(t, 7, 7) == ["+19"];
    assert WordsFrom(t, 6, 6) == ["+19"];
    assert WordsFrom(t, 4, 5) == ["a", "+19"];
  }

  lemma KnownOffset()
    ensures ParseParam("+19") == Some(Value(19))
    ensures ParseParam("a") == Some(A)
  {
    assert Decimal(19) == "19";
    ParseI64Decimal(19);
    assert "+" + Decimal(19) == "+19";
  }

  lemma KnownParams()
    ensures ParseParams(["a", "+19"]) == Some([A, Value(19)])
  {
    KnownOffset();
    assert ["a", "+19"][1..] == ["+19"];
    assert ParseParams(["+19"]) == Some([Value(19)]) by {
      assert ["+19"][1..] == [] && ["+19"][0] == "+19";
      assert [Value(19)] + [] == [Value(19)];
    }
    assert [A] + [Value(19)] == [A, Value(19)];
  }

  /** Commas and spaces both separate the operands. */
  lemma KnownInstructions()
    ensures ParseInstruction("inc a") == Some(Inc(A))
    ensures ParseInstruction("jio a, +19") == Some(Jio(A, Value(19)))
  {
    KnownWordsShort();
    KnownWordsComma();
    KnownParams();
    assert ["jio", "a", "+19"][1..] == ["a", "+19"];
    assert ["inc", "a"][1..] == ["a"];
  }

  /** The example program of the puzzle leaves 2 in register a. */
  lemma KnownRun()
    ensures Exec([Inc(A), Jio(A, Value(2)), Tpl(A), Inc(A)], State(0, 0, 0), 4) == Halted(State(2, 0, 4))
  {
  }

  /** A jump by the largest `i64` offset overflows the pointer sum and
      panics, while a jump one less lands past the end and halts. */
  lemma KnownJumpOverflow()
    ensures Exec([Jmp(Value(I64_LIMIT - 1))], State(0, 0, 0), 1) == Panicked
    ensures Exec([Jmp(Value(I64_LIMIT - 2))], State(0, 0, 0), 1) == Halted(State(0, 0, 1))
  {
  }

  /** `answer` is register b at the end of a run of `program` from
      a = `a`, b = 0 and the first instruction. */
  ghost predicate ReportsB(program: seq<Instruction>, a: nat, answer: Option<nat>) {
    exists fuel: nat, ra: nat :: answer.Some? && Exec(program, State(a, 0, 0), fuel) == Halted(State(ra, answer.value, |program|))
  }

  class Solution {
    var instructions: seq<Instruction>
    var answerPart1: Option<nat>
    var answerPart2: Option<nat>

    constructor ()
      ensures instructions == [] && answerPart1 == None && answerPart2 == None
    {
      instructions := [];
      answerPart1 := None;
      answerPart2 := None;
    }

    /** `Solution::add_instruction`. */
    method AddInstruction(i: Instruction)
      modifies this
      ensures instructions == old(instructions) + [i]
      ensures answerPart1 == old(answerPart1) && answerPart2 == old(answerPart2)
    {
      instructions := instructions + [i];
    }

    /** `analyse_part1`: register b after a run from a = 0. */
    method AnalysePart1() returns (answer: Option<nat>)
      requires Halts(instructions, State(0, 0, 0))
      ensures ReportsB(instructions, 0, answer)
    {
      var a, b := RunProgram(instructions, 0, 0, 0);
      answer := Some(b);
    }

    /** `analyse_part2`: register b after a run from a = 1. */
    method AnalysePart2() returns (answer: Option<nat>)
      requires Halts(instructions, State(1, 0, 0))
      ensures ReportsB(instructions, 1, answer)
    {
      var a, b := RunProgram(instructions, 1, 0, 0);
      answer := Some(b);
    }

    method Analyse()
      requires Halts(instructions, State(0, 0, 0)) && Halts(instructions, State(1, 0, 0))
      modifies this
      ensures instructions == old(instructions)
      ensures ReportsB(instructions, 0, answerPart1) && ReportsB(instructions, 1, answerPart2)
    {
      var first := AnalysePart1();
      var second := AnalysePart2();
      answerPart1, answerPart2 := first, second;
    }
  }
}
