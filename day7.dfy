/** Day 7: a circuit of 16-bit wires and gates, evaluated by repeated
    passes over the instruction list until wire `a` carries a signal. */
module Day7 {
  import opened Common

  type U16 = bv16

  /** A gate input: a constant or the name of a wire. */
  datatype Signal = Value(v: U16) | Wire(name: string)

  /** One instruction; the first field is the target wire. */
  datatype Instruction =
    | Set(target: string, s: Signal)
    | Not(target: string, s: Signal)
    | And(target: string, s1: Signal, s2: Signal)
    | Or(target: string, s1: Signal, s2: Signal)
    | LShift(target: string, s1: Signal, s2: Signal)
    | RShift(target: string, s1: Signal, s2: Signal)

  /** The wires seen so far; `None` is a wire whose inputs are not known
      yet. */
  type Wires = map<string, Option<U16>>

  /** `Signal::value`: a missing wire reads as `None`. */
  function SignalValue(s: Signal, wires: Wires): Option<U16> {
    match s
    case Value(v) => Some(v)
    case Wire(name) => if name in wires then wires[name] else None
  }

  lemma SignalValueCases(s: Signal, wires: Wires)
    ensures s.Value? ==> SignalValue(s, wires) == Some(s.v)
    ensures s.Wire? && s.name !in wires ==> SignalValue(s, wires) == None
    ensures s.Wire? && s.name in wires ==> SignalValue(s, wires) == wires[s.name]
  {
  }

  /** The outcome of one gate: a value (possibly still unknown), or the
      panic of a `u16` shift by 16 or more. */
  datatype Gate = ShiftOverflow | Computed(value: Option<U16>)

  /** Combines two inputs that are both known, as the `and_then`/`map`
      chain does. */
  function Both(a: Option<U16>, b: Option<U16>, op: (U16, U16) -> U16): Option<U16> {
    if a.Some? && b.Some? then Some(op(a.value, b.value)) else None
  }

  function Evaluate(i: Instruction, wires: Wires): Gate {
    match i
    case Set(_, s) => Computed(SignalValue(s, wires))
    case Not(_, s) =>
      var v := SignalValue(s, wires);
      Computed(if v.Some? then Some(!v.value) else None)
    case And(_, s1, s2) => Computed(Both(SignalValue(s1, wires), SignalValue(s2, wires), (x: U16, y: U16) => x & y))
    case Or(_, s1, s2) => Computed(Both(SignalValue(s1, wires), SignalValue(s2, wires), (x: U16, y: U16) => x | y))
    case LShift(_, s1, s2) =>
      var v1, v2 := SignalValue(s1, wires), SignalValue(s2, wires);
      if v1.Some? && v2.Some? then
        if v2.value < 16 then Computed(Some(v1.value << v2.value)) else ShiftOverflow
      else Computed(None)
    case RShift(_, s1, s2) =>
      var v1, v2 := SignalValue(s1, wires), SignalValue(s2, wires);
      if v1.Some? && v2.Some? then
        if v2.value < 16 then Computed(Some(v1.value >> v2.value)) else ShiftOverflow
      else Computed(None)
  }

  /** A gate with two inputs has a value exactly when both inputs have
      one; NOT, AND and OR never panic. */
  lemma GateNeedsInputs(i: Instruction, wires: Wires)
    ensures !i.Set? && !i.Not? ==>
      (Evaluate(i, wires).Computed? && Evaluate(i, wires).value.Some? <==>
       SignalValue(i.s1, wires).Some? && SignalValue(i.s2, wires).Some? && (i.LShift? || i.RShift? ==> SignalValue(i.s2, wires).value < 16))
    ensures i.Not? ==> (Evaluate(i, wires).Computed? && (Evaluate(i, wires).value.Some? <==> SignalValue(i.s, wires).Some?))
    ensures i.And? || i.Or? || i.Set? || i.Not? ==> Evaluate(i, wires).Computed?
  {
  }

  /** The complement is 65535 minus the value, and shares no bit with
      it. */
  lemma NotIsComplement(v: U16)
    ensures !v == 0xFFFF - v && v & !v == 0 && v | !v == 0xFFFF
  {
  }

  lemma U16RoundTrip(v: U16)
    ensures 0 <= v as int < 0x1_0000 && (v as int) as U16 == v
  {
  }

  /** The gates of the puzzle's example circuit, with x = 123 and
      y = 456. */
  lemma KnownGates(wires: Wires)
    requires wires == map["x" := Some(123), "y" := Some(456)]
    ensures Evaluate(And("d", Wire("x"), Wire("y")), wires) == Computed(Some(72))
    ensures Evaluate(Or("e", Wire("x"), Wire("y")), wires) == Computed(Some(507))
    ensures Evaluate(LShift("f", Wire("x"), Value(2)), wires) == Computed(Some(492))
    ensures Evaluate(RShift("g", Wire("y"), Value(2)), wires) == Computed(Some(114))
    ensures Evaluate(Not("h", Wire("x")), wires) == Computed(Some(65412))
    ensures Evaluate(And("z", Wire("x"), Wire("w")), wires) == Computed(None)
  {
  }

  /** `Instruction::get_target`. */
  function GetTarget(i: Instruction): (t: string)
    ensures t == i.target
  {
    match i
    case Set(t, _) => t
    case Not(t, _) => t
    case And(t, _, _) => t
    case Or(t, _, _) => t
    case LShift(t, _, _) => t
    case RShift(t, _, _) => t
  }

  /** `Instruction::update_wire`: inserts the gate's value for its target
      wire, or panics on an oversized shift. */
  function UpdateWire(i: Instruction, wires: Wires): (r: Option<Wires>)
    ensures r.None? <==> Evaluate(i, wires).ShiftOverflow?
    ensures r.Some? ==> r.value.Keys == wires.Keys + {GetTarget(i)} && r.value[GetTarget(i)] == Evaluate(i, wires).value
    ensures r.Some? ==> forall w :: w in wires && w != GetTarget(i) ==> r.value[w] == wires[w]
  {
    match Evaluate(i, wires)
    case ShiftOverflow => None
    case Computed(v) => Some(wires[GetTarget(i) := v])
  }

  /** One pass over `instructions`, skipping those whose target is `skip`;
      `None` if a shift panics. */
  function Pass(instructions: seq<Instruction>, wires: Wires, skip: Option<string>): Option<Wires> {
    if instructions == [] then Some(wires)
    else Follow(Pass(instructions[..|instructions| - 1], wires, skip), instructions[|instructions| - 1], skip)
  }

  /** One instruction of a pass: a panic stays a panic, a skipped target
      changes nothing, any other instruction updates its wire. */
  function Follow(wires: Option<Wires>, i: Instruction, skip: Option<string>): Option<Wires> {
    match wires
    case None => None
    case Some(w) => if skip == Some(GetTarget(i)) then Some(w) else UpdateWire(i, w)
  }

  lemma PassSnoc(instructions: seq<Instruction>, wires: Wires, skip: Option<string>, k: nat)
    requires k < |instructions|
    ensures Pass(instructions[..k + 1], wires, skip) == Follow(Pass(instructions[..k], wires, skip), instructions[k], skip)
  {
    assert instructions[..k + 1][..k] == instructions[..k];
  }

  /** A skipped wire keeps its value through a pass. */
  lemma {:induction false} PassKeepsSkipped(instructions: seq<Instruction>, wires: Wires, skipped: string)
    requires skipped in wires && Pass(instructions, wires, Some(skipped)).Some?
    ensures skipped in Pass(instructions, wires, Some(skipped)).value
    ensures Pass(instructions, wires, Some(skipped)).value[skipped] == wires[skipped]
  {
    if instructions != [] {
      PassKeepsSkipped(instructions[..|instructions| - 1], wires, skipped);
    }
  }

  /** Wires only ever get added: a pass keeps every wire it was given. */
  lemma {:induction false} PassKeepsWires(instructions: seq<Instruction>, wires: Wires, skip: Option<string>)
    requires Pass(instructions, wires, skip).Some?
    ensures wires.Keys <= Pass(instructions, wires, skip).value.Keys
  {
    if instructions != [] {
      PassKeepsWires(instructions[..|instructions| - 1], wires, skip);
    }
  }

  /** The `for` loop of one pass. */
  method RunPass(instructions: seq<Instruction>, wires: Wires, skip: Option<string>) returns (result: Option<Wires>)
    ensures result == Pass(instructions, wires, skip)
  {
    var current := wires;
    var i := 0;
    while i < |instructions|
      invariant 0 <= i <= |instructions|
      invariant Pass(instructions[..i], wires, skip) == Some(current)
    {
      PassSnoc(instructions, wires, skip, i);
      var instruction := instructions[i];
      if skip.Some? && GetTarget(instruction) == skip.value {
        i := i + 1;
        continue;
      }
      var next := UpdateWire(instruction, current);
      if next.None? {
        PassNoneStays(instructions, wires, skip, i + 1);
        return None;
      }
      current := next.value;
      i := i + 1;
    }
    assert instructions[..i] == instructions;
    result := Some(current);
  }

  /** Once a panic happened in a pass, the pass panics. */
  lemma {:induction false} PassNoneStays(instructions: seq<Instruction>, wires: Wires, skip: Option<string>, k: nat)
    requires k <= |instructions| && Pass(instructions[..k], wires, skip).None?
    ensures Pass(instructions, wires, skip).None?
    decreases |instructions| - k
  {
    if k < |instructions| {
      PassSnoc(instructions, wires, skip, k);
      PassNoneStays(instructions, wires, skip, k + 1);
    } else {
      assert instructions[..k] == instructions;
    }
  }

  /** The wires after `n` passes from `init`. */
  function Passes(instructions: seq<Instruction>, init: Wires, skip: Option<string>, n: nat): Option<Wires> {
    if n == 0 then Some(init)
    else
      match Passes(instructions, init, skip, n - 1)
      case None => None
      case Some(w) => Pass(instructions, w, skip)
  }

  lemma {:induction false} PassesPrefix(instructions: seq<Instruction>, init: Wires, skip: Option<string>, j: nat, n: nat)
    requires j <= n && Passes(instructions, init, skip, n).Some?
    ensures Passes(instructions, init, skip, j).Some?
    decreases n - j
  {
    if j < n {
      PassesPrefix(instructions, init, skip, j + 1, n);
    }
  }

  /** Wire `a` carries a signal. */
  predicate Settled(wires: Wires) {
    "a" in wires && wires["a"].Some?
  }

  /** After `n >= 1` passes without a panic, wire `a` is known. */
  ghost predicate SettlesWithin(instructions: seq<Instruction>, init: Wires, skip: Option<string>, n: nat) {
    n >= 1 && Passes(instructions, init, skip, n).Some? && Settled(Passes(instructions, init, skip, n).value)
  }

  /** Pass `j` does not panic and leaves wire `a` unknown. */
  ghost predicate Unsettled(instructions: seq<Instruction>, init: Wires, skip: Option<string>, j: nat) {
    Passes(instructions, init, skip, j).Some? && !Settled(Passes(instructions, init, skip, j).value)
  }

  /** None of the passes before pass `k` leaves wire `a` known, and none
      of them panics. */
  ghost predicate UnsettledBefore(instructions: seq<Instruction>, init: Wires, skip: Option<string>, k: nat)
    decreases k
  {
    k <= 1 || (UnsettledBefore(instructions, init, skip, k - 1) && Unsettled(instructions, init, skip, k - 1))
  }

  lemma {:induction false} UnsettledMeaning(instructions: seq<Instruction>, init: Wires, skip: Option<string>, k: nat)
    ensures UnsettledBefore(instructions, init, skip, k) <==> forall j :: 1 <= j < k ==> Unsettled(instructions, init, skip, j)
  {
    if k > 1 {
      UnsettledMeaning(instructions, init, skip, k - 1);
      if UnsettledBefore(instructions, init, skip, k) {
        forall j | 1 <= j < k ensures Unsettled(instructions, init, skip, j) {
          if j < k - 1 {
            assert UnsettledBefore(instructions, init, skip, k - 1);
          }
        }
      }
    }
  }

  /** Pass `k` is the first after which wire `a` is known. */
  ghost predicate FirstSettled(instructions: seq<Instruction>, init: Wires, skip: Option<string>, k: nat) {
    SettlesWithin(instructions, init, skip, k) && UnsettledBefore(instructions, init, skip, k)
  }

  /** There is only one first pass, so the answer is determined. */
  lemma FirstSettledUnique(instructions: seq<Instruction>, init: Wires, skip: Option<string>, k1: nat, k2: nat)
    requires FirstSettled(instructions, init, skip, k1) && FirstSettled(instructions, init, skip, k2)
    ensures k1 == k2
  {
    UnsettledMeaning(instructions, init, skip, k1);
    UnsettledMeaning(instructions, init, skip, k2);
    assert !Unsettled(instructions, init, skip, k1) && !Unsettled(instructions, init, skip, k2);
  }

  /** `answer` is the signal on wire `a` after the first pass that leaves
      it known. */
  ghost predicate Reports(instructions: seq<Instruction>, init: Wires, skip: Option<string>, answer: Option<int>) {
    exists k :: FirstSettled(instructions, init, skip, k)
                && answer == Some(Passes(instructions, init, skip, k).value["a"].value as int)
  }

  lemma SettledHere(instructions: seq<Instruction>, init: Wires, skip: Option<string>, k: nat, wires: Wires)
    requires k >= 1 && UnsettledBefore(instructions, init, skip, k)
    requires Passes(instructions, init, skip, k) == Some(wires) && Settled(wires)
    ensures Reports(instructions, init, skip, Some(wires["a"].value as int))
  {
    assert FirstSettled(instructions, init, skip, k);
  }

  /** Before the pass that settles the circuit, the next pass does not
      panic. */
  lemma NextPass(instructions: seq<Instruction>, init: Wires, skip: Option<string>, k: nat, n: nat, wires: Wires)
    requires k < n && SettlesWithin(instructions, init, skip, n) && Passes(instructions, init, skip, k) == Some(wires)
    ensures Pass(instructions, wires, skip).Some? && Passes(instructions, init, skip, k + 1) == Pass(instructions, wires, skip)
  {
    PassesPrefix(instructions, init, skip, k + 1, n);
  }

  /** The passes are repeated until wire `a` is known, and its value is
      reported. The circuit must settle without a panic for the loop to
      end. */
  method Settle(instructions: seq<Instruction>, init: Wires, skip: Option<string>) returns (answer: Option<int>)
    requires exists n :: SettlesWithin(instructions, init, skip, n)
    ensures Reports(instructions, init, skip, answer)
  {
    ghost var n: nat :| SettlesWithin(instructions, init, skip, n);
    var wires := init;
    ghost var passes: nat := 0;
    while true
      invariant passes < n && Passes(instructions, init, skip, passes) == Some(wires)
      invariant UnsettledBefore(instructions, init, skip, passes + 1)
      decreases n - passes
    {
      NextPass(instructions, init, skip, passes, n, wires);
      var next := RunPass(instructions, wires, skip);
      wires := next.value;
      passes := passes + 1;
      if "a" in wires && wires["a"].Some? {
        answer := Some(wires["a"].value as int);
        SettledHere(instructions, init, skip, passes, wires);
        return;
      }
    }
  }

  /** `Signal::from_str`: all digits makes a constant, anything else a wire
      name. The digits must spell a `u16`: an empty string or a larger
      number panics in `parse().unwrap()`, which is `None` here. */
  function ParseSignal(s: string): (r: Option<Signal>)
    ensures r.Some? && r.value.Value? ==> s != [] && forall i :: 0 <= i < |s| ==> IsDigit(s[i])
    ensures (exists i :: 0 <= i < |s| && !IsDigit(s[i])) ==> r == Some(Wire(s))
  {
    if forall i :: 0 <= i < |s| ==> IsDigit(s[i]) then
      if s != [] && DecimalValue(s) < 0x1_0000 then Some(Value(DecimalValue(s) as U16)) else None
    else Some(Wire(s))
  }

  /** Parsing the decimal form of a `u16` gives back the constant. */
  lemma ParseDecimal(v: U16)
    ensures ParseSignal(Decimal(v as nat)) == Some(Value(v))
  {
    DecimalRoundTrip(v as nat);
  }

  /** The parsing test feeds whole instruction lines to `Signal::from_str`;
      each contains a space, so each becomes a wire. */
  lemma KnownSignals()
    ensures ParseSignal("123 -> x") == Some(Wire("123 -> x"))
    ensures ParseSignal("x AND y -> d") == Some(Wire("x AND y -> d"))
    ensures ParseSignal("NOT x -> h") == Some(Wire("NOT x -> h"))
  {
    assert !IsDigit("123 -> x"[3]);
    assert !IsDigit("x AND y -> d"[0]);
    assert !IsDigit("NOT x -> h"[0]);
  }

  class Solution {
    var instructions: seq<Instruction>
    var answerPart1: Option<int>
    var answerPart2: Option<int>

    constructor ()
      ensures instructions == [] && answerPart1 == None && answerPart2 == None
    {
      instructions := [];
      answerPart1 := None;
      answerPart2 := None;
    }

    /** `Solution::add_instruction`. */
    method AddInstruction(i: Instruction)
      modifies this
      ensures instructions == old(instructions) + [i]
      ensures answerPart1 == old(answerPart1) && answerPart2 == old(answerPart2)
    {
      instructions := instructions + [i];
    }

    /** The wires part 2 starts from: wire b preset to part 1's answer. */
    static function Part2Init(part1: Option<int>): Wires
      requires part1.Some? ==> 0 <= part1.value < 0x1_0000
    {
      map["b" := if part1.Some? then Some(part1.value as U16) else None]
    }

    /** `analyse_part1`: passes from no wires at all. */
    method AnalysePart1() returns (answer: Option<int>)
      requires exists n :: SettlesWithin(instructions, map[], None, n)
      ensures Reports(instructions, map[], None, answer)
    {
      answer := Settle(instructions, map[], None);
    }

    /** `analyse_part2`: wire b is preset and never overwritten. */
    method AnalysePart2() returns (answer: Option<int>)
      requires answerPart1.Some? ==> 0 <= answerPart1.value < 0x1_0000
      requires exists n :: SettlesWithin(instructions, Part2Init(answerPart1), Some("b"), n)
      ensures Reports(instructions, Part2Init(answerPart1), Some("b"), answer)
    {
      answer := Settle(instructions, Part2Init(answerPart1), Some("b"));
    }

    /** `analyse`: part 2 runs on the answer part 1 just stored. */
    method Analyse()
      requires exists n :: SettlesWithin(instructions, map[], None, n)
      requires forall k :: FirstSettled(instructions, map[], None, k) ==>
        exists n :: SettlesWithin(instructions, map["b" := Passes(instructions, map[], None, k).value["a"]], Some("b"), n)
      modifies this
      ensures instructions == old(instructions)
      ensures Reports(instructions, map[], None, answerPart1)
      ensures Reports(instructions, Part2Init(answerPart1), Some("b"), answerPart2)
    {
      var first := AnalysePart1();
      answerPart1 := first;
      ghost var k :| FirstSettled(instructions, map[], None, k)
                     && first == Some(Passes(instructions, map[], None, k).value["a"].value as int);
      ghost var v := Passes(instructions, map[], None, k).value["a"].value;
      U16RoundTrip(v);
      assert Part2Init(answerPart1) == map["b" := Passes(instructions, map[], None, k).value["a"]];
      var second := AnalysePart2();
      answerPart2 := second;
    }
  }
}
