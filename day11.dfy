/** Day 11: the next password, found by incrementing an eight-letter
    password as a base-26 number until it meets the security rules. */
module Day11 {
  import opened Common

  /** The length the rules and the increment work on. */
  const LENGTH: nat := 8

  predicate IsLowercase(s: string) {
    forall i :: 0 <= i < |s| ==> 'a' <= s[i] <= 'z'
  }

  /** `char::from_u32(c + 1)` succeeds: `c + 1` is not a surrogate and not
      past the last code point. */
  predicate CanBump(c: char) {
    c as int + 1 < 0xD800 || 0xE000 <= c as int + 1 < 0x11_0000
  }

  /** `Solution::next`: increments position `pos`, carrying into the
      position to its left when it wraps from 'z' to 'a'; position 0 wraps
      without a carry. */
  function Next(s: string, pos: nat): (r: string)
    requires pos < |s| && forall i :: 0 <= i <= pos ==> CanBump(s[i])
    ensures |r| == |s| && r[pos + 1..] == s[pos + 1..]
    decreases pos
  {
    if s[pos] == 'z' then
      var t := s[pos := 'a'];
      if pos == 0 then t else Next(t, pos - 1)
    else
      assert CanBump(s[pos]);
      s[pos := (s[pos] as int + 1) as char]
  }

  lemma KnownIncrements()
    ensures Next("ab", 1) == "ac"
    ensures Next("xz", 1) == "ya"
    ensures Next("zz", 1) == "aa"
  {
  }

  function Pow26(n: nat): (p: nat)
    ensures p >= 1
  {
    if n == 0 then 1 else 26 * Pow26(n - 1)
  }

  /** The number a lowercase string spells in base 26, 'a' being 0 and the
      first character the most significant digit. */
  function Value(s: string): int {
    if s == [] then 0 else Value(s[..|s| - 1]) * 26 + (s[|s| - 1] as int - 'a' as int)
  }

  lemma ValueStep(s: string, k: nat)
    requires k < |s|
    ensures Value(s[..k + 1]) == Value(s[..k]) * 26 + (s[k] as int - 'a' as int)
  {
    assert s[..k + 1][..k] == s[..k];
  }

  lemma {:induction false} ValueBound(s: string)
    requires IsLowercase(s)
    ensures 0 <= Value(s) < Pow26(|s|)
  {
    if s != [] {
      var init := s[..|s| - 1];
      ValueBound(init);
      MulMonotone(26, Value(init), Pow26(|init|) - 1);
    }
  }

  /** Two lowercase strings of the same length with the same value are
      equal. */
  lemma {:induction false} ValueInjective(s: string, t: string)
    requires IsLowercase(s) && IsLowercase(t) && |s| == |t| && Value(s) == Value(t)
    ensures s == t
  {
    if s != [] {
      var n := |s| - 1;
      DivModUnique(Value(s), 26, Value(s[..n]), s[n] as int - 'a' as int);
      DivModUnique(Value(t), 26, Value(t[..n]), t[n] as int - 'a' as int);
      ValueInjective(s[..n], t[..n]);
      assert s == s[..n] + [s[n]] && t == t[..n] + [t[n]];
    }
  }

  /** `(a * 26) % (m * 26) == (a % m) * 26`. */
  lemma ModTimes26(a: int, m: int)
    requires m > 0
    ensures (a * 26) % (m * 26) == (a % m) * 26
  {
    assert a * 26 == (a / m) * (m * 26) + (a % m) * 26;
    DivModUnique(a * 26, m * 26, a / m, (a % m) * 26);
  }

  /** On a lowercase string, `next(s, pos)` adds one to the number spelled
      by the first `pos + 1` characters, modulo `26^(pos + 1)`, and keeps the
      string lowercase. */
  lemma {:induction false} NextIncrements(s: string, pos: nat)
    requires pos < |s| && IsLowercase(s)
    ensures IsLowercase(Next(s, pos))
    ensures Value(Next(s, pos)[..pos + 1]) == (Value(s[..pos + 1]) + 1) % Pow26(pos + 1)
    decreases pos, 1
  {
    if s[pos] == 'z' && pos > 0 {
      CarryIncrements(s, pos);
    } else {
      var r := Next(s, pos);
      ValueStep(s, pos);
      ValueStep(r, pos);
      ValueBound(s[..pos]);
      if s[pos] == 'z' {
        assert Value(s[..1]) + 1 == Pow26(1);
      } else {
        assert r[..pos] == s[..pos];
        MulMonotone(26, Value(s[..pos]), Pow26(pos) - 1);
        DivModUnique(Value(s[..pos + 1]) + 1, Pow26(pos + 1), 0, Value(s[..pos + 1]) + 1);
      }
    }
  }

  /** The carry case: a 'z' becomes 'a' and the position to its left is
      incremented. */
  lemma {:induction false} CarryIncrements(s: string, pos: nat)
    requires 0 < pos < |s| && IsLowercase(s) && s[pos] == 'z'
    ensures IsLowercase(Next(s, pos))
    ensures Value(Next(s, pos)[..pos + 1]) == (Value(s[..pos + 1]) + 1) % Pow26(pos + 1)
    decreases pos, 0
  {
    var r := Next(s, pos);
    var t := s[pos := 'a'];
    assert r == Next(t, pos - 1);
    ValueStep(s, pos);
    ValueStep(r, pos);
    ValueBound(s[..pos]);
    assert t[..pos] == s[..pos];
    NextIncrements(t, pos - 1);
    assert r[..pos] == Next(t, pos - 1)[..pos];
    assert r[pos] == 'a' by {
      assert r[pos..] == t[pos..];
    }
    var a, p := Value(s[..pos]), Pow26(pos);
    ModTimes26(a + 1, p);
    assert Value(s[..pos + 1]) + 1 == (a + 1) * 26;
    assert Pow26(pos + 1) == p * 26;
    assert Value(r[..pos]) == (a + 1) % p;
    assert Value(r[..pos + 1]) == Value(r[..pos]) * 26;
  }

  /** The password `k` increments after `s`. */
  function Successor(s: string, k: nat): (r: string)
    requires |s| == LENGTH && IsLowercase(s)
    ensures |r| == LENGTH && IsLowercase(r)
  {
    if k == 0 then s
    else
      var prev := Successor(s, k - 1);
      NextIncrements(prev, LENGTH - 1);
      Next(prev, LENGTH - 1)
  }

  /** `has_only_permitted`: none of 'i', 'o' and 'l' occurs. */
  predicate HasOnlyPermitted(s: string) {
    !('i' in s || 'o' in s || 'l' in s)
  }

  predicate DoubleAt(s: string, i: nat)
    requires i + 1 < |s|
  {
    s[i] == s[i + 1]
  }

  /** Two different doubled letters among the first eight positions. */
  predicate HasTwoPairs(s: string)
    requires |s| >= LENGTH
  {
    exists i, j :: 0 <= i < j < LENGTH - 1 && DoubleAt(s, i) && DoubleAt(s, j) && s[i] != s[j]
  }

  /** The doubled two-letter strings starting before `n`. */
  function PairsBefore(s: string, n: nat): set<string>
    requires n < |s|
  {
    set k | 0 <= k < n && DoubleAt(s, k) :: s[k..k + 2]
  }

  /** Two elements in the set of pairs are two different doubled
      letters. */
  lemma PairsCountSound(s: string)
    requires |s| >= LENGTH && |PairsBefore(s, LENGTH - 1)| > 1
    ensures HasTwoPairs(s)
  {
    var pairs := PairsBefore(s, LENGTH - 1);
    var a :| a in pairs;
    assert |pairs - {a}| == |pairs| - 1;
    var b :| b in pairs - {a};
    var i :| 0 <= i < LENGTH - 1 && DoubleAt(s, i) && s[i..i + 2] == a;
    var j :| 0 <= j < LENGTH - 1 && DoubleAt(s, j) && s[j..j + 2] == b;
    assert s[i..i + 2] == [s[i], s[i]] && s[j..j + 2] == [s[j], s[j]];
    if i < j {
      assert DoubleAt(s, i) && DoubleAt(s, j) && s[i] != s[j];
    } else {
      assert DoubleAt(s, j) && DoubleAt(s, i) && s[j] != s[i];
    }
  }

  /** Two different doubled letters put two elements in the set. */
  lemma PairsCountComplete(s: string)
    requires |s| >= LENGTH && HasTwoPairs(s)
    ensures |PairsBefore(s, LENGTH - 1)| > 1
  {
    var i, j :| 0 <= i < j < LENGTH - 1 && DoubleAt(s, i) && DoubleAt(s, j) && s[i] != s[j];
    var a, b := s[i..i + 2], s[j..j + 2];
    assert a[0] != b[0];
    assert a in PairsBefore(s, LENGTH - 1) && b in PairsBefore(s, LENGTH - 1);
    SubsetCardinality({a, b}, PairsBefore(s, LENGTH - 1));
  }

  /** `contains_two_pairs`: the loop over positions 0 to 6 that collects
      the doubled pairs into a set. */
  method ContainsTwoPairs(s: string) returns (found: bool)
    requires |s| >= LENGTH
    ensures found <==> HasTwoPairs(s)
  {
    var pairs: set<string> := {};
    for i := 0 to LENGTH - 1
      invariant pairs == PairsBefore(s, i)
    {
      if s[i] == s[i + 1] {
        pairs := pairs + {s[i..i + 2]};
      }
      assert PairsBefore(s, i + 1) == PairsBefore(s, i) + (if DoubleAt(s, i) then {s[i..i + 2]} else {});
    }
    if |pairs| > 1 {
      PairsCountSound(s);
    } else if HasTwoPairs(s) {
      PairsCountComplete(s);
    }
    found := |pairs| > 1;
  }

  /** Three letters increasing by one start at `i`. */
  predicate RunAt(s: string, i: nat)
    requires i + 2 < |s|
  {
    s[i] as int + 1 == s[i + 1] as int && s[i + 1] as int + 1 == s[i + 2] as int
  }

  predicate HasRun(s: string)
    requires |s| >= LENGTH
  {
    exists i :: 0 <= i < LENGTH - 2 && RunAt(s, i)
  }

  /** `contains_run`: returns at the first straight of three letters. */
  method ContainsRun(s: string) returns (found: bool)
    requires |s| >= LENGTH
    ensures found <==> HasRun(s)
  {
    for i := 0 to LENGTH - 2
      invariant forall k :: 0 <= k < i ==> !RunAt(s, k)
    {
      if s[i] as int == s[i + 1] as int - 1 && s[i + 1] as int == s[i + 2] as int - 1 {
        assert RunAt(s, i);
        return true;
      }
    }
    return false;
  }

  /** `is_permitted`: all three rules. */
  predicate IsPermitted(s: string)
    requires |s| >= LENGTH
  {
    HasOnlyPermitted(s) && HasTwoPairs(s) && HasRun(s)
  }

  method CheckPermitted(s: string) returns (ok: bool)
    requires |s| >= LENGTH
    ensures ok <==> IsPermitted(s)
  {
    ok := HasOnlyPermitted(s);
    if ok {
      ok := ContainsTwoPairs(s);
    }
    if ok {
      ok := ContainsRun(s);
    }
  }

  /** A permitted password: every increment cycle passes through it. */
  const WITNESS: string := "abcdffaa"

  lemma WitnessPermitted()
    ensures |WITNESS| == LENGTH && IsLowercase(WITNESS) && IsPermitted(WITNESS)
  {
    assert DoubleAt(WITNESS, 4) && DoubleAt(WITNESS, 6) && WITNESS[4] != WITNESS[6];
    assert RunAt(WITNESS, 0);
  }

  /** The number of increments from `s` before the one that reaches
      `target`, counted modulo the cycle length. */
  function Distance(s: string, target: string): nat {
    (Value(target) - Value(s) - 1) % Pow26(LENGTH)
  }

  /** The distance arithmetic behind `DistanceStep`, for a value `v` and
      a witness value `w` below the cycle length `n`. */
  lemma CycleArithmetic(v: int, w: int, n: int)
    requires 0 <= v < n && 0 <= w < n
    ensures (w - v - 1) % n == 0 ==> (v + 1) % n == w
    ensures (w - v - 1) % n > 0 ==> (w - (v + 1) % n - 1) % n == (w - v - 1) % n - 1
  {
    var x := w - v - 1;
    if x >= 0 {
      DivModUnique(x, n, 0, x);
    } else {
      DivModUnique(x, n, -1, x + n);
    }
    if v + 1 < n {
      DivModUnique(v + 1, n, 0, v + 1);
    } else {
      DivModUnique(v + 1, n, 1, 0);
    }
    var y := w - (v + 1) % n - 1;
    if y >= 0 {
      DivModUnique(y, n, 0, y);
    } else {
      DivModUnique(y, n, -1, y + n);
    }
  }

  /** Each increment brings the target one step closer, or reaches it. */
  lemma DistanceStep(s: string, target: string)
    requires |s| == LENGTH && IsLowercase(s) && |target| == LENGTH && IsLowercase(target)
    ensures Distance(s, target) == 0 ==> Next(s, LENGTH - 1) == target
    ensures Distance(s, target) > 0 ==> Distance(Next(s, LENGTH - 1), target) == Distance(s, target) - 1
  {
    var r := Next(s, LENGTH - 1);
    NextIncrements(s, LENGTH - 1);
    assert s[..LENGTH] == s && r[..LENGTH] == r;
    DistanceAfter(s, r, target);
  }

  /** The same for any string whose value is one more than that of `s`,
      around the cycle. */
  lemma DistanceAfter(s: string, r: string, target: string)
    requires |s| == LENGTH && IsLowercase(s) && |target| == LENGTH && IsLowercase(target)
    requires |r| == LENGTH && IsLowercase(r) && Value(r) == (Value(s) + 1) % Pow26(LENGTH)
    ensures Distance(s, target) == 0 ==> r == target
    ensures Distance(s, target) > 0 ==> Distance(r, target) == Distance(s, target) - 1
  {
    ValueBound(s);
    ValueBound(target);
    CycleArithmetic(Value(s), Value(target), Pow26(LENGTH));
    if Distance(s, target) == 0 {
      ValueInjective(r, target);
    }
  }

  /** After `k` increments from `input` the first permitted password is
      reached. */
  ghost predicate FirstPermittedAt(input: string, k: nat)
    requires |input| == LENGTH && IsLowercase(input)
  {
    k >= 1 && IsPermitted(Successor(input, k)) && NonePermittedUpTo(input, k - 1)
  }

  /** None of the first `n` increments after `input` is permitted. */
  ghost predicate NonePermittedUpTo(input: string, n: nat)
    requires |input| == LENGTH && IsLowercase(input)
  {
    forall j :: 1 <= j <= n ==> !IsPermitted(Successor(input, j))
  }

  lemma NonePermittedExtend(input: string, n: nat)
    requires |input| == LENGTH && IsLowercase(input) && n >= 1
    requires NonePermittedUpTo(input, n - 1) && !IsPermitted(Successor(input, n))
    ensures NonePermittedUpTo(input, n)
  {
  }

  /** `analyse_str`: increments until the password is permitted. The loop
      ends because the increments cycle through every eight-letter
      lowercase password, permitted ones among them. */
  method NextPassword(input: string) returns (result: string)
    requires |input| == LENGTH && IsLowercase(input)
    ensures exists k :: FirstPermittedAt(input, k) && result == Successor(input, k)
  {
    WitnessPermitted();
    ghost var target: string :| |target| == LENGTH && IsLowercase(target) && IsPermitted(target);
    var current := input;
    ghost var steps: nat := 0;
    while true
      invariant current == Successor(input, steps)
      invariant NonePermittedUpTo(input, steps)
      decreases Distance(current, target)
    {
      DistanceStep(current, target);
      current := Next(current, LENGTH - 1);
      steps := steps + 1;
      assert current == Successor(input, steps);
      var ok := CheckPermitted(current);
      if ok {
        assert FirstPermittedAt(input, steps);
        return current;
      }
      NonePermittedExtend(input, steps);
    }
  }

  class Solution {
    var input: string
    var answerPart1: Option<string>
    var answerPart2: Option<string>

    constructor ()
      ensures input == [] && answerPart1 == None && answerPart2 == None
    {
      input := [];
      answerPart1 := None;
      answerPart2 := None;
    }

    /** `Solution::set_input`. */
    method SetInput(s: string)
      modifies this
      ensures input == s && answerPart1 == old(answerPart1) && answerPart2 == old(answerPart2)
    {
      input := s;
    }

    /** `analyse`: the next password after the input, then the next one
      after that. */
    method Analyse()
      requires |input| == LENGTH && IsLowercase(input)
      modifies this
      ensures input == old(input)
      ensures answerPart1.Some? && |answerPart1.value| == LENGTH && IsLowercase(answerPart1.value)
      ensures exists k :: FirstPermittedAt(input, k) && answerPart1.value == Successor(input, k)
      ensures answerPart2.Some?
      ensures exists k :: FirstPermittedAt(answerPart1.value, k) && answerPart2.value == Successor(answerPart1.value, k)
    {
      var first := NextPassword(input);
      answerPart1 := Some(first);
      var second := NextPassword(first);
      answerPart2 := Some(second);
    }
  }
}
