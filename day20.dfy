/** Day 20: elves deliver presents along a street; the answer is the first
    house that gets at least the target number of presents. */
module Day20 {
  import opened Common

  /** `d` divides `h`, by repeated subtraction. */
  predicate Divides(d: nat, h: nat)
    decreases h
  {
    if d == 0 || h < d then h == 0 else Divides(d, h - d)
  }

  /** `j * i` is a multiple of `i`. */
  lemma {:induction false} DividesMultiple(i: nat, j: nat)
    ensures Divides(i, j * i)
  {
    if j > 0 && i > 0 {
      DividesMultiple(i, j - 1);
      assert j * i - i == (j - 1) * i;
    }
  }

  lemma DividesStep(i: nat, j: nat)
    requires i >= 1
    ensures Divides(i, j + i) == Divides(i, j)
  {
  }

  /** Two multiples of `i` lie at least `i` apart. */
  lemma {:induction false} MultiplesApart(i: nat, j: nat, h: nat)
    requires i >= 1 && Divides(i, j) && Divides(i, h) && j < h
    ensures h >= j + i
    decreases j
  {
    if j >= i {
      MultiplesApart(i, j - i, h - i);
    }
  }

  /** The sum of the divisors of `h` up to `n`. */
  function DivSum(h: nat, n: nat): nat {
    if n == 0 then 0 else DivSum(h, n - 1) + (if Divides(n, h) then n else 0)
  }

  /** σ(h), the sum of all divisors of `h`. */
  function Sigma(h: nat): nat {
    DivSum(h, h)
  }

  /** Elf `d` leaves presents at `h` in part 2: `h` is one of the first
      50 multiples of `d`. */
  predicate LazyVisits(d: nat, h: nat) {
    d <= h <= 50 * d && Divides(d, h)
  }

  /** The sum of the divisors `d` of `h` up to `n` for which `h` is among
      the first 50 houses elf `d` visits. */
  function LazySum(h: nat, n: nat): nat {
    if n == 0 then 0 else LazySum(h, n - 1) + (if LazyVisits(n, h) then n else 0)
  }

  /** No divisor of a house lies beyond the house. */
  lemma {:induction false} DivSumSaturates(h: nat, n: nat)
    requires 1 <= h <= n
    ensures DivSum(h, n) == Sigma(h)
    decreases n
  {
    if n > h {
      DivSumSaturates(h, n - 1);
    }
  }

  lemma {:induction false} DivSumMonotone(h: nat, m: nat, n: nat)
    requires m <= n
    ensures DivSum(h, m) <= DivSum(h, n)
    decreases n
  {
    if m < n {
      DivSumMonotone(h, m, n - 1);
    }
  }

  /** 1 and the house itself divide every house beyond the first. */
  lemma SigmaAtLeast(h: nat)
    requires h >= 2
    ensures Sigma(h) >= h + 1
  {
    DivSumMonotone(h, 1, h - 1);
    DividesMultiple(h, 1);
    DividesMultiple(1, h);
    assert DivSum(h, 1) == 1;
  }

  /** The lazy elves deliver at most what the tireless ones do. */
  lemma {:induction false} LazyAtMost(h: nat, n: nat)
    ensures LazySum(h, n) <= DivSum(h, n)
  {
    if n > 0 {
      LazyAtMost(h, n - 1);
    }
  }

  /** The presents at house `h`, 0 for a house without an entry. */
  function Get(houses: map<nat, nat>, h: nat): nat {
    if h in houses then houses[h] else 0
  }

  /** Every house is a multiple of 1. */
  lemma {:induction false} DividesOne(h: nat)
    ensures Divides(1, h)
  {
    if h > 0 {
      DividesOne(h - 1);
    }
  }

  /** Once elf `i` has passed `top`, each house has its presents from
      the elves up to `i`. */
  lemma Elf1Done(houses: map<nat, nat>, r: map<nat, nat>, i: nat, top: nat, j: nat, visited: set<nat>)
    requires 1 <= i <= top && top < j
    requires forall h: nat :: h in houses <==> 1 <= h <= top && i > 1
    requires forall h: nat :: h in houses ==> houses[h] == 10 * DivSum(h, i - 1)
    requires forall h: nat {:trigger h in visited} :: h in visited <==> Divides(i, h) && i <= h < j
    requires forall h: nat :: h in r <==> h in houses || h in visited
    requires forall h: nat :: Get(r, h) == Get(houses, h) + (if h in visited then 10 * i else 0)
    requires forall h: nat :: h in visited ==> h <= top
    ensures forall h: nat :: h in r <==> 1 <= h <= top
    ensures forall h: nat :: h in r ==> r[h] == 10 * DivSum(h, i)
  {
    forall h: nat | 1 <= h <= top
      ensures h in r && r[h] == 10 * DivSum(h, i)
    {
      if i == 1 {
        DividesOne(h);
      }
      assert Get(r, h) == r[h];
    }
  }

  /** The inner loop of `analyse_part1`: elf `i` leaves `10 * i`
      presents at every multiple of `i` up to `top`. */
  method Elf1(houses: map<nat, nat>, i: nat, top: nat) returns (r: map<nat, nat>)
    requires 1 <= i <= top
    requires forall h: nat :: h in houses <==> 1 <= h <= top && i > 1
    requires forall h: nat :: h in houses ==> houses[h] == 10 * DivSum(h, i - 1)
    ensures forall h: nat :: h in r <==> 1 <= h <= top
    ensures forall h: nat :: h in r ==> r[h] == 10 * DivSum(h, i)
  {
    r := houses;
    var j := i;
    ghost var visited: set<nat> := {};
    DividesMultiple(i, 1);
    while j <= top
      invariant i <= j && Divides(i, j)
      invariant forall h: nat {:trigger h in visited} :: h in visited <==> Divides(i, h) && i <= h < j
      invariant forall h: nat :: h in r <==> h in houses || h in visited
      invariant forall h: nat :: Get(r, h) == Get(houses, h) + (if h in visited then 10 * i else 0)
      invariant forall h: nat :: h in visited ==> h <= top
    {
      r := r[j := Get(r, j) + i * 10];
      visited := visited + {j};
      forall h: nat | Divides(i, h) && j < h
        ensures h >= j + i
      {
        MultiplesApart(i, j, h);
      }
      DividesStep(i, j);
      j := j + i;
    }
    Elf1Done(houses, r, i, top, j, visited);
  }

  /** The nested loops of `analyse_part1`: elf `i` for `i` in
      `1..=target / 10` leaves `10 * i` presents at every multiple of `i`
      up to `target / 10`. */
  method Sieve1(target: nat) returns (houses: map<nat, nat>)
    ensures forall h: nat :: h in houses <==> 1 <= h <= target / 10
    ensures forall h: nat :: h in houses ==> houses[h] == 10 * Sigma(h)
  {
    var top := target / 10;
    houses := map[];
    var i := 1;
    while i <= top
      invariant 1 <= i <= top + 1
      invariant forall h: nat :: h in houses <==> 1 <= h <= top && i > 1
      invariant forall h: nat :: h in houses ==> houses[h] == 10 * DivSum(h, i - 1)
    {
      houses := Elf1(houses, i, top);
      i := i + 1;
    }
    forall h: nat | h in houses
      ensures houses[h] == 10 * Sigma(h)
    {
      DivSumSaturates(h, top);
    }
  }

  /** `j * i` for the next `j`, and below the 51st multiple. */
  lemma {:induction false} MulStep(i: nat, j: nat)
    ensures (j + 1) * i == j * i + i
    ensures j <= 50 ==> j * i <= 50 * i
  {
    if j > 0 {
      MulStep(i, j - 1);
    }
  }

  /** The inner loop of `analyse_part2`: elf `i` leaves `11 * i`
      presents at its first 50 multiples. */
  method Elf2(houses: map<nat, nat>, i: nat) returns (r: map<nat, nat>)
    requires i >= 1
    requires forall h: nat :: h in houses <==> LazySum(h, i - 1) > 0
    requires forall h: nat :: h in houses ==> houses[h] == 11 * LazySum(h, i - 1)
    ensures forall h: nat :: h in r <==> LazySum(h, i) > 0
    ensures forall h: nat :: h in r ==> r[h] == 11 * LazySum(h, i)
  {
    r := houses;
    var j := 1;
    ghost var visited: set<nat> := {};
    assert j * i == i;
    while j <= 50
      invariant 1 <= j <= 51
      invariant forall h: nat {:trigger h in visited} :: h in visited <==> LazyVisits(i, h) && h < j * i
      invariant forall h: nat :: h in r <==> h in houses || h in visited
      invariant forall h: nat :: Get(r, h) == Get(houses, h) + (if h in visited then 11 * i else 0)
    {
      var here := j * i;
      MulStep(i, j);
      DividesMultiple(i, j);
      assert LazyVisits(i, here);
      r := r[here := Get(r, here) + i * 11];
      visited := visited + {here};
      forall h: nat | Divides(i, h) && here < h
        ensures h >= here + i
      {
        MultiplesApart(i, here, h);
      }
      j := j + 1;
    }
    assert (j - 1) * i == 50 * i;
    Elf2Done(houses, r, i, visited);
  }

  /** Once elf `i` has made its 50 deliveries, each house has its
      presents from the elves up to `i`. */
  lemma Elf2Done(houses: map<nat, nat>, r: map<nat, nat>, i: nat, visited: set<nat>)
    requires i >= 1
    requires forall h: nat :: h in houses <==> LazySum(h, i - 1) > 0
    requires forall h: nat :: h in houses ==> houses[h] == 11 * LazySum(h, i - 1)
    requires forall h: nat {:trigger h in visited} :: h in visited <==> LazyVisits(i, h)
    requires forall h: nat :: h in r <==> h in houses || h in visited
    requires forall h: nat :: Get(r, h) == Get(houses, h) + (if h in visited then 11 * i else 0)
    ensures forall h: nat :: h in r <==> LazySum(h, i) > 0
    ensures forall h: nat :: h in r ==> r[h] == 11 * LazySum(h, i)
  {
    forall h: nat
      ensures h in r <==> LazySum(h, i) > 0
      ensures h in r ==> r[h] == 11 * LazySum(h, i)
    {
      assert LazySum(h, i) == LazySum(h, i - 1) + (if LazyVisits(i, h) then i else 0);
      assert h in r ==> Get(r, h) == r[h];
    }
  }

  /** The nested loops of `analyse_part2`: elf `i` for `i` in
      `1..=target / 11` leaves `11 * i` presents at its first 50 multiples. */
  method Sieve2(target: nat) returns (houses: map<nat, nat>)
    ensures forall h: nat :: h in houses <==> LazySum(h, target / 11) > 0
    ensures forall h: nat :: h in houses ==> houses[h] == 11 * LazySum(h, target / 11)
  {
    var top := target / 11;
    houses := map[];
    var i := 1;
    while i <= top
      invariant 1 <= i <= top + 1
      invariant forall h: nat :: h in houses <==> LazySum(h, i - 1) > 0
      invariant forall h: nat :: h in houses ==> houses[h] == 11 * LazySum(h, i - 1)
    {
      houses := Elf2(houses, i);
      i := i + 1;
    }
  }

  /** How the `loop` that looks for the first house ends: at a house, or
      never, once it has passed every house the elves filled. */
  datatype Scan = Stops(house: nat) | Forever

  /** The search loop of both parts: the first house, from 0 up, whose
      presents reach the target. Every filled house is at most `limit`, so
      a loop that gets past it without stopping never stops. */
  method FirstHouse(houses: map<nat, nat>, target: nat, limit: nat) returns (r: Scan)
    requires forall h: nat :: h in houses ==> h <= limit
    ensures r.Stops? ==> r.house in houses && houses[r.house] >= target
    ensures r.Stops? ==> forall h: nat :: h in houses && houses[h] >= target ==> r.house <= h
    ensures r.Forever? <==> forall h: nat :: h in houses ==> houses[h] < target
  {
    var i := 0;
    while i <= limit
      invariant forall h: nat :: h in houses && h < i ==> houses[h] < target
    {
      if i in houses && houses[i] >= target {
        return Stops(i);
      }
      i := i + 1;
    }
    return Forever;
  }

  /** `h` is the first house that gets `target` presents from the
      tireless elves. */
  predicate FirstOfPart1(target: nat, h: nat) {
    && 1 <= h <= target / 10 && 10 * Sigma(h) >= target
    && forall k :: 1 <= k < h ==> 10 * Sigma(k) < target
  }

  /** `h` is the first house that gets `target` presents from the lazy
      elves. */
  predicate FirstOfPart2(target: nat, h: nat) {
    && LazySum(h, target / 11) > 0 && 11 * LazySum(h, target / 11) >= target
    && forall k :: 0 <= k < h && LazySum(k, target / 11) > 0 ==> 11 * LazySum(k, target / 11) < target
  }

  /** Some house the tireless elves fill reaches the target, so the loop
      of part 1 stops. */
  predicate Reaches1(target: nat) {
    exists h :: 1 <= h <= target / 10 && 10 * Sigma(h) >= target
  }

  /** Some house the lazy elves fill reaches the target, so the loop of
      part 2 stops. */
  predicate Reaches2(target: nat) {
    exists h :: 1 <= h <= 50 * (target / 11) && LazySum(h, target / 11) > 0 && 11 * LazySum(h, target / 11) >= target
  }

  /** Elf `d` visits only houses `d` to `50 * d`. */
  lemma {:induction false} LazyBelow(h: nat, n: nat)
    requires LazySum(h, n) > 0
    ensures 1 <= h <= 50 * n
  {
    if !LazyVisits(n, h) {
      LazyBelow(h, n - 1);
    }
  }

  /** `analyse_part1` once the target is known. */
  method AnalysePart1(target: nat) returns (r: Scan)
    ensures r.Stops? ==> FirstOfPart1(target, r.house)
    ensures r.Forever? <==> !Reaches1(target)
  {
    var houses := Sieve1(target);
    r := FirstHouse(houses, target, target / 10);
  }

  /** `analyse_part2` once the target is known. */
  method AnalysePart2(target: nat) returns (r: Scan)
    ensures r.Stops? ==> FirstOfPart2(target, r.house)
    ensures r.Forever? <==> !Reaches2(target)
  {
    var houses := Sieve2(target);
    forall h: nat | h in houses
      ensures h <= 50 * (target / 11)
    {
      LazyBelow(h, target / 11);
    }
    r := FirstHouse(houses, target, 50 * (target / 11));
    if r.Stops? {
      LazyBelow(r.house, target / 11);
    }
  }

  /** From 20 presents on, the last house of part 1 (σ(h) > h) reaches
      the target, so the loop stops no later than there. */
  lemma Part1Stops(target: nat)
    requires target >= 20
    ensures Reaches1(target)
  {
    var top := target / 10;
    SigmaAtLeast(top);
    assert 10 * Sigma(top) >= target;
  }

  /** From 11 to 19 presents only house 1 is filled, with 10, and the loop
      of part 1 never stops; below 10 no house is filled at all. */
  lemma Part1Endless(target: nat)
    requires target < 10 || 11 <= target <= 19
    ensures !Reaches1(target)
  {
    assert DivSum(1, 1) == 1;
  }

  /** The first houses get 10, 30, 40 and 70 presents: for a target of
      70 the answer is house 4. */
  lemma KnownFirstHouse()
    ensures FirstOfPart1(70, 4)
  {
    assert Sigma(1) == 1;
    assert DivSum(2, 1) == 1 && Sigma(2) == 3;
    assert DivSum(3, 2) == 1 && Sigma(3) == 4;
    assert DivSum(4, 3) == 3 && Sigma(4) == 7;
  }

  class Solution {
    var target: Option<nat>
    var answerPart1: Option<nat>
    var answerPart2: Option<nat>

    constructor ()
      ensures target == None && answerPart1 == None && answerPart2 == None
    {
      target := None;
      answerPart1 := None;
      answerPart2 := None;
    }

    method SetTarget(t: nat)
      modifies this
      ensures target == Some(t) && answerPart1 == old(answerPart1) && answerPart2 == old(answerPart2)
    {
      target := Some(t);
    }

    /** Both parts; `None` without a target. The source's loops only end
        where some house reaches the target. */
    method Analyse()
      requires target.Some? ==> Reaches1(target.value) && Reaches2(target.value)
      modifies this
      ensures target == old(target)
      ensures target.None? ==> answerPart1 == None && answerPart2 == None
      ensures target.Some? ==> answerPart1.Some? && FirstOfPart1(target.value, answerPart1.value)
      ensures target.Some? ==> answerPart2.Some? && FirstOfPart2(target.value, answerPart2.value)
    {
      if target.None? {
        answerPart1, answerPart2 := None, None;
        return;
      }
      var first := AnalysePart1(target.value);
      var second := AnalysePart2(target.value);
      answerPart1, answerPart2 := Some(first.house), Some(second.house);
    }
  }
}
