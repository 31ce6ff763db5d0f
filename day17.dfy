/** Day 17: 150 litres of eggnog must fill some of the containers
    exactly. Part 1 counts the combinations of containers that do;
    part 2 counts those that use the fewest containers. */
module Day17 {
  import opened Common

  const EGGNOG: nat := 150

  /** `analyse_part1_step(idx, liters)`: take container `idx` (exactly
      filling counts one, leaving some over recurses) and also skip it. */
  function Part1Step(data: seq<nat>, idx: nat, liters: nat): nat
    decreases |data| - idx
  {
    if idx >= |data| then 0
    else
      var container := data[idx];
      var count :=
        if liters > container then Part1Step(data, idx + 1, liters - container)
        else if liters == container then 1
        else 0;
      count + Part1Step(data, idx + 1, liters)
  }

  // ---- The reference: all combinations, one index list each ----

  /** Puts `x` in front of every list. */
  function Prepend(x: nat, ss: seq<seq<nat>>): (r: seq<seq<nat>>)
    ensures |r| == |ss|
    ensures forall k :: 0 <= k < |ss| ==> r[k] == [x] + ss[k]
  {
    if ss == [] then [] else [[x] + ss[0]] + Prepend(x, ss[1..])
  }

  /** Every combination of the containers `idx..n`, as the increasing list
      of their indices: those taking `idx`, then those skipping it. */
  function Subsets(n: nat, idx: nat): seq<seq<nat>>
    decreases n - idx
  {
    if idx >= n then [[]] else Prepend(idx, Subsets(n, idx + 1)) + Subsets(n, idx + 1)
  }

  /** Strictly increasing indices within `lo..n`. */
  predicate Combination(s: seq<nat>, lo: nat, n: nat) {
    (forall k :: 0 <= k < |s| ==> lo <= s[k] < n) && (forall k :: 0 <= k < |s| - 1 ==> s[k] < s[k + 1])
  }

  predicate Distinct<T(==)>(ss: seq<T>) {
    forall i, j :: 0 <= i < j < |ss| ==> ss[i] != ss[j]
  }

  /** Every list of `Subsets(n, idx)` is a combination of `idx..n`. */
  lemma {:induction false} SubsetsAreCombinations(n: nat, idx: nat)
    ensures forall s :: s in Subsets(n, idx) ==> Combination(s, idx, n)
    decreases n - idx
  {
    if idx < n {
      var rest := Subsets(n, idx + 1);
      SubsetsAreCombinations(n, idx + 1);
      var taken := Prepend(idx, rest);
      assert Subsets(n, idx) == taken + rest;
      forall s | s in taken
        ensures Combination(s, idx, n)
      {
        var k :| 0 <= k < |rest| && s == [idx] + rest[k];
        assert Combination(rest[k], idx + 1, n);
        assert forall j :: 1 <= j < |s| ==> s[j] == rest[k][j - 1];
      }
    }
  }

  /** Every combination of `idx..n` is listed in `Subsets(n, idx)`. */
  lemma {:induction false} SubsetsComplete(n: nat, idx: nat, s: seq<nat>)
    requires Combination(s, idx, n)
    ensures s in Subsets(n, idx)
    decreases n - idx
  {
    if idx >= n {
      assert s == [];
    } else {
      var rest := Subsets(n, idx + 1);
      var taken := Prepend(idx, rest);
      assert Subsets(n, idx) == taken + rest;
      if s != [] && s[0] == idx {
        var tail := s[1..];
        forall j | 0 <= j < |tail|
          ensures idx + 1 <= tail[j] < n
        {
          assert tail[j] == s[j + 1] && s[j] < s[j + 1];
        }
        assert forall j :: 0 <= j < |tail| ==> tail[j] == s[j + 1];
        SubsetsComplete(n, idx + 1, tail);
        assert s == [idx] + tail;
        var k :| 0 <= k < |rest| && rest[k] == tail;
        assert taken[k] == s;
      } else {
        if s != [] {
          IncreasingFromFirst(s);
        }
        SubsetsComplete(n, idx + 1, s);
      }
    }
  }

  /** No combination is listed twice. */
  lemma {:induction false} SubsetsDistinct(n: nat, idx: nat)
    ensures Distinct(Subsets(n, idx))
    decreases n - idx
  {
    if idx < n {
      SubsetsDistinct(n, idx + 1);
      SubsetsAreCombinations(n, idx + 1);
      DistinctHalves(idx, n, Subsets(n, idx + 1));
    }
  }

  /** In an increasing list the first element is the smallest. */
  lemma {:induction false} IncreasingFromFirst(s: seq<nat>)
    requires forall k :: 0 <= k < |s| - 1 ==> s[k] < s[k + 1]
    ensures forall j :: 0 <= j < |s| ==> s[0] <= s[j]
  {
    var j := 0;
    while j < |s|
      invariant 0 <= j <= |s|
      invariant forall i :: 0 <= i < j ==> s[0] <= s[i]
    {
      if j > 0 {
        assert s[j - 1] < s[j];
      }
      j := j + 1;
    }
  }

  /** The lists taking `idx` all differ from each other and from the lists
      skipping it. */
  lemma DistinctHalves(idx: nat, n: nat, rest: seq<seq<nat>>)
    requires Distinct(rest) && forall s :: s in rest ==> Combination(s, idx + 1, n)
    ensures Distinct(Prepend(idx, rest) + rest)
  {
    var taken := Prepend(idx, rest);
    var all := taken + rest;
    forall i, j | 0 <= i < j < |all|
      ensures all[i] != all[j]
    {
      if j < |taken| {
        assert all[i][1..] == rest[i] && all[j][1..] == rest[j];
      } else if i < |taken| {
        assert all[j] in rest;
        assert all[i][0] == idx;
        if all[j] != [] {
          assert all[j][0] >= idx + 1;
        }
      } else {
        assert all[i] == rest[i - |taken|] && all[j] == rest[j - |taken|];
      }
    }
  }

  /** The litres a combination holds. */
  function Volume(data: seq<nat>, s: seq<nat>): int {
    if s == [] then 0 else (if s[0] < |data| then data[s[0]] else 0) + Volume(data, s[1..])
  }

  /** How many of the combinations hold exactly `liters`. */
  function Hits(data: seq<nat>, ss: seq<seq<nat>>, liters: int): nat {
    if ss == [] then 0 else (if Volume(data, ss[0]) == liters then 1 else 0) + Hits(data, ss[1..], liters)
  }

  /** How many of them hold exactly `liters` using `size` containers. */
  function SizedHits(data: seq<nat>, ss: seq<seq<nat>>, liters: int, size: nat): nat {
    if ss == [] then 0
    else (if Volume(data, ss[0]) == liters && |ss[0]| == size then 1 else 0) + SizedHits(data, ss[1..], liters, size)
  }

  predicate Positive(data: seq<nat>) {
    forall i :: 0 <= i < |data| ==> data[i] > 0
  }

  lemma {:induction false} HitsAppend(data: seq<nat>, a: seq<seq<nat>>, b: seq<seq<nat>>, liters: int, size: nat)
    ensures Hits(data, a + b, liters) == Hits(data, a, liters) + Hits(data, b, liters)
    ensures SizedHits(data, a + b, liters, size) == SizedHits(data, a, liters, size) + SizedHits(data, b, liters, size)
    decreases |a|
  {
    if a != [] {
      assert (a + b)[1..] == a[1..] + b;
      HitsAppend(data, a[1..], b, liters, size);
    } else {
      assert a + b == b;
    }
  }

  /** Taking container `x` adds its litres and one container. */
  lemma {:induction false} HitsPrepend(data: seq<nat>, x: nat, ss: seq<seq<nat>>, liters: int, size: nat)
    requires x < |data|
    ensures Hits(data, Prepend(x, ss), liters) == Hits(data, ss, liters - data[x])
    ensures SizedHits(data, Prepend(x, ss), liters, size + 1) == SizedHits(data, ss, liters - data[x], size)
    ensures SizedHits(data, Prepend(x, ss), liters, 0) == 0
    decreases |ss|
  {
    if ss != [] {
      var p := Prepend(x, ss);
      assert ([x] + ss[0])[1..] == ss[0];
      assert p[1..] == Prepend(x, ss[1..]);
      HitsPrepend(data, x, ss[1..], liters, size);
    }
  }

  /** Volumes are never negative, and with positive sizes only the empty
      combination holds nothing. */
  lemma {:induction false} VolumeSign(data: seq<nat>, s: seq<nat>)
    requires Positive(data) && forall k :: 0 <= k < |s| ==> s[k] < |data|
    ensures Volume(data, s) >= 0
    ensures Volume(data, s) == 0 <==> s == []
  {
    if s != [] {
      assert forall k :: 0 <= k < |s| - 1 ==> s[1..][k] == s[k + 1];
      VolumeSign(data, s[1..]);
    }
  }

  lemma {:induction false} NonPositiveHits(data: seq<nat>, idx: nat, liters: int, size: nat)
    requires Positive(data) && liters <= 0
    ensures Hits(data, Subsets(|data|, idx), liters) == (if liters == 0 then 1 else 0)
    ensures SizedHits(data, Subsets(|data|, idx), liters, size) == (if liters == 0 && size == 0 then 1 else 0)
    decreases |data| - idx
  {
    if idx < |data| {
      var rest := Subsets(|data|, idx + 1);
      HitsAppend(data, Prepend(idx, rest), rest, liters, size);
      HitsPrepend(data, idx, rest, liters, if size > 0 then size - 1 else 0);
      NonPositiveHits(data, idx + 1, liters - data[idx], if size > 0 then size - 1 else 0);
      NonPositiveHits(data, idx + 1, liters, size);
    } else {
      assert Subsets(|data|, idx) == [[]];
    }
  }

  /** With positive sizes and something to fill, the step counts the
      combinations of `idx..` that hold exactly `liters`. */
  lemma {:induction false} Part1Counts(data: seq<nat>, idx: nat, liters: nat)
    requires Positive(data) && liters > 0
    ensures Part1Step(data, idx, liters) == Hits(data, Subsets(|data|, idx), liters)
    decreases |data| - idx
  {
    if idx < |data| {
      var rest := Subsets(|data|, idx + 1);
      HitsAppend(data, Prepend(idx, rest), rest, liters, 0);
      HitsPrepend(data, idx, rest, liters, 0);
      Part1Counts(data, idx + 1, liters);
      if liters > data[idx] {
        Part1Counts(data, idx + 1, liters - data[idx]);
      } else {
        NonPositiveHits(data, idx + 1, liters - data[idx], 0);
      }
    }
  }

  // ---- Part 2: the counts by number of containers ----

  function Get(counts: map<nat, nat>, k: nat): nat {
    if k in counts then counts[k] else 0
  }

  /** The map of `analyse_part2_step` after its recursion, with the
      increments `*counts.entry(num_used + 1).or_default() += 1`. */
  function Tallied(data: seq<nat>, numUsed: nat, idx: nat, liters: nat, counts: map<nat, nat>): map<nat, nat>
    decreases |data| - idx
  {
    if idx >= |data| then counts
    else
      var container := data[idx];
      var after :=
        if liters > container then Tallied(data, numUsed + 1, idx + 1, liters - container, counts)
        else if liters == container then counts[numUsed + 1 := Get(counts, numUsed + 1) + 1]
        else counts;
      Tallied(data, numUsed, idx + 1, liters, after)
  }

  /** What the step from `numUsed, idx` adds to the count for `k`: the
      combinations of `idx..` of `k - numUsed` containers holding `liters`. */
  function Extra(data: seq<nat>, numUsed: nat, idx: nat, liters: int, k: nat): nat {
    if k >= numUsed then SizedHits(data, Subsets(|data|, idx), liters, k - numUsed) else 0
  }

  /** Past the last container nothing is added. */
  lemma EmptyExtra(data: seq<nat>, numUsed: nat, idx: nat, liters: nat)
    requires idx >= |data| && liters > 0
    ensures forall k: nat :: Extra(data, numUsed, idx, liters, k) == 0
  {
    var none: seq<seq<nat>> := [[]];
    assert Subsets(|data|, idx) == none && none[1..] == [];
    forall k: nat
      ensures Extra(data, numUsed, idx, liters, k) == 0
    {
      if k >= numUsed {
        assert Volume(data, none[0]) == 0;
        assert SizedHits(data, none, liters, k - numUsed) == 0;
      }
    }
  }

  /** Combinations by size split into those taking container `idx` and
      those skipping it. */
  lemma ExtraStep(data: seq<nat>, numUsed: nat, idx: nat, liters: nat, k: nat)
    requires Positive(data) && idx < |data|
    ensures Extra(data, numUsed, idx, liters, k) == Extra(data, numUsed, idx + 1, liters, k)
      + (if liters > data[idx] then Extra(data, numUsed + 1, idx + 1, liters - data[idx], k)
         else if liters == data[idx] && k == numUsed + 1 then 1
         else 0)
  {
    var rest := Subsets(|data|, idx + 1);
    assert Subsets(|data|, idx) == Prepend(idx, rest) + rest;
    if k >= numUsed {
      var size := k - numUsed;
      HitsAppend(data, Prepend(idx, rest), rest, liters, size);
      if size == 0 {
        HitsPrepend(data, idx, rest, liters, 0);
      } else {
        HitsPrepend(data, idx, rest, liters, size - 1);
        assert k - (numUsed + 1) == size - 1;
        if liters <= data[idx] {
          NonPositiveHits(data, idx + 1, liters - data[idx], size - 1);
        }
      }
    }
  }

  /** The step adds `Extra` to every count. */
  lemma {:induction false} TalliedGet(data: seq<nat>, numUsed: nat, idx: nat, liters: nat, counts: map<nat, nat>)
    requires Positive(data) && liters > 0
    ensures forall k: nat :: Get(Tallied(data, numUsed, idx, liters, counts), k) == Get(counts, k) + Extra(data, numUsed, idx, liters, k)
    decreases |data| - idx
  {
    if idx < |data| {
      var container := data[idx];
      var after :=
        if liters > container then Tallied(data, numUsed + 1, idx + 1, liters - container, counts)
        else if liters == container then counts[numUsed + 1 := Get(counts, numUsed + 1) + 1]
        else counts;
      TalliedGet(data, numUsed, idx + 1, liters, after);
      if liters > container {
        TalliedGet(data, numUsed + 1, idx + 1, liters - container, counts);
      }
      forall k: nat
        ensures Get(Tallied(data, numUsed, idx, liters, counts), k) == Get(counts, k) + Extra(data, numUsed, idx, liters, k)
      {
        ExtraStep(data, numUsed, idx, liters, k);
      }
    } else {
      EmptyExtra(data, numUsed, idx, liters);
    }
  }

  /** The step creates an entry exactly where it adds something. */
  lemma {:induction false} TalliedKeys(data: seq<nat>, numUsed: nat, idx: nat, liters: nat, counts: map<nat, nat>)
    requires Positive(data) && liters > 0
    ensures forall k: nat :: k in Tallied(data, numUsed, idx, liters, counts) <==> k in counts || Extra(data, numUsed, idx, liters, k) > 0
    decreases |data| - idx
  {
    if idx < |data| {
      var container := data[idx];
      var after :=
        if liters > container then Tallied(data, numUsed + 1, idx + 1, liters - container, counts)
        else if liters == container then counts[numUsed + 1 := Get(counts, numUsed + 1) + 1]
        else counts;
      TalliedKeys(data, numUsed, idx + 1, liters, after);
      if liters > container {
        TalliedKeys(data, numUsed + 1, idx + 1, liters - container, counts);
      }
      forall k: nat
        ensures k in Tallied(data, numUsed, idx, liters, counts) <==> k in counts || Extra(data, numUsed, idx, liters, k) > 0
      {
        ExtraStep(data, numUsed, idx, liters, k);
      }
    } else {
      EmptyExtra(data, numUsed, idx, liters);
    }
  }

  /** `counts` as `analyse_part2` builds it from an empty map. */
  ghost function Part2Counts(data: seq<nat>): map<nat, nat> {
    Tallied(data, 0, 0, EGGNOG, map[])
  }

  /** `Σ size < bound` of the sized counts. */
  function SizeSum(data: seq<nat>, ss: seq<seq<nat>>, liters: int, bound: nat): nat {
    if bound == 0 then 0 else SizeSum(data, ss, liters, bound - 1) + SizedHits(data, ss, liters, bound - 1)
  }

  /** The sized counts add up to the count when every combination is
      shorter than `bound`. */
  lemma {:induction false} SizeSumIsHits(data: seq<nat>, ss: seq<seq<nat>>, liters: int, bound: nat)
    requires forall k :: 0 <= k < |ss| ==> |ss[k]| < bound
    ensures SizeSum(data, ss, liters, bound) == Hits(data, ss, liters)
    decreases |ss|
  {
    if ss != [] {
      SizeSumIsHits(data, ss[1..], liters, bound);
      SizeSumSplit(data, ss, liters, bound);
    } else {
      SizeSumEmpty(data, liters, bound);
    }
  }

  lemma {:induction false} SizeSumEmpty(data: seq<nat>, liters: int, bound: nat)
    ensures SizeSum(data, [], liters, bound) == 0
    decreases bound
  {
    if bound > 0 {
      SizeSumEmpty(data, liters, bound - 1);
    }
  }

  /** The first combination adds one to the sum when it matches. */
  lemma {:induction false} SizeSumSplit(data: seq<nat>, ss: seq<seq<nat>>, liters: int, bound: nat)
    requires ss != []
    ensures SizeSum(data, ss, liters, bound)
      == SizeSum(data, ss[1..], liters, bound) + (if Volume(data, ss[0]) == liters && |ss[0]| < bound then 1 else 0)
    decreases bound
  {
    if bound > 0 {
      SizeSumSplit(data, ss, liters, bound - 1);
    }
  }

  lemma {:induction false} SubsetsShort(n: nat, idx: nat)
    requires idx <= n
    ensures forall k :: 0 <= k < |Subsets(n, idx)| ==> |Subsets(n, idx)[k]| <= n - idx
    decreases n - idx
  {
    if idx < n {
      SubsetsShort(n, idx + 1);
      var rest := Subsets(n, idx + 1);
      var all := Prepend(idx, rest) + rest;
      assert Subsets(n, idx) == all;
      forall k | 0 <= k < |all|
        ensures |all[k]| <= n - idx
      {
        if k < |rest| {
          assert all[k] == [idx] + rest[k];
        } else {
          assert all[k] == rest[k - |rest|];
        }
      }
    }
  }

  /** Part 2's map: the count for `size` is the number of combinations of
      `size` containers, keys exist only for sizes that occur, and the
      counts add up to part 1. */
  lemma Part2CountsMeaning(data: seq<nat>)
    requires Positive(data)
    ensures forall size :: Get(Part2Counts(data), size) == SizedHits(data, Subsets(|data|, 0), EGGNOG, size)
    ensures forall size :: size in Part2Counts(data) <==> SizedHits(data, Subsets(|data|, 0), EGGNOG, size) > 0
    ensures SizeSum(data, Subsets(|data|, 0), EGGNOG, |data| + 1) == Part1Step(data, 0, EGGNOG)
  {
    TalliedGet(data, 0, 0, EGGNOG, map[]);
    TalliedKeys(data, 0, 0, EGGNOG, map[]);
    SubsetsShort(|data|, 0);
    SizeSumIsHits(data, Subsets(|data|, 0), EGGNOG, |data| + 1);
    Part1Counts(data, 0, EGGNOG);
  }

  /** The holder of the `&mut HashMap` that the recursion fills. */
  class Tally {
    var counts: map<nat, nat>

    constructor ()
      ensures counts == map[]
    {
      counts := map[];
    }
  }

  /** `analyse_part2_step` itself. */
  method Part2Step(data: seq<nat>, numUsed: nat, idx: nat, liters: nat, tally: Tally)
    modifies tally
    ensures tally.counts == Tallied(data, numUsed, idx, liters, old(tally.counts))
    decreases |data| - idx
  {
    if idx < |data| {
      var container := data[idx];
      if liters > container {
        Part2Step(data, numUsed + 1, idx + 1, liters - container, tally);
      } else if liters == container {
        tally.counts := tally.counts[numUsed + 1 := Get(tally.counts, numUsed + 1) + 1];
      }
      Part2Step(data, numUsed, idx + 1, liters, tally);
    }
  }

  /** `counts.iter().min_by_key(key).map(value)`: the count under the
      smallest key, none for an empty map. */
  method SmallestKeyCount(counts: map<nat, nat>) returns (r: Option<nat>)
    ensures r.None? <==> counts == map[]
    ensures r.Some? ==> exists k :: k in counts && counts[k] == r.value && forall j :: j in counts ==> k <= j
  {
    r := None;
    var best: nat := 0;
    var remaining := counts.Keys;
    while remaining != {}
      invariant remaining <= counts.Keys
      invariant r.None? <==> remaining == counts.Keys
      invariant r.Some? ==>
        best in counts && counts[best] == r.value && forall j :: j in counts && j !in remaining ==> best <= j
      decreases remaining
    {
      var k :| k in remaining;
      if r.None? || k < best {
        best := k;
        r := Some(counts[k]);
      }
      remaining := remaining - {k};
    }
    if counts != map[] {
      assert r.Some?;
    } else {
      assert counts.Keys == {};
    }
  }

  class Solution {
    var data: seq<nat>
    var answerPart1: Option<nat>
    var answerPart2: Option<nat>

    constructor ()
      ensures data == [] && answerPart1 == None && answerPart2 == None
    {
      data := [];
      answerPart1 := None;
      answerPart2 := None;
    }

    /** `add`: appends one container size. */
    method Add(container: nat)
      modifies this
      ensures data == old(data) + [container]
      ensures answerPart1 == old(answerPart1) && answerPart2 == old(answerPart2)
    {
      data := data + [container];
    }

    /** `analyse`: part 1 counts the combinations holding 150 litres; part 2
        reports the count for the fewest containers. */
    method Analyse()
      modifies this
      ensures data == old(data)
      ensures answerPart1 == Some(Part1Step(data, 0, EGGNOG))
      ensures answerPart2.None? <==> Part2Counts(data) == map[]
      ensures answerPart2.Some? ==>
        exists size :: size in Part2Counts(data) && Part2Counts(data)[size] == answerPart2.value && forall j :: j in Part2Counts(data) ==> size <= j
    {
      answerPart1 := Some(Part1Step(data, 0, EGGNOG));
      var tally := new Tally();
      Part2Step(data, 0, 0, EGGNOG, tally);
      answerPart2 := SmallestKeyCount(tally.counts);
    }
  }
}
