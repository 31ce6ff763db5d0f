/** Day 5: judging strings nice or naughty under two sets of rules. */
module Day5 {
  import opened Common

  datatype Judgement = Nice | Naughty

  predicate IsVowel(c: char) {
    c == 'a' || c == 'e' || c == 'i' || c == 'o' || c == 'u'
  }

  /** The vowels of `s` at or after index `k`. */
  function VowelsFrom(s: string, k: nat): (n: nat)
    requires k <= |s|
    ensures n <= |s| - k
    decreases |s| - k
  {
    if k == |s| then 0 else (if IsVowel(s[k]) then 1 else 0) + VowelsFrom(s, k + 1)
  }

  /** `Judgement1::count_vowels`. */
  function CountVowels(s: string): nat {
    VowelsFrom(s, 0)
  }

  /** Characters that are not vowels do not change the count. */
  lemma {:induction false} VowelsSkip(s: string, k: nat, j: nat)
    requires k <= j <= |s|
    requires forall i :: k <= i < j ==> !IsVowel(s[i])
    ensures VowelsFrom(s, k) == VowelsFrom(s, j)
    decreases j - k
  {
    if k < j {
      VowelsSkip(s, k + 1, j);
    }
  }

  /** The vowel count is the sum of the counts of the five vowels. */
  lemma {:induction false} VowelsFromIsSum(s: string, k: nat)
    requires k <= |s|
    ensures var t := s[k..];
      VowelsFrom(s, k) == Count(t, 'a') + Count(t, 'e') + Count(t, 'i') + Count(t, 'o') + Count(t, 'u')
    decreases |s| - k
  {
    if k < |s| {
      VowelsFromIsSum(s, k + 1);
      assert s[k..][1..] == s[k + 1..];
    }
  }

  lemma CountVowelsIsSum(s: string)
    ensures CountVowels(s) == Count(s, 'a') + Count(s, 'e') + Count(s, 'i') + Count(s, 'o') + Count(s, 'u')
  {
    VowelsFromIsSum(s, 0);
    assert s[0..] == s;
  }

  /** `t` occurs in `s` starting at index `i`. */
  predicate OccursAt(s: string, t: string, i: int) {
    0 <= i && i + |t| <= |s| && s[i..i + |t|] == t
  }

  /** `t` occurs in `s` at or after index `k`. */
  function ContainsFrom(s: string, t: string, k: nat): bool
    decreases |s| - k
  {
    k + |t| <= |s| && (s[k..k + |t|] == t || ContainsFrom(s, t, k + 1))
  }

  /** `str::contains`. */
  function Contains(s: string, t: string): bool {
    ContainsFrom(s, t, 0)
  }

  lemma {:induction false} ContainsFromIff(s: string, t: string, k: nat)
    ensures ContainsFrom(s, t, k) <==> exists i :: k <= i && OccursAt(s, t, i)
    decreases |s| - k
  {
    if k + |t| <= |s| {
      ContainsFromIff(s, t, k + 1);
      assert OccursAt(s, t, k) <==> s[k..k + |t|] == t;
    }
  }

  /** A two-character `t` that is not at any position from `k` on is not
      contained from `k` on. */
  lemma {:induction false} NoPairFrom(s: string, t: string, k: nat)
    requires |t| == 2
    requires forall i :: k <= i < |s| - 1 ==> s[i] != t[0] || s[i + 1] != t[1]
    ensures !ContainsFrom(s, t, k)
    decreases |s| - k
  {
    if k + 2 <= |s| {
      assert s[k..k + 2] != t by {
        assert s[k..k + 2][0] == s[k] && s[k..k + 2][1] == s[k + 1];
      }
      NoPairFrom(s, t, k + 1);
    }
  }

  /** `Judgement1::contains_naughty_part`. */
  function ContainsNaughtyPart(s: string): bool {
    Contains(s, "ab") || Contains(s, "cd") || Contains(s, "pq") || Contains(s, "xy")
  }

  /** A naughty string contains one of the four forbidden pairs somewhere. */
  lemma ContainsNaughtyPartIff(s: string)
    ensures ContainsNaughtyPart(s) <==>
      exists i :: OccursAt(s, "ab", i) || OccursAt(s, "cd", i) || OccursAt(s, "pq", i) || OccursAt(s, "xy", i)
  {
    ContainsFromIff(s, "ab", 0);
    ContainsFromIff(s, "cd", 0);
    ContainsFromIff(s, "pq", 0);
    ContainsFromIff(s, "xy", 0);
  }

  /** The characters at `i` and `i + 1` are equal. */
  predicate DoubleAt(s: string, i: int) {
    0 <= i < |s| - 1 && s[i] == s[i + 1]
  }

  /** Some double letter starts at or after index `k`. */
  function DoubleFrom(s: string, k: nat): bool
    decreases |s| - k
  {
    k + 1 < |s| && (s[k] == s[k + 1] || DoubleFrom(s, k + 1))
  }

  function HasDouble(s: string): bool {
    DoubleFrom(s, 0)
  }

  lemma {:induction false} DoubleFromIff(s: string, k: nat)
    ensures DoubleFrom(s, k) <==> exists i :: k <= i && DoubleAt(s, i)
    decreases |s| - k
  {
    if k + 1 < |s| {
      DoubleFromIff(s, k + 1);
      if s[k] == s[k + 1] {
        assert DoubleAt(s, k);
      }
    }
  }

  /** `Judgement1::contains_pair`: stops at the first character equal to its
      predecessor. */
  method ContainsPair(s: string) returns (found: bool)
    ensures found <==> exists i :: DoubleAt(s, i)
  {
    var last: Option<char> := None;
    var i := 0;
    while i < |s|
      invariant 0 <= i <= |s|
      invariant last == if i == 0 then None else Some(s[i - 1])
      invariant forall k :: 0 <= k < i - 1 ==> !DoubleAt(s, k)
    {
      var c := s[i];
      match last {
        case Some(lastC) =>
          if c == lastC {
            assert DoubleAt(s, i - 1);
            return true;
          }
        case None =>
      }
      last := Some(c);
      i := i + 1;
    }
    return false;
  }

  /** The first rule set, stated on the string. */
  predicate IsNice1(s: string) {
    CountVowels(s) >= 3 && !ContainsNaughtyPart(s) && HasDouble(s)
  }

  /** `Judgement1::from_str`. */
  method Judge1(s: string) returns (judgement: Judgement)
    ensures judgement == Nice <==> IsNice1(s)
  {
    var numVowels := CountVowels(s);
    var containsNaughty := ContainsNaughtyPart(s);
    var containsPair := ContainsPair(s);
    DoubleFromIff(s, 0);
    judgement := if numVowels >= 3 && !containsNaughty && containsPair then Nice else Naughty;
  }

  /** The characters at `i` and `i + 2` are equal. */
  predicate JumpAt(s: string, i: int) {
    0 <= i < |s| - 2 && s[i] == s[i + 2]
  }

  function JumpFrom(s: string, k: nat): bool
    decreases |s| - k
  {
    k + 2 < |s| && (s[k] == s[k + 2] || JumpFrom(s, k + 1))
  }

  function HasJump(s: string): bool {
    JumpFrom(s, 0)
  }

  lemma {:induction false} JumpFromIff(s: string, k: nat)
    ensures JumpFrom(s, k) <==> exists i :: k <= i && JumpAt(s, i)
    decreases |s| - k
  {
    if k + 2 < |s| {
      JumpFromIff(s, k + 1);
      if s[k] == s[k + 2] {
        assert JumpAt(s, k);
      }
    }
  }

  /** `Judgement2::has_jump_pair`: compares each character with the one two
      places back. */
  method HasJumpPair(s: string) returns (found: bool)
    ensures found <==> exists i :: JumpAt(s, i)
  {
    var last2: Option<char> := None;
    var last1: Option<char> := None;
    var i := 0;
    while i < |s|
      invariant 0 <= i <= |s|
      invariant last1 == if i == 0 then None else Some(s[i - 1])
      invariant last2 == if i <= 1 then None else Some(s[i - 2])
      invariant forall k :: 0 <= k < i - 2 ==> !JumpAt(s, k)
    {
      var c := s[i];
      if last2.Some? && last2.value == c {
        assert JumpAt(s, i - 2);
        return true;
      }
      last2 := last1;
      last1 := Some(c);
      i := i + 1;
    }
    return false;
  }

  /** The pair `p` starts at index `k` of `s`. */
  predicate PairAt(s: string, k: int, p: (char, char)) {
    0 <= k < |s| - 1 && s[k] == p.0 && s[k + 1] == p.1
  }

  /** The pairs starting at `i` and at `j` are equal and do not overlap. */
  predicate RepeatAt(s: string, i: int, j: int) {
    0 <= i && i + 2 <= j < |s| - 1 && s[i] == s[j] && s[i + 1] == s[j + 1]
  }

  /** The pair (a, b) starts at or after index `k`. */
  function PairFrom(a: char, b: char, s: string, k: nat): bool
    decreases |s| - k
  {
    k + 1 < |s| && ((s[k] == a && s[k + 1] == b) || PairFrom(a, b, s, k + 1))
  }

  /** Some pair starting at or after `k` occurs again later without
      overlap. */
  function RepeatFrom(s: string, k: nat): bool
    decreases |s| - k
  {
    k + 3 < |s| && (PairFrom(s[k], s[k + 1], s, k + 2) || RepeatFrom(s, k + 1))
  }

  function HasRepeatedPair(s: string): bool {
    RepeatFrom(s, 0)
  }

  lemma {:induction false} PairFromIff(a: char, b: char, s: string, k: nat)
    ensures PairFrom(a, b, s, k) <==> exists j :: k <= j && PairAt(s, j, (a, b))
    decreases |s| - k
  {
    if k + 1 < |s| {
      PairFromIff(a, b, s, k + 1);
      if s[k] == a && s[k + 1] == b {
        assert PairAt(s, k, (a, b));
      }
    }
  }

  lemma {:induction false} RepeatFromIff(s: string, k: nat)
    ensures RepeatFrom(s, k) <==> exists i, j :: k <= i && RepeatAt(s, i, j)
    decreases |s| - k
  {
    if k + 3 < |s| {
      RepeatFromIff(s, k + 1);
      PairFromIff(s[k], s[k + 1], s, k + 2);
      var p := (s[k], s[k + 1]);
      if j :| k + 2 <= j && PairAt(s, j, p) {
        assert RepeatAt(s, k, j);
      }
      if i, j :| k <= i && RepeatAt(s, i, j) {
        if i == k {
          assert PairAt(s, j, (s[k], s[k + 1]));
        } else {
          assert k + 1 <= i;
        }
      }
    } else {
      if i, j :| k <= i && RepeatAt(s, i, j) {
        assert false;
      }
    }
  }

  /** The start positions recorded for `p` before `scanned`: all of them
      are occurrences of `p`, in increasing order of recording; the code only
      ever reads the first and the last. */
  predicate RecordOk(s: string, p: (char, char), positions: seq<nat>, scanned: int) {
    positions != [] && PairAt(s, positions[0], p) && PairAt(s, Last(positions), p)
    && positions[0] <= Last(positions) < scanned
  }

  /** `pairs` holds the start positions of every pair starting before
      `scanned`. */
  ghost predicate PairsRecorded(s: string, pairs: map<(char, char), seq<nat>>, scanned: int) {
    (forall p :: p in pairs ==> RecordOk(s, p, pairs[p], scanned))
    && forall k, p :: k < scanned && PairAt(s, k, p) ==> p in pairs && pairs[p][0] <= k <= Last(pairs[p])
  }

  function Last(positions: seq<nat>): nat
    requires positions != []
  {
    positions[|positions| - 1]
  }

  /** One step of the recording loop: the pair starting at `i` is appended
      to its list. */
  lemma RecordStep(s: string, pairs: map<(char, char), seq<nat>>, i: nat)
    requires i < |s| - 1 && PairsRecorded(s, pairs, i)
    ensures var key := (s[i], s[i + 1]);
      PairsRecorded(s, pairs[key := (if key in pairs then pairs[key] else []) + [i]], i + 1)
  {
    var key := (s[i], s[i + 1]);
    var positions := (if key in pairs then pairs[key] else []) + [i];
    var next := pairs[key := positions];
    assert Last(positions) == i;
    assert RecordOk(s, key, positions, i + 1);
    forall k, p | k < i + 1 && PairAt(s, k, p) ensures p in next && next[p][0] <= k <= Last(next[p]) {
      if k == i {
        assert p == key;
      }
    }
  }

  /** A list of positions whose first and last entries are two apart. */
  predicate Distant(positions: seq<nat>) {
    |positions| >= 2 && Last(positions) - positions[0] >= 2
  }

  /** The first loop of `has_duplicate_pair`: the start positions of every
      pair of adjacent characters, grouped by pair. */
  method RecordPairs(s: string) returns (pairs: map<(char, char), seq<nat>>)
    ensures PairsRecorded(s, pairs, |s| - 1)
  {
    var last: Option<char> := None;
    pairs := map[];
    var idx := 0;
    while idx < |s|
      invariant 0 <= idx <= |s|
      invariant last == if idx == 0 then None else Some(s[idx - 1])
      invariant PairsRecorded(s, pairs, idx - 1)
    {
      var c := s[idx];
      if last.Some? {
        RecordStep(s, pairs, idx - 1);
        var key := (last.value, c);
        var positions := if key in pairs then pairs[key] else [];
        pairs := pairs[key := positions + [idx - 1]];
      }
      last := Some(c);
      idx := idx + 1;
    }
  }

  /** The `filter`/`any` over the recorded pairs. */
  method AnyDistant(pairs: map<(char, char), seq<nat>>) returns (found: bool)
    ensures found <==> exists p :: p in pairs && Distant(pairs[p])
  {
    var keys := pairs.Keys;
    while keys != {}
      invariant keys <= pairs.Keys
      invariant forall p :: p in pairs.Keys - keys ==> !Distant(pairs[p])
      decreases |keys|
    {
      var p :| p in keys;
      var positions := pairs[p];
      if |positions| >= 2 && positions[|positions| - 1] >= positions[0] + 2 {
        return true;
      }
      keys := keys - {p};
    }
    return false;
  }

  /** With every pair recorded, a pair with distant positions exists exactly
      when some pair repeats without overlap. */
  lemma DistantIffRepeated(s: string, pairs: map<(char, char), seq<nat>>)
    requires PairsRecorded(s, pairs, |s| - 1)
    ensures (exists p :: p in pairs && Distant(pairs[p])) <==> exists i, j :: RepeatAt(s, i, j)
  {
    if p :| p in pairs && Distant(pairs[p]) {
      assert RecordOk(s, p, pairs[p], |s| - 1);
      assert RepeatAt(s, pairs[p][0], Last(pairs[p]));
    }
    if i, j :| RepeatAt(s, i, j) {
      var p := (s[i], s[i + 1]);
      assert PairAt(s, i, p) && PairAt(s, j, p);
      assert RecordOk(s, p, pairs[p], |s| - 1);
      assert Distant(pairs[p]);
    }
  }

  /** `Judgement2::has_duplicate_pair`: records the start positions of every
      pair of adjacent characters, then looks for a pair whose first and last
      positions are at least two apart. */
  method HasDuplicatePair(s: string) returns (found: bool)
    ensures found <==> exists i, j :: RepeatAt(s, i, j)
  {
    var pairs := RecordPairs(s);
    found := AnyDistant(pairs);
    DistantIffRepeated(s, pairs);
  }

  /** The second rule set, stated on the string. */
  predicate IsNice2(s: string) {
    HasRepeatedPair(s) && HasJump(s)
  }

  /** `Judgement2::from_str`. */
  method Judge2(s: string) returns (judgement: Judgement)
    ensures judgement == Nice <==> IsNice2(s)
  {
    var hasDuplicatePair := HasDuplicatePair(s);
    var hasJumpPair := HasJumpPair(s);
    RepeatFromIff(s, 0);
    JumpFromIff(s, 0);
    judgement := if hasDuplicatePair && hasJumpPair then Nice else Naughty;
  }

  lemma KnownNicePart1()
    ensures IsNice1("aaa")
  {
  }

  lemma KnownNaughtyPart1()
    ensures !IsNice1("jchzalrnumimnmhp")
  {
    var s := "jchzalrnumimnmhp";
    assert forall i :: 0 <= i < |s| - 1 ==> s[i] != s[i + 1];
    DoubleFromIff(s, 0);
  }

  lemma NiceResultPart1()
    ensures IsNice1("ugknbfddgicrmopn")
  {
    NiceVowels();
    NiceClean();
    NiceDouble();
  }

  lemma NiceVowels()
    ensures CountVowels("ugknbfddgicrmopn") == 3
  {
    var s := "ugknbfddgicrmopn";
    VowelsSkip(s, 14, 16);
    assert VowelsFrom(s, 13) == 1;
    VowelsSkip(s, 10, 13);
    assert VowelsFrom(s, 9) == 2;
    VowelsSkip(s, 1, 9);
  }

  lemma NiceClean()
    ensures !ContainsNaughtyPart("ugknbfddgicrmopn")
  {
    NiceLacks("ab");
    NiceLacks("cd");
    NiceLacks("pq");
    NiceLacks("xy");
  }

  /** Every start position of the nice example is checked against `t`. */
  lemma NiceLacks(t: string)
    requires |t| == 2 && t[0] in "acpx" && t[1] in "bdqy"
    ensures !Contains("ugknbfddgicrmopn", t)
  {
    var s := "ugknbfddgicrmopn";
    assert forall i :: 0 <= i < |s| - 1 ==> s[i] != t[0] || s[i + 1] != t[1];
    NoPairFrom(s, t, 0);
  }

  lemma NiceDouble()
    ensures HasDouble("ugknbfddgicrmopn")
  {
    assert DoubleAt("ugknbfddgicrmopn", 6);
    DoubleFromIff("ugknbfddgicrmopn", 0);
  }

  lemma NaughtyPairPart1()
    ensures !IsNice1("haegwjzuvuyypxyu")
  {
    assert OccursAt("haegwjzuvuyypxyu", "xy", 13);
    ContainsFromIff("haegwjzuvuyypxyu", "xy", 0);
  }

  lemma NaughtyVowelsPart1()
    ensures !IsNice1("dvszwmarrgswjxmb")
  {
    var s := "dvszwmarrgswjxmb";
    VowelsSkip(s, 7, 16);
    assert VowelsFrom(s, 6) == 1;
    VowelsSkip(s, 0, 6);
  }

  lemma KnownNicePart2()
    ensures IsNice2("xxyxx")
  {
  }

  lemma KnownNaughtyPart2()
    ensures !IsNice2("ieodomkazucvgmuy")
  {
    var s := "ieodomkazucvgmuy";
    assert !RepeatFrom(s, 12);
    assert !RepeatFrom(s, 9);
    assert !RepeatFrom(s, 6);
    assert !RepeatFrom(s, 3);
    assert !RepeatFrom(s, 0);
  }

  lemma MoreNicePart2()
    ensures IsNice2("qjhvhtzxzqqjkmpb")
  {
  }

  lemma MoreNaughtyPart2()
    ensures !IsNice2("uurcxstgmygtbstg")
  {
    var s := "uurcxstgmygtbstg";
    assert forall i :: 0 <= i < |s| - 2 ==> s[i] != s[i + 2];
    JumpFromIff(s, 0);
  }

  class Solution {
    var strings: seq<string>
    var answerPart1: Option<int>
    var answerPart2: Option<int>

    constructor ()
      ensures strings == [] && answerPart1 == None && answerPart2 == None
    {
      strings := [];
      answerPart1 := None;
      answerPart2 := None;
    }

    /** `Solution::add_string`. */
    method AddString(input: string)
      modifies this
      ensures strings == old(strings) + [input]
      ensures answerPart1 == old(answerPart1) && answerPart2 == old(answerPart2)
    {
      strings := strings + [input];
    }

    /** `Solution::analyse`: each answer is the size of the nice side of a
        partition by one rule set. */
    method Analyse()
      modifies this
      ensures strings == old(strings)
      ensures answerPart1 == Some(CountIf(strings, IsNice1))
      ensures answerPart2 == Some(CountIf(strings, IsNice2))
    {
      var nice1, nice2 := 0, 0;
      var i := 0;
      while i < |strings|
        invariant 0 <= i <= |strings|
        invariant nice1 == CountIf(strings[..i], IsNice1)
        invariant nice2 == CountIf(strings[..i], IsNice2)
        invariant strings == old(strings)
      {
        assert strings[..i + 1][..i] == strings[..i];
        var j1 := Judge1(strings[i]);
        var j2 := Judge2(strings[i]);
        if j1 == Nice {
          nice1 := nice1 + 1;
        }
        if j2 == Nice {
          nice2 := nice2 + 1;
        }
        i := i + 1;
      }
      assert strings[..i] == strings;
      answerPart1 := Some(nice1);
      answerPart2 := Some(nice2);
    }
  }
}
