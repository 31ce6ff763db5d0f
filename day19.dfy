/** Day 19: a machine replaces one occurrence of a rule's source with its
    target. Part 1 counts the distinct molecules one replacement can make
    from the medicine molecule; part 2 reduces the medicine back to "e"
    greedily, one reverse replacement at a time, and counts the steps.
    Molecules are sequences of any element type here; the solution uses
    characters. */
module Day19 {
  import opened Common

  /** One line "source => target". */
  datatype Rule<C> = Rule(source: seq<C>, target: seq<C>)

  /** `part == m[idx..idx + part.len()]`, with the bound checked first. */
  predicate OccursAt<C(==)>(m: seq<C>, idx: nat, part: seq<C>) {
    idx + |part| <= |m| && m[idx..idx + |part|] == part
  }

  /** `m` with the `|part|` elements at `idx` replaced by `repl`. */
  function Replace<C>(m: seq<C>, idx: nat, part: seq<C>, repl: seq<C>): (r: seq<C>)
    requires idx + |part| <= |m|
    ensures |r| == |m| - |part| + |repl|
  {
    m[..idx] + repl + m[idx + |part|..]
  }

  /** Replacing back restores the molecule. */
  lemma ReplaceBack<C>(m: seq<C>, idx: nat, part: seq<C>, repl: seq<C>)
    requires OccursAt(m, idx, part)
    ensures OccursAt(Replace(m, idx, part, repl), idx, repl)
    ensures Replace(Replace(m, idx, part, repl), idx, repl, part) == m
  {
    var r := Replace(m, idx, part, repl);
    assert r[idx..idx + |repl|] == repl;
    assert r[..idx] == m[..idx];
    assert r[idx + |repl|..] == m[idx + |part|..];
    assert m == m[..idx] + m[idx..idx + |part|] + m[idx + |part|..];
  }

  /** The two branches of `analyse_part1`'s `format!`: when the source ends
      the molecule, the trailing slice is left out. */
  function Resultant<C>(m: seq<C>, idx: nat, source: seq<C>, target: seq<C>): seq<C>
    requires idx + |source| <= |m|
  {
    if idx + |source| < |m| then m[..idx] + target + m[idx + |source|..]
    else m[..idx] + target
  }

  /** Both branches compute the same molecule. */
  lemma ResultantIsReplace<C>(m: seq<C>, idx: nat, source: seq<C>, target: seq<C>)
    requires idx + |source| <= |m|
    ensures Resultant(m, idx, source, target) == Replace(m, idx, source, target)
  {
    if idx + |source| == |m| {
      assert m[idx + |source|..] == [];
    }
  }

  // ---- Part 1 ----

  /** The positions `(idx, rule)` with `idx < a` and `rule < b`. */
  ghost function Grid(a: nat, b: nat): set<(nat, nat)> {
    set i: nat, j: nat | i < a && j < b :: (i, j)
  }

  /** Rule `p.1`'s source occurs at position `p.0`. */
  ghost predicate Applies<C>(m: seq<C>, rules: seq<Rule<C>>, p: (nat, nat)) {
    p.1 < |rules| && OccursAt(m, p.0, rules[p.1].source)
  }

  /** The molecules made by the applicable positions of `places`. */
  ghost function ResultantsOf<C>(m: seq<C>, rules: seq<Rule<C>>, places: set<(nat, nat)>): set<seq<C>> {
    set p | p in places && Applies(m, rules, p) :: Replace(m, p.0, rules[p.1].source, rules[p.1].target)
  }

  /** Every molecule one replacement makes, for a start before the end. */
  ghost function Resultants<C>(m: seq<C>, rules: seq<Rule<C>>): set<seq<C>> {
    ResultantsOf(m, rules, Grid(|m|, |rules|))
  }

  /** Every (position, rule) match. */
  ghost function Places<C>(m: seq<C>, rules: seq<Rule<C>>): set<(nat, nat)> {
    MatchesOf(m, rules, Grid(|m|, |rules|))
  }

  lemma ResultantsAdd<C>(m: seq<C>, rules: seq<Rule<C>>, places: set<(nat, nat)>, p: (nat, nat))
    ensures ResultantsOf(m, rules, places + {p}) == ResultantsOf(m, rules, places)
      + (if Applies(m, rules, p) then {Replace(m, p.0, rules[p.1].source, rules[p.1].target)} else {})
  {
  }

  /** The applicable positions of `places`. */
  ghost function MatchesOf<C>(m: seq<C>, rules: seq<Rule<C>>, places: set<(nat, nat)>): set<(nat, nat)> {
    set p | p in places && Applies(m, rules, p)
  }

  lemma MatchesAdd<C>(m: seq<C>, rules: seq<Rule<C>>, places: set<(nat, nat)>, p: (nat, nat))
    ensures MatchesOf(m, rules, places + {p}) == MatchesOf(m, rules, places) + (if Applies(m, rules, p) then {p} else {})
  {
  }

  /** No more distinct molecules than matches. */
  lemma {:induction false} ResultantsBound<C>(m: seq<C>, rules: seq<Rule<C>>, places: set<(nat, nat)>)
    ensures |ResultantsOf(m, rules, places)| <= |MatchesOf(m, rules, places)|
    decreases places
  {
    if places != {} {
      var p :| p in places;
      var rest := places - {p};
      ResultantsBound(m, rules, rest);
      assert places == rest + {p};
      ResultantsAdd(m, rules, rest, p);
      MatchesAdd(m, rules, rest, p);
      var made := ResultantsOf(m, rules, rest);
      var matches := MatchesOf(m, rules, rest);
      if Applies(m, rules, p) {
        var x := Replace(m, p.0, rules[p.1].source, rules[p.1].target);
        assert |made + {x}| <= |made| + 1;
        assert p !in matches;
        assert |matches + {p}| == |matches| + 1;
      }
    }
  }

  /** The answer of part 1 is at most the number of matches. */
  lemma DistinctAtMostMatches<C>(m: seq<C>, rules: seq<Rule<C>>)
    ensures |Resultants(m, rules)| <= |Places(m, rules)|
  {
    ResultantsBound(m, rules, Grid(|m|, |rules|));
  }

  /** A molecule is in the part 1 set exactly when some rule's source
      occurs at a start before the end and replacing it there gives it. */
  lemma ResultantMembers<C>(m: seq<C>, rules: seq<Rule<C>>, x: seq<C>)
    ensures x in Resultants(m, rules) <==>
      exists i: nat, k: nat :: i < |m| && k < |rules| && OccursAt(m, i, rules[k].source)
        && x == Replace(m, i, rules[k].source, rules[k].target)
  {
    if x in Resultants(m, rules) {
      var p :| p in Grid(|m|, |rules|) && Applies(m, rules, p) && x == Replace(m, p.0, rules[p.1].source, rules[p.1].target);
      assert p.0 < |m| && p.1 < |rules|;
    } else {
      forall i: nat, k: nat | i < |m| && k < |rules| && OccursAt(m, i, rules[k].source)
        ensures x != Replace(m, i, rules[k].source, rules[k].target)
      {
        assert (i, k) in Grid(|m|, |rules|);
      }
    }
  }

  /** The rows up to `a` and the first `k` rules of row `a`. */
  lemma GridStep(a: nat, b: nat, k: nat)
    requires k <= b
    ensures Grid(a, b) + (set j: nat | j < k :: (a, j)) + {(a, k)} == Grid(a, b) + (set j: nat | j < k + 1 :: (a, j))
    ensures k == b ==> Grid(a, b) + (set j: nat | j < k :: (a, j)) == Grid(a + 1, b)
  {
    if k == b {
      forall i: nat, j: nat | i < a + 1 && j < b
        ensures (i, j) in Grid(a, b) + (set j: nat | j < k :: (a, j))
      {
        if i < a {
          assert (i, j) in Grid(a, b);
        }
      }
    }
  }

  /** `analyse_part1`: every start before the end and every rule, inserting
      each molecule made into `resultants`. */
  method DistinctResultants<C(==)>(m: seq<C>, rules: seq<Rule<C>>) returns (resultants: set<seq<C>>)
    ensures resultants == Resultants(m, rules)
  {
    resultants := {};
    ghost var seen: set<(nat, nat)> := {};
    var idx := 0;
    while idx < |m|
      invariant 0 <= idx <= |m|
      invariant seen == Grid(idx, |rules|)
      invariant resultants == ResultantsOf(m, rules, seen)
    {
      var k := 0;
      while k < |rules|
        invariant 0 <= k <= |rules|
        invariant seen == Grid(idx, |rules|) + (set j: nat | j < k :: (idx, j))
        invariant resultants == ResultantsOf(m, rules, seen)
      {
        var source := rules[k].source;
        var target := rules[k].target;
        if idx + |source| <= |m| && source == m[idx..idx + |source|] {
          var made := Resultant(m, idx, source, target);
          ResultantIsReplace(m, idx, source, target);
          resultants := resultants + {made};
        }
        ResultantsAdd(m, rules, seen, (idx, k));
        GridStep(idx, |rules|, k);
        seen := seen + {(idx, k)};
        k := k + 1;
      }
      GridStep(idx, |rules|, k);
      idx := idx + 1;
    }
  }

  // ---- Part 2 ----

  /** The first start at or after `from` where `part` occurs, as `find`
      (and so `contains` and `replacen(.., 1)`) sees it. */
  function FirstOccurrence<C(==)>(m: seq<C>, part: seq<C>, from: nat): Option<nat>
    decreases |m| - from
  {
    if from + |part| > |m| then None
    else if m[from..from + |part|] == part then Some(from)
    else FirstOccurrence(m, part, from + 1)
  }

  lemma {:induction false} FirstOccurrenceMeaning<C>(m: seq<C>, part: seq<C>, from: nat)
    ensures FirstOccurrence(m, part, from).Some? ==>
      var i := FirstOccurrence(m, part, from).value;
      from <= i && OccursAt(m, i, part) && forall j :: from <= j < i ==> !OccursAt(m, j, part)
    ensures FirstOccurrence(m, part, from).None? ==> forall j :: from <= j ==> !OccursAt(m, j, part)
    decreases |m| - from
  {
    if from + |part| <= |m| && m[from..from + |part|] != part {
      FirstOccurrenceMeaning(m, part, from + 1);
    }
  }

  /** `m.contains(part)`. */
  function Contains<C(==)>(m: seq<C>, part: seq<C>): bool {
    FirstOccurrence(m, part, 0).Some?
  }

  /** `m.replacen(part, repl, 1)`: the first occurrence only. */
  function ReplaceFirst<C(==)>(m: seq<C>, part: seq<C>, repl: seq<C>): seq<C> {
    match FirstOccurrence(m, part, 0)
    case None => m
    case Some(i) =>
      FirstOccurrenceMeaning(m, part, 0);
      Replace(m, i, part, repl)
  }

  /** The rule the selection loop holds after looking at `rules[..k]`: a
      rule whose target is shorter than the held one is skipped, otherwise
      it is taken when the molecule contains its target. */
  function Chosen<C(==)>(rules: seq<Rule<C>>, cur: seq<C>, k: nat): (best: Option<nat>)
    requires k <= |rules|
    ensures best.Some? ==> best.value < k
  {
    if k == 0 then None
    else
      var best := Chosen(rules, cur, k - 1);
      var target := rules[k - 1].target;
      if best.Some? && |rules[best.value].target| > |target| then best
      else if Contains(cur, target) then Some(k - 1)
      else best
  }

  /** The loop picks a rule exactly when some target occurs; then the one
      with the longest target that occurs, the later of equal ones. */
  lemma {:induction false} ChosenMeaning<C>(rules: seq<Rule<C>>, cur: seq<C>, k: nat)
    requires k <= |rules|
    ensures Chosen(rules, cur, k).None? <==> forall j :: 0 <= j < k ==> !Contains(cur, rules[j].target)
    ensures Chosen(rules, cur, k).Some? ==>
      var b := Chosen(rules, cur, k).value;
      Contains(cur, rules[b].target)
      && (forall j :: 0 <= j < k && Contains(cur, rules[j].target) ==> |rules[j].target| <= |rules[b].target|)
      && (forall j :: b < j < k && Contains(cur, rules[j].target) ==> |rules[j].target| < |rules[b].target|)
    decreases k
  {
    if k > 0 {
      ChosenMeaning(rules, cur, k - 1);
    }
  }

  /** `best_source` / `best_target` of `analyse_part2_step`, as the index of
      the rule they refer to. */
  method SelectRule<C(==)>(rules: seq<Rule<C>>, cur: seq<C>) returns (best: Option<nat>)
    ensures best == Chosen(rules, cur, |rules|)
  {
    best := None;
    var k := 0;
    while k < |rules|
      invariant 0 <= k <= |rules|
      invariant best == Chosen(rules, cur, k)
    {
      var target := rules[k].target;
      if best.None? || |rules[best.value].target| <= |target| {
        if Contains(cur, target) {
          best := Some(k);
        }
      }
      k := k + 1;
    }
  }

  /** How the reduction ends: at the goal after `changes` steps, at a
      panic (a molecule of at most one element that is not the goal, or no
      target occurring), or when the fuel bound runs out. */
  datatype Outcome = Reached(changes: nat) | Stuck | Exhausted

  /** `analyse_part2_step(cur, changes)`, allowed `fuel` more steps. */
  function Reduction<C(==)>(rules: seq<Rule<C>>, goal: seq<C>, cur: seq<C>, changes: nat, fuel: nat): Outcome
    decreases fuel
  {
    if cur == goal then Reached(changes)
    else if |cur| <= 1 then Stuck
    else
      match Chosen(rules, cur, |rules|)
      case None => Stuck
      case Some(k) =>
        if fuel == 0 then Exhausted
        else Reduction(rules, goal, ReplaceFirst(cur, rules[k].target, rules[k].source), changes + 1, fuel - 1)
  }

  method ReductionStep<C(==)>(rules: seq<Rule<C>>, goal: seq<C>, cur: seq<C>, changes: nat, fuel: nat) returns (r: Outcome)
    ensures r == Reduction(rules, goal, cur, changes, fuel)
    decreases fuel
  {
    if cur == goal {
      return Reached(changes);
    }
    if |cur| <= 1 {
      return Stuck;
    }
    var best := SelectRule(rules, cur);
    match best {
      case None =>
        r := Stuck;
      case Some(k) =>
        if fuel == 0 {
          r := Exhausted;
        } else {
          var next := ReplaceFirst(cur, rules[k].target, rules[k].source);
          r := ReductionStep(rules, goal, next, changes + 1, fuel - 1);
        }
    }
  }

  /** Every rule has a non-empty source no longer than its target, as the
      parser's pattern and the test in `load` make sure. */
  predicate Shrinking<C>(rules: seq<Rule<C>>) {
    forall k :: 0 <= k < |rules| ==> 0 < |rules[k].source| <= |rules[k].target|
  }

  /** A step of the reduction never lengthens the molecule. */
  lemma StepNeverLengthens<C>(rules: seq<Rule<C>>, cur: seq<C>, k: nat)
    requires Shrinking(rules) && k < |rules|
    ensures |ReplaceFirst(cur, rules[k].target, rules[k].source)| <= |cur|
  {
  }

  /** The step panics on a molecule other than the goal of at most one
      element, or one holding no rule's target. */
  lemma StuckWhen<C>(rules: seq<Rule<C>>, goal: seq<C>, cur: seq<C>, changes: nat, fuel: nat)
    ensures cur != goal && (|cur| <= 1 || forall j :: 0 <= j < |rules| ==> !Contains(cur, rules[j].target)) ==>
      Reduction(rules, goal, cur, changes, fuel) == Stuck
  {
    ChosenMeaning(rules, cur, |rules|);
  }

  /** Since no step lengthens the molecule, the goal reached is no longer
      than the molecule the reduction starts from. */
  lemma {:induction false} ReachedNeverLonger<C>(rules: seq<Rule<C>>, goal: seq<C>, cur: seq<C>, changes: nat, fuel: nat)
    requires Shrinking(rules) && Reduction(rules, goal, cur, changes, fuel).Reached?
    ensures |goal| <= |cur|
    decreases fuel
  {
    if cur != goal {
      var k := Chosen(rules, cur, |rules|).value;
      StepNeverLengthens(rules, cur, k);
      ReachedNeverLonger(rules, goal, ReplaceFirst(cur, rules[k].target, rules[k].source), changes + 1, fuel - 1);
    }
  }

  /** The result counts the changes made from here: the starting count
      exactly when the molecule is already the goal. */
  lemma {:induction false} ReachedCount<C>(rules: seq<Rule<C>>, goal: seq<C>, cur: seq<C>, changes: nat, fuel: nat)
    requires Reduction(rules, goal, cur, changes, fuel).Reached?
    ensures changes <= Reduction(rules, goal, cur, changes, fuel).changes <= changes + fuel
    ensures Reduction(rules, goal, cur, changes, fuel).changes == changes <==> cur == goal
    decreases fuel
  {
    if cur != goal {
      var k := Chosen(rules, cur, |rules|).value;
      ReachedCount(rules, goal, ReplaceFirst(cur, rules[k].target, rules[k].source), changes + 1, fuel - 1);
    }
  }

  /** A chain of molecules, each a part 1 resultant of the one before. */
  ghost predicate Derivation<C>(rules: seq<Rule<C>>, chain: seq<seq<C>>) {
    forall i :: 0 <= i < |chain| - 1 ==> chain[i + 1] in Resultants(chain[i], rules)
  }

  lemma DerivationAppend<C>(rules: seq<Rule<C>>, chain: seq<seq<C>>, m: seq<C>)
    requires Derivation(rules, chain) && 0 < |chain| && m in Resultants(chain[|chain| - 1], rules)
    ensures Derivation(rules, chain + [m])
  {
    var longer := chain + [m];
    forall i | 0 <= i < |longer| - 1
      ensures longer[i + 1] in Resultants(longer[i], rules)
    {
      if i < |chain| - 1 {
        assert longer[i] == chain[i] && longer[i + 1] == chain[i + 1];
      }
    }
  }

  /** A reverse step undoes a forward replacement: the molecule before is
      a resultant of the one after. */
  lemma ReverseStep<C>(rules: seq<Rule<C>>, cur: seq<C>, k: nat)
    requires Shrinking(rules) && k < |rules| && Contains(cur, rules[k].target)
    ensures cur in Resultants(ReplaceFirst(cur, rules[k].target, rules[k].source), rules)
  {
    FirstOccurrenceMeaning(cur, rules[k].target, 0);
    var i := FirstOccurrence(cur, rules[k].target, 0).value;
    var next := ReplaceFirst(cur, rules[k].target, rules[k].source);
    ReplaceBack(cur, i, rules[k].target, rules[k].source);
    assert (i, k) in Grid(|next|, |rules|);
    assert Applies(next, rules, (i, k));
  }

  /** When the goal is reached, the steps read backwards are a derivation
      of the molecule from the goal by forward replacements. */
  lemma {:induction false} ReachedIsDerivation<C>(rules: seq<Rule<C>>, goal: seq<C>, cur: seq<C>, changes: nat, fuel: nat)
    returns (chain: seq<seq<C>>)
    requires Shrinking(rules) && Reduction(rules, goal, cur, changes, fuel).Reached?
    ensures 0 < |chain| == Reduction(rules, goal, cur, changes, fuel).changes - changes + 1
    ensures chain[0] == goal && chain[|chain| - 1] == cur
    ensures Derivation(rules, chain)
    decreases fuel
  {
    ReachedCount(rules, goal, cur, changes, fuel);
    if cur == goal {
      chain := [cur];
    } else {
      var k := Chosen(rules, cur, |rules|).value;
      ChosenMeaning(rules, cur, |rules|);
      var next := ReplaceFirst(cur, rules[k].target, rules[k].source);
      var before := ReachedIsDerivation(rules, goal, next, changes + 1, fuel - 1);
      ReverseStep(rules, cur, k);
      chain := before + [cur];
      DerivationAppend(rules, before, cur);
    }
  }

  class Solution {
    var replacements: seq<Rule<char>>
    var molecule: string
    var answerPart1: Option<nat>
    var answerPart2: Option<nat>

    constructor ()
      ensures replacements == [] && molecule == "" && answerPart1 == None && answerPart2 == None
    {
      replacements := [];
      molecule := "";
      answerPart1 := None;
      answerPart2 := None;
    }

    /** `add_replacement`: appends one rule. */
    method AddReplacement(source: string, target: string)
      modifies this
      ensures replacements == old(replacements) + [Rule(source, target)]
      ensures molecule == old(molecule) && answerPart1 == old(answerPart1) && answerPart2 == old(answerPart2)
    {
      replacements := replacements + [Rule(source, target)];
    }

    /** `set_molecule`: the medicine. */
    method SetMolecule(m: string)
      modifies this
      ensures molecule == m
      ensures replacements == old(replacements) && answerPart1 == old(answerPart1) && answerPart2 == old(answerPart2)
    {
      molecule := m;
    }

    /** `analyse`: the number of distinct single replacements, and the
        greedy reduction to "e" within `fuel` steps; `outcome` says how the
        reduction ended, and part 2 has an answer exactly when it reached
        "e". */
    method Analyse(fuel: nat) returns (outcome: Outcome)
      modifies this
      ensures replacements == old(replacements) && molecule == old(molecule)
      ensures answerPart1 == Some(|Resultants(molecule, replacements)|)
      ensures outcome == Reduction(replacements, "e", molecule, 0, fuel)
      ensures answerPart2 == if outcome.Reached? then Some(outcome.changes) else None
    {
      var resultants := DistinctResultants(molecule, replacements);
      answerPart1 := Some(|resultants|);
      outcome := ReductionStep(replacements, "e", molecule, 0, fuel);
      answerPart2 := if outcome.Reached? then Some(outcome.changes) else None;
    }
  }
}
