/** Day 16: one of the aunts Sue sent the gift; the MFCSAM read ten
    compound counts off it. Each aunt's record lists only some compounds.
    Part 1 wants the first aunt whose recorded counts all agree with the
    reading; part 2 reads cats and trees as lower bounds and pomeranians and
    goldfish as upper bounds. */
module Day16 {
  import opened Common

  /** "Sue id: compound: count, ...", the counts as one map. */
  datatype Sue = Sue(id: nat, expected: map<string, nat>)

  /** The reading, in the order the search visits its entries. */
  const READING: seq<(string, nat)> := [
    ("children", 3), ("cats", 7), ("samoyeds", 2), ("pomeranians", 3), ("akitas", 0),
    ("vizslas", 0), ("goldfish", 5), ("trees", 3), ("cars", 2), ("perfumes", 1)]

  /** The same reading as the `map!` of `analyse_part1` and `analyse_part2`. */
  const TARGET: map<string, nat> := map[
    "children" := 3, "cats" := 7, "samoyeds" := 2, "pomeranians" := 3, "akitas" := 0,
    "vizslas" := 0, "goldfish" := 5, "trees" := 3, "cars" := 2, "perfumes" := 1]

  datatype Part = Part1 | Part2

  /** How an aunt's count `c` must relate to the reading `count` of
      `compound`: always equal in part 1; in part 2 more for cats and trees
      and fewer for pomeranians and goldfish. */
  predicate Accepts(part: Part, compound: string, c: nat, count: nat) {
    match part
    case Part1 => c == count
    case Part2 =>
      if compound == "cats" || compound == "trees" then count < c
      else if compound == "pomeranians" || compound == "goldfish" then c < count
      else c == count
  }

  /** The loop of `matches_part1` / `matches_part2` over `target`'s
      entries: a compound the aunt does not record is skipped, and the first
      recorded count that fails returns false. */
  function Matches(part: Part, expected: map<string, nat>, target: seq<(string, nat)>): bool
    decreases |target|
  {
    if target == [] then true
    else
      var (compound, count) := target[0];
      if compound in expected && !Accepts(part, compound, expected[compound], count) then false
      else Matches(part, expected, target[1..])
  }

  /** `matches_part1` / `matches_part2` themselves: the loop returns false
      at the first recorded count that fails. */
  method CheckMatches(part: Part, expected: map<string, nat>, target: seq<(string, nat)>) returns (ok: bool)
    ensures ok == Matches(part, expected, target)
  {
    for i := 0 to |target|
      invariant Matches(part, expected, target) == Matches(part, expected, target[i..])
    {
      assert target[i..][1..] == target[i + 1..];
      var (compound, count) := target[i];
      if compound in expected && !Accepts(part, compound, expected[compound], count) {
        return false;
      }
    }
    return true;
  }

  /** Every entry the aunt records is accepted. */
  ghost predicate AllAccepted(part: Part, expected: map<string, nat>, target: seq<(string, nat)>) {
    forall k :: 0 <= k < |target| && target[k].0 in expected ==> Accepts(part, target[k].0, expected[target[k].0], target[k].1)
  }

  /** The loop's result is that every compound both the reading and the
      aunt mention is accepted. */
  lemma {:induction false} MatchesMeaning(part: Part, expected: map<string, nat>, target: seq<(string, nat)>)
    ensures Matches(part, expected, target) <==> AllAccepted(part, expected, target)
    decreases |target|
  {
    if target != [] {
      MatchesMeaning(part, expected, target[1..]);
      assert forall k :: 1 <= k < |target| ==> target[k] == target[1..][k - 1];
      if !AllAccepted(part, expected, target[1..]) {
        var k :| 0 <= k < |target[1..]| && target[1..][k].0 in expected
          && !Accepts(part, target[1..][k].0, expected[target[1..][k].0], target[1..][k].1);
        assert target[k + 1] == target[1..][k];
      }
    }
  }

  /** With the reading as a map: every compound of the reading that the
      aunt records has an accepted count. */
  ghost predicate Agrees(part: Part, expected: map<string, nat>, target: map<string, nat>) {
    forall compound :: compound in target && compound in expected ==> Accepts(part, compound, expected[compound], target[compound])
  }

  /** `entries` lists the map `target`, each compound once. */
  ghost predicate Lists(entries: seq<(string, nat)>, target: map<string, nat>) {
    (forall k :: 0 <= k < |entries| ==> entries[k].0 in target && target[entries[k].0] == entries[k].1)
    && (forall compound :: compound in target ==> exists k :: 0 <= k < |entries| && entries[k].0 == compound)
  }

  /** Whatever order the map is visited in, the loop decides `Agrees`. */
  lemma MatchesAnyOrder(part: Part, expected: map<string, nat>, entries: seq<(string, nat)>, target: map<string, nat>)
    requires Lists(entries, target)
    ensures Matches(part, expected, entries) <==> Agrees(part, expected, target)
  {
    MatchesMeaning(part, expected, entries);
    if AllAccepted(part, expected, entries) {
      forall compound | compound in target && compound in expected
        ensures Accepts(part, compound, expected[compound], target[compound])
      {
        var k :| 0 <= k < |entries| && entries[k].0 == compound;
      }
    }
  }

  lemma ReadingListsTarget()
    ensures Lists(READING, TARGET)
  {
    ReadingInTarget();
    TargetInReading();
  }

  lemma ReadingInTarget()
    ensures forall k :: 0 <= k < |READING| ==> READING[k].0 in TARGET && TARGET[READING[k].0] == READING[k].1
  {
  }

  lemma TargetInReading()
    ensures forall compound :: compound in TARGET ==> exists k :: 0 <= k < |READING| && READING[k].0 == compound
  {
    forall compound | compound in TARGET
      ensures exists k :: 0 <= k < |READING| && READING[k].0 == compound
    {
      if compound == "children" {
        assert READING[0].0 == compound;
      } else if compound == "cats" {
        assert READING[1].0 == compound;
      } else if compound == "samoyeds" {
        assert READING[2].0 == compound;
      } else if compound == "pomeranians" {
        assert READING[3].0 == compound;
      } else if compound == "akitas" {
        assert READING[4].0 == compound;
      } else if compound == "vizslas" {
        assert READING[5].0 == compound;
      } else if compound == "goldfish" {
        assert READING[6].0 == compound;
      } else if compound == "trees" {
        assert READING[7].0 == compound;
      } else if compound == "cars" {
        assert READING[8].0 == compound;
      } else {
        assert READING[9].0 == compound;
      }
    }
  }

  /** An aunt who records nothing matches under both rules. */
  lemma EmptyRecordMatches(part: Part, target: seq<(string, nat)>)
    ensures Matches(part, map[], target)
  {
    MatchesMeaning(part, map[], target);
  }

  /** Recording one more compound that the reading does not mention, or
      the reading mentioning one more compound that the aunt does not
      record, changes nothing. */
  lemma UnrelatedCompounds(part: Part, expected: map<string, nat>, target: map<string, nat>, compound: string, count: nat)
    ensures compound !in target ==> (Agrees(part, expected[compound := count], target) <==> Agrees(part, expected, target))
    ensures compound !in expected ==> (Agrees(part, expected, target[compound := count]) <==> Agrees(part, expected, target))
  {
    if compound !in target {
      var e := expected[compound := count];
      assert forall c :: c in target ==> (c in e <==> c in expected) && (c in e ==> e[c] == expected[c]);
    }
    if compound !in expected {
      var t := target[compound := count];
      assert forall c :: c in expected ==> (c in t <==> c in target) && (c in target ==> t[c] == target[c]);
    }
  }

  /** The two rules differ only in the four compounds part 2 reads as
      bounds. */
  lemma PartsAgreeElsewhere(compound: string, c: nat, count: nat)
    requires compound !in {"cats", "trees", "pomeranians", "goldfish"}
    ensures Accepts(Part1, compound, c, count) <==> Accepts(Part2, compound, c, count)
  {
  }

  /** `aunts.iter().find(matches).map(|aunt| aunt.id)`. */
  function FirstMatch(part: Part, aunts: seq<Sue>, target: seq<(string, nat)>): Option<nat>
    decreases |aunts|
  {
    if aunts == [] then None
    else if Matches(part, aunts[0].expected, target) then Some(aunts[0].id)
    else FirstMatch(part, aunts[1..], target)
  }

  /** The answer is the id of the first matching aunt in list order, and
      there is none exactly when nobody matches. */
  lemma {:induction false} FirstMatchMeaning(part: Part, aunts: seq<Sue>, target: seq<(string, nat)>)
    returns (k: nat)
    ensures FirstMatch(part, aunts, target).None? <==> forall i :: 0 <= i < |aunts| ==> !Matches(part, aunts[i].expected, target)
    ensures FirstMatch(part, aunts, target).Some? ==>
      k < |aunts| && FirstMatch(part, aunts, target).value == aunts[k].id && Matches(part, aunts[k].expected, target)
      && forall i :: 0 <= i < k ==> !Matches(part, aunts[i].expected, target)
    decreases |aunts|
  {
    k := 0;
    if aunts != [] && !Matches(part, aunts[0].expected, target) {
      var j := FirstMatchMeaning(part, aunts[1..], target);
      assert forall i :: 1 <= i < |aunts| ==> aunts[i] == aunts[1..][i - 1];
      if FirstMatch(part, aunts, target).None? {
        forall i | 0 <= i < |aunts|
          ensures !Matches(part, aunts[i].expected, target)
        {
          if i > 0 {
            assert aunts[i] == aunts[1..][i - 1];
          }
        }
      }
      k := j + 1;
    }
  }

  class Solution {
    var aunts: seq<Sue>
    var answerPart1: Option<nat>
    var answerPart2: Option<nat>

    constructor ()
      ensures aunts == [] && answerPart1 == None && answerPart2 == None
    {
      aunts := [];
      answerPart1 := None;
      answerPart2 := None;
    }

    /** `add_aunt`: appends one parsed line. */
    method AddAunt(sue: Sue)
      modifies this
      ensures aunts == old(aunts) + [sue]
      ensures answerPart1 == old(answerPart1) && answerPart2 == old(answerPart2)
    {
      aunts := aunts + [sue];
    }

    /** `analyse`: the first aunt that matches the reading under each rule. */
    method Analyse()
      modifies this
      ensures aunts == old(aunts)
      ensures answerPart1 == FirstMatch(Part1, aunts, READING)
      ensures answerPart2 == FirstMatch(Part2, aunts, READING)
    {
      answerPart1 := FirstMatch(Part1, aunts, READING);
      answerPart2 := FirstMatch(Part2, aunts, READING);
    }
  }
}
