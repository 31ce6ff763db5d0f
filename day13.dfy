/** Day 13: people at a round table gain or lose happiness from each of
    their two neighbours; the answer is the best total over all seatings,
    found by fixing one person and trying every order of the others. Part 2
    adds "Me", about whom nobody has an opinion. */
module Day13 {
  import opened Common
  import opened Extremes

  /** The verb of a rule line. */
  datatype Sign = Lose | Gain

  /** `Sign::from_str`; any other word panics, which is `None`. */
  function ParseSign(s: string): (r: Option<Sign>)
    ensures r == Some(Gain) <==> s == "gain"
    ensures r == Some(Lose) <==> s == "lose"
    ensures r.None? <==> s != "gain" && s != "lose"
  {
    if s == "lose" then Some(Lose)
    else if s == "gain" then Some(Gain)
    else None
  }

  /** The score of "would gain/lose `scale` happiness units". */
  function SignedScore(sign: Sign, scale: nat): int {
    match sign
    case Gain => scale
    case Lose => 0 - scale
  }

  /** The score gives back its scale, and its sign whenever the scale is
      not zero: no two different rule lines mean the same score. */
  lemma SignedScoreDetermines(s1: Sign, n1: nat, s2: Sign, n2: nat)
    requires SignedScore(s1, n1) == SignedScore(s2, n2)
    ensures n1 == n2
    ensures n1 > 0 ==> s1 == s2
  {
  }

  /** One line "subject would gain/lose n happiness units by sitting next
      to target.", after `Rule::from_str`. */
  datatype Rule<P> = Rule(subject: P, target: P, score: int)

  /** The directed score of `a` sitting next to `b`; a missing rule counts
      as 0 (`unwrap_or(&0)`). */
  function Happiness<P(==)>(rules: map<(P, P), int>, a: P, b: P): int {
    if (a, b) in rules then rules[(a, b)] else 0
  }

  /** Seating `a` next to `b` adds both directed scores. */
  function Pair<P(==)>(rules: map<(P, P), int>, a: P, b: P): int {
    Happiness(rules, a, b) + Happiness(rules, b, a)
  }

  /** Which of the two neighbours comes first does not matter. */
  lemma PairSymmetric<P>(rules: map<(P, P), int>, a: P, b: P)
    ensures Pair(rules, a, b) == Pair(rules, b, a)
  {
  }

  /** The best final total once `last` has just been seated after `first`
      and its neighbours so far, for a total of `prior`: the best over the
      ways to seat everyone else in `unseated` and close the circle back to
      `first`. */
  ghost function Seated<P>(rules: map<(P, P), int>, prior: int, first: P, last: P, unseated: set<P>): int
    requires last in unseated
    decreases unseated, 1
  {
    var rest := unseated - {last};
    if rest == {} then prior + Pair(rules, last, first)
    else
      var p := Element(rest);
      var totals := Totals(rules, prior, first, last, rest, rest);
      assert Seated(rules, prior + Pair(rules, last, p), first, p, rest) in totals;
      Pick(Longest, totals)
  }

  /** The totals for seating next any person of `seen` among `rest`. */
  ghost function Totals<P>(rules: map<(P, P), int>, prior: int, first: P, last: P, rest: set<P>, seen: set<P>): set<int>
    decreases rest, 2
  {
    set p | p in rest && p in seen :: Seated(rules, prior + Pair(rules, last, p), first, p, rest)
  }

  /** `analyse_part1(prior_score, first, last, unseated)`: with `last`
      seated, the best total; with nobody seated yet, no result. */
  ghost function Seating<P>(rules: map<(P, P), int>, prior: int, first: P, last: Option<P>, unseated: set<P>): Option<int>
    requires last.Some? ==> last.value in unseated
    requires last.None? ==> unseated != {}
  {
    if last.Some? then Some(Seated(rules, prior, first, last.value, unseated)) else None
  }

  /** The result for a seated `last` with people left to seat. */
  lemma SeatedUnfold<P>(rules: map<(P, P), int>, prior: int, first: P, last: P, unseated: set<P>)
    requires last in unseated && unseated - {last} != {}
    ensures Some(Seated(rules, prior, first, last, unseated))
      == Extreme(Longest, Totals(rules, prior, first, last, unseated - {last}, unseated - {last}))
  {
  }

  /** The order in which the remaining people of `s` are seated: each
      person of `s` exactly once. */
  ghost predicate Arrangement<P>(order: seq<P>, s: set<P>)
    decreases |order|
  {
    if order == [] then s == {}
    else order[0] in s && Arrangement(order[1..], s - {order[0]})
  }

  /** An arrangement seats every person of the set once and nobody else. */
  lemma {:induction false} ArrangementIsPermutation<P>(order: seq<P>, s: set<P>)
    requires Arrangement(order, s)
    ensures |order| == |s|
    ensures forall i :: 0 <= i < |order| ==> order[i] in s
    ensures forall x :: x in s ==> x in order
    ensures forall i, j :: 0 <= i < j < |order| ==> order[i] != order[j]
  {
    if order != [] {
      var rest := s - {order[0]};
      ArrangementIsPermutation(order[1..], rest);
      assert forall i :: 1 <= i < |order| ==> order[i] == order[1..][i - 1];
      assert forall x :: x in s ==> x == order[0] || x in rest;
    }
  }

  /** The happiness gained from `last` onwards: each person of `order` is
      seated next to the one before, and the last one next to `first`. */
  function Circle<P(==)>(rules: map<(P, P), int>, first: P, last: P, order: seq<P>): int
    decreases |order|
  {
    if order == [] then Pair(rules, last, first)
    else Pair(rules, last, order[0]) + Circle(rules, first, order[0], order[1..])
  }

  lemma TotalsHas<P>(rules: map<(P, P), int>, prior: int, first: P, last: P, rest: set<P>, p: P)
    requires p in rest
    ensures Seated(rules, prior + Pair(rules, last, p), first, p, rest) in Totals(rules, prior, first, last, rest, rest)
  {
  }

  /** Every result is the total of some arrangement of the people still to
      seat. */
  lemma {:induction false} SeatedIsArrangement<P>(rules: map<(P, P), int>, prior: int, first: P, last: P, unseated: set<P>)
    returns (order: seq<P>)
    requires last in unseated
    ensures Arrangement(order, unseated - {last})
    ensures Seated(rules, prior, first, last, unseated) == prior + Circle(rules, first, last, order)
    decreases unseated
  {
    var rest := unseated - {last};
    if rest == {} {
      order := [];
    } else {
      var v := Seated(rules, prior, first, last, unseated);
      SeatedUnfold(rules, prior, first, last, unseated);
      assert v in Totals(rules, prior, first, last, rest, rest);
      var p :| p in rest && Seated(rules, prior + Pair(rules, last, p), first, p, rest) == v;
      var tail := SeatedIsArrangement(rules, prior + Pair(rules, last, p), first, p, rest);
      order := [p] + tail;
      assert order[1..] == tail;
    }
  }

  /** No arrangement beats the result. */
  lemma {:induction false} ArrangementBound<P>(rules: map<(P, P), int>, prior: int, first: P, last: P, unseated: set<P>, order: seq<P>)
    requires last in unseated && Arrangement(order, unseated - {last})
    ensures prior + Circle(rules, first, last, order) <= Seated(rules, prior, first, last, unseated)
    decreases unseated
  {
    var rest := unseated - {last};
    if rest != {} {
      var p := order[0];
      ArrangementBound(rules, prior + Pair(rules, last, p), first, p, rest, order[1..]);
      TotalsHas(rules, prior, first, last, rest, p);
      SeatedUnfold(rules, prior, first, last, unseated);
    }
  }

  /** The happiness of a row that is not closed into a circle. */
  function Line<P(==)>(rules: map<(P, P), int>, order: seq<P>): int
    decreases |order|
  {
    if |order| <= 1 then 0 else Pair(rules, order[0], order[1]) + Line(rules, order[1..])
  }

  /** Nobody has an opinion about `me`, and `me` has none. */
  ghost predicate Unknown<P>(rules: map<(P, P), int>, me: P) {
    forall k :: k in rules ==> k.0 != me && k.1 != me
  }

  lemma {:induction false} CircleThroughUnknown<P>(rules: map<(P, P), int>, me: P, last: P, order: seq<P>)
    requires Unknown(rules, me)
    ensures Circle(rules, me, last, order) == Line(rules, [last] + order)
    decreases |order|
  {
    if order != [] {
      CircleThroughUnknown(rules, me, order[0], order[1..]);
      assert ([last] + order)[1..] == [order[0]] + order[1..];
    }
  }

  /** Part 2: with `me` at the table and nobody caring about `me`, every
      circle is worth what the row of the others is worth, so the answer is
      the best row of everybody else. */
  lemma MeOpensTheCircle<P>(rules: map<(P, P), int>, me: P, order: seq<P>)
    requires Unknown(rules, me)
    ensures Circle(rules, me, me, order) == Line(rules, order)
  {
    CircleThroughUnknown(rules, me, me, order);
    if order != [] {
      assert ([me] + order)[1..] == order;
    }
  }

  /** Part 1: starting from `first`, the result is the happiness of some
      seating of everybody else round the table, and no seating beats it. */
  lemma BestCircle<P>(rules: map<(P, P), int>, first: P, people: set<P>) returns (order: seq<P>)
    requires first in people
    ensures Arrangement(order, people - {first})
    ensures Seated(rules, 0, first, first, people) == Circle(rules, first, first, order)
    ensures forall o :: Arrangement(o, people - {first}) ==> Circle(rules, first, first, o) <= Seated(rules, 0, first, first, people)
  {
    order := SeatedIsArrangement(rules, 0, first, first, people);
    forall o | Arrangement(o, people - {first})
      ensures Circle(rules, first, first, o) <= Seated(rules, 0, first, first, people)
    {
      ArrangementBound(rules, 0, first, first, people, o);
    }
  }

  /** Part 2: with `me` at the head of the table and nobody caring about
      `me`, the result is the best row of everybody else. */
  lemma BestRow<P>(rules: map<(P, P), int>, me: P, people: set<P>) returns (order: seq<P>)
    requires Unknown(rules, me) && me in people
    ensures Arrangement(order, people - {me})
    ensures Seated(rules, 0, me, me, people) == Line(rules, order)
    ensures forall o :: Arrangement(o, people - {me}) ==> Line(rules, o) <= Seated(rules, 0, me, me, people)
  {
    order := BestCircle(rules, me, people);
    MeOpensTheCircle(rules, me, order);
    forall o | Arrangement(o, people - {me})
      ensures Line(rules, o) <= Seated(rules, 0, me, me, people)
    {
      MeOpensTheCircle(rules, me, o);
    }
  }

  /** Every name mentioned by a rule is a person at the table. */
  ghost predicate Named<P>(rules: map<(P, P), int>, people: set<P>) {
    forall k :: k in rules ==> k.0 in people && k.1 in people
  }

  /** A newcomer nobody named is someone nobody has an opinion about. */
  lemma NewcomerUnknown<P>(rules: map<(P, P), int>, people: set<P>, me: P)
    requires Named(rules, people) && me !in people
    ensures Unknown(rules, me)
  {
  }

  /** `analyse_part1` itself: seats `last`, then either closes the circle
      or tries every unseated person next, with a copy of `unseated`. */
  method Arrange<P(==)>(rules: map<(P, P), int>, prior: int, first: P, last: Option<P>, unseated: set<P>) returns (r: Option<int>)
    requires last.Some? ==> last.value in unseated
    requires last.None? ==> unseated != {}
    ensures r == Seating(rules, prior, first, last, unseated)
    decreases unseated, 1
  {
    var rest := unseated;
    if last.Some? {
      rest := rest - {last.value};
    }
    if rest == {} {
      var total := prior;
      total := total + Happiness(rules, last.value, first);
      total := total + Happiness(rules, first, last.value);
      r := Some(total);
    } else {
      r := None;
      var remaining := rest;
      ghost var seen: set<P> := {};
      while remaining != {}
        invariant remaining <= rest && seen == rest - remaining
        invariant last.None? ==> r.None?
        invariant last.Some? ==> r == Extreme(Longest, Totals(rules, prior, first, last.value, rest, seen))
        decreases remaining
      {
        var person :| person in remaining;
        if last.Some? {
          var total := Seat(rules, prior, first, last.value, rest, person);
          TotalsStep(rules, prior, first, last.value, rest, seen, person);
          r := Combine(Longest, r, total);
        }
        SeenStep(rest, seen, remaining, person);
        remaining := remaining - {person};
        seen := seen + {person};
      }
      assert seen == rest;
      if last.Some? {
        SeatedUnfold(rules, prior, first, last.value, unseated);
      }
    }
  }

  /** One turn of the loop: both directed scores with `last`, then the
      recursive call with `person` seated, unwrapped. */
  method Seat<P(==)>(rules: map<(P, P), int>, prior: int, first: P, last: P, rest: set<P>, person: P) returns (total: int)
    requires person in rest
    ensures total == Seated(rules, prior + Pair(rules, last, person), first, person, rest)
    decreases rest, 2
  {
    var next := prior;
    next := next + Happiness(rules, last, person);
    next := next + Happiness(rules, person, last);
    var r := Arrange(rules, next, first, Some(person), rest);
    total := r.value;
  }

  lemma TotalsStep<P>(rules: map<(P, P), int>, prior: int, first: P, last: P, rest: set<P>, seen: set<P>, p: P)
    requires p in rest
    ensures Extreme(Longest, Totals(rules, prior, first, last, rest, seen + {p})) ==
      Combine(Longest, Extreme(Longest, Totals(rules, prior, first, last, rest, seen)),
        Seated(rules, prior + Pair(rules, last, p), first, p, rest))
  {
    var v := Seated(rules, prior + Pair(rules, last, p), first, p, rest);
    assert Totals(rules, prior, first, last, rest, seen + {p}) == Totals(rules, prior, first, last, rest, seen) + {v};
    ExtremeAdd(Longest, Totals(rules, prior, first, last, rest, seen), v);
  }

  lemma SeenStep<P>(s: set<P>, seen: set<P>, remaining: set<P>, x: P)
    requires remaining <= s && seen == s - remaining && x in remaining
    ensures seen + {x} == s - (remaining - {x})
  {
  }

  const ME := "Me"

  class Solution {
    var rules: map<(string, string), int>
    var people: set<string>
    var answerPart1: Option<int>
    var answerPart2: Option<int>

    constructor ()
      ensures rules == map[] && people == {} && answerPart1 == None && answerPart2 == None
      ensures Named(rules, people)
    {
      rules := map[];
      people := {};
      answerPart1 := None;
      answerPart2 := None;
    }

    /** `add_rule`: both names join the table and the score of the ordered
        pair is recorded, replacing an earlier one. */
    method AddRule(rule: Rule<string>)
      modifies this
      ensures people == old(people) + {rule.subject, rule.target}
      ensures rules == old(rules)[(rule.subject, rule.target) := rule.score]
      ensures answerPart1 == old(answerPart1) && answerPart2 == old(answerPart2)
      ensures Named(old(rules), old(people)) ==> Named(rules, people)
      ensures Happiness(rules, rule.subject, rule.target) == rule.score
      ensures forall a, b :: (a, b) != (rule.subject, rule.target) ==> Happiness(rules, a, b) == Happiness(old(rules), a, b)
    {
      people := people + {rule.subject};
      people := people + {rule.target};
      rules := rules[(rule.subject, rule.target) := rule.score];
    }

    /** `analyse`: part 1 starts the circle at some person of the table
        (the first one the set yields); part 2 adds "Me" and starts there. */
    method Analyse()
      requires people != {}
      modifies this
      ensures rules == old(rules) && people == old(people) + {ME}
      ensures exists start :: start in old(people) && answerPart1 == Seating(rules, 0, start, Some(start), old(people))
      ensures answerPart2 == Seating(rules, 0, ME, Some(ME), people)
    {
      var start :| start in people;
      answerPart1 := Arrange(rules, 0, start, Some(start), people);
      people := people + {ME};
      answerPart2 := Arrange(rules, 0, ME, Some(ME), people);
    }
  }
}
