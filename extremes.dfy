/** The best of a finite set of costs, smallest or largest, as the searches
    keep it in a running `Option` while they look at the candidates. */
module Extremes {
  import opened Common

  /** What a search keeps: `Shortest` the smaller cost (`min`),
      `Longest` the larger one (`max`). */
  datatype Goal = Shortest | Longest

  /** `x` is at least as good as `y` for the goal. */
  predicate Better(goal: Goal, x: int, y: int) {
    if goal == Shortest then x <= y else x >= y
  }

  /** The `match best { None => Some(cost), Some(v) => Some(min/max(v,
      cost)) }` update of the running best. */
  function Combine(goal: Goal, best: Option<int>, cost: int): (r: Option<int>)
    ensures r.Some?
    ensures Better(goal, r.value, cost)
    ensures best.Some? ==> Better(goal, r.value, best.value)
    ensures r.value == cost || (best.Some? && r.value == best.value)
  {
    match best
    case None => Some(cost)
    case Some(v) => Some(if goal == Shortest then Min(v, cost) else Max(v, cost))
  }

  /** Some element of a non-empty set. */
  ghost function Element<T>(s: set<T>): (x: T)
    requires s != {}
    ensures x in s
  {
    var x :| x in s; x
  }

  /** A best element of a non-empty set of costs, by taking out one
      element at a time. */
  ghost function Pick(goal: Goal, s: set<int>): (m: int)
    requires s != {}
    ensures m in s && forall w :: w in s ==> Better(goal, m, w)
    decreases s
  {
    var x := Element(s);
    if s == {x} then
      assert forall w :: w in s ==> w == x;
      x
    else
      var m := Pick(goal, s - {x});
      if Better(goal, m, x) then m
      else
        assert forall w :: w in s ==> w == x || w in s - {x};
        x
  }

  /** The best element of a set of costs for the goal: missing exactly
      for no costs, and otherwise one of the costs that is at least as good
      as every other. */
  ghost function Extreme(goal: Goal, s: set<int>): (r: Option<int>)
    ensures r.None? <==> s == {}
    ensures r.Some? ==> r.value in s && forall w :: w in s ==> Better(goal, r.value, w)
  {
    if s == {} then None else Some(Pick(goal, s))
  }

  /** Folding one more cost into the running best gives the best of the
      larger set, whatever order the costs come in. */
  lemma ExtremeAdd(goal: Goal, s: set<int>, cost: int)
    ensures Extreme(goal, s + {cost}) == Combine(goal, Extreme(goal, s), cost)
  {
    var r := Extreme(goal, s + {cost});
    var c := Combine(goal, Extreme(goal, s), cost);
    assert c.value in s + {cost};
    assert Better(goal, r.value, c.value) && Better(goal, c.value, r.value);
  }
}
