/** Day 9: distances between pairs of locations; the answers are the
    shortest and the longest length of a route that visits locations
    without repeating one, found by a depth-first search that marks the
    locations it has entered in a shared `visited` set. */
module Day9 {
  import opened Common
  import opened Extremes

  /** One stored direction of a distance line "a to b = distance"; the
      line's digits make the distance non-negative. */
  datatype Path<L> = Path(a: L, b: L, distance: nat)

  /** `Path::reverse`. */
  function Reverse<L>(p: Path<L>): (r: Path<L>)
    ensures r.a == p.b && r.b == p.a && r.distance == p.distance
  {
    Path(p.b, p.a, p.distance)
  }

  lemma ReverseTwice<L>(p: Path<L>)
    ensures Reverse(Reverse(p)) == p
  {
  }

  /** `PartialEq for Path`: the endpoints decide, the distance does not. */
  predicate SamePath<L(==)>(p: Path<L>, q: Path<L>) {
    p.a == q.a && p.b == q.b
  }

  /** Two paths are equal in this sense exactly when they differ at most in
      their distance; reversing both keeps the answer. */
  lemma SamePathIgnoresDistance<L>(p: Path<L>, q: Path<L>)
    ensures SamePath(p, q) <==> q == p.(distance := q.distance)
    ensures SamePath(p, q) <==> SamePath(Reverse(p), Reverse(q))
  {
  }

  /** Every stored path has its reverse stored as well. */
  ghost predicate Symmetric<L>(paths: seq<Path<L>>) {
    forall i :: 0 <= i < |paths| ==> Reverse(paths[i]) in paths
  }

  /** The `find` over `paths`: the first stored path from `x` to `y`. */
  function Find<L(==)>(paths: seq<Path<L>>, x: L, y: L): Option<Path<L>> {
    if paths == [] then None
    else if paths[0].a == x && paths[0].b == y then Some(paths[0])
    else Find(paths[1..], x, y)
  }

  /** `find` fails exactly when no stored path joins `x` to `y`, and
      otherwise returns one that does. */
  lemma {:induction false} FindMatches<L>(paths: seq<Path<L>>, x: L, y: L)
    ensures Find(paths, x, y).None? <==> forall i :: 0 <= i < |paths| ==> !(paths[i].a == x && paths[i].b == y)
    ensures Find(paths, x, y).Some? ==>
      Find(paths, x, y).value in paths && Find(paths, x, y).value.a == x && Find(paths, x, y).value.b == y
  {
    if paths != [] && !(paths[0].a == x && paths[0].b == y) {
      FindMatches(paths[1..], x, y);
      assert forall i :: 1 <= i < |paths| ==> paths[i] == paths[1..][i - 1];
    }
  }

  /** `find` returns the first match: no earlier path joins the same
      ends. */
  lemma {:induction false} FindFirst<L>(paths: seq<Path<L>>, x: L, y: L) returns (k: nat)
    requires Find(paths, x, y).Some?
    ensures k < |paths| && paths[k] == Find(paths, x, y).value
    ensures forall i :: 0 <= i < k ==> !(paths[i].a == x && paths[i].b == y)
  {
    if paths[0].a == x && paths[0].b == y {
      k := 0;
    } else {
      var j := FindFirst(paths[1..], x, y);
      k := j + 1;
    }
  }

  /** The set built by the fold: both ends of every path. */
  function Locations<L(==)>(paths: seq<Path<L>>): set<L> {
    (set p | p in paths :: p.a) + (set p | p in paths :: p.b)
  }

  /** The locations are exactly the ends of the stored paths. */
  lemma LocationsAreEnds<L>(paths: seq<Path<L>>, x: L)
    ensures x in Locations(paths) <==> exists i :: 0 <= i < |paths| && (paths[i].a == x || paths[i].b == x)
  {
    if x in Locations(paths) {
      var p :| p in paths && (p.a == x || p.b == x);
      var i :| 0 <= i < |paths| && paths[i] == p;
    }
  }

  /** The locations the search may step to from `cur`: known, not yet
      visited, and reached by a stored path. */
  function Candidates<L(==)>(paths: seq<Path<L>>, locs: set<L>, cur: L, visited: set<L>): (c: set<L>)
    ensures c <= locs && c !! visited
  {
    set x | x in locs && x !in visited && Find(paths, cur, x).Some?
  }

  /** The cost of stepping from `cur` to the candidate `x`: the edge plus
      the best continuation from `x`, or the edge alone when `x` is a dead
      end (`inner_cost.unwrap_or(0) + path.distance`). */
  ghost function Value<L>(goal: Goal, paths: seq<Path<L>>, locs: set<L>, cur: L, visited: set<L>, x: L): int
    requires x in locs && x !in visited && Find(paths, cur, x).Some?
    decreases locs - visited, 0
  {
    Best(goal, paths, locs, x, visited + {x}).GetOr(0) + Find(paths, cur, x).value.distance
  }

  /** The costs of the candidates among `seen`. */
  ghost function Values<L>(goal: Goal, paths: seq<Path<L>>, locs: set<L>, cur: L, visited: set<L>, seen: set<L>): set<int>
    decreases locs - visited, 1
  {
    set x | x in Candidates(paths, locs, cur, visited) && x in seen :: Value(goal, paths, locs, cur, visited, x)
  }

  /** What `analyse_part1_r` (Shortest) and `analyse_part2_r` (Longest)
      return from `cur` with `visited` marked. */
  ghost function Best<L>(goal: Goal, paths: seq<Path<L>>, locs: set<L>, cur: L, visited: set<L>): Option<int>
    decreases locs - visited, 2
  {
    Extreme(goal, Values(goal, paths, locs, cur, visited, locs))
  }

  lemma BestUnfold<L>(goal: Goal, paths: seq<Path<L>>, locs: set<L>, cur: L, visited: set<L>)
    ensures Best(goal, paths, locs, cur, visited) == Extreme(goal, Values(goal, paths, locs, cur, visited, locs))
  {
  }

  /** The search finds nothing exactly when no unvisited location is
      directly reachable from `cur`. */
  lemma BestNone<L>(goal: Goal, paths: seq<Path<L>>, locs: set<L>, cur: L, visited: set<L>)
    ensures Best(goal, paths, locs, cur, visited).None? <==> Candidates(paths, locs, cur, visited) == {}
  {
    if x :| x in Candidates(paths, locs, cur, visited) {
      assert Value(goal, paths, locs, cur, visited, x) in Values(goal, paths, locs, cur, visited, locs);
    }
  }

  /** Looking at one more location adds its cost when it is a candidate
      and nothing otherwise. */
  lemma ValuesAdd<L>(goal: Goal, paths: seq<Path<L>>, locs: set<L>, cur: L, visited: set<L>, seen: set<L>, x: L)
    ensures x in Candidates(paths, locs, cur, visited) ==>
      Values(goal, paths, locs, cur, visited, seen + {x}) ==
      Values(goal, paths, locs, cur, visited, seen) + {Value(goal, paths, locs, cur, visited, x)}
    ensures x !in Candidates(paths, locs, cur, visited) ==>
      Values(goal, paths, locs, cur, visited, seen + {x}) == Values(goal, paths, locs, cur, visited, seen)
  {
  }

  /** The running best after looking at one more location. */
  lemma ExploreStep<L>(goal: Goal, paths: seq<Path<L>>, locs: set<L>, cur: L, visited: set<L>, seen: set<L>, x: L)
    requires x in locs
    ensures x !in visited && Find(paths, cur, x).Some? ==>
      Extreme(goal, Values(goal, paths, locs, cur, visited, seen + {x})) ==
      Combine(goal, Extreme(goal, Values(goal, paths, locs, cur, visited, seen)),
        Best(goal, paths, locs, x, visited + {x}).GetOr(0) + Find(paths, cur, x).value.distance)
    ensures !(x !in visited && Find(paths, cur, x).Some?) ==>
      Extreme(goal, Values(goal, paths, locs, cur, visited, seen + {x})) ==
      Extreme(goal, Values(goal, paths, locs, cur, visited, seen))
  {
    ValuesAdd(goal, paths, locs, cur, visited, seen, x);
    if x in Candidates(paths, locs, cur, visited) {
      ExtremeAdd(goal, Values(goal, paths, locs, cur, visited, seen), Value(goal, paths, locs, cur, visited, x));
    }
  }

  lemma SeenStep<L>(locs: set<L>, seen: set<L>, remaining: set<L>, x: L)
    requires remaining <= locs && seen == locs - remaining && x in remaining
    ensures seen + {x} == locs - (remaining - {x})
  {
  }

  /** A route from `cur`: the locations entered in order, each a candidate
      when it is entered, ending where no candidate is left. */
  ghost predicate Complete<L>(paths: seq<Path<L>>, locs: set<L>, cur: L, visited: set<L>, route: seq<L>)
    decreases |route|
  {
    if route == [] then Candidates(paths, locs, cur, visited) == {}
    else
      route[0] in Candidates(paths, locs, cur, visited) &&
      Complete(paths, locs, route[0], visited + {route[0]}, route[1..])
  }

  /** The total distance of a route, each step along the path `find`
      picks. */
  function Length<L(==)>(paths: seq<Path<L>>, cur: L, route: seq<L>): int
    decreases |route|
  {
    if route == [] then 0
    else
      (match Find(paths, cur, route[0]) case Some(p) => p.distance case None => 0) +
      Length(paths, route[0], route[1..])
  }

  /** A result of the search is the length of a complete route. */
  lemma {:induction false} BestIsRoute<L>(goal: Goal, paths: seq<Path<L>>, locs: set<L>, cur: L, visited: set<L>)
    returns (route: seq<L>)
    requires Best(goal, paths, locs, cur, visited).Some?
    ensures route != [] && Complete(paths, locs, cur, visited, route)
    ensures Length(paths, cur, route) == Best(goal, paths, locs, cur, visited).value
    decreases locs - visited
  {
    var v := Best(goal, paths, locs, cur, visited).value;
    var x :| x in Candidates(paths, locs, cur, visited) && Value(goal, paths, locs, cur, visited, x) == v;
    var inner := Best(goal, paths, locs, x, visited + {x});
    var rest: seq<L> := [];
    if inner.Some? {
      rest := BestIsRoute(goal, paths, locs, x, visited + {x});
    } else {
      BestNone(goal, paths, locs, x, visited + {x});
    }
    route := [x] + rest;
    assert route[1..] == rest;
  }

  /** No complete route beats the result of the search. */
  lemma {:induction false} RouteBounds<L>(goal: Goal, paths: seq<Path<L>>, locs: set<L>, cur: L, visited: set<L>, route: seq<L>)
    requires route != [] && Complete(paths, locs, cur, visited, route)
    ensures Best(goal, paths, locs, cur, visited).Some?
    ensures Better(goal, Best(goal, paths, locs, cur, visited).value, Length(paths, cur, route))
    decreases |route|
  {
    var x := route[0];
    var rest := route[1..];
    if rest == [] {
      BestNone(goal, paths, locs, x, visited + {x});
    } else {
      RouteBounds(goal, paths, locs, x, visited + {x}, rest);
    }
    assert Value(goal, paths, locs, cur, visited, x) in Values(goal, paths, locs, cur, visited, locs);
  }

  /** For the same arguments the shortest search never exceeds the longest
      one, and both find something or neither does. */
  lemma ShortestAtMostLongest<L>(paths: seq<Path<L>>, locs: set<L>, cur: L, visited: set<L>)
    ensures Best(Shortest, paths, locs, cur, visited).Some? == Best(Longest, paths, locs, cur, visited).Some?
    ensures Best(Shortest, paths, locs, cur, visited).Some? ==>
      Best(Shortest, paths, locs, cur, visited).value <= Best(Longest, paths, locs, cur, visited).value
  {
    BestNone(Shortest, paths, locs, cur, visited);
    BestNone(Longest, paths, locs, cur, visited);
    if Best(Shortest, paths, locs, cur, visited).Some? {
      var route := BestIsRoute(Shortest, paths, locs, cur, visited);
      RouteBounds(Longest, paths, locs, cur, visited, route);
    }
  }

  /** The `unwrap` in `analyse_part*` needs every location to have a
      neighbour it can step to once it is marked. */
  predicate EveryStartMoves<L(==)>(paths: seq<Path<L>>) {
    forall x {:trigger Candidates(paths, Locations(paths), x, {x})} ::
      x in Locations(paths) ==> Candidates(paths, Locations(paths), x, {x}) != {}
  }

  /** Stored in both directions and with no line from a location to
      itself, every location can start a route. */
  lemma NoLoopsMove<L>(paths: seq<Path<L>>)
    requires Symmetric(paths)
    requires forall i :: 0 <= i < |paths| ==> paths[i].a != paths[i].b
    ensures EveryStartMoves(paths)
  {
    var locs := Locations(paths);
    forall x | x in locs
      ensures Candidates(paths, locs, x, {x}) != {}
    {
      LocationsAreEnds(paths, x);
      var i :| 0 <= i < |paths| && (paths[i].a == x || paths[i].b == x);
      var p := if paths[i].a == x then paths[i] else Reverse(paths[i]);
      assert p in paths;
      FindMatches(paths, x, p.b);
      assert p.b in Candidates(paths, locs, x, {x});
    }
  }

  /** The costs of the routes started at the locations in `seen`. */
  ghost function Starts<L>(goal: Goal, paths: seq<Path<L>>, seen: set<L>): set<int> {
    set x | x in Locations(paths) && x in seen :: Best(goal, paths, Locations(paths), x, {x}).GetOr(0)
  }

  lemma StartsAdd<L>(goal: Goal, paths: seq<Path<L>>, seen: set<L>, x: L)
    requires x in Locations(paths)
    ensures Starts(goal, paths, seen + {x}) ==
      Starts(goal, paths, seen) + {Best(goal, paths, Locations(paths), x, {x}).GetOr(0)}
  {
  }

  /** `analyse_part1` (Shortest) and `analyse_part2` (Longest): the best
      over every start, with only the start marked. */
  ghost function Overall<L>(goal: Goal, paths: seq<Path<L>>): Option<int> {
    Extreme(goal, Starts(goal, paths, Locations(paths)))
  }

  /** With no paths there is no answer; otherwise the answer is the length
      of a complete route from some start, and no complete route from any
      start beats it. */
  lemma OverallIsRoute<L>(goal: Goal, paths: seq<Path<L>>) returns (start: L, route: seq<L>)
    requires EveryStartMoves(paths) && paths != []
    ensures Overall(goal, paths).Some?
    ensures start in Locations(paths) && route != []
    ensures Complete(paths, Locations(paths), start, {start}, route)
    ensures Length(paths, start, route) == Overall(goal, paths).value
  {
    var locs := Locations(paths);
    assert paths[0] in paths;
    assert Best(goal, paths, locs, paths[0].a, {paths[0].a}).GetOr(0) in Starts(goal, paths, locs);
    var v := Overall(goal, paths).value;
    start :| start in locs && Best(goal, paths, locs, start, {start}).GetOr(0) == v;
    BestNone(goal, paths, locs, start, {start});
    route := BestIsRoute(goal, paths, locs, start, {start});
  }

  lemma OverallBounds<L>(goal: Goal, paths: seq<Path<L>>, start: L, route: seq<L>)
    requires EveryStartMoves(paths)
    requires start in Locations(paths) && route != []
    requires Complete(paths, Locations(paths), start, {start}, route)
    ensures Overall(goal, paths).Some?
    ensures Better(goal, Overall(goal, paths).value, Length(paths, start, route))
  {
    var locs := Locations(paths);
    RouteBounds(goal, paths, locs, start, {start}, route);
    assert Best(goal, paths, locs, start, {start}).GetOr(0) in Starts(goal, paths, locs);
  }

  lemma OverallNone<L>(goal: Goal, paths: seq<Path<L>>)
    ensures Overall(goal, paths).None? <==> paths == []
  {
    if paths != [] {
      var locs := Locations(paths);
      assert paths[0] in paths;
      assert Best(goal, paths, locs, paths[0].a, {paths[0].a}).GetOr(0) in Starts(goal, paths, locs);
    }
  }

  /** Part 1 never exceeds part 2. */
  lemma Part1AtMostPart2<L>(paths: seq<Path<L>>)
    requires EveryStartMoves(paths)
    ensures Overall(Shortest, paths).Some? == Overall(Longest, paths).Some?
    ensures Overall(Shortest, paths).Some? ==> Overall(Shortest, paths).value <= Overall(Longest, paths).value
  {
    OverallNone(Shortest, paths);
    OverallNone(Longest, paths);
    if paths != [] {
      var start, route := OverallIsRoute(Shortest, paths);
      OverallBounds(Longest, paths, start, route);
    }
  }

  /** The single line "A to B = 7": both stored directions, and every
      route from either end is the one step to the other end. */
  lemma KnownSinglePath(goal: Goal)
    ensures Overall(goal, [Path("B", "A", 7), Path("A", "B", 7)]) == Some(7)
  {
    var paths := [Path("B", "A", 7), Path("A", "B", 7)];
    var locs := Locations(paths);
    assert locs == {"A", "B"};
    assert Candidates(paths, locs, "A", {"A"}) == {"B"};
    assert Candidates(paths, locs, "B", {"B"}) == {"A"};
    assert Candidates(paths, locs, "B", {"A"} + {"B"}) == {};
    assert Candidates(paths, locs, "A", {"B"} + {"A"}) == {};
    assert EveryStartMoves(paths);
    var start, route := OverallIsRoute(goal, paths);
    assert route[1..] == [];
    assert route == [route[0]];
  }

  /** The set `visited`, shared by the whole search and changed in place. */
  class Visited<L(==)> {
    var members: set<L>

    constructor (start: L)
      ensures members == {start}
    {
      members := {start};
    }
  }

  /** `analyse_part1_r` (Shortest) and `analyse_part2_r` (Longest), over
      the stored paths: tries every unvisited location reached by a path
      from `cur`, marking it for the recursive call and unmarking it
      afterwards. */
  method Explore<L(==)>(goal: Goal, paths: seq<Path<L>>, cur: L, locs: set<L>, visited: Visited<L>) returns (best: Option<int>)
    modifies visited
    ensures visited.members == old(visited.members)
    ensures best == Best(goal, paths, locs, cur, old(visited.members))
    decreases locs - visited.members, 1
  {
    ghost var marked := visited.members;
    best := None;
    var remaining := locs;
    ghost var seen: set<L> := {};
    while remaining != {}
      invariant remaining <= locs && seen == locs - remaining
      invariant visited.members == marked
      invariant best == Extreme(goal, Values(goal, paths, locs, cur, marked, seen))
      decreases remaining
    {
      var location :| location in remaining;
      ExploreStep(goal, paths, locs, cur, marked, seen, location);
      SeenStep(locs, seen, remaining, location);
      var cost := Step(goal, paths, cur, locs, visited, location);
      if cost.Some? {
        best := Combine(goal, best, cost.value);
      }
      remaining := remaining - {location};
      seen := seen + {location};
    }
    assert seen == locs;
    BestUnfold(goal, paths, locs, cur, marked);
  }

  /** One turn of the loop in `analyse_part1_r` / `analyse_part2_r`:
      nothing for a visited or unreachable location, otherwise the edge
      plus the search from there with the location marked meanwhile. */
  method Step<L(==)>(goal: Goal, paths: seq<Path<L>>, cur: L, locs: set<L>, visited: Visited<L>, location: L) returns (cost: Option<int>)
    requires location in locs
    modifies visited
    ensures visited.members == old(visited.members)
    ensures cost.Some? <==> location !in visited.members && Find(paths, cur, location).Some?
    ensures cost.Some? ==>
      cost.value == Best(goal, paths, locs, location, visited.members + {location}).GetOr(0) + Find(paths, cur, location).value.distance
    decreases locs - visited.members, 0
  {
    cost := None;
    if location !in visited.members {
      var found := Find(paths, cur, location);
      if found.Some? {
        ghost var marked := visited.members;
        visited.members := visited.members + {location};
        var inner := Explore(goal, paths, location, locs, visited);
        visited.members := visited.members - {location};
        assert visited.members == marked;
        cost := Some(inner.GetOr(0) + found.value.distance);
      }
    }
  }

  class Solution<L(==)> {
    var paths: seq<Path<L>>
    var answerPart1: Option<int>
    var answerPart2: Option<int>

    constructor ()
      ensures paths == [] && answerPart1 == None && answerPart2 == None
      ensures Symmetric(paths)
    {
      paths := [];
      answerPart1 := None;
      answerPart2 := None;
    }

    /** `add_path`: stores the reverse, then the path itself. */
    method AddPath(path: Path<L>)
      modifies this
      ensures paths == old(paths) + [Reverse(path), path]
      ensures answerPart1 == old(answerPart1) && answerPart2 == old(answerPart2)
      ensures Symmetric(old(paths)) ==> Symmetric(paths)
    {
      paths := paths + [Reverse(path), path];
      ReverseTwice(path);
      assert forall i :: 0 <= i < |old(paths)| ==> paths[i] == old(paths)[i];
    }

    /** The loop of `analyse_part1` / `analyse_part2`: one search from
        every location, with only that location marked. */
    method Search(goal: Goal) returns (best: Option<int>)
      requires EveryStartMoves(paths)
      ensures best == Overall(goal, paths)
    {
      var locations := Locations(paths);
      best := None;
      var remaining := locations;
      ghost var seen: set<L> := {};
      while remaining != {}
        invariant remaining <= locations && seen == locations - remaining
        invariant best == Extreme(goal, Starts(goal, paths, seen))
        decreases remaining
      {
        var location :| location in remaining;
        remaining := remaining - {location};
        var visited := new Visited(location);
        var cost := Explore(goal, paths, location, locations, visited);
        BestNone(goal, paths, locations, location, {location});
        ghost var before := Starts(goal, paths, seen);
        StartsAdd(goal, paths, seen, location);
        ExtremeAdd(goal, before, cost.value);
        best := Combine(goal, best, cost.value);
        seen := seen + {location};
      }
      assert Starts(goal, paths, seen) == Starts(goal, paths, locations);
    }

    method AnalysePart1() returns (best: Option<int>)
      requires EveryStartMoves(paths)
      ensures best == Overall(Shortest, paths)
    {
      best := Search(Shortest);
    }

    method AnalysePart2() returns (best: Option<int>)
      requires EveryStartMoves(paths)
      ensures best == Overall(Longest, paths)
    {
      best := Search(Longest);
    }

    /** `analyse`: stores both answers. */
    method Analyse()
      requires EveryStartMoves(paths)
      modifies this
      ensures paths == old(paths)
      ensures answerPart1 == Overall(Shortest, paths) && answerPart2 == Overall(Longest, paths)
    {
      answerPart1 := AnalysePart1();
      answerPart2 := AnalysePart2();
    }
  }
}
