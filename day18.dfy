/** Day 18: a game of life on a grid of lights; in part 2 the four corner
    lights are stuck on. */
module Day18 {
  import opened Common

  type Pos = (int, int)

  /** A grid maps positions to '#' (lit) or '.' (dark). */
  type Grid = map<Pos, char>

  predicate IsCell(c: char) {
    c == '#' || c == '.'
  }

  /** Every stored light is '#' or '.': anything else reaches
      `unreachable!` in the step and in the count. */
  predicate IsGrid(g: Grid) {
    forall p :: p in g ==> IsCell(g[p])
  }

  /** One of the eight cells around `t`; never `t` itself. */
  predicate IsNeighbour(s: Pos, t: Pos) {
    s != t && -1 <= t.0 - s.0 <= 1 && -1 <= t.1 - s.1 <= 1
  }

  /** The lit cells among `keys` next to `t`. */
  function LitAround(g: Grid, keys: set<Pos>, t: Pos): set<Pos> {
    set s | s in keys && s in g && g[s] == '#' && IsNeighbour(s, t)
  }

  /** The number of lit neighbours of `t`. */
  function LitNeighbours(g: Grid, t: Pos): nat {
    |LitAround(g, g.Keys, t)|
  }

  /** The eight cells around `t`. */
  function Ring(t: Pos): set<Pos> {
    {(t.0 - 1, t.1 - 1), (t.0, t.1 - 1), (t.0 + 1, t.1 - 1),
     (t.0 - 1, t.1), (t.0 + 1, t.1),
     (t.0 - 1, t.1 + 1), (t.0, t.1 + 1), (t.0 + 1, t.1 + 1)}
  }

  /** A cell has at most eight lit neighbours. */
  lemma NeighbourBound(g: Grid, t: Pos)
    ensures LitNeighbours(g, t) <= 8
  {
    var r := Ring(t);
    assert |r| == 8;
    forall s | s in LitAround(g, g.Keys, t) ensures s in r {
      assert IsNeighbour(s, t);
    }
    SubsetCardinality(LitAround(g, g.Keys, t), r);
  }

  /** The state of a light with `n` lit neighbours after a step; only
      '#' and '.' reach it. */
  function Next(v: char, n: int): char {
    if v == '#' then (if 2 <= n <= 3 then '#' else '.')
    else (if n == 3 then '#' else '.')
  }

  /** A lit light stays lit exactly with 2 or 3 lit neighbours; a dark one
      lights exactly with 3. */
  lemma LifeRules(n: int)
    ensures Next('#', n) == '#' <==> 2 <= n <= 3
    ensures Next('.', n) == '#' <==> n == 3
    ensures IsCell(Next('#', n)) && IsCell(Next('.', n))
  {
  }

  function NeighCount(neigh: map<Pos, int>, t: Pos): int {
    if t in neigh then neigh[t] else 0
  }

  /** The cells around lit `s` enumerated before offset (dx, dy) by the two
      nested loops of `gen_neigh`. */
  predicate OffsetBefore(s: Pos, t: Pos, dx: int, dy: int) {
    t.1 - s.1 < dy || (t.1 - s.1 == dy && t.0 - s.0 < dx)
  }

  /** The loops over `dy` and `dx`: every neighbour of `s` is counted once
      more. */
  method AddAround(neigh: map<Pos, int>, s: Pos) returns (result: map<Pos, int>)
    ensures forall t :: NeighCount(result, t) == NeighCount(neigh, t) + (if IsNeighbour(s, t) then 1 else 0)
  {
    result := neigh;
    var dy := -1;
    while dy <= 1
      invariant -1 <= dy <= 2
      invariant forall t :: NeighCount(result, t) == NeighCount(neigh, t) + (if IsNeighbour(s, t) && OffsetBefore(s, t, -1, dy) then 1 else 0)
    {
      var dx := -1;
      while dx <= 1
        invariant -1 <= dx <= 2
        invariant forall t :: NeighCount(result, t) == NeighCount(neigh, t) + (if IsNeighbour(s, t) && OffsetBefore(s, t, dx, dy) then 1 else 0)
      {
        if !(dx == 0 && dy == 0) {
          var target := (dx + s.0, dy + s.1);
          result := result[target := NeighCount(result, target) + 1];
        }
        dx := dx + 1;
      }
      dy := dy + 1;
    }
  }

  /** Adding one more cell to the scanned ones. */
  lemma LitAroundAdd(g: Grid, done: set<Pos>, s: Pos)
    requires s in g && s !in done
    ensures forall t :: |LitAround(g, done + {s}, t)| == |LitAround(g, done, t)| + (if g[s] == '#' && IsNeighbour(s, t) then 1 else 0)
  {
    forall t
      ensures |LitAround(g, done + {s}, t)| == |LitAround(g, done, t)| + (if g[s] == '#' && IsNeighbour(s, t) then 1 else 0)
    {
      if g[s] == '#' && IsNeighbour(s, t) {
        assert LitAround(g, done + {s}, t) == LitAround(g, done, t) + {s};
      } else {
        assert LitAround(g, done + {s}, t) == LitAround(g, done, t);
      }
    }
  }

  /** `gen_neigh`: for every position, the number of lit cells among its
      eight neighbours. */
  method GenNeigh(g: Grid) returns (neigh: map<Pos, int>)
    ensures forall t :: NeighCount(neigh, t) == LitNeighbours(g, t)
  {
    neigh := map[];
    var todo := g.Keys;
    ghost var done: set<Pos> := {};
    while todo != {}
      invariant todo + done == g.Keys && todo !! done
      invariant forall t :: NeighCount(neigh, t) == |LitAround(g, done, t)|
      decreases todo
    {
      var s :| s in todo;
      LitAroundAdd(g, done, s);
      if g[s] == '#' {
        neigh := AddAround(neigh, s);
      }
      todo := todo - {s};
      done := done + {s};
    }
  }

  /** The new light at `p` in a part-1 step over the grid `g`. */
  function Next1(g: Grid, p: Pos): char
    requires p in g
  {
    Next(g[p], LitNeighbours(g, p))
  }

  /** A part-1 step: every light at once, from the counts of the grid as it
      was before the step. */
  function Step1(g: Grid): Grid {
    map p | p in g :: Next1(g, p)
  }

  /** A part-1 step adds and removes no light and keeps the grid made of
      '#' and '.'. */
  lemma Step1Keeps(g: Grid)
    requires IsGrid(g)
    ensures Step1(g).Keys == g.Keys && IsGrid(Step1(g))
  {
    forall p | p in g ensures IsCell(Step1(g)[p]) {
      LifeRules(LitNeighbours(g, p));
    }
  }

  function Iterate1(g: Grid, n: nat): Grid {
    if n == 0 then g else Step1(Iterate1(g, n - 1))
  }

  /** Any number of part-1 steps keeps the grid made of '#' and '.'. */
  lemma {:induction false} Iterate1Keeps(g: Grid, n: nat)
    requires IsGrid(g)
    ensures IsGrid(Iterate1(g, n))
  {
    if n > 0 {
      Iterate1Keeps(g, n - 1);
      Step1Keeps(Iterate1(g, n - 1));
    }
  }

  /** `corners_on`. */
  function Corners(g: Grid, maxx: int, maxy: int): (r: Grid)
    ensures IsGrid(g) ==> IsGrid(r)
  {
    g[(0, 0) := '#'][(0, maxy) := '#'][(maxx, 0) := '#'][(maxx, maxy) := '#']
  }

  predicate InBox(p: Pos, maxx: int, maxy: int) {
    0 <= p.0 <= maxx && 0 <= p.1 <= maxy
  }

  predicate IsCorner(p: Pos, maxx: int, maxy: int) {
    (p.0 == 0 || p.0 == maxx) && (p.1 == 0 || p.1 == maxy)
  }

  function Box(maxx: int, maxy: int): (r: set<Pos>)
    ensures forall p :: p in r <==> InBox(p, maxx, maxy)
  {
    set x, y | 0 <= x <= maxx && 0 <= y <= maxy :: (x, y)
  }

  function GetCell(g: Grid, p: Pos): char {
    if p in g then g[p] else '.'
  }

  /** The new light at `p` in the box of a part-2 step over the grid `c`
      (whose corners are already on). */
  function Next2(c: Grid, p: Pos, maxx: int, maxy: int): char {
    if IsCorner(p, maxx, maxy) then '#' else Next(GetCell(c, p), LitNeighbours(c, p))
  }

  /** A part-2 step: the corners go on, the counts are taken, and every
      light of the box from (0, 0) to (maxx, maxy) is stored, a missing
      one being dark; the corners stay on. */
  function Step2(g: Grid, maxx: int, maxy: int): Grid {
    var c := Corners(g, maxx, maxy);
    map p | p in c.Keys + Box(maxx, maxy) :: if InBox(p, maxx, maxy) then Next2(c, p, maxx, maxy) else c[p]
  }

  /** After a part-2 step the four corners are lit and every light is
      '#' or '.'. */
  lemma Step2Keeps(g: Grid, maxx: nat, maxy: nat)
    requires IsGrid(g)
    ensures IsGrid(Step2(g, maxx, maxy))
    ensures forall p :: IsCorner(p, maxx, maxy) && InBox(p, maxx, maxy) ==> p in Step2(g, maxx, maxy) && Step2(g, maxx, maxy)[p] == '#'
  {
    var c := Corners(g, maxx, maxy);
    forall p | p in Step2(g, maxx, maxy) ensures IsCell(Step2(g, maxx, maxy)[p]) {
      if InBox(p, maxx, maxy) && !IsCorner(p, maxx, maxy) {
        LifeRules(LitNeighbours(c, p));
      }
    }
  }

  function Iterate2(g: Grid, maxx: nat, maxy: nat, n: nat): Grid {
    if n == 0 then g else Step2(Iterate2(g, maxx, maxy, n - 1), maxx, maxy)
  }

  /** Any number of part-2 steps keeps the grid made of '#' and '.', and
      after at least one the corners are lit. */
  lemma {:induction false} Iterate2Keeps(g: Grid, maxx: nat, maxy: nat, n: nat)
    requires IsGrid(g)
    ensures IsGrid(Iterate2(g, maxx, maxy, n))
    ensures n > 0 ==> forall p :: IsCorner(p, maxx, maxy) && InBox(p, maxx, maxy) ==> p in Iterate2(g, maxx, maxy, n) && Iterate2(g, maxx, maxy, n)[p] == '#'
  {
    if n > 0 {
      Iterate2Keeps(g, maxx, maxy, n - 1);
      Step2Keeps(Iterate2(g, maxx, maxy, n - 1), maxx, maxy);
    }
  }

  /** The lit lights. */
  function Lit(g: Grid): set<Pos> {
    set p | p in g && g[p] == '#'
  }

  /** The number of lit lights is at most the number of lights. */
  lemma LitBound(g: Grid)
    ensures |Lit(g)| <= |g|
  {
    SubsetCardinality(Lit(g), g.Keys);
  }

  /** The lit lights among `keys`. */
  function LitIn(g: Grid, keys: set<Pos>): set<Pos> {
    set p | p in keys && p in g && g[p] == '#'
  }

  lemma LitInAdd(g: Grid, done: set<Pos>, p: Pos)
    requires p in g && p !in done
    ensures |LitIn(g, done + {p})| == |LitIn(g, done)| + (if g[p] == '#' then 1 else 0)
  {
    if g[p] == '#' {
      assert LitIn(g, done + {p}) == LitIn(g, done) + {p};
    } else {
      assert LitIn(g, done + {p}) == LitIn(g, done);
    }
  }

  /** The counting loop over the values: '#' adds 1, '.' adds 0. */
  method CountLit(g: Grid) returns (count: nat)
    requires IsGrid(g)
    ensures count == |Lit(g)|
  {
    count := 0;
    var todo := g.Keys;
    ghost var done: set<Pos> := {};
    while todo != {}
      invariant todo + done == g.Keys && todo !! done
      invariant count == |LitIn(g, done)|
      decreases todo
    {
      var p :| p in todo;
      LitInAdd(g, done, p);
      var add := if g[p] == '#' then 1 else 0;
      count := count + add;
      todo := todo - {p};
      done := done + {p};
    }
    assert LitIn(g, done) == Lit(g);
  }

  /** The `iter_mut` loop of a part-1 step, given the counts of `g`. */
  method UpdateAll(g: Grid, neigh: map<Pos, int>) returns (r: Grid)
    requires IsGrid(g) && forall t :: NeighCount(neigh, t) == LitNeighbours(g, t)
    ensures r == Step1(g)
  {
    r := g;
    var todo := g.Keys;
    while todo != {}
      invariant todo <= g.Keys && r.Keys == g.Keys
      invariant forall p :: p in r ==> r[p] == if p in todo then g[p] else Next(g[p], NeighCount(neigh, p))
      decreases todo
    {
      var p :| p in todo;
      r := r[p := Next(r[p], NeighCount(neigh, p))];
      todo := todo - {p};
    }
    assert forall p :: p in r ==> r[p] == Step1(g)[p];
  }

  /** The cells of the box before (x, y) in the loop's order, row by row. */
  predicate Visited(p: Pos, maxx: int, maxy: int, x: int, y: int) {
    InBox(p, maxx, maxy) && (p.1 < y || (p.1 == y && p.0 < x))
  }

  /** `g` is `c` with the cells of the box before (x, y) updated. */
  ghost predicate Partial2(c: Grid, neigh: map<Pos, int>, g: Grid, maxx: int, maxy: int, x: int, y: int) {
    && (forall p :: p in g <==> p in c || Visited(p, maxx, maxy, x, y))
    && (forall p :: p in g ==> g[p] == if Visited(p, maxx, maxy, x, y) then NextBox(c, neigh, p, maxx, maxy) else c[p])
  }

  /** `Next2` with the count taken from `neigh`. */
  function NextBox(c: Grid, neigh: map<Pos, int>, p: Pos, maxx: int, maxy: int): char {
    if IsCorner(p, maxx, maxy) then '#' else Next(GetCell(c, p), NeighCount(neigh, p))
  }

  /** The inner loop over one row of the box. */
  method UpdateRow(c: Grid, neigh: map<Pos, int>, g0: Grid, maxx: nat, maxy: nat, y: nat) returns (g: Grid)
    requires y <= maxy && Partial2(c, neigh, g0, maxx, maxy, 0, y)
    ensures Partial2(c, neigh, g, maxx, maxy, 0, y + 1)
  {
    g := g0;
    var x := 0;
    while x <= maxx
      invariant 0 <= x <= maxx + 1
      invariant Partial2(c, neigh, g, maxx, maxy, x, y)
    {
      var v := GetCell(g, (x, y));
      assert v == GetCell(c, (x, y));
      var nv;
      if IsCorner((x, y), maxx, maxy) {
        nv := '#';
      } else {
        nv := Next(v, NeighCount(neigh, (x, y)));
      }
      g := g[(x, y) := nv];
      x := x + 1;
    }
  }

  /** At the end of the rows every cell of the box is updated. */
  lemma Partial2Done(c: Grid, neigh: map<Pos, int>, g: Grid, maxx: nat, maxy: nat)
    requires forall t :: NeighCount(neigh, t) == LitNeighbours(c, t)
    requires Partial2(c, neigh, g, maxx, maxy, 0, maxy + 1)
    ensures g == map p | p in c.Keys + Box(maxx, maxy) :: if InBox(p, maxx, maxy) then Next2(c, p, maxx, maxy) else c[p]
  {
    assert forall p :: Visited(p, maxx, maxy, 0, maxy + 1) <==> InBox(p, maxx, maxy);
  }

  /** The two nested loops over the box of a part-2 step, on the grid `c`
      whose corners are on, given its counts. */
  method UpdateBox(c: Grid, neigh: map<Pos, int>, maxx: nat, maxy: nat) returns (g: Grid)
    requires IsGrid(c) && forall t :: NeighCount(neigh, t) == LitNeighbours(c, t)
    ensures g == map p | p in c.Keys + Box(maxx, maxy) :: if InBox(p, maxx, maxy) then Next2(c, p, maxx, maxy) else c[p]
  {
    g := c;
    var y := 0;
    while y <= maxy
      invariant 0 <= y <= maxy + 1
      invariant Partial2(c, neigh, g, maxx, maxy, 0, y)
    {
      g := UpdateRow(c, neigh, g, maxx, maxy, y);
      y := y + 1;
    }
    Partial2Done(c, neigh, g, maxx, maxy);
  }

  /** The number of steps both parts animate. */
  const STEPS: nat := 100

  class Solution {
    var data1: Grid
    var data2: Grid
    var maxx: nat
    var maxy: nat
    var answerPart1: Option<nat>
    var answerPart2: Option<nat>

    constructor ()
      ensures data1 == map[] && data2 == map[] && maxx == 0 && maxy == 0
      ensures answerPart1 == None && answerPart2 == None
    {
      data1 := map[];
      data2 := map[];
      maxx := 0;
      maxy := 0;
      answerPart1 := None;
      answerPart2 := None;
    }

    /** `Solution::set`: writes both grids and keeps the largest
        coordinates seen. */
    method Set(x: nat, y: nat, c: char)
      modifies this
      ensures data1 == old(data1)[(x, y) := c] && data2 == old(data2)[(x, y) := c]
      ensures maxx == Max(old(maxx), x) && maxy == Max(old(maxy), y)
      ensures answerPart1 == old(answerPart1) && answerPart2 == old(answerPart2)
    {
      data1 := data1[(x, y) := c];
      data2 := data2[(x, y) := c];
      if x > maxx {
        maxx := x;
      }
      if y > maxy {
        maxy := y;
      }
    }

    /** `analyse_part1_step`: the counts come from the grid before the
        step, then every light is updated. */
    method Part1Step()
      requires IsGrid(data1)
      modifies this`data1
      ensures data1 == Step1(old(data1))
    {
      var neigh := GenNeigh(data1);
      data1 := UpdateAll(data1, neigh);
    }

    /** `analyse_part2_step`: the corners go on, the counts are taken, then
        the box is updated row by row. */
    method Part2Step()
      requires IsGrid(data2)
      modifies this`data2
      ensures data2 == Step2(old(data2), maxx, maxy)
    {
      data2 := Corners(data2, maxx, maxy);
      var neigh := GenNeigh(data2);
      data2 := UpdateBox(data2, neigh, maxx, maxy);
    }

    /** The `for _step in 1..=100` loop of `analyse_part1`, over any
        number of steps. */
    method Animate1(steps: nat)
      requires IsGrid(data1)
      modifies this`data1
      ensures data1 == Iterate1(old(data1), steps) && IsGrid(data1)
    {
      ghost var start := data1;
      var step := 1;
      while step <= steps
        invariant 1 <= step <= steps + 1
        invariant data1 == Iterate1(start, step - 1)
      {
        Iterate1Keeps(start, step - 1);
        Part1Step();
        step := step + 1;
      }
      Iterate1Keeps(start, steps);
    }

    /** The `for _step in 1..=100` loop of `analyse_part2`, over any
        number of steps. */
    method Animate2(steps: nat)
      requires IsGrid(data2)
      modifies this`data2
      ensures data2 == Iterate2(old(data2), maxx, maxy, steps) && IsGrid(data2)
    {
      ghost var start := data2;
      var step := 1;
      while step <= steps
        invariant 1 <= step <= steps + 1
        invariant data2 == Iterate2(start, maxx, maxy, step - 1)
      {
        Iterate2Keeps(start, maxx, maxy, step - 1);
        Part2Step();
        step := step + 1;
      }
      Iterate2Keeps(start, maxx, maxy, steps);
    }

    /** `analyse_part1`: 100 steps, then the number of lit lights. */
    method AnalysePart1() returns (answer: Option<nat>)
      requires IsGrid(data1)
      modifies this
      ensures data1 == Iterate1(old(data1), STEPS) && answer == Some(|Lit(data1)|)
      ensures data2 == old(data2) && maxx == old(maxx) && maxy == old(maxy)
      ensures answerPart1 == old(answerPart1) && answerPart2 == old(answerPart2)
    {
      Animate1(STEPS);
      var count := CountLit(data1);
      answer := Some(count);
    }

    /** `analyse_part2`: 100 steps with the corners stuck on. */
    method AnalysePart2() returns (answer: Option<nat>)
      requires IsGrid(data2)
      modifies this
      ensures data2 == Iterate2(old(data2), maxx, maxy, STEPS) && answer == Some(|Lit(data2)|)
      ensures data1 == old(data1) && maxx == old(maxx) && maxy == old(maxy)
      ensures answerPart1 == old(answerPart1) && answerPart2 == old(answerPart2)
    {
      Animate2(STEPS);
      var count := CountLit(data2);
      answer := Some(count);
    }

    method Analyse()
      requires IsGrid(data1) && IsGrid(data2)
      modifies this
      ensures data1 == Iterate1(old(data1), STEPS) && data2 == Iterate2(old(data2), maxx, maxy, STEPS)
      ensures answerPart1 == Some(|Lit(data1)|) && answerPart2 == Some(|Lit(data2)|)
      ensures maxx == old(maxx) && maxy == old(maxy)
    {
      var first := AnalysePart1();
      var second := AnalysePart2();
      answerPart1, answerPart2 := first, second;
    }
  }
}
