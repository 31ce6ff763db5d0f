/** Day 3, part 2: Santa and Robo-Santa take turns following one list of
    moves; the answer is the number of houses that get a present. */
module D3p2 {
  import opened Common

  datatype Direction = North | South | East | West

  /** `Direction::from`; any other character is `unreachable!`, which is
      `None`. */
  function FromChar(c: char): (d: Option<Direction>)
    ensures d == Some(North) <==> c == '^'
    ensures d == Some(South) <==> c == 'v'
    ensures d == Some(East) <==> c == '>'
    ensures d == Some(West) <==> c == '<'
    ensures d.None? <==> c !in {'^', 'v', '>', '<'}
  {
    match c
    case '^' => Some(North)
    case 'v' => Some(South)
    case '>' => Some(East)
    case '<' => Some(West)
    case _ => None
  }

  /** `Solution::from_str`: every character is a move. */
  function Parse(s: string): (r: Option<seq<Direction>>)
    ensures r.Some? <==> forall i :: 0 <= i < |s| ==> FromChar(s[i]).Some?
    ensures r.Some? ==> |r.value| == |s| && forall i :: 0 <= i < |s| ==> Some(r.value[i]) == FromChar(s[i])
  {
    if s == [] then Some([])
    else
      var init := Parse(s[..|s| - 1]);
      var last := FromChar(s[|s| - 1]);
      if init.Some? && last.Some? then Some(init.value + [last.value])
      else None
  }

  type House = (int, int)

  /** One step from `p` towards `d` (north is up). */
  function Move(p: House, d: Direction): House {
    match d
    case North => (p.0, p.1 + 1)
    case East => (p.0 + 1, p.1)
    case South => (p.0, p.1 - 1)
    case West => (p.0 - 1, p.1)
  }

  /** The move changes exactly one coordinate, by one. */
  lemma MoveIsUnit(p: House, d: Direction)
    ensures var q := Move(p, d); (q.0 == p.0 && (q.1 - p.1 == 1 || p.1 - q.1 == 1)) || (q.1 == p.1 && (q.0 - p.0 == 1 || p.0 - q.0 == 1))
    ensures Move(p, d) != p
  {
  }

  /** Where walker `w` (0 or 1) stands after the moves: move `i` is walker
      `i % 2`'s. */
  function Walker(moves: seq<Direction>, w: nat): House {
    if moves == [] then (0, 0)
    else
      var p := Walker(moves[..|moves| - 1], w);
      if (|moves| - 1) % 2 == w then Move(p, moves[|moves| - 1]) else p
  }

  /** A move moves its own walker one step and leaves the other one
      where it was. */
  lemma WalkerStep(moves: seq<Direction>, d: Direction, w: nat)
    requires w < 2
    ensures |moves| % 2 == w ==> Walker(moves + [d], w) == Move(Walker(moves, w), d)
    ensures |moves| % 2 != w ==> Walker(moves + [d], w) == Walker(moves, w)
  {
    assert (moves + [d])[..|moves|] == moves;
  }

  /** The houses visited: the origin, then where each move lands. */
  function Visited(moves: seq<Direction>): set<House> {
    if moves == [] then {(0, 0)}
    else Visited(moves[..|moves| - 1]) + {Walker(moves, (|moves| - 1) % 2)}
  }

  /** One more move: its walker steps and the house it reaches joins the
      visited ones. */
  lemma TurnStep(moves: seq<Direction>, d: Direction)
    ensures Walker(moves + [d], |moves| % 2) == Move(Walker(moves, |moves| % 2), d)
    ensures Walker(moves + [d], 1 - |moves| % 2) == Walker(moves, 1 - |moves| % 2)
    ensures Visited(moves + [d]) == Visited(moves) + {Move(Walker(moves, |moves| % 2), d)}
  {
    WalkerStep(moves, d, 0);
    WalkerStep(moves, d, 1);
    assert (moves + [d])[..|moves|] == moves;
  }

  /** At least the origin and at most one new house per move. */
  lemma {:induction false} VisitedBounds(moves: seq<Direction>)
    ensures (0, 0) in Visited(moves)
    ensures 1 <= |Visited(moves)| <= |moves| + 1
  {
    if moves != [] {
      VisitedBounds(moves[..|moves| - 1]);
    }
  }

  /** Every walker's position is a visited house. */
  lemma {:induction false} WalkersVisited(moves: seq<Direction>, w: nat)
    requires w < 2
    ensures Walker(moves, w) in Visited(moves)
  {
    if moves != [] {
      var init := moves[..|moves| - 1];
      if (|moves| - 1) % 2 != w {
        WalkersVisited(init, w);
        VisitedBounds(moves);
        assert Walker(moves, w) == Walker(init, w);
      }
    }
  }

  /** `*num_visits.entry(h).or_insert(0) += 1`. */
  function Bump(visits: map<House, nat>, h: House): (r: map<House, nat>)
    ensures r.Keys == visits.Keys + {h}
  {
    visits[h := (if h in visits then visits[h] else 0) + 1]
  }

  /** `num_houses`: both walkers start at the origin, each move moves the
      walker whose turn it is, and the map counts visits per house. */
  method NumHouses(definition: seq<Direction>) returns (n: int)
    ensures n == |Visited(definition)|
  {
    var curX := new int[2];
    var curY := new int[2];
    curX[0], curX[1], curY[0], curY[1] := 0, 0, 0, 0;
    var numVisits: map<House, nat> := map[];
    numVisits := Bump(numVisits, (curX[0], curY[0]));
    numVisits := Bump(numVisits, (curX[1], curY[1]));
    var i := 0;
    while i < |definition|
      invariant 0 <= i <= |definition|
      invariant numVisits.Keys == Visited(definition[..i])
      invariant (curX[0], curY[0]) == Walker(definition[..i], 0)
      invariant (curX[1], curY[1]) == Walker(definition[..i], 1)
    {
      var idx := i % 2;
      ghost var done := definition[..i];
      assert definition[..i + 1] == done + [definition[i]];
      TurnStep(done, definition[i]);
      var here := Move((curX[idx], curY[idx]), definition[i]);
      curX[idx], curY[idx] := here.0, here.1;
      numVisits := Bump(numVisits, here);
      i := i + 1;
    }
    assert definition[..i] == definition;
    n := |numVisits.Keys|;
  }

  /** Alternating north and south moves: walker 0 goes up and walker 1
      goes down. */
  lemma {:induction false} UpDownWalkers(moves: seq<Direction>, k: nat)
    requires k <= |moves| && forall i :: 0 <= i < |moves| ==> moves[i] == if i % 2 == 0 then North else South
    ensures Walker(moves[..k], 0) == (0, (k + 1) / 2) && Walker(moves[..k], 1) == (0, -(k / 2))
  {
    if k > 0 {
      UpDownWalkers(moves, k - 1);
      var init := moves[..k - 1];
      assert moves[..k] == init + [moves[k - 1]];
      WalkerStep(init, moves[k - 1], 0);
      WalkerStep(init, moves[k - 1], 1);
    }
  }

  /** With alternating north and south moves every move reaches a new
      house. */
  lemma {:induction false} UpDownVisited(moves: seq<Direction>, k: nat)
    requires k <= |moves| && forall i :: 0 <= i < |moves| ==> moves[i] == if i % 2 == 0 then North else South
    ensures |Visited(moves[..k])| == k + 1
    ensures forall h :: h in Visited(moves[..k]) ==> h.0 == 0 && -(k / 2) <= h.1 <= (k + 1) / 2
  {
    if k > 0 {
      UpDownVisited(moves, k - 1);
      UpDownWalkers(moves, k);
      var init := moves[..k - 1];
      assert moves[..k][..k - 1] == init;
      var here := Walker(moves[..k], (k - 1) % 2);
      assert Visited(moves[..k]) == Visited(init) + {here};
      assert here !in Visited(init);
    }
  }

  lemma KnownResultsShort()
    ensures Parse("^v") == Some([North, South]) && |Visited([North, South])| == 3
  {
    var moves := [North, South];
    UpDownVisited(moves, 2);
    assert moves[..2] == moves;
    assert "^v"[..1] == "^" && "^"[..0] == "";
    assert [] + [North] == [North] && [North] + [South] == [North, South];
    assert Parse("^") == Some([North]);
  }

  lemma KnownResultSquare()
    ensures |Visited([North, East, South, West])| == 3
  {
    var square := [North, East, South, West];
    assert square[..3] == [North, East, South] && square[..3][..2] == [North, East] && square[..3][..2][..1] == [North];
    assert Visited([North]) == {(0, 0), (0, 1)};
    assert Visited([North, East]) == {(0, 0), (0, 1), (1, 0)};
    assert Visited([North, East, South]) == {(0, 0), (0, 1), (1, 0)};
    assert Visited(square) == {(0, 0), (0, 1), (1, 0)};
  }

  /** The two walkers go opposite ways and never meet again. */
  lemma KnownResultLong()
    ensures |Visited([North, South, North, South, North, South, North, South, North, South])| == 11
  {
    var moves := [North, South, North, South, North, South, North, South, North, South];
    UpDownVisited(moves, 10);
    assert moves[..10] == moves;
  }

  class Solution {
    var definition: seq<Direction>
    var answer: Option<int>

    /** `Solution::from_str` once the moves are parsed. */
    constructor (moves: seq<Direction>)
      ensures definition == moves && answer == None
    {
      definition := moves;
      answer := None;
    }

    method Analyse()
      modifies this
      ensures definition == old(definition)
      ensures answer == Some(|Visited(definition)|)
    {
      var n := NumHouses(definition);
      answer := Some(n);
    }
  }
}
