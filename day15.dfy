/** Day 15: a cookie recipe is 100 teaspoons of ingredients; its score is
    the product of its capacity, durability, flavour and texture totals,
    each clamped at 0. Part 1 wants the best score; part 2 the best score
    among recipes of exactly 500 calories. */
module Day15 {
  import opened Common

  /** How the name of an ingredient or a mix was built: parsed, scaled by
      `*` or joined by `+=`. */
  datatype Label = Named(text: string) | Scaled(factor: int, of: Label) | Joined(left: Label, right: Label)

  /** One line "Name: capacity c, durability d, flavor f, texture t,
      calories k", or an accumulated mix of ingredients. */
  datatype Ingredient = Ingredient(name: Label, capacity: int, durability: int, flavor: int, texture: int, calories: int)

  /** `Ingredient::default()`: no name, nothing in it. */
  const Nothing := Ingredient(Named(""), 0, 0, 0, 0, 0)

  /** The two ingredients agree on every amount; the name is ignored. */
  predicate SameAmounts(a: Ingredient, b: Ingredient) {
    a.(name := Named("")) == b.(name := Named(""))
  }

  /** No amount is negative. */
  predicate Clamped(i: Ingredient) {
    i.capacity >= 0 && i.durability >= 0 && i.flavor >= 0 && i.texture >= 0 && i.calories >= 0
  }

  /** `{}` on an `i64`: an optional minus sign, then the digits. */
  function SignedDecimal(n: int): (s: string)
    ensures s != [] && (s[0] == '-' <==> n < 0)
  {
    if n < 0 then "-" + Decimal(-n) else Decimal(n)
  }

  /** `clamp`: every negative amount becomes 0, the rest stays. */
  function Clamp(i: Ingredient): (r: Ingredient)
    ensures Clamped(r) && r.name == i.name
    ensures Clamped(i) ==> r == i
    ensures i.capacity >= 0 ==> r.capacity == i.capacity
    ensures i.durability >= 0 ==> r.durability == i.durability
    ensures i.flavor >= 0 ==> r.flavor == i.flavor
    ensures i.texture >= 0 ==> r.texture == i.texture
    ensures i.calories >= 0 ==> r.calories == i.calories
  {
    i.(capacity := Max(0, i.capacity), durability := Max(0, i.durability), flavor := Max(0, i.flavor),
       texture := Max(0, i.texture), calories := Max(0, i.calories))
  }

  /** Clamping twice is clamping once. */
  lemma ClampIdempotent(i: Ingredient)
    ensures Clamp(Clamp(i)) == Clamp(i)
  {
  }

  /** The `String` a label stands for: `format!("{}x{}", rhs, name)` for a
      scaled one, the two names with a space between for a joined one. */
  function Text(name: Label): string {
    match name
    case Named(s) => s
    case Scaled(n, l) => SignedDecimal(n) + "x" + Text(l)
    case Joined(l, r) => Text(l) + " " + Text(r)
  }

  /** A scaled name begins with its factor, and either way the names once
      mixed in still appear in it. */
  lemma TextParts(name: Label)
    ensures name.Scaled? ==> Text(name)[..|SignedDecimal(name.factor)|] == SignedDecimal(name.factor)
    ensures name.Scaled? ==> Text(name.of) <= Text(name)[|SignedDecimal(name.factor)| + 1..]
    ensures name.Joined? ==> Text(name.left) <= Text(name)
  {
    if name.Scaled? {
      var d := SignedDecimal(name.factor);
      assert Text(name) == d + ("x" + Text(name.of));
      assert Text(name)[|d| + 1..] == Text(name.of);
    }
    if name.Joined? {
      assert Text(name) == Text(name.left) + (" " + Text(name.right));
    }
  }

  /** `&ingredient * rhs`: every amount times `rhs`, named "{rhs}x{name}". */
  function Scale(i: Ingredient, rhs: int): Ingredient {
    Ingredient(Scaled(rhs, i.name), i.capacity * rhs, i.durability * rhs, i.flavor * rhs,
      i.texture * rhs, i.calories * rhs)
  }

  /** `self += &rhs`: the amounts add up and the names are joined by a
      space. */
  function Add(a: Ingredient, rhs: Ingredient): Ingredient {
    Ingredient(Joined(a.name, rhs.name), a.capacity + rhs.capacity, a.durability + rhs.durability,
      a.flavor + rhs.flavor, a.texture + rhs.texture, a.calories + rhs.calories)
  }

  /** No spoons of an ingredient contribute nothing. */
  lemma ScaleZero(i: Ingredient)
    ensures SameAmounts(Scale(i, 0), Nothing)
  {
  }

  /** Spoons add up: `i * (a + b)` has the amounts of `i * a += i * b`. */
  lemma ScaleAdds(i: Ingredient, a: int, b: int)
    ensures SameAmounts(Scale(i, a + b), Add(Scale(i, a), Scale(i, b)))
  {
    MulDistributes(i.capacity, a, b);
    MulDistributes(i.durability, a, b);
    MulDistributes(i.flavor, a, b);
    MulDistributes(i.texture, a, b);
    MulDistributes(i.calories, a, b);
  }

  /** Adding ingredients is commutative and has the default as identity, as
      far as the amounts go. */
  lemma AddAmounts(a: Ingredient, b: Ingredient, c: Ingredient)
    ensures SameAmounts(Add(a, b), Add(b, a))
    ensures SameAmounts(Add(Add(a, b), c), Add(a, Add(b, c)))
    ensures SameAmounts(Add(a, Nothing), a)
  {
  }

  /** The score of a finished, clamped recipe. */
  function Score(i: Ingredient): int {
    i.capacity * i.durability * i.flavor * i.texture
  }

  lemma ScoreNonNegative(i: Ingredient)
    ensures Clamped(i) ==> Score(i) >= 0
  {
    if Clamped(i) {
      assert i.capacity * i.durability >= 0;
      assert i.capacity * i.durability * i.flavor >= 0;
    }
  }

  /** `inner_part1` and `inner_part2` differ only in how they score a
      finished recipe. */
  datatype Part = Part1 | Part2

  /** The score of a finished recipe: part 2 only counts recipes of exactly
      500 calories. */
  function Leaf(part: Part, i: Ingredient): (score: int)
    ensures Clamped(i) ==> score >= 0
    ensures part == Part2 && i.calories != 500 ==> score == 0
    ensures part == Part1 || i.calories == 500 ==> score == Score(i)
  {
    ScoreNonNegative(i);
    match part
    case Part1 => Score(i)
    case Part2 => if i.calories == 500 then Score(i) else 0
  }

  /** `inner_part{1,2}(index, remaining_teaspoons, properties)`: the best
      score once the ingredients before `index` have made `properties`; the
      last ingredient takes all remaining spoons. */
  function Inner(part: Part, ings: seq<Ingredient>, index: nat, remaining: int, properties: Ingredient): (score: int)
    requires index < |ings|
    ensures score >= 0
    decreases |ings| - index, 1
  {
    if index == |ings| - 1 then Leaf(part, Clamp(Add(Scale(ings[index], remaining), properties)))
    else Upto(part, ings, index, remaining, properties, remaining + 1)
  }

  /** The loop over spoons `0..count` of ingredient `index`, keeping the
      best score, which starts at 0. */
  function Upto(part: Part, ings: seq<Ingredient>, index: nat, remaining: int, properties: Ingredient, count: int): (best: int)
    requires index < |ings| - 1
    ensures best >= 0
    decreases |ings| - index, 0, count
  {
    if count <= 0 then 0
    else
      var spoons := count - 1;
      Max(Upto(part, ings, index, remaining, properties, spoons),
        Inner(part, ings, index + 1, remaining - spoons, Add(Scale(ings[index], spoons), properties)))
  }

  /** `inner_part1` / `inner_part2` themselves. */
  method InnerScore(part: Part, ings: seq<Ingredient>, index: nat, remaining: int, properties: Ingredient) returns (score: int)
    requires index < |ings|
    ensures score == Inner(part, ings, index, remaining, properties)
    decreases |ings| - index
  {
    if index == |ings| - 1 {
      var i := Scale(ings[index], remaining);
      i := Add(i, properties);
      i := Clamp(i);
      score := Leaf(part, i);
    } else {
      var best := 0;
      var spoons := 0;
      while spoons <= remaining
        invariant 0 <= spoons <= Max(0, remaining + 1)
        invariant best == Upto(part, ings, index, remaining, properties, spoons)
        decreases remaining - spoons
      {
        var total := Scale(ings[index], spoons);
        total := Add(total, properties);
        var t := InnerScore(part, ings, index + 1, remaining - spoons, total);
        if t > best {
          best := t;
        }
        spoons := spoons + 1;
      }
      score := best;
    }
  }

  /** The best of the loop is the score of one of its spoon counts. */
  lemma {:induction false} UptoAttained(part: Part, ings: seq<Ingredient>, index: nat, remaining: int, properties: Ingredient, count: int)
    returns (spoons: int)
    requires index < |ings| - 1 && count >= 1
    ensures 0 <= spoons < count
    ensures Upto(part, ings, index, remaining, properties, count)
      == Inner(part, ings, index + 1, remaining - spoons, Add(Scale(ings[index], spoons), properties))
    decreases count
  {
    var last := count - 1;
    var here := Inner(part, ings, index + 1, remaining - last, Add(Scale(ings[index], last), properties));
    if count == 1 || Upto(part, ings, index, remaining, properties, count) == here {
      spoons := last;
    } else {
      spoons := UptoAttained(part, ings, index, remaining, properties, count - 1);
    }
  }

  /** No spoon count of the loop scores more than its best. */
  lemma {:induction false} UptoBound(part: Part, ings: seq<Ingredient>, index: nat, remaining: int, properties: Ingredient, count: int, spoons: int)
    requires index < |ings| - 1 && 0 <= spoons < count
    ensures Inner(part, ings, index + 1, remaining - spoons, Add(Scale(ings[index], spoons), properties))
      <= Upto(part, ings, index, remaining, properties, count)
    decreases count
  {
    if spoons < count - 1 {
      UptoBound(part, ings, index, remaining, properties, count - 1, spoons);
    }
  }

  /** The total of a recipe's spoon counts. */
  function Sum(r: seq<int>): int {
    if r == [] then 0 else r[0] + Sum(r[1..])
  }

  /** No spoon count is negative. */
  predicate Portions(r: seq<int>) {
    forall k :: 0 <= k < |r| ==> r[k] >= 0
  }

  lemma {:induction false} SumNonNegative(r: seq<int>)
    requires Portions(r)
    ensures Sum(r) >= 0
  {
    if r != [] {
      assert Portions(r[1..]) by {
        assert forall k :: 0 <= k < |r| - 1 ==> r[1..][k] == r[k + 1];
      }
      SumNonNegative(r[1..]);
    }
  }

  /** The ingredients from `index` on, mixed in by the spoon counts `r`
      into `properties`, in the order of the search. */
  function Mix(ings: seq<Ingredient>, index: nat, r: seq<int>, properties: Ingredient): Ingredient
    requires r != [] && index + |r| == |ings|
    decreases |r|
  {
    var next := Add(Scale(ings[index], r[0]), properties);
    if |r| == 1 then next else Mix(ings, index + 1, r[1..], next)
  }

  /** The search's result with `remaining >= 0` spoons is the score of
      a recipe that uses exactly those spoons. */
  lemma {:induction false} InnerIsRecipe(part: Part, ings: seq<Ingredient>, index: nat, remaining: int, properties: Ingredient)
    returns (r: seq<int>)
    requires index < |ings| && remaining >= 0
    ensures |r| == |ings| - index && Portions(r) && Sum(r) == remaining
    ensures Inner(part, ings, index, remaining, properties) == Leaf(part, Clamp(Mix(ings, index, r, properties)))
    decreases |ings| - index
  {
    if index == |ings| - 1 {
      r := [remaining];
      assert r[1..] == [];
    } else {
      var spoons := UptoAttained(part, ings, index, remaining, properties, remaining + 1);
      var next := Add(Scale(ings[index], spoons), properties);
      var tail := InnerIsRecipe(part, ings, index + 1, remaining - spoons, next);
      r := [spoons] + tail;
      assert r[1..] == tail;
    }
  }

  /** No recipe that uses exactly `remaining` spoons scores more than the
      search's result. */
  lemma {:induction false} InnerBound(part: Part, ings: seq<Ingredient>, index: nat, remaining: int, properties: Ingredient, r: seq<int>)
    requires index < |ings| && |r| == |ings| - index && Portions(r) && Sum(r) == remaining
    ensures Leaf(part, Clamp(Mix(ings, index, r, properties))) <= Inner(part, ings, index, remaining, properties)
    decreases |ings| - index
  {
    if index == |ings| - 1 {
      assert r[1..] == [];
    } else {
      var tail := r[1..];
      assert Portions(tail) by {
        assert forall k :: 0 <= k < |tail| ==> tail[k] == r[k + 1];
      }
      SumNonNegative(tail);
      var next := Add(Scale(ings[index], r[0]), properties);
      InnerBound(part, ings, index + 1, remaining - r[0], next, tail);
      UptoBound(part, ings, index, remaining, properties, remaining + 1, r[0]);
    }
  }

  /** The answers: `inner_part{1,2}(0, 100, default)` is the best score over
      all recipes of 100 teaspoons, one count per ingredient. */
  lemma BestRecipe(part: Part, ings: seq<Ingredient>) returns (r: seq<int>)
    requires |ings| > 0
    ensures |r| == |ings| && Portions(r) && Sum(r) == 100
    ensures Inner(part, ings, 0, 100, Nothing) == Leaf(part, Clamp(Mix(ings, 0, r, Nothing)))
    ensures forall q :: |q| == |ings| && Portions(q) && Sum(q) == 100 ==>
      Leaf(part, Clamp(Mix(ings, 0, q, Nothing))) <= Inner(part, ings, 0, 100, Nothing)
  {
    r := InnerIsRecipe(part, ings, 0, 100, Nothing);
    forall q | |q| == |ings| && Portions(q) && Sum(q) == 100
      ensures Leaf(part, Clamp(Mix(ings, 0, q, Nothing))) <= Inner(part, ings, 0, 100, Nothing)
    {
      InnerBound(part, ings, 0, 100, Nothing, q);
    }
  }

  /** Part 2 never beats part 1 from the same position of the search. */
  lemma Part2AtMostPart1(ings: seq<Ingredient>, index: nat, remaining: int, properties: Ingredient)
    requires index < |ings|
    ensures Inner(Part2, ings, index, remaining, properties) <= Inner(Part1, ings, index, remaining, properties)
  {
    if index < |ings| - 1 && remaining >= 0 {
      var r := InnerIsRecipe(Part2, ings, index, remaining, properties);
      InnerBound(Part1, ings, index, remaining, properties, r);
    }
  }

  class Solution {
    var ingredients: seq<Ingredient>
    var answerPart1: Option<int>
    var answerPart2: Option<int>

    constructor ()
      ensures ingredients == [] && answerPart1 == None && answerPart2 == None
    {
      ingredients := [];
      answerPart1 := None;
      answerPart2 := None;
    }

    /** `add_ingredient`: appends one parsed line. */
    method AddIngredient(ingredient: Ingredient)
      modifies this
      ensures ingredients == old(ingredients) + [ingredient]
      ensures answerPart1 == old(answerPart1) && answerPart2 == old(answerPart2)
    {
      ingredients := ingredients + [ingredient];
    }

    /** `analyse`: both searches from the first ingredient, 100 spoons and
        the default mix; at least one ingredient is needed, for `len() - 1`. */
    method Analyse()
      requires |ingredients| > 0
      modifies this
      ensures ingredients == old(ingredients)
      ensures answerPart1 == Some(Inner(Part1, ingredients, 0, 100, Nothing))
      ensures answerPart2 == Some(Inner(Part2, ingredients, 0, 100, Nothing))
      ensures answerPart2.value <= answerPart1.value
    {
      var part1 := InnerScore(Part1, ingredients, 0, 100, Nothing);
      answerPart1 := Some(part1);
      var part2 := InnerScore(Part2, ingredients, 0, 100, Nothing);
      answerPart2 := Some(part2);
      Part2AtMostPart1(ingredients, 0, 100, Nothing);
    }
  }
}
