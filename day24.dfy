/** Day 24: the packages are split into groups of equal weight, three for
    part 1 and four for part 2. The group in the passenger compartment
    should hold as few packages as possible and, among those, have the
    smallest quantum entanglement (the product of its weights). A group is
    held as a set of weights, as the source's `HashSet<u64>` does, so two
    packages of the same weight are one value here as there. */
module Day24 {
  import opened Common
  import Extremes

  // ---- Sums and products of a set of weights ----

  /** `held.iter().sum()`. */
  ghost function SetSum(s: set<nat>): nat
    decreases s
  {
    if s == {} then 0 else var x := Extremes.Element(s); x + SetSum(s - {x})
  }

  /** `held.iter().product()`. */
  ghost function SetProduct(s: set<nat>): nat
    decreases s
  {
    if s == {} then 1 else var x := Extremes.Element(s); x * SetProduct(s - {x})
  }

  /** Any element can be taken out first. */
  lemma {:induction false} SumRemove(s: set<nat>, y: nat)
    requires y in s
    ensures SetSum(s) == y + SetSum(s - {y})
    decreases s
  {
    var x := Extremes.Element(s);
    if x != y {
      SumRemove(s - {x}, y);
      SumRemove(s - {y}, x);
      assert s - {x} - {y} == s - {y} - {x};
    }
  }

  lemma {:induction false} ProductRemove(s: set<nat>, y: nat)
    requires y in s
    ensures SetProduct(s) == y * SetProduct(s - {y})
    decreases s
  {
    var x := Extremes.Element(s);
    if x != y {
      ProductRemove(s - {x}, y);
      ProductRemove(s - {y}, x);
      assert s - {x} - {y} == s - {y} - {x};
      MulSwap(x, y, SetProduct(s - {x} - {y}));
    }
  }

  lemma MulSwap(x: int, y: int, r: int)
    ensures x * (y * r) == y * (x * r)
  {
  }

  lemma MulAssoc(x: int, y: int, r: int)
    ensures x * (y * r) == (x * y) * r
  {
  }

  /** The sum of the held weights, one at a time. */
  method SumOf(s: set<nat>) returns (r: nat)
    ensures r == SetSum(s)
  {
    r := 0;
    var rest := s;
    while rest != {}
      invariant r + SetSum(rest) == SetSum(s)
      decreases rest
    {
      var x :| x in rest;
      SumRemove(rest, x);
      r := r + x;
      rest := rest - {x};
    }
  }

  /** The quantum entanglement of the held weights. */
  method ProductOf(s: set<nat>) returns (r: nat)
    ensures r == SetProduct(s)
  {
    r := 1;
    var rest := s;
    while rest != {}
      invariant r * SetProduct(rest) == SetProduct(s)
      decreases rest
    {
      var x :| x in rest;
      ProductRemove(rest, x);
      MulAssoc(r, x, SetProduct(rest - {x}));
      r := r * x;
      rest := rest - {x};
    }
  }

  // ---- can_find ----

  /** The weights in the package list. */
  ghost function Values(packages: seq<nat>): set<nat> {
    set i | 0 <= i < |packages| :: packages[i]
  }

  /** Holding one more listed weight leaves fewer weights to try. */
  lemma Shrinks(packages: seq<nat>, held: set<nat>, p: nat)
    requires p in Values(packages) && p !in held
    ensures Values(packages) - (held + {p}) < Values(packages) - held
  {
    assert p in Values(packages) - held;
  }

  /** `can_find(packages, held, remaining)`: true at zero, and otherwise
      when some package that fits and is not held leads to success. */
  ghost function CanFind(packages: seq<nat>, held: set<nat>, remaining: nat): bool
    decreases Values(packages) - held, 1
  {
    remaining == 0 || AnyFits(packages, held, remaining, 0)
  }

  /** The loop of `can_find` from the `i`th package on. */
  ghost function AnyFits(packages: seq<nat>, held: set<nat>, remaining: nat, i: nat): bool
    requires i <= |packages|
    decreases Values(packages) - held, 0, |packages| - i
  {
    if i == |packages| then false
    else if packages[i] > remaining || packages[i] in held then AnyFits(packages, held, remaining, i + 1)
    else
      Shrinks(packages, held, packages[i]);
      CanFind(packages, held + {packages[i]}, remaining - packages[i]) || AnyFits(packages, held, remaining, i + 1)
  }

  lemma {:induction false} AnyFitsMeaning(packages: seq<nat>, held: set<nat>, remaining: nat, i: nat)
    requires i <= |packages|
    ensures AnyFits(packages, held, remaining, i) <==>
      exists j :: i <= j < |packages| && packages[j] <= remaining && packages[j] !in held
        && CanFind(packages, held + {packages[j]}, remaining - packages[j])
    decreases |packages| - i
  {
    if i < |packages| {
      AnyFitsMeaning(packages, held, remaining, i + 1);
    }
  }

  /** The package a success of the loop went through. */
  lemma {:induction false} AnyFitsWitness(packages: seq<nat>, held: set<nat>, remaining: nat, i: nat) returns (j: nat)
    requires i <= |packages| && AnyFits(packages, held, remaining, i)
    ensures i <= j < |packages| && packages[j] <= remaining && packages[j] !in held
    ensures CanFind(packages, held + {packages[j]}, remaining - packages[j])
    decreases |packages| - i
  {
    if packages[i] <= remaining && packages[i] !in held && CanFind(packages, held + {packages[i]}, remaining - packages[i]) {
      j := i;
    } else {
      j := AnyFitsWitness(packages, held, remaining, i + 1);
    }
  }

  /** A set of listed weights, none of them held. */
  ghost predicate Free(packages: seq<nat>, held: set<nat>, s: set<nat>) {
    s <= Values(packages) && s !! held
  }

  /** A success of `can_find` names the set of weights it added. */
  lemma {:induction false} CanFindWitness(packages: seq<nat>, held: set<nat>, remaining: nat) returns (s: set<nat>)
    requires CanFind(packages, held, remaining)
    ensures Free(packages, held, s) && SetSum(s) == remaining
    decreases Values(packages) - held
  {
    if remaining == 0 {
      s := {};
    } else {
      var j := AnyFitsWitness(packages, held, remaining, 0);
      assert packages[j] in Values(packages);
      Shrinks(packages, held, packages[j]);
      var t := CanFindWitness(packages, held + {packages[j]}, remaining - packages[j]);
      s := t + {packages[j]};
      SumRemove(s, packages[j]);
      assert s - {packages[j]} == t;
    }
  }

  /** Any such set makes `can_find` succeed. */
  lemma {:induction false} CanFindFrom(packages: seq<nat>, held: set<nat>, remaining: nat, s: set<nat>)
    requires Free(packages, held, s) && SetSum(s) == remaining
    ensures CanFind(packages, held, remaining)
    decreases Values(packages) - held
  {
    if remaining != 0 {
      var p := Extremes.Element(s);
      SumRemove(s, p);
      assert p in Values(packages);
      var j :| 0 <= j < |packages| && packages[j] == p;
      Shrinks(packages, held, p);
      assert Free(packages, held + {p}, s - {p});
      CanFindFrom(packages, held + {p}, remaining - p, s - {p});
      AnyFitsMeaning(packages, held, remaining, 0);
    }
  }

  /** `can_find` succeeds exactly when some set of listed weights, none of
      them held, adds up to `remaining`. */
  lemma CanFindMeaning(packages: seq<nat>, held: set<nat>, remaining: nat)
    ensures CanFind(packages, held, remaining) <==> exists s :: Free(packages, held, s) && SetSum(s) == remaining
  {
    if CanFind(packages, held, remaining) {
      var s := CanFindWitness(packages, held, remaining);
    }
    if exists s :: Free(packages, held, s) && SetSum(s) == remaining {
      var s :| Free(packages, held, s) && SetSum(s) == remaining;
      CanFindFrom(packages, held, remaining, s);
    }
  }

  /** `can_find`: the loop over the packages, returning at the first
      success. */
  method CanFindGroup(packages: seq<nat>, held: set<nat>, remaining: nat) returns (found: bool)
    ensures found == CanFind(packages, held, remaining)
    decreases Values(packages) - held
  {
    if remaining == 0 {
      return true;
    }
    var i := 0;
    ghost var outcome := AnyFits(packages, held, remaining, 0);
    while i < |packages|
      invariant 0 <= i <= |packages|
      invariant AnyFits(packages, held, remaining, i) == outcome
    {
      if packages[i] <= remaining && packages[i] !in held {
        Shrinks(packages, held, packages[i]);
        var sub := CanFindGroup(packages, held + {packages[i]}, remaining - packages[i]);
        if sub {
          return true;
        }
      }
      i := i + 1;
    }
    return false;
  }

  // ---- find ----

  /** `(len, qe)` of a group. */
  type Score = (nat, nat)

  /** `a` is at least as good as `b`: fewer packages, or as many with no
      larger entanglement. */
  predicate Preferred(a: Score, b: Score) {
    a.0 < b.0 || (a.0 == b.0 && a.1 <= b.1)
  }

  /** The `match best` of `find` when a deeper search returns `found`. */
  function Update(best: Option<Score>, found: Score): Option<Score> {
    match best
    case None => Some(found)
    case Some(b) =>
      if found.0 < b.0 then Some(found)
      else if found.0 == b.0 && found.1 < b.1 then Some(found)
      else Some(b)
  }

  /** The update keeps the preferred of the two, the old best on a tie. */
  lemma UpdateMeaning(best: Option<Score>, found: Score)
    ensures Update(best, found).Some?
    ensures Preferred(Update(best, found).value, found)
    ensures best.Some? ==> Preferred(Update(best, found).value, best.value)
    ensures Update(best, found) == Some(found) || Update(best, found) == best
    ensures best.Some? && Update(best, found) == Some(found) ==> found == best.value || !Preferred(best.value, found)
  {
  }

  /** The score of a group. */
  ghost function ScoreOf(s: set<nat>): Score {
    (|s|, SetProduct(s))
  }

  /** `find(start, packages, held, remaining, best)`: with nothing left to
      add, the held group counts exactly when `can_find` finds a second
      group of its weight among the rest; otherwise the loop over the
      packages from `start` on. */
  ghost function Find(packages: seq<nat>, start: nat, held: set<nat>, remaining: nat, best: Option<Score>): Option<Score>
    decreases Values(packages) - held, 1
  {
    if remaining == 0 then
      if CanFind(packages, held, SetSum(held)) then Some(ScoreOf(held)) else None
    else Search(packages, held, remaining, best, start)
  }

  /** The loop of `find` from the `idx`th package: it stops once more
      packages are held than the best group has, skips a package that does
      not fit or is held, and otherwise folds the deeper result found with
      that package added into `best`. */
  ghost function Search(packages: seq<nat>, held: set<nat>, remaining: nat, best: Option<Score>, idx: nat): Option<Score>
    decreases Values(packages) - held, 0, |packages| - idx
  {
    if idx >= |packages| then best
    else if best.Some? && |held| > best.value.0 then best
    else if packages[idx] > remaining || packages[idx] in held then Search(packages, held, remaining, best, idx + 1)
    else
      Shrinks(packages, held, packages[idx]);
      var found := Find(packages, idx + 1, held + {packages[idx]}, remaining - packages[idx], best);
      Search(packages, held, remaining, Fold(best, found), idx + 1)
  }

  /** `if let Some(..) = found { best = .. }`. */
  function Fold(best: Option<Score>, found: Option<Score>): Option<Score> {
    if found.Some? then Update(best, found.value) else best
  }

  /** `find`. */
  method FindGroup(packages: seq<nat>, start: nat, held: set<nat>, remaining: nat, best: Option<Score>)
    returns (r: Option<Score>)
    ensures r == Find(packages, start, held, remaining, best)
    decreases Values(packages) - held, 1
  {
    if remaining == 0 {
      var weight := SumOf(held);
      var ok := CanFindGroup(packages, held, weight);
      if ok {
        var qe := ProductOf(held);
        return Some((|held|, qe));
      }
      return None;
    }
    r := SearchLoop(packages, start, held, remaining, best);
  }

  /** The `for` loop of `find`, from `start` on. */
  method SearchLoop(packages: seq<nat>, start: nat, held: set<nat>, remaining: nat, best: Option<Score>)
    returns (r: Option<Score>)
    ensures r == Search(packages, held, remaining, best, start)
    decreases Values(packages) - held, 0
  {
    r := best;
    var idx := start;
    ghost var outcome := Search(packages, held, remaining, best, start);
    while idx < |packages|
      invariant Search(packages, held, remaining, r, idx) == outcome
      decreases |packages| - idx
    {
      if r.Some? && |held| > r.value.0 {
        break;
      }
      if packages[idx] <= remaining && packages[idx] !in held {
        Shrinks(packages, held, packages[idx]);
        var found := FindGroup(packages, idx + 1, held + {packages[idx]}, remaining - packages[idx], r);
        r := Fold(r, found);
      }
      idx := idx + 1;
    }
  }

  /** A group of the given weight that leaves a second one of that weight
      among the rest. */
  ghost predicate Accepted(packages: seq<nat>, weight: nat, s: set<nat>) {
    s <= Values(packages) && SetSum(s) == weight && CanFind(packages, s, weight)
  }

  /** The weights listed at `start` or later. */
  ghost function Later(packages: seq<nat>, start: nat): set<nat> {
    set i | start <= i < |packages| :: packages[i]
  }

  /** `score` belongs to an accepted group that extends `held` with
      packages from `start` on. */
  ghost predicate FoundFrom(packages: seq<nat>, weight: nat, start: nat, held: set<nat>, score: Score) {
    exists s :: held <= s && s <= held + Later(packages, start) && Accepted(packages, weight, s) && ScoreOf(s) == score
  }

  lemma SumAdd(s: set<nat>, p: nat)
    requires p !in s
    ensures SetSum(s + {p}) == SetSum(s) + p
  {
    SumRemove(s + {p}, p);
    assert s + {p} - {p} == s;
  }

  /** A group grown from `held` plus the package at `idx` with packages
      after `idx` is grown from `held` with packages from `start` on. */
  lemma FoundFromWiden(packages: seq<nat>, weight: nat, start: nat, idx: nat, held: set<nat>, score: Score)
    requires start <= idx < |packages| && FoundFrom(packages, weight, idx + 1, held + {packages[idx]}, score)
    ensures FoundFrom(packages, weight, start, held, score)
  {
    var s :| held + {packages[idx]} <= s && s <= held + {packages[idx]} + Later(packages, idx + 1)
      && Accepted(packages, weight, s) && ScoreOf(s) == score;
    assert packages[idx] in Later(packages, start);
    assert Later(packages, idx + 1) <= Later(packages, start);
  }

  /** What a search returns is nothing, the best it was given, or an
      accepted group grown from the held packages with later ones only. */
  lemma {:induction false} FindSound(packages: seq<nat>, weight: nat, start: nat, held: set<nat>, remaining: nat, best: Option<Score>)
    requires held <= Values(packages) && SetSum(held) + remaining == weight
    ensures var r := Find(packages, start, held, remaining, best);
      r.None? || r == best || FoundFrom(packages, weight, start, held, r.value)
    decreases Values(packages) - held, 1
  {
    if remaining == 0 {
      if CanFind(packages, held, SetSum(held)) {
        assert Accepted(packages, weight, held);
        assert FoundFrom(packages, weight, start, held, ScoreOf(held));
      }
    } else {
      SearchSound(packages, weight, start, held, remaining, best, start, best);
    }
  }

  lemma {:induction false} SearchSound(packages: seq<nat>, weight: nat, start: nat, held: set<nat>, remaining: nat,
                                       first: Option<Score>, idx: nat, best: Option<Score>)
    requires held <= Values(packages) && SetSum(held) + remaining == weight && start <= idx
    requires best == first || (best.Some? && FoundFrom(packages, weight, start, held, best.value))
    ensures var r := Search(packages, held, remaining, best, idx);
      r == first || (r.Some? && FoundFrom(packages, weight, start, held, r.value))
    decreases Values(packages) - held, 0, |packages| - idx
  {
    if idx >= |packages| || (best.Some? && |held| > best.value.0) {
    } else if packages[idx] > remaining || packages[idx] in held {
      SearchSound(packages, weight, start, held, remaining, first, idx + 1, best);
    } else {
      var next := SoundStep(packages, weight, start, held, remaining, first, idx, best);
      SearchSound(packages, weight, start, held, remaining, first, idx + 1, next);
    }
  }

  /** One package taken by the loop keeps the search's result sound. */
  lemma SoundStep(packages: seq<nat>, weight: nat, start: nat, held: set<nat>, remaining: nat,
                  first: Option<Score>, idx: nat, best: Option<Score>) returns (next: Option<Score>)
    requires held <= Values(packages) && SetSum(held) + remaining == weight && start <= idx < |packages|
    requires packages[idx] <= remaining && packages[idx] !in held
    requires best == first || (best.Some? && FoundFrom(packages, weight, start, held, best.value))
    ensures Values(packages) - (held + {packages[idx]}) < Values(packages) - held
    ensures next == Fold(best, Find(packages, idx + 1, held + {packages[idx]}, remaining - packages[idx], best))
    ensures next == first || (next.Some? && FoundFrom(packages, weight, start, held, next.value))
    decreases Values(packages) - held, 0, |packages| - idx, 0
  {
    assert packages[idx] in Values(packages);
    Shrinks(packages, held, packages[idx]);
    SumAdd(held, packages[idx]);
    var found := Find(packages, idx + 1, held + {packages[idx]}, remaining - packages[idx], best);
    FindSound(packages, weight, idx + 1, held + {packages[idx]}, remaining - packages[idx], best);
    if found.Some? && found != best && FoundFrom(packages, weight, idx + 1, held + {packages[idx]}, found.value) {
      FoundFromWiden(packages, weight, start, idx, held, found.value);
    }
    next := Fold(best, found);
    if found.Some? {
      UpdateMeaning(best, found.value);
    }
  }

  /** Once there is a best group, the search never ends with a worse one. */
  lemma {:induction false} SearchNoWorse(packages: seq<nat>, held: set<nat>, remaining: nat, best: Option<Score>, idx: nat)
    requires best.Some?
    ensures Search(packages, held, remaining, best, idx).Some?
    ensures Preferred(Search(packages, held, remaining, best, idx).value, best.value)
    decreases |packages| - idx
  {
    if idx < |packages| && !(|held| > best.value.0) {
      if packages[idx] > remaining || packages[idx] in held {
        SearchNoWorse(packages, held, remaining, best, idx + 1);
      } else {
        Shrinks(packages, held, packages[idx]);
        var found := Find(packages, idx + 1, held + {packages[idx]}, remaining - packages[idx], best);
        if found.Some? {
          UpdateMeaning(best, found.value);
        }
        SearchNoWorse(packages, held, remaining, Fold(best, found), idx + 1);
      }
    }
  }

  /** Every weight is positive. */
  predicate Positive(packages: seq<nat>) {
    forall i :: 0 <= i < |packages| ==> packages[i] > 0
  }

  /** Each weight still to add is listed at `idx` or later. */
  ghost predicate ListedFrom(packages: seq<nat>, idx: nat, extra: set<nat>) {
    forall x :: x in extra ==> exists i :: idx <= i < |packages| && packages[i] == x
  }

  lemma PositiveSum(packages: seq<nat>, s: set<nat>)
    requires Positive(packages) && s <= Values(packages) && s != {}
    ensures SetSum(s) > 0
  {
    var x := Extremes.Element(s);
    SumRemove(s, x);
  }

  /** With positive weights, a search that can still reach an accepted
      group `s` ends with a group at least as good. */
  lemma {:induction false} FindOptimal(packages: seq<nat>, weight: nat, start: nat, held: set<nat>, remaining: nat,
                                       best: Option<Score>, s: set<nat>)
    requires Positive(packages) && Accepted(packages, weight, s)
    requires held <= s && SetSum(s - held) == remaining && ListedFrom(packages, start, s - held)
    ensures Find(packages, start, held, remaining, best).Some?
    ensures Preferred(Find(packages, start, held, remaining, best).value, ScoreOf(s))
    decreases Values(packages) - held, 1
  {
    if remaining == 0 {
      if s - held != {} {
        PositiveSum(packages, s - held);
      }
      assert s - held == {};
      forall x | x in s ensures x in held {
        assert x !in s - held;
      }
      assert s == held;
    } else {
      SearchOptimal(packages, weight, held, remaining, best, start, s);
    }
  }

  lemma {:induction false} SearchOptimal(packages: seq<nat>, weight: nat, held: set<nat>, remaining: nat,
                                         best: Option<Score>, idx: nat, s: set<nat>)
    requires Positive(packages) && Accepted(packages, weight, s)
    requires 0 < remaining && held <= s && SetSum(s - held) == remaining && ListedFrom(packages, idx, s - held)
    ensures Search(packages, held, remaining, best, idx).Some?
    ensures Preferred(Search(packages, held, remaining, best, idx).value, ScoreOf(s))
    decreases Values(packages) - held, 0, |packages| - idx
  {
    assert s - held != {};
    var x := Extremes.Element(s - held);
    assert idx < |packages|;
    if best.Some? && |held| > best.value.0 {
      assert s == held + (s - held);
    } else if packages[idx] in s - held {
      TakeOptimal(packages, weight, held, remaining, best, idx, s);
    } else {
      SkipOptimal(packages, weight, held, remaining, best, idx, s);
    }
  }

  /** The loop passes a package not in `s`: whatever it folds in, the rest
      of the loop still reaches `s`. */
  lemma {:induction false} SkipOptimal(packages: seq<nat>, weight: nat, held: set<nat>, remaining: nat,
                                       best: Option<Score>, idx: nat, s: set<nat>)
    requires Positive(packages) && Accepted(packages, weight, s)
    requires 0 < remaining && held <= s && SetSum(s - held) == remaining && ListedFrom(packages, idx, s - held)
    requires idx < |packages| && packages[idx] !in s - held && !(best.Some? && |held| > best.value.0)
    ensures Search(packages, held, remaining, best, idx).Some?
    ensures Preferred(Search(packages, held, remaining, best, idx).value, ScoreOf(s))
    decreases Values(packages) - held, 0, |packages| - idx, 0
  {
    ListedLater(packages, idx, s - held);
    if packages[idx] > remaining || packages[idx] in held {
      SearchOptimal(packages, weight, held, remaining, best, idx + 1, s);
    } else {
      Shrinks(packages, held, packages[idx]);
      var found := Find(packages, idx + 1, held + {packages[idx]}, remaining - packages[idx], best);
      SearchOptimal(packages, weight, held, remaining, Fold(best, found), idx + 1, s);
    }
  }

  /** The loop reaches a package of `s`: the deeper search finds a group
      at least as good as `s`, and the rest of the loop keeps one. */
  lemma {:induction false} TakeOptimal(packages: seq<nat>, weight: nat, held: set<nat>, remaining: nat,
                                       best: Option<Score>, idx: nat, s: set<nat>)
    requires Positive(packages) && Accepted(packages, weight, s)
    requires 0 < remaining && held <= s && SetSum(s - held) == remaining && ListedFrom(packages, idx, s - held)
    requires idx < |packages| && packages[idx] in s - held && !(best.Some? && |held| > best.value.0)
    ensures Search(packages, held, remaining, best, idx).Some?
    ensures Preferred(Search(packages, held, remaining, best, idx).value, ScoreOf(s))
    decreases Values(packages) - held, 0, |packages| - idx, 0
  {
    var extra := s - held;
    SumRemove(extra, packages[idx]);
    assert packages[idx] in Values(packages);
    Shrinks(packages, held, packages[idx]);
    assert s - (held + {packages[idx]}) == extra - {packages[idx]};
    ListedLater(packages, idx, extra - {packages[idx]});
    FindOptimal(packages, weight, idx + 1, held + {packages[idx]}, remaining - packages[idx], best, s);
    var found := Find(packages, idx + 1, held + {packages[idx]}, remaining - packages[idx], best);
    UpdateMeaning(best, found.value);
    SearchNoWorse(packages, held, remaining, Fold(best, found), idx + 1);
  }

  /** A weight other than the one at `idx` that is listed from `idx` on is
      listed from `idx + 1` on. */
  lemma ListedLater(packages: seq<nat>, idx: nat, extra: set<nat>)
    requires ListedFrom(packages, idx, extra) && idx < |packages| && packages[idx] !in extra
    ensures ListedFrom(packages, idx + 1, extra)
  {
    forall x | x in extra
      ensures exists i :: idx + 1 <= i < |packages| && packages[i] == x
    {
      var i :| idx <= i < |packages| && packages[i] == x;
    }
  }

  /** The search from scratch finds the best accepted group: it finds an
      accepted group exactly when there is one, and no accepted group has
      fewer packages, or as many with a smaller entanglement. */
  lemma BestGroup(packages: seq<nat>, weight: nat) returns (s: set<nat>)
    requires Positive(packages)
    ensures var r := Find(packages, 0, {}, weight, None);
      (r.None? <==> forall t :: !Accepted(packages, weight, t))
      && (r.Some? ==>
            Accepted(packages, weight, s) && ScoreOf(s) == r.value
            && forall t :: Accepted(packages, weight, t) ==> Preferred(r.value, ScoreOf(t)))
  {
    var r := Find(packages, 0, {}, weight, None);
    assert SetSum({}) == 0;
    FindSound(packages, weight, 0, {}, weight, None);
    s := {};
    if r.Some? {
      var w :| {} <= w && w <= Later(packages, 0) && Accepted(packages, weight, w) && ScoreOf(w) == r.value;
      s := w;
    }
    forall t | Accepted(packages, weight, t)
      ensures r.Some? && Preferred(r.value, ScoreOf(t))
    {
      assert t - {} == t;
      forall x | x in t
        ensures exists i :: 0 <= i < |packages| && packages[i] == x
      {
        assert x in Values(packages);
      }
      FindOptimal(packages, weight, 0, {}, weight, None, t);
    }
  }

  // ---- The two parts ----

  /** The packages heaviest first, as `sort_by(|a, b| b.cmp(a))` leaves
      them. */
  function Insert(x: nat, s: seq<nat>): (r: seq<nat>)
    ensures multiset(r) == multiset(s) + multiset{x}
  {
    if s == [] || s[0] <= x then [x] + s
    else
      assert s == [s[0]] + s[1..];
      [s[0]] + Insert(x, s[1..])
  }

  function SortDescending(s: seq<nat>): (r: seq<nat>)
    ensures multiset(r) == multiset(s)
  {
    if s == [] then []
    else
      assert s == [s[0]] + s[1..];
      Insert(s[0], SortDescending(s[1..]))
  }

  predicate Descending(s: seq<nat>) {
    forall i, j :: 0 <= i < j < |s| ==> s[i] >= s[j]
  }

  /** Every element is at most `b`. */
  predicate AtMost(s: seq<nat>, b: nat) {
    forall k :: 0 <= k < |s| ==> s[k] <= b
  }

  lemma {:induction false} InsertAtMost(x: nat, s: seq<nat>, b: nat)
    requires AtMost(s, b) && x <= b
    ensures AtMost(Insert(x, s), b)
  {
    if s != [] && s[0] > x {
      assert AtMost(s[1..], b) by {
        assert forall k :: 0 <= k < |s[1..]| ==> s[1..][k] == s[k + 1];
      }
      InsertAtMost(x, s[1..], b);
    }
  }

  lemma {:induction false} InsertDescending(x: nat, s: seq<nat>)
    requires Descending(s)
    ensures Descending(Insert(x, s))
  {
    if s == [] || s[0] <= x {
      assert AtMost(s, x);
      ConsDescending(x, s);
    } else {
      var tail := s[1..];
      assert forall k :: 0 <= k < |tail| ==> tail[k] == s[k + 1];
      assert Descending(tail);
      assert AtMost(tail, s[0]);
      InsertDescending(x, tail);
      InsertAtMost(x, tail, s[0]);
      ConsDescending(s[0], Insert(x, tail));
    }
  }

  lemma ConsDescending(a: nat, r: seq<nat>)
    requires Descending(r) && AtMost(r, a)
    ensures Descending([a] + r)
  {
    var t := [a] + r;
    forall i, j | 0 <= i < j < |t|
      ensures t[i] >= t[j]
    {
      assert t[j] == r[j - 1];
      if i > 0 {
        assert t[i] == r[i - 1];
      }
    }
  }

  /** The sorted list is heaviest first and holds the same packages. */
  lemma {:induction false} SortDescendingSorted(s: seq<nat>)
    ensures Descending(SortDescending(s)) && multiset(SortDescending(s)) == multiset(s)
  {
    if s != [] {
      SortDescendingSorted(s[1..]);
      InsertDescending(s[0], SortDescending(s[1..]));
    }
  }

  /** `packages.iter().sum()`. */
  function Total(s: seq<nat>): nat {
    if s == [] then 0 else s[0] + Total(s[1..])
  }

  /** The two parts' group weights: a third and a quarter of the total,
      rounded down. */
  function GroupWeight(packages: seq<nat>, groups: nat): (w: nat)
    requires groups > 0
    ensures w * groups <= Total(packages) < (w + 1) * groups
  {
    Total(packages) / groups
  }

  /** `analyse_part1` (three groups) and `analyse_part2` (four): the
      entanglement of the best group found in the sorted list. */
  ghost function Answer(packages: seq<nat>, groups: nat): Option<nat>
    requires groups > 0
  {
    var sorted := SortDescending(packages);
    match Find(sorted, 0, {}, GroupWeight(packages, groups), None)
    case None => None
    case Some(score) => Some(score.1)
  }

  lemma ValuesOfPermutation(s: seq<nat>, t: seq<nat>)
    requires multiset(s) == multiset(t)
    ensures Values(s) == Values(t)
  {
    forall x | x in Values(s)
      ensures x in Values(t)
    {
      var i :| 0 <= i < |s| && s[i] == x;
      assert x in multiset(s);
      assert x in multiset(t);
      var j :| 0 <= j < |t| && t[j] == x;
    }
    forall x | x in Values(t)
      ensures x in Values(s)
    {
      var i :| 0 <= i < |t| && t[i] == x;
      assert x in multiset(t);
      var j :| 0 <= j < |s| && s[j] == x;
    }
  }

  lemma CanFindSameValues(s: seq<nat>, t: seq<nat>, held: set<nat>, remaining: nat)
    requires Values(s) == Values(t)
    ensures CanFind(s, held, remaining) == CanFind(t, held, remaining)
  {
    CanFindMeaning(s, held, remaining);
    CanFindMeaning(t, held, remaining);
    assert forall g :: Free(s, held, g) == Free(t, held, g);
  }

  /** With positive weights, part 1 and part 2 give the entanglement of
      the best accepted group of a third or a quarter of the total, and the
      order of the packages in the input does not matter. */
  lemma AnswerIsBest(packages: seq<nat>, groups: nat) returns (s: set<nat>)
    requires Positive(packages) && groups > 0
    ensures var w := GroupWeight(packages, groups);
      (Answer(packages, groups).None? <==> forall t :: !Accepted(packages, w, t))
      && (Answer(packages, groups).Some? ==>
            Accepted(packages, w, s) && SetProduct(s) == Answer(packages, groups).value
            && forall t :: Accepted(packages, w, t) ==> Preferred(ScoreOf(s), ScoreOf(t)))
  {
    var sorted := SortDescending(packages);
    var w := GroupWeight(packages, groups);
    SortDescendingSorted(packages);
    ValuesOfPermutation(sorted, packages);
    assert Positive(sorted) by {
      forall i | 0 <= i < |sorted|
        ensures sorted[i] > 0
      {
        assert sorted[i] in multiset(packages);
        var j :| 0 <= j < |packages| && packages[j] == sorted[i];
      }
    }
    forall t
      ensures Accepted(sorted, w, t) == Accepted(packages, w, t)
    {
      CanFindSameValues(sorted, packages, t, w);
    }
    s := BestGroup(sorted, w);
  }

  class Solution {
    var packages: seq<nat>
    var answerPart1: Option<nat>
    var answerPart2: Option<nat>

    constructor ()
      ensures packages == [] && answerPart1 == None && answerPart2 == None
    {
      packages := [];
      answerPart1 := None;
      answerPart2 := None;
    }

    /** `add_package`: appends one weight. */
    method AddPackage(package: nat)
      modifies this
      ensures packages == old(packages) + [package]
      ensures answerPart1 == old(answerPart1) && answerPart2 == old(answerPart2)
    {
      packages := packages + [package];
    }

    /** `analyse_part1` or `analyse_part2`. */
    method AnalysePart(groups: nat) returns (r: Option<nat>)
      requires groups > 0
      ensures r == Answer(packages, groups)
    {
      var sorted := SortDescending(packages);
      var weight := Total(sorted) / groups;
      TotalSorted(packages);
      var found := FindGroup(sorted, 0, {}, weight, None);
      r := if found.Some? then Some(found.value.1) else None;
    }

    /** `analyse`: three groups, then four. */
    method Analyse()
      modifies this
      ensures packages == old(packages)
      ensures answerPart1 == Answer(packages, 3) && answerPart2 == Answer(packages, 4)
    {
      answerPart1 := AnalysePart(3);
      answerPart2 := AnalysePart(4);
    }
  }

  lemma {:induction false} TotalInsert(x: nat, s: seq<nat>)
    ensures Total(Insert(x, s)) == x + Total(s)
  {
    if s != [] && s[0] > x {
      TotalInsert(x, s[1..]);
      assert ([s[0]] + Insert(x, s[1..]))[1..] == Insert(x, s[1..]);
    } else {
      assert ([x] + s)[1..] == s;
    }
  }

  /** Sorting does not change the total. */
  lemma {:induction false} TotalSorted(s: seq<nat>)
    ensures Total(SortDescending(s)) == Total(s)
  {
    if s != [] {
      TotalSorted(s[1..]);
      TotalInsert(s[0], SortDescending(s[1..]));
    }
  }
}
