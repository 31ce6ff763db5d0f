/** Day 14: reindeer alternate between flying at their speed for `flytime`
    seconds and resting for `resttime` seconds. Part 1 is the largest distance
    after 2503 seconds; part 2 awards, every second, one point to each
    reindeer in the lead and reports the best score. */
module Day14 {
  import opened Common

  const RACE_TIME: nat := 2503

  datatype Reindeer = Reindeer(name: string, speed: nat, flytime: nat, resttime: nat)

  function Period(r: Reindeer): nat {
    r.flytime + r.resttime
  }

  /** True when `distance(t)` terminates: the loop only ends once the time is
      used up, which needs a non-empty fly/rest cycle. */
  predicate Terminates(r: Reindeer, t: nat) {
    t == 0 || Period(r) > 0
  }

  /** Seconds spent flying during the first `t` seconds: whole cycles of
      flying, then the flying part of the last, incomplete cycle. */
  function FlyingSeconds(r: Reindeer, t: nat): nat
    requires Terminates(r, t)
  {
    if t == 0 then 0 else (t / Period(r)) * r.flytime + Min(t % Period(r), r.flytime)
  }

  /** speed × ((t div (fly+rest)) × fly + min(t mod (fly+rest), fly)). */
  function DistanceFormula(r: Reindeer, t: nat): nat
    requires Terminates(r, t)
  {
    r.speed * FlyingSeconds(r, t)
  }

  /** The recursion the loop of `Reindeer::distance` unrolls: fly for as long
      as possible, then rest for as long as possible. */
  function LoopDistance(r: Reindeer, t: nat): nat
    requires Terminates(r, t)
    decreases t
  {
    if t == 0 then 0
    else
      var fly := Min(t, r.flytime);
      var rest := Min(t - fly, r.resttime);
      r.speed * fly + LoopDistance(r, t - fly - rest)
  }

  /** A full cycle adds `flytime` flying seconds. */
  lemma CycleStep(r: Reindeer, t: nat)
    requires Period(r) > 0 && t >= Period(r)
    ensures FlyingSeconds(r, t) == FlyingSeconds(r, t - Period(r)) + r.flytime
  {
    var p, u := Period(r), t - Period(r);
    var q, m := u / p, u % p;
    assert u == q * p + m;
    assert (q + 1) * p == q * p + p;
    DivModUnique(t, p, q + 1, m);
    assert (q + 1) * r.flytime == q * r.flytime + r.flytime;
    if u == 0 {
      DivModUnique(u, p, 0, 0);
    }
  }

  /** Within the first cycle the loop runs once. */
  lemma ShortRace(r: Reindeer, t: nat)
    requires 0 < t < Period(r)
    ensures LoopDistance(r, t) == r.speed * Min(t, r.flytime)
    ensures FlyingSeconds(r, t) == Min(t, r.flytime)
  {
    DivModUnique(t, Period(r), 0, t);
    var fly := Min(t, r.flytime);
    assert t - fly - Min(t - fly, r.resttime) == 0;
  }

  /** A full cycle of the loop flies `flytime` seconds. */
  lemma LongRace(r: Reindeer, t: nat)
    requires Period(r) > 0 && t >= Period(r)
    ensures LoopDistance(r, t) == r.speed * r.flytime + LoopDistance(r, t - Period(r))
  {
    assert Min(t, r.flytime) == r.flytime;
    assert Min(t - r.flytime, r.resttime) == r.resttime;
  }

  /** The loop computes the closed formula. */
  lemma {:induction false} LoopDistanceIsFormula(r: Reindeer, t: nat)
    requires Terminates(r, t)
    ensures LoopDistance(r, t) == DistanceFormula(r, t)
    decreases t
  {
    if t == 0 {
    } else if t < Period(r) {
      ShortRace(r, t);
    } else {
      CycleStep(r, t);
      LongRace(r, t);
      var u := t - Period(r);
      LoopDistanceIsFormula(r, u);
      MulDistributes(r.speed, FlyingSeconds(r, u), r.flytime);
    }
  }

  /** A reindeer flies at most the whole time, so it never covers more than
      speed × time. */
  lemma DistanceBound(r: Reindeer, t: nat)
    requires Terminates(r, t)
    ensures FlyingSeconds(r, t) <= t
    ensures DistanceFormula(r, t) <= r.speed * t
  {
    if t > 0 {
      var p := Period(r);
      var q, m := t / p, t % p;
      assert t == q * p + m;
      MulDistributes(q, r.flytime, r.resttime);
      MulMonotone(q, 0, r.resttime);
    }
    MulMonotone(r.speed, FlyingSeconds(r, t), t);
  }

  /** `Reindeer::distance`. */
  method Distance(r: Reindeer, t: nat) returns (distance: nat)
    requires Terminates(r, t)
    ensures distance == DistanceFormula(r, t)
  {
    var time: nat := t;
    distance := 0;
    while true
      invariant time <= t && Terminates(r, time)
      invariant distance + LoopDistance(r, time) == LoopDistance(r, t)
      decreases time
    {
      var fly := Min(time, r.flytime);
      var oldTime := time;
      distance := distance + fly * r.speed;
      time := time - fly;
      var rest := Min(time, r.resttime);
      time := time - rest;
      if time == 0 {
        break;
      }
      assert time < oldTime;
    }
    LoopDistanceIsFormula(r, t);
  }

  lemma KnownDistances()
    ensures DistanceFormula(Reindeer("Comet", 14, 10, 127), 1000) == 1120
    ensures DistanceFormula(Reindeer("Dancer", 16, 11, 162), 1000) == 1056
  {
  }

  predicate AllTerminate(rules: seq<Reindeer>, t: nat) {
    forall i :: 0 <= i < |rules| ==> Terminates(rules[i], t)
  }

  /** Part 2 subtracts one from `remaining` every second, so a zero fly or
      rest time underflows the `u64`. */
  predicate PhasesPositive(rules: seq<Reindeer>) {
    forall i :: 0 <= i < |rules| ==> rules[i].flytime >= 1 && rules[i].resttime >= 1
  }

  function Names(rules: seq<Reindeer>): set<string> {
    set i | 0 <= i < |rules| :: rules[i].name
  }

  predicate DistinctNames(rules: seq<Reindeer>) {
    forall i, j :: 0 <= i < j < |rules| ==> rules[i].name != rules[j].name
  }

  /** The per-reindeer state of part 2, keyed by name. */
  datatype Racer = Racer(flying: bool, remaining: nat, position: nat, score: nat)

  predicate Ready(state: map<string, Racer>) {
    forall n :: n in state ==> state[n].remaining >= 1
  }

  /** One second for one reindeer: count down, move if flying, and switch
      phase when the count reaches zero. */
  function Tick(racer: Racer, r: Reindeer): (next: Racer)
    requires racer.remaining >= 1 && r.flytime >= 1 && r.resttime >= 1
    ensures next.remaining >= 1 && next.score == racer.score
    ensures next.position == racer.position + (if racer.flying then r.speed else 0)
  {
    var remaining := racer.remaining - 1;
    var position := if racer.flying then racer.position + r.speed else racer.position;
    if remaining == 0 then
      if racer.flying then Racer(false, r.resttime, position, racer.score)
      else Racer(true, r.flytime, position, racer.score)
    else Racer(racer.flying, remaining, position, racer.score)
  }

  lemma NamesPrefix(rules: seq<Reindeer>)
    requires rules != []
    ensures Names(rules) == Names(rules[..|rules| - 1]) + {rules[|rules| - 1].name}
  {
    var p := rules[..|rules| - 1];
    forall n | n in Names(rules) ensures n in Names(p) + {rules[|rules| - 1].name} {
      var i :| 0 <= i < |rules| && rules[i].name == n;
      if i < |rules| - 1 { assert p[i] == rules[i]; }
    }
    forall n | n in Names(p) ensures n in Names(rules) {
      var i :| 0 <= i < |p| && p[i].name == n;
      assert rules[i] == p[i];
    }
  }

  /** The state map built by the fold at the start of part 2. */
  function InitState(rules: seq<Reindeer>): (state: map<string, Racer>)
    ensures state.Keys == Names(rules)
    ensures forall n :: n in state ==> state[n].flying
    ensures forall n :: n in state ==> state[n].position == 0 && state[n].score == 0
  {
    if rules == [] then map[]
    else
      NamesPrefix(rules);
      var r := rules[|rules| - 1];
      InitState(rules[..|rules| - 1])[r.name := Racer(true, r.flytime, 0, 0)]
  }

  lemma InitStateEntry(rules: seq<Reindeer>, k: nat)
    requires DistinctNames(rules) && k < |rules|
    ensures InitState(rules)[rules[k].name] == Racer(true, rules[k].flytime, 0, 0)
  {
    if k < |rules| - 1 {
      var p := rules[..|rules| - 1];
      assert p[k] == rules[k];
      InitStateEntry(p, k);
    }
  }

  /** The first inner loop of a second: every rule ticks the entry of its
      name, and the largest position seen is tracked from 0. */
  function MoveAll(state: map<string, Racer>, rules: seq<Reindeer>): (m: (map<string, Racer>, nat))
    requires Names(rules) <= state.Keys && Ready(state) && PhasesPositive(rules)
    ensures m.0.Keys == state.Keys && Ready(m.0)
  {
    if rules == [] then (state, 0)
    else
      NamesPrefix(rules);
      var p := rules[..|rules| - 1];
      var r := rules[|rules| - 1];
      PhasesPositivePrefix(rules);
      var s := MoveAll(state, p);
      var racer := Tick(s.0[r.name], r);
      (s.0[r.name := racer], if racer.position > s.1 then racer.position else s.1)
  }

  lemma PhasesPositivePrefix(rules: seq<Reindeer>)
    requires rules != [] && PhasesPositive(rules)
    ensures PhasesPositive(rules[..|rules| - 1])
  {
    var p := rules[..|rules| - 1];
    forall i | 0 <= i < |p| ensures p[i].flytime >= 1 && p[i].resttime >= 1 {
      assert p[i] == rules[i];
    }
  }

  /** Moving never lowers a position, never touches a score, and leaves the
      entries of names without a rule alone. */
  lemma {:induction false} MoveAllFrame(state: map<string, Racer>, rules: seq<Reindeer>)
    requires Names(rules) <= state.Keys && Ready(state) && PhasesPositive(rules)
    ensures forall n :: n in state ==>
      state[n].position <= MoveAll(state, rules).0[n].position && MoveAll(state, rules).0[n].score == state[n].score
    ensures forall n :: n in state && n !in Names(rules) ==> MoveAll(state, rules).0[n] == state[n]
  {
    if rules != [] {
      NamesPrefix(rules);
      PhasesPositivePrefix(rules);
      MoveAllFrame(state, rules[..|rules| - 1]);
    }
  }

  /** The tracked maximum bounds every moved position and is reached by one
      of them. */
  lemma {:induction false} MoveAllLead(state: map<string, Racer>, rules: seq<Reindeer>)
    requires Names(rules) <= state.Keys && Ready(state) && PhasesPositive(rules)
    ensures forall n :: n in Names(rules) ==> MoveAll(state, rules).0[n].position <= MoveAll(state, rules).1
    ensures rules != [] ==> exists n :: n in Names(rules) && MoveAll(state, rules).0[n].position == MoveAll(state, rules).1
  {
    if rules != [] {
      NamesPrefix(rules);
      PhasesPositivePrefix(rules);
      var p := rules[..|rules| - 1];
      var r := rules[|rules| - 1];
      MoveAllLead(state, p);
      var s := MoveAll(state, p);
      var racer := Tick(s.0[r.name], r);
      assert MoveAll(state, rules) == (s.0[r.name := racer], if racer.position > s.1 then racer.position else s.1);
      if p == [] {
        assert s.1 == 0;
      }
    }
  }

  /** The second inner loop: each rule whose entry is at the lead position
      scores one point. */
  function ScoreAll(state: map<string, Racer>, rules: seq<Reindeer>, maxPos: nat): (s: map<string, Racer>)
    requires Names(rules) <= state.Keys
    ensures s.Keys == state.Keys
  {
    if rules == [] then state
    else
      NamesPrefix(rules);
      var r := rules[|rules| - 1];
      var s := ScoreAll(state, rules[..|rules| - 1], maxPos);
      if s[r.name].position == maxPos then s[r.name := s[r.name].(score := s[r.name].score + 1)]
      else s
  }

  /** Scoring changes only scores, never lowers one, leaves names without a
      rule alone, and gives every leader a point. */
  lemma {:induction false} ScoreAllFacts(state: map<string, Racer>, rules: seq<Reindeer>, maxPos: nat)
    requires Names(rules) <= state.Keys
    ensures forall n :: n in state ==>
      ScoreAll(state, rules, maxPos)[n] == state[n].(score := ScoreAll(state, rules, maxPos)[n].score)
      && ScoreAll(state, rules, maxPos)[n].score >= state[n].score
    ensures forall n :: n in state && n !in Names(rules) ==> ScoreAll(state, rules, maxPos)[n] == state[n]
    ensures forall n :: n in Names(rules) && state[n].position == maxPos ==>
      ScoreAll(state, rules, maxPos)[n].score > state[n].score
  {
    if rules != [] {
      NamesPrefix(rules);
      ScoreAllFacts(state, rules[..|rules| - 1], maxPos);
    }
  }

  /** With distinct names, a reindeer at the lead position gains exactly one
      point and every other reindeer keeps its score. */
  lemma {:induction false} ScoreAllExact(state: map<string, Racer>, rules: seq<Reindeer>, maxPos: nat)
    requires Names(rules) <= state.Keys && DistinctNames(rules)
    ensures forall n :: n in state ==>
      ScoreAll(state, rules, maxPos)[n].score
        == state[n].score + (if n in Names(rules) && state[n].position == maxPos then 1 else 0)
  {
    if rules != [] {
      var p := rules[..|rules| - 1];
      var r := rules[|rules| - 1];
      NamesPrefix(rules);
      assert DistinctNames(p) by {
        forall i, j | 0 <= i < j < |p| ensures p[i].name != p[j].name {
          assert p[i] == rules[i] && p[j] == rules[j];
        }
      }
      assert r.name !in Names(p) by {
        forall i | 0 <= i < |p| ensures p[i].name != r.name {
          assert p[i] == rules[i];
        }
      }
      ScoreAllExact(state, p, maxPos);
      ScoreAllFacts(state, p, maxPos);
    }
  }

  function Second(state: map<string, Racer>, rules: seq<Reindeer>): (s: map<string, Racer>)
    requires Names(rules) <= state.Keys && Ready(state) && PhasesPositive(rules)
    ensures s.Keys == state.Keys && Ready(s)
  {
    var (moved, maxPos) := MoveAll(state, rules);
    ScoreAllFacts(moved, rules, maxPos);
    ScoreAll(moved, rules, maxPos)
  }

  /** `t` more seconds of the race from `state`. */
  function Run(state: map<string, Racer>, rules: seq<Reindeer>, t: nat): (s: map<string, Racer>)
    requires Names(rules) <= state.Keys && Ready(state) && PhasesPositive(rules)
    ensures s.Keys == state.Keys && Ready(s)
  {
    if t == 0 then state else Second(Run(state, rules, t - 1), rules)
  }

  lemma InitStateReady(rules: seq<Reindeer>)
    requires PhasesPositive(rules)
    ensures Ready(InitState(rules))
  {
    forall n | n in InitState(rules) ensures InitState(rules)[n].remaining >= 1 {
      InitStateHasFlytime(rules, n);
    }
  }

  /** The part 2 state after `t` seconds. */
  function Race(rules: seq<Reindeer>, t: nat): (s: map<string, Racer>)
    requires PhasesPositive(rules)
    ensures s.Keys == Names(rules) && Ready(s)
  {
    InitStateReady(rules);
    Run(InitState(rules), rules, t)
  }

  lemma InitStateHasFlytime(rules: seq<Reindeer>, n: string)
    requires PhasesPositive(rules) && n in InitState(rules)
    ensures InitState(rules)[n].remaining >= 1
  {
    var r := rules[|rules| - 1];
    if n != r.name {
      PhasesPositivePrefix(rules);
      InitStateHasFlytime(rules[..|rules| - 1], n);
    }
  }

  /** Every second somebody is in the lead and scores, and no score drops. */
  lemma SomeoneScoresEachSecond(state: map<string, Racer>, rules: seq<Reindeer>)
    requires Names(rules) <= state.Keys && Ready(state) && PhasesPositive(rules)
    requires rules != []
    ensures forall n :: n in state ==> Second(state, rules)[n].score >= state[n].score
    ensures exists n :: n in Names(rules) && Second(state, rules)[n].score > state[n].score
  {
    var (moved, maxPos) := MoveAll(state, rules);
    MoveAllFrame(state, rules);
    MoveAllLead(state, rules);
    ScoreAllFacts(moved, rules, maxPos);
    var n :| n in Names(rules) && moved[n].position == maxPos;
    assert ScoreAll(moved, rules, maxPos)[n].score > moved[n].score;
  }

  /** With distinct names each rule ticks its own entry exactly once. */
  lemma MoveAllEntry(state: map<string, Racer>, rules: seq<Reindeer>, k: nat)
    requires Names(rules) <= state.Keys && Ready(state) && PhasesPositive(rules)
    requires DistinctNames(rules) && k < |rules|
    ensures MoveAll(state, rules).0[rules[k].name] == Tick(state[rules[k].name], rules[k])
  {
    NamesPrefix(rules);
    PhasesPositivePrefix(rules);
    var p := rules[..|rules| - 1];
    if k < |rules| - 1 {
      assert p[k] == rules[k];
      MoveAllEntry(state, p, k);
    } else {
      assert rules[k].name !in Names(p);
      MoveAllFrame(state, p);
    }
  }

  /** The phase a lone reindeer is in after `t` seconds, and its position. */
  predicate PhaseAt(r: Reindeer, t: nat, racer: Racer)
    requires r.flytime >= 1 && r.resttime >= 1
  {
    var m := t % Period(r);
    racer.position == DistanceFormula(r, t)
    && (if m < r.flytime then racer.flying && racer.remaining == r.flytime - m
        else !racer.flying && racer.remaining == Period(r) - m)
  }

  lemma DivModNext(t: nat, p: nat)
    requires p > 0
    ensures t % p + 1 < p ==> (t + 1) % p == t % p + 1 && (t + 1) / p == t / p
    ensures t % p + 1 == p ==> (t + 1) % p == 0 && (t + 1) / p == t / p + 1
  {
    var q, m := t / p, t % p;
    assert t == q * p + m;
    if m + 1 < p {
      DivModUnique(t + 1, p, q, m + 1);
    } else {
      assert (q + 1) * p == q * p + p;
      DivModUnique(t + 1, p, q + 1, 0);
    }
  }

  /** One more second adds one flying second exactly when the reindeer is in
      the flying part of its cycle. */
  lemma FlyingStep(r: Reindeer, t: nat)
    requires r.flytime >= 1 && r.resttime >= 1
    ensures FlyingSeconds(r, t + 1) == FlyingSeconds(r, t) + (if t % Period(r) < r.flytime then 1 else 0)
  {
    var p := Period(r);
    var q, m := t / p, t % p;
    DivModNext(t, p);
    if t == 0 {
      DivModUnique(0, p, 0, 0);
    } else if m + 1 == p {
      assert (q + 1) * r.flytime == q * r.flytime + r.flytime;
    }
  }

  /** Ticking a reindeer that is in its phase for `t` seconds puts it in its
      phase for `t + 1` seconds: part 2's per-second positions agree with
      `distance`. */
  lemma TickFollowsPhase(r: Reindeer, t: nat, racer: Racer)
    requires r.flytime >= 1 && r.resttime >= 1 && PhaseAt(r, t, racer)
    ensures racer.remaining >= 1 && PhaseAt(r, t + 1, Tick(racer, r))
  {
    var p := Period(r);
    DivModNext(t, p);
    FlyingStep(r, t);
    MulDistributes(r.speed, FlyingSeconds(r, t), 1);
  }

  lemma PhaseAtStart(r: Reindeer)
    requires r.flytime >= 1 && r.resttime >= 1
    ensures PhaseAt(r, 0, Racer(true, r.flytime, 0, 0))
  {
    DivModUnique(0, Period(r), 0, 0);
  }

  /** Racers that agree on everything but the score. */
  predicate SamePhase(a: Racer, b: Racer) {
    a.flying == b.flying && a.remaining == b.remaining && a.position == b.position
  }

  lemma PhaseAtSamePhase(r: Reindeer, t: nat, a: Racer, b: Racer)
    requires r.flytime >= 1 && r.resttime >= 1 && SamePhase(a, b)
    ensures PhaseAt(r, t, a) == PhaseAt(r, t, b)
  {
  }

  /** A reindeer racing on its own, scores aside. */
  function Lone(r: Reindeer, t: nat): (racer: Racer)
    requires r.flytime >= 1 && r.resttime >= 1
    ensures racer.remaining >= 1
  {
    if t == 0 then Racer(true, r.flytime, 0, 0) else Tick(Lone(r, t - 1), r)
  }

  /** Alone, a reindeer is in its phase at every second. */
  lemma {:induction false} LoneFollowsDistance(r: Reindeer, t: nat)
    requires r.flytime >= 1 && r.resttime >= 1
    ensures PhaseAt(r, t, Lone(r, t))
  {
    if t == 0 {
      PhaseAtStart(r);
    } else {
      LoneFollowsDistance(r, t - 1);
      TickFollowsPhase(r, t - 1, Lone(r, t - 1));
    }
  }

  /** With distinct names a second ticks every reindeer once; scoring then
      leaves its phase and position alone. */
  lemma SecondEntry(state: map<string, Racer>, rules: seq<Reindeer>, k: nat)
    requires Names(rules) <= state.Keys && Ready(state) && PhasesPositive(rules)
    requires DistinctNames(rules) && k < |rules|
    ensures SamePhase(Second(state, rules)[rules[k].name], Tick(state[rules[k].name], rules[k]))
  {
    MoveAllEntry(state, rules, k);
    var moved := MoveAll(state, rules);
    ScoreAllFacts(moved.0, rules, moved.1);
  }

  /** One second keeps a racer in step with a lone copy of its reindeer. */
  lemma SecondMatches(state: map<string, Racer>, rules: seq<Reindeer>, k: nat, lone: Racer)
    requires Names(rules) <= state.Keys && Ready(state) && PhasesPositive(rules)
    requires DistinctNames(rules) && k < |rules|
    requires SamePhase(state[rules[k].name], lone)
    ensures SamePhase(Second(state, rules)[rules[k].name], Tick(lone, rules[k]))
  {
    SecondEntry(state, rules, k);
    TickSamePhase(state[rules[k].name], lone, rules[k]);
  }

  /** In the race, each reindeer behaves as if it raced alone. */
  lemma {:induction false} RunMatchesLone(state: map<string, Racer>, rules: seq<Reindeer>, k: nat, t: nat)
    requires Names(rules) <= state.Keys && Ready(state) && PhasesPositive(rules)
    requires DistinctNames(rules) && k < |rules|
    requires SamePhase(state[rules[k].name], Lone(rules[k], 0))
    ensures SamePhase(Run(state, rules, t)[rules[k].name], Lone(rules[k], t))
  {
    if t > 0 {
      RunMatchesLone(state, rules, k, t - 1);
      SecondMatches(Run(state, rules, t - 1), rules, k, Lone(rules[k], t - 1));
    }
  }

  lemma RaceMatchesLone(rules: seq<Reindeer>, k: nat, t: nat)
    requires PhasesPositive(rules) && DistinctNames(rules) && k < |rules|
    ensures SamePhase(Race(rules, t)[rules[k].name], Lone(rules[k], t))
  {
    InitStateEntry(rules, k);
    InitStateReady(rules);
    RunMatchesLone(InitState(rules), rules, k, t);
  }

  lemma TickSamePhase(a: Racer, b: Racer, r: Reindeer)
    requires a.remaining >= 1 && r.flytime >= 1 && r.resttime >= 1 && SamePhase(a, b)
    ensures SamePhase(Tick(a, r), Tick(b, r))
  {
  }

  /** With distinct names and positive phases, the part 2 position of every
      reindeer after `t` seconds is `distance(t)`, and its flying and resting
      phases alternate as the formula says. */
  lemma RaceFollowsDistance(rules: seq<Reindeer>, k: nat, t: nat)
    requires PhasesPositive(rules) && DistinctNames(rules) && k < |rules|
    ensures PhaseAt(rules[k], t, Race(rules, t)[rules[k].name])
    ensures Race(rules, t)[rules[k].name].position == DistanceFormula(rules[k], t)
  {
    RaceMatchesLone(rules, k, t);
    LoneFollowsDistance(rules[k], t);
    PhaseAtSamePhase(rules[k], t, Race(rules, t)[rules[k].name], Lone(rules[k], t));
  }

  /** `best` is the largest score among the entries `names` of `state`, or
      `None` when `names` is empty. */
  ghost predicate IsMaxScoreOver(state: map<string, Racer>, names: set<string>, best: Option<nat>)
    requires names <= state.Keys
  {
    (best.None? <==> names == {})
    && (best.Some? ==> (exists n :: n in names && state[n].score == best.value)
                       && forall n :: n in names ==> state[n].score <= best.value)
  }

  /** `best` is the largest score in `state`, or `None` for an empty map. */
  ghost predicate IsMaxScore(state: map<string, Racer>, best: Option<nat>) {
    IsMaxScoreOver(state, state.Keys, best)
  }

  /** `best` is the largest distance any rule covers in `t` seconds. */
  ghost predicate IsMaxDistance(rules: seq<Reindeer>, t: nat, best: Option<nat>)
    requires AllTerminate(rules, t)
  {
    (best.None? <==> rules == [])
    && (best.Some? ==> (exists i :: 0 <= i < |rules| && DistanceFormula(rules[i], t) == best.value)
                       && forall i :: 0 <= i < |rules| ==> DistanceFormula(rules[i], t) <= best.value)
  }

  lemma PhasesPositiveTake(rules: seq<Reindeer>, i: nat)
    requires i <= |rules| && PhasesPositive(rules)
    ensures PhasesPositive(rules[..i])
  {
    forall j | 0 <= j < i ensures rules[..i][j].flytime >= 1 && rules[..i][j].resttime >= 1 {
      assert rules[..i][j] == rules[j];
    }
  }

  lemma NamesOfPrefix(rules: seq<Reindeer>, i: nat)
    requires i <= |rules|
    ensures Names(rules[..i]) <= Names(rules)
  {
    forall n | n in Names(rules[..i]) ensures n in Names(rules) {
      var j :| 0 <= j < i && rules[..i][j].name == n;
      assert rules[j] == rules[..i][j];
    }
  }

  /** The fold that creates one entry per reindeer name. */
  method BuildState(rules: seq<Reindeer>) returns (state: map<string, Racer>)
    ensures state == InitState(rules)
  {
    state := map[];
    var i := 0;
    while i < |rules|
      invariant 0 <= i <= |rules|
      invariant state == InitState(rules[..i])
    {
      assert rules[..i + 1][..i] == rules[..i];
      state := state[rules[i].name := Racer(true, rules[i].flytime, 0, 0)];
      i := i + 1;
    }
    assert rules[..i] == rules;
  }

  /** The first inner loop of a second of part 2. */
  method MoveSecond(start: map<string, Racer>, rules: seq<Reindeer>) returns (state: map<string, Racer>, maxPosition: nat)
    requires Names(rules) <= start.Keys && Ready(start) && PhasesPositive(rules)
    ensures (state, maxPosition) == MoveAll(start, rules)
  {
    state := start;
    maxPosition := 0;
    var i := 0;
    while i < |rules|
      invariant 0 <= i <= |rules|
      invariant Names(rules[..i]) <= start.Keys && PhasesPositive(rules[..i])
      invariant (state, maxPosition) == MoveAll(start, rules[..i])
    {
      NamesOfPrefix(rules, i + 1);
      NamesPrefix(rules[..i + 1]);
      assert rules[..i + 1][..i] == rules[..i];
      PhasesPositiveTake(rules, i + 1);
      var r := rules[i];
      var racer := Tick(state[r.name], r);
      if racer.position > maxPosition {
        maxPosition := racer.position;
      }
      state := state[r.name := racer];
      i := i + 1;
    }
    assert rules[..i] == rules;
  }

  /** The second inner loop of a second of part 2. */
  method ScoreSecond(moved: map<string, Racer>, rules: seq<Reindeer>, maxPosition: nat) returns (state: map<string, Racer>)
    requires Names(rules) <= moved.Keys
    ensures state == ScoreAll(moved, rules, maxPosition)
  {
    state := moved;
    var i := 0;
    while i < |rules|
      invariant 0 <= i <= |rules|
      invariant Names(rules[..i]) <= moved.Keys
      invariant state == ScoreAll(moved, rules[..i], maxPosition)
    {
      NamesOfPrefix(rules, i + 1);
      NamesPrefix(rules[..i + 1]);
      assert rules[..i + 1][..i] == rules[..i];
      var r := rules[i];
      if state[r.name].position == maxPosition {
        state := state[r.name := state[r.name].(score := state[r.name].score + 1)];
      }
      i := i + 1;
    }
    assert rules[..i] == rules;
  }

  /** The `max` over the scores of the final state map. */
  method BestScore(state: map<string, Racer>) returns (best: Option<nat>)
    ensures IsMaxScore(state, best)
  {
    best := None;
    var keys := state.Keys;
    ghost var leader: string := "";
    while keys != {}
      invariant keys <= state.Keys
      invariant IsMaxScoreOver(state, state.Keys - keys, best)
      invariant best.Some? ==> leader in state.Keys - keys && state[leader].score == best.value
      decreases |keys|
    {
      var k :| k in keys;
      var score := state[k].score;
      if best.None? || best.value < score {
        leader := k;
      }
      best := match best {
        case Some(m) => Some(Max(m, score))
        case None => Some(score)
      };
      keys := keys - {k};
    }
  }

  /** One second of part 2: every reindeer moves, then the leaders score. */
  method OneSecond(start: map<string, Racer>, rules: seq<Reindeer>) returns (state: map<string, Racer>)
    requires Names(rules) <= start.Keys && Ready(start) && PhasesPositive(rules)
    ensures state == Second(start, rules)
  {
    var moved, maxPosition := MoveSecond(start, rules);
    state := ScoreSecond(moved, rules, maxPosition);
  }

  /** The per-second loop of `analyse_part2`, for a race of `seconds`
      seconds. */
  method ScoreRace(rules: seq<Reindeer>, seconds: nat) returns (best: Option<nat>)
    requires PhasesPositive(rules)
    ensures IsMaxScore(Race(rules, seconds), best)
  {
    var state := BuildState(rules);
    InitStateReady(rules);
    ghost var init := state;
    var time := 1;
    while time <= seconds
      invariant 1 <= time <= seconds + 1
      invariant state == Run(init, rules, time - 1)
    {
      state := OneSecond(state, rules);
      time := time + 1;
    }
    assert time - 1 == seconds;
    assert init == InitState(rules);
    best := BestScore(state);
  }

  class Solution {
    var rules: seq<Reindeer>
    var answerPart1: Option<nat>
    var answerPart2: Option<nat>

    constructor ()
      ensures rules == [] && answerPart1 == None && answerPart2 == None
    {
      rules := [];
      answerPart1 := None;
      answerPart2 := None;
    }

    /** `add_rule`: appends one reindeer. */
    method AddRule(rule: Reindeer)
      modifies this
      ensures rules == old(rules) + [rule]
      ensures answerPart1 == old(answerPart1) && answerPart2 == old(answerPart2)
    {
      rules := rules + [rule];
    }

    /** `analyse_part1`: the largest distance after 2503 seconds. */
    method AnalysePart1() returns (maxDistance: Option<nat>)
      requires AllTerminate(rules, RACE_TIME)
      ensures IsMaxDistance(rules, RACE_TIME, maxDistance)
    {
      maxDistance := None;
      var i := 0;
      while i < |rules|
        invariant 0 <= i <= |rules|
        invariant IsMaxDistance(rules[..i], RACE_TIME, maxDistance)
      {
        var distance := Distance(rules[i], RACE_TIME);
        assert rules[..i + 1][i] == rules[i];
        assert forall j :: 0 <= j < i ==> rules[..i + 1][j] == rules[..i][j];
        maxDistance := match maxDistance {
          case Some(m) => Some(Max(m, distance))
          case None => Some(distance)
        };
        i := i + 1;
      }
      assert rules[..i] == rules;
    }

    /** `analyse_part2`: the best score after 2503 seconds of leader
        points. */
    method AnalysePart2() returns (best: Option<nat>)
      requires PhasesPositive(rules)
      ensures IsMaxScore(Race(rules, RACE_TIME), best)
    {
      best := ScoreRace(rules, RACE_TIME);
    }

    /** `analyse`: stores both answers. */
    method Analyse()
      requires AllTerminate(rules, RACE_TIME) && PhasesPositive(rules)
      modifies this
      ensures rules == old(rules)
      ensures IsMaxDistance(rules, RACE_TIME, answerPart1)
      ensures IsMaxScore(Race(rules, RACE_TIME), answerPart2)
    {
      answerPart1 := AnalysePart1();
      answerPart2 := AnalysePart2();
    }
  }
}
