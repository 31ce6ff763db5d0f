/** Day 22: a wizard fights the boss with spells; the answer is the least
    mana that wins, found by a pruned depth-first search. */
module Day22 {
  import opened Common
  import opened BossStats

  /** `Spell::None` is `Wait`: the player casts nothing. */
  datatype Spell = Wait | MagicMissile | Drain | Shield | Poison | Recharge

  /** `Spell::cost`. */
  function Cost(s: Spell): (c: nat)
    ensures c == 0 <==> s == Wait
    ensures s != Wait ==> 53 <= c <= 229
  {
    match s
    case Wait => 0
    case MagicMissile => 53
    case Drain => 73
    case Shield => 113
    case Poison => 173
    case Recharge => 229
  }

  /** The spells that last several turns, the only ones with timers. */
  predicate IsEffect(s: Spell) {
    s == Shield || s == Poison || s == Recharge
  }

  /** A player or the boss; `spells` maps each effect to its timer. */
  datatype Character = Character(hitPoints: nat, damage: nat, armour: nat, mana: nat, spells: map<Spell, nat>, hard: bool)

  function Timer(spells: map<Spell, nat>, s: Spell): nat {
    if s in spells then spells[s] else 0
  }

  /** Every positive timer one lower. */
  function Decrement(spells: map<Spell, nat>): map<Spell, nat> {
    map s | s in spells :: if spells[s] > 0 then spells[s] - 1 else 0
  }

  /** Each positive timer goes down by exactly one, a zero timer stays,
      and no timer appears or disappears. */
  lemma DecrementTimers(spells: map<Spell, nat>)
    ensures Decrement(spells).Keys == spells.Keys
    ensures forall s :: s in spells && spells[s] > 0 ==> Decrement(spells)[s] == spells[s] - 1
    ensures forall s :: s in spells && spells[s] == 0 ==> Decrement(spells)[s] == 0
  {
  }

  /** The effects can act without a panic: no other spell has a running
      timer, and an expiring Shield has its armour to take back. */
  predicate CanApply(player: Character) {
    && Timer(player.spells, Wait) == 0 && Timer(player.spells, MagicMissile) == 0 && Timer(player.spells, Drain) == 0
    && (Timer(player.spells, Shield) == 1 ==> player.armour >= 7)
  }

  /** `Character::apply_spells`: every active effect loses a turn and
      acts. Shield takes its 7 armour back when its timer reaches 0,
      Poison takes 3 hit points from the boss down to 0, Recharge adds 101
      mana. `None` where the source panics: an active timer on a spell
      that is not an effect, or armour too low to take back. */
  function Effects(player: Character, boss: Character): (r: Option<(Character, Character)>)
    ensures r.None? <==> !CanApply(player)
    ensures r.Some? ==>
      && r.value.0 == player.(
           spells := Decrement(player.spells),
           armour := if Timer(player.spells, Shield) == 1 then player.armour - 7 else player.armour,
           mana := if Timer(player.spells, Recharge) > 0 then player.mana + 101 else player.mana)
      && r.value.1 == boss.(hitPoints := if Timer(player.spells, Poison) > 0 then Max(0, boss.hitPoints - 3) else boss.hitPoints)
  {
    var spells := player.spells;
    if !CanApply(player) then None
    else
      var armour := if Timer(spells, Shield) == 1 then player.armour - 7 else player.armour;
      var mana := if Timer(spells, Recharge) > 0 then player.mana + 101 else player.mana;
      var hitPoints := if Timer(spells, Poison) > 0 then (if boss.hitPoints <= 3 then 0 else boss.hitPoints - 3) else boss.hitPoints;
      Some((player.(spells := Decrement(spells), armour := armour, mana := mana), boss.(hitPoints := hitPoints)))
  }

  /** What a player keeps between turns: timers only on effects, and the
      Shield's 7 armour exactly while the Shield is up. */
  predicate Inv(player: Character) {
    && (forall s :: s in player.spells ==> IsEffect(s))
    && player.armour == if Timer(player.spells, Shield) > 0 then 7 else 0
  }

  /** The effects never panic for a player that keeps `Inv`, and keep it. */
  lemma EffectsKeep(player: Character, boss: Character)
    requires Inv(player)
    ensures Effects(player, boss).Some?
    ensures Inv(Effects(player, boss).value.0)
    ensures Effects(player, boss).value.0.armour <= 7
  {
    var p := Effects(player, boss).value.0;
    assert Timer(p.spells, Shield) == if Timer(player.spells, Shield) > 0 then Timer(player.spells, Shield) - 1 else 0;
  }

  /** The timers with those outside `todo` decremented. */
  function DecrementOutside(spells: map<Spell, nat>, todo: set<Spell>): map<Spell, nat> {
    map s | s in spells :: if s !in todo && spells[s] > 0 then spells[s] - 1 else spells[s]
  }

  lemma DecrementStep(spells: map<Spell, nat>, todo: set<Spell>, s: Spell)
    requires s in todo && s in spells
    ensures DecrementOutside(spells, todo - {s}) ==
      if spells[s] > 0 then DecrementOutside(spells, todo)[s := spells[s] - 1] else DecrementOutside(spells, todo)
  {
  }

  /** The timers, armour, mana and boss hit points once the effects
      outside `todo` have acted. */
  function Pending(player: Character, boss: Character, todo: set<Spell>): (map<Spell, nat>, int, nat, nat) {
    (DecrementOutside(player.spells, todo),
     if Shield !in todo && Timer(player.spells, Shield) == 1 then player.armour - 7 else player.armour,
     if Recharge !in todo && Timer(player.spells, Recharge) > 0 then player.mana + 101 else player.mana,
     if Poison !in todo && Timer(player.spells, Poison) > 0 then Max(0, boss.hitPoints - 3) else boss.hitPoints)
  }

  /** One more effect acting, as the loop body does it. */
  lemma PendingStep(player: Character, boss: Character, todo: set<Spell>, s: Spell)
    requires CanApply(player) && s in todo && s in player.spells
    ensures var (spells, armour, mana, hitPoints) := Pending(player, boss, todo);
      var turns := player.spells[s];
      Pending(player, boss, todo - {s}) ==
        if turns == 0 then (spells, armour, mana, hitPoints)
        else if s == Shield then (spells[s := turns - 1], if turns - 1 == 0 then armour - 7 else armour, mana, hitPoints)
        else if s == Poison then (spells[s := turns - 1], armour, mana, if hitPoints <= 3 then 0 else hitPoints - 3)
        else (spells[s := turns - 1], armour, mana + 101, hitPoints)
  {
    assert player.spells[s] > 0 ==> IsEffect(s) by { assert Timer(player.spells, s) == player.spells[s]; }
    DecrementStep(player.spells, todo, s);
  }

  lemma PendingStart(player: Character, boss: Character)
    ensures Pending(player, boss, player.spells.Keys) == (player.spells, player.armour, player.mana, boss.hitPoints)
  {
    assert DecrementOutside(player.spells, player.spells.Keys) == player.spells;
  }

  lemma PendingDone(player: Character, boss: Character)
    requires CanApply(player)
    ensures var (spells, armour, mana, hitPoints) := Pending(player, boss, {});
      armour >= 0 && Effects(player, boss) == Some((player.(spells := spells, armour := armour, mana := mana), boss.(hitPoints := hitPoints)))
  {
    assert DecrementOutside(player.spells, {}) == Decrement(player.spells);
  }

  /** `apply_spells`: the loop over a copy of the timers, in whatever
      order the map yields them. */
  method ApplySpells(player: Character, boss: Character) returns (p: Character, b: Character)
    requires CanApply(player)
    ensures Effects(player, boss) == Some((p, b))
  {
    var spells, armour: int, mana, hitPoints := player.spells, player.armour, player.mana, boss.hitPoints;
    var todo := player.spells.Keys;
    PendingStart(player, boss);
    while todo != {}
      invariant todo <= player.spells.Keys
      invariant (spells, armour, mana, hitPoints) == Pending(player, boss, todo)
      decreases todo
    {
      var s :| s in todo;
      var turns := player.spells[s];
      PendingStep(player, boss, todo, s);
      if turns > 0 {
        spells := spells[s := turns - 1];
        if s == Shield {
          if turns - 1 == 0 {
            armour := armour - 7;
          }
        } else if s == Poison {
          if hitPoints <= 3 {
            hitPoints := 0;
          } else {
            hitPoints := hitPoints - 3;
          }
        } else {
          mana := mana + 101;
        }
      }
      todo := todo - {s};
    }
    PendingDone(player, boss);
    p := player.(spells := spells, armour := armour, mana := mana);
    b := boss.(hitPoints := hitPoints);
  }

  /** How one round (a player turn, then a boss turn) ends. `spent` is
      the mana the player paid in it. */
  datatype RoundResult =
    | Dead
    | Blocked
    | Panicked
    | BossDead(spent: nat)
    | Next(player: Character, boss: Character, spent: nat)

  /** The boss turn of a round: effects act again, then the boss hits for
      its damage less the player's armour, and at least 1. */
  function BossTurn(player: Character, boss: Character, spent: nat): (r: RoundResult)
    ensures r.BossDead? ==> r.spent == spent
    ensures r.Next? ==> r.spent == spent && r.player.hitPoints < player.hitPoints
  {
    if player.armour > 7 then Panicked
    else
      match Effects(player, boss)
      case None => Panicked
      case Some((p, b)) =>
        if b.hitPoints == 0 then BossDead(spent)
        else
          var damage := if b.damage <= p.armour then 1 else b.damage - p.armour;
          if p.hitPoints <= damage then Dead
          else Next(p.(hitPoints := p.hitPoints - damage), b, spent)
  }

  /** The damage a spell deals the boss at once. */
  function Strike(cast: Spell): nat {
    match cast
    case MagicMissile => 4
    case Drain => 2
    case _ => 0
  }

  /** The player after paying for `cast` and its effect on the player:
      Drain heals 2, Shield adds 7 armour, the effects start their timers. */
  function Paid(p: Character, cast: Spell): Character
    requires p.mana >= Cost(cast)
  {
    var paid := p.(mana := p.mana - Cost(cast));
    match cast
    case Drain => paid.(hitPoints := paid.hitPoints + 2)
    case Shield => paid.(spells := paid.spells[Shield := 6], armour := paid.armour + 7)
    case Poison => paid.(spells := paid.spells[Poison := 6])
    case Recharge => paid.(spells := paid.spells[Recharge := 5])
    case _ => paid
  }

  /** The player's cast, once the effects have acted: a spell the player
      cannot afford becomes a wait, a spell whose timer still runs ends
      the branch, otherwise the spell is paid and acts, and unless it
      kills the boss the boss turn follows. */
  function Cast(p: Character, b: Character, spell: Spell): (r: RoundResult)
    ensures r.BossDead? || r.Next? ==> r.spent == 0 || r.spent == Cost(spell)
    ensures (r.BossDead? || r.Next?) && p.mana >= Cost(spell) ==> r.spent == Cost(spell)
    ensures r.Next? ==> r.player.hitPoints <= p.hitPoints + 1
    ensures r.Next? && r.spent != Cost(Drain) ==> r.player.hitPoints < p.hitPoints
  {
    var cast := if p.mana < Cost(spell) then Wait else spell;
    if Timer(p.spells, cast) > 0 then Blocked
    else if Strike(cast) > 0 && b.hitPoints <= Strike(cast) then BossDead(Cost(cast))
    else BossTurn(Paid(p, cast), b.(hitPoints := b.hitPoints - Strike(cast)), Cost(cast))
  }

  /** The player at the start of a round: a hard player loses a hit
      point. */
  function Penalised(player: Character): (r: Character)
    requires !(player.hard && player.hitPoints <= 1)
    ensures r.(hitPoints := player.hitPoints) == player
    ensures player.hard ==> 1 <= r.hitPoints == player.hitPoints - 1
    ensures !player.hard ==> r == player
  {
    if player.hard then player.(hitPoints := player.hitPoints - 1) else player
  }

  /** One round of `fight_pass` with `spell`: a hard player loses a hit
      point first, and dies at 1; effects act and may kill the boss; then
      the cast. */
  function Round(player: Character, boss: Character, spell: Spell): (r: RoundResult)
    ensures r.Next? ==> r.player.hitPoints <= player.hitPoints + 1
    ensures r.Next? && r.spent != Cost(Drain) ==> r.player.hitPoints < player.hitPoints
    ensures r.BossDead? || r.Next? ==> r.spent == 0 || r.spent == Cost(spell)
    ensures r.Next? && player.mana >= Cost(spell) ==> r.spent == Cost(spell)
    ensures player.hard && player.hitPoints <= 1 ==> r == Dead
  {
    if player.hard && player.hitPoints <= 1 then Dead
    else
      var effects := Effects(Penalised(player), boss);
      if effects.None? then Panicked
      else if effects.value.1.hitPoints == 0 then BossDead(0)
      else Cast(effects.value.0, effects.value.1, spell)
  }

  /** A round in which neither the hard-mode penalty nor the effects
      ends the fight hands over to the cast. */
  lemma RoundIsCast(player: Character, boss: Character, spell: Spell, p: Character, b: Character)
    requires !(player.hard && player.hitPoints <= 1)
    requires Effects(Penalised(player), boss) == Some((p, b))
    requires b.hitPoints != 0
    ensures Round(player, boss, spell) == Cast(p, b, spell)
  {
  }

  lemma BossTurnKeeps(player: Character, boss: Character, spent: nat)
    requires Inv(player) && player.armour <= 7
    ensures !BossTurn(player, boss, spent).Panicked?
    ensures BossTurn(player, boss, spent).Next? ==> Inv(BossTurn(player, boss, spent).player)
  {
    EffectsKeep(player, boss);
  }

  /** A cast that neither stops the branch nor kills the boss at once
      hands over to the boss turn. */
  lemma CastIsBossTurn(p: Character, b: Character, spell: Spell, cast: Spell)
    requires cast == (if p.mana < Cost(spell) then Wait else spell) && Timer(p.spells, cast) == 0
    requires !(Strike(cast) > 0 && b.hitPoints <= Strike(cast))
    ensures Cast(p, b, spell) == BossTurn(Paid(p, cast), b.(hitPoints := b.hitPoints - Strike(cast)), Cost(cast))
  {
  }

  /** A cast whose timer has run out keeps `Inv`: only a Shield cast
      adds armour, and only while no Shield is up. */
  lemma PaidKeeps(p: Character, cast: Spell)
    requires Inv(p) && p.mana >= Cost(cast) && Timer(p.spells, cast) == 0
    ensures Inv(Paid(p, cast)) && Paid(p, cast).armour <= 7
  {
  }

  lemma CastKeeps(p: Character, b: Character, spell: Spell)
    requires Inv(p)
    ensures !Cast(p, b, spell).Panicked?
    ensures Cast(p, b, spell).Next? ==> Inv(Cast(p, b, spell).player)
  {
    var cast := if p.mana < Cost(spell) then Wait else spell;
    if Timer(p.spells, cast) == 0 && !(Strike(cast) > 0 && b.hitPoints <= Strike(cast)) {
      PaidKeeps(p, cast);
      CastIsBossTurn(p, b, spell, cast);
      BossTurnKeeps(Paid(p, cast), b.(hitPoints := b.hitPoints - Strike(cast)), Cost(cast));
    }
  }

  /** A player that keeps `Inv` never makes the round panic, and keeps
      `Inv` into the next round. */
  lemma RoundKeeps(player: Character, boss: Character, spell: Spell)
    requires Inv(player)
    ensures !Round(player, boss, spell).Panicked?
    ensures Round(player, boss, spell).Next? ==> Inv(Round(player, boss, spell).player)
  {
    if !(player.hard && player.hitPoints <= 1) {
      var start := Penalised(player);
      EffectsKeep(start, boss);
      var (p, b) := Effects(start, boss).value;
      CastKeeps(p, b, spell);
    }
  }

  /** The boss turn as `fight_pass` plays it. */
  method PlayBossTurn(player: Character, boss: Character, spent: nat) returns (r: RoundResult)
    requires Inv(player) && player.armour <= 7
    ensures r == BossTurn(player, boss, spent)
  {
    EffectsKeep(player, boss);
    var p, b := ApplySpells(player, boss);
    if b.hitPoints == 0 {
      return BossDead(spent);
    }
    var damage := if b.damage <= p.armour then 1 else b.damage - p.armour;
    if p.hitPoints <= damage {
      return Dead;
    }
    p := p.(hitPoints := p.hitPoints - damage);
    r := Next(p, b, spent);
  }

  /** The cast as `fight_pass` plays it. The `panic!` guarding armour
      above 7 is proved unreachable. */
  method PlayCast(player: Character, boss: Character, spell: Spell) returns (r: RoundResult)
    requires Inv(player)
    ensures r == Cast(player, boss, spell)
  {
    var p, b := player, boss;
    var cast := spell;
    if p.mana < Cost(cast) {
      cast := Wait;
    }
    if Timer(p.spells, cast) > 0 {
      return Blocked;
    }
    var cost := Cost(cast);
    p := p.(mana := p.mana - cost);
    match cast {
      case Wait =>
      case MagicMissile =>
        if b.hitPoints <= 4 {
          return BossDead(cost);
        }
        b := b.(hitPoints := b.hitPoints - 4);
      case Drain =>
        p := p.(hitPoints := p.hitPoints + 2);
        if b.hitPoints <= 2 {
          return BossDead(cost);
        }
        b := b.(hitPoints := b.hitPoints - 2);
      case Shield =>
        p := p.(spells := p.spells[Shield := 6], armour := p.armour + 7);
      case Poison =>
        p := p.(spells := p.spells[Poison := 6]);
      case Recharge =>
        p := p.(spells := p.spells[Recharge := 5]);
    }
    assert p == Paid(player, cast);
    assert b == boss.(hitPoints := boss.hitPoints - Strike(cast));
    CastIsBossTurn(player, boss, spell, cast);
    PaidKeeps(player, cast);
    r := PlayBossTurn(p, b, cost);
  }

  /** The round as `fight_pass` plays it, changing the two characters in
      place. */
  method PlayRound(player: Character, boss: Character, spell: Spell) returns (r: RoundResult)
    requires Inv(player)
    ensures r == Round(player, boss, spell)
  {
    var p, b := player, boss;
    if p.hard {
      if p.hitPoints <= 1 {
        return Dead;
      }
      p := p.(hitPoints := p.hitPoints - 1);
    }
    assert p == Penalised(player);
    EffectsKeep(p, b);
    p, b := ApplySpells(p, b);
    if b.hitPoints == 0 {
      return BossDead(0);
    }
    RoundIsCast(player, boss, spell, p, b);
    r := PlayCast(p, b, spell);
  }

  /** The spells `fight` and `fight_pass` try, in `Spell::iter` order,
      `Spell::None` skipped. */
  const CASTS: seq<Spell> := [MagicMissile, Drain, Shield, Poison, Recharge]

  /** The best of the costs found so far and a new one: the lower. */
  function Keep(acc: Option<nat>, c: Option<nat>): (r: Option<nat>)
    ensures c.None? ==> r == acc
    ensures c.Some? ==> r.Some? && r.value == if acc.Some? then Min(acc.value, c.value) else c.value
    ensures r == acc || r == c
  {
    match c
    case None => acc
    case Some(cost) => if acc.Some? && acc.value < cost then acc else c
  }

  /** The mana left below `cap`: the search's bound, which falls with
      every spell paid. */
  function Measure(manaUsed: nat, cap: nat): nat {
    if manaUsed <= cap then cap + 1 - manaUsed else 0
  }

  /** A way to play one round, as `fight_pass` plays it with `Round`;
      the search and the replay below are written over any such. */
  type RoundFn = (Character, Character, Spell) -> RoundResult

  /** A round that goes on costs mana or hit points: the search ends. */
  predicate Shrinks(r: RoundResult, player: Character) {
    r.Next? ==> r.spent > 0 || r.player.hitPoints < player.hitPoints
  }

  ghost predicate Progress(round: RoundFn) {
    forall player, boss, spell :: Shrinks(round(player, boss, spell), player)
  }

  /** `Round` goes on only by paying mana or losing hit points. */
  lemma RoundProgress()
    ensures Progress(Round)
  {
    forall player, boss, spell
      ensures Shrinks(Round(player, boss, spell), player)
    {
      assert Cost(Drain) > 0;
    }
  }

  /** `fight_pass` with the best known cost `best` (the global cache)
      before it and the best known cost after it, next to its result. A
      branch that has spent more than the best known cost is given up. */
  function Pass(round: RoundFn, player: Character, boss: Character, spell: Spell, manaUsed: nat, best: Option<nat>, cap: nat): (r: (Option<nat>, Option<nat>))
    requires Progress(round) && best.Some? && best.value <= cap
    ensures r.1.Some? && r.1.value <= best.value
    ensures r.0.Some? ==> r.0.value >= manaUsed
    decreases Measure(manaUsed, cap), player.hitPoints, 1, 0
  {
    if manaUsed > best.value then (None, best)
    else
      var next := round(player, boss, spell);
      assert Shrinks(next, player);
      PassFrom(round, next, manaUsed, best, cap)
  }

  /** The rest of `fight_pass` once the round has ended with `next`: a
      dead boss is a win for the mana spent, a round that goes on goes on
      with every spell, and the cache learns the best win below it. */
  function PassFrom(round: RoundFn, next: RoundResult, manaUsed: nat, best: Option<nat>, cap: nat): (r: (Option<nat>, Option<nat>))
    requires Progress(round) && best.Some? && best.value <= cap
    ensures r.1.Some? && r.1.value <= best.value
    ensures r.0.Some? ==> r.0.value >= manaUsed
    decreases if next.Next? then Measure(manaUsed + next.spent, cap) else 0, if next.Next? then next.player.hitPoints else 0, 3, 0
  {
    match next
    case BossDead(spent) =>
      var total: nat := manaUsed + spent;
      (Some(total), best)
    case Next(p, b, spent) =>
      var (found, known) := Explore(round, p, b, CASTS, manaUsed + spent, best, cap, None);
      (found, if found.Some? then Keep(known, found) else known)
    case _ => (None, best)
  }

  /** The loop over the spells after a round: each branch in turn, the
      cache passed on from one to the next, the cheapest win kept. */
  function Explore(round: RoundFn, player: Character, boss: Character, spells: seq<Spell>, manaUsed: nat, best: Option<nat>, cap: nat, acc: Option<nat>): (r: (Option<nat>, Option<nat>))
    requires Progress(round) && best.Some? && best.value <= cap
    ensures r.1.Some? && r.1.value <= best.value
    ensures (acc.None? || acc.value >= manaUsed) && r.0.Some? ==> r.0.value >= manaUsed
    decreases Measure(manaUsed, cap), player.hitPoints, 2, |spells|
  {
    if spells == [] then (acc, best)
    else
      var (c, known) := Pass(round, player, boss, spells[0], manaUsed, best, cap);
      Explore(round, player, boss, spells[1..], manaUsed, known, cap, Keep(acc, c))
  }

  /** The cache `fight` starts from. */
  const INITIAL_BEST: nat := 1400

  /** `Solution::fight`: the cheapest win the search finds. */
  ghost function FightSpec(player: Character, boss: Character): Option<nat> {
    RoundProgress();
    Explore(Round, player, boss, CASTS, 0, Some(INITIAL_BEST), INITIAL_BEST, None).0
  }

  /** The mana a fight costs when the player casts `spells` round after
      round, if the boss dies in the last of them. */
  function Replay(round: RoundFn, player: Character, boss: Character, spells: seq<Spell>): Option<nat>
    decreases |spells|, 0
  {
    if spells == [] then None else ReplayFrom(round, round(player, boss, spells[0]), spells[1..])
  }

  /** The rest of a replay once a round has ended with `next`. */
  function ReplayFrom(round: RoundFn, next: RoundResult, rest: seq<Spell>): Option<nat>
    decreases |rest|, 1
  {
    match next
    case BossDead(spent) => if rest == [] then Some(spent) else None
    case Next(p, b, spent) =>
      (match Replay(round, p, b, rest)
       case None => None
       case Some(c) => Some(spent + c))
    case _ => None
  }

  /** A replay is its first round, then the rest. */
  lemma ReplayStep(round: RoundFn, player: Character, boss: Character, spell: Spell, rest: seq<Spell>)
    ensures Replay(round, player, boss, [spell] + rest) == ReplayFrom(round, round(player, boss, spell), rest)
  {
    assert ([spell] + rest)[1..] == rest;
  }

  /** Every cost the search returns is what some sequence of casts,
      starting with `spell`, costs: a win it really found. */
  lemma PassSound(round: RoundFn, player: Character, boss: Character, spell: Spell, manaUsed: nat, best: Option<nat>, cap: nat)
    returns (spells: seq<Spell>)
    requires Progress(round) && best.Some? && best.value <= cap
    requires Pass(round, player, boss, spell, manaUsed, best, cap).0.Some?
    ensures spells != [] && spells[0] == spell
    ensures Replay(round, player, boss, spells) == Some(Pass(round, player, boss, spell, manaUsed, best, cap).0.value - manaUsed)
    decreases Measure(manaUsed, cap), player.hitPoints, 1, 0
  {
    assert manaUsed <= best.value;
    var next := round(player, boss, spell);
    assert Shrinks(next, player);
    var rest := PassFromSound(round, next, manaUsed, best, cap);
    ReplayStep(round, player, boss, spell, rest);
    spells := [spell] + rest;
  }

  lemma {:induction false} PassFromSound(round: RoundFn, next: RoundResult, manaUsed: nat, best: Option<nat>, cap: nat)
    returns (rest: seq<Spell>)
    requires Progress(round) && best.Some? && best.value <= cap
    requires PassFrom(round, next, manaUsed, best, cap).0.Some?
    ensures ReplayFrom(round, next, rest) == Some(PassFrom(round, next, manaUsed, best, cap).0.value - manaUsed)
    decreases if next.Next? then Measure(manaUsed + next.spent, cap) else 0, if next.Next? then next.player.hitPoints else 0, 3, 0
  {
    match next
    case BossDead(spent) =>
      rest := [];
    case Next(p, b, spent) =>
      rest := ExploreSound(round, p, b, CASTS, manaUsed + spent, best, cap, None);
  }

  lemma {:induction false} ExploreSound(round: RoundFn, player: Character, boss: Character, spells: seq<Spell>, manaUsed: nat, best: Option<nat>, cap: nat, acc: Option<nat>)
    returns (casts: seq<Spell>)
    requires Progress(round) && best.Some? && best.value <= cap
    requires Explore(round, player, boss, spells, manaUsed, best, cap, acc).0.Some?
    requires Explore(round, player, boss, spells, manaUsed, best, cap, acc).0 != acc
    ensures casts != [] && casts[0] in spells
    ensures Replay(round, player, boss, casts) == Some(Explore(round, player, boss, spells, manaUsed, best, cap, acc).0.value - manaUsed)
    decreases Measure(manaUsed, cap), player.hitPoints, 2, |spells|
  {
    var (c, known) := Pass(round, player, boss, spells[0], manaUsed, best, cap);
    var acc' := Keep(acc, c);
    var r := Explore(round, player, boss, spells[1..], manaUsed, known, cap, acc').0;
    assert Explore(round, player, boss, spells, manaUsed, best, cap, acc).0 == r;
    if r != acc' {
      casts := ExploreSound(round, player, boss, spells[1..], manaUsed, known, cap, acc');
      assert casts[0] in spells;
    } else {
      casts := PassSound(round, player, boss, spells[0], manaUsed, best, cap);
    }
  }

  /** The answer of `fight` is the cost of a real win: `spells` is one. */
  lemma FightSound(player: Character, boss: Character) returns (spells: seq<Spell>)
    requires FightSpec(player, boss).Some?
    ensures spells != [] && spells[0] in CASTS && Replay(Round, player, boss, spells) == FightSpec(player, boss)
  {
    RoundProgress();
    spells := ExploreSound(Round, player, boss, CASTS, 0, Some(INITIAL_BEST), INITIAL_BEST, None);
  }

  /** The search's best never rises above what it was given. */
  lemma {:induction false} ExploreKeeps(round: RoundFn, player: Character, boss: Character, spells: seq<Spell>, manaUsed: nat, best: Option<nat>, cap: nat, acc: Option<nat>)
    requires Progress(round) && best.Some? && best.value <= cap && acc.Some?
    ensures Explore(round, player, boss, spells, manaUsed, best, cap, acc).0.Some?
    ensures Explore(round, player, boss, spells, manaUsed, best, cap, acc).0.value <= acc.value
    decreases |spells|
  {
    if spells != [] {
      var (c, known) := Pass(round, player, boss, spells[0], manaUsed, best, cap);
      ExploreKeeps(round, player, boss, spells[1..], manaUsed, known, cap, Keep(acc, c));
    }
  }

  /** The cache falls only to a win that is returned: when a pass leaves
      the cache below what it was given, its own result is a win no
      dearer than the new cache. */
  lemma PassCache(round: RoundFn, player: Character, boss: Character, spell: Spell, manaUsed: nat, best: Option<nat>, cap: nat)
    requires Progress(round) && best.Some? && best.value <= cap
    ensures var (found, known) := Pass(round, player, boss, spell, manaUsed, best, cap);
      known.value < best.value ==> found.Some? && found.value <= known.value
    decreases Measure(manaUsed, cap), player.hitPoints, 1, 0
  {
    if manaUsed <= best.value {
      var next := round(player, boss, spell);
      assert Shrinks(next, player);
      PassFromCache(round, next, manaUsed, best, cap);
    }
  }

  lemma {:induction false} PassFromCache(round: RoundFn, next: RoundResult, manaUsed: nat, best: Option<nat>, cap: nat)
    requires Progress(round) && best.Some? && best.value <= cap
    ensures var (found, known) := PassFrom(round, next, manaUsed, best, cap);
      known.value < best.value ==> found.Some? && found.value <= known.value
    decreases if next.Next? then Measure(manaUsed + next.spent, cap) else 0, if next.Next? then next.player.hitPoints else 0, 3, 0
  {
    if next.Next? {
      ExploreCache(round, next.player, next.boss, CASTS, manaUsed + next.spent, best, cap, None);
    }
  }

  lemma {:induction false} ExploreCache(round: RoundFn, player: Character, boss: Character, spells: seq<Spell>, manaUsed: nat, best: Option<nat>, cap: nat, acc: Option<nat>)
    requires Progress(round) && best.Some? && best.value <= cap
    ensures var (found, known) := Explore(round, player, boss, spells, manaUsed, best, cap, acc);
      known.value < best.value ==> found.Some? && found.value <= known.value
    decreases Measure(manaUsed, cap), player.hitPoints, 2, |spells|
  {
    if spells != [] {
      var (c, known) := Pass(round, player, boss, spells[0], manaUsed, best, cap);
      PassCache(round, player, boss, spells[0], manaUsed, best, cap);
      ExploreCache(round, player, boss, spells[1..], manaUsed, known, cap, Keep(acc, c));
      if c.Some? {
        ExploreKeeps(round, player, boss, spells[1..], manaUsed, known, cap, Keep(acc, c));
      }
    }
  }

  /** No win is missed: a fight that casts `spells`, starting with the
      pass's spell, at a total of at most the cache is matched or beaten
      by the pass's result. */
  lemma PassOptimal(round: RoundFn, player: Character, boss: Character, spells: seq<Spell>, manaUsed: nat, best: Option<nat>, cap: nat, c: nat)
    requires Progress(round) && best.Some? && best.value <= cap
    requires spells != [] && forall i :: 0 <= i < |spells| ==> spells[i] in CASTS
    requires Replay(round, player, boss, spells) == Some(c) && manaUsed + c <= best.value
    ensures Pass(round, player, boss, spells[0], manaUsed, best, cap).0.Some?
    ensures Pass(round, player, boss, spells[0], manaUsed, best, cap).0.value <= manaUsed + c
    decreases Measure(manaUsed, cap), player.hitPoints, 1, 0
  {
    var next := round(player, boss, spells[0]);
    assert Shrinks(next, player);
    PassFromOptimal(round, next, spells[1..], manaUsed, best, cap, c);
  }

  lemma {:induction false} PassFromOptimal(round: RoundFn, next: RoundResult, rest: seq<Spell>, manaUsed: nat, best: Option<nat>, cap: nat, c: nat)
    requires Progress(round) && best.Some? && best.value <= cap
    requires forall i :: 0 <= i < |rest| ==> rest[i] in CASTS
    requires ReplayFrom(round, next, rest) == Some(c) && manaUsed + c <= best.value
    ensures PassFrom(round, next, manaUsed, best, cap).0.Some?
    ensures PassFrom(round, next, manaUsed, best, cap).0.value <= manaUsed + c
    decreases if next.Next? then Measure(manaUsed + next.spent, cap) else 0, if next.Next? then next.player.hitPoints else 0, 3, 0
  {
    match next
    case BossDead(spent) =>
    case Next(p, b, spent) =>
      var more := Replay(round, p, b, rest).value;
      ExploreOptimal(round, p, b, CASTS, manaUsed + spent, best, cap, None, rest, more);
  }

  lemma {:induction false} ExploreOptimal(round: RoundFn, player: Character, boss: Character, spells: seq<Spell>, manaUsed: nat, best: Option<nat>, cap: nat, acc: Option<nat>, casts: seq<Spell>, c: nat)
    requires Progress(round) && best.Some? && best.value <= cap
    requires casts != [] && casts[0] in spells && forall i :: 0 <= i < |casts| ==> casts[i] in CASTS
    requires Replay(round, player, boss, casts) == Some(c) && manaUsed + c <= best.value
    ensures Explore(round, player, boss, spells, manaUsed, best, cap, acc).0.Some?
    ensures Explore(round, player, boss, spells, manaUsed, best, cap, acc).0.value <= manaUsed + c
    decreases Measure(manaUsed, cap), player.hitPoints, 2, |spells|
  {
    var (c0, known) := Pass(round, player, boss, spells[0], manaUsed, best, cap);
    var acc' := Keep(acc, c0);
    if spells[0] == casts[0] {
      PassOptimal(round, player, boss, casts, manaUsed, best, cap, c);
      ExploreKeeps(round, player, boss, spells[1..], manaUsed, known, cap, acc');
    } else if manaUsed + c <= known.value {
      ExploreOptimal(round, player, boss, spells[1..], manaUsed, known, cap, acc', casts, c);
    } else {
      PassCache(round, player, boss, spells[0], manaUsed, best, cap);
      ExploreKeeps(round, player, boss, spells[1..], manaUsed, known, cap, acc');
    }
  }

  /** The answer of `fight` is the cheapest win: no fight won for at most
      the starting cache of 1400 costs less. */
  lemma FightOptimal(player: Character, boss: Character, spells: seq<Spell>, c: nat)
    requires forall i :: 0 <= i < |spells| ==> spells[i] in CASTS
    requires Replay(Round, player, boss, spells) == Some(c) && c <= INITIAL_BEST
    ensures FightSpec(player, boss).Some? && FightSpec(player, boss).value <= c
  {
    RoundProgress();
    assert spells[0] in CASTS;
    ExploreOptimal(Round, player, boss, CASTS, 0, Some(INITIAL_BEST), INITIAL_BEST, None, spells, c);
  }

  /** Once some fight of at most 1400 mana is won, the answer of `fight`
      is what a real win costs and no win costs less. */
  lemma FightIsCheapest(player: Character, boss: Character, spells: seq<Spell>, c: nat)
    requires forall i :: 0 <= i < |spells| ==> spells[i] in CASTS
    requires Replay(Round, player, boss, spells) == Some(c) && c <= INITIAL_BEST
    ensures FightSpec(player, boss).Some?
    ensures exists casts :: Replay(Round, player, boss, casts) == FightSpec(player, boss)
    ensures forall casts ::
      (forall i :: 0 <= i < |casts| ==> casts[i] in CASTS) && Replay(Round, player, boss, casts).Some? ==>
      FightSpec(player, boss).value <= Replay(Round, player, boss, casts).value
  {
    FightOptimal(player, boss, spells, c);
    var found := FightSound(player, boss);
    forall casts | (forall i :: 0 <= i < |casts| ==> casts[i] in CASTS) && Replay(Round, player, boss, casts).Some?
      ensures FightSpec(player, boss).value <= Replay(Round, player, boss, casts).value
    {
      var d := Replay(Round, player, boss, casts).value;
      if d <= INITIAL_BEST {
        FightOptimal(player, boss, casts, d);
      }
    }
  }

  /** The sum of the spells' costs. */
  function TotalCost(spells: seq<Spell>): nat {
    if spells == [] then 0 else Cost(spells[0]) + TotalCost(spells[1..])
  }

  /** A fight costs at most what its spells cost: a spell the player
      cannot afford is a free wait. */
  lemma {:induction false} ReplayCost(player: Character, boss: Character, spells: seq<Spell>)
    requires Replay(Round, player, boss, spells).Some?
    ensures Replay(Round, player, boss, spells).value <= TotalCost(spells)
    decreases |spells|
  {
    match Round(player, boss, spells[0])
    case BossDead(spent) =>
    case Next(p, b, spent) =>
      ReplayCost(p, b, spells[1..]);
  }

  /** The example fight: 10 hit points and 250 mana against a boss with
      13 hit points and 8 damage. */
  const EXAMPLE_PLAYER := Character(10, 0, 0, 250, map[], false)
  const EXAMPLE_BOSS := Character(13, 8, 0, 0, map[], false)

  /** First round: Poison is cast, ticks once in the boss turn, and the
      boss hits for 8. */
  lemma KnownFirstRound()
    ensures Round(EXAMPLE_PLAYER, EXAMPLE_BOSS, Poison)
      == Next(Character(2, 0, 0, 77, map[Poison := 5], false), Character(10, 8, 0, 0, map[], false), 173)
  {
    var p0, b0 := EXAMPLE_PLAYER, EXAMPLE_BOSS;
    assert Decrement(map[]) == map[];
    assert Effects(p0, b0) == Some((p0, b0));
    RoundIsCast(p0, b0, Poison, p0, b0);
    CastIsBossTurn(p0, b0, Poison, Poison);
    var paid := Paid(p0, Poison);
    assert paid == Character(10, 0, 0, 77, map[Poison := 6], false);
    assert Decrement(map[Poison := 6]) == map[Poison := 5];
  }

  /** Second round: Poison ticks, Magic Missile hits for 4, and Poison
      finishes the boss in its turn. */
  lemma KnownSecondRound()
    ensures Round(Character(2, 0, 0, 77, map[Poison := 5], false), Character(10, 8, 0, 0, map[], false), MagicMissile) == BossDead(53)
  {
    var p1, b1 := Character(2, 0, 0, 77, map[Poison := 5], false), Character(10, 8, 0, 0, map[], false);
    assert Decrement(map[Poison := 5]) == map[Poison := 4];
    var p2, b2 := Character(2, 0, 0, 77, map[Poison := 4], false), Character(7, 8, 0, 0, map[], false);
    assert Effects(p1, b1) == Some((p2, b2));
    RoundIsCast(p1, b1, MagicMissile, p2, b2);
    CastIsBossTurn(p2, b2, MagicMissile, MagicMissile);
    assert Paid(p2, MagicMissile) == Character(2, 0, 0, 24, map[Poison := 4], false);
  }

  /** A fight of two rounds, the second of which kills the boss, costs
      what the two rounds cost. */
  lemma ReplayTwo(round: RoundFn, p0: Character, b0: Character, first: Spell, p1: Character, b1: Character, second: Spell, spent0: nat, spent1: nat)
    requires round(p0, b0, first) == Next(p1, b1, spent0) && round(p1, b1, second) == BossDead(spent1)
    ensures Replay(round, p0, b0, [first, second]) == Some(spent0 + spent1)
  {
    ReplayStep(round, p1, b1, second, []);
    assert [second] + [] == [second];
    ReplayStep(round, p0, b0, first, [second]);
    assert [first] + [second] == [first, second];
  }

  /** Poison then Magic Missile win the example fight for 226 mana. */
  lemma KnownFight()
    ensures Replay(Round, EXAMPLE_PLAYER, EXAMPLE_BOSS, [Poison, MagicMissile]) == Some(226)
  {
    KnownFirstRound();
    KnownSecondRound();
    ReplayTwo(Round, EXAMPLE_PLAYER, EXAMPLE_BOSS, Poison, Character(2, 0, 0, 77, map[Poison := 5], false), Character(10, 8, 0, 0, map[], false), MagicMissile, 173, 53);
  }

  /** `GLOBAL_BEST_KNOWN`: the cheapest win found so far by any branch. */
  class BestKnown {
    var value: Option<nat>

    constructor ()
      ensures value == None
    {
      value := None;
    }
  }

  /** `fight_pass`, with the cache held by `cache`. */
  method FightPass(cache: BestKnown, player: Character, boss: Character, spell: Spell, manaUsed: nat, ghost cap: nat) returns (found: Option<nat>)
    requires Inv(player) && cache.value.Some? && cache.value.value <= cap
    modifies cache
    ensures Progress(Round) && (found, cache.value) == Pass(Round, player, boss, spell, manaUsed, old(cache.value), cap)
    decreases Measure(manaUsed, cap), player.hitPoints, 1
  {
    RoundProgress();
    if manaUsed > cache.value.value {
      return None;
    }
    var r := PlayRound(player, boss, spell);
    RoundKeeps(player, boss, spell);
    found := FinishPass(cache, r, manaUsed, cap);
  }

  /** The rest of `fight_pass` once its round has ended with `next`. */
  method FinishPass(cache: BestKnown, next: RoundResult, manaUsed: nat, ghost cap: nat) returns (found: Option<nat>)
    requires cache.value.Some? && cache.value.value <= cap
    requires next.Next? ==> Inv(next.player)
    modifies cache
    ensures Progress(Round) && (found, cache.value) == PassFrom(Round, next, manaUsed, old(cache.value), cap)
    decreases if next.Next? then Measure(manaUsed + next.spent, cap) else 0, if next.Next? then next.player.hitPoints else 0, 3
  {
    RoundProgress();
    match next {
      case BossDead(spent) =>
        found := Some(manaUsed + spent);
      case Next(p, b, spent) =>
        var bestCost := ExploreAll(cache, p, b, manaUsed + spent, cap);
        if bestCost.Some? {
          if !(cache.value.Some? && cache.value.value < bestCost.value) {
            cache.value := bestCost;
          }
        }
        found := bestCost;
      case _ =>
        found := None;
    }
  }

  /** The `for spell in Spell::iter()` loop of `fight` and `fight_pass`. */
  method ExploreAll(cache: BestKnown, player: Character, boss: Character, manaUsed: nat, ghost cap: nat) returns (bestCost: Option<nat>)
    requires Inv(player) && cache.value.Some? && cache.value.value <= cap
    modifies cache
    ensures Progress(Round) && (bestCost, cache.value) == Explore(Round, player, boss, CASTS, manaUsed, old(cache.value), cap, None)
    decreases Measure(manaUsed, cap), player.hitPoints, 2
  {
    RoundProgress();
    bestCost := None;
    var k := 0;
    while k < |CASTS|
      invariant 0 <= k <= |CASTS|
      invariant cache.value.Some? && cache.value.value <= cap
      invariant Explore(Round, player, boss, CASTS[k..], manaUsed, cache.value, cap, bestCost) == Explore(Round, player, boss, CASTS, manaUsed, old(cache.value), cap, None)
    {
      assert CASTS[k..][0] == CASTS[k] && CASTS[k..][1..] == CASTS[k + 1..];
      var found := FightPass(cache, player, boss, CASTS[k], manaUsed, cap);
      if found.Some? {
        if !(bestCost.Some? && bestCost.value < found.value) {
          bestCost := found;
        }
      }
      k := k + 1;
    }
  }

  /** `Solution::fight`: the cache starts at 1400, then every first spell
      is tried. */
  method Fight(cache: BestKnown, player: Character, boss: Character) returns (best: Option<nat>)
    requires Inv(player)
    modifies cache
    ensures best == FightSpec(player, boss)
  {
    cache.value := Some(INITIAL_BEST);
    best := ExploreAll(cache, player, boss, 0, INITIAL_BEST);
  }

  /** The player of both parts: 50 hit points and 500 mana. */
  function Wizard(hard: bool): Character {
    Character(50, 0, 0, 500, map[], hard)
  }

  class Solution {
    var boss: Character
    var answerPart1: Option<nat>
    var answerPart2: Option<nat>

    constructor ()
      ensures boss == Character(0, 0, 0, 0, map[], false) && answerPart1 == None && answerPart2 == None
    {
      boss := Character(0, 0, 0, 0, map[], false);
      answerPart1 := None;
      answerPart2 := None;
    }

    /** `Solution::update_boss`; `ok` is false where the source returns
        an error. */
    method UpdateBoss(line: string) returns (ok: bool)
      requires !ParseUpdate(line).Unknown?
      modifies this
      ensures ok <==> !ParseUpdate(line).Failed?
      ensures boss == match ParseUpdate(line)
        case Assign(HitPoints, v) => old(boss).(hitPoints := v)
        case Assign(Damage, v) => old(boss).(damage := v)
        case Assign(Armor, v) => old(boss).(armour := v)
        case _ => old(boss)
      ensures answerPart1 == old(answerPart1) && answerPart2 == old(answerPart2)
    {
      match ParseUpdate(line) {
        case Blank => ok := true;
        case Failed => ok := false;
        case Assign(a, v) =>
          match a {
            case HitPoints => boss := boss.(hitPoints := v);
            case Damage => boss := boss.(damage := v);
            case Armor => boss := boss.(armour := v);
          }
          ok := true;
      }
    }

    /** `analyse` with both parts: normal, then hard mode. */
    method Analyse(cache: BestKnown)
      modifies this, cache
      ensures boss == old(boss)
      ensures answerPart1 == FightSpec(Wizard(false), boss)
      ensures answerPart2 == FightSpec(Wizard(true), boss)
    {
      var first := Fight(cache, Wizard(false), boss);
      var second := Fight(cache, Wizard(true), boss);
      answerPart1, answerPart2 := first, second;
    }
  }
}
