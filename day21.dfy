/** Day 21: buy a weapon, maybe armour and rings, and fight the boss. */
module Day21 {
  import opened Common
  import opened BossStats

  datatype Character = Character(hitPoints: nat, damage: nat, armour: nat)

  datatype Equipment = Equipment(name: string, cost: nat, damage: nat, armour: nat)

  /** The damage of one blow: the attacker's damage less the defender's
      armour, but at least 1. */
  function Hit(damage: nat, armour: nat): (h: nat)
    ensures h == Max(1, damage - armour)
  {
    if damage <= armour then 1 else damage - armour
  }

  /** The outcome of the fight, the player striking first: true when the
      boss falls first. */
  function Wins(player: Character, boss: Character): bool
    decreases boss.hitPoints
  {
    var toBoss := Hit(player.damage, boss.armour);
    if boss.hitPoints <= toBoss then true
    else
      var toPlayer := Hit(boss.damage, player.armour);
      if player.hitPoints <= toPlayer then false
      else Wins(player.(hitPoints := player.hitPoints - toPlayer), boss.(hitPoints := boss.hitPoints - toBoss))
  }

  /** The number of blows of `hit` that bring `hp` to zero or below. */
  function Blows(hp: nat, hit: nat): (n: nat)
    requires hit >= 1
    ensures n >= 1
    decreases hp
  {
    if hp <= hit then 1 else 1 + Blows(hp - hit, hit)
  }

  /** `Blows` is the least positive number of blows that is enough. */
  lemma {:induction false} BlowsIsLeast(hp: nat, hit: nat)
    requires hit >= 1
    ensures Blows(hp, hit) * hit >= hp
    ensures Blows(hp, hit) == 1 || (Blows(hp, hit) - 1) * hit < hp
    decreases hp
  {
    if hp > hit {
      BlowsIsLeast(hp - hit, hit);
      MulDistributes(hit, 1, Blows(hp - hit, hit));
    }
  }

  /** The player wins exactly when it needs no more blows than the boss. */
  lemma {:induction false} WinsByBlows(player: Character, boss: Character)
    ensures Wins(player, boss) <==>
      Blows(boss.hitPoints, Hit(player.damage, boss.armour)) <= Blows(player.hitPoints, Hit(boss.damage, player.armour))
    decreases boss.hitPoints
  {
    var toBoss := Hit(player.damage, boss.armour);
    var toPlayer := Hit(boss.damage, player.armour);
    if boss.hitPoints > toBoss && player.hitPoints > toPlayer {
      WinsByBlows(player.(hitPoints := player.hitPoints - toPlayer), boss.(hitPoints := boss.hitPoints - toBoss));
    }
  }

  /** `Solution::fight`: the loop of alternating blows; it ends because
      the boss loses hit points every round. */
  method Fight(player0: Character, boss0: Character) returns (won: bool)
    ensures won == Wins(player0, boss0)
  {
    var player := player0;
    var boss := boss0;
    while true
      invariant Wins(player, boss) == Wins(player0, boss0)
      decreases boss.hitPoints
    {
      var damage := if player.damage <= boss.armour then 1 else player.damage - boss.armour;
      if boss.hitPoints <= damage {
        return true;
      }
      boss := boss.(hitPoints := boss.hitPoints - damage);
      damage := if boss.damage <= player.armour then 1 else boss.damage - player.armour;
      if player.hitPoints <= damage {
        return false;
      }
      player := player.(hitPoints := player.hitPoints - damage);
    }
  }

  /** `Solution::same`: two empty slots, or two items of the same name. */
  function Same(lhs: Option<Equipment>, rhs: Option<Equipment>): (r: bool)
    ensures lhs.None? && rhs.None? ==> r
    ensures lhs.Some? && rhs.Some? ==> (r <==> lhs.value.name == rhs.value.name)
    ensures lhs.Some? != rhs.Some? ==> !r
  {
    match (lhs, rhs)
    case (None, None) => true
    case (Some(l), Some(r)) => l.name == r.name
    case _ => false
  }

  const WEAPONS: seq<Equipment> := [
    Equipment("Dagger", 8, 4, 0),
    Equipment("Shortsword", 10, 5, 0),
    Equipment("Warhammer", 25, 6, 0),
    Equipment("Longsword", 40, 7, 0),
    Equipment("Greataxe", 74, 8, 0)
  ]

  const ARMOURS: seq<Option<Equipment>> := [
    None,
    Some(Equipment("Leather", 13, 0, 1)),
    Some(Equipment("Chainmail", 31, 0, 2)),
    Some(Equipment("Splintmail", 53, 0, 3)),
    Some(Equipment("Bandedmail", 75, 0, 4)),
    Some(Equipment("Platemail", 102, 0, 5))
  ]

  const RINGS: seq<Option<Equipment>> := [
    None,
    Some(Equipment("Damage +1", 25, 1, 0)),
    Some(Equipment("Damage +2", 50, 2, 0)),
    Some(Equipment("Damage +3", 100, 3, 0)),
    Some(Equipment("Defense +1", 20, 0, 1)),
    Some(Equipment("Defense +2", 40, 0, 2)),
    Some(Equipment("Defense +3", 80, 0, 3))
  ]

  /** The cheapest items of the shop. */
  lemma ShopPrices()
    ensures forall w :: w in WEAPONS ==> w.cost >= 8
    ensures forall r :: r in RINGS && r.Some? ==> r.value.cost >= 20
    ensures WEAPONS[0].cost == 8 && WEAPONS[0].damage == 4
  {
  }

  datatype Loadout = Loadout(weapon: Equipment, armour: Option<Equipment>, ring1: Option<Equipment>, ring2: Option<Equipment>)

  function SlotCost(e: Option<Equipment>): nat {
    if e.Some? then e.value.cost else 0
  }

  function SlotDamage(e: Option<Equipment>): nat {
    if e.Some? then e.value.damage else 0
  }

  function SlotArmour(e: Option<Equipment>): nat {
    if e.Some? then e.value.armour else 0
  }

  /** What the loadout costs: the sum of its items' costs. */
  function Cost(l: Loadout): nat {
    l.weapon.cost + SlotCost(l.armour) + SlotCost(l.ring1) + SlotCost(l.ring2)
  }

  /** The player in the loadout: 100 hit points, the items' damage and
      armour added up. */
  function Player(l: Loadout): Character {
    Character(100,
      l.weapon.damage + SlotDamage(l.armour) + SlotDamage(l.ring1) + SlotDamage(l.ring2),
      l.weapon.armour + SlotArmour(l.armour) + SlotArmour(l.ring1) + SlotArmour(l.ring2))
  }

  /** How the ring pairs are filtered: as written, `same` skips a pair of
      empty slots as well as a ring worn twice; corrected, only a ring
      worn twice is skipped. */
  datatype Rule = AsWritten | Corrected

  predicate Skips(rule: Rule, ring1: Option<Equipment>, ring2: Option<Equipment>) {
    match rule
    case AsWritten => Same(ring1, ring2)
    case Corrected => ring1.Some? && Same(ring1, ring2)
  }

  /** The range of the inner ring loop: every ring slot after a ring, only
      the empty one after an empty slot. */
  function SecondRings(ring1: Option<Equipment>, rings: seq<Option<Equipment>>): seq<Option<Equipment>> {
    if ring1.Some? then rings else [None]
  }

  /** The inner ring loop for one first ring. */
  function InnerPairs(rule: Rule, ring1: Option<Equipment>, seconds: seq<Option<Equipment>>): seq<(Option<Equipment>, Option<Equipment>)> {
    if seconds == [] then []
    else
      var last := seconds[|seconds| - 1];
      InnerPairs(rule, ring1, seconds[..|seconds| - 1]) + (if Skips(rule, ring1, last) then [] else [(ring1, last)])
  }

  lemma {:induction false} InnerPairsMember(rule: Rule, ring1: Option<Equipment>, seconds: seq<Option<Equipment>>, p: (Option<Equipment>, Option<Equipment>))
    ensures p in InnerPairs(rule, ring1, seconds) <==> p.0 == ring1 && p.1 in seconds && !Skips(rule, ring1, p.1)
  {
    if seconds != [] {
      var init := seconds[..|seconds| - 1];
      InnerPairsMember(rule, ring1, init, p);
      assert seconds == init + [seconds[|seconds| - 1]];
    }
  }

  /** The two ring loops, in order. */
  function RingPairs(rule: Rule, firsts: seq<Option<Equipment>>, rings: seq<Option<Equipment>>): seq<(Option<Equipment>, Option<Equipment>)> {
    if firsts == [] then []
    else
      var last := firsts[|firsts| - 1];
      RingPairs(rule, firsts[..|firsts| - 1], rings) + InnerPairs(rule, last, SecondRings(last, rings))
  }

  lemma {:induction false} RingPairsMember(rule: Rule, firsts: seq<Option<Equipment>>, rings: seq<Option<Equipment>>, p: (Option<Equipment>, Option<Equipment>))
    ensures p in RingPairs(rule, firsts, rings) <==> p.0 in firsts && p.1 in SecondRings(p.0, rings) && !Skips(rule, p.0, p.1)
  {
    if firsts != [] {
      var init := firsts[..|firsts| - 1];
      var last := firsts[|firsts| - 1];
      RingPairsMember(rule, init, rings, p);
      InnerPairsMember(rule, last, SecondRings(last, rings), p);
      assert firsts == init + [last];
    }
  }

  /** The loadouts with weapon `w`, armour `a` and each ring pair. */
  function WithArmour(w: Equipment, a: Option<Equipment>, pairs: seq<(Option<Equipment>, Option<Equipment>)>): (r: seq<Loadout>)
    ensures |r| == |pairs| && forall i :: 0 <= i < |pairs| ==> r[i] == Loadout(w, a, pairs[i].0, pairs[i].1)
  {
    seq(|pairs|, i requires 0 <= i < |pairs| => Loadout(w, a, pairs[i].0, pairs[i].1))
  }

  function WithWeapon(w: Equipment, armours: seq<Option<Equipment>>, pairs: seq<(Option<Equipment>, Option<Equipment>)>): seq<Loadout> {
    if armours == [] then []
    else WithWeapon(w, armours[..|armours| - 1], pairs) + WithArmour(w, armours[|armours| - 1], pairs)
  }

  /** The weapon and armour loops around the ring loops, in order. */
  function Loadouts(weapons: seq<Equipment>, armours: seq<Option<Equipment>>, pairs: seq<(Option<Equipment>, Option<Equipment>)>): seq<Loadout> {
    if weapons == [] then []
    else Loadouts(weapons[..|weapons| - 1], armours, pairs) + WithWeapon(weapons[|weapons| - 1], armours, pairs)
  }

  lemma WithArmourMember(w: Equipment, a: Option<Equipment>, pairs: seq<(Option<Equipment>, Option<Equipment>)>, l: Loadout)
    ensures l in WithArmour(w, a, pairs) <==> l.weapon == w && l.armour == a && (l.ring1, l.ring2) in pairs
  {
    if l.weapon == w && l.armour == a && (l.ring1, l.ring2) in pairs {
      var i :| 0 <= i < |pairs| && pairs[i] == (l.ring1, l.ring2);
      assert WithArmour(w, a, pairs)[i] == l;
    }
  }

  lemma {:induction false} WithWeaponMember(w: Equipment, armours: seq<Option<Equipment>>, pairs: seq<(Option<Equipment>, Option<Equipment>)>, l: Loadout)
    ensures l in WithWeapon(w, armours, pairs) <==> l.weapon == w && l.armour in armours && (l.ring1, l.ring2) in pairs
  {
    if armours != [] {
      var init := armours[..|armours| - 1];
      WithWeaponMember(w, init, pairs, l);
      WithArmourMember(w, armours[|armours| - 1], pairs, l);
      assert armours == init + [armours[|armours| - 1]];
    }
  }

  lemma {:induction false} LoadoutsMember(weapons: seq<Equipment>, armours: seq<Option<Equipment>>, pairs: seq<(Option<Equipment>, Option<Equipment>)>, l: Loadout)
    ensures l in Loadouts(weapons, armours, pairs) <==> l.weapon in weapons && l.armour in armours && (l.ring1, l.ring2) in pairs
  {
    if weapons != [] {
      var init := weapons[..|weapons| - 1];
      LoadoutsMember(init, armours, pairs, l);
      WithWeaponMember(weapons[|weapons| - 1], armours, pairs, l);
      assert weapons == init + [weapons[|weapons| - 1]];
    }
  }

  /** The loadouts the four nested loops try, in their order. */
  function Candidates(rule: Rule): seq<Loadout> {
    Loadouts(WEAPONS, ARMOURS, RingPairs(rule, RINGS, RINGS))
  }

  /** Which loadouts are tried: any weapon, any armour slot, and ring
      slots that are not the same ring twice. As written, a loadout
      without rings is never tried; corrected, it is. */
  lemma CandidatesMember(rule: Rule, l: Loadout)
    ensures l in Candidates(rule) <==>
      && l.weapon in WEAPONS && l.armour in ARMOURS && l.ring1 in RINGS && l.ring2 in RINGS
      && (l.ring1.None? ==> l.ring2.None?)
      && !(l.ring1.Some? && Same(l.ring1, l.ring2))
      && (rule.AsWritten? ==> l.ring1.Some?)
  {
    LoadoutsMember(WEAPONS, ARMOURS, RingPairs(rule, RINGS, RINGS), l);
    RingPairsMember(rule, RINGS, RINGS, (l.ring1, l.ring2));
    assert None in RINGS;
  }

  /** As written, every loadout tried has a first ring, so it costs at
      least the cheapest weapon and the cheapest ring. */
  lemma AsWrittenCosts(l: Loadout)
    requires l in Candidates(AsWritten)
    ensures l.ring1.Some? && Cost(l) >= 28
  {
    CandidatesMember(AsWritten, l);
    ShopPrices();
  }

  /** The running minimum of `analyse_part1`: the cost of a loadout
      replaces the best one when it is cheaper and wins. */
  function Cheapest(loadouts: seq<Loadout>, boss: Character): Option<nat> {
    if loadouts == [] then None
    else
      var best := Cheapest(loadouts[..|loadouts| - 1], boss);
      var l := loadouts[|loadouts| - 1];
      if (best.None? || Cost(l) < best.value) && Wins(Player(l), boss) then Some(Cost(l)) else best
  }

  /** The running maximum of `analyse_part2`: the cost replaces the best
      one when it is dearer and loses. */
  function Dearest(loadouts: seq<Loadout>, boss: Character): Option<nat> {
    if loadouts == [] then None
    else
      var best := Dearest(loadouts[..|loadouts| - 1], boss);
      var l := loadouts[|loadouts| - 1];
      if (best.None? || Cost(l) > best.value) && !Wins(Player(l), boss) then Some(Cost(l)) else best
  }

  /** Part 1 is the least cost of a winning loadout, if any wins. */
  lemma {:induction false} CheapestIsMinimum(loadouts: seq<Loadout>, boss: Character)
    ensures Cheapest(loadouts, boss).Some? <==> exists l :: l in loadouts && Wins(Player(l), boss)
    ensures Cheapest(loadouts, boss).Some? ==>
      && (exists l :: l in loadouts && Wins(Player(l), boss) && Cost(l) == Cheapest(loadouts, boss).value)
      && (forall l :: l in loadouts && Wins(Player(l), boss) ==> Cheapest(loadouts, boss).value <= Cost(l))
  {
    if loadouts != [] {
      var init := loadouts[..|loadouts| - 1];
      CheapestIsMinimum(init, boss);
      assert loadouts == init + [loadouts[|loadouts| - 1]];
    }
  }

  /** Part 2 is the greatest cost of a losing loadout, if any loses. */
  lemma {:induction false} DearestIsMaximum(loadouts: seq<Loadout>, boss: Character)
    ensures Dearest(loadouts, boss).Some? <==> exists l :: l in loadouts && !Wins(Player(l), boss)
    ensures Dearest(loadouts, boss).Some? ==>
      && (exists l :: l in loadouts && !Wins(Player(l), boss) && Cost(l) == Dearest(loadouts, boss).value)
      && (forall l :: l in loadouts && !Wins(Player(l), boss) ==> Dearest(loadouts, boss).value >= Cost(l))
  {
    if loadouts != [] {
      var init := loadouts[..|loadouts| - 1];
      DearestIsMaximum(init, boss);
      assert loadouts == init + [loadouts[|loadouts| - 1]];
    }
  }

  /** A boss with one hit point and no damage or armour. */
  const WEAK_BOSS := Character(1, 0, 0)

  /** As written, part 1 against the weak boss costs at least 28, since
      the lone dagger (8) is never tried. */
  lemma NoRingsAsWritten()
    ensures Cheapest(Candidates(AsWritten), WEAK_BOSS).Some?
    ensures Cheapest(Candidates(AsWritten), WEAK_BOSS).value >= 28
  {
    var cheapest := Cheapest(Candidates(AsWritten), WEAK_BOSS);
    var armed := Loadout(WEAPONS[0], None, RINGS[4], None);
    CandidatesMember(AsWritten, armed);
    CheapestIsMinimum(Candidates(AsWritten), WEAK_BOSS);
    assert Wins(Player(armed), WEAK_BOSS);
    var l :| l in Candidates(AsWritten) && Wins(Player(l), WEAK_BOSS) && Cost(l) == cheapest.value;
    AsWrittenCosts(l);
  }

  /** A winning loadout no dearer than any other is the cheapest. */
  lemma CheapestAttained(loadouts: seq<Loadout>, boss: Character, best: Loadout)
    requires best in loadouts && Wins(Player(best), boss)
    requires forall l :: l in loadouts ==> Cost(best) <= Cost(l)
    ensures Cheapest(loadouts, boss) == Some(Cost(best))
  {
    CheapestIsMinimum(loadouts, boss);
  }

  /** Every loadout costs at least the cheapest weapon. */
  lemma CandidatesCost(rule: Rule, l: Loadout)
    requires l in Candidates(rule)
    ensures Cost(l) >= 8
  {
    CandidatesMember(rule, l);
    ShopPrices();
  }

  /** Corrected, part 1 against the weak boss is the lone dagger's 8. */
  lemma NoRingsCorrected()
    ensures Cheapest(Candidates(Corrected), WEAK_BOSS) == Some(8)
  {
    var dagger := Loadout(WEAPONS[0], None, None, None);
    CandidatesMember(Corrected, dagger);
    assert Cost(dagger) == 8 && Wins(Player(dagger), WEAK_BOSS);
    forall l | l in Candidates(Corrected) ensures Cost(dagger) <= Cost(l) {
      CandidatesCost(Corrected, l);
    }
    CheapestAttained(Candidates(Corrected), WEAK_BOSS, dagger);
  }

  /** The loop body of both parts over the loadouts in order: the cost
      and the player are added up item by item. */
  method Search(loadouts: seq<Loadout>, boss: Character, cheapest: bool) returns (best: Option<nat>)
    ensures best == if cheapest then Cheapest(loadouts, boss) else Dearest(loadouts, boss)
  {
    best := None;
    var k := 0;
    while k < |loadouts|
      invariant 0 <= k <= |loadouts|
      invariant best == if cheapest then Cheapest(loadouts[..k], boss) else Dearest(loadouts[..k], boss)
    {
      assert loadouts[..k + 1][..k] == loadouts[..k];
      var l := loadouts[k];
      var cost := l.weapon.cost;
      cost := cost + SlotCost(l.armour);
      cost := cost + SlotCost(l.ring1);
      cost := cost + SlotCost(l.ring2);
      var player := Player(l);
      if cheapest {
        if best.None? || cost < best.value {
          var won := Fight(player, boss);
          if won {
            best := Some(cost);
          }
        }
      } else {
        if best.None? || cost > best.value {
          var won := Fight(player, boss);
          if !won {
            best := Some(cost);
          }
        }
      }
      k := k + 1;
    }
    assert loadouts[..k] == loadouts;
  }

  class Solution {
    var boss: Character
    var answerPart1: Option<nat>
    var answerPart2: Option<nat>

    constructor ()
      ensures boss == Character(0, 0, 0) && answerPart1 == None && answerPart2 == None
    {
      boss := Character(0, 0, 0);
      answerPart1 := None;
      answerPart2 := None;
    }

    /** `Solution::update_boss`; `ok` is false where the source returns
        an error. */
    method UpdateBoss(line: string) returns (ok: bool)
      requires !ParseUpdate(line).Unknown?
      modifies this
      ensures ok <==> !ParseUpdate(line).Failed?
      ensures boss == match ParseUpdate(line)
        case Assign(HitPoints, v) => old(boss).(hitPoints := v)
        case Assign(Damage, v) => old(boss).(damage := v)
        case Assign(Armor, v) => old(boss).(armour := v)
        case _ => old(boss)
      ensures answerPart1 == old(answerPart1) && answerPart2 == old(answerPart2)
    {
      match ParseUpdate(line) {
        case Blank => ok := true;
        case Failed => ok := false;
        case Assign(a, v) =>
          match a {
            case HitPoints => boss := boss.(hitPoints := v);
            case Damage => boss := boss.(damage := v);
            case Armor => boss := boss.(armour := v);
          }
          ok := true;
      }
    }

    /** `analyse_part1`: the cheapest winning loadout among those the
        loops try as written, every one of which has a first ring. */
    method AnalysePart1() returns (answer: Option<nat>)
      ensures answer == Cheapest(Candidates(AsWritten), boss)
    {
      answer := Search(Candidates(AsWritten), boss, true);
    }

    /** `analyse_part2`: the dearest losing loadout among the same
        loadouts as written. */
    method AnalysePart2() returns (answer: Option<nat>)
      ensures answer == Dearest(Candidates(AsWritten), boss)
    {
      answer := Search(Candidates(AsWritten), boss, false);
    }

    method Analyse()
      modifies this
      ensures boss == old(boss)
      ensures answerPart1 == Cheapest(Candidates(AsWritten), boss)
      ensures answerPart2 == Dearest(Candidates(AsWritten), boss)
    {
      var first := AnalysePart1();
      var second := AnalysePart2();
      answerPart1, answerPart2 := first, second;
    }
  }
}
