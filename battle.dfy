/** The battle resolver: a round loop over a working copy of the
    battlefield. In each round the player strikes every enemy, the dead are
    dropped, and the survivors strike back. The loop ends in victory, defeat,
    or a stalemate after the hundredth round.

    Every `Math.random()` call reads the next value of the oracle `rand`.
    The counter `draws` is the number of values read so far. */
module Battle {
  import opened Wrappers
  import opened JsMath
  import opened Combat
  import opened Roster

  datatype Outcome =
    | Waiting
    | Victory(playerHP: int, playerInitialHP: int, enemyHP: int, healthPercentage: int)
    | Defeat(playerHP: int, playerInitialHP: int, enemyHP: int, mobsRemaining: nat)
    | Stalemate

  /** A run of the resolver: the outcome it reports, or None when it reports
      none, the number of rounds it began, and the final values of its
      locals `playerHealth` and `activeMobs`. */
  datatype Run = Run(outcome: Option<Outcome>, rounds: nat, hp: int, alive: seq<MobInstance>)

  const RoundCap: nat := 100

  /** `Math.round((playerHealth / playerInitialHealth) * 100)`. */
  function Percentage(hp: int, initial: int): int
    requires 0 < initial
  {
    RoundHalfUp(hp as real / initial as real * 100.0)
  }

  /** A surviving player's remaining health is 0 to 100 percent of the
      starting health, and exactly 100 when nothing was lost. */
  lemma PercentageBounds(hp: int, initial: int)
    requires 0 < hp <= initial
    ensures 0 <= Percentage(hp, initial) <= 100
    ensures hp == initial ==> Percentage(hp, initial) == 100
  {
    var x := hp as real / initial as real;
    assert 0.0 < x <= 1.0 by {
      assert x * initial as real == hp as real;
    }
    RoundHalfUpMonotone(0.0, x * 100.0);
    RoundHalfUpMonotone(x * 100.0, 100.0);
    RoundHalfUpOfInt(0);
    RoundHalfUpOfInt(100);
    if hp == initial {
      assert x == 1.0;
    }
  }

  // ----------------------------------------------------------- player phase

  /** One enemy after the player's blows of this round; enemies have no armor. */
  function Struck(mob: MobInstance, damage: int, hits: nat): MobInstance {
    mob.(health := ApplyHits(mob.health, CalculateDamage(damage, 0), hits))
  }

  /** The player phase: the j-th enemy takes the hits decided by the
      (draws + j)-th random value. */
  function PlayerVolley(mobs: seq<MobInstance>, damage: int, mult: real, rand: nat -> real, draws: nat): (r: seq<MobInstance>)
    requires 1.0 <= mult
    ensures |r| == |mobs|
  {
    seq(|mobs|, j requires 0 <= j < |mobs| => Struck(mobs[j], damage, HitCount(mult, rand(draws + j))))
  }

  /** Every enemy loses health in the player phase, since every attacker
      lands at least one hit; nothing but its health changes. */
  lemma PlayerVolleyHurts(mobs: seq<MobInstance>, damage: int, mult: real, rand: nat -> real, draws: nat, j: nat)
    requires 1.0 <= mult && j < |mobs|
    ensures var m := PlayerVolley(mobs, damage, mult, rand, draws)[j];
            m.health < mobs[j].health && m == mobs[j].(health := m.health)
  {
  }

  /** `activeMobs.filter(mob => mob.health > 0)`. */
  function Survivors(mobs: seq<MobInstance>): (r: seq<MobInstance>)
    ensures |r| <= |mobs|
    ensures forall i :: 0 <= i < |r| ==> 0 < r[i].health
  {
    if mobs == [] then []
    else if 0 < mobs[0].health then [mobs[0]] + Survivors(mobs[1..])
    else Survivors(mobs[1..])
  }

  /** The filter keeps exactly the enemies with health above 0, each as
      often as it occurred. */
  lemma {:induction false} SurvivorsAreTheLiving(mobs: seq<MobInstance>)
    ensures forall m :: multiset(Survivors(mobs))[m] == if 0 < m.health then multiset(mobs)[m] else 0
  {
    if mobs != [] {
      SurvivorsAreTheLiving(mobs[1..]);
      assert mobs == [mobs[0]] + mobs[1..];
    }
  }

  /** The filter keeps the order of the enemies it keeps: it works piece
      by piece over a concatenation. */
  lemma {:induction false} SurvivorsKeepOrder(a: seq<MobInstance>, b: seq<MobInstance>)
    ensures Survivors(a + b) == Survivors(a) + Survivors(b)
  {
    if a != [] {
      SurvivorsKeepOrder(a[1..], b);
      assert (a + b)[1..] == a[1..] + b;
    } else {
      assert a + b == b;
    }
  }

  // ------------------------------------------------------------ enemy phase

  /** The enemy phase: each survivor in turn strikes the player with the
      hits its random value decides, and the phase stops as soon as the
      player is at or below 0. */
  function EnemyVolley(hp: int, mobs: seq<MobInstance>, armor: int, mult: real, rand: nat -> real, draws: nat): (r: int)
    requires 1.0 <= mult
    ensures r <= hp
    ensures mobs != [] ==> r < hp
    decreases |mobs|
  {
    if mobs == [] then hp
    else
      var h := ApplyHits(hp, CalculateDamage(mobs[0].damage, armor), HitCount(mult, rand(draws)));
      if h <= 0 then h else EnemyVolley(h, mobs[1..], armor, mult, rand, draws + 1)
  }

  /** The strongest single hit any of `mobs` deals through `armor`. */
  function HardestHit(mobs: seq<MobInstance>, armor: int): (r: int)
    ensures forall i :: 0 <= i < |mobs| ==> CalculateDamage(mobs[i].damage, armor) <= r
  {
    if mobs == [] then 1 else Max(CalculateDamage(mobs[0].damage, armor), HardestHit(mobs[1..], armor))
  }

  /** A player who starts the enemy phase alive ends it less than one
      hardest hit below 0, since the enemies stop once the player falls. */
  lemma {:induction false} EnemyVolleyStopsAtDefeat(hp: int, mobs: seq<MobInstance>, armor: int, mult: real, rand: nat -> real, draws: nat)
    requires 1.0 <= mult && 0 < hp
    ensures -HardestHit(mobs, armor) < EnemyVolley(hp, mobs, armor, mult, rand, draws)
    decreases |mobs|
  {
    if mobs != [] {
      var dmg := CalculateDamage(mobs[0].damage, armor);
      var h := ApplyHits(hp, dmg, HitCount(mult, rand(draws)));
      ApplyHitsClosedForm(hp, dmg, HitCount(mult, rand(draws)));
      if 0 < h {
        EnemyVolleyStopsAtDefeat(h, mobs[1..], armor, mult, rand, draws + 1);
      }
    }
  }

  /** The enemy phase without its stop: every enemy lands every hit its
      random value decides, whatever the player's health. */
  function AllBlows(hp: int, mobs: seq<MobInstance>, armor: int, mult: real, rand: nat -> real, draws: nat): (r: int)
    requires 1.0 <= mult
    ensures r <= hp
    decreases |mobs|
  {
    if mobs == [] then hp
    else
      var dmg := CalculateDamage(mobs[0].damage, armor);
      var n := HitCount(mult, rand(draws));
      assert 0 <= n * dmg;
      AllBlows(hp - n * dmg, mobs[1..], armor, mult, rand, draws + 1)
  }

  /** The stop decides only the margin of a defeat: the player falls in the
      enemy phase exactly when the unstopped blows would fell them, and a
      player who ends the phase alive has taken every blow of every enemy. */
  lemma {:induction false} EnemyVolleyIsAllBlowsUntilDefeat(hp: int, mobs: seq<MobInstance>, armor: int, mult: real, rand: nat -> real, draws: nat)
    requires 1.0 <= mult && 0 < hp
    ensures EnemyVolley(hp, mobs, armor, mult, rand, draws) <= 0 <==> AllBlows(hp, mobs, armor, mult, rand, draws) <= 0
    ensures 0 < EnemyVolley(hp, mobs, armor, mult, rand, draws) ==>
              EnemyVolley(hp, mobs, armor, mult, rand, draws) == AllBlows(hp, mobs, armor, mult, rand, draws)
    decreases |mobs|
  {
    if mobs != [] {
      var dmg := CalculateDamage(mobs[0].damage, armor);
      var n := HitCount(mult, rand(draws));
      var h := ApplyHits(hp, dmg, n);
      ApplyHitsClosedForm(hp, dmg, n);
      var k := KillingBlows(hp, dmg);
      if 0 < h {
        assert n < k;
        assert h == hp - n * dmg;
        EnemyVolleyIsAllBlowsUntilDefeat(h, mobs[1..], armor, mult, rand, draws + 1);
      } else {
        assert k <= n;
        assert h == hp - k * dmg;
        assert k * dmg <= n * dmg by { MulMonotone(k, n, dmg); }
        assert AllBlows(hp, mobs, armor, mult, rand, draws) <= hp - n * dmg;
      }
    }
  }

  /** `activeMobs.reduce((total, mob) => total + mob.health, 0)`. */
  function TotalHealth(mobs: seq<MobInstance>): (r: int)
    ensures (forall i :: 0 <= i < |mobs| ==> 0 < mobs[i].health) ==> |mobs| <= r
  {
    if mobs == [] then 0 else mobs[0].health + TotalHealth(mobs[1..])
  }

  // ------------------------------------------------------------ round loop

  /** What one pass of the loop body leaves: the outcome it reports, if any,
      the player's health, the enemies still standing and the random values
      read so far. */
  datatype Step = Step(reported: Option<Outcome>, hp: int, alive: seq<MobInstance>, draws: nat)

  /** One pass of the loop body in round `round`, with the player at `hp`,
      the enemies `active` and `draws` random values already read: the
      player phase, the filter and the victory check, the enemy phase and
      the defeat check, then the round cap. */
  function Round(hp: int, initial: int, active: seq<MobInstance>, round: nat,
                 armor: int, damage: int, playerMult: real, mobMult: real,
                 rand: nat -> real, draws: nat): (s: Step)
    requires 1 <= round <= RoundCap && 0 < hp <= initial && active != []
    requires 1.0 <= playerMult && 1.0 <= mobMult
    ensures s.reported.None? ==> round < RoundCap && 0 < s.hp <= initial && s.alive != []
    ensures s.reported.Some? ==> !s.reported.value.Waiting?
    ensures s.reported == Some(Stalemate) ==> round == RoundCap
    ensures forall i :: 0 <= i < |s.alive| ==> 0 < s.alive[i].health
    ensures s.reported.Some? && s.reported.value.Victory? ==>
              var v := s.reported.value;
              s.alive == [] && s.hp == hp
              && v.playerHP == hp && v.playerInitialHP == initial && v.enemyHP == 0
              && v.healthPercentage == Percentage(hp, initial) && 0 <= v.healthPercentage <= 100
    ensures s.reported.Some? && s.reported.value.Defeat? ==>
              var d := s.reported.value;
              s.hp <= 0 && d.playerHP == 0 && d.playerInitialHP == initial
              && d.enemyHP == TotalHealth(s.alive) && d.mobsRemaining == |s.alive| && 1 <= d.mobsRemaining <= d.enemyHP
    ensures s.reported == Some(Stalemate) ==> 0 < s.hp && s.alive != []
  {
    var alive := Survivors(PlayerVolley(active, damage, playerMult, rand, draws));
    if alive == [] then
      PercentageBounds(hp, initial);
      Step(Some(Victory(hp, initial, 0, Percentage(hp, initial))), hp, alive, draws)
    else
      var hp' := EnemyVolley(hp, alive, armor, mobMult, rand, draws + |active|);
      if hp' <= 0 then Step(Some(Defeat(0, initial, TotalHealth(alive), |alive|)), hp', alive, draws)
      else if round + 1 > RoundCap then Step(Some(Stalemate), hp', alive, draws)
      else Step(None, hp', alive, draws + |active| + |alive|)
  }

  /** The `while` loop from round `round` on: passes of the body until one
      reports an outcome or the loop condition fails. */
  function Fight(hp: int, initial: int, active: seq<MobInstance>, round: nat,
                 armor: int, damage: int, playerMult: real, mobMult: real,
                 rand: nat -> real, draws: nat): (r: Run)
    requires 1 <= round <= RoundCap && hp <= initial
    requires 1.0 <= playerMult && 1.0 <= mobMult
    ensures r.outcome.None? <==> !(0 < hp && active != [])
    ensures r.outcome.None? ==> r.rounds == round - 1
    ensures r.outcome.Some? ==> round <= r.rounds <= RoundCap && !r.outcome.value.Waiting?
    ensures r.outcome == Some(Stalemate) ==> r.rounds == RoundCap
    ensures r.outcome.None? ==> r.hp == hp && r.alive == active
    ensures r.outcome.Some? ==> forall i :: 0 <= i < |r.alive| ==> 0 < r.alive[i].health
    ensures r.outcome.Some? && r.outcome.value.Victory? ==>
              var v := r.outcome.value;
              r.alive == [] && 0 < r.hp <= initial
              && v.playerHP == r.hp && v.playerInitialHP == initial && v.enemyHP == 0
              && v.healthPercentage == Percentage(r.hp, initial) && 0 <= v.healthPercentage <= 100
    ensures r.outcome.Some? && r.outcome.value.Defeat? ==>
              var d := r.outcome.value;
              r.hp <= 0 && d.playerHP == 0 && d.playerInitialHP == initial
              && d.enemyHP == TotalHealth(r.alive) && d.mobsRemaining == |r.alive| && 1 <= d.mobsRemaining <= d.enemyHP
    ensures r.outcome == Some(Stalemate) ==> 0 < r.hp <= initial && r.alive != []
    decreases RoundCap - round
  {
    if !(0 < hp && active != []) then Run(None, round - 1, hp, active)
    else
      var s := Round(hp, initial, active, round, armor, damage, playerMult, mobMult, rand, draws);
      if s.reported.Some? then Run(s.reported, round, s.hp, s.alive)
      else Fight(s.hp, initial, s.alive, round + 1, armor, damage, playerMult, mobMult, rand, s.draws)
  }

  /** The whole resolver: `Waiting` for an empty battlefield, otherwise the
      round loop from round 1 with the player at full health. */
  function Simulate(initialHp: int, armor: int, damage: int, battlefield: seq<MobInstance>,
                    shotsLanded: real, rand: nat -> real): (r: Run)
    ensures r.outcome == Some(Waiting) <==> battlefield == []
    ensures r.outcome.None? <==> battlefield != [] && initialHp <= 0
    ensures r.rounds <= RoundCap
    ensures battlefield != [] && r.outcome.Some? ==> 1 <= r.rounds
    ensures r.outcome == Some(Stalemate) ==> r.rounds == RoundCap
    ensures r.outcome.Some? && !r.outcome.value.Waiting? ==> forall i :: 0 <= i < |r.alive| ==> 0 < r.alive[i].health
    ensures r.outcome.Some? && r.outcome.value.Victory? ==>
              var v := r.outcome.value;
              r.alive == [] && 0 < r.hp <= initialHp
              && v.playerHP == r.hp && v.playerInitialHP == initialHp && v.enemyHP == 0
              && v.healthPercentage == Percentage(r.hp, initialHp) && 0 <= v.healthPercentage <= 100
    ensures r.outcome.Some? && r.outcome.value.Defeat? ==>
              var d := r.outcome.value;
              r.hp <= 0 && d.playerHP == 0 && d.playerInitialHP == initialHp
              && d.enemyHP == TotalHealth(r.alive) && d.mobsRemaining == |r.alive| && 1 <= d.mobsRemaining <= d.enemyHP
    ensures r.outcome == Some(Stalemate) ==> 0 < r.hp <= initialHp && r.alive != []
  {
    if battlefield == [] then Run(Some(Waiting), 0, initialHp, battlefield)
    else Fight(initialHp, initialHp, battlefield, 1, armor, damage,
               Multiplier(shotsLanded), Multiplier(-shotsLanded), rand, 0)
  }

  /** A player whose hit kills every enemy outright wins the first round
      without taking a blow, at 100% health, whatever the random values. */
  lemma OneBlowVictory(initialHp: int, armor: int, damage: int, battlefield: seq<MobInstance>,
                       shotsLanded: real, rand: nat -> real)
    requires 0 < initialHp && battlefield != []
    requires forall i :: 0 <= i < |battlefield| ==> battlefield[i].health <= CalculateDamage(damage, 0)
    ensures Simulate(initialHp, armor, damage, battlefield, shotsLanded, rand)
            == Run(Some(Victory(initialHp, initialHp, 0, 100)), 1, initialHp, [])
  {
    var m := Multiplier(shotsLanded);
    var struck := PlayerVolley(battlefield, damage, m, rand, 0);
    forall i | 0 <= i < |struck|
      ensures struck[i].health <= 0
    {
      var hits := HitCount(m, rand(i));
      assert 1 <= hits;
      assert struck[i].health == ApplyHits(battlefield[i].health, CalculateDamage(damage, 0), hits);
    }
    NoneSurvive(struck);
    PercentageBounds(initialHp, initialHp);
  }

  lemma {:induction false} NoneSurvive(mobs: seq<MobInstance>)
    requires forall i :: 0 <= i < |mobs| ==> mobs[i].health <= 0
    ensures Survivors(mobs) == []
  {
    if mobs != [] {
      NoneSurvive(mobs[1..]);
    }
  }

  // ------------------------------------------------------ imperative loops

  /** `for (let i = 0; i < activeMobs.length; i++)`: the player strikes each
      enemy of the working list in turn. */
  method PlayerAttacks(active: seq<MobInstance>, damage: int, mult: real, rand: nat -> real, draws: nat)
    returns (struck: seq<MobInstance>)
    requires 1.0 <= mult
    ensures struck == PlayerVolley(active, damage, mult, rand, draws)
  {
    struck := active;
    for i := 0 to |active|
      invariant |struck| == |active|
      invariant forall j :: 0 <= j < i ==> struck[j] == Struck(active[j], damage, HitCount(mult, rand(draws + j)))
      invariant forall j :: i <= j < |active| ==> struck[j] == active[j]
    {
      var mob := struck[i];
      var playerHits := mult.Floor;
      var playerHitChance := mult - playerHits as real;
      var extraHit := if rand(draws + i) < playerHitChance then 1 else 0;
      var totalHits := playerHits + extraHit;
      var health := StrikeRepeatedly(mob.health, damage, 0, totalHits);
      struck := struck[i := mob.(health := health)];
    }
  }

  /** `for (let mob of activeMobs)`: each survivor strikes the player, and
      the loop breaks once the player is at or below 0. */
  method EnemyAttacks(hp: int, active: seq<MobInstance>, armor: int, mult: real, rand: nat -> real, draws: nat)
    returns (playerHealth: int)
    requires 1.0 <= mult
    ensures playerHealth == EnemyVolley(hp, active, armor, mult, rand, draws)
  {
    playerHealth := hp;
    var j := 0;
    while j < |active|
      invariant 0 <= j <= |active|
      invariant EnemyVolley(hp, active, armor, mult, rand, draws)
             == EnemyVolley(playerHealth, active[j..], armor, mult, rand, draws + j)
    {
      var mob := active[j];
      var mobHits := mult.Floor;
      var mobHitChance := mult - mobHits as real;
      var extraHit := if rand(draws + j) < mobHitChance then 1 else 0;
      var totalHits := mobHits + extraHit;
      playerHealth := StrikeRepeatedly(playerHealth, mob.damage, armor, totalHits);
      if playerHealth <= 0 {
        break;
      }
      assert active[j..][1..] == active[j + 1..];
      j := j + 1;
    }
  }

  /** One pass of the round loop's body: the player phase, the filter, the
      victory check, the enemy phase, the defeat check and the round cap. */
  method PlayRound(hp: int, initial: int, active: seq<MobInstance>, round: nat,
                   armor: int, damage: int, playerMult: real, mobMult: real,
                   rand: nat -> real, draws: nat)
    returns (reported: Option<Outcome>, hp': int, alive: seq<MobInstance>, draws': nat)
    requires 1 <= round <= RoundCap && 0 < hp <= initial && active != []
    requires 1.0 <= playerMult && 1.0 <= mobMult
    ensures Step(reported, hp', alive, draws')
            == Round(hp, initial, active, round, armor, damage, playerMult, mobMult, rand, draws)
  {
    var struck := PlayerAttacks(active, damage, playerMult, rand, draws);
    alive := Survivors(struck);
    if |alive| == 0 {
      return Some(Victory(hp, initial, 0, Percentage(hp, initial))), hp, alive, draws;
    }
    hp' := EnemyAttacks(hp, alive, armor, mobMult, rand, draws + |active|);
    if hp' <= 0 {
      return Some(Defeat(0, initial, TotalHealth(alive), |alive|)), hp', alive, draws;
    }
    if round + 1 > RoundCap {
      return Some(Stalemate), hp', alive, draws;
    }
    reported, draws' := None, draws + |active| + |alive|;
  }

  /** `simulateBattle` on explicit player stats: the round loop over a
      working copy of the battlefield. Returns the outcome it reports (None
      where the original sets none) and the rounds it began. */
  method Resolve(initialHp: int, armor: int, damage: int, battlefield: seq<MobInstance>,
                 shotsLanded: real, rand: nat -> real)
    returns (outcome: Option<Outcome>, rounds: nat, playerHealth: int, activeMobs: seq<MobInstance>)
    ensures Run(outcome, rounds, playerHealth, activeMobs)
            == Simulate(initialHp, armor, damage, battlefield, shotsLanded, rand)
  {
    if |battlefield| == 0 {
      return Some(Waiting), 0, initialHp, battlefield;
    }
    playerHealth := initialHp;
    activeMobs := battlefield;
    var playerShotsMultiplier := Multiplier(shotsLanded);
    var mobShotsMultiplier := Multiplier(-shotsLanded);
    var round := 1;
    var draws: nat := 0;
    while 0 < playerHealth && 0 < |activeMobs|
      invariant 1 <= round <= RoundCap && playerHealth <= initialHp
      invariant Fight(playerHealth, initialHp, activeMobs, round, armor, damage,
                      playerShotsMultiplier, mobShotsMultiplier, rand, draws)
             == Simulate(initialHp, armor, damage, battlefield, shotsLanded, rand)
      decreases RoundCap - round
    {
      var reported;
      reported, playerHealth, activeMobs, draws :=
        PlayRound(playerHealth, initialHp, activeMobs, round, armor, damage,
                  playerShotsMultiplier, mobShotsMultiplier, rand, draws);
      if reported.Some? {
        return reported, round, playerHealth, activeMobs;
      }
      round := round + 1;
    }
    return None, round - 1, playerHealth, activeMobs;
  }
}
