/** The hit-damage formula as the engine writes it, evaluated on JavaScript
    numbers where dividing by a zero armor yields NaN or an infinity, set
    beside the guarded formula the rest of the model uses. Finite values are
    exact reals: the rounding of IEEE-754 doubles is not modelled. */
module JsFindings {
  import opened JsMath
  import opened Combat
  import opened Battle

  /** The JavaScript numbers the formula can produce from integer inputs: a
      finite value, NaN, or an infinity of either sign. */
  datatype JsNumber = Finite(v: real) | NaN | Infinity(negative: bool)

  /** `x / y` on finite operands: a zero divisor gives NaN for 0 / 0 and an
      infinity with the dividend's sign otherwise. */
  function Div(x: real, y: real): JsNumber {
    if y != 0.0 then Finite(x / y)
    else if x == 0.0 then NaN
    else Infinity(x < 0.0)
  }

  /** `x * y` with a finite right operand. */
  function Mul(x: JsNumber, y: real): JsNumber {
    match x
    case Finite(v) => Finite(v * y)
    case NaN => NaN
    case Infinity(neg) => if y == 0.0 then NaN else Infinity(neg != (y < 0.0))
  }

  /** `x - y`. */
  function Sub(x: JsNumber, y: JsNumber): JsNumber {
    match (x, y)
    case (NaN, _) => NaN
    case (_, NaN) => NaN
    case (Finite(a), Finite(b)) => Finite(a - b)
    case (Finite(_), Infinity(neg)) => Infinity(!neg)
    case (Infinity(neg), Finite(_)) => x
    case (Infinity(n1), Infinity(n2)) => if n1 == n2 then NaN else x
  }

  /** `Math.floor(x)`. */
  function Floor(x: JsNumber): JsNumber {
    match x
    case Finite(v) => Finite(v.Floor as real)
    case _ => x
  }

  /** `Math.max(1, x)`: NaN propagates. */
  function MaxOne(x: JsNumber): JsNumber {
    match x
    case Finite(v) => Finite(if v < 1.0 then 1.0 else v)
    case NaN => NaN
    case Infinity(neg) => if neg then Finite(1.0) else x
  }

  /** `x > y`; every comparison with NaN is false. */
  predicate Above(x: JsNumber, y: real) {
    match x
    case Finite(v) => y < v
    case NaN => false
    case Infinity(neg) => !neg
  }

  /** `x <= y`; every comparison with NaN is false. */
  predicate AtMost(x: JsNumber, y: real) {
    match x
    case Finite(v) => v <= y
    case NaN => false
    case Infinity(neg) => neg
  }

  /** `calculateDamage(attackerDamage, defenderArmor)` as written: an armor
      of 0 with an attack of 0 or less falls through to the division. */
  function CalculateDamageAsWritten(attack: int, armor: int): JsNumber {
    if armor as real < attack as real / 2.0 then MaxOne(Finite((attack - armor) as real))
    else MaxOne(Floor(Mul(Div(attack as real, (armor * 4) as real), attack as real)))
  }

  /** One enemy's share of the player phase as written: hits stop only when
      the health compares at or below 0. */
  function StrikeAsWritten(health: JsNumber, dmg: JsNumber, hits: nat): JsNumber
    decreases hits
  {
    if hits == 0 then health
    else
      var h := Sub(health, dmg);
      if AtMost(h, 0.0) then h else StrikeAsWritten(h, dmg, hits - 1)
  }

  /** A player with no weapon (damage 0) hits an unarmored enemy for NaN,
      and a negative attack against no armor hits for +Infinity. */
  lemma ZeroArmorDivides(attack: int)
    ensures CalculateDamageAsWritten(0, 0) == NaN
    ensures attack < 0 ==> CalculateDamageAsWritten(attack, 0) == Infinity(false)
  {
  }

  /** As written, the player phase with damage 0 leaves every enemy, whatever
      its health, at NaN health, which the filter `health > 0` drops: the
      unarmed player wins the first round without a scratch. */
  lemma {:induction false} UnarmedPlayerWipesOutEnemies(health: int, hits: nat)
    requires 1 <= hits
    ensures StrikeAsWritten(Finite(health as real), CalculateDamageAsWritten(0, 0), hits) == NaN
    ensures !Above(StrikeAsWritten(Finite(health as real), CalculateDamageAsWritten(0, 0), hits), 0.0)
  {
    ZeroArmorDivides(0);
    StrikeNaNStaysNaN(NaN, hits - 1);
  }

  /** The player phase as written, on the enemies' health values: the j-th
      enemy takes the hits of the (draws + j)-th random value. */
  function PlayerVolleyAsWritten(healths: seq<int>, damage: int, mult: real, rand: nat -> real, draws: nat): (r: seq<JsNumber>)
    requires 1.0 <= mult
    ensures |r| == |healths|
  {
    seq(|healths|, j requires 0 <= j < |healths| =>
      StrikeAsWritten(Finite(healths[j] as real), CalculateDamageAsWritten(damage, 0), HitCount(mult, rand(draws + j))))
  }

  /** `filter(mob => mob.health > 0)` on JavaScript numbers. */
  function LivingAsWritten(hs: seq<JsNumber>): (r: seq<JsNumber>)
    ensures |r| <= |hs|
    ensures forall i :: 0 <= i < |r| ==> Above(r[i], 0.0)
  {
    if hs == [] then []
    else if Above(hs[0], 0.0) then [hs[0]] + LivingAsWritten(hs[1..])
    else LivingAsWritten(hs[1..])
  }

  /** The filter drops every value that does not compare above 0. */
  lemma {:induction false} NothingAboveZeroNothingLives(hs: seq<JsNumber>)
    requires forall i :: 0 <= i < |hs| ==> !Above(hs[i], 0.0)
    ensures LivingAsWritten(hs) == []
  {
    if hs != [] {
      NothingAboveZeroNothingLives(hs[1..]);
    }
  }

  /** As written, an unarmed player empties any battlefield in the player
      phase of round 1: every enemy's health becomes NaN and none survives
      the filter. The victory record that an empty filter leads to
      (src/App.jsx:199-208) is read off the code rather than modelled on
      JavaScript numbers: the player's health is still the initial one, so
      its rounded percentage is 100. */
  lemma UnarmedPlayerWinsRoundOne(healths: seq<int>, mult: real, rand: nat -> real, draws: nat, initial: int)
    requires 1.0 <= mult && 0 < initial
    ensures forall j :: 0 <= j < |healths| ==> PlayerVolleyAsWritten(healths, 0, mult, rand, draws)[j] == NaN
    ensures LivingAsWritten(PlayerVolleyAsWritten(healths, 0, mult, rand, draws)) == []
    ensures Percentage(initial, initial) == 100
  {
    var hs := PlayerVolleyAsWritten(healths, 0, mult, rand, draws);
    forall j | 0 <= j < |healths|
      ensures hs[j] == NaN
    {
      UnarmedPlayerWipesOutEnemies(healths[j], HitCount(mult, rand(draws + j)));
    }
    NothingAboveZeroNothingLives(hs);
    PercentageBounds(initial, initial);
  }

  /** NaN health stays NaN under any blows: `NaN - x` is NaN and
      `NaN <= 0` never stops the hits. */
  lemma {:induction false} StrikeNaNStaysNaN(dmg: JsNumber, hits: nat)
    ensures StrikeAsWritten(NaN, dmg, hits) == NaN
    decreases hits
  {
    if hits != 0 {
      StrikeNaNStaysNaN(dmg, hits - 1);
    }
  }

  /** The enemy phase as written, on the enemies' damage values: each enemy
      strikes the player's health with the hits of its own random value,
      and the phase stops once the health compares at or below 0. A NaN
      health stays NaN through the whole phase. */
  function EnemyVolleyAsWritten(hp: JsNumber, damages: seq<int>, armor: int, mult: real, rand: nat -> real, draws: nat): (r: JsNumber)
    requires 1.0 <= mult
    ensures hp == NaN ==> r == NaN
    decreases |damages|
  {
    if damages == [] then hp
    else
      var dmg := CalculateDamageAsWritten(damages[0], armor);
      var hits := HitCount(mult, rand(draws));
      StrikeNaNStaysNaN(dmg, hits);
      var h := StrikeAsWritten(hp, dmg, hits);
      if AtMost(h, 0.0) then h else EnemyVolleyAsWritten(h, damages[1..], armor, mult, rand, draws + 1)
  }

  /** As written, an enemy with damage 0 that strikes a player with armor 0
      first leaves the player's health NaN for the rest of the phase. Then
      neither `playerHealth <= 0` (the defeat test) nor `playerHealth > 0`
      (the loop condition) holds: the battle ends without setting an
      outcome, unless this was round 100, which still reports a stalemate. */
  lemma ZeroDamageEnemyLeavesPlayerNaN(hp: int, damages: seq<int>, mult: real, rand: nat -> real, draws: nat)
    requires 1.0 <= mult && damages != [] && damages[0] == 0
    ensures EnemyVolleyAsWritten(Finite(hp as real), damages, 0, mult, rand, draws) == NaN
    ensures !AtMost(EnemyVolleyAsWritten(Finite(hp as real), damages, 0, mult, rand, draws), 0.0)
    ensures !Above(EnemyVolleyAsWritten(Finite(hp as real), damages, 0, mult, rand, draws), 0.0)
  {
    UnarmedPlayerWipesOutEnemies(hp, HitCount(mult, rand(draws)));
  }

  /** With the guard, an unarmed player chips exactly 1 off an enemy per hit
      until it falls: an enemy with more health than hits survives the
      phase. */
  lemma UnarmedPlayerChipsOnePerHit(health: int, hits: nat)
    requires 0 < health
    ensures CalculateDamage(0, 0) == 1
    ensures ApplyHits(health, CalculateDamage(0, 0), hits) == health - Min(hits, health)
    ensures hits < health ==> 0 < ApplyHits(health, CalculateDamage(0, 0), hits)
  {
    ApplyHitsClosedForm(health, 1, hits);
    assert KillingBlows(health, 1) == health;
  }

  /** The guard changes nothing outside an armor of 0 with an attack of 0 or
      less: everywhere else the written formula yields the finite value of
      the guarded one. */
  lemma AsWrittenAgreesElsewhere(attack: int, armor: int)
    requires armor != 0 || 0 < attack
    ensures CalculateDamageAsWritten(attack, armor) == Finite(CalculateDamage(attack, armor) as real)
  {
    if !(armor as real < attack as real / 2.0) {
      assert armor != 0;
      var fl := Falloff(attack, armor).Floor;
      assert Mul(Div(attack as real, (armor * 4) as real), attack as real) == Finite(Falloff(attack, armor));
      assert MaxOne(Finite(fl as real)) == Finite(Max(1, fl) as real);
    }
  }
}
