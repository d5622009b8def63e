/** The hit-damage formula shared by both sides, the number of hits an
    attacker lands in a round, and the hit loop that stops at a kill. */
module Combat {
  import opened JsMath

  /** `(attackerDamage / (defenderArmor * 4)) * attackerDamage`, the armor-
      dominated branch of the formula before flooring. */
  function Falloff(attack: int, armor: int): real
    requires armor != 0
  {
    (attack as real / (armor * 4) as real) * attack as real
  }

  /** Damage of one hit. While the armor is below half the attack it is
      subtracted; otherwise the damage falls off as attack^2 / (4 * armor).
      An armor of 0 always takes the subtracting branch (see the findings in
      the README for what the unguarded formula does). */
  function CalculateDamage(attack: int, armor: int): (r: int)
    ensures 1 <= r
    ensures armor == 0 && 1 <= attack ==> r == attack
  {
    if armor as real < attack as real / 2.0 || armor == 0 then Max(1, attack - armor)
    else Max(1, Falloff(attack, armor).Floor)
  }

  lemma FalloffAsQuotient(attack: int, armor: int)
    requires armor != 0
    ensures Falloff(attack, armor) == (attack * attack) as real / (4 * armor) as real
  {
  }

  /** In the armor-dominated branch one hit deals at most half the attack. */
  lemma FalloffAtMostHalf(attack: int, armor: int)
    requires 0 <= attack && 0 < armor && attack as real <= 2.0 * armor as real
    ensures Falloff(attack, armor) <= attack as real / 2.0
  {
    FalloffAsQuotient(attack, armor);
    var d, q := attack as real, (4 * armor) as real;
    assert d * d <= d * (2.0 * armor as real) by {
      assert d * (2.0 * armor as real) - d * d == d * (2.0 * armor as real - d);
    }
    assert (d * d) / q <= (d * (2.0 * armor as real)) / q;
    assert (d * (2.0 * armor as real)) / q == d / 2.0;
  }

  /** More armor spreads the same squared attack thinner. */
  lemma FalloffAntitone(attack: int, a1: int, a2: int)
    requires 0 < a1 <= a2
    ensures Falloff(attack, a2) <= Falloff(attack, a1)
  {
    FalloffAsQuotient(attack, a1);
    FalloffAsQuotient(attack, a2);
    var x, q1, q2 := (attack * attack) as real, (4 * a1) as real, (4 * a2) as real;
    assert 0.0 <= x;
    assert x / q2 <= x / q1 by {
      assert x / q2 * q2 == x && x / q1 * q1 == x;
      assert x / q2 * q1 <= x / q2 * q2;
    }
  }

  /** For a fixed non-negative attack, more armor never means a harder hit;
      the step where the branch switches goes down too. */
  lemma DamageNonIncreasingInArmor(attack: int, a1: int, a2: int)
    requires 0 <= attack && 0 <= a1 <= a2
    ensures CalculateDamage(attack, a2) <= CalculateDamage(attack, a1)
  {
    var first1 := a1 as real < attack as real / 2.0 || a1 == 0;
    var first2 := a2 as real < attack as real / 2.0 || a2 == 0;
    if !first2 {
      if first1 {
        FalloffAtMostHalf(attack, a2);
        assert Falloff(attack, a2).Floor <= attack - a1;
      } else {
        FalloffAntitone(attack, a1, a2);
      }
    }
  }

  /** A hit never deals more than the attack itself (armor only absorbs). */
  lemma DamageAtMostAttack(attack: int, armor: int)
    requires 1 <= attack && 0 <= armor
    ensures CalculateDamage(attack, armor) <= attack
  {
    DamageNonIncreasingInArmor(attack, 0, armor);
  }

  // ------------------------------------------------------------ hit counts

  /** `1 + Math.max(0, advantage)`: how many attacks per round one side lands. */
  function Multiplier(advantage: real): (m: real)
    ensures 1.0 <= m
    ensures advantage <= 1.0 ==> m <= 2.0
  {
    1.0 + (if 0.0 < advantage then advantage else 0.0)
  }

  /** `Math.floor(m)` sure hits plus one more when the random sample falls
      below the fractional part of `m`. */
  function HitCount(m: real, sample: real): nat
    requires 1.0 <= m
  {
    var hits := m.Floor;
    var chance := m - hits as real;
    hits + (if sample < chance then 1 else 0)
  }

  /** With the advantage slider in [-1, 1] and a sample from [0, 1), every
      attacker lands one or two hits; the favoured side lands its second hit
      exactly when the sample is below the advantage, the other side never;
      at the ends of the slider the count is fixed with no extra roll. */
  lemma HitsPerAttack(shots: real, sample: real)
    requires -1.0 <= shots <= 1.0 && 0.0 <= sample < 1.0
    ensures 1 <= HitCount(Multiplier(shots), sample) <= 2
    ensures 1 <= HitCount(Multiplier(-shots), sample) <= 2
    ensures shots < 1.0 ==> (HitCount(Multiplier(shots), sample) == 2 <==> sample < shots)
    ensures -1.0 < shots ==> (HitCount(Multiplier(-shots), sample) == 2 <==> sample < -shots)
    ensures shots == 1.0 ==> HitCount(Multiplier(shots), sample) == 2 && HitCount(Multiplier(-shots), sample) == 1
    ensures shots == -1.0 ==> HitCount(Multiplier(shots), sample) == 1 && HitCount(Multiplier(-shots), sample) == 2
    ensures shots == 0.0 ==> HitCount(Multiplier(shots), sample) == 1 && HitCount(Multiplier(-shots), sample) == 1
  {
    FloorOfMultiplier(shots);
    FloorOfMultiplier(-shots);
  }

  lemma FloorOfMultiplier(advantage: real)
    requires advantage <= 1.0
    ensures Multiplier(advantage).Floor == if advantage == 1.0 then 2 else 1
  {
  }

  // -------------------------------------------------------------- hit loop

  /** Up to `hits` blows of `dmg` against `health`, stopping at the first
      blow that leaves it at or below 0. */
  function ApplyHits(health: int, dmg: int, hits: nat): (r: int)
    ensures 1 <= dmg && 1 <= hits ==> r < health
    decreases hits
  {
    if hits == 0 then health
    else if health - dmg <= 0 then health - dmg
    else ApplyHits(health - dmg, dmg, hits - 1)
  }

  /** The blows of `dmg` that bring a positive `health` to 0 or below. */
  function KillingBlows(health: int, dmg: int): int
    requires 0 < health && 1 <= dmg
  {
    (health - 1) / dmg + 1
  }

  lemma KillingBlowsStep(health: int, dmg: int)
    requires 0 < health - dmg && 1 <= dmg
    ensures KillingBlows(health - dmg, dmg) == KillingBlows(health, dmg) - 1
  {
    var x := health - 1;
    var q, r := x / dmg, x % dmg;
    assert x == q * dmg + r && 0 <= r < dmg;
    assert x - dmg == (q - 1) * dmg + r;
    DivUnique(x - dmg, dmg, q - 1, r);
  }

  lemma DivUnique(x: int, d: int, q: int, r: int)
    requires 0 < d && x == q * d + r && 0 <= r < d
    ensures x / d == q
  {
    var q', r' := x / d, x % d;
    assert x == q' * d + r' && 0 <= r' < d;
    if q' < q {
      MulMonotone(q' + 1, q, d);
      assert false;
    } else if q < q' {
      MulMonotone(q + 1, q', d);
      assert false;
    }
  }

  lemma MulMonotone(a: int, b: int, d: int)
    requires a <= b && 0 < d
    ensures a * d <= b * d
  {
    var k := b - a;
    assert b * d == a * d + k * d;
    assert 0 <= k * d;
  }

  /** Closed form of the hit loop: a target with positive health takes
      min(hits, KillingBlows) blows; it ends at or below 0 exactly when it
      was given enough hits to die, and never more than one blow below. */
  lemma {:induction false} ApplyHitsClosedForm(health: int, dmg: int, hits: nat)
    requires 0 < health && 1 <= dmg
    ensures ApplyHits(health, dmg, hits) == health - Min(hits, KillingBlows(health, dmg)) * dmg
    ensures ApplyHits(health, dmg, hits) <= 0 <==> KillingBlows(health, dmg) <= hits
    ensures -dmg < ApplyHits(health, dmg, hits)
  {
    var k := KillingBlows(health, dmg);
    assert 1 <= k;
    if hits != 0 {
      if health - dmg <= 0 {
        assert (health - 1) / dmg == 0 by {
          DivUnique(health - 1, dmg, 0, health - 1);
        }
      } else {
        KillingBlowsStep(health, dmg);
        ApplyHitsClosedForm(health - dmg, dmg, hits - 1);
        var m := Min(hits - 1, k - 1);
        assert m + 1 == Min(hits, k);
        assert health - dmg - m * dmg == health - (m + 1) * dmg;
      }
    } else {
      assert 0 < k;
    }
  }

  /** The `for (hit ...)` loop: each blow re-evaluates the formula and the
      loop breaks as soon as the target is at or below 0. */
  method StrikeRepeatedly(health: int, attack: int, armor: int, hits: nat) returns (h: int)
    ensures h == ApplyHits(health, CalculateDamage(attack, armor), hits)
  {
    ghost var dmg := CalculateDamage(attack, armor);
    h := health;
    var hit := 0;
    while hit < hits
      invariant 0 <= hit <= hits
      invariant ApplyHits(health, dmg, hits) == ApplyHits(h, dmg, hits - hit)
    {
      var damageDealt := CalculateDamage(attack, armor);
      h := h - damageDealt;
      if h <= 0 {
        break;
      }
      hit := hit + 1;
    }
  }
}
