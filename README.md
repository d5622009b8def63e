# Valheim combat calculator: the combat engine in Dafny

This project models the combat engine of the single-page combat calculator (`src/App.jsx`). A user picks:

- equipment for seven slots (helmet, chest, leg, cape, shield, weapon, arrow);
- up to three foods;
- a skill level and a "shots landed" slider;
- a list of enemies on the battlefield.

The engine predicts the fight:

- It derives the player's armor, damage, health and stamina from lookup tables.
- It resolves hits with a two-branch damage formula.
- It runs a round loop of at most 100 rounds. In each round, the player strikes every enemy, the dead are dropped, and the survivors strike back. The result is waiting, victory, defeat or stalemate.

## Modules

- `Catalog` (`catalog.dfy`): the lookup tables and `Lookup`, which returns 0 for an unknown key.
- `Stats` (`stats.dfy`): the stat aggregator.
  - The armor and damage accumulators are methods, each proved equal to a specification function.
  - The food folds are functions.
- `Combat` (`combat.dfy`): three pieces.
  - `calculateDamage`.
  - The hit count `floor(multiplier)` plus a random extra hit.
  - The per-target hit loop, which stops at a kill.
- `Roster` (`roster.dfy`): enemy instances, adding a catalog snapshot, and removing by id.
- `Battle` (`battle.dfy`): the resolver.
  - `Round`, `Fight` and `Simulate` are the specification.
  - `PlayerAttacks`, `EnemyAttacks`, `PlayRound` and `Resolve` are the loops of `simulateBattle`, each proved equal to that specification.
- `Session` (`session.dfy`): a class holding the component's state. Its methods are the handlers, and `SimulateBattle` records the outcome.
- `JsFindings` (`findings.dfy`): `calculateDamage` and the hit loops as written, evaluated on JavaScript numbers (finite, NaN, ±Infinity), with finite values as exact reals.
- `Scenarios` (`scenarios.dfy`): fights worked through on entries of the sample catalog.
- `JsMath` and `Wrappers`: `Math.round` (`floor(x + 0.5)`), `Max`/`Min`, and `Option`.

## How each abstraction is modelled

- `Math.random()`: an oracle `rand: nat -> real`. The k-th call reads `rand(k)`. The resolver threads the count of calls so far as `draws`: one per enemy in the player phase, then one per enemy that attacks.
- `null` in the equipment object: an absent key. A slot counts as selected when its key is present and its value is non-empty (JavaScript truthiness).
- Empty food slots: `None`.
- `skillLevel` and `shotsLanded`: Dafny reals.
- Health, damage and armor: unbounded integers.
- A run that sets no outcome: the outcome `None`. In the model this happens only when the initial health is ≤ 0, which requires foods with negative health. The code as written has a second case: an enemy with damage 0 against a player with armor 0 makes the player's health NaN, and the battle then ends with no outcome (see Findings).

## Model

| member | source | states |
|---|---|---|
| Stats.PlayerArmor | src/App.jsx:101-109 | The step-by-step armor total equals `ArmorOf`: the sum over helmet, chest, leg, cape and shield. An empty slot or an unknown item adds 0. |
| Stats.ArmorWithinSlotMaxima | src/App.jsx:101-109 | With each slot's catalog values in [0, bound], the armor is non-negative and at most the sum of the five bounds. |
| Stats.ArmorSlotChange | src/App.jsx:101-109 | Changing one slot changes the armor by exactly that slot's difference. Changing the weapon or arrow leaves it unchanged. |
| Stats.ArmorSumSlotChange | src/App.jsx:101-109 | The same over any list of distinct armor slots, by induction. |
| Stats.UnknownArmorCountsAsEmpty | src/App.jsx:103-107 | An item missing from its slot's catalog counts as an empty slot. |
| Stats.PlayerDamage | src/App.jsx:111-128 | The accumulator equals `DamageOf`: weapon damage, plus arrow damage for a bow with an arrow selected, scaled by skill and rounded half up. |
| Stats.ArrowBonusOnlyWithBow | src/App.jsx:114-122 | The arrow's bonus is added exactly when a weapon whose name contains "Bow" and an arrow are selected. Otherwise the raw damage is the weapon's alone, and 0 with no weapon. |
| Stats.SkillScaling | src/App.jsx:125 | Skill 0 gives 0 damage. Skill 1 gives the unscaled damage. A skill in [0, 1] keeps non-negative damage within [0, raw]. |
| Stats.DamageMonotoneInSkill | src/App.jsx:125 | For non-negative raw damage, more skill never deals less damage. |
| Stats.FoodHealth | src/App.jsx:131-134 | With non-negative food values, the summed food health is non-negative. |
| Stats.FoodStamina | src/App.jsx:136-139 | With non-negative food values, the summed food stamina is non-negative. |
| Stats.PlayerHealth | src/App.jsx:131-134 | With non-negative food values, health is at least the base of 25. |
| Stats.PlayerStamina | src/App.jsx:136-139 | With non-negative food values, stamina is at least the base of 50. |
| Stats.FoodSlotChange | src/App.jsx:131-139 | Replacing one slot's food changes health and stamina by exactly the new food's bonus minus the old food's. |
| Stats.NoKnownFoodIsBaseline | src/App.jsx:131-139 | With every slot empty or unknown, health is 25 and stamina is 50. |
| Combat.CalculateDamage | src/App.jsx:142-148 | Every hit deals at least 1. With no armor, a hit with an attack of at least 1 deals exactly the attack. |
| Combat.DamageNonIncreasingInArmor | src/App.jsx:142-148 | For a fixed non-negative attack, more armor never means a harder hit, including across the branch switch. |
| Combat.DamageAtMostAttack | src/App.jsx:142-148 | With non-negative armor and an attack of at least 1, a hit deals no more than the attack. |
| Combat.FalloffAtMostHalf | src/App.jsx:145-146 | For a non-negative attack, in the armor-dominated branch, the unfloored damage is at most half the attack. |
| Combat.FalloffAntitone | src/App.jsx:145-146 | In that branch, the damage falls as armor grows. |
| Combat.Multiplier | src/App.jsx:169-170 | `1 + max(0, advantage)` lies in [1, 2] for an advantage of at most 1. |
| Combat.HitsPerAttack | src/App.jsx:169-218 | With the slider in [-1, 1] and a sample in [0, 1), each attacker lands 1 or 2 hits. The favoured side lands its second hit exactly when the sample is below the advantage, and the other side never does. At ±1 and 0 the counts are fixed. |
| Combat.ApplyHits | src/App.jsx:185-192 | At least one hit of positive damage strictly lowers the target's health. |
| Combat.ApplyHitsClosedForm | src/App.jsx:185-227 | A living target takes min(hits, killing blows) blows. It ends at or below 0 exactly when it had enough hits to die, and never more than one blow below 0. |
| Combat.StrikeRepeatedly | src/App.jsx:185-192 | The hit loop with `break` equals `ApplyHits` of the formula's damage. |
| Roster.AddMob | src/App.jsx:70-83 | An empty name leaves the battlefield unchanged. Otherwise one instance is appended with the given id, `health == maxHealth ==` the catalog health and the catalog damage, and earlier entries are unchanged. |
| Roster.RemoveMobKeepsExactlyTheOthers | src/App.jsx:96-98 | Removing an id drops every instance with that id and keeps every other instance as often as it occurred. |
| Roster.RemoveMobKeepsOrder | src/App.jsx:96-98 | Removal distributes over concatenation, so the order of the rest is kept. |
| Roster.AddThenRemove | src/App.jsx:70-98 | Adding under a fresh id and then removing that id gives the battlefield back. |
| Roster.RemoveAbsentId | src/App.jsx:96-98 | Removing an id that no instance carries changes nothing. |
| Battle.PercentageBounds | src/App.jsx:200 | A surviving player's percentage is within [0, 100], and exactly 100 with no health lost. |
| Battle.PlayerVolley | src/App.jsx:177-193 | The player phase keeps the number of enemies. |
| Battle.PlayerVolleyHurts | src/App.jsx:177-193 | Each enemy loses health in the player phase, and nothing but its health changes. |
| Battle.Survivors | src/App.jsx:196 | The filter yields no more enemies than it was given, each with health above 0. |
| Battle.SurvivorsAreTheLiving | src/App.jsx:196 | The filter keeps exactly the enemies with health above 0, each as often as it occurred. |
| Battle.SurvivorsKeepOrder | src/App.jsx:196 | The filter keeps the order of what it keeps. |
| Battle.EnemyVolley | src/App.jsx:213-230 | The enemy phase never heals the player, and hurts the player whenever an enemy is left. |
| Battle.HardestHit | src/App.jsx:221 | The bound is at least the damage of every enemy's hit. |
| Battle.EnemyVolleyStopsAtDefeat | src/App.jsx:220-229 | A player alive at the start of the enemy phase ends it less than one hardest hit below 0. |
| Battle.AllBlows | src/App.jsx:213-230 | The enemy phase without its `break`s, as a reference: it never heals the player. |
| Battle.EnemyVolleyIsAllBlowsUntilDefeat | src/App.jsx:213-230 | The player falls in the enemy phase exactly when every enemy's every blow would fell them. A player who ends the phase alive has taken every blow of every enemy. |
| Battle.TotalHealth | src/App.jsx:234 | Enemies that all have positive health total at least their number. |
| Battle.Round | src/App.jsx:175-255 | One pass of the loop body. With no outcome, the next round is within the cap and the player and some enemies are alive. Every enemy left on the working list has health above 0. A victory leaves the working list empty and the player's health untouched by this round's enemies, and reports that health, 0 enemy HP and the percentage `Math.round(hp / initial * 100)` of that health, which lies in [0, 100]. A defeat leaves the player at or below 0, reports 0 player HP, and reports the enemy HP as the total of the working list and the enemy count as its length, at least one. A stalemate comes only in round 100, with the player and some enemy alive. |
| Battle.Fight | src/App.jsx:175-256 | The loop sets no outcome exactly when its condition fails at entry. Then the final health and working list are the ones it started with. Otherwise it ends within 100 rounds in a victory, defeat or stalemate, and the outcome agrees with the final state: a victory has an empty working list and reports the player's final health and its rounded percentage of the initial health; a defeat has the player at or below 0 and reports the total HP and number of the enemies left; every enemy left has health above 0. A stalemate comes after exactly 100 rounds. |
| Battle.Simulate | src/App.jsx:151-257 | Waiting exactly for an empty battlefield. No outcome exactly when the battlefield is non-empty and the initial health is ≤ 0. Otherwise exactly one of victory, defeat or stalemate, after 1 to 100 rounds, agreeing with the final player health and working list as in `Fight`, a victory's percentage included. |
| Battle.OneBlowVictory | src/App.jsx:175-210 | A player whose hit kills every enemy outright wins round 1 at full health and 100%, whatever the random values. |
| Battle.PlayerAttacks | src/App.jsx:177-193 | The `for` loop over the working list equals `PlayerVolley`. |
| Battle.EnemyAttacks | src/App.jsx:213-230 | The `for ... of` loop with `break` equals `EnemyVolley`. |
| Battle.PlayRound | src/App.jsx:175-255 | One pass of the `while` body equals `Round`. |
| Battle.Resolve | src/App.jsx:151-257 | The whole `simulateBattle` on explicit stats equals `Simulate`: outcome, rounds, final player health and final working list. |
| Session.Session.constructor | src/App.jsx:33-47 | The initial state: nothing equipped, three empty food slots, skill 0.5, slider 0, empty battlefield, no outcome. |
| Session.Session.HandleEquipmentChange | src/App.jsx:55-60 | An empty value clears the slot, any other value selects it, and no other slot changes. The armor moves by exactly that slot's difference. |
| Session.Session.HandleFoodChange | src/App.jsx:63-67 | Only the chosen slot changes, and an empty value empties it. Health and stamina move by exactly the bonus difference. |
| Session.Session.AddMobToBattlefield | src/App.jsx:70-83 | The battlefield becomes `AddMob` of the old one. |
| Session.Session.RemoveMobFromBattlefield | src/App.jsx:96-98 | The battlefield becomes `RemoveMob` of the old one. |
| Session.Session.SimulateBattle | src/App.jsx:151-257 | The outcome becomes `Simulate` of the derived stats when that reports one, and is otherwise left as it was. The battlefield is not modified. |
| JsFindings.ZeroArmorDivides | src/App.jsx:142-148 | As written, an attack of 0 against armor 0 yields NaN. A negative attack against armor 0 yields +Infinity. |
| JsFindings.UnarmedPlayerWipesOutEnemies | src/App.jsx:185-196 | As written, damage 0 leaves any enemy at NaN health after at least one hit, and the filter drops it. |
| JsFindings.UnarmedPlayerChipsOnePerHit | src/App.jsx:142-192 | With the guard, an unarmed hit deals 1. An enemy with more health than hits survives the phase. |
| JsFindings.PlayerVolleyAsWritten | src/App.jsx:177-193 | The player phase as written keeps the number of enemies. |
| JsFindings.LivingAsWritten | src/App.jsx:196 | The filter on JavaScript numbers keeps no more than it is given, each comparing above 0. |
| JsFindings.NothingAboveZeroNothingLives | src/App.jsx:196 | The filter drops every value that does not compare above 0. |
| JsFindings.UnarmedPlayerWinsRoundOne | src/App.jsx:175-208 | As written, an unarmed player's phase leaves every enemy of any battlefield at NaN and none survives the filter, which is the victory test at line 199. The percentage of the untouched initial health is 100; the victory record itself is read off lines 199-208. |
| JsFindings.EnemyVolleyAsWritten | src/App.jsx:213-230 | The enemy phase as written keeps a NaN player health NaN to its end. |
| JsFindings.ZeroDamageEnemyLeavesPlayerNaN | src/App.jsx:213-233 | As written, an enemy with damage 0 striking first at a player with armor 0 leaves the player's health NaN, which compares neither at or below 0 nor above 0, so neither the defeat test nor the loop condition holds. |
| JsFindings.AsWrittenAgreesElsewhere | src/App.jsx:142-148 | On exact arithmetic, outside armor 0 with an attack ≤ 0, the written formula yields the guarded one's value. |
| Scenarios.IronSwordAtHalfSkill | src/App.jsx:111-128 | An Iron Sword (55) at skill 0.5 hits for 28. |
| Scenarios.FullArmor | src/App.jsx:101-109 | The five sample armor pieces total 12. |
| Scenarios.BlackSoup | src/App.jsx:131-139 | Black soup in one slot gives 75 health and 67 stamina. |
| Scenarios.IronSwordOneShotsBoarStar | src/App.jsx:151-210 | At full skill, 55 damage kills a Boar * (20 HP): victory in round 1 at 100%. |
| Scenarios.UnarmedLosesToBoar | src/App.jsx:151-244 | On the guarded `Combat.CalculateDamage` (see Findings), an unarmed player against a Boar falls in round 3 with the Boar at 7 HP: defeat with 1 enemy left. The code as written does not do this: the Boar's health becomes NaN, the filter drops it, and the result is victory in round 1 at 100% (`JsFindings.UnarmedPlayerWinsRoundOne`). |

## Left out

- Rendering, dropdowns and display strings, including the outcome `message` texts: presentation only.
- The `useEffect` that re-runs the simulation after every state change: the model makes it an explicit call to `Session.SimulateBattle`.
- `handleMobSelection` and `selectedMob`: UI selection state, which only forwards to `addMobToBattlefield`.
- `setSkillLevel` and `setShotsLanded`: plain assignments to the public fields.
- `meads` (imported, never used) and the catalog data file: it is only literals, a few of which appear in `Scenarios`.
- `Date.now()` as the instance id: the id is a parameter of `AddMobToBattlefield`.
- `Math.random()`: the oracle `rand`. Its values are only assumed to lie in [0, 1) where a lemma needs that (`Combat.HitsPerAttack`).
- IEEE-754 rounding of `damage * skillLevel`, the multipliers, the percentage and the falloff `(attackerDamage / (defenderArmor * 4)) * attackerDamage` (src/App.jsx:146): these are computed on exact reals. Where the exact falloff is a whole number, the doubles can land just below it, and the floor is then one less than the model's: `calculateDamage(198, 363)` gives 26 in JavaScript and 27 here. Only `JsFindings` models NaN and infinities, for the one formula where they arise.
- Session.Session.AddMobToBattlefield: a non-empty name missing from the catalog makes the original throw (`mobs[mobName].health` of `undefined`). This is a precondition here. Every other lookup in the engine falls back to 0, but this one does not.
- Session.Session.HandleFoodChange: an index outside the three slots (which would grow the JavaScript array) is excluded by a precondition; the page only passes 0, 1 and 2.
- Combat.CalculateDamage: this is the corrected formula (see Findings). For an attack ≤ 0 against armor 0 it returns 1, where the code as written returns NaN or +Infinity. So the model does not capture either NaN outcome: an unarmed player who wins round 1 against anything, or an enemy with damage 0 against an unarmored player that leaves the player's health NaN and the battle without an outcome.
- Stats.FoodHealth, Stats.FoodStamina, Stats.PlayerHealth, Stats.PlayerStamina: their bounds are stated only for catalogs with non-negative food values.

## Findings

| source | as written | input that shows it | evidently intended | confidence | as-written member | corrected member |
|---|---|---|---|---|---|---|
| src/App.jsx:142-148 | With armor 0 and an attack of 0, `0 < 0 / 2` is false, so the second branch computes `0 / (0 * 4) * 0`, which is NaN, and `Math.max(1, NaN)` is NaN. The enemy's health becomes NaN. `NaN <= 0` is false, so the hits continue, and the filter `health > 0` is false, so the enemy is dropped. The same holds for every enemy, so an unarmed player wins round 1 at full health against any battlefield. | `calculateDamage(0, 0)`: no weapon equipped, against any enemy | every hit deals at least 1, so `calculateDamage(0, 0) == 1` and the unarmed player loses to a Boar in round 3 | high (not executed) | JsFindings.UnarmedPlayerWinsRoundOne | Combat.CalculateDamage |
| src/App.jsx:221-233 | The same NaN on the enemy side: with player armor 0, an enemy with damage 0 hits for `calculateDamage(0, 0)`, which is NaN, so `playerHealth` becomes NaN. The tests `playerHealth <= 0` at lines 224, 229 and 233 are false, so no defeat is reported. After `round++` the loop condition `playerHealth > 0` is false, so `simulateBattle` returns without setting an outcome and the previous one stays on screen. Only round 100 still reports a stalemate. | an enemy with damage 0 against a player with no armor equipped | the enemy deals 1 per hit, and the battle ends in a victory, defeat or stalemate | medium (not executed; no damage-0 enemy appears in the sample catalog) | JsFindings.ZeroDamageEnemyLeavesPlayerNaN | Combat.CalculateDamage |
