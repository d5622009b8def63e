/** The stat aggregator: the player's armor, damage, health and stamina,
    derived from the equipment, the three food slots and the skill level. */
module Stats {
  import opened Wrappers
  import opened Catalog
  import opened JsMath

  /** The equipment object: a slot absent from the map holds `null`. */
  type Equipment = map<Slot, string>

  /** JavaScript truthiness of `playerEquipment[slot]`: set and non-empty. */
  predicate IsSelected(eq: Equipment, slot: Slot) {
    slot in eq && eq[slot] != ""
  }

  // ---------------------------------------------------------------- armor

  /** What one armor slot adds to the total: 0 when empty or unknown. */
  function SlotArmor(c: Catalogs, eq: Equipment, slot: Slot): int
    requires slot.IsArmor()
  {
    if IsSelected(eq, slot) then Lookup(c.armor.Table(slot), eq[slot]) else 0
  }

  function ArmorSum(c: Catalogs, eq: Equipment, slots: seq<Slot>): int
    requires forall s :: s in slots ==> s.IsArmor()
  {
    if slots == [] then 0 else SlotArmor(c, eq, slots[0]) + ArmorSum(c, eq, slots[1..])
  }

  /** The player's armor: the sum of the five armor slots' contributions. */
  function ArmorOf(c: Catalogs, eq: Equipment): int {
    ArmorSum(c, eq, ArmorSlots)
  }

  lemma ArmorOfFiveSlots(c: Catalogs, eq: Equipment)
    ensures ArmorOf(c, eq) == SlotArmor(c, eq, Helmet) + SlotArmor(c, eq, Chest) + SlotArmor(c, eq, Leg)
                              + SlotArmor(c, eq, Cape) + SlotArmor(c, eq, Shield)
  {
    var s := ArmorSlots;
    assert s[1..] == [Chest, Leg, Cape, Shield] && s[2..] == [Leg, Cape, Shield];
    assert s[3..] == [Cape, Shield] && s[4..] == [Shield] && s[5..] == [];
    assert ArmorSum(c, eq, s[4..]) == SlotArmor(c, eq, Shield);
    assert ArmorSum(c, eq, s[3..]) == SlotArmor(c, eq, Cape) + ArmorSum(c, eq, s[4..]);
    assert ArmorSum(c, eq, s[2..]) == SlotArmor(c, eq, Leg) + ArmorSum(c, eq, s[3..]);
    assert ArmorSum(c, eq, s[1..]) == SlotArmor(c, eq, Chest) + ArmorSum(c, eq, s[2..]);
  }

  /** The running total over the five armor slots, one `if` per slot. */
  method PlayerArmor(c: Catalogs, eq: Equipment) returns (total: int)
    ensures total == ArmorOf(c, eq)
  {
    total := 0;
    if IsSelected(eq, Helmet) { total := total + Lookup(c.armor.helmet, eq[Helmet]); }
    if IsSelected(eq, Chest) { total := total + Lookup(c.armor.chest, eq[Chest]); }
    if IsSelected(eq, Leg) { total := total + Lookup(c.armor.leg, eq[Leg]); }
    if IsSelected(eq, Cape) { total := total + Lookup(c.armor.cape, eq[Cape]); }
    if IsSelected(eq, Shield) { total := total + Lookup(c.armor.shield, eq[Shield]); }
    ArmorOfFiveSlots(c, eq);
  }

  /** With non-negative catalog values, the armor total is non-negative and
      at most the sum of the five slots' maxima. */
  lemma ArmorWithinSlotMaxima(c: Catalogs, eq: Equipment, helmet: int, chest: int, leg: int, cape: int, shield: int)
    requires 0 <= helmet && BoundedBy(c.armor.helmet, helmet)
    requires 0 <= chest && BoundedBy(c.armor.chest, chest)
    requires 0 <= leg && BoundedBy(c.armor.leg, leg)
    requires 0 <= cape && BoundedBy(c.armor.cape, cape)
    requires 0 <= shield && BoundedBy(c.armor.shield, shield)
    ensures 0 <= ArmorOf(c, eq) <= helmet + chest + leg + cape + shield
  {
    var bound := map[Helmet := helmet, Chest := chest, Leg := leg, Cape := cape, Shield := shield];
    forall s | s in ArmorSlots
      ensures 0 <= SlotArmor(c, eq, s) <= bound[s]
    {
      if IsSelected(eq, s) {
        LookupWithin(c.armor.Table(s), eq[s], bound[s]);
      }
    }
    ArmorOfFiveSlots(c, eq);
  }

  /** Changing one slot changes the total by exactly that slot's change:
      the contributions of distinct slots are independent. */
  lemma {:induction false} ArmorSumSlotChange(c: Catalogs, eq: Equipment, eq': Equipment, slot: Slot, slots: seq<Slot>)
    requires forall s :: s in slots ==> s.IsArmor()
    requires forall i, j :: 0 <= i < j < |slots| ==> slots[i] != slots[j]
    requires forall s :: s != slot ==> (s in eq <==> s in eq') && (s in eq ==> eq[s] == eq'[s])
    ensures ArmorSum(c, eq', slots) - ArmorSum(c, eq, slots)
         == if slot in slots then SlotArmor(c, eq', slot) - SlotArmor(c, eq, slot) else 0
  {
    if slots != [] {
      ArmorSumSlotChange(c, eq, eq', slot, slots[1..]);
      assert slots[0] == slot ==> slot !in slots[1..];
    }
  }

  /** Setting one equipment slot changes the armor by the difference of what
      that slot contributes, and setting the weapon or arrow leaves it alone. */
  lemma ArmorSlotChange(c: Catalogs, eq: Equipment, eq': Equipment, slot: Slot)
    requires forall s :: s != slot ==> (s in eq <==> s in eq') && (s in eq ==> eq[s] == eq'[s])
    ensures ArmorOf(c, eq') - ArmorOf(c, eq)
         == if slot.IsArmor() then SlotArmor(c, eq', slot) - SlotArmor(c, eq, slot) else 0
  {
    ArmorSumSlotChange(c, eq, eq', slot, ArmorSlots);
    assert slot in ArmorSlots <==> slot.IsArmor();
  }

  /** An item missing from its slot's catalog counts as an empty slot. */
  lemma UnknownArmorCountsAsEmpty(c: Catalogs, eq: Equipment, slot: Slot)
    requires slot.IsArmor() && slot in eq && eq[slot] !in c.armor.Table(slot)
    ensures ArmorOf(c, eq) == ArmorOf(c, eq - {slot})
  {
    ArmorSlotChange(c, eq - {slot}, eq, slot);
  }

  // --------------------------------------------------------------- damage

  /** `s.includes(sub)`. */
  predicate Contains(s: string, sub: string)
    decreases |s|
  {
    |sub| <= |s| && (s[..|sub|] == sub || Contains(s[1..], sub))
  }

  /** A weapon is bow-class when its name contains "Bow". */
  predicate BowEquipped(eq: Equipment) {
    IsSelected(eq, Weapon) && Contains(eq[Weapon], "Bow")
  }

  /** The weapon's damage plus, for a bow with an arrow selected, the arrow's. */
  function RawDamage(c: Catalogs, eq: Equipment): int {
    (if IsSelected(eq, Weapon) then Lookup(c.weapons, eq[Weapon]) else 0)
    + (if BowEquipped(eq) && IsSelected(eq, Arrow) then Lookup(c.arrows, eq[Arrow]) else 0)
  }

  /** The player's damage: the raw damage scaled by the skill level and rounded. */
  function DamageOf(c: Catalogs, eq: Equipment, skill: real): int {
    RoundHalfUp(RawDamage(c, eq) as real * skill)
  }

  /** The accumulator computation of the player's damage. */
  method PlayerDamage(c: Catalogs, eq: Equipment, skill: real) returns (damage: int)
    ensures damage == DamageOf(c, eq, skill)
  {
    damage := 0;
    if IsSelected(eq, Weapon) {
      damage := damage + Lookup(c.weapons, eq[Weapon]);
    }
    if IsSelected(eq, Weapon) && Contains(eq[Weapon], "Bow") && IsSelected(eq, Arrow) {
      damage := damage + Lookup(c.arrows, eq[Arrow]);
    }
    damage := RoundHalfUp(damage as real * skill);
  }

  /** An arrow adds its bonus exactly when a bow is equipped; otherwise the
      raw damage is the weapon's alone, whatever arrow is selected. */
  lemma ArrowBonusOnlyWithBow(c: Catalogs, eq: Equipment)
    ensures BowEquipped(eq) && IsSelected(eq, Arrow) ==>
              RawDamage(c, eq) == Lookup(c.weapons, eq[Weapon]) + Lookup(c.arrows, eq[Arrow])
    ensures !(BowEquipped(eq) && IsSelected(eq, Arrow)) ==>
              RawDamage(c, eq) == RawDamage(c, eq - {Arrow})
    ensures !IsSelected(eq, Weapon) ==> RawDamage(c, eq) == 0
  {
    assert IsSelected(eq - {Arrow}, Weapon) == IsSelected(eq, Weapon);
  }

  /** Skill 0 gives no damage, skill 1 the unscaled damage, and a skill in
      between scales non-negative raw damage into [0, raw]. */
  lemma SkillScaling(c: Catalogs, eq: Equipment, skill: real)
    ensures DamageOf(c, eq, 0.0) == 0
    ensures DamageOf(c, eq, 1.0) == RawDamage(c, eq)
    ensures 0.0 <= skill <= 1.0 && 0 <= RawDamage(c, eq) ==> 0 <= DamageOf(c, eq, skill) <= RawDamage(c, eq)
  {
    var raw := RawDamage(c, eq);
    RoundHalfUpOfInt(0);
    RoundHalfUpOfInt(raw);
    if 0.0 <= skill <= 1.0 && 0 <= raw {
      assert 0.0 <= raw as real * skill <= raw as real by {
        NonNegativeProduct(raw as real, skill);
        NonNegativeProduct(raw as real, 1.0 - skill);
        assert raw as real - raw as real * skill == raw as real * (1.0 - skill);
      }
      RoundHalfUpMonotone(0.0, raw as real * skill);
      RoundHalfUpMonotone(raw as real * skill, raw as real);
    }
  }

  /** More skill never deals less damage. */
  lemma DamageMonotoneInSkill(c: Catalogs, eq: Equipment, s1: real, s2: real)
    requires s1 <= s2 && 0 <= RawDamage(c, eq)
    ensures DamageOf(c, eq, s1) <= DamageOf(c, eq, s2)
  {
    var raw := RawDamage(c, eq) as real;
    assert raw * s1 <= raw * s2 by {
      assert 0.0 <= raw && 0.0 <= s2 - s1;
      NonNegativeProduct(raw, s2 - s1);
      assert raw * s2 - raw * s1 == raw * (s2 - s1);
    }
    RoundHalfUpMonotone(raw * s1, raw * s2);
  }

  // ----------------------------------------------------------------- food

  /** What one food slot adds: nothing when empty or unknown. */
  function FoodBonus(c: Catalogs, food: Option<string>): FoodStats {
    if food.Some? && food.value != "" && food.value in c.foods then c.foods[food.value] else FoodStats(0, 0)
  }

  /** `playerFood.reduce(...)` over health, folded left to right. */
  function FoodHealth(c: Catalogs, food: seq<Option<string>>): (r: int)
    ensures NonNegativeFoods(c.foods) ==> 0 <= r
  {
    if food == [] then 0 else FoodHealth(c, food[..|food| - 1]) + FoodBonus(c, food[|food| - 1]).health
  }

  /** `playerFood.reduce(...)` over stamina, folded left to right. */
  function FoodStamina(c: Catalogs, food: seq<Option<string>>): (r: int)
    ensures NonNegativeFoods(c.foods) ==> 0 <= r
  {
    if food == [] then 0 else FoodStamina(c, food[..|food| - 1]) + FoodBonus(c, food[|food| - 1]).stamina
  }

  const BaseHealth: int := 25
  const BaseStamina: int := 50

  function PlayerHealth(c: Catalogs, food: seq<Option<string>>): (r: int)
    ensures NonNegativeFoods(c.foods) ==> BaseHealth <= r
  {
    BaseHealth + FoodHealth(c, food)
  }

  function PlayerStamina(c: Catalogs, food: seq<Option<string>>): (r: int)
    ensures NonNegativeFoods(c.foods) ==> BaseStamina <= r
  {
    BaseStamina + FoodStamina(c, food)
  }

  /** Replacing the food in one slot changes health and stamina by exactly
      the difference between the new and the old food's bonuses. */
  lemma {:induction false} FoodSlotChange(c: Catalogs, food: seq<Option<string>>, i: nat, f: Option<string>)
    requires i < |food|
    ensures FoodHealth(c, food[i := f]) == FoodHealth(c, food) - FoodBonus(c, food[i]).health + FoodBonus(c, f).health
    ensures FoodStamina(c, food[i := f]) == FoodStamina(c, food) - FoodBonus(c, food[i]).stamina + FoodBonus(c, f).stamina
  {
    var n := |food|;
    var food' := food[i := f];
    if i == n - 1 {
      assert food'[..n - 1] == food[..n - 1];
    } else {
      FoodSlotChange(c, food[..n - 1], i, f);
      assert food'[..n - 1] == food[..n - 1][i := f];
    }
  }

  /** Empty and unknown food slots leave the baseline untouched. */
  lemma {:induction false} NoKnownFoodIsBaseline(c: Catalogs, food: seq<Option<string>>)
    requires forall i :: 0 <= i < |food| ==> food[i].None? || food[i].value !in c.foods
    ensures PlayerHealth(c, food) == BaseHealth && PlayerStamina(c, food) == BaseStamina
  {
    if food != [] {
      NoKnownFoodIsBaseline(c, food[..|food| - 1]);
    }
  }
}
