/** The component's state and the handlers that replace it: the equipment
    object, the three food slots, the skill and shots-landed sliders, the
    battlefield roster and the last battle outcome. Each handler stands for
    one state setter; the re-run of the simulation after every change is an
    explicit call to `SimulateBattle`. */
module Session {
  import opened Wrappers
  import opened Catalog
  import opened Stats
  import opened Roster
  import opened Battle

  class Session {
    const catalogs: Catalogs
    var equipment: Equipment
    var food: seq<Option<string>>
    var skillLevel: real
    var shotsLanded: real
    var battlefield: seq<MobInstance>
    var outcome: Option<Outcome>

    /** The food array always has its three slots. */
    ghost predicate Valid()
      reads this
    {
      |food| == 3
    }

    /** The initial state: nothing equipped, three empty food slots, skill
        at 50%, an even exchange of shots, an empty battlefield and no
        outcome yet. */
    constructor (catalogs: Catalogs)
      ensures Valid()
      ensures this.catalogs == catalogs
      ensures equipment == map[] && food == [None, None, None]
      ensures skillLevel == 0.5 && shotsLanded == 0.0
      ensures battlefield == [] && outcome == None
    {
      this.catalogs := catalogs;
      equipment := map[];
      food := [None, None, None];
      skillLevel := 0.5;
      shotsLanded := 0.0;
      battlefield := [];
      outcome := None;
    }

    /** `handleEquipmentChange(type, value)`: an empty value clears the slot
        (stores `null`), any other value selects it. Only that slot changes,
        and the armor total moves by exactly that slot's difference. */
    method HandleEquipmentChange(slot: Slot, value: string)
      modifies this`equipment
      ensures equipment == if value == "" then old(equipment) - {slot} else old(equipment)[slot := value]
      ensures IsSelected(equipment, slot) <==> value != ""
      ensures forall s :: s != slot ==> (s in equipment <==> s in old(equipment))
                                        && (s in equipment ==> equipment[s] == old(equipment)[s])
      ensures slot.IsArmor() ==>
                ArmorOf(catalogs, equipment) - ArmorOf(catalogs, old(equipment))
                == SlotArmor(catalogs, equipment, slot) - SlotArmor(catalogs, old(equipment), slot)
      ensures !slot.IsArmor() ==> ArmorOf(catalogs, equipment) == ArmorOf(catalogs, old(equipment))
    {
      var before := equipment;
      if value == "" {
        equipment := equipment - {slot};
      } else {
        equipment := equipment[slot := value];
      }
      ArmorSlotChange(catalogs, before, equipment, slot);
    }

    /** `handleFoodChange(index, value)`: an empty value empties the slot.
        Only that slot changes, and health and stamina move by exactly the
        difference between the new and the old food's bonuses. */
    method HandleFoodChange(index: nat, value: string)
      requires Valid() && index < |food|
      modifies this`food
      ensures Valid()
      ensures food == old(food)[index := if value == "" then None else Some(value)]
      ensures PlayerHealth(catalogs, food)
              == PlayerHealth(catalogs, old(food)) - FoodBonus(catalogs, old(food)[index]).health
                 + FoodBonus(catalogs, food[index]).health
      ensures PlayerStamina(catalogs, food)
              == PlayerStamina(catalogs, old(food)) - FoodBonus(catalogs, old(food)[index]).stamina
                 + FoodBonus(catalogs, food[index]).stamina
    {
      var chosen := if value == "" then None else Some(value);
      FoodSlotChange(catalogs, food, index, chosen);
      food := food[index := chosen];
    }

    /** `addMobToBattlefield(name)` with `id` standing for the timestamp. */
    method AddMobToBattlefield(name: string, id: int)
      requires name != "" ==> name in catalogs.mobs
      modifies this`battlefield
      ensures battlefield == AddMob(old(battlefield), catalogs.mobs, name, id)
    {
      if name == "" {
        return;
      }
      var stats := catalogs.mobs[name];
      var mobInstance := MobInstance(id, name, stats.health, stats.damage, stats.health);
      battlefield := battlefield + [mobInstance];
    }

    /** `removeMobFromBattlefield(id)`. */
    method RemoveMobFromBattlefield(id: int)
      modifies this`battlefield
      ensures battlefield == RemoveMob(old(battlefield), id)
    {
      battlefield := RemoveMob(battlefield, id);
    }

    /** `simulateBattle()`: derives the player's stats, resolves the battle
        on a working copy of the roster and records the outcome when the
        resolver reports one. The roster itself is left as it was. */
    method SimulateBattle(rand: nat -> real)
      modifies this`outcome
      ensures battlefield == old(battlefield)
      ensures var r := Simulate(PlayerHealth(catalogs, food), ArmorOf(catalogs, equipment),
                                DamageOf(catalogs, equipment, skillLevel), battlefield, shotsLanded, rand);
              outcome == if r.outcome.Some? then r.outcome else old(outcome)
    {
      var playerInitialHealth := PlayerHealth(catalogs, food);
      var playerArmor := PlayerArmor(catalogs, equipment);
      var playerDamage := PlayerDamage(catalogs, equipment, skillLevel);
      var reported, _, _, _ := Resolve(playerInitialHealth, playerArmor, playerDamage, battlefield, shotsLanded, rand);
      if reported.Some? {
        outcome := reported;
      }
    }
  }
}
