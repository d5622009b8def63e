/** Static lookup tables the engine reads: mobs, armor pieces per slot,
    weapons, arrows and foods. Every lookup of an unknown key yields 0. */
module Catalog {

  datatype MobStats = MobStats(health: int, damage: int)

  datatype FoodStats = FoodStats(health: int, stamina: int)

  /** The seven keys of the player's equipment object. */
  datatype Slot = Helmet | Chest | Leg | Cape | Shield | Weapon | Arrow {
    predicate IsArmor() {
      !Weapon? && !Arrow?
    }
  }

  /** The five armor slots, in the order the armor total adds them. */
  const ArmorSlots: seq<Slot> := [Helmet, Chest, Leg, Cape, Shield]

  /** One item-name -> armor-value table per armor slot. */
  datatype ArmorCatalog = ArmorCatalog(
    helmet: map<string, int>,
    chest: map<string, int>,
    leg: map<string, int>,
    cape: map<string, int>,
    shield: map<string, int>)
  {
    function Table(slot: Slot): map<string, int>
      requires slot.IsArmor()
    {
      match slot
      case Helmet => helmet
      case Chest => chest
      case Leg => leg
      case Cape => cape
      case Shield => shield
    }
  }

  datatype Catalogs = Catalogs(
    mobs: map<string, MobStats>,
    armor: ArmorCatalog,
    weapons: map<string, int>,
    arrows: map<string, int>,
    foods: map<string, FoodStats>)

  /** `table[key] || 0`: the permissive lookup the aggregator uses. */
  function Lookup(table: map<string, int>, key: string): int {
    if key in table then table[key] else 0
  }

  /** Every value of the table lies in [0, bound]. */
  ghost predicate BoundedBy(table: map<string, int>, bound: int) {
    forall key :: key in table ==> 0 <= table[key] <= bound
  }

  ghost predicate NonNegativeFoods(foods: map<string, FoodStats>) {
    forall key :: key in foods ==> 0 <= foods[key].health && 0 <= foods[key].stamina
  }

  lemma LookupWithin(table: map<string, int>, key: string, bound: int)
    requires BoundedBy(table, bound) && 0 <= bound
    ensures 0 <= Lookup(table, key) <= bound
  {
  }
}
