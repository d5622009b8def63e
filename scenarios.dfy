/** Worked battles on entries of the sample catalog: stats derived from an
    equipment choice, and whole fights run to their outcome (with every
    random value at 0.5 where the outcome depends on them). */
module Scenarios {
  import opened Wrappers
  import opened Catalog
  import opened Stats
  import opened Combat
  import opened Roster
  import opened Battle

  /** A few entries of the sample catalog. */
  const Sample := Catalogs(
    map["Boar" := MobStats(10, 10), "Boar *" := MobStats(20, 15)],
    ArmorCatalog(map["Leather Helmet 1" := 2], map["Leather Tunic 1" := 2], map["Rag Pants 1" := 1],
                 map["Cape of Odin (DLC) 1" := 1], map["Wood Shield (Round) 1" := 6]),
    map["Bronze Sword 1" := 35, "Iron Sword 1" := 55],
    map["Wood Arrow" := 22, "Needle Arrow" := 62],
    map["Black soup" := FoodStats(50, 17)])

  /** An Iron Sword at the default 50% skill hits for round(27.5) = 28. */
  lemma IronSwordAtHalfSkill()
    ensures DamageOf(Sample, map[Weapon := "Iron Sword 1"], 0.5) == 28
  {
    assert RawDamage(Sample, map[Weapon := "Iron Sword 1"]) == 55;
  }

  /** Full leather-and-shield armor: 2 + 2 + 1 + 1 + 6. */
  lemma FullArmor()
    ensures ArmorOf(Sample, map[Helmet := "Leather Helmet 1", Chest := "Leather Tunic 1", Leg := "Rag Pants 1",
                                Cape := "Cape of Odin (DLC) 1", Shield := "Wood Shield (Round) 1"]) == 12
  {
    ArmorOfFiveSlots(Sample, map[Helmet := "Leather Helmet 1", Chest := "Leather Tunic 1", Leg := "Rag Pants 1",
                                 Cape := "Cape of Odin (DLC) 1", Shield := "Wood Shield (Round) 1"]);
  }

  /** One Black soup and two empty slots: 25 + 50 health, 50 + 17 stamina. */
  lemma BlackSoup()
    ensures PlayerHealth(Sample, [Some("Black soup"), None, None]) == 75
    ensures PlayerStamina(Sample, [Some("Black soup"), None, None]) == 67
  {
    var food := [Some("Black soup"), None, None];
    var one, two := [Some("Black soup")], [Some("Black soup"), None];
    assert food[..2] == two && two[..1] == one && one[..0] == [];
    assert FoodHealth(Sample, one) == 50 && FoodStamina(Sample, one) == 17;
    assert FoodHealth(Sample, two) == 50 && FoodStamina(Sample, two) == 17;
  }

  const Boar := MobInstance(1, "Boar", Sample.mobs["Boar"].health, Sample.mobs["Boar"].damage, Sample.mobs["Boar"].health)

  const BoarStar := MobInstance(2, "Boar *", Sample.mobs["Boar *"].health, Sample.mobs["Boar *"].damage, Sample.mobs["Boar *"].health)

  /** An Iron Sword at full skill hits for 55 and kills a two-star Boar
      with its first blow: victory in round 1 at full health, whatever the
      random values. */
  lemma IronSwordOneShotsBoarStar(rand: nat -> real)
    ensures DamageOf(Sample, map[Weapon := "Iron Sword 1"], 1.0) == 55
    ensures Simulate(25, 0, 55, [BoarStar], 0.0, rand) == Run(Some(Victory(25, 25, 0, 100)), 1, 25, [])
  {
    assert RawDamage(Sample, map[Weapon := "Iron Sword 1"]) == 55;
    OneBlowVictory(25, 0, 55, [BoarStar], 0.0, rand);
  }

  /** Unarmed, each blow chips 1 off the Boar while it hits back for 10: the
      player falls in round 3 with the Boar at 7. */
  lemma UnarmedLosesToBoar()
    ensures Simulate(25, 0, 0, [Boar], 0.0, k => 0.5) == Run(Some(Defeat(0, 25, 7, 1)), 3, -5, [Boar.(health := 7)])
  {
    var rand: nat -> real := k => 0.5;
    var m := Multiplier(0.0);
    assert HitCount(m, 0.5) == 1;
    assert CalculateDamage(0, 0) == 1 && CalculateDamage(10, 0) == 10;
    var s1 := PlayerVolley([Boar], 0, m, rand, 0);
    assert s1 == [Boar.(health := 9)];
    assert Survivors(s1) == s1;
    assert EnemyVolley(25, s1, 0, m, rand, 1) == 15;
    var s2 := PlayerVolley(s1, 0, m, rand, 2);
    assert s2 == [Boar.(health := 8)];
    assert Survivors(s2) == s2;
    assert EnemyVolley(15, s2, 0, m, rand, 3) == 5;
    var s3 := PlayerVolley(s2, 0, m, rand, 4);
    assert s3 == [Boar.(health := 7)];
    assert Survivors(s3) == s3;
    assert EnemyVolley(5, s3, 0, m, rand, 5) == -5;
    assert TotalHealth(s3) == 7;
    assert Fight(5, 25, s2, 3, 0, 0, m, m, rand, 4) == Run(Some(Defeat(0, 25, 7, 1)), 3, -5, [Boar.(health := 7)]);
    assert Fight(15, 25, s1, 2, 0, 0, m, m, rand, 2) == Run(Some(Defeat(0, 25, 7, 1)), 3, -5, [Boar.(health := 7)]);
  }
}
