/** Enemy instances on the battlefield: adding a snapshot of a catalog mob
    and removing every instance with a given id. */
module Roster {
  import opened Catalog

  /** One enemy on the battlefield. `health` and `damage` are copied from
      the catalog when the instance is created; `maxHealth` keeps the
      starting health for display. */
  datatype MobInstance = MobInstance(id: int, name: string, health: int, damage: int, maxHealth: int)

  /** The battlefield after `addMobToBattlefield(name)` with the fresh id
      `id`: unchanged for an empty name, otherwise one snapshot appended. */
  function AddMob(battlefield: seq<MobInstance>, mobs: map<string, MobStats>, name: string, id: int): (r: seq<MobInstance>)
    requires name != "" ==> name in mobs
    ensures name == "" ==> r == battlefield
    ensures name != "" ==> |r| == |battlefield| + 1 && r[..|battlefield|] == battlefield
    ensures name != "" ==> var m := r[|battlefield|];
              m.id == id && m.name == name && m.health == m.maxHealth == mobs[name].health
              && m.damage == mobs[name].damage
  {
    if name == "" then battlefield
    else
      battlefield + [MobInstance(id, name, mobs[name].health, mobs[name].damage, mobs[name].health)]
  }

  /** `battlefield.filter(mob => mob.id !== id)`. */
  function RemoveMob(battlefield: seq<MobInstance>, id: int): seq<MobInstance> {
    if battlefield == [] then []
    else if battlefield[0].id != id then [battlefield[0]] + RemoveMob(battlefield[1..], id)
    else RemoveMob(battlefield[1..], id)
  }

  /** Removing an id keeps every other instance as often as it occurred
      and drops every instance with that id. */
  lemma {:induction false} RemoveMobKeepsExactlyTheOthers(battlefield: seq<MobInstance>, id: int)
    ensures forall m :: multiset(RemoveMob(battlefield, id))[m] == if m.id == id then 0 else multiset(battlefield)[m]
  {
    if battlefield != [] {
      RemoveMobKeepsExactlyTheOthers(battlefield[1..], id);
      assert battlefield == [battlefield[0]] + battlefield[1..];
    }
  }

  /** Removal works piece by piece and keeps the order of what remains:
      the result for `a + b` is the result for `a` followed by that for `b`. */
  lemma {:induction false} RemoveMobKeepsOrder(a: seq<MobInstance>, b: seq<MobInstance>, id: int)
    ensures RemoveMob(a + b, id) == RemoveMob(a, id) + RemoveMob(b, id)
  {
    if a != [] {
      RemoveMobKeepsOrder(a[1..], b, id);
      assert (a + b)[1..] == a[1..] + b;
    } else {
      assert a + b == b;
    }
  }

  /** Adding a mob under an id no instance has yet, then removing that id,
      gives the battlefield back. */
  lemma {:induction false} AddThenRemove(battlefield: seq<MobInstance>, mobs: map<string, MobStats>, name: string, id: int)
    requires name != "" && name in mobs
    requires forall i :: 0 <= i < |battlefield| ==> battlefield[i].id != id
    ensures RemoveMob(AddMob(battlefield, mobs, name, id), id) == battlefield
  {
    var added := AddMob(battlefield, mobs, name, id);
    if battlefield == [] {
      assert added == [added[0]];
    } else {
      assert added[1..] == AddMob(battlefield[1..], mobs, name, id);
      AddThenRemove(battlefield[1..], mobs, name, id);
      assert battlefield == [battlefield[0]] + battlefield[1..];
    }
  }

  /** Removing an id no instance carries changes nothing. */
  lemma {:induction false} RemoveAbsentId(battlefield: seq<MobInstance>, id: int)
    requires forall i :: 0 <= i < |battlefield| ==> battlefield[i].id != id
    ensures RemoveMob(battlefield, id) == battlefield
  {
    if battlefield != [] {
      RemoveAbsentId(battlefield[1..], id);
      assert battlefield == [battlefield[0]] + battlefield[1..];
    }
  }
}
