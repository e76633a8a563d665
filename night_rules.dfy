/**
 How the night is settled when the witch acts (src/main.cpp, onWsEvent,
 the witch actions).

 The wolves' victim dies unless exactly one of the guard and the witch's
 heal protects it: guarded and healed together still die. Without a heal,
 a wolf target of "" (no kill) or the guarded device survives. A poisoned
 device always dies. The deaths are listed wolf victim first, without
 removing repeats.
 */
module NightRules {
  import opened StringOrder

  /** The wolves' target is among the dead. */
  predicate WolfKills(healed: bool, wolfTarget: Id, guarded: Id)
  {
    if healed then wolfTarget == guarded else wolfTarget != "" && wolfTarget != guarded
  }

  /** The newly dead of the night, in the order they are recorded. */
  function NightDeaths(healed: bool, wolfTarget: Id, guarded: Id, poison: Id): (r: seq<Id>)
    ensures |r| <= 2
  {
    (if WolfKills(healed, wolfTarget, guarded) then [wolfTarget] else [])
    + (if poison != "" then [poison] else [])
  }

  /** Only the wolves' target and the poisoned device can die at night. */
  lemma OnlyTargetsDie(healed: bool, wolfTarget: Id, guarded: Id, poison: Id, x: Id)
    requires x in NightDeaths(healed, wolfTarget, guarded, poison)
    ensures x == wolfTarget || x == poison
  {
  }

  /** Guarded and healed at once: the target dies anyway. */
  lemma GuardedAndHealedDies(wolfTarget: Id, poison: Id)
    ensures wolfTarget in NightDeaths(true, wolfTarget, wolfTarget, poison)
  {
  }

  /** A heal saves a target the guard did not protect. */
  lemma HealSavesUnguarded(wolfTarget: Id, guarded: Id, poison: Id)
    requires wolfTarget != guarded && poison != wolfTarget
    ensures wolfTarget !in NightDeaths(true, wolfTarget, guarded, poison)
  {
  }

  /** The guard alone saves its charge. */
  lemma GuardSavesWithoutHeal(wolfTarget: Id, poison: Id)
    requires poison != wolfTarget
    ensures wolfTarget !in NightDeaths(false, wolfTarget, wolfTarget, poison)
  {
  }

  /** Poison kills regardless of guard and heal, and is listed last. */
  lemma PoisonAlwaysKills(healed: bool, wolfTarget: Id, guarded: Id, poison: Id)
    requires poison != ""
    ensures var d := NightDeaths(healed, wolfTarget, guarded, poison); d != [] && d[|d| - 1] == poison
  {
  }

  /** A target both bitten and poisoned is recorded twice. */
  lemma DeathsNotDeduplicated(x: Id)
    requires x != ""
    ensures NightDeaths(false, x, "", x) == [x, x]
  {
  }

  /** A night without deaths: no poison, and the bite was stopped or never made. */
  lemma QuietNight(healed: bool, wolfTarget: Id, guarded: Id, poison: Id)
    ensures (NightDeaths(healed, wolfTarget, guarded, poison) == [])
            == (poison == "" && !WolfKills(healed, wolfTarget, guarded))
  {
  }
}
