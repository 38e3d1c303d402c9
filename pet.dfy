/** The pet record, its constructor and the "no pet adopted" placeholder. */
module Pets {
  import opened Utils

  /** The persisted pet. Time is counted in whole hours; `lastUpdated` is
      the hour of the last save or decay. */
  datatype Pet = Pet(
    name: string,
    species: string,
    hunger: Byte,
    happiness: Byte,
    energy: Byte,
    xp: Byte,
    level: nat,
    cleanliness: Byte,
    pottyLevel: Byte,
    lastUpdated: int)

  /** The largest value a bounded stat may hold. */
  const StatCap := 100

  /** The name that marks the placeholder record. */
  const PlaceholderName := "Pet"

  /** The record invariant every write path keeps: each bounded stat in
      [0, 100], experience below one level's worth, level at least 1. */
  predicate ValidPet(p: Pet) {
    && p.hunger <= StatCap && p.happiness <= StatCap && p.energy <= StatCap
    && p.cleanliness <= StatCap && p.pottyLevel <= StatCap
    && p.xp < 100 && p.level >= 1
  }

  /** The handlers' test for "no pet adopted": the name alone decides. */
  predicate IsPlaceholder(p: Pet) {
    p.name == PlaceholderName
  }

  /** `Pet::new`: a freshly adopted pet with the fixed starting stats. */
  function NewPet(name: string, species: string, now: int): (p: Pet)
    ensures p.name == name && p.species == species && p.lastUpdated == now
    ensures ValidPet(p)
  {
    Pet(name, species, 80, 80, 80, 0, 1, 80, 0, now)
  }

  /** `Pet::default`: the placeholder, built as a new pet named "Pet". */
  function DefaultPet(now: int): (p: Pet)
    ensures IsPlaceholder(p) && p.species == "unknown" && ValidPet(p)
  {
    NewPet(PlaceholderName, "unknown", now)
  }

  /** The starting stats of a new pet. */
  lemma NewPetStats(name: string, species: string, now: int)
    ensures var p := NewPet(name, species, now);
      && p.hunger == 80 && p.happiness == 80 && p.energy == 80 && p.cleanliness == 80
      && p.pottyLevel == 0 && p.xp == 0 && p.level == 1
  {
  }

  /** The placeholder carries the same stats as any new pet. */
  lemma DefaultIsNewPet(now: int)
    ensures DefaultPet(now) == NewPet("Pet", "unknown", now)
  {
  }

  /** A pet adopted under the name "Pet" is indistinguishable from the
      placeholder by the handlers' name check. */
  lemma AdoptedPetNamedPetIsPlaceholder(species: string, now: int)
    ensures IsPlaceholder(NewPet("Pet", species, now))
  {
  }
}
