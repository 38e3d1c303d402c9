/** The train command: 15 energy for 20 experience, with level-ups. */
module TrainCommand {
  import opened Utils
  import opened Pets
  import opened Outcomes
  import opened Persistence

  /** Energy below this level refuses training. */
  const TiredThreshold := 10

  /** Experience needed for one level. */
  const XpPerLevel := 100

  /** The experience part of training, in closed form: 20 experience are
      added, every whole 100 becomes one level and 5 happiness (capped). */
  function Experienced(p: Pet): Pet
    requires p.xp + 20 < 256
  {
    var total := p.xp + 20;
    p.(xp := total % XpPerLevel,
       level := p.level + total / XpPerLevel,
       happiness := if total < XpPerLevel then p.happiness
                    else Min(p.happiness + 5 * (total / XpPerLevel), StatCap))
  }

  /** The pet after training: the energy cost, then the experience. */
  function Trained(p: Pet): Pet
    requires p.xp + 20 < 256
  {
    Experienced(p.(energy := Max(p.energy - 15, 0)))
  }

  /** `pet.xp += 20` and the level-up loop. The add is an unchecked `u8`
      add, hence the precondition. */
  method GainExperience(pet: Pet) returns (gained: Pet, leveledUp: bool)
    requires pet.xp + 20 < 256
    ensures gained == Experienced(pet)
    ensures leveledUp <==> gained.level > pet.level
  {
    gained := pet.(xp := pet.xp + 20);
    leveledUp := false;
    while gained.xp >= XpPerLevel
      invariant gained.level >= pet.level
      invariant gained.xp == pet.xp + 20 - XpPerLevel * (gained.level - pet.level)
      invariant gained.happiness == if gained.level == pet.level then pet.happiness
                                    else Min(pet.happiness + 5 * (gained.level - pet.level), StatCap)
      invariant gained == pet.(xp := gained.xp, level := gained.level, happiness := gained.happiness)
      invariant leveledUp <==> gained.level > pet.level
      decreases gained.xp
    {
      gained := gained.(xp := gained.xp - XpPerLevel);
      gained := gained.(level := gained.level + 1);
      gained := gained.(happiness := CapStat(gained.happiness + 5, 0, 100));
      leveledUp := true;
    }
  }

  datatype TrainReport = TrainReport(leveledUp: bool, level: nat)

  /** The record `train_pet` leaves behind when run on `rec` at hour `now`. */
  function AfterTrain(rec: Record, now: int): Record
    requires rec.Present? ==> ValidPet(rec.pet)
  {
    var l := LoadView(rec, now);
    LoadViewValid(rec, now);
    if l.Err? || IsPlaceholder(l.value) || l.value.energy < TiredThreshold then AfterLoad(rec, now)
    else Present(Stamped(Trained(l.value), now))
  }

  /** `train_pet`. Unlike the other stat handlers it propagates a load
      error instead of answering "adopt first". */
  method TrainPet(store: Store, now: int) returns (r: Result<Outcome<TrainReport>>)
    requires store.Valid()
    modifies store
    ensures store.Valid()
    ensures store.stored == AfterTrain(old(store.stored), now)
    ensures var l := LoadView(old(store.stored), now);
      if l.Err? then
        r == Err(l.error) && store.stored == AfterLoad(old(store.stored), now)
      else if IsPlaceholder(l.value) then
        r == Ok(NoPetAdopted) && store.stored == AfterLoad(old(store.stored), now)
      else if l.value.energy < TiredThreshold then
        r == Ok(Declined(l.value.name)) && store.stored == AfterLoad(old(store.stored), now)
      else
        var trained := Trained(l.value);
        && r == Ok(Applied(l.value.name, TrainReport(trained.level > l.value.level, trained.level)))
        && store.stored == Present(Stamped(trained, now))
  {
    var loaded := store.Load(now);
    if loaded.Err? {
      return Err(loaded.error);
    }
    var pet := loaded.value;
    if IsPlaceholder(pet) {
      return Ok(NoPetAdopted);
    }
    if pet.energy < TiredThreshold {
      return Ok(Declined(pet.name));
    }
    pet := pet.(energy := CapStat(pet.energy - 15, 0, 100));
    var leveledUp;
    pet, leveledUp := GainExperience(pet);
    TrainedValid(loaded.value);
    store.Save(pet, now);
    return Ok(Applied(pet.name, TrainReport(leveledUp, pet.level)));
  }

  /** Training keeps the record invariant, leaves experience below 100,
      never lowers the level, and raises it by at most one from a valid
      pet. Hunger, cleanliness, potty level, name and species are kept. */
  lemma TrainedValid(p: Pet)
    requires ValidPet(p)
    ensures ValidPet(Trained(p))
    ensures Trained(p).xp < XpPerLevel
    ensures p.level <= Trained(p).level <= p.level + 1
    ensures var t := Trained(p);
      && t.hunger == p.hunger && t.cleanliness == p.cleanliness && t.pottyLevel == p.pottyLevel
      && t.name == p.name && t.species == p.species
  {
  }

  /** Without a level-up happiness is unchanged; with one it gains 5. */
  lemma TrainedHappiness(p: Pet)
    requires p.xp + 20 < 256
    ensures Trained(p).level == p.level ==> Trained(p).happiness == p.happiness
    ensures Trained(p).level == p.level + 1 ==> Trained(p).happiness == Min(p.happiness + 5, StatCap)
  {
  }

  /** The training tests: 40 xp gives 60; 90 gives 10 and a level; 95 gives
      15 and a level; energy 10 drops to 0. */
  lemma TrainedExamples(p: Pet)
    ensures p.xp == 40 ==> Trained(p).xp == 60 && Trained(p).level == p.level
    ensures p.xp == 90 ==> Trained(p).xp == 10 && Trained(p).level == p.level + 1
    ensures p.xp == 95 ==> Trained(p).xp == 15 && Trained(p).level == p.level + 1
    ensures p.xp < 100 && p.energy == 10 ==> Trained(p).energy == 0
  {
  }
}
