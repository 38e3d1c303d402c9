/** The play command: happiness +15 for 10 energy, unless the pet is too
    tired. */
module PlayCommand {
  import opened Utils
  import opened Pets
  import opened Outcomes
  import opened Persistence

  /** Energy below this level refuses play. */
  const TiredThreshold := 10

  /** The pet after playing. On this path energy is at least 10, so the
      energy cost is never clamped. */
  function Played(p: Pet): Pet
    requires p.energy >= TiredThreshold
  {
    p.(happiness := Min(p.happiness + 15, StatCap), energy := p.energy - 10)
  }

  datatype PlayReport = PlayReport(happinessChange: int, energyChange: int)

  /** The record `play_pet` leaves behind when run on `rec` at hour `now`. */
  function AfterPlay(rec: Record, now: int): Record {
    var l := LoadView(rec, now);
    if l.Err? || IsPlaceholder(l.value) || l.value.energy < TiredThreshold then AfterLoad(rec, now)
    else Present(Stamped(Played(l.value), now))
  }

  /** `play_pet`. */
  method PlayPet(store: Store, now: int) returns (o: Outcome<PlayReport>)
    requires store.Valid()
    modifies store
    ensures store.Valid()
    ensures store.stored == AfterPlay(old(store.stored), now)
    ensures var l := LoadView(old(store.stored), now);
      if l.Err? || IsPlaceholder(l.value) then
        o == NoPetAdopted && store.stored == AfterLoad(old(store.stored), now)
      else if l.value.energy < TiredThreshold then
        o == Declined(l.value.name) && store.stored == AfterLoad(old(store.stored), now)
      else
        var played := Played(l.value);
        && o == Applied(l.value.name, PlayReport(played.happiness - l.value.happiness, -10))
        && store.stored == Present(Stamped(played, now))
  {
    var loaded := store.Load(now);
    if loaded.Err? {
      return NoPetAdopted;
    }
    var pet := loaded.value;
    if IsPlaceholder(pet) {
      return NoPetAdopted;
    }
    if pet.energy < TiredThreshold {
      return Declined(pet.name);
    }
    var oldHappiness, oldEnergy := pet.happiness, pet.energy;
    pet := pet.(happiness := CapStat(pet.happiness + 15, 0, 100));
    pet := pet.(energy := CapStat(pet.energy - 10, 0, 100));
    var happinessChange := pet.happiness - oldHappiness;
    var energyChange := pet.energy - oldEnergy;
    store.Save(pet, now);
    return Applied(pet.name, PlayReport(happinessChange, energyChange));
  }

  /** Playing keeps the record invariant, changes only happiness and energy,
      gains 0..15 happiness and costs exactly 10 energy. */
  lemma PlayedProperties(p: Pet)
    requires ValidPet(p) && p.energy >= TiredThreshold
    ensures ValidPet(Played(p))
    ensures Played(p).(happiness := p.happiness, energy := p.energy) == p
    ensures 0 <= Played(p).happiness - p.happiness <= 15
    ensures Played(p).energy == p.energy - 10
  {
  }
}
