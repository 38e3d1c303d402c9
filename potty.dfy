/** The potty command: the potty level is reset, after an accident check. */
module PottyCommand {
  import opened Utils
  import opened Pets
  import opened Outcomes
  import opened Persistence

  /** A potty level above this causes an accident. */
  const AccidentThreshold := 80

  /** The pet after a potty break: an accident costs 30 cleanliness and 15
      happiness; without one the pet gains 5 happiness; the potty level is
      0 either way. */
  function Pottied(p: Pet): Pet {
    var accident := p.pottyLevel > AccidentThreshold;
    p.(cleanliness := if accident then Max(p.cleanliness - 30, 0) else p.cleanliness,
       happiness := if accident then Max(p.happiness - 15, 0) else Min(p.happiness + 5, StatCap),
       pottyLevel := 0)
  }

  /** The stat changes listed in the message: without an accident potty and
      happiness; after one potty, then the cleanliness and happiness changes
      that are not zero. */
  function PottyChanges(before: Pet, after: Pet, accident: bool): seq<Change> {
    var potty := [Change(Potty, after.pottyLevel - before.pottyLevel)];
    var dc := after.cleanliness - before.cleanliness;
    var dh := after.happiness - before.happiness;
    if accident then
      potty + (if dc != 0 then [Change(Cleanliness, dc)] else [])
            + (if dh != 0 then [Change(Happiness, dh)] else [])
    else potty + [Change(Happiness, dh)]
  }

  datatype PottyReport = PottyReport(hadAccident: bool, changes: seq<Change>)

  /** The record `potty_pet` leaves behind when run on `rec` at hour `now`. */
  function AfterPotty(rec: Record, now: int): Record {
    var l := LoadView(rec, now);
    if l.Err? || IsPlaceholder(l.value) then AfterLoad(rec, now)
    else Present(Stamped(Pottied(l.value), now))
  }

  /** `potty_pet`. */
  method PottyPet(store: Store, now: int) returns (o: Outcome<PottyReport>)
    requires store.Valid()
    modifies store
    ensures store.Valid()
    ensures store.stored == AfterPotty(old(store.stored), now)
    ensures var l := LoadView(old(store.stored), now);
      if l.Err? || IsPlaceholder(l.value) then
        o == NoPetAdopted && store.stored == AfterLoad(old(store.stored), now)
      else
        var after := Pottied(l.value);
        var accident := l.value.pottyLevel > AccidentThreshold;
        && o == Applied(l.value.name, PottyReport(accident, PottyChanges(l.value, after, accident)))
        && store.stored == Present(Stamped(after, now))
  {
    var loaded := store.Load(now);
    if loaded.Err? {
      return NoPetAdopted;
    }
    var pet := loaded.value;
    if IsPlaceholder(pet) {
      return NoPetAdopted;
    }
    var hadAccident := false;
    var oldPotty, oldCleanliness, oldHappiness := pet.pottyLevel, pet.cleanliness, pet.happiness;
    if pet.pottyLevel > AccidentThreshold {
      hadAccident := true;
      pet := pet.(cleanliness := CapStat(pet.cleanliness - 30, 0, 100));
      pet := pet.(happiness := CapStat(pet.happiness - 15, 0, 100));
    }
    pet := pet.(pottyLevel := 0);
    if !hadAccident {
      pet := pet.(happiness := CapStat(pet.happiness + 5, 0, 100));
    }
    var pottyChange := pet.pottyLevel - oldPotty;
    var cleanlinessChange := pet.cleanliness - oldCleanliness;
    var happinessChange := pet.happiness - oldHappiness;
    store.Save(pet, now);
    var changes: seq<Change>;
    if hadAccident {
      changes := [Change(Potty, pottyChange)];
      if cleanlinessChange != 0 {
        changes := changes + [Change(Cleanliness, cleanlinessChange)];
      }
      if happinessChange != 0 {
        changes := changes + [Change(Happiness, happinessChange)];
      }
    } else {
      changes := [Change(Potty, pottyChange), Change(Happiness, happinessChange)];
    }
    assert pet == Pottied(loaded.value);
    assert changes == PottyChanges(loaded.value, pet, hadAccident);
    return Applied(pet.name, PottyReport(hadAccident, changes));
  }

  /** A potty break keeps the record invariant, always leaves the potty
      level at 0, and keeps energy, hunger, xp, level, name and species. */
  lemma PottiedProperties(p: Pet)
    requires ValidPet(p)
    ensures var q := Pottied(p);
      && ValidPet(q) && q.pottyLevel == 0
      && q.energy == p.energy && q.hunger == p.hunger && q.xp == p.xp && q.level == p.level
      && q.name == p.name && q.species == p.species
  {
  }

  /** An accident happens exactly above 80 and then brings no +5: 80 gives
      the happiness bonus and 81 the penalty. */
  lemma PottyAccident(p: Pet)
    ensures p.pottyLevel > 80 ==>
      Pottied(p).cleanliness == Max(p.cleanliness - 30, 0) && Pottied(p).happiness == Max(p.happiness - 15, 0)
    ensures p.pottyLevel <= 80 ==>
      Pottied(p).cleanliness == p.cleanliness && Pottied(p).happiness == Min(p.happiness + 5, StatCap)
  {
  }
}
