/** The walk command: an accident check, an energy gain and a chance of
    potty relief. */
module WalkCommand {
  import opened Utils
  import opened Pets
  import opened Outcomes
  import opened Persistence

  /** A potty level above this causes an accident. */
  const AccidentThreshold := 80

  /** The pet after a walk. The accident is judged on the pre-walk potty
      level; `relieved` is the outcome of the 80% coin, applied whether or
      not there was an accident. */
  function Walked(p: Pet, relieved: bool): Pet {
    var accident := p.pottyLevel > AccidentThreshold;
    p.(cleanliness := if accident then Max(p.cleanliness - 30, 0) else p.cleanliness,
       happiness := if accident then Max(p.happiness - 15, 0) else p.happiness,
       energy := Min(p.energy + 15, StatCap),
       pottyLevel := if relieved then Max(p.pottyLevel - 50, 0) else p.pottyLevel)
  }

  /** Which reaction message is printed. */
  datatype WalkMessage = HadAccident | FeltRelieved | Refreshed

  function WalkMessageFor(accident: bool, relieved: bool): WalkMessage {
    if accident then HadAccident else if relieved then FeltRelieved else Refreshed
  }

  /** The stat changes listed in the message for a walk from `before` to
      `after`: energy always; potty when relieved; after an accident the
      cleanliness and happiness changes that are not zero. */
  function WalkChanges(before: Pet, after: Pet, accident: bool, relieved: bool): seq<Change> {
    var energy := [Change(Energy, after.energy - before.energy)];
    var potty := if relieved then [Change(Potty, after.pottyLevel - before.pottyLevel)] else [];
    if accident then
      var dc := after.cleanliness - before.cleanliness;
      var dh := after.happiness - before.happiness;
      energy + potty
      + (if dc != 0 then [Change(Cleanliness, dc)] else [])
      + (if dh != 0 then [Change(Happiness, dh)] else [])
    else energy + potty
  }

  datatype WalkReport = WalkReport(message: WalkMessage, changes: seq<Change>)

  /** The record `walk_pet` leaves behind when run on `rec` at hour `now`
      with the draw `coin`. */
  function AfterWalk(rec: Record, now: int, coin: bool): Record {
    var l := LoadView(rec, now);
    if l.Err? || IsPlaceholder(l.value) then AfterLoad(rec, now)
    else Present(Stamped(Walked(l.value, coin), now))
  }

  /** `walk_pet`, with the random draw passed in as `coin`. */
  method WalkPet(store: Store, now: int, coin: bool) returns (o: Outcome<WalkReport>)
    requires store.Valid()
    modifies store
    ensures store.Valid()
    ensures store.stored == AfterWalk(old(store.stored), now, coin)
    ensures var l := LoadView(old(store.stored), now);
      if l.Err? || IsPlaceholder(l.value) then
        o == NoPetAdopted && store.stored == AfterLoad(old(store.stored), now)
      else
        var walked := Walked(l.value, coin);
        var accident := l.value.pottyLevel > AccidentThreshold;
        && o == Applied(l.value.name, WalkReport(WalkMessageFor(accident, coin),
                                                 WalkChanges(l.value, walked, accident, coin)))
        && store.stored == Present(Stamped(walked, now))
  {
    var loaded := store.Load(now);
    if loaded.Err? {
      return NoPetAdopted;
    }
    var pet := loaded.value;
    if IsPlaceholder(pet) {
      return NoPetAdopted;
    }
    var hadAccident := false;
    var pottyRelieved := false;
    var oldEnergy, oldPotty, oldCleanliness, oldHappiness :=
      pet.energy, pet.pottyLevel, pet.cleanliness, pet.happiness;
    if pet.pottyLevel > AccidentThreshold {
      hadAccident := true;
      pet := pet.(cleanliness := CapStat(pet.cleanliness - 30, 0, 100));
      pet := pet.(happiness := CapStat(pet.happiness - 15, 0, 100));
    }
    pet := pet.(energy := CapStat(pet.energy + 15, 0, 100));
    if coin {
      pottyRelieved := true;
      pet := pet.(pottyLevel := CapStat(pet.pottyLevel - 50, 0, 100));
    }
    var energyChange := pet.energy - oldEnergy;
    var pottyChange := pet.pottyLevel - oldPotty;
    var cleanlinessChange := pet.cleanliness - oldCleanliness;
    var happinessChange := pet.happiness - oldHappiness;
    store.Save(pet, now);
    var message;
    var changes: seq<Change>;
    if hadAccident {
      message := HadAccident;
      changes := [Change(Energy, energyChange)];
      if pottyRelieved {
        changes := changes + [Change(Potty, pottyChange)];
      }
      if cleanlinessChange != 0 {
        changes := changes + [Change(Cleanliness, cleanlinessChange)];
      }
      if happinessChange != 0 {
        changes := changes + [Change(Happiness, happinessChange)];
      }
    } else if pottyRelieved {
      message := FeltRelieved;
      changes := [Change(Energy, energyChange), Change(Potty, pottyChange)];
    } else {
      message := Refreshed;
      changes := [Change(Energy, energyChange)];
    }
    assert pet == Walked(loaded.value, coin);
    assert message == WalkMessageFor(hadAccident, coin);
    assert changes == WalkChanges(loaded.value, pet, hadAccident, coin);
    return Applied(pet.name, WalkReport(message, changes));
  }

  /** Walking keeps the record invariant; hunger, xp, level, name and
      species are kept; energy gains up to 15 whatever happens. */
  lemma WalkedProperties(p: Pet, relieved: bool)
    requires ValidPet(p)
    ensures var w := Walked(p, relieved);
      && ValidPet(w)
      && w.hunger == p.hunger && w.xp == p.xp && w.level == p.level
      && w.name == p.name && w.species == p.species
      && w.energy == Min(p.energy + 15, StatCap)
  {
  }

  /** An accident happens exactly above 80: it costs 30 cleanliness and 15
      happiness (floored at 0), and without it both are kept. */
  lemma WalkAccident(p: Pet, relieved: bool)
    ensures var w := Walked(p, relieved);
      if p.pottyLevel > 80 then
        w.cleanliness == Max(p.cleanliness - 30, 0) && w.happiness == Max(p.happiness - 15, 0)
      else
        w.cleanliness == p.cleanliness && w.happiness == p.happiness
  {
  }

  /** Relief takes 50 potty (floored at 0) whether or not there was an
      accident, and the coin changes nothing else. */
  lemma WalkReliefIndependent(p: Pet)
    ensures Walked(p, true).pottyLevel == Max(p.pottyLevel - 50, 0)
    ensures Walked(p, false).pottyLevel == p.pottyLevel
    ensures Walked(p, true).(pottyLevel := p.pottyLevel) == Walked(p, false)
  {
  }

  /** The accident message takes precedence, then relief; energy is always
      the first change listed. */
  lemma WalkMessageOrder(before: Pet, after: Pet, accident: bool, relieved: bool)
    ensures accident ==> WalkMessageFor(accident, relieved) == HadAccident
    ensures WalkMessageFor(accident, relieved) == FeltRelieved <==> !accident && relieved
    ensures WalkMessageFor(accident, relieved) == Refreshed <==> !accident && !relieved
    ensures var c := WalkChanges(before, after, accident, relieved);
      |c| >= 1 && c[0].stat == Energy
  {
  }
}
