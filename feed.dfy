/** The feed command: hunger +20 and happiness +10 unless the pet is
    already full. */
module FeedCommand {
  import opened Utils
  import opened Pets
  import opened Outcomes
  import opened Persistence

  /** Hunger at or above this level refuses food. */
  const FullThreshold := 95

  /** The pet after a meal: hunger +20 and happiness +10, each capped. */
  function Fed(p: Pet): Pet {
    p.(hunger := Min(p.hunger + 20, StatCap), happiness := Min(p.happiness + 10, StatCap))
  }

  /** The changes the reaction message reports, as new minus old. */
  datatype FeedReport = FeedReport(hungerChange: int, happinessChange: int)

  /** The record `feed_pet` leaves behind when run on `rec` at hour `now`. */
  function AfterFeed(rec: Record, now: int): Record {
    var l := LoadView(rec, now);
    if l.Err? || IsPlaceholder(l.value) || l.value.hunger >= FullThreshold then AfterLoad(rec, now)
    else Present(Stamped(Fed(l.value), now))
  }

  /** `feed_pet`. */
  method FeedPet(store: Store, now: int) returns (o: Outcome<FeedReport>)
    requires store.Valid()
    modifies store
    ensures store.Valid()
    ensures store.stored == AfterFeed(old(store.stored), now)
    ensures var l := LoadView(old(store.stored), now);
      if l.Err? || IsPlaceholder(l.value) then
        o == NoPetAdopted && store.stored == AfterLoad(old(store.stored), now)
      else if l.value.hunger >= FullThreshold then
        o == Declined(l.value.name) && store.stored == AfterLoad(old(store.stored), now)
      else
        var fed := Fed(l.value);
        && o == Applied(l.value.name, FeedReport(fed.hunger - l.value.hunger, fed.happiness - l.value.happiness))
        && store.stored == Present(Stamped(fed, now))
  {
    var loaded := store.Load(now);
    if loaded.Err? {
      return NoPetAdopted;
    }
    var pet := loaded.value;
    if IsPlaceholder(pet) {
      return NoPetAdopted;
    }
    if pet.hunger >= FullThreshold {
      return Declined(pet.name);
    }
    var oldHunger, oldHappiness := pet.hunger, pet.happiness;
    pet := pet.(hunger := CapStat(pet.hunger + 20, 0, 100));
    pet := pet.(happiness := CapStat(pet.happiness + 10, 0, 100));
    var hungerChange := pet.hunger - oldHunger;
    var happinessChange := pet.happiness - oldHappiness;
    store.Save(pet, now);
    return Applied(pet.name, FeedReport(hungerChange, happinessChange));
  }

  /** Feeding keeps the record invariant, changes only hunger and
      happiness, and reports gains of 0..20 and 0..10. */
  lemma FedProperties(p: Pet)
    requires ValidPet(p)
    ensures ValidPet(Fed(p))
    ensures Fed(p).(hunger := p.hunger, happiness := p.happiness) == p
    ensures 0 <= Fed(p).hunger - p.hunger <= 20
    ensures 0 <= Fed(p).happiness - p.happiness <= 10
  {
  }

  /** The feed test: 60/70 becomes 80/80. */
  lemma FedExample(p: Pet)
    requires p.hunger == 60 && p.happiness == 70
    ensures Fed(p).hunger == 80 && Fed(p).happiness == 80
  {
  }
}
