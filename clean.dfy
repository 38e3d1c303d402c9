/** The clean command: cleanliness +40, always applied. */
module CleanCommand {
  import opened Utils
  import opened Pets
  import opened Outcomes
  import opened Persistence

  /** Cleanliness at or above this level before cleaning selects the
      "already spotless" message. */
  const SpotlessThreshold := 95

  function Cleaned(p: Pet): Pet {
    p.(cleanliness := Min(p.cleanliness + 40, StatCap))
  }

  datatype CleanReport = CleanReport(alreadySpotless: bool, cleanlinessChange: int)

  /** The record `clean_pet` leaves behind when run on `rec` at hour `now`. */
  function AfterClean(rec: Record, now: int): Record {
    var l := LoadView(rec, now);
    if l.Err? || IsPlaceholder(l.value) then AfterLoad(rec, now)
    else Present(Stamped(Cleaned(l.value), now))
  }

  /** `clean_pet`. */
  method CleanPet(store: Store, now: int) returns (o: Outcome<CleanReport>)
    requires store.Valid()
    modifies store
    ensures store.Valid()
    ensures store.stored == AfterClean(old(store.stored), now)
    ensures var l := LoadView(old(store.stored), now);
      if l.Err? || IsPlaceholder(l.value) then
        o == NoPetAdopted && store.stored == AfterLoad(old(store.stored), now)
      else
        var cleaned := Cleaned(l.value);
        && o == Applied(l.value.name, CleanReport(l.value.cleanliness >= SpotlessThreshold,
                                                  cleaned.cleanliness - l.value.cleanliness))
        && store.stored == Present(Stamped(cleaned, now))
  {
    var loaded := store.Load(now);
    if loaded.Err? {
      return NoPetAdopted;
    }
    var pet := loaded.value;
    if IsPlaceholder(pet) {
      return NoPetAdopted;
    }
    var oldCleanliness := pet.cleanliness;
    var alreadySpotless := pet.cleanliness >= SpotlessThreshold;
    pet := pet.(cleanliness := CapStat(pet.cleanliness + 40, 0, 100));
    var cleanlinessChange := pet.cleanliness - oldCleanliness;
    store.Save(pet, now);
    return Applied(pet.name, CleanReport(alreadySpotless, cleanlinessChange));
  }

  /** Cleaning keeps the record invariant, changes only cleanliness, gains
      0..40, and leaves a spotless pet at 100. */
  lemma CleanedProperties(p: Pet)
    requires ValidPet(p)
    ensures ValidPet(Cleaned(p))
    ensures Cleaned(p).(cleanliness := p.cleanliness) == p
    ensures 0 <= Cleaned(p).cleanliness - p.cleanliness <= 40
    ensures p.cleanliness == 100 ==> Cleaned(p).cleanliness == 100
  {
  }
}
