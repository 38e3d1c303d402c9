/** The store that holds the pet, and the time decay applied when the pet
    is loaded. */
module Persistence {
  import opened Utils
  import opened Pets
  import opened Outcomes

  /** Hours in one decay interval. */
  const IntervalHours := 8

  /** Whole decay intervals between `last` and `now`. The elapsed hours are
      divided with truncation toward zero, as Rust's `/` on `i64` does, so a
      stamp in the future gives no positive interval either. */
  function Intervals(last: int, now: int): int {
    var elapsed := now - last;
    if elapsed >= 0 then elapsed / IntervalHours else -((-elapsed) / IntervalHours)
  }

  /** Decay runs exactly when at least 8 hours have passed. */
  lemma IntervalsPositive(last: int, now: int)
    ensures Intervals(last, now) > 0 <==> now - last >= IntervalHours
  {
  }

  /** The pet after decay, stated in closed form: for k whole intervals
      hunger loses 3k, happiness and cleanliness lose 2k (none below 0),
      the potty level gains 2k (not above 100), and the stamp moves to
      `now`. With no whole interval the pet is unchanged. */
  function Decayed(p: Pet, now: int): Pet {
    var k := Intervals(p.lastUpdated, now);
    if k <= 0 then p
    else p.(hunger := Max(p.hunger - 3 * k, 0),
            happiness := Max(p.happiness - 2 * k, 0),
            cleanliness := Max(p.cleanliness - 2 * k, 0),
            pottyLevel := Min(p.pottyLevel + 2 * k, StatCap),
            lastUpdated := now)
  }

  /** `apply_decay`: one saturating step per whole interval, then the stamp.
      The potty add is an unchecked `u8` add in the source, so it must not
      pass 255; from a level of at most 253 it never does. */
  method ApplyDecay(pet: Pet, now: int) returns (decayed: Pet)
    requires Intervals(pet.lastUpdated, now) > 0 ==> pet.pottyLevel <= 253
    ensures decayed == Decayed(pet, now)
  {
    decayed := pet;
    var intervals := Intervals(pet.lastUpdated, now);
    if intervals > 0 {
      for i := 0 to intervals
        invariant decayed == pet.(hunger := Max(pet.hunger - 3 * i, 0),
                                  happiness := Max(pet.happiness - 2 * i, 0),
                                  cleanliness := Max(pet.cleanliness - 2 * i, 0),
                                  pottyLevel := if i == 0 then pet.pottyLevel
                                                else Min(pet.pottyLevel + 2 * i, StatCap))
      {
        assert decayed.pottyLevel + 2 < 256;
        decayed := decayed.(hunger := SaturatingSub(decayed.hunger, 3),
                            happiness := SaturatingSub(decayed.happiness, 2),
                            cleanliness := SaturatingSub(decayed.cleanliness, 2),
                            pottyLevel := Min(decayed.pottyLevel + 2, StatCap));
      }
      decayed := decayed.(lastUpdated := now);
    }
  }

  /** Fewer than 8 hours: decay changes nothing, the stamp included. */
  lemma DecayBeforeInterval(p: Pet, now: int)
    requires now - p.lastUpdated < IntervalHours
    ensures Decayed(p, now) == p
  {
  }

  /** After at least one interval the stamp is `now`, and energy, xp, level,
      name and species are untouched. */
  lemma DecayStampsAndFrames(p: Pet, now: int)
    requires now - p.lastUpdated >= IntervalHours
    ensures var d := Decayed(p, now);
      && d.lastUpdated == now
      && d.energy == p.energy && d.xp == p.xp && d.level == p.level
      && d.name == p.name && d.species == p.species
  {
  }

  /** Decay keeps every stat in range. */
  lemma DecayKeepsValid(p: Pet, now: int)
    requires ValidPet(p)
    ensures ValidPet(Decayed(p, now))
  {
  }

  /** Decaying again at the same hour changes nothing more. */
  lemma DecayIdempotent(p: Pet, now: int)
    ensures Decayed(Decayed(p, now), now) == Decayed(p, now)
  {
  }

  /** The decay examples of the persistence tests. */
  lemma DecayExamples(p: Pet)
    requires p.hunger == 100 && p.happiness == 100 && p.cleanliness == 100 && p.pottyLevel == 0
    ensures var d := Decayed(p, p.lastUpdated + 8);
      d.hunger == 97 && d.happiness == 98 && d.cleanliness == 98 && d.pottyLevel == 2
    ensures var d := Decayed(p, p.lastUpdated + 24);
      d.hunger == 91 && d.happiness == 94 && d.cleanliness == 94 && d.pottyLevel == 6
    ensures Decayed(p, p.lastUpdated + 4) == p
  {
  }

  /** The capping test: three intervals floor the low stats at 0 and cap the
      potty level at 100. */
  lemma DecayCapsAtBounds(p: Pet)
    requires p.hunger == 5 && p.happiness == 3 && p.cleanliness == 1 && p.pottyLevel == 97
    ensures var d := Decayed(p, p.lastUpdated + 24);
      d.hunger == 0 && d.happiness == 0 && d.cleanliness == 0 && d.pottyLevel == 100
  {
  }

  /** A stored record: absent, present but unreadable, present but not
      parseable as a pet, or a parsed pet. */
  datatype Record = Missing | Unreadable | Corrupt | Present(pet: Pet)

  /** What `load_pet` returns for a stored record at hour `now`. */
  function LoadView(rec: Record, now: int): Result<Pet> {
    match rec
    case Missing => Ok(DefaultPet(now))
    case Unreadable => Err(ReadFailed)
    case Corrupt => Ok(DefaultPet(now))
    case Present(p) => Ok(Decayed(p, now))
  }

  /** The stored record after `load_pet`: only a corrupt record is
      rewritten, with the placeholder. */
  function AfterLoad(rec: Record, now: int): Record {
    if rec.Corrupt? then Present(DefaultPet(now)) else rec
  }

  /** The copy `save_pet` writes: every field kept, the stamp set to `now`. */
  function Stamped(p: Pet, now: int): (s: Pet)
    ensures s.lastUpdated == now && s.(lastUpdated := p.lastUpdated) == p
  {
    p.(lastUpdated := now)
  }

  /** No record: the placeholder comes back and nothing is written. */
  lemma LoadMissing(now: int)
    ensures LoadView(Missing, now) == Ok(DefaultPet(now)) && AfterLoad(Missing, now) == Missing
  {
  }

  /** A corrupt record is replaced by the placeholder, so every later load
      parses the placeholder and decays it; within 8 hours it comes back
      unchanged. */
  lemma LoadHealsCorruption(now: int, later: int)
    ensures LoadView(Corrupt, now) == Ok(DefaultPet(now))
    ensures AfterLoad(Corrupt, now) == Present(DefaultPet(now))
    ensures LoadView(AfterLoad(Corrupt, now), later) == Ok(Decayed(DefaultPet(now), later))
    ensures now <= later < now + IntervalHours ==>
      LoadView(AfterLoad(Corrupt, now), later) == Ok(DefaultPet(now))
  {
  }

  /** A parsed pet comes back decayed; the record itself is not rewritten. */
  lemma LoadPresent(p: Pet, now: int)
    ensures LoadView(Present(p), now) == Ok(Decayed(p, now))
    ensures AfterLoad(Present(p), now) == Present(p)
  {
  }

  /** A loaded pet always satisfies the record invariant. */
  lemma LoadViewValid(rec: Record, now: int)
    requires rec.Present? ==> ValidPet(rec.pet)
    ensures LoadView(rec, now).Ok? ==> ValidPet(LoadView(rec, now).value)
    ensures AfterLoad(rec, now).Present? ==> ValidPet(AfterLoad(rec, now).pet)
  {
    if rec.Present? { DecayKeepsValid(rec.pet, now); }
  }

  /** The durable store behind `load_pet` and `save_pet`. */
  class Store {
    var stored: Record

    /** The stored pet, if any, satisfies the record invariant. */
    ghost predicate Valid()
      reads this
    {
      stored.Present? ==> ValidPet(stored.pet)
    }

    constructor (initial: Record)
      requires initial.Present? ==> ValidPet(initial.pet)
      ensures Valid() && stored == initial
    {
      stored := initial;
    }

    /** `save_pet`: writes a stamped copy of `pet`. The caller's pet is a
        value and so is not changed. */
    method Save(pet: Pet, now: int)
      modifies this
      ensures stored == Present(Stamped(pet, now))
      ensures Valid() <==> ValidPet(pet)
    {
      stored := Present(Stamped(pet, now));
    }

    /** `load_pet`: the placeholder for a missing record, an error for an
        unreadable one, the placeholder (also written back) for a corrupt
        one, and the decayed pet for a parsed one. */
    method Load(now: int) returns (r: Result<Pet>)
      requires Valid()
      modifies this
      ensures Valid()
      ensures r == LoadView(old(stored), now)
      ensures stored == AfterLoad(old(stored), now)
      ensures r.Ok? ==> ValidPet(r.value)
    {
      match stored
      case Missing =>
        r := Ok(DefaultPet(now));
      case Unreadable =>
        r := Err(ReadFailed);
      case Corrupt =>
        var placeholder := DefaultPet(now);
        Save(placeholder, now);
        r := Ok(placeholder);
      case Present(p) =>
        var decayed := ApplyDecay(p, now);
        DecayKeepsValid(p, now);
        r := Ok(decayed);
    }

    /** `fs::remove_file` on the record. */
    method Remove()
      modifies this
      ensures stored == Missing && Valid()
    {
      stored := Missing;
    }
  }
}
