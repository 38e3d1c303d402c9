/** The adopt command: a new pet, after confirmation when a real pet would
    be overwritten. */
module AdoptCommand {
  import opened Pets
  import opened Outcomes
  import opened Persistence
  import opened Text

  const CancelledMessage := "Adoption cancelled."

  /** The success message names the new pet and its species. */
  function WelcomeMessage(name: string, species: string): (s: string)
    ensures Contains(s, name) && Contains(s, species)
  {
    var head := "\U{1F43E} Welcome, ";
    var tail := "! Your adventure begins.";
    var s := head + name + " the " + species + tail;
    assert s == head + name + (" the " + species + tail);
    ContainsMiddle(head, name, " the " + species + tail);
    ContainsMiddle(head + name + " the ", species, tail);
    s
  }

  /** The overwrite prompt accepts only "y" after trimming and lower-casing. */
  predicate Confirms(answer: string) {
    Normalize(answer) == "y"
  }

  /** `adopt_pet`, with the line typed at the overwrite prompt passed in as
      `answer` (read only when the prompt is shown). */
  method AdoptPet(store: Store, name: string, species: string, answer: string, now: int)
    returns (message: string)
    requires store.Valid()
    modifies store
    ensures store.Valid()
    ensures var l := LoadView(old(store.stored), now);
      if l.Ok? && !IsPlaceholder(l.value) && !Confirms(answer) then
        message == CancelledMessage && store.stored == AfterLoad(old(store.stored), now)
      else
        message == WelcomeMessage(name, species) && store.stored == Present(NewPet(name, species, now))
  {
    var existing := store.Load(now);
    if existing.Ok? && !IsPlaceholder(existing.value) {
      if Normalize(answer) != "y" {
        return CancelledMessage;
      }
    }
    var newPet := NewPet(name, species, now);
    store.Save(newPet, now);
    return WelcomeMessage(name, species);
  }

  /** A padded, upper-case answer still confirms, newline included. */
  lemma PaddedUpperCaseConfirms()
    ensures Confirms(" Y \n")
  {
    assert TrimStart(" Y \n") == "Y \n" by {
      assert (" Y \n")[1..] == "Y \n";
    }
    assert TrimEnd("Y \n") == "Y" by {
      assert ("Y \n")[..2] == "Y ";
      assert ("Y ")[..1] == "Y";
    }
    assert ToLower("Y") == "y";
  }

  /** Exactly the answers that trim to a lone "y" or "Y" confirm. */
  lemma ConfirmsExactly(answer: string)
    ensures Confirms(answer) <==> Trim(answer) == "y" || Trim(answer) == "Y"
  {
    var t := Trim(answer);
    if |t| == 1 {
      assert ToLower(t) == [LowerChar(t[0])];
      assert t == [t[0]];
    }
  }
}
