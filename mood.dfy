/** The mood shown with the status: an ordered chain of rules, the first
    that matches wins. */
module Moods {
  import opened Pets
  import opened Text

  datatype Mood = Happy | Hungry | Sleepy | Bored | Grumpy | Embarrassed

  /** `calculate_mood`. */
  function CalculateMood(p: Pet): Mood {
    if p.energy < 20 && p.happiness < 40 then Grumpy
    else if p.energy < 30 then Sleepy
    else if p.hunger < 40 then Hungry
    else if p.pottyLevel > 80 then Embarrassed
    else if p.happiness < 50 && p.energy > 50 then Bored
    else if p.hunger >= 70 && p.happiness >= 80 then Happy
    else Happy
  }

  /** The first five rules of the chain, each on its own. */
  predicate GrumpyRule(p: Pet) { p.energy < 20 && p.happiness < 40 }
  predicate SleepyRule(p: Pet) { p.energy < 30 }
  predicate HungryRule(p: Pet) { p.hunger < 40 }
  predicate EmbarrassedRule(p: Pet) { p.pottyLevel > 80 }
  predicate BoredRule(p: Pet) { p.happiness < 50 && p.energy > 50 }

  /** Each mood in terms of the stats alone, both directions: a mood is
      chosen exactly when its rule matches and no earlier rule does. */
  lemma MoodCharacterisation(p: Pet)
    ensures CalculateMood(p) == Grumpy <==> p.energy < 20 && p.happiness < 40
    ensures CalculateMood(p) == Sleepy <==> p.energy < 30 && !GrumpyRule(p)
    ensures CalculateMood(p) == Hungry <==> p.energy >= 30 && p.hunger < 40
    ensures CalculateMood(p) == Embarrassed <==>
      p.energy >= 30 && p.hunger >= 40 && p.pottyLevel > 80
    ensures CalculateMood(p) == Bored <==>
      p.happiness < 50 && p.energy > 50 && p.hunger >= 40 && p.pottyLevel <= 80
    ensures CalculateMood(p) == Happy <==>
      !GrumpyRule(p) && !SleepyRule(p) && !HungryRule(p) && !EmbarrassedRule(p) && !BoredRule(p)
  {
  }

  /** The explicit Happy rule adds nothing: dropping it from the chain gives
      the same mood for every pet. */
  lemma HappyRuleRedundant(p: Pet)
    ensures CalculateMood(p) ==
      if GrumpyRule(p) then Grumpy
      else if SleepyRule(p) then Sleepy
      else if HungryRule(p) then Hungry
      else if EmbarrassedRule(p) then Embarrassed
      else if BoredRule(p) then Bored
      else Happy
  {
  }

  /** A pet both grumpy and sleepy by the rules is grumpy: the first match
      wins. */
  lemma GrumpyBeatsSleepy(p: Pet)
    requires p.energy == 15 && p.happiness == 30
    ensures CalculateMood(p) == Grumpy
  {
  }

  /** The leading emoji of each mood's message. */
  function MoodEmoji(m: Mood): char {
    match m
    case Happy => '\U{1F43E}'
    case Hungry => '\U{1F356}'
    case Sleepy => '\U{1F4A4}'
    case Bored => '\U{1F3BE}'
    case Grumpy => '\U{1F620}'
    case Embarrassed => '\U{1F4A9}'
  }

  /** The text after the name in each mood's message. */
  function MoodTail(m: Mood): string {
    match m
    case Happy => " wags their tail!"
    case Hungry => " looks at you hopefully."
    case Sleepy => " curls up in a ball."
    case Bored => " paws at your keyboard."
    case Grumpy => " ignores you."
    case Embarrassed => " looks guilty\U{2026}"
  }

  /** `get_mood_message`: the mood's template filled with the pet's name. */
  function MoodMessage(p: Pet, m: Mood): (s: string)
    ensures Contains(s, p.name)
    ensures |s| > 0 && s[0] == MoodEmoji(m)
  {
    var s := [MoodEmoji(m), ' '] + p.name + MoodTail(m);
    ContainsMiddle([MoodEmoji(m), ' '], p.name, MoodTail(m));
    s
  }

  /** Different moods give different messages for the same pet. */
  lemma MoodMessageIdentifiesMood(p: Pet, m1: Mood, m2: Mood)
    requires MoodMessage(p, m1) == MoodMessage(p, m2)
    ensures m1 == m2
  {
    assert MoodEmoji(m1) == MoodMessage(p, m1)[0];
  }
}
