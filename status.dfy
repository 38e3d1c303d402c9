/** The read-only status command: stat colours and the mood line. */
module StatusCommand {
  import opened Utils
  import opened Pets
  import opened Outcomes
  import opened Persistence
  import opened Moods
  import opened Text

  datatype Color = Red | Yellow | Green

  /** `get_stat_color`. */
  function StatColor(value: Byte): Color {
    if value >= 70 then Green
    else if value >= 40 then Yellow
    else Red
  }

  /** Red < Yellow < Green. */
  function ColorRank(c: Color): (r: nat)
    ensures r < 3
  {
    match c
    case Red => 0
    case Yellow => 1
    case Green => 2
  }

  /** The three colour bands, both directions. */
  lemma StatColorBands(value: Byte)
    ensures StatColor(value) == Green <==> value >= 70
    ensures StatColor(value) == Yellow <==> 40 <= value < 70
    ensures StatColor(value) == Red <==> value < 40
  {
  }

  /** A larger stat never gets a worse colour. */
  lemma StatColorMonotone(v1: Byte, v2: Byte)
    requires v1 <= v2
    ensures ColorRank(StatColor(v1)) <= ColorRank(StatColor(v2))
  {
  }

  /** What `print_status` shows, without its layout. */
  datatype StatusReport = StatusReport(
    pet: Pet,
    hungerColor: Color,
    happinessColor: Color,
    energyColor: Color,
    cleanlinessColor: Color,
    mood: Mood,
    moodMessage: string)

  datatype StatusOutcome = AdoptFirst | Shown(report: StatusReport)

  function Report(p: Pet): StatusReport {
    var mood := CalculateMood(p);
    StatusReport(p, StatColor(p.hunger), StatColor(p.happiness), StatColor(p.energy),
                 StatColor(p.cleanliness), mood, MoodMessage(p, mood))
  }

  /** `show_status`: the placeholder or an unreadable store gives the
      adopt-first reply; otherwise the loaded pet is shown with its mood.
      The command itself never saves: the store changes only where the load
      heals a corrupt record. */
  method ShowStatus(store: Store, now: int) returns (o: StatusOutcome)
    requires store.Valid()
    modifies store
    ensures store.Valid()
    ensures store.stored == AfterLoad(old(store.stored), now)
    ensures var l := LoadView(old(store.stored), now);
      if l.Err? || IsPlaceholder(l.value) then o == AdoptFirst
      else o == Shown(Report(l.value))
    ensures o.Shown? ==>
      o.report.mood == CalculateMood(o.report.pet) && Contains(o.report.moodMessage, o.report.pet.name)
  {
    var loaded := store.Load(now);
    if loaded.Err? || IsPlaceholder(loaded.value) {
      o := AdoptFirst;
    } else {
      o := Shown(Report(loaded.value));
    }
  }
}
