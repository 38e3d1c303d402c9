/** The interactive shell's command step: one input line is normalised,
    classified, and dispatched to its handler. */
module Shell {
  import opened Text
  import Outcomes
  import Persistence
  import Pets
  import FeedCommand
  import PlayCommand
  import WalkCommand
  import TrainCommand
  import StatusCommand
  import CleanCommand
  import PottyCommand
  import ResetCommand

  /** What one line means. `Unknown` keeps the trimmed input for the error
      message. */
  datatype Command =
    | Feed | Play | Walk | Train | Status | Clean | Potty | Reset | Help | Exit
    | Blank
    | Unknown(text: string)

  /** The match in `execute_command`, over `input.trim().to_lowercase()`. */
  function Classify(input: string): Command {
    var command := Normalize(input);
    if command == "/feed" then Feed
    else if command == "/play" then Play
    else if command == "/walk" then Walk
    else if command == "/train" then Train
    else if command == "/status" then Status
    else if command == "/clean" then Clean
    else if command == "/potty" then Potty
    else if command == "/reset" then Reset
    else if command == "/help" then Help
    else if command == "/exit" then Exit
    else if command == "" then Blank
    else Unknown(Trim(input))
  }

  /** The commands one string names. */
  predicate Named(c: Command) {
    !c.Blank? && !c.Unknown?
  }

  /** The string each named command is recognised by. */
  function CommandText(c: Command): (s: string)
    requires Named(c)
    ensures s == [] || (!IsWhitespace(s[0]) && !IsWhitespace(s[|s| - 1]))
    ensures forall i :: 0 <= i < |s| ==> !('A' <= s[i] <= 'Z')
  {
    match c
    case Feed => "/feed"
    case Play => "/play"
    case Walk => "/walk"
    case Train => "/train"
    case Status => "/status"
    case Clean => "/clean"
    case Potty => "/potty"
    case Reset => "/reset"
    case Help => "/help"
    case Exit => "/exit"
  }

  /** Each named command is recognised from its own string, so each string
      reaches exactly one handler. */
  lemma ClassifyCommandText(c: Command)
    requires Named(c)
    ensures Classify(CommandText(c)) == c
  {
    TrimOfTrimmed(CommandText(c));
    ToLowerOfLower(CommandText(c));
  }

  /** Distinct named commands have distinct strings. */
  lemma CommandTextInjective(c1: Command, c2: Command)
    requires Named(c1) && Named(c2) && CommandText(c1) == CommandText(c2)
    ensures c1 == c2
  {
    ClassifyCommandText(c1);
    ClassifyCommandText(c2);
  }

  /** Surrounding whitespace and case do not matter. */
  lemma ClassifyPaddedUpperCase()
    ensures Classify("  /FEED  ") == Feed
  {
    assert TrimStart("  /FEED  ") == "/FEED  " by {
      assert ("  /FEED  ")[1..] == " /FEED  ";
      assert (" /FEED  ")[1..] == "/FEED  ";
    }
    assert TrimEnd("/FEED  ") == "/FEED" by {
      assert ("/FEED  ")[..6] == "/FEED ";
      assert ("/FEED ")[..5] == "/FEED";
    }
    assert ToLower("/FEED") == "/feed";
  }

  /** Only "/exit" asks the shell to stop. */
  lemma ExitOnlyForExit(input: string)
    ensures Classify(input) == Exit <==> Normalize(input) == "/exit"
  {
  }

  /** Empty and whitespace-only lines are blank, and nothing else is. */
  lemma BlankExactlyWhitespace(input: string)
    ensures Classify(input) == Blank <==> forall i :: 0 <= i < |input| ==> IsWhitespace(input[i])
  {
    NormalizeEmpty(input);
  }

  /** The action commands are told apart by what they store: run on the
      same freshly adopted pet, each leaves a different record. */
  lemma HandlersDiffer(now: int)
    ensures var rec := Persistence.Present(Pets.NewPet("Kylo", "dog", now));
      var after := [FeedCommand.AfterFeed(rec, now), PlayCommand.AfterPlay(rec, now),
                    WalkCommand.AfterWalk(rec, now, true), TrainCommand.AfterTrain(rec, now),
                    Persistence.AfterLoad(rec, now), CleanCommand.AfterClean(rec, now),
                    PottyCommand.AfterPotty(rec, now), ResetCommand.AfterReset(rec, now, ["y"])];
      forall i, j :: 0 <= i < j < |after| ==> after[i] != after[j]
  {
    var p := Pets.NewPet("Kylo", "dog", now);
    var rec := Persistence.Present(p);
    assert Persistence.Decayed(p, now) == p;
    assert ResetCommand.Decision(["y"]) == Outcomes.Some(true) by {
      assert ResetCommand.ClassifyAnswer("y") == ResetCommand.Yes by {
        TrimOfTrimmed("y");
        assert ToLower("y") == "y";
      }
    }
  }

  /** `execute_command`: the result is the exit signal, true only for
      "/exit". Only train and reset propagate a load error. Help, exit,
      blank and unknown lines leave the store alone. `now`, `coin` and
      `resetLines` stand for the clock, the walk's random draw and the lines
      typed at the reset prompt. */
  method ExecuteCommand(store: Persistence.Store, input: string, now: int, coin: bool,
                        resetLines: seq<string>)
    returns (r: Outcomes.Result<bool>)
    requires store.Valid()
    modifies store
    ensures store.Valid()
    ensures var c := Classify(input);
      && (r == Outcomes.Ok(true) <==> c == Exit)
      && (r.Ok? ==> r.value == (c == Exit))
      && (r.Err? <==> (c == Train || c == Reset) && old(store.stored).Unreadable?)
      && (c == Help || c == Exit || c == Blank || c.Unknown? ==> store.stored == old(store.stored) && r.Ok?)
    ensures var c, before := Classify(input), old(store.stored);
      && (c == Feed ==> store.stored == FeedCommand.AfterFeed(before, now))
      && (c == Play ==> store.stored == PlayCommand.AfterPlay(before, now))
      && (c == Walk ==> store.stored == WalkCommand.AfterWalk(before, now, coin))
      && (c == Train ==> store.stored == TrainCommand.AfterTrain(before, now))
      && (c == Status ==> store.stored == Persistence.AfterLoad(before, now))
      && (c == Clean ==> store.stored == CleanCommand.AfterClean(before, now))
      && (c == Potty ==> store.stored == PottyCommand.AfterPotty(before, now))
      && (c == Reset ==> store.stored == ResetCommand.AfterReset(before, now, resetLines))
  {
    var command := Classify(input);
    match command {
      case Feed =>
        var _ := FeedCommand.FeedPet(store, now);
        r := Outcomes.Ok(false);
      case Play =>
        var _ := PlayCommand.PlayPet(store, now);
        r := Outcomes.Ok(false);
      case Walk =>
        var _ := WalkCommand.WalkPet(store, now, coin);
        r := Outcomes.Ok(false);
      case Train =>
        var trained := TrainCommand.TrainPet(store, now);
        r := if trained.Err? then Outcomes.Err(trained.error) else Outcomes.Ok(false);
      case Status =>
        var _ := StatusCommand.ShowStatus(store, now);
        r := Outcomes.Ok(false);
      case Clean =>
        var _ := CleanCommand.CleanPet(store, now);
        r := Outcomes.Ok(false);
      case Potty =>
        var _ := PottyCommand.PottyPet(store, now);
        r := Outcomes.Ok(false);
      case Reset =>
        var reset := ResetCommand.ResetPet(store, resetLines, now);
        r := if reset.Err? then Outcomes.Err(reset.error) else Outcomes.Ok(false);
      case Help =>
        r := Outcomes.Ok(false);
      case Exit =>
        r := Outcomes.Ok(true);
      case Blank =>
        r := Outcomes.Ok(false);
      case Unknown(_) =>
        r := Outcomes.Ok(false);
    }
  }
}
