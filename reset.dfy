/** The reset command: the record is deleted after a y/n confirmation. */
module ResetCommand {
  import opened Pets
  import opened Outcomes
  import opened Persistence
  import opened Text

  /** How one typed line is read at the reset prompt. */
  datatype Answer = Yes | No | Invalid

  function ClassifyAnswer(line: string): Answer {
    var t := Normalize(line);
    if t == "y" then Yes else if t == "n" then No else Invalid
  }

  /** The decision made by the first decisive line, if any. */
  function Decision(lines: seq<string>): Option<bool> {
    if lines == [] then None
    else match ClassifyAnswer(lines[0])
      case Yes => Some(true)
      case No => Some(false)
      case Invalid => Decision(lines[1..])
  }

  /** `Decision` picks the first line that reads as y or n, and is None
      exactly when no line does. */
  lemma {:induction false} DecisionIsFirstDecisive(lines: seq<string>)
    ensures Decision(lines) == None <==> forall i :: 0 <= i < |lines| ==> ClassifyAnswer(lines[i]) == Invalid
    ensures Decision(lines).Some? ==>
      exists i :: 0 <= i < |lines| && ClassifyAnswer(lines[i]) == (if Decision(lines).value then Yes else No)
        && forall j :: 0 <= j < i ==> ClassifyAnswer(lines[j]) == Invalid
  {
    if lines != [] {
      DecisionIsFirstDecisive(lines[1..]);
      if ClassifyAnswer(lines[0]) == Invalid {
        assert forall i :: 1 <= i < |lines| ==> lines[i] == lines[1..][i - 1];
        if Decision(lines).Some? {
          var i :| 0 <= i < |lines[1..]| && ClassifyAnswer(lines[1..][i]) == (if Decision(lines).value then Yes else No)
            && forall j :: 0 <= j < i ==> ClassifyAnswer(lines[1..][j]) == Invalid;
          assert ClassifyAnswer(lines[i + 1]) == (if Decision(lines).value then Yes else No);
        }
      } else {
        assert ClassifyAnswer(lines[0]) == (if Decision(lines).value then Yes else No);
      }
    }
  }

  /** The line the k-th prompt reads: the typed lines while they last, then
      the empty string, which is what `read_line` leaves at end of input. */
  function LineRead(lines: seq<string>, k: nat): string {
    if k < |lines| then lines[k] else ""
  }

  /** `confirm_reset` as written, run for at most `prompts` prompts from the
      k-th on: it returns only on a y or n line and otherwise prompts again. */
  function PromptLoop(lines: seq<string>, k: nat, prompts: nat): Option<bool>
    decreases prompts
  {
    if prompts == 0 then None
    else match ClassifyAnswer(LineRead(lines, k))
      case Yes => Some(true)
      case No => Some(false)
      case Invalid => PromptLoop(lines, k + 1, prompts - 1)
  }

  lemma EmptyLineIsInvalid()
    ensures ClassifyAnswer("") == Invalid
  {
    assert Trim("") == "";
  }

  /** Where the source's loop returns, it returns `Decision`. */
  lemma {:induction false} PromptLoopAgrees(lines: seq<string>, k: nat)
    requires k <= |lines|
    ensures PromptLoop(lines, k, |lines| - k) == Decision(lines[k..])
    decreases |lines| - k
  {
    if k < |lines| {
      PromptLoopAgrees(lines, k + 1);
      assert lines[k..][1..] == lines[k + 1..];
    }
  }

  /** Once no typed line decides, no number of further prompts does: at end
      of input the source's loop prompts for ever. */
  lemma {:induction false} PromptLoopNeverEnds(lines: seq<string>, k: nat, prompts: nat)
    requires k <= |lines| && Decision(lines[k..]) == None
    ensures PromptLoop(lines, k, prompts) == None
    decreases prompts
  {
    if prompts > 0 {
      if k < |lines| {
        assert lines[k..][1..] == lines[k + 1..];
        PromptLoopNeverEnds(lines, k + 1, prompts - 1);
      } else {
        EmptyLineIsInvalid();
        PromptLoopNeverEndsAtEnd(lines, k, prompts);
      }
    }
  }

  lemma {:induction false} PromptLoopNeverEndsAtEnd(lines: seq<string>, k: nat, prompts: nat)
    requires k >= |lines|
    ensures PromptLoop(lines, k, prompts) == None
    decreases prompts
  {
    if prompts > 0 {
      EmptyLineIsInvalid();
      PromptLoopNeverEndsAtEnd(lines, k + 1, prompts - 1);
    }
  }

  /** The concrete case: with standard input already closed, the source's
      confirmation loop never returns, however many prompts it prints. */
  lemma ClosedInputNeverConfirms(prompts: nat)
    ensures PromptLoop([], 0, prompts) == None
  {
    PromptLoopNeverEndsAtEnd([], 0, prompts);
  }

  /** `confirm_reset`, corrected so that end of input declines: it reads
      the typed lines in order, stops at the first y or n, and answers no
      when the lines run out. */
  method ConfirmReset(lines: seq<string>) returns (confirmed: bool)
    ensures confirmed <==> Decision(lines) == Some(true)
  {
    var i := 0;
    while i < |lines|
      invariant 0 <= i <= |lines|
      invariant Decision(lines[i..]) == Decision(lines)
    {
      assert lines[i..][1..] == lines[i + 1..];
      var answer := ClassifyAnswer(lines[i]);
      if answer == Yes {
        return true;
      } else if answer == No {
        return false;
      }
      i := i + 1;
    }
    return false;
  }

  datatype ResetOutcome = NoPetFound | Released(name: string) | ResetCancelled

  /** The record `reset_pet` leaves behind when run on `rec` at hour `now`
      with `lines` typed at the prompt. */
  function AfterReset(rec: Record, now: int, lines: seq<string>): Record {
    if rec.Missing? || LoadView(rec, now).Err? then rec
    else if Decision(lines) == Some(true) then Missing
    else AfterLoad(rec, now)
  }

  /** `reset_pet`, with the lines typed at the confirmation prompt passed in
      as `lines`. There is no placeholder check: a placeholder record is
      released like any other. */
  method ResetPet(store: Store, lines: seq<string>, now: int) returns (r: Result<ResetOutcome>)
    requires store.Valid()
    modifies store
    ensures store.Valid()
    ensures store.stored == AfterReset(old(store.stored), now, lines)
    ensures if old(store.stored).Missing? then
        r == Ok(NoPetFound) && store.stored == Missing
      else
        var l := LoadView(old(store.stored), now);
        if l.Err? then
          r == Err(l.error) && store.stored == old(store.stored)
        else if Decision(lines) == Some(true) then
          r == Ok(Released(l.value.name)) && store.stored == Missing
        else
          r == Ok(ResetCancelled) && store.stored == AfterLoad(old(store.stored), now)
  {
    if store.stored.Missing? {
      return Ok(NoPetFound);
    }
    var loaded := store.Load(now);
    if loaded.Err? {
      return Err(loaded.error);
    }
    var petName := loaded.value.name;
    var confirmed := ConfirmReset(lines);
    if confirmed {
      store.Remove();
      return Ok(Released(petName));
    } else {
      return Ok(ResetCancelled);
    }
  }
}
