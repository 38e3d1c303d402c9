# termipet stat engine in Dafny

termipet is a terminal virtual pet. One pet record is kept on disk and holds
hunger, happiness, energy, cleanliness, potty level, experience and level.
Each command (feed, play, clean, train, walk, potty, status, adopt, reset, or
the same commands typed into an interactive shell) loads the pet, changes a
few stats under fixed rules, and saves it again. Loading applies time decay
(every whole 8 hours since the last save costs hunger, happiness and
cleanliness and raises the potty level). A missing or unparseable record
stands for "no pet adopted".

This project models that rule engine:

- `Utils` — the `u8`/`i32` widths and `cap_stat`, the clamp every stat write goes through.
- `Text` — `str::trim` and `str::to_lowercase`, the normalisation applied to typed input.
- `Outcomes` — the shared result types: load errors, the three handler outcomes, stat changes.
- `Pets` — the pet record, `Pet::new`, the "Pet" placeholder and the record invariant.
- `Persistence` — decay (a closed form and the source's loop), and `load_pet`/`save_pet` as a `Store` class whose `stored` field is the on-disk record.
- `Moods` — the mood priority chain and the mood messages.
- `StatusCommand`, `FeedCommand`, `PlayCommand`, `CleanCommand`, `TrainCommand`,
  `WalkCommand`, `PottyCommand`, `AdoptCommand`, `ResetCommand` — one module per handler.
  Each handler is a method over the `Store`. Its postcondition gives the reply and the new
  record as functions of the record before the call.
- `Shell` — classification of a typed line and `execute_command`'s dispatch and exit signal.

What each handler prints is modelled as a report value: the outcome, the reply variant and
the stat changes listed. The exact strings are modelled only where a property depends on them
(mood messages, the adoption message).

Time is an integer number of hours, and the current hour is a parameter. The random draw of
the walk is a `coin` parameter. The lines typed at the adopt and reset prompts are parameters.
On-disk state is `Persistence.Record`, which has four cases:

- `Missing` — no file;
- `Unreadable` — the file exists but cannot be read;
- `Corrupt` — the file is not a pet;
- `Present(pet)` — a parsed pet.

Notes on the source:

- The comment at `src/commands/potty.rs:38` says the happiness bonus is given
  "even if accident happened". The code gives it only without an accident. The model follows the code.
- `train_pet` propagates a load error. The other stat handlers answer "no pet adopted" instead.
  `adopt_pet` treats a load error like the placeholder and skips the prompt. The model keeps
  each difference.
- A few files do not fit together as they stand:
  - `walk.rs` imports `random_bool` from `crate::utils`, which `src/utils.rs` does not define;
  - `reset` and `shell` are not declared in `src/commands/mod.rs`;
  - `utils` is not declared in `src/lib.rs`.

  Each file is modelled from its own text.

## Model

| member | source | states |
|---|---|---|
| Utils.CapStat | src/utils.rs:3-11 | the result lies in [min, max], is the input when the input is in range, and equals max(min, min(value, max)) |
| Utils.CapStatCases | src/utils.rs:4-10 | below min gives min, above max gives max, otherwise the value itself |
| Utils.CapStatIdempotent | src/utils.rs:3-11 | clamping twice gives the same as clamping once |
| Utils.CapStatMonotone | src/utils.rs:3-11 | the clamp preserves the order of its inputs |
| Text.Trim | src/commands/shell.rs:92 | the trimmed string is no longer than the input and has no whitespace at either end |
| Text.TrimIsSlice | src/commands/shell.rs:92 | the trimmed string is the slice of the input between a whitespace-only prefix and a whitespace-only suffix |
| Text.TrimStartRemovesWhitespacePrefix | src/commands/shell.rs:92 | what the leading trim drops is a prefix made only of whitespace |
| Text.TrimEndRemovesWhitespaceSuffix | src/commands/shell.rs:92 | what the trailing trim drops is a suffix made only of whitespace |
| Text.TrimOfTrimmed | src/commands/shell.rs:92 | a string with no whitespace at either end trims to itself |
| Text.TrimIdempotent | src/commands/shell.rs:92 | trimming twice gives the same as trimming once |
| Text.TrimAllWhitespace | src/commands/shell.rs:135-138 | a string of whitespace only trims to the empty string |
| Text.ToLowerMeaning | src/commands/shell.rs:92 | after lower-casing no upper-case letter is left, each upper-case letter has become its lower-case partner, and every other character is kept in place |
| Text.ToLowerIdempotent | src/commands/shell.rs:92 | lower-casing twice gives the same as lower-casing once |
| Text.ToLowerOfLower | src/commands/shell.rs:92 | a string with no upper-case letter is unchanged by lower-casing |
| Text.NormalizeIdempotent | src/commands/reset.rs:15 | trim-then-lowercase applied twice gives the same as applied once |
| Text.NormalizeEmpty | src/commands/shell.rs:135-138 | a line normalises to "" exactly when it is whitespace only |
| Pets.NewPet | src/pet.rs:19-32 | a new pet keeps the given name and species, is stamped now, and satisfies the record invariant |
| Pets.NewPetStats | src/pet.rs:23-29 | a new pet starts at hunger, happiness, energy and cleanliness 80, potty 0, xp 0, level 1 |
| Pets.DefaultPet | src/pet.rs:35-39 | the default pet is named "Pet" (the placeholder), of species "unknown", and valid |
| Pets.DefaultIsNewPet | src/pet.rs:35-39 | the default pet is exactly a new pet named "Pet" of species "unknown" |
| Pets.AdoptedPetNamedPetIsPlaceholder | src/pet.rs:37 | a pet adopted under the name "Pet" passes the handlers' placeholder test |
| Persistence.IntervalsPositive | src/persistence.rs:26-29 | decay runs exactly when at least 8 whole hours have elapsed |
| Persistence.ApplyDecay | src/persistence.rs:23-41 | the per-interval loop yields the closed form: hunger −3k, happiness and cleanliness −2k floored at 0, potty +2k capped at 100, stamp moved to now |
| Persistence.DecayBeforeInterval | src/persistence.rs:28-29 | under 8 hours decay leaves the pet unchanged, its stamp included |
| Persistence.DecayStampsAndFrames | src/persistence.rs:31-39 | after decay the stamp is now, and energy, xp, level, name and species are unchanged |
| Persistence.DecayKeepsValid | src/persistence.rs:31-36 | decay keeps every stat within [0, 100] |
| Persistence.DecayIdempotent | src/persistence.rs:23-41 | decaying a freshly decayed pet again at the same hour changes nothing |
| Persistence.DecayExamples | src/persistence.rs:180-257 | from 100/100/100/0, 8 hours gives 97/98/98/2, 24 hours gives 91/94/94/6, 4 hours changes nothing |
| Persistence.DecayCapsAtBounds | src/persistence.rs:220-237 | from 5/3/1/97, 24 hours gives 0/0/0/100 |
| Persistence.Stamped | src/persistence.rs:49-51 | the saved copy has the stamp now and every other field of the caller's pet |
| Persistence.LoadMissing | src/persistence.rs:68-70 | with no record the placeholder is returned and nothing is written |
| Persistence.LoadHealsCorruption | src/persistence.rs:80-85 | a corrupt record yields the placeholder and is replaced by it, so every later load returns the placeholder decayed to that hour, unchanged within 8 hours |
| Persistence.LoadPresent | src/persistence.rs:75-79 | a parsed pet is returned decayed and the record itself is not rewritten |
| Persistence.LoadViewValid | src/persistence.rs:64-89 | every pet a load returns or writes satisfies the record invariant |
| Persistence.Store.Save | src/persistence.rs:45-59 | the record becomes the stamped copy of the pet, and the store stays valid exactly when the pet is valid |
| Persistence.Store.Load | src/persistence.rs:64-89 | the result is the placeholder for a missing or corrupt record (corrupt is overwritten), an error for an unreadable one, the decayed pet otherwise |
| Persistence.Store.Remove | src/commands/reset.rs:43 | after removal no record exists |
| Moods.MoodCharacterisation | src/mood.rs:22-55 | each mood holds exactly when its rule holds and no higher-priority rule does |
| Moods.HappyRuleRedundant | src/mood.rs:48-54 | the explicit Happy rule never decides anything the default does not |
| Moods.GrumpyBeatsSleepy | src/mood.rs:24-31 | energy 15 and happiness 30 is Grumpy, not Sleepy |
| Moods.MoodMessage | src/mood.rs:58-67 | every mood message contains the pet's name and starts with the mood's emoji |
| Moods.MoodMessageIdentifiesMood | src/mood.rs:58-67 | different moods give different messages for the same pet |
| StatusCommand.StatColorBands | src/commands/status.rs:8-16 | green exactly from 70, yellow exactly in [40, 70), red exactly below 40 |
| StatusCommand.StatColorMonotone | src/commands/status.rs:8-16 | a higher stat never gets a worse colour |
| StatusCommand.ShowStatus | src/commands/status.rs:56-76 | a load error or the placeholder gives the adopt-first reply; otherwise the report shows the loaded stats, the computed mood and a message naming the pet; the store changes only as a load changes it |
| FeedCommand.FeedPet | src/commands/feed.rs:6-60 | no pet gives "adopt first", hunger of at least 95 declines, otherwise hunger +20 and happiness +10 (capped) are saved and their real changes reported; the new record is `AfterFeed` of the old one |
| FeedCommand.FedProperties | src/commands/feed.rs:26-36 | feeding keeps the record invariant, changes only hunger and happiness, and the reported changes lie in [0, 20] and [0, 10] |
| FeedCommand.FedExample | src/commands/feed.rs:78-96 | hunger 60 and happiness 70 become 80 and 80 |
| PlayCommand.PlayPet | src/commands/play.rs:6-60 | no pet gives "adopt first", energy below 10 declines, otherwise happiness +15 (capped) and energy −10 are saved; the new record is `AfterPlay` of the old one |
| PlayCommand.PlayedProperties | src/commands/play.rs:21-36 | playing keeps the record invariant, costs exactly 10 energy and changes only happiness and energy |
| CleanCommand.CleanPet | src/commands/clean.rs:6-61 | no pet gives "adopt first"; otherwise cleanliness +40 (capped) is saved, with the already-spotless flag for 95 and above; the new record is `AfterClean` of the old one |
| CleanCommand.CleanedProperties | src/commands/clean.rs:21-33 | cleaning keeps the record invariant, does not lower cleanliness and changes nothing else |
| TrainCommand.GainExperience | src/commands/train.rs:25-35 | the level-up loop yields the closed form: xp (old + 20) mod 100, one level and +5 happiness (capped) per whole 100, and the flag says whether the level rose |
| TrainCommand.TrainPet | src/commands/train.rs:4-48 | a load error propagates, no pet gives "adopt first", energy below 10 declines, otherwise the trained pet is saved and the level-up reported; the new record is `AfterTrain` of the old one |
| TrainCommand.TrainedValid | src/commands/train.rs:22-38 | training keeps the record invariant, leaves xp below 100, raises the level by at most one and keeps hunger, cleanliness and potty |
| TrainCommand.TrainedHappiness | src/commands/train.rs:29-35 | happiness changes only on a level-up, and then gains 5 (capped) |
| TrainCommand.TrainedExamples | src/commands/train.rs:95-176 | 40 xp gives 60, 90 gives 10 and a level, 95 gives 15 and a level, energy 10 drops to 0 |
| WalkCommand.WalkPet | src/commands/walk.rs:6-120 | no pet gives "adopt first"; otherwise the walked pet is saved and the reply and listed changes follow the accident and relief branches; the new record is `AfterWalk` of the old one |
| WalkCommand.WalkedProperties | src/commands/walk.rs:20-53 | walking keeps the record invariant, keeps hunger, xp and level, and sets energy to min(energy + 15, 100) |
| WalkCommand.WalkAccident | src/commands/walk.rs:30-35 | an accident happens exactly above potty 80 and costs 30 cleanliness and 15 happiness (floored) |
| WalkCommand.WalkReliefIndependent | src/commands/walk.rs:40-44 | relief takes 50 potty (floored) with or without an accident and changes nothing else |
| WalkCommand.WalkMessageOrder | src/commands/walk.rs:56-109 | the accident message comes first, then relief, then the plain message; energy is always the first change listed |
| PottyCommand.PottyPet | src/commands/potty.rs:6-97 | no pet gives "adopt first"; otherwise the relieved pet is saved and the changes are reported; the new record is `AfterPotty` of the old one |
| PottyCommand.PottiedProperties | src/commands/potty.rs:20-49 | a potty break keeps the record invariant, sets potty to 0 and keeps energy, hunger, xp, level, name and species |
| PottyCommand.PottyAccident | src/commands/potty.rs:29-41 | above potty 80 cleanliness −30 and happiness −15 (floored) with no bonus; otherwise happiness +5 (capped) |
| AdoptCommand.WelcomeMessage | src/commands/adopt.rs:30-33 | the welcome message contains the pet's name and species |
| AdoptCommand.AdoptPet | src/commands/adopt.rs:7-34 | over a real pet without a "y" answer nothing is replaced and the cancel message is returned; otherwise a new pet is saved and welcomed |
| AdoptCommand.PaddedUpperCaseConfirms | src/commands/adopt.rs:21-24 | the answer " Y " followed by a newline confirms |
| AdoptCommand.ConfirmsExactly | src/commands/adopt.rs:21-24 | an answer confirms exactly when it trims to "y" or "Y" |
| ResetCommand.DecisionIsFirstDecisive | src/commands/reset.rs:15-20 | the answer taken is the first y or n line; with none there is no decision |
| ResetCommand.EmptyLineIsInvalid | src/commands/reset.rs:13-19 | the empty line read at end of input is neither y nor n |
| ResetCommand.PromptLoopAgrees | src/commands/reset.rs:7-22 | the loop as written returns the first decisive answer when the input has one |
| ResetCommand.PromptLoopNeverEnds | src/commands/reset.rs:8-21 | with no decisive line left, the loop as written never returns, whatever the number of prompts |
| ResetCommand.PromptLoopNeverEndsAtEnd | src/commands/reset.rs:8-21 | once input is exhausted, the loop as written never returns |
| ResetCommand.ClosedInputNeverConfirms | src/commands/reset.rs:8-21 | on closed input the loop as written never returns |
| ResetCommand.ConfirmReset | src/commands/reset.rs:7-22 | confirms exactly when the first decisive line is y; declines at end of input |
| ResetCommand.ResetPet | src/commands/reset.rs:25-53 | no record gives "no pet found", a load error propagates, a confirmation removes the record and names the pet, otherwise the reset is cancelled (using the corrected confirmation of "## Findings", so input with no y or n line cancels); the new record is `AfterReset` of the old one |
| Shell.ClassifyCommandText | src/commands/shell.rs:94-138 | each command's own text classifies back to that command |
| Shell.CommandTextInjective | src/commands/shell.rs:94-138 | distinct commands have distinct texts |
| Shell.ClassifyPaddedUpperCase | src/commands/shell.rs:202-218 | "  /FEED  " classifies as feed |
| Shell.ExitOnlyForExit | src/commands/shell.rs:131-134 | a line is the exit command exactly when it normalises to "/exit" |
| Shell.BlankExactlyWhitespace | src/commands/shell.rs:135-138 | a line is blank exactly when it is whitespace only |
| Shell.ExecuteCommand | src/commands/shell.rs:91-147 | the result is Ok(true) exactly for exit; the result is an error exactly when train or reset runs over an unreadable record, as their `?` passes the load error on; help, exit, blank and unknown lines leave the store untouched; each action command leaves exactly the record its own handler leaves (`AfterFeed`, `AfterPlay`, `AfterWalk`, `AfterTrain`, `AfterLoad` for status, `AfterClean`, `AfterPotty`, `AfterReset`) |
| Shell.HandlersDiffer | src/commands/shell.rs:95-126 | run on the same freshly adopted pet, the eight action commands leave eight different records, so the dispatch clauses fix one handler per command |

## Left out

- Console output: colours, layout of `print_status` and the exact wording of most replies. Handlers return report values instead.
- `run_shell` (the prompt loop, reading standard input, end-of-input and read-error handling) and `display_help`. Only the dispatch of one line (`execute_command`) is modelled.
- The command-line front end (`main.rs`, argument parsing) and the module declarations (`lib.rs`, `commands/mod.rs`). They hold no logic.
- Locating the data directory, `create_dir_all`, write and serialisation failures of `save_pet`, and failure of `fs::remove_file`. Saves and removal always succeed in the model; `Unreadable` stands for the one I/O error a load can return.
- JSON encoding and decoding. A stored record is either `Corrupt` or a parsed `Pet`.
- Records edited by hand so that stats go beyond 100. `Store.Valid` keeps every stored pet within the invariant, and the `u8` additions in decay and training are safe only under it.
- Wall-clock time. Hours are integers, so the truncation of minutes by `num_hours` is not modelled. The placeholder written for a corrupt record and the one returned share one hour.
- The probability of the walk's random draw. Only its outcome (`coin`) is modelled.
- The prompts' `flush` and `read_line` I/O errors in `adopt_pet` and `confirm_reset`. The typed lines are parameters.
- The environment changes made by the source's tests (the `HOME` variable).
- `Pets.Pet`: `level` is unbounded, so `u32` wrap-around after four billion levels is not modelled.
- `Text.ToLower`: maps ASCII letters only. Rust's full Unicode lower-casing (for example of the Kelvin sign) is not modelled.
- Caller-side immutability of `save_pet`'s argument is automatic here, because pets are values.

## Findings

| source | as written | input that shows it | evidently intended | confidence | as-written member | corrected member |
|---|---|---|---|---|---|---|
| src/commands/reset.rs:8-21 | the confirmation loop re-prompts on every line that is not y or n, and `read_line` at end of input yields an empty line each time | standard input closed (or exhausted) at the reset prompt | end of input is taken as "no" and the reset is cancelled | not executed | ResetCommand.ClosedInputNeverConfirms | ResetCommand.ConfirmReset |
