# 100-to-1 game engine: a Dafny model of the round and scoring state machine

This project models the backend core of the "100-to-1" quiz-show scoreboard. That core is `GameService`, which owns the single `GameState` object and the question bank. Every operator command updates the game state in place:

- creating and renaming the two teams;
- setting the round multiplier and mode;
- starting a game or a round, moving to the next round or question;
- revealing answers with or without points;
- awarding the round points to a team;
- counting errors and correcting scores.

Invalid input is ignored rather than rejected. An unknown team id, an answer index outside the current question, an already revealed answer, the error cap of 3 and the round cap of 5 all leave the state unchanged.

Files, one module each:

- `optional.dfy`: `Option`, which stands for a nullable reference (`Question?`).
- `game_models.dfy` (module `GameModels`): the data model of `Models/GameModels.cs`.
  - `Team` and `GameState` are classes whose fields the service updates in place. Their constructors give the source's default values.
  - `Answer`, `Question` and `GameMode` are datatypes, because the core never changes a question after loading it.
  - `TeamRecord` and `Snapshot` are the value of a team and of the whole state. `GameState.View()` gives that value.
- `question_bank.dfy` (module `QuestionBank`): `LoadQuestions` and `GetDefaultQuestions`.
  - The configured questions are projected into the game's own values, losing nothing.
  - An absent or empty configuration falls back to the two built-in questions.
- `round_engine.dfy` (module `RoundEngine`): one function per command, from the old state value to the new one. Each function's contract says what the command promises and that it keeps the game invariant `Inv`. `Inv` requires:
  - exactly the teams 1 and 2;
  - errors in 0..3;
  - the round in 1..5;
  - no index revealed twice.

  The module also holds lemmas that relate several commands: reveal idempotence, first reveal wins, add/remove error, awarding twice.
- `commands.dfy` (module `Commands`): the command set as a datatype, and `Run` over a sequence of commands. It proves:
  - the invariant holds in every reachable state;
  - the round points always equal the sum of the points of the answers revealed with points since the last reset;
  - scores and round points stay non-negative when every multiplier is non-negative and the answer points are non-negative;
  - the end-to-end session: new game, reveal, award, next round.
- `game_service.dfy` (module `GameServices`): the class `GameService` with the source's command methods. Each is written imperatively: field updates and `foreach` loops over the teams as `while` loops. The `FirstOrDefault` team lookup is a function over the team objects. Each method is proved to leave `gameState.View()` equal to the matching `RoundEngine` function applied to the old view, and to keep the service invariant `Valid()`.

Randomness: `LoadRandomQuestion` picks any index of the bank (a nondeterministic choice). The methods that load a question therefore promise "the new state is the `RoundEngine` result for some question of the bank". The `RoundEngine` functions take the drawn question as a parameter.

Behaviour of the code worth noting:

- `RevealAnswer` adds the answer's raw points in both modes. There is no rare-answer point curve and no per-reveal "counts" flag; `RevealAnswerWithoutPoints` is the only way to reveal without points. `CurrentMode` is only stored.
- `RevealedAnswers` is a list of indices, not a map to flags.
- `SetRoundSettings` stores any multiplier, including 0 and negative ones. Non-negative scores are proved under non-negative multipliers (`Commands.Admissible`); a negative multiplier can make a score negative (`Commands.NegativeMultiplierMakesNegativeScore`).
- `StartRound` does not reset `RoundPoints`.
- `NextQuestion` does not clear `RevealedAnswers`. A revealed index is in range for the question current when it was revealed, but not necessarily for a later question (`RoundEngine.NextQuestionMayStrandReveals`).
- The round never leaves 1..5. The lower bound is 1 because no command sets the round below 1.

## Model

| member | source | states |
|---|---|---|
| GameModels.Team.constructor | Backend/Game100To1.Backend/Models/GameModels.cs:16-22 | a fresh team has id 0, an empty name, score 0 and no errors |
| GameModels.GameState.constructor | Backend/Game100To1.Backend/Models/GameModels.cs:3-14 | a fresh state has no teams, round 1, multiplier 1, no question, both flags false, nothing revealed, Normal mode and 0 round points |
| GameModels.GameModeHasTwoValues | Backend/Game100To1.Backend/Models/GameModels.cs:36-40 | the enum declares exactly these two members, Normal and RareAnswer, and they differ |
| QuestionBank.DefaultQuestions | Backend/Game100To1.Backend/Services/GameService.cs:215-243 | the built-in bank has 2 questions of 5 answers each, with strictly descending, non-negative points |
| QuestionBank.ToQuestion | Backend/Game100To1.Backend/Services/GameService.cs:182-190 | a configured question becomes a Question with the same text and, position by position, the same answer texts and points |
| QuestionBank.ToQuestionLossless | Backend/Game100To1.Backend/Services/GameService.cs:182-190 | projecting a configured question keeps its text and every answer's text and points (the inverse projection gives it back) |
| QuestionBank.LoadQuestions | Backend/Game100To1.Backend/Services/GameService.cs:176-196 | the bank is never empty; a non-empty configuration is copied one question per entry without loss; an absent or empty one gives the default bank |
| QuestionBank.LoadedPointsNonNegative | Backend/Game100To1.Backend/Services/GameService.cs:180-196 | configured points that are all non-negative give a bank without negative points (the default bank has none) |
| RoundEngine.FindTeam | Backend/Game100To1.Backend/Services/GameService.cs:137 | finds the first team with the id, and finds nothing exactly when no team has it |
| RoundEngine.FindTeamAt | Backend/Game100To1.Backend/Services/GameService.cs:137 | a position holding the id with no earlier one holding it is the position found |
| RoundEngine.FindTeamUnderInv | Backend/Game100To1.Backend/Services/GameService.cs:24-31 | with the two initialized teams, id 1 is found at position 0, id 2 at position 1, any other id nowhere |
| RoundEngine.ResetTeam | Backend/Game100To1.Backend/Services/GameService.cs:55-59 | one team after a reset loop body: id and name kept, errors 0, score 0 when scores are cleared and kept otherwise |
| RoundEngine.ResetTeams | Backend/Game100To1.Backend/Services/GameService.cs:55-96 | all teams after one of the reset loops (a new game at 55-59, a new round at 70-73, the next round at 93-96): same number of teams, each reset in place |
| RoundEngine.InitializeTeams | Backend/Game100To1.Backend/Services/GameService.cs:24-31 | the teams become team 1 and team 2 with default names, no score and no errors; nothing else changes; the invariant is established |
| RoundEngine.SetTeamNames | Backend/Game100To1.Backend/Services/GameService.cs:33-37 | the first and second team get the new names by position; nothing else changes |
| RoundEngine.SetRoundSettings | Backend/Game100To1.Backend/Services/GameService.cs:39-43 | multiplier and mode are stored as given, unvalidated; nothing else changes |
| RoundEngine.StartNewGame | Backend/Game100To1.Backend/Services/GameService.cs:45-62 | round 1, both flags set, nothing revealed, Normal mode, multiplier 1, 0 round points, every score and error 0, the drawn question current; the invariant is kept |
| RoundEngine.StartRound | Backend/Game100To1.Backend/Services/GameService.cs:64-77 | only the round flag is set, the reveals cleared and the errors zeroed; round, scores, multiplier, mode and round points are kept |
| RoundEngine.NextRound | Backend/Game100To1.Backend/Services/GameService.cs:79-100 | below round 5: round + 1, round flag set, nothing revealed, 0 round points, errors 0, scores kept, new question; at round 5 nothing changes, so the round never passes 5 |
| RoundEngine.NextQuestion | Backend/Game100To1.Backend/Services/GameService.cs:102-106 | the round flag is cleared and the drawn question becomes current; the reveals are kept |
| RoundEngine.RevealAnswer | Backend/Game100To1.Backend/Services/GameService.cs:108-121 | an in-range, unrevealed index is appended and its points added to the round points; any other index changes nothing; new reveals are in range; the invariant (no duplicates) is kept |
| RoundEngine.RevealAnswerWithoutPoints | Backend/Game100To1.Backend/Services/GameService.cs:123-133 | the same reveal rule, with the round points and everything else untouched |
| RoundEngine.AwardRoundPoints | Backend/Game100To1.Backend/Services/GameService.cs:135-147 | a known team gains round points times multiplier, the round points become 0, the other team is untouched; an unknown id changes nothing, round points included |
| RoundEngine.AddError | Backend/Game100To1.Backend/Services/GameService.cs:149-156 | only the named team's errors change, by +1 exactly when it exists and has fewer than 3; errors stay within 0..3 |
| RoundEngine.RemoveError | Backend/Game100To1.Backend/Services/GameService.cs:158-165 | only the named team's errors change, by -1 exactly when it exists and has more than 0; errors stay within 0..3 |
| RoundEngine.SetTeamScore | Backend/Game100To1.Backend/Services/GameService.cs:167-174 | a known team's score becomes max(0, value), never negative; other teams and fields untouched; an unknown id changes nothing |
| RoundEngine.AddErrorChangesIff | Backend/Game100To1.Backend/Services/GameService.cs:149-156 | AddError changes the state if and only if the team exists and is below the cap |
| RoundEngine.RemoveErrorChangesIff | Backend/Game100To1.Backend/Services/GameService.cs:158-165 | RemoveError changes the state if and only if the team exists and has an error |
| RoundEngine.RemoveErrorUndoesAddError | Backend/Game100To1.Backend/Services/GameService.cs:149-165 | below the cap, RemoveError after AddError restores the state |
| RoundEngine.RevealAnswerIdempotent | Backend/Game100To1.Backend/Services/GameService.cs:108-121 | revealing an index twice equals revealing it once |
| RoundEngine.FirstRevealWins | Backend/Game100To1.Backend/Services/GameService.cs:108-133 | re-revealing an index with or without points after either kind of reveal changes nothing |
| RoundEngine.RevealWithoutPointsAgrees | Backend/Game100To1.Backend/Services/GameService.cs:123-133 | RevealAnswerWithoutPoints is RevealAnswer with the round points left as they were |
| RoundEngine.RevealAnswerIgnoresMode | Backend/Game100To1.Backend/Services/GameService.cs:116-118 | the mode has no influence on what a reveal adds |
| RoundEngine.NextRoundStopsAtLastRound | Backend/Game100To1.Backend/Services/GameService.cs:81 | at round 5, NextRound leaves the state as it is, however often it is called |
| RoundEngine.SecondAwardGivesNothing | Backend/Game100To1.Backend/Services/GameService.cs:141-145 | after an award, a second award changes no score |
| RoundEngine.RevealKeepsRevealsInRange | Backend/Game100To1.Backend/Services/GameService.cs:110-114 | reveals never add an index outside the current question |
| RoundEngine.NextQuestionMayStrandReveals | Backend/Game100To1.Backend/Services/GameService.cs:102-106 | from the service's first state, a new game, a reveal of answer 1 and NextQuestion to a one-answer question give a state that meets the invariant yet holds a reveal outside the current question |
| RoundEngine.RoundPointsExample | Backend/Game100To1.Backend/Services/GameService.cs:108-133 | with answers worth 30,25,20,15,10, revealing 0 and 2 gives 50, and revealing 1 without points keeps 50 |
| RoundEngine.AwardExample | Backend/Game100To1.Backend/Services/GameService.cs:135-147 | 50 round points at multiplier 2 add 100 to team 1 and reset the round points |
| Commands.Apply | Backend/Game100To1.Backend/Services/GameService.cs:24-174 | every command keeps the invariant |
| Commands.Run | Backend/Game100To1.Backend/Services/GameService.cs:24-174 | every state reachable by commands has two teams 1 and 2, errors in 0..3, round in 1..5 and no duplicate reveal |
| Commands.ApplyRoundPoints | Backend/Game100To1.Backend/Services/GameService.cs:45-147 | one command sets the round points to 0 when it resets them, adds the points of an answer newly revealed with points, and otherwise keeps them |
| Commands.RoundPointsAreTally | Backend/Game100To1.Backend/Services/GameService.cs:108-147 | starting from 0, the round points equal the sum of the points of answers revealed with points since the last reset |
| Commands.ApplyKeepsSound | Backend/Game100To1.Backend/Services/GameService.cs:39-174 | with a non-negative multiplier and questions of a bank without negative points, one command keeps scores and round points non-negative |
| Commands.RunKeepsSound | Backend/Game100To1.Backend/Services/GameService.cs:39-174 | under such inputs no reachable score or round-points tally is negative |
| Commands.NegativeMultiplierMakesNegativeScore | Backend/Game100To1.Backend/Services/GameService.cs:39-43 | the unvalidated multiplier lets a score go negative: multiplier -1 on 10 round points gives -10 |
| Commands.EndToEndScenario | Backend/Game100To1.Backend/Services/GameService.cs:45-100 | new game, reveal 0, award to team 1, next round, applied one after the other: round 2, team 1 holds answer 0's points, team 2 none, nothing revealed, 0 round points, the new question current |
| Commands.RoundNeverDecreases | Backend/Game100To1.Backend/Services/GameService.cs:45-100 | every command other than StartNewGame leaves the round where it was or moves it forward |
| Commands.InitialStateIsSound | Backend/Game100To1.Backend/Services/GameService.cs:13-31 | the service's first state meets the invariant and has no negative score |
| GameServices.GameService.constructor | Backend/Game100To1.Backend/Services/GameService.cs:13-18 | loads the bank from the configuration, creates the two teams, and establishes Valid |
| GameServices.GameService.InitializeTeams | Backend/Game100To1.Backend/Services/GameService.cs:24-31 | two fresh team objects replace the teams, as RoundEngine.InitializeTeams says |
| GameServices.GameService.SetTeamNames | Backend/Game100To1.Backend/Services/GameService.cs:33-37 | renames the two team objects in place, as RoundEngine.SetTeamNames says |
| GameServices.GameService.SetRoundSettings | Backend/Game100To1.Backend/Services/GameService.cs:39-43 | new state is RoundEngine.SetRoundSettings of the old |
| GameServices.GameService.StartNewGame | Backend/Game100To1.Backend/Services/GameService.cs:45-62 | new state is RoundEngine.StartNewGame of the old, for some question of the bank; Valid kept |
| GameServices.GameService.StartRound | Backend/Game100To1.Backend/Services/GameService.cs:64-77 | new state is RoundEngine.StartRound of the old; Valid kept |
| GameServices.GameService.NextRound | Backend/Game100To1.Backend/Services/GameService.cs:79-100 | new state is RoundEngine.NextRound of the old, for some question of the bank; Valid kept |
| GameServices.GameService.NextQuestion | Backend/Game100To1.Backend/Services/GameService.cs:102-106 | new state is RoundEngine.NextQuestion of the old, for some question of the bank |
| GameServices.GameService.RevealAnswer | Backend/Game100To1.Backend/Services/GameService.cs:108-121 | new state is RoundEngine.RevealAnswer of the old; Valid kept |
| GameServices.GameService.RevealAnswerWithoutPoints | Backend/Game100To1.Backend/Services/GameService.cs:123-133 | new state is RoundEngine.RevealAnswerWithoutPoints of the old |
| GameServices.GameService.AwardRoundPoints | Backend/Game100To1.Backend/Services/GameService.cs:135-147 | new state is RoundEngine.AwardRoundPoints of the old |
| GameServices.GameService.AddError | Backend/Game100To1.Backend/Services/GameService.cs:149-156 | new state is RoundEngine.AddError of the old |
| GameServices.GameService.RemoveError | Backend/Game100To1.Backend/Services/GameService.cs:158-165 | new state is RoundEngine.RemoveError of the old |
| GameServices.GameService.SetTeamScore | Backend/Game100To1.Backend/Services/GameService.cs:167-174 | new state is RoundEngine.SetTeamScore of the old |
| GameServices.GameService.FindTeam | Backend/Game100To1.Backend/Services/GameService.cs:137 | the lookup gives a team object with the id, with no earlier team holding it, or null exactly when no team has the id |
| GameServices.GameService.StoreTeam | Backend/Game100To1.Backend/Services/GameService.cs:142-172 | writing one team object's score and errors changes that team's record and no other |
| GameServices.GameService.ResetTeams | Backend/Game100To1.Backend/Services/GameService.cs:55-96 | the loop over the teams zeroes every team's errors, and its score when asked, changing nothing else |
| GameServices.GameService.LoadRandomQuestion | Backend/Game100To1.Backend/Services/GameService.cs:206-213 | with a non-empty bank the current question becomes one of the bank; nothing else changes |

## Left out

- The exception path of `LoadQuestions` (a malformed configuration caught and logged, then the default bank): logging is I/O, and the fallback it ends in is the one modelled.
- `System.Random`: `LoadRandomQuestion` is modelled as a choice of any index of the bank. Uniformity is a claim about probabilities, which the model does not state.
- The C# `int` width: scores, round points and their product with the multiplier are unbounded integers. The model does not capture 32-bit wrap-around, which the source would show on overflow.
- `SetTeamNames` with fewer than two teams throws in the source. The model requires two teams, which the service always has after construction.
- `GetGameState` and `GetAllQuestions` only hand out references.
- Thread safety of the singleton service: the model is sequential.
- The controller, the SignalR hub and its broadcast of snapshots to viewers, program wiring, the request/response records and the frontend: these are transport and UI around the core. No snapshot projection for RareAnswer mode exists in the core, so none is modelled.
- The rare-answer point curve and the per-reveal "counts" flag: the core does not have them.
- SetRoundSettings: stores the mode only as one of the two declared members. A C# enum is backed by an int, so the source can store a mode value outside Normal and RareAnswer when a client sends one; the model cannot represent such a value, and `GameModeHasTwoValues` is a fact about the declaration, not about every stored mode. No command of the core reads the mode, so no other behaviour depends on it.
