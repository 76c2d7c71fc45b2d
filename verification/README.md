# Santorini players and heuristics in Dafny

This project models the deterministic logic of a three-player Santorini
program. The program has a 5x5 board of towers (Empty, Level1, Level2,
Level3, Capped). Each player has two workers, and a turn is a move followed
by a build. The model covers:

- **the data model and game loop** (`santorini.dfy`): tower states and their
  heights, workers, statuses, `Game::new`, and one pass of `Game::main_loop`;
- **the action scorers** of the genetic player (`action_scoring.dfy`):
  PrioritizeClimbing, PrioritizeCapping, PrioritizeBlocking,
  PrioritizeNextToPlayer, and the two climbing tests;
- **the start-cell scorers** (`start_scoring.dfy`): StartNearPlayers,
  StartNearMiddle and StartAwayFromOtherWorker, with their i8 arithmetic;
- **the prediction features** (`game_prediction.dfy`): `get_total_height`,
  `get_max_height`, `squares_movable_to` and `generate_input`;
- **the start placement shared by three players** (`placement.dfy`): a fixed
  list of six candidate cells, filtered against the placements already made;
- **the three computer players** (`first_choice_player.dfy`,
  `random_choice_player.dfy`, `bruteforce.dfy`): their `get_action` and
  `get_starting_position`, plus the brute-force search's next-player rule;
- **the console player's input handling** (`console.dfy`): worker lines,
  coordinate lines, start-cell lines, and the two prompt loops, over a list
  of typed lines.

The rule engine is called by these components but not defined in the
library. That covers `is_valid`, `list_possible_actions`, `apply_action`,
`is_near_player`, `can_move_to_square`, `can_win_on_next_turn` and
`TowerStates::to_int`. Wherever a component needs the engine's answer, the
answer is a parameter: the list of legal actions, the three proximity flags,
a `(Worker, Coord) -> bool` move test, a `nat -> bool` can-win test, or a
score function. `to_int` is assumed to be the declaration-order ordinal
(Empty 0 up to Capped 4).

Other modelling choices:

- Scores are f32 in the program and are modelled as `int`. The action and
  start scorers give whole numbers; the brute-force scores are a parameter;
  scores are only compared by order and equality.
- Coordinates are u8 (`Byte`). `wrapping_sub`, `saturating_sub` and the i8
  casts are written out explicitly.
- A `shuffle` is an arbitrary permutation supplied by the caller.
- `choose` is an index, taken modulo the number of candidates.
- An index panic (`values[1]` with fewer than two free cells) is `None`.

## Model

| member | source | states |
|---|---|---|
| Santorini.Height | src/lib.rs:12-19 | Each tower state's height is its position in the declared order Empty, Level1, Level2, Level3, Capped. |
| Santorini.HeightInjective | src/lib.rs:12-19 | Two states have the same height only if they are the same state, and the heights strictly increase from Empty to Capped. |
| Santorini.NewGame | src/lib.rs:63-79 | Slot i is Playing exactly when a strategy is bound to it (Dead otherwise), every cell of the board is Empty, and the worker locations are stored as given. Every Playing slot's cells are on the board exactly when every bound slot was given on-board cells. |
| Santorini.AskedFrom | src/lib.rs:82-89 | The slots from i on that are Playing and have a strategy, each exactly once, in strictly increasing order. |
| Santorini.LoopPass | src/lib.rs:80-100 | One pass asks only slots that are Playing and have a strategy, asks every such slot, does so in increasing slot order, and hands each its own two worker cells plus the current board, locations and statuses. It requires, when anyone is asked, that every Playing slot's cells are on the board, because the board is printed first and indexes them. |
| Santorini.Rounds | src/lib.rs:80-101 | Any number of passes leaves the game as it was, since the chosen action is never applied. |
| Santorini.RoundsNeverProgress | src/lib.rs:80-101 | The returned action is dropped, so after any number of passes the game is unchanged and the queries are the first pass repeated. Like LoopPass it requires the printed cells on the board. |
| Santorini.NewGameAsksBoundSlots | src/lib.rs:63-100 | Right after `Game::new` with on-board cells for every bound slot, a pass asks exactly the slots with a strategy, each with the locations it was created with. |
| ActionScoring.ClimbingScore | src/action_score_algorithms.rs:22-25 | The score lies in -4..4. It is positive exactly when the destination is taller than the chosen worker's cell (worker One's is the first of the pair, worker Two's the second). It is 4 only when climbing onto a Capped cell. |
| ActionScoring.FirstMaxIndex | src/action_score_algorithms.rs:174-181 | The strict-greater scan from f32::MIN keeps an index whose score is maximal and strictly above every earlier score. |
| ActionScoring.ClimbScore | src/action_score_algorithms.rs:160-177 | On the "climb highest" board, every on-board action from slot 0 scores at most 1, and scores 1 exactly when it moves onto (0, 1). |
| ActionScoring.ClimbHighestTest | src/action_score_algorithms.rs:158-183 | For any list of on-board actions that contains a move onto (0, 1), the highest-scoring action the test keeps moves onto (0, 1). |
| ActionScoring.DropScore | src/action_score_algorithms.rs:186-203 | On the "drop lowest" board, every on-board action's negated score is at most 1, and is 1 exactly when the action moves onto (0, 1). |
| ActionScoring.DropLowestTest | src/action_score_algorithms.rs:184-209 | For any list of on-board actions that contains a move onto (0, 1), the lowest-scoring action the test keeps moves onto (0, 1). |
| ActionScoring.CappingScore | src/action_score_algorithms.rs:47-57 | The score is in -1..1. It is +1 exactly for a Level3 build next to a player, and 0 exactly for a non-Level3 build away from every player (so -1 in the other two cases). |
| ActionScoring.CappingDependsOnBuildCellOnly | src/action_score_algorithms.rs:36-57 | Two calls agree whenever their build cells hold the same state and the build-near flag is the same, whatever the game, player, move or other flags. |
| ActionScoring.NextToPlayerScore | src/action_score_algorithms.rs:137-147 | The score is +1 exactly when the move brings the worker next to a player it was not next to, 0 exactly when it stays next to one, and -1 exactly when it ends away from every player. |
| ActionScoring.WrappingDec | src/action_score_algorithms.rs:88-92 | u8 `wrapping_sub(1)`: 0 becomes 255, anything else its predecessor. |
| ActionScoring.BlockingCandidates | src/action_score_algorithms.rs:87-96 | The scorer lists eight candidate cells around the build cell, none of them the build cell itself. |
| ActionScoring.Inspected | src/action_score_algorithms.rs:97 | A candidate is inspected when both coordinates pass `<= 4` and it is neither of the acting player's post-move cells. |
| ActionScoring.BlockingCandidatesExact | src/action_score_algorithms.rs:87-97 | Of the eight wrapped candidates, the ones passing the `<= 4` filter are exactly the on-board king-neighbours of the build cell, so no off-board cell is indexed. |
| ActionScoring.NearMax | src/action_score_algorithms.rs:80-101 | The running maximum starts at 0. It is at least the height of every candidate passing the filter, and it is 0 or the height of one of them. |
| ActionScoring.NearMaxIsNeighbourMax | src/action_score_algorithms.rs:80-102 | The running maximum is the highest tower among the on-board king-neighbours of the build cell, other than the acting player's two post-move cells (opponents' cells included), or 0 when there are none. |
| ActionScoring.PostMoveCells | src/action_score_algorithms.rs:81-86 | The moved worker stands on the move cell, and the other worker keeps its cell. |
| ActionScoring.BlockingTable | src/action_score_algorithms.rs:105-112 | The difference table gives +2 exactly for 1, -3 exactly for 0, -2 exactly for 3, 2 and -1, and -1 exactly for every other difference. |
| ActionScoring.BlockingScore | src/action_score_algorithms.rs:79-115 | The score is 0 exactly when the build is not next to a player; otherwise it is one of -3, -2, -1, 2. |
| ActionScoring.BlockingScoreMeaning | src/action_score_algorithms.rs:79-112 | With m the neighbour maximum above, the score is the table entry for height(build) - m. It is +2 exactly when the build cell is one level above m. |
| ActionScoring.BlockingIgnoresOwnCells | src/action_score_algorithms.rs:81-101 | Changing the towers under the acting player's own post-move cells, while keeping the build cell, never changes the score. |
| StartScoring.DistanceI8 | src/start_location_score_algorithms.rs:20-25 | The i8 king-move distance lies in -128..127 and is negative only when it wrapped to -128. |
| StartScoring.PairDistance | src/start_location_score_algorithms.rs:19-25 | The two workers' distances are added in i8, so the pair's value stays in -128..127. |
| StartScoring.SumPairDistances | src/start_location_score_algorithms.rs:17-27 | The f32 sum over the committed pairs is 0 with none committed and lies between -128 and 127 times the number of pairs. |
| StartScoring.DistanceI8Exact | src/start_location_score_algorithms.rs:20-25 | For coordinates below 64 the i8 distance expression equals the Chebyshev distance. |
| StartScoring.StartNearPlayers | src/start_location_score_algorithms.rs:17-27 | With nothing placed the score is 0. |
| StartScoring.StartNearPlayersMonotone | src/start_location_score_algorithms.rs:17-27 | For small coordinates the score is never positive. Committing one more pair lowers it by exactly that pair's two Chebyshev distances to s, so it never rises. |
| StartScoring.StartNearPlayersIgnoresOther | src/start_location_score_algorithms.rs:11-27 | The other worker's start cell plays no part. |
| StartScoring.StartNearMiddle | src/start_location_score_algorithms.rs:44 | On the board the score is in -2..0, and it is 0 exactly when the larger coordinate is 2 (as written, not only at the centre). The final negation is an i8 negation and wraps like the rest. |
| StartScoring.StartNearMiddleWraps | src/start_location_score_algorithms.rs:44 | The off-board cell (130, 130) scores -128: the `as i8` cast reads it as (-126, -126), the offset -128 has absolute value -128 in i8, and negating it wraps back to -128. |
| StartScoring.StartNearMiddleIgnoresContext | src/start_location_score_algorithms.rs:38-45 | Only the candidate cell matters; the placements and the other start cell do not. |
| StartScoring.StartNearMiddleEdgeCounterexample | src/start_location_score_algorithms.rs:44 | The edge cell (0, 2), two king moves from the centre, scores 0 like the centre itself. |
| StartScoring.IntendedNearMiddle | src/start_location_score_algorithms.rs:44 | Corrected scorer: minus the Chebyshev distance to (2, 2), which is 0 only at the centre. |
| StartScoring.StartAwayFromOtherWorker | src/start_location_score_algorithms.rs:61-66 | The score is 0 when there is no other start cell, and never negative for small coordinates. |
| StartScoring.StartAwayIgnoresColumn | src/start_location_score_algorithms.rs:62 | As written, the other worker's second coordinate never affects the score. |
| StartScoring.TypoFixedAway | src/start_location_score_algorithms.rs:62 | The line with `ow.1` in place of the second `ow.0`, still an i8 value. It separates the two defects of the line. |
| StartScoring.StartAwayColumnCounterexample | src/start_location_score_algorithms.rs:62 | The column typo alone: s = (2, 2) against (2, 0) scores 0 as written, where reading `ow.1` gives 2, the Chebyshev distance. |
| StartScoring.StartAwayCounterexample | src/start_location_score_algorithms.rs:62 | As written, s = (0, 0) against (0, 4), four king moves away, scores 0. |
| StartScoring.TypoFixedAwayCounterexample | src/start_location_score_algorithms.rs:62 | The absolute value of the larger signed offset is a second defect: with the typo repaired, (0, 0) against (0, 4) still scores 0, against a distance of 4. |
| StartScoring.TypoFixedAwayDiagonal | src/start_location_score_algorithms.rs:62 | With the typo repaired, (0, 3) against (2, 2) scores 1, while the corrected scorer gives the distance 2. |
| StartScoring.IntendedAwayFromOther | src/start_location_score_algorithms.rs:61-66 | Corrected scorer: 0 without another worker. Otherwise it is the Chebyshev distance to it, which is 0 only on the same cell. |
| GamePrediction.TotalHeight | src/game_prediction.rs:10-18 | The total is at most 8, and it is 0 when either worker has a coordinate of 5 or more. |
| GamePrediction.MaxHeight | src/game_prediction.rs:20-29 | Under the same guard, the result is 0 off the board and otherwise the larger of the two workers' heights. |
| GamePrediction.MaxBoundsTotal | src/game_prediction.rs:10-29 | max <= total <= 2 * max. On the board, total = max + the smaller height. |
| GamePrediction.SaturatingDec | src/game_prediction.rs:38-40 | u8 `saturating_sub(1)`: 0 stays 0, anything else becomes its predecessor. |
| GamePrediction.AxisCandidates | src/game_prediction.rs:38-41 | Every coordinate tried on an axis is below 5. |
| GamePrediction.TestedCells | src/game_prediction.rs:38-41 | At most 9 cells are tested per worker. |
| GamePrediction.TestedCellsMembers | src/game_prediction.rs:38-41 | For an on-board worker, a cell is tested exactly when it is on the board and within one king move; the as-written list differs from the intended one only in order and repeats. |
| GamePrediction.AxisMember | src/game_prediction.rs:38-40 | For one axis, the candidates are the coordinates below 5 at most one step from the worker's. |
| GamePrediction.WorkerMovableCount | src/game_prediction.rs:34-48 | A worker contributes at most 9, and 0 when it has an off-board coordinate. |
| GamePrediction.SquaresMovableTo | src/game_prediction.rs:31-51 | The count is at most 18. When a worker is off the board, only the other worker's tests count. |
| GamePrediction.EdgeCellsCountedTwice | src/game_prediction.rs:38-48 | At (0, 0) the cell list is nine entries with (0, 0) four times, and allowing every move counts 9 where 4 cells exist; at (4, 4) it counts 4. |
| GamePrediction.IntendedTestedCells | src/game_prediction.rs:38-41 | Corrected cell list: exactly the on-board cells within one king move of the worker, each listed once. |
| GamePrediction.GenerateInput | src/game_prediction.rs:68-86 | Slots 0-2 are 1 or 0, according to whether the player and the next two seats can win next turn. Slots 3-5 are the same three players' total heights. |
| GamePrediction.GenerateInputRotates | src/game_prediction.rs:70-75 | Asking for the next seat rotates both halves of the input by one place. |
| Placement.KeepFree | src/first_choice_player.rs:21-28 | The filter never lengthens the candidate list; KeepFreeMembers and KeepFreeDistinct state which cells it keeps. |
| Placement.KeepFreeMembers | src/first_choice_player.rs:21-28 | A cell survives the filter exactly when it is a candidate and no worker of any committed pair stands on it. |
| Placement.FreeCandidates | src/first_choice_player.rs:20-28 | The free list has no repeats, holds exactly the free candidates, and lies on the board. |
| Placement.FirstTwoFree | src/first_choice_player.rs:20-29 | The result is None (the index panic) exactly when fewer than two candidates are free. Otherwise it is two distinct free on-board candidates, the earliest two in list order. |
| Placement.EarliestTwo | src/first_choice_player.rs:20-29 | The first two kept entries sit at list positions i < j, and every other position before j holds a used cell. |
| Placement.ShuffledTwoFree | src/random_choice_player.rs:22-34 | For any permutation of the free list, the result is None exactly when fewer than two are free. Otherwise it is two distinct free on-board candidates. |
| FirstChoicePlayer.GetAction | src/first_choice_player.rs:11-18 | The first listed action, or `(One, (0, 0), (0, 0))` when none is listed. |
| FirstChoicePlayer.StartingPosition | src/first_choice_player.rs:19-30 | The earliest two free candidates, distinct and on the board, or None when fewer than two are free. |
| FirstChoicePlayer.StartOnEmptyBoard | src/first_choice_player.rs:19-30 | With nothing placed the player starts on (0, 0) and (0, 1). |
| FirstChoicePlayer.ThreePlayersPlaceInTurn | src/first_choice_player.rs:19-30 | Three such players placing in turn take (0,0)/(0,1), (0,2)/(0,3) and (0,4)/(1,0), and a fourth fails. |
| RandomChoicePlayer.GetAction | src/random_choice_player.rs:12-20 | For any shuffle, the result is a listed action, or the placeholder when none is listed. |
| RandomChoicePlayer.AnyListedActionPossible | src/random_choice_player.rs:14-16 | Every listed action is the result of some shuffle. |
| RandomChoicePlayer.StartingPosition | src/random_choice_player.rs:22-34 | Two distinct free on-board cells from the candidate list, or None when fewer than two are free. |
| RandomChoicePlayer.IdentityShuffleIsFirstChoice | src/random_choice_player.rs:22-34 | The unshuffled free list gives the first-choice player's placement. |
| RandomChoicePlayer.AnyFreePairPossible | src/random_choice_player.rs:32-33 | Every ordered pair of distinct free candidates is chosen by some shuffle. |
| BruteForcePlayer.NextPlayer | src/bruteforce.rs:26-31 | The next player is another slot, one or two seats on. It is the next seat exactly when that seat is Playing. |
| BruteForcePlayer.NextPlayerIsNextPlaying | src/bruteforce.rs:26-31 | When another slot is Playing, the rule picks the first Playing slot after p. |
| BruteForcePlayer.NextPlayerCanBeDead | src/bruteforce.rs:26-31 | With both other slots Dead the turn still passes to a Dead slot (slot 2 after slot 0). |
| BruteForcePlayer.TiesMembers | src/bruteforce.rs:57-65 | An action is among the ties of m exactly when it is listed and scores m. |
| BruteForcePlayer.BestScoreMeaning | src/bruteforce.rs:57-65 | The best score bounds every listed score and is attained when the list is nonempty. |
| BruteForcePlayer.GetAction | src/bruteforce.rs:56-71 | The kept list is exactly the listed actions that tie the best score, in order. The result is the placeholder when nothing is listed, and otherwise a listed action with maximal score. |
| BruteForcePlayer.StartingPosition | src/bruteforce.rs:73-85 | Two distinct free on-board cells from the candidate list, or None when fewer than two are free. |
| Console.IsWhitespace | src/main.rs:31 | The characters `trim` cuts are Rust's `char::is_whitespace` set: space, tab through carriage return, and the Unicode White_Space characters from U+0085 up. |
| Console.Trim | src/main.rs:31 | The trimmed line is a slice with only whitespace cut from either side, and it neither starts nor ends with whitespace. It is empty exactly when the line is all whitespace. |
| Console.TrimLower | src/main.rs:31 | Trimming and lower-casing commute. |
| Console.ParseWorker | src/main.rs:31-41 | Worker One exactly for "o", "one" or "1", and worker Two exactly for "t", "two" or "2", after trimming and lower-casing. A blank line is refused. |
| Console.WorkerNameRoundTrip | src/main.rs:31-41 | The board's letter for a worker, padded with any whitespace, reads back as that worker. |
| Console.ParseWorkerCaseBlind | src/main.rs:31 | Lines that agree once lower-cased name the same worker. |
| Console.ParseWorkerUpper | src/main.rs:31 | Upper-casing a line does not change the worker it names. |
| Console.ParseU8 | src/main.rs:55-56 | An accepted token is nonempty and not a bare "+". Unless it starts with '+', it is all digits. |
| Console.ParseU8RoundTrip | src/main.rs:55-56 | Every byte, in decimal with or without a leading '+', parses back to itself. |
| Console.ParseU8Rejects | src/main.rs:55-56 | "-1", "-0", "256", "" and "+" are refused. |
| Console.Tokens | src/main.rs:51 | The tokens are nonempty and free of whitespace. There are none exactly when the line is all whitespace. |
| Console.TwoTokens | src/main.rs:51 | Two words with whitespace around and between them are exactly the line's two tokens. |
| Console.ParseCoordinates | src/main.rs:51-68 | A line is accepted exactly when it has two tokens that both parse as u8. The result is (second, first). |
| Console.CoordinatesRoundTrip | src/main.rs:51-68 | The line "a b", with any whitespace around and between, reads as (b, a). |
| Console.CoordinatesUnchecked | src/main.rs:63-68 | Move and build lines are not range-checked: "9 200" is accepted as the off-board (200, 9). |
| Console.CoordinateLine | src/main.rs:51-67 | The line "y x" reads as the cell (x, y). |
| Console.ParseStartCell | src/main.rs:113-136 | A start line is accepted exactly when it parses, lies on the board, and is used by no committed pair. |
| Console.ParseStartPair | src/main.rs:105-170 | Both start cells are on the board and free. The pair is accepted exactly when each line is accepted on its own. |
| Console.SameCellTwice | src/main.rs:138-170 | "2 2" typed for both workers gives both the cell (2, 2). |
| Console.SameLineTwice | src/main.rs:138-170 | Any line accepted for the first worker is accepted again for the second, giving a shared cell. |
| Console.UsedCellRefused | src/main.rs:125-133 | A cell used by either worker of a committed pair is refused. |
| Console.ReadAction | src/main.rs:23-97 | A returned action was read from a worker line, a move line and a build line, which are the last three lines consumed. |
| Console.ReadActionAccepts | src/main.rs:23-97 | Three acceptable lines in a row give their action after exactly three lines. |
| Console.ReadActionWorkerRefused | src/main.rs:38-41 | A refused worker line is discarded and reading restarts on the next line, with the same result and one more line consumed. |
| Console.ReadActionMoveRefused | src/main.rs:63-65 | An accepted worker line followed by a refused move line: both are discarded and reading restarts from the third line, with two more lines consumed. |
| Console.ReadActionBuildRefused | src/main.rs:89-91 | Accepted worker and move lines followed by a refused build line: all three are discarded and reading restarts from the fourth line, with three more lines consumed. |
| Console.ReadActionFirstTry | src/main.rs:23-96 | Typing the worker letter and then "y x" lines for the move and the build gives that action after three lines. |
| Console.ReadStart | src/main.rs:105-171 | A returned pair was read from the last two lines consumed, and both were accepted as start cells. |
| Console.ReadStartRestarts | src/main.rs:125-137 | A refused first line is skipped and reading restarts on the next line, with the same result and one more line consumed. |
| Console.ReadStartSecondRefused | src/main.rs:157-165 | When the first line is accepted and the second refused, both are discarded and reading restarts from the third line, with two more lines consumed. |

## Left out

- The rule engine (`is_valid`, `list_possible_actions`, `apply_action`, `is_near_player`, `can_move_to_square`, `can_win_on_next_turn`, `to_int`) is not defined in the library. Its answers are parameters, and `to_int` is assumed to be the declaration ordinal.
- `Game::main_loop` as the library writes it applies no action and never ends. The model gives finitely many passes. The history-recording loop other files call is not part of the library.
- The `players` field of `Game` in src/lib.rs is a stale draft; the model's `Game` holds board, locations and statuses, as every caller builds it.
- The board rendering (`print_board`, the `ToString` impls) and every prompt, `println!` and stdin read are left out. The console loops take the typed lines as a list and return None when the lines run out, where the program would keep prompting.
- `main()`, src/nn.rs, src/genetic_ai.rs, and `GamePrediction::predict`/`learn` are left out: these are floating-point network code and training loops.
- bruteforce `evaluate_action`'s f32 negamax value and its depth-0 height heuristic are left out. The search value is a score parameter, and only the next-player rule is modelled.
- benches/benchmarks.rs only measures running time.
- f32 scores are modelled as whole numbers. The action and start scorers produce whole numbers. The brute-force depth-0 value (src/bruteforce.rs:47-51) is a multiple of 0.1, but the brute-force scores are a parameter here (any value at least `f32::MIN`), and scores are only compared by order and equality, so `int` loses nothing.
- Randomness: a shuffle is an arbitrary permutation; `choose` is an index taken modulo the number of ties.
- StartScoring: i8 casts, subtraction, addition, `abs` and negation wrap as in a release build; a debug build would panic on the overflowing cases instead.
- Console.LowerChar: lower-cases the ASCII letters only, where Rust's `to_lowercase` is Unicode-wide. No non-ASCII letter lower-cases into one of the accepted words, so which lines are accepted does not change.
- Console.ParseU8: its contract gives only necessary conditions for acceptance. ParseU8RoundTrip and ParseU8Rejects state which tokens are accepted and refused.
- Console.ReadAction: its own contract states only that a result is read from its last three lines. A refused line throws away that line and the rest of the current attempt, so the result is not simply the first acceptable triple in the input. ReadActionAccepts, ReadActionWorkerRefused, ReadActionMoveRefused and ReadActionBuildRefused pin down every step.
- Console.ReadStart: its own contract states only that a result is read from its last two lines. A refused second line throws away the accepted first line too. ReadStartRestarts and ReadStartSecondRefused pin down both restarts.
- Santorini.LoopPass: a pass that asks anyone prints the board first, and that indexes both cells of every Playing slot (src/lib.rs:90, 112-116), which panics when one is off the board. The model requires those cells on the board (PassCanPrint) instead of modelling the panic. Rounds, RoundsNeverProgress and NewGameAsksBoundSlots carry the same requirement.
- GamePrediction.AxisCandidates: states only the bound. The exact lists at the edges are shown by AxisAtZero, AxisAtFour and EdgeCellsCountedTwice.
- GamePrediction.TestedCells: states only the length bound. The exact lists at the corners are shown by EdgeCellsCountedTwice.
- Panics: an off-board index in a scorer is a precondition (OnBoard). The start placers' `values[1]` panic is None.

## Findings

| source | as written | input that shows it | evidently intended | confidence | as-written member | corrected member |
|---|---|---|---|---|---|---|
| src/start_location_score_algorithms.rs:44 | `-(s.0 - 2).max(s.1 - 2).abs()` takes the absolute value of the larger signed offset | s = (0, 2) scores 0, the same as the centre (2, 2) | minus the Chebyshev distance to the centre | medium, not executed | StartScoring.StartNearMiddleEdgeCounterexample | StartScoring.IntendedNearMiddle |
| src/start_location_score_algorithms.rs:62 | `(s.0 - ow.0).max(s.1 - ow.0)` uses `ow.0` for both axes | s = (2, 2), other worker at (2, 0): score 0; with `ow.1` it is 2 | the Chebyshev distance to the other worker | high, not executed | StartScoring.StartAwayColumnCounterexample | StartScoring.IntendedAwayFromOther |
| src/start_location_score_algorithms.rs:62 | `.abs()` is taken of the larger signed offset, as at line 44, not of each offset | s = (0, 0), other worker at (0, 4): score 0 even with `ow.1`; s = (0, 3), other at (2, 2): 1 with `ow.1`, distance 2 | the Chebyshev distance to the other worker | medium, not executed | StartScoring.TypoFixedAwayCounterexample | StartScoring.IntendedAwayFromOther |
| src/game_prediction.rs:38-40 | `saturating_sub(1)` repeats 0 in the candidate list, so edge cells are tested more than once | worker at (0, 0), every move allowed: count 9, cells within reach 4. Latent: the only callers (src/game_prediction.rs:80-82) are inside a comment, so the count never reaches a prediction | each on-board cell within one step tested once | medium, not executed | GamePrediction.EdgeCellsCountedTwice | GamePrediction.IntendedTestedCells |
