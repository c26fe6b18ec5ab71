# 2048 move-choosing agents, modelled in Dafny

The repository holds two agents for the sliding-tile game 2048. Each picks a
move for the current board within a wall-clock budget by iterative deepening.
At depth 1, 2, ... it searches the game tree and, after every depth it
finishes in time, passes that depth's best move to `setMove`.

- `MyAgent.py` is an **expectimax** agent.
  - A max layer (`maxPlayer`) takes the legal moves in the fixed priority order L, U, R, D.
  - A chance layer (`expectimax`) takes the plain mean over every possible tile placement.
  - The leaves are scored by `evaluate`. It adds up a snake-shaped positional
    weighting, an empty-cell bonus, a count of monotonic rows and columns, and a
    bonus when the top-left tile is the largest.
- `myagent.py` is a **minimax** agent.
  - `maxPlayer` takes the maximum over the moves, starting from -10000.
  - `minPlayer` takes the minimum over the placements, starting from 1e6.
  - Finished games are scored by the game score.
  - The other leaves are scored by `heuristic`. It adds the score, 5000 per
    empty cell, and 100000 when the largest tile sits in a corner.

## Module layout

| file | module | content |
|---|---|---|
| `game.dfy` | `Game` | The game state is an abstract type `S`. Its queries are `actions`, `move`, `possibleTiles`, `addTile`, `gameOver`, `getScore` and `getTile`, bundled in the record `Game<S>`. |
| `clock.dfy` | `Clock` | `timeRemaining()`, modelled as the number of polls that will still answer yes. |
| `board.dfy` | `Board` | The 4x4 grid read through `getTile`, its flattening, the count of empty cells, and the largest tile. |
| `extrema.dfy` | `Extrema` | Left folds for the maximum, the minimum, the sum, the mean and the first maximiser, with their specifications. |
| `search_state.dfy` | `SearchState` | The agent state both searches thread: the clock, the five counters and the decisions committed so far. |
| `expectimax_agent.dfy` | `ExpectimaxAgent` | `MyAgent.py`. |
| `minimax_agent.dfy` | `MinimaxAgent` | `myagent.py`. |

Each agent module has three layers:

1. **Pure functions** for the source's pure code: `PrioritizedMoves`,
   `Evaluate`/`EvaluateGrid` and `IsMonotonic`, or `MoveOrder` and
   `Heuristic`/`HeuristicGrid`.
   - `MinimaxAgent.MoveOrder` is the state's own `actions` list, exactly as in the source.
2. **Two specifications of the search.**
   - `MaxValue`, `ChanceValue` and `MinValue` are the values that a search which is never cut off computes.
   - The `...Run` and `...Loop` functions follow the source's own steps. They
     thread the clock and the counters, and return `None` when a time check fails.
   - `DepthLoop`, `DeepeningLoop` and `FindMoveRun` do the same for `findMove`.
3. **The class `Player`.** Its fields are the clock, the counters and the
   committed decisions. Its methods are the source's methods, and each is proved
   to produce exactly the outcome and new state its run function gives.

Lemmas connect the layers:

- **Settles:** each search changes only what it should. It is cut off only once time is up.
- **Sound:** a search that is not cut off returns the value.
- **Commits:** the decisions committed at depth 1, 2, ... are, in order, the
  first maximisers of those depths' values. In the minimax agent a decision is
  `None` when no value beats -10000.

Notable behaviours of the code, which the model keeps:

- The expectimax chance layer is a uniform mean over the placements that
  `possibleTiles` lists. It does not weight 2-tiles and 4-tiles by their
  spawn probabilities.
- The minimax agent's chance layer is a minimum over the placements, capped
  at 1000000, not an expectation.
- The minimax agent's `findMove` has no guard for a state without legal moves.
  It deepens until time is up and commits `None` at every completed depth.
  `MinimaxAgent.FindMoveCommits` states this.
  The expectimax agent returns at once without committing anything.
- The expectimax agent prepares `bestMove = actions[0]` (MyAgent.py:13), but
  when depth 1 is cut off it returns before any `setMove` (MyAgent.py:22-26):
  the decision then commits nothing, and the prepared move is never used.
  `ExpectimaxAgent.FindMoveCommits` states this, since it admits zero new
  commits. The minimax agent likewise commits nothing when depth 1 is cut off.
- Every poll of the clock that answers no is final for the decision: each
  completed decision with a legal move runs until the clock is used up
  (`FindMoveSettles`), so a later decision needs a new deadline
  (`Player.StartDecision`).

## Model

| member | source | states |
|---|---|---|
| ExpectimaxAgent.KeepMembers | MyAgent.py:108 | A move survives the filter exactly when it is in the order and is legal |
| ExpectimaxAgent.KeepOrdered | MyAgent.py:107-108 | Filtering a sequence that is in priority order leaves it in priority order |
| ExpectimaxAgent.PrioritizedMovesSpec | MyAgent.py:106-108 | The prioritized moves are exactly the legal moves, each at most once, in the order L, U, R, D |
| ExpectimaxAgent.NonIncreasingSorted | MyAgent.py:96-97 | All adjacent pairs non-increasing holds exactly when every element is at least every later one |
| ExpectimaxAgent.NonDecreasingSorted | MyAgent.py:96-97 | All adjacent pairs non-decreasing holds exactly when every element is at most every later one |
| ExpectimaxAgent.MonotonicIsSorted | MyAgent.py:96-97 | `is_monotonic` holds exactly when the line is sorted one way or the other |
| ExpectimaxAgent.MonoCount | MyAgent.py:99 | The monotonic-line count is at most 8 |
| ExpectimaxAgent.MonoCountSorted | MyAgent.py:99 | The count is the number of sorted rows plus the number of sorted columns |
| ExpectimaxAgent.EvaluateParts | MyAgent.py:81-104 | The evaluation is the positional weighting, plus 5000 per empty cell, plus 20000 per monotonic line (0 to 8 of them), plus 15000 exactly when the top-left tile is at least every tile; it is never negative |
| ExpectimaxAgent.MaxValueSpec | MyAgent.py:41-55 | At an expanded max node the value is at least every move's chance value and equals one of them |
| ExpectimaxAgent.ChanceValueBetween | MyAgent.py:64-79 | At an expanded chance node the value, a mean, lies between any bounds of the placements' values |
| ExpectimaxAgent.MaxPlayerRun | MyAgent.py:34-55 | Running `maxPlayer` never moves the clock backward |
| ExpectimaxAgent.MaxPlayerLoop | MyAgent.py:47-55 | Running the move loop of `maxPlayer` never moves the clock backward |
| ExpectimaxAgent.ExpectimaxRun | MyAgent.py:57-79 | Running `expectimax` never moves the clock backward |
| ExpectimaxAgent.ExpectimaxLoop | MyAgent.py:70-79 | Running the placement loop of `expectimax` never moves the clock backward |
| ExpectimaxAgent.DepthLoop | MyAgent.py:20-29 | One depth iteration never moves the clock backward |
| ExpectimaxAgent.MaxPlayerRunSettles | MyAgent.py:34-55 | `maxPlayer` uses up time and counts nodes, children in step with nodes, and parents, and nothing else; it returns `None` only once time is up |
| ExpectimaxAgent.MaxPlayerLoopSettles | MyAgent.py:47-55 | Likewise for the move loop of `maxPlayer` |
| ExpectimaxAgent.ExpectimaxRunSettles | MyAgent.py:57-79 | Likewise for `expectimax` |
| ExpectimaxAgent.ExpectimaxLoopSettles | MyAgent.py:70-79 | Likewise for the placement loop of `expectimax` |
| ExpectimaxAgent.DepthLoopSettles | MyAgent.py:20-29 | A depth iteration changes only the clock and the node counters; it is aborted only once time is up; it completes with a legal move |
| ExpectimaxAgent.DeepeningLoopSettles | MyAgent.py:16-32 | The deepening loop ends only once time is up; it keeps the decision counter and the earlier commits, commits only legal moves, and starts at most one depth iteration more than it completes |
| ExpectimaxAgent.FindMoveSettles | MyAgent.py:8-32 | `findMove` counts the decision; with no legal move it changes nothing else and commits nothing; otherwise it returns only once time is up and commits only legal moves after the earlier commits |
| ExpectimaxAgent.MaxPlayerRunSound | MyAgent.py:34-55 | A `maxPlayer` call that is not cut off returns the max value: the evaluation on game over, at depth 0 or with no move, and otherwise the largest chance value of a move |
| ExpectimaxAgent.MaxPlayerLoopSound | MyAgent.py:46-55 | The running `max(best, value)` ends as the maximum of the move values |
| ExpectimaxAgent.ExpectimaxRunSound | MyAgent.py:57-79 | An `expectimax` call that is not cut off returns the chance value: the evaluation on game over, at depth 0 or with no placement, and otherwise the mean of the placements' max values |
| ExpectimaxAgent.ExpectimaxLoopSound | MyAgent.py:65-79 | The running total ends as the sum of the placement values, so the result is their mean |
| ExpectimaxAgent.ScanStep | MyAgent.py:27-29 | A score above the best so far becomes the first maximum of the longer prefix; any other score leaves the maximum and its first position unchanged |
| ExpectimaxAgent.DepthLoopStep | MyAgent.py:27-29 | One completed step of a depth iteration keeps the running best equal to the first maximum of the values seen so far and unfolds the loop by one index |
| ExpectimaxAgent.DepthLoopChoice | MyAgent.py:18-29 | A completed depth iteration chooses the first move, in priority order, with the largest chance value |
| ExpectimaxAgent.Choices | MyAgent.py:16-32 | One choice per completed depth |
| ExpectimaxAgent.ChoicesAt | MyAgent.py:31-32 | The i-th choice belongs to depth iteration `depth + i` |
| ExpectimaxAgent.DeepeningLoopCommits | MyAgent.py:16-32 | The loop appends exactly the choices of the depths it completes, one per depth, with the depth rising by one each time |
| ExpectimaxAgent.FindMoveCommits | MyAgent.py:8-32 | With no legal move nothing is committed; otherwise the i-th new commit (from 0) is `Choice` at child depth i: the first move, in priority order, whose chance value at depth i is the largest, i.e. the choice of depth iteration i+1 |
| ExpectimaxAgent.Player.constructor | MyAgent.py:4-6 | All five counters start at zero, nothing is committed, and the leaf evaluation is `Evaluate` |
| ExpectimaxAgent.Player.TimeRemaining | MyAgent.py:16 | A poll answers whether time is left and uses up one answer |
| ExpectimaxAgent.Player.SetMove | MyAgent.py:31 | `setMove` appends the move to the commits |
| ExpectimaxAgent.Player.StartDecision | MyAgent.py:4-5 | A new per-decision budget of `timeLimit`, given as the number of polls that answer yes; only the clock changes, and the counters and commits carry over |
| ExpectimaxAgent.Player.FindMove | MyAgent.py:8-32 | The new state is exactly `FindMoveRun` of the old state |
| ExpectimaxAgent.Player.SearchDepth | MyAgent.py:18-30 | The for-loop over the moves produces exactly what `DepthLoop` gives: completed or cut off, the kept move, and the new state |
| ExpectimaxAgent.Player.MaxPlayer | MyAgent.py:34-46 | The result and new state are exactly `MaxPlayerRun` |
| ExpectimaxAgent.Player.ScanMoves | MyAgent.py:46-55 | The loop of `maxPlayer` produces exactly what `MaxPlayerLoop` gives |
| ExpectimaxAgent.Player.Expectimax | MyAgent.py:57-69 | The result and new state are exactly `ExpectimaxRun` |
| ExpectimaxAgent.Player.ScanSpawns | MyAgent.py:65-79 | The loop of `expectimax` produces exactly what `ExpectimaxLoop` gives |
| Board.Grid | MyAgent.py:82 | The board is four rows of four tiles |
| Board.GridAt | myagent.py:93 | Entry (r, c) of the grid is `getTile(r, c)` |
| Board.FlattenAt | MyAgent.py:83 | The flattening has 16 tiles, row by row |
| Board.CountZeros | myagent.py:96 | The empty-cell count is at most the number of tiles |
| Board.CountZerosSpec | MyAgent.py:84 | The count is 0 exactly when no tile is empty, and equals the length exactly when all are |
| Board.MaxTileSpec | MyAgent.py:85 | `max(tiles)` is at least every tile and is one of them |
| Board.IsMaxTile | myagent.py:97-100 | A cell holds the largest tile exactly when it is at least every tile of the grid |
| MinimaxAgent.HeuristicSpec | myagent.py:92-102 | The heuristic is the score, plus 5000 per empty cell, plus 100000 exactly when some corner tile is at least every tile; it lies between the score and the score plus 180000 |
| MinimaxAgent.MaxValueSpec | myagent.py:51-65 | At an expanded max node the value is at least -10000 and at least every move's min value, and it is -10000 or one of them |
| MinimaxAgent.MinValueSpec | myagent.py:77-90 | At an expanded min node the value is at most 1e6 and at most every placement's max value, and it is 1e6 or one of them; it is 1e6 when there is no placement |
| MinimaxAgent.PickSpec | myagent.py:23-35 | No move is picked exactly when no value exceeds -10000; a picked move sits at the first maximum, and that maximum exceeds -10000 |
| MinimaxAgent.ScanPick | myagent.py:33-35 | A value above the best so far becomes the best and picks its move; any other value leaves both unchanged |
| MinimaxAgent.MaxPlayerRun | myagent.py:41-65 | Running `maxPlayer` never moves the clock backward |
| MinimaxAgent.MaxPlayerLoop | myagent.py:55-65 | Running the move loop of `maxPlayer` never moves the clock backward |
| MinimaxAgent.MinPlayerRun | myagent.py:67-90 | Running `minPlayer` never moves the clock backward |
| MinimaxAgent.MinPlayerLoop | myagent.py:80-90 | Running the placement loop of `minPlayer` never moves the clock backward |
| MinimaxAgent.DepthLoop | myagent.py:26-35 | One depth iteration never moves the clock backward |
| MinimaxAgent.MaxPlayerRunSettles | myagent.py:41-65 | `maxPlayer` uses up time and counts nodes, children in step with nodes, and parents, and nothing else; it returns `None` only once time is up |
| MinimaxAgent.MaxPlayerLoopSettles | myagent.py:55-63 | Likewise for the move loop of `maxPlayer` |
| MinimaxAgent.MinPlayerRunSettles | myagent.py:67-90 | Likewise for `minPlayer` |
| MinimaxAgent.MinPlayerLoopSettles | myagent.py:80-88 | Likewise for the placement loop of `minPlayer` |
| MinimaxAgent.DepthLoopSettles | myagent.py:26-35 | A depth iteration changes only the clock and the node counters, and is aborted only once time is up |
| MinimaxAgent.DeepeningLoopSettles | myagent.py:17-39 | The loop ends only once time is up; it keeps the decision counter and the earlier commits; each depth it starts counts one node and one parent besides those of its searches; it starts at most one depth more than it completes |
| MinimaxAgent.FindMoveSettles | myagent.py:12-39 | `findMove` counts the decision and returns only once time is up, also with no legal move; it keeps the earlier commits |
| MinimaxAgent.MaxPlayerRunSound | myagent.py:41-65 | A `maxPlayer` call that is not cut off returns the max value: the score on game over (checked before depth), the heuristic at depth 0, and otherwise the largest of -10000 and the moves' min values |
| MinimaxAgent.MaxPlayerLoopSound | myagent.py:53-65 | The running best ends as the maximum of -10000 and the move values |
| MinimaxAgent.MinPlayerRunSound | myagent.py:67-90 | A `minPlayer` call that is not cut off returns the min value: the score on game over (checked before depth), the heuristic at depth 0, and otherwise the smallest of 1e6 and the placements' max values |
| MinimaxAgent.MinPlayerLoopSound | myagent.py:78-90 | The running best ends as the minimum of 1e6 and the placement values |
| MinimaxAgent.DepthLoopChoice | myagent.py:23-35 | A completed depth iteration keeps the first move, in `actions` order, whose value is the largest, if that value exceeds -10000; otherwise it keeps `None` |
| MinimaxAgent.Choices | myagent.py:17-39 | One decision per completed depth |
| MinimaxAgent.ChoicesAt | myagent.py:37-39 | The i-th decision belongs to depth iteration `depth + i` |
| MinimaxAgent.DeepeningLoopCommits | myagent.py:17-39 | The loop appends exactly the decisions of the depths it completes, one `setMove` per depth, with the depth rising by one each time |
| MinimaxAgent.FindMoveCommits | myagent.py:12-39 | The i-th new commit (from 0) is `Decision` at child depth i, the pick of depth iteration i+1 among the legal moves; with no legal move every commit is `None` |
| MinimaxAgent.Player.constructor | myagent.py:4-10 | All five counters start at zero, nothing is committed, and the leaf evaluation is `Heuristic` |
| MinimaxAgent.Player.TimeRemaining | myagent.py:17 | A poll answers whether time is left and uses up one answer |
| MinimaxAgent.Player.CountDepth | myagent.py:18-20 | The depth, parent and node counters each rise by one |
| MinimaxAgent.Player.SetMove | myagent.py:37 | `setMove` appends the decision to the commits |
| MinimaxAgent.Player.StartDecision | myagent.py:4-5 | A new per-decision budget of `timeLimit`, given as the number of polls that answer yes; only the clock changes, and the counters and commits carry over |
| MinimaxAgent.Player.FindMove | myagent.py:12-39 | The new state is exactly `FindMoveRun` of the old state |
| MinimaxAgent.Player.SearchDepth | myagent.py:23-35 | The for-loop over the actions produces exactly what `DepthLoop` gives: completed or cut off, the kept decision, and the new state |
| MinimaxAgent.Player.MaxPlayer | myagent.py:41-54 | The result and new state are exactly `MaxPlayerRun` |
| MinimaxAgent.Player.ScanMoves | myagent.py:53-65 | The loop of `maxPlayer` produces exactly what `MaxPlayerLoop` gives |
| MinimaxAgent.Player.MinPlayer | myagent.py:67-80 | The result and new state are exactly `MinPlayerRun` |
| MinimaxAgent.Player.ScanSpawns | myagent.py:78-90 | The loop of `minPlayer` produces exactly what `MinPlayerLoop` gives |

## Left out

- `stats()` (MyAgent.py:110-114, myagent.py:107-109): it only formats output, and it divides by counters that can be zero.
- The `print` calls of myagent.py:22 and 38: they are console output.
- The `Game2048` board: sliding, merging, spawning, legality and game over.
  These are uninterpreted queries of the state, so no property here depends on
  the rules of 2048.
- `BasePlayer` and its wall clock.
  - `timeRemaining()` is modelled as a countdown of the polls that will still answer yes.
  - Within one decision this is exact for a clock that only moves forward against a fixed deadline.
  - The deadline of each decision is set by the turn loop and `BasePlayer`, which are not part of this model.
    `Player.StartDecision` stands for that step: a caller must give the clock a new budget before each `FindMove`.
    The constructor's clock is the budget of the first decision only.
  - No timing or overshoot bound is modelled.
- Floating point: the searches' numbers are exact reals.
  - `float('-inf')` becomes the `NegInf` case of `Bound`.
  - `1e6` becomes `1000000.0`.
  - The source mixes Python ints and floats; the model does not distinguish them.
- Python's unbounded ints stay unbounded: the heuristics are `int` and `nat`, with no wrap-around.
- The leaf evaluation is a constant of the `Player` object, set by the
  constructor to `Evaluate` or `Heuristic`, and a parameter of the search
  functions. Every search contract therefore holds for any evaluation.
- Each loop inside `findMove`, `maxPlayer`, `expectimax` and `minPlayer` is
  verified as a method of its own: `SearchDepth`, `ScanMoves` and `ScanSpawns`.
  - myagent.py's three counter updates at the start of a depth are grouped as `CountDepth`.
  - The statements and their order are the source's.
- `state.move(a)` is called before the time check in both `findMove` loops, and
  after it in `maxPlayer`. A query of the state has no effect, so the model
  keeps the source's order without distinguishing the two.
- The counters are modelled and their updates proved exact. Only the relations
  stated above are proved about them, because `stats()` is out of scope.
