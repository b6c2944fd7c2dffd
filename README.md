# Tic-tac-toe agents: search and evaluation

This project models the two game-playing agents of the repository and proves
properties of them. Both agents pick a move by searching a depth-bounded game
tree and scoring the positions at its frontier with a line-counting evaluator.

- The **3D agent** plays 4x4x4 tic-tac-toe. The code is in `TTT3D/player.cpp`.
  - `play` records the player to move as `max_p` and its opponent as
    `min_p = max_p ^ (CELL_X | CELL_O)`.
  - It scores every successor with `alphabeta` at depth 1 and the window
    ±100000000.
  - It keeps the first successor of maximal value, provided that value beats
    the floor -1000000; a later successor replaces the one held only with a
    strictly larger value.
  - `alphabeta` is minimax with fail-soft alpha-beta cut-offs.
  - `evaluation` adds `pow(10, num_x - 1) - pow(10, num_o - 1)` over 76 scans
    of the board.
- The **2D agent** plays 4x4 tic-tac-toe. The code is in `player.cpp`.
  - `minimax` is plain minimax with X maximising. It counts evaluations in the
    global `iter`.
  - `evaluation` scores ten passes with the tiers 1, 10 and 100.
  - `play` runs minimax to depth 3 and then returns a random successor.

## How the model is built

- A position is a `Game.GameState`: a board, the player to move, and the
  successors `findPossibleMoves` lists. The finite tree of successors is what
  makes every search terminate.
- Marks are `uint8_t` flags, so they are `bv8` here. `CELL_X` is 1 and
  `CELL_O` is 2.
- Each agent is a `Player` class.
  - The 3D class holds the fields `maxP` and `minP`, which `Play` sets.
  - The 2D class holds the counter `iter`.
  - Searches and evaluators are methods with loops, as in the source. Each is
    proved against a specification function: `AlphaBetaValue`/`MaxLoop`/`MinLoop`,
    `RootPick` and `Cube.Score` for 3D; `MinimaxValue`, `LeafCount` and
    `Grid.Score` for 2D.
- **Scores of the 3D agent are integers in tenths.**
  - `10 * pow(10, n - 1)` is `10^n`, so a contribution is `10^num_x - 10^num_o`.
    This includes the `0.1` that an empty count contributes.
  - The sentinels are scaled the same way: ±100000000 becomes ±1000000000
    (`Infinity`), and -1000000 becomes -10000000 (`RootFloor`).
- `AlphaBeta` returns exactly `AlphaBetaValue`: the value of the search with
  its sentinels and cut-offs, for every input. The root loop returns the first
  successor of maximal `AlphaBetaValue`, provided that value beats the floor,
  and the default state otherwise.
- Alpha-beta is also proved correct against the unpruned reference `Minimax`,
  relative to the window `(alpha, beta)` (`AlphaBetaWindow`).
  - If the minimax value lies inside the window, the result equals it.
  - If it lies at or below `alpha`, the result is at most `alpha`.
  - If it lies at or above `beta`, the result is at least `beta`.
  - This holds whenever every evaluated position scores strictly inside the
    sentinels (`LeavesInRange`).
  - Then, with the root's full window, alpha-beta returns the minimax value
    (`ExactInFullWindow`, `SearchIsMinimax`), and the root picks the first
    successor of maximal minimax value.
- The condition often fails on the 3D board. A per-layer row scan never
  resets its counters between rows, so its contributions grow with every row.
  - Three X on each of the first three rows of a layer, with no O there and no
    line of four, already make that layer's row pass add at least
    `2 * 10^9 - 2` tenths (`Cube.LayerRowsOverflow`). The sentinel is `10^9`.
  - At the extreme, a board full of X scores at least `10^16 - 1` tenths
    (`Cube.FilledBoardScore`).
  - A min node at depth 1 whose replies all score at least the sentinel
    keeps its initial value: it returns exactly `Infinity`
    (`MinLoopSaturated`).
  - When this holds for every successor, they all tie and the root keeps the
    first one, whatever their minimax values are (`SaturatedRoot`).
- The quirks of the code are modelled as written:
  - In the 3D per-layer row and column scans, the counters are reset once per
    layer, not once per line. The four contributions of such a scan therefore
    count 4, 8, 12 and then 16 cells (`Cube.Cumulative`).
  - In the 3D slab scans, the score is updated once, after all sixteen cells
    are counted.
  - The first per-layer diagonal reads `at(i, j, k)` with a `j` that the loop
    does not bind. It is the parameter `strayJ` of `Evaluation`, `AlphaBeta`
    and `Play`.
  - The 2D column pass counts O on `at(j, j)`, the diagonal, in every pass.
    So swapping X and O does not negate the 2D score
    (`Grid.ColumnPassNotSymmetric`).
  - A full 2D line of four scores nothing, because the if-chain has no tier
    for four.
  - Neither evaluator has a win sentinel; a won position is scored like any
    other.
  - Neither evaluator is symmetric under mirroring the board, although a
    mirror image maps the lines of four onto themselves.
    - In 2D, mirroring the columns keeps the row passes and exchanges the two
      diagonal passes (`Grid.MirrorKeepsRowsAndDiagonals`). The column passes
      break the symmetry, because they look for O on the diagonal: a lone O at
      row 1, column 1 scores -6, and its mirror image at column 2 scores -2
      (`Grid.MirrorNotSymmetric`).
    - In 3D, the accumulating row pass counts a lone X on row `i` of a layer
      `4 - i` times. It adds 36 tenths for row 0 and 9 for its mirror row 3
      (`Cube.LoneRowPass`).

## Model

| member | source | states |
|---|---|---|
| Marks.Opponent | TTT3D/player.cpp:28-29 | the opponent of X is O and of O is X, and never the player itself |
| Marks.OpponentTwice | TTT3D/player.cpp:28-29 | taking the opponent twice gives back the player for every flag value |
| Player3D.Player.Play | TTT3D/player.cpp:9-50 | sets `maxP` to the player to move and `minP` to its opponent; no successors gives the no-move state; a move is always a successor and never the no-move state; otherwise it returns the first successor of maximal alpha-beta value if that value beats the floor, else the default state; when every leaf is in range that is the first successor of maximal minimax value |
| Player3D.RootPick | TTT3D/player.cpp:35-47 | the choice the root loop holds after n children is -1 or an index below n |
| Player3D.RootPickIsFirstBest | TTT3D/player.cpp:35-47 | the root's choice beats the floor, is at least every value seen, and is strictly above every earlier one; -1 means no value beats the floor |
| Player3D.RootPickMatchesFirstArgMax | TTT3D/player.cpp:35-47 | the root's choice is the first maximal position of the values the root loop sees when that value beats the floor, and -1 otherwise |
| Player3D.SearchIsMinimax | TTT3D/player.cpp:14-39 | with every leaf in range, the value the root loop sees for each successor is its minimax value |
| Player3D.ExactInFullWindow | TTT3D/player.cpp:15-16 | with the window ±Infinity and every leaf in range, a result with the window property equals the minimax value |
| Player3D.SaturatedRoot | TTT3D/player.cpp:35-47 | when every reply to every successor scores at least Infinity, every successor is worth exactly Infinity to the root loop and the first one is chosen |
| Player3D.MinLoopSaturated | TTT3D/player.cpp:85-99 | a depth-1 min node whose children all score at least Infinity returns its sentinel Infinity |
| Player3D.AlphaBetaWindow | TTT3D/player.cpp:53-102 | with alpha < beta and every leaf in range, alpha-beta's value is exact inside the window and a bound on the correct side outside it |
| Player3D.MaxLoopWindow | TTT3D/player.cpp:69-83 | the max loop keeps the window property for the maximum over the children, including when it stops at the first cut-off |
| Player3D.MinLoopWindow | TTT3D/player.cpp:85-99 | the min loop keeps the window property for the minimum over the children, including when it stops at the first cut-off |
| Player3D.Player.AlphaBeta | TTT3D/player.cpp:53-102 | returns the alpha-beta value for every input, the evaluation at depth 0 or a leaf; with alpha < beta and leaves in range it is exact inside the window and a bound on the correct side outside it |
| Player3D.Player.MaxNode | TTT3D/player.cpp:69-83 | the max branch returns the max loop's value; with leaves in range it has the window property for the maximum over the children |
| Player3D.Player.MinNode | TTT3D/player.cpp:85-99 | the min branch returns the min loop's value; with leaves in range it has the window property for the minimum over the children |
| Player3D.MaxStep | TTT3D/player.cpp:74-82 | one child folded into a max node keeps the window property for the running maximum |
| Player3D.MinStep | TTT3D/player.cpp:90-98 | one child folded into a min node keeps the window property for the running minimum |
| Player3D.CutOffMax | TTT3D/player.cpp:79-81 | once beta <= alpha in a max node, the unvisited children cannot bring the result back into the window |
| Player3D.CutOffMin | TTT3D/player.cpp:95-97 | once beta <= alpha in a min node, the unvisited children cannot bring the result back into the window |
| Player3D.BestMaxIsMaximum | TTT3D/player.cpp:69-83 | a max node's reference value is at least every child's value and equal to one of them |
| Player3D.BestMinIsMinimum | TTT3D/player.cpp:85-99 | a min node's reference value is at most every child's value and equal to one of them |
| Player3D.BestMaxGrows | TTT3D/player.cpp:74-82 | the maximum over the first i children never exceeds the maximum over the first n >= i |
| Player3D.BestMinShrinks | TTT3D/player.cpp:90-98 | the minimum over the first n children never exceeds the minimum over the first i <= n |
| Player3D.MinimaxInRange | TTT3D/player.cpp:61-99 | when every leaf scores inside the sentinels, so does the minimax value |
| Player3D.BestInRange | TTT3D/player.cpp:69-99 | the maximum and minimum over children whose leaves are in range lie inside the sentinels |
| Player3D.Player.Evaluation | TTT3D/player.cpp:104-477 | the 76-scan loop computes exactly `Cube.Score` |
| Player3D.AddCumulativeSweep | TTT3D/player.cpp:166-204 | a per-layer row or column scan adds the four contributions of 4, 8, 12 and 16 accumulated cells |
| Player3D.AddPlaneSweep | TTT3D/player.cpp:247-285 | a slab scan adds one contribution for all sixteen cells |
| Player3D.AddLine | TTT3D/player.cpp:206-238 | a four-cell scan adds `10^num_x - 10^num_o` |
| Cube.ScanCount | TTT3D/player.cpp:156-476 | the evaluator sums 40 layer scans, 16 row-slab scans, 16 column-slab scans: 76 in all |
| Cube.LayerRowsOverflow | TTT3D/player.cpp:164-184 | three X on each of the first three rows of a layer with no O there make the layer's row pass add at least 2·10^9 - 2 tenths, just under twice the search sentinel |
| Cube.LoneRowPass | TTT3D/player.cpp:164-184 | a lone X on row i of a layer is counted in 4 - i of the row pass's contributions and adds 9·(4 - i) tenths, so a row and its mirror row are weighted differently |
| Cube.FilledBoardScore | TTT3D/player.cpp:164-184 | a board full of X scores at least 10^16 - 1 tenths, because the first layer's row scan counts 16 X in its last contribution |
| Cube.FilledTotal | TTT3D/player.cpp:156-476 | on a board full of X every scan adds a non-negative amount, so the sum is at least any one of them |
| Cube.EmptyBoardScoresZero | TTT3D/player.cpp:156-476 | an empty board scores 0 |
| Cube.SwapNegatesScore | TTT3D/player.cpp:156-476 | exchanging X and O on every cell negates the score |
| Cube.SwapTally | TTT3D/player.cpp:170-178 | exchanging X and O exchanges the X and O counts of every scan |
| Cube.LineContribution | TTT3D/player.cpp:106-116 | a four-cell line holds at most four marks, and with no O it adds 0, 9, 99, 999 or 9999 tenths for 0 to 4 X |
| Cube.RegionTallies | TTT3D/player.cpp:164-204 | a scan whose counters accumulate over r rows counts at most 4r marks |
| Folds.FirstArgMax | TTT3D/player.cpp:35-47 | the first position of a maximal element: no element exceeds it and every earlier one is smaller |
| Folds.FirstArgMaxUnique | TTT3D/player.cpp:35-47 | a position with those two properties is the first maximal position |
| Player2D.Player.constructor | player.cpp:5 | the leaf counter starts at 0 |
| Player2D.Player.Play | player.cpp:10-37 | no successors gives the no-move state and leaves `iter` alone; otherwise returns the successor at `roll` modulo their number, and `iter` grows by the leaves of a depth-3 search |
| Player2D.Player.Minimax | player.cpp:40-91 | returns the minimax value and adds exactly the number of evaluated positions to `iter` |
| Player2D.LeafCountPositive | player.cpp:54-59 | every call evaluates at least one position, and an inner node at least as many as any child |
| Player2D.ChildLeavesBounds | player.cpp:69-88 | the evaluations of n children are at least n and at least those of each child |
| Player2D.MinimaxBound | player.cpp:54-89 | every minimax value lies within ±1000 |
| Player2D.ChildrenBound | player.cpp:66-89 | past the first child the running maximum and minimum lie within ±1000 |
| Player2D.ChildrenMaxIsMaximum | player.cpp:66-76 | X's value is at least every child's value and equal to one of them; the sentinel never survives |
| Player2D.ChildrenMinIsMinimum | player.cpp:79-89 | the minimising value is at most every child's value and equal to one of them |
| Player2D.InnerNodeValue | player.cpp:66-89 | at an inner node X takes the maximum over children searched for O, anyone else the minimum over children searched for X, and a child attains it |
| Player2D.Player.Evaluation | player.cpp:93-279 | the ten passes compute exactly `Grid.Score` |
| Player2D.AddTiers | player.cpp:148-160 | after a pass the score grows by the tier of the X count minus the tier of the O count |
| Grid.CountBounds | player.cpp:137-145 | a line holds at most four marks in all |
| Grid.LineTable | player.cpp:148-160 | with no O a line adds 1, 10 or 100 for one, two or three X and nothing for four |
| Grid.FullRowScoresNothing | player.cpp:148-160 | a row of four X counts four and contributes 0 |
| Grid.ScoreBound | player.cpp:133-278 | the score lies within ±1000 |
| Grid.EmptyBoardScoresZero | player.cpp:133-278 | an empty board scores 0 |
| Grid.SwapNegatesRowsAndDiagonals | player.cpp:133-161 | exchanging X and O negates the row passes and both diagonal passes |
| Grid.MirrorCount | player.cpp:133-278 | mirroring the columns maps each line to a line holding the same number of each mark |
| Grid.MirrorKeepsRowsAndDiagonals | player.cpp:133-278 | mirroring the columns keeps the row passes and exchanges the diagonal and anti-diagonal passes |
| Grid.MirrorNotSymmetric | player.cpp:172-201 | a lone O at row 1, column 1 scores -6 (-4 from the column passes), while its mirror image at row 1, column 2 scores -2 |
| Grid.ColumnPassNotSymmetric | player.cpp:172-201 | a lone X at row 0, column 1 scores 2 (1 from its column pass), the same board with O scores -1 (0 from the column passes) |
| Grid.LoneCounts | player.cpp:137-183 | a board with one mark at row 0, column 1 counts it once on row 0 and on column 1 and nowhere else |

## Left out

- The `std::cerr` tracing in both files: diagnostics only.
- `Deadline pDue` is accepted by both `play` functions and never read.
- `GameState`, `Move`, `findPossibleMoves`, `at`, `getNextPlayer` and
  `toMessage` are collaborators whose source is not part of this model. A
  position is the tree of its successors, a board is a sequence of cells, and
  the no-move state and a default-constructed state are constructors of
  `Game.Reply`.
- `constants.hpp` is not part of this model. `CELL_X = 1` and `CELL_O = 2` are
  assumed; only their being two distinct single bits matters to the XOR.
- The 3D scores are `double`. The model computes in exact tenths and does not
  model rounding of the `0.1` terms.
- Player2D.Player.constructor: `iter` is a file-scope global in
  `player.cpp:5`, shared by every `Player` and never reset when one is
  constructed. The model makes it a field of each `Player`, and the
  constructor sets it to 0; sharing between instances is not modelled.
- `rand()` is the parameter `roll` of the 2D `Play`; its distribution is not
  modelled.
- The unbound `j` at `TTT3D/player.cpp:212` is the parameter `strayJ`; which
  value the compiled program actually reads there is not modelled.
- Player3D.Player.AlphaBeta: the window property against `Minimax` is stated
  only when every evaluated position scores strictly between the sentinels
  (`LeavesInRange`). Late-game 3D boards often break that condition, because
  accumulated scans pass the sentinel long before a line of four is made
  (`Cube.LayerRowsOverflow`).
  Without it the contract still gives the exact value, `AlphaBetaValue`.
- Player3D.Player.Play: the first maximal successor by minimax value is stated
  under the same condition. Without it the contract gives the first maximal
  successor by `AlphaBetaValue`, where sentinel values can tie
  (`SaturatedRoot`).
