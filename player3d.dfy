/** The 4x4x4 agent: root selection, minimax with alpha-beta cut-offs, and the
  * 76-scan evaluator. All scores are in tenths of the source's `double`
  * values, so every value below is ten times the constant in the code. */
module Player3D {
  import opened Marks
  import opened Game
  import opened Folds
  import opened Cube

  /** The search window bound `100000000`, in tenths. */
  const Infinity: int := 1_000_000_000
  /** The initial `bestValue` of the root loop, `-1000000`, in tenths. */
  const RootFloor: int := -10_000_000
  /** The fixed search depth of `play`. */
  const SearchDepth: int := 2

  /** The unpruned minimax value: at depth 0 or at a leaf the evaluation,
    * otherwise the maximum over the children when `player` is the maximising
    * player and the minimum otherwise. */
  function Minimax(s: GameState<Board>, player: Mark, depth: int, maxP: Mark, minP: Mark, strayJ: Index): int
    decreases s, 1
  {
    if depth == 0 || |s.successors| == 0 then Score(s.board, strayJ)
    else if player == maxP then BestMax(s, |s.successors|, minP, depth - 1, maxP, minP, strayJ)
    else BestMin(s, |s.successors|, maxP, depth - 1, maxP, minP, strayJ)
  }

  /** The largest minimax value among the first `n` children. */
  function BestMax(s: GameState<Board>, n: int, player: Mark, depth: int, maxP: Mark, minP: Mark, strayJ: Index): int
    requires 1 <= n <= |s.successors|
    decreases s, 0, n
  {
    var c := Minimax(s.successors[n - 1], player, depth, maxP, minP, strayJ);
    if n == 1 then c else Max2(BestMax(s, n - 1, player, depth, maxP, minP, strayJ), c)
  }

  /** The smallest minimax value among the first `n` children. */
  function BestMin(s: GameState<Board>, n: int, player: Mark, depth: int, maxP: Mark, minP: Mark, strayJ: Index): int
    requires 1 <= n <= |s.successors|
    decreases s, 0, n
  {
    var c := Minimax(s.successors[n - 1], player, depth, maxP, minP, strayJ);
    if n == 1 then c else Min2(BestMin(s, n - 1, player, depth, maxP, minP, strayJ), c)
  }

  /** The minimax values of the children, in successor order. */
  function ChildValues(s: GameState<Board>, player: Mark, depth: int, maxP: Mark, minP: Mark, strayJ: Index): (vs: seq<int>)
    ensures |vs| == |s.successors|
    ensures forall i :: 0 <= i < |vs| ==> vs[i] == Minimax(s.successors[i], player, depth, maxP, minP, strayJ)
  {
    seq(|s.successors|, i requires 0 <= i < |s.successors| =>
      Minimax(s.successors[i], player, depth, maxP, minP, strayJ))
  }

  /** Every position the search evaluates within `depth` plies scores strictly
    * inside the window (-Infinity, Infinity). */
  ghost predicate LeavesInRange(s: GameState<Board>, depth: int, strayJ: Index)
    decreases s
  {
    if depth == 0 || |s.successors| == 0 then -Infinity < Score(s.board, strayJ) < Infinity
    else forall i :: 0 <= i < |s.successors| ==> LeavesInRange(s.successors[i], depth - 1, strayJ)
  }

  /** What alpha-beta promises about its result `r` for a node whose minimax
    * value is `m`, searched with the window (alpha, beta). */
  predicate Window(r: int, m: int, alpha: int, beta: int)
  {
    && (m <= alpha ==> r <= alpha)
    && (alpha < m < beta ==> r == m)
    && (beta <= m ==> beta <= r)
  }

  lemma {:induction false} MinimaxInRange(s: GameState<Board>, player: Mark, depth: int, maxP: Mark, minP: Mark, strayJ: Index)
    requires LeavesInRange(s, depth, strayJ)
    ensures -Infinity < Minimax(s, player, depth, maxP, minP, strayJ) < Infinity
    decreases s, 1
  {
    if depth != 0 && |s.successors| != 0 {
      var q := if player == maxP then minP else maxP;
      BestInRange(s, |s.successors|, q, depth - 1, maxP, minP, strayJ);
    }
  }

  lemma {:induction false} BestInRange(s: GameState<Board>, n: int, player: Mark, depth: int, maxP: Mark, minP: Mark, strayJ: Index)
    requires 1 <= n <= |s.successors|
    requires forall i :: 0 <= i < |s.successors| ==> LeavesInRange(s.successors[i], depth, strayJ)
    ensures -Infinity < BestMax(s, n, player, depth, maxP, minP, strayJ) < Infinity
    ensures -Infinity < BestMin(s, n, player, depth, maxP, minP, strayJ) < Infinity
    decreases s, 0, n
  {
    MinimaxInRange(s.successors[n - 1], player, depth, maxP, minP, strayJ);
    if n > 1 {
      BestInRange(s, n - 1, player, depth, maxP, minP, strayJ);
    }
  }

  /** `BestMax` is the maximum of the children's minimax values: an upper
    * bound of each of them, reached by one of them. */
  lemma {:induction false} BestMaxIsMaximum(s: GameState<Board>, n: int, player: Mark, depth: int, maxP: Mark, minP: Mark, strayJ: Index)
    requires 1 <= n <= |s.successors|
    ensures forall i :: 0 <= i < n ==>
      Minimax(s.successors[i], player, depth, maxP, minP, strayJ) <= BestMax(s, n, player, depth, maxP, minP, strayJ)
    ensures exists i :: (0 <= i < n &&
      Minimax(s.successors[i], player, depth, maxP, minP, strayJ) == BestMax(s, n, player, depth, maxP, minP, strayJ))
    decreases n
  {
    if n > 1 {
      BestMaxIsMaximum(s, n - 1, player, depth, maxP, minP, strayJ);
    }
  }

  /** `BestMin` is the minimum of the children's minimax values. */
  lemma {:induction false} BestMinIsMinimum(s: GameState<Board>, n: int, player: Mark, depth: int, maxP: Mark, minP: Mark, strayJ: Index)
    requires 1 <= n <= |s.successors|
    ensures forall i :: 0 <= i < n ==>
      BestMin(s, n, player, depth, maxP, minP, strayJ) <= Minimax(s.successors[i], player, depth, maxP, minP, strayJ)
    ensures exists i :: (0 <= i < n &&
      Minimax(s.successors[i], player, depth, maxP, minP, strayJ) == BestMin(s, n, player, depth, maxP, minP, strayJ))
    decreases n
  {
    if n > 1 {
      BestMinIsMinimum(s, n - 1, player, depth, maxP, minP, strayJ);
    }
  }

  lemma {:induction false} BestMaxGrows(s: GameState<Board>, i: int, n: int, player: Mark, depth: int, maxP: Mark, minP: Mark, strayJ: Index)
    requires 1 <= i <= n <= |s.successors|
    ensures BestMax(s, i, player, depth, maxP, minP, strayJ) <= BestMax(s, n, player, depth, maxP, minP, strayJ)
    decreases n
  {
    if i < n {
      BestMaxGrows(s, i, n - 1, player, depth, maxP, minP, strayJ);
    }
  }

  lemma {:induction false} BestMinShrinks(s: GameState<Board>, i: int, n: int, player: Mark, depth: int, maxP: Mark, minP: Mark, strayJ: Index)
    requires 1 <= i <= n <= |s.successors|
    ensures BestMin(s, n, player, depth, maxP, minP, strayJ) <= BestMin(s, i, player, depth, maxP, minP, strayJ)
    decreases n
  {
    if i < n {
      BestMinShrinks(s, i, n - 1, player, depth, maxP, minP, strayJ);
    }
  }

  /** Adds the four contributions of a layer's row or column pass, whose
    * counters are reset once before its four lines. */
  method AddCumulativeSweep(b: Board, sw: Sweep, score: int) returns (total: int)
    ensures total == score + Total(b, Cumulative(sw))
  {
    total := score;
    var numX, numO := 0, 0;
    for a := 0 to 4
      invariant numX == CountSweep(b, CellX, sw, a) && numO == CountSweep(b, CellO, sw, a)
      invariant total == score + Total(b, Cumulative(sw)[..a])
    {
      for c := 0 to 4
        invariant numX == CountSweep(b, CellX, sw, a) + CountRow(b, CellX, sw, a, c)
        invariant numO == CountSweep(b, CellO, sw, a) + CountRow(b, CellO, sw, a, c)
      {
        var cell := At(b, SweepCell(sw, a, c));
        if cell == CellX { numX := numX + 1; }
        if cell == CellO { numO := numO + 1; }
      }
      assert Cumulative(sw)[..a + 1] == Cumulative(sw)[..a] + [Region(sw, a + 1)];
      TotalAppend(b, Cumulative(sw)[..a], [Region(sw, a + 1)]);
      total := total + (Pow10(numX) - Pow10(numO));
    }
    assert Cumulative(sw)[..4] == Cumulative(sw);
  }

  /** Adds the single contribution of a slab pass: all sixteen cells of the
    * slab are counted before the score is updated once. */
  method AddPlaneSweep(b: Board, sw: Sweep, score: int) returns (total: int)
    ensures total == score + ScanValue(b, Region(sw, 4))
  {
    var numX, numO := 0, 0;
    for a := 0 to 4
      invariant numX == CountSweep(b, CellX, sw, a) && numO == CountSweep(b, CellO, sw, a)
    {
      for c := 0 to 4
        invariant numX == CountSweep(b, CellX, sw, a) + CountRow(b, CellX, sw, a, c)
        invariant numO == CountSweep(b, CellO, sw, a) + CountRow(b, CellO, sw, a, c)
      {
        var cell := At(b, SweepCell(sw, a, c));
        if cell == CellX { numX := numX + 1; }
        if cell == CellO { numO := numO + 1; }
      }
    }
    total := score + (Pow10(numX) - Pow10(numO));
  }

  /** Adds the contribution of one four-cell line. */
  method AddLine(b: Board, l: Line, score: int) returns (total: int)
    ensures total == score + ScanValue(b, Straight(l))
  {
    var numX, numO := 0, 0;
    for p := 0 to 4
      invariant numX == CountLine(b, CellX, l, p) && numO == CountLine(b, CellO, l, p)
    {
      var cell := At(b, LineCell(l, p));
      if cell == CellX { numX := numX + 1; }
      if cell == CellO { numO := numO + 1; }
    }
    total := score + (Pow10(numX) - Pow10(numO));
  }

  lemma LayerTotal(b: Board, k: Index, strayJ: Index)
    ensures Total(b, LayerScans(k, strayJ))
      == Total(b, Cumulative(LayerRows(k))) + Total(b, Cumulative(LayerColumns(k)))
         + ScanValue(b, Straight(LayerStray(k, strayJ))) + ScanValue(b, Straight(LayerAnti(k)))
  {
    var two := [Straight(LayerStray(k, strayJ)), Straight(LayerAnti(k))];
    TotalAppend(b, Cumulative(LayerRows(k)), Cumulative(LayerColumns(k)));
    TotalAppend(b, Cumulative(LayerRows(k)) + Cumulative(LayerColumns(k)), two);
    assert two[1..] == [two[1]] && two[1..][1..] == [];
    assert Total(b, two[1..]) == ScanValue(b, two[1]) + Total(b, []);
  }

  /** One child of a max node: folding the child's result into `v` keeps the
    * window property for the running maximum of the minimax values. `a` is
    * the window's lower bound passed to the child. */
  lemma MaxStep(alpha: int, beta: int, a: int, v: int, m: int, r: int, c: int)
    requires alpha < beta && a < beta
    requires Window(v, m, alpha, beta)
    requires a == Max2(alpha, v) || (a == alpha && v == m)
    requires Window(r, c, a, beta)
    ensures Window(Max2(v, r), Max2(m, c), alpha, beta)
  {
  }

  /** The mirror image of `MaxStep` for a min node. */
  lemma MinStep(alpha: int, beta: int, b: int, v: int, m: int, r: int, c: int)
    requires alpha < beta && alpha < b
    requires Window(v, m, alpha, beta)
    requires b == Min2(beta, v) || (b == beta && v == m)
    requires Window(r, c, alpha, b)
    ensures Window(Min2(v, r), Min2(m, c), alpha, beta)
  {
  }

  /** A cut-off in a max node: once the running value reaches beta, the
    * remaining children cannot move the result back into the window. */
  lemma CutOffMax(alpha: int, beta: int, v: int, m: int, all: int)
    requires alpha < beta <= Max2(alpha, v)
    requires Window(v, m, alpha, beta) && m <= all
    ensures Window(v, all, alpha, beta)
  {
  }

  /** The mirror image of `CutOffMax` for a min node. */
  lemma CutOffMin(alpha: int, beta: int, v: int, m: int, all: int)
    requires Min2(beta, v) <= alpha < beta
    requires Window(v, m, alpha, beta) && all <= m
    ensures Window(v, all, alpha, beta)
  {
  }

  lemma ExactInFullWindow(s: GameState<Board>, player: Mark, depth: int, maxP: Mark, minP: Mark, strayJ: Index, v: int)
    requires LeavesInRange(s, depth, strayJ)
    requires Window(v, Minimax(s, player, depth, maxP, minP, strayJ), -Infinity, Infinity)
    ensures v == Minimax(s, player, depth, maxP, minP, strayJ)
  {
    MinimaxInRange(s, player, depth, maxP, minP, strayJ);
  }

  // ---------------------------------------------------------------------
  // What alpha-beta returns, sentinels and cut-offs included

  /** The value `alphabeta` returns: the evaluation at depth 0 or at a leaf,
    * otherwise the max loop for the maximising player and the min loop for
    * anyone else, both started at the first child with the sentinel. */
  function AlphaBetaValue(s: GameState<Board>, player: Mark, depth: int, alpha: int, beta: int, maxP: Mark, minP: Mark, strayJ: Index): int
    decreases s, 1
  {
    if depth == 0 || |s.successors| == 0 then Score(s.board, strayJ)
    else if player == maxP then MaxLoop(s, 0, -Infinity, alpha, beta, depth - 1, maxP, minP, strayJ)
    else MinLoop(s, 0, Infinity, alpha, beta, depth - 1, maxP, minP, strayJ)
  }

  /** The max loop from child `i` on, with running value `v` and lower bound
    * `a`: the child is searched with (a, beta) and the minimiser to move, `v`
    * takes the maximum with its result, `a` rises to `v`, and the loop ends
    * right after the first child at which `beta <= a`. */
  function MaxLoop(s: GameState<Board>, i: int, v: int, a: int, beta: int, depth: int, maxP: Mark, minP: Mark, strayJ: Index): int
    requires 0 <= i <= |s.successors|
    decreases s, 0, |s.successors| - i
  {
    if i == |s.successors| then v
    else
      var w := Max2(v, AlphaBetaValue(s.successors[i], minP, depth, a, beta, maxP, minP, strayJ));
      if beta <= Max2(a, w) then w
      else MaxLoop(s, i + 1, w, Max2(a, w), beta, depth, maxP, minP, strayJ)
  }

  /** The min loop from child `i` on, the mirror image of `MaxLoop`: the
    * upper bound `b` falls to `v`, and the loop ends once `b <= alpha`. */
  function MinLoop(s: GameState<Board>, i: int, v: int, alpha: int, b: int, depth: int, maxP: Mark, minP: Mark, strayJ: Index): int
    requires 0 <= i <= |s.successors|
    decreases s, 0, |s.successors| - i
  {
    if i == |s.successors| then v
    else
      var w := Min2(v, AlphaBetaValue(s.successors[i], maxP, depth, alpha, b, maxP, minP, strayJ));
      if Min2(b, w) <= alpha then w
      else MinLoop(s, i + 1, w, alpha, Min2(b, w), depth, maxP, minP, strayJ)
  }

  /** Alpha-beta meets the window property against the unpruned minimax
    * value, when every evaluated position scores strictly between the
    * sentinels. */
  lemma {:induction false} AlphaBetaWindow(s: GameState<Board>, player: Mark, depth: int, alpha: int, beta: int, maxP: Mark, minP: Mark, strayJ: Index)
    requires alpha < beta && LeavesInRange(s, depth, strayJ)
    ensures Window(AlphaBetaValue(s, player, depth, alpha, beta, maxP, minP, strayJ),
      Minimax(s, player, depth, maxP, minP, strayJ), alpha, beta)
    decreases s, 1
  {
    if depth != 0 && |s.successors| != 0 {
      if player == maxP {
        MaxLoopWindow(s, 0, -Infinity, alpha, -Infinity, alpha, beta, depth - 1, maxP, minP, strayJ);
      } else {
        MinLoopWindow(s, 0, Infinity, beta, Infinity, alpha, beta, depth - 1, maxP, minP, strayJ);
      }
    }
  }

  /** After `i` children without a cut-off, the max loop's state keeps the
    * window property for the maximum `m` of the minimax values seen, and
    * so does the loop's final result for the maximum over all children. */
  lemma {:induction false} MaxLoopWindow(s: GameState<Board>, i: int, v: int, a: int, m: int, alpha: int, beta: int, depth: int, maxP: Mark, minP: Mark, strayJ: Index)
    requires 0 <= i <= |s.successors| && |s.successors| > 0 && alpha < beta
    requires forall t :: 0 <= t < |s.successors| ==> LeavesInRange(s.successors[t], depth, strayJ)
    requires i == 0 ==> v == -Infinity && a == alpha && m == -Infinity
    requires i > 0 ==> a == Max2(alpha, v) && a < beta && m == BestMax(s, i, minP, depth, maxP, minP, strayJ)
    requires Window(v, m, alpha, beta)
    ensures Window(MaxLoop(s, i, v, a, beta, depth, maxP, minP, strayJ),
      BestMax(s, |s.successors|, minP, depth, maxP, minP, strayJ), alpha, beta)
    decreases s, 0, |s.successors| - i
  {
    if i < |s.successors| {
      var c := Minimax(s.successors[i], minP, depth, maxP, minP, strayJ);
      var r := AlphaBetaValue(s.successors[i], minP, depth, a, beta, maxP, minP, strayJ);
      AlphaBetaWindow(s.successors[i], minP, depth, a, beta, maxP, minP, strayJ);
      MinimaxInRange(s.successors[i], minP, depth, maxP, minP, strayJ);
      MaxStep(alpha, beta, a, v, m, r, c);
      var w := Max2(v, r);
      if beta <= Max2(a, w) {
        BestMaxGrows(s, i + 1, |s.successors|, minP, depth, maxP, minP, strayJ);
        CutOffMax(alpha, beta, w, Max2(m, c), BestMax(s, |s.successors|, minP, depth, maxP, minP, strayJ));
      } else {
        MaxLoopWindow(s, i + 1, w, Max2(a, w), Max2(m, c), alpha, beta, depth, maxP, minP, strayJ);
      }
    }
  }

  /** The mirror image of `MaxLoopWindow` for the min loop. */
  lemma {:induction false} MinLoopWindow(s: GameState<Board>, i: int, v: int, b: int, m: int, alpha: int, beta: int, depth: int, maxP: Mark, minP: Mark, strayJ: Index)
    requires 0 <= i <= |s.successors| && |s.successors| > 0 && alpha < beta
    requires forall t :: 0 <= t < |s.successors| ==> LeavesInRange(s.successors[t], depth, strayJ)
    requires i == 0 ==> v == Infinity && b == beta && m == Infinity
    requires i > 0 ==> b == Min2(beta, v) && alpha < b && m == BestMin(s, i, maxP, depth, maxP, minP, strayJ)
    requires Window(v, m, alpha, beta)
    ensures Window(MinLoop(s, i, v, alpha, b, depth, maxP, minP, strayJ),
      BestMin(s, |s.successors|, maxP, depth, maxP, minP, strayJ), alpha, beta)
    decreases s, 0, |s.successors| - i
  {
    if i < |s.successors| {
      var c := Minimax(s.successors[i], maxP, depth, maxP, minP, strayJ);
      var r := AlphaBetaValue(s.successors[i], maxP, depth, alpha, b, maxP, minP, strayJ);
      AlphaBetaWindow(s.successors[i], maxP, depth, alpha, b, maxP, minP, strayJ);
      MinimaxInRange(s.successors[i], maxP, depth, maxP, minP, strayJ);
      MinStep(alpha, beta, b, v, m, r, c);
      var w := Min2(v, r);
      if Min2(b, w) <= alpha {
        BestMinShrinks(s, i + 1, |s.successors|, maxP, depth, maxP, minP, strayJ);
        CutOffMin(alpha, beta, w, Min2(m, c), BestMin(s, |s.successors|, maxP, depth, maxP, minP, strayJ));
      } else {
        MinLoopWindow(s, i + 1, w, Min2(b, w), Min2(m, c), alpha, beta, depth, maxP, minP, strayJ);
      }
    }
  }

  // ---------------------------------------------------------------------
  // The root

  /** What the root loop sees for its `t`-th successor: alpha-beta at depth
    * `SearchDepth - 1` with the full window and the opponent to move. */
  function SearchValue(s: GameState<Board>, t: int, strayJ: Index): int
    requires 0 <= t < |s.successors|
  {
    AlphaBetaValue(s.successors[t], Opponent(s.nextPlayer), SearchDepth - 1, -Infinity, Infinity,
      s.nextPlayer, Opponent(s.nextPlayer), strayJ)
  }

  /** The values the root loop sees, in successor order. */
  function SearchValues(s: GameState<Board>, strayJ: Index): (vs: seq<int>)
    ensures |vs| == |s.successors|
    ensures forall t :: 0 <= t < |vs| ==> vs[t] == SearchValue(s, t, strayJ)
  {
    seq(|s.successors|, t requires 0 <= t < |s.successors| => SearchValue(s, t, strayJ))
  }

  /** With every evaluated position strictly between the sentinels, what the
    * root loop sees for each successor is its minimax value. */
  lemma SearchIsMinimax(s: GameState<Board>, strayJ: Index)
    requires forall t :: 0 <= t < |s.successors| ==> LeavesInRange(s.successors[t], SearchDepth - 1, strayJ)
    ensures SearchValues(s, strayJ)
      == ChildValues(s, Opponent(s.nextPlayer), SearchDepth - 1, s.nextPlayer, Opponent(s.nextPlayer), strayJ)
  {
    forall t | 0 <= t < |s.successors|
      ensures SearchValue(s, t, strayJ)
        == Minimax(s.successors[t], Opponent(s.nextPlayer), SearchDepth - 1, s.nextPlayer, Opponent(s.nextPlayer), strayJ)
    {
      AlphaBetaWindow(s.successors[t], Opponent(s.nextPlayer), SearchDepth - 1, -Infinity, Infinity,
        s.nextPlayer, Opponent(s.nextPlayer), strayJ);
      ExactInFullWindow(s.successors[t], Opponent(s.nextPlayer), SearchDepth - 1,
        s.nextPlayer, Opponent(s.nextPlayer), strayJ, SearchValue(s, t, strayJ));
    }
  }

  /** The successor the root loop holds after the first `n` children: the
    * first of maximal value among them, provided that value beats the
    * floor, or -1 while none does. */
  function RootPick(s: GameState<Board>, n: int, strayJ: Index): (k: int)
    requires 0 <= n <= |s.successors|
    ensures -1 <= k < n
  {
    if n == 0 then -1
    else
      var k := RootPick(s, n - 1, strayJ);
      var floor := if k < 0 then RootFloor else SearchValue(s, k, strayJ);
      if SearchValue(s, n - 1, strayJ) > floor then n - 1 else k
  }

  /** `RootPick` is the first maximal successor when that value beats the
    * floor, and -1 when no value does. */
  lemma {:induction false} RootPickIsFirstBest(s: GameState<Board>, n: int, strayJ: Index)
    requires 0 <= n <= |s.successors|
    ensures RootPick(s, n, strayJ) < 0 ==> forall t :: 0 <= t < n ==> SearchValue(s, t, strayJ) <= RootFloor
    ensures RootPick(s, n, strayJ) >= 0 ==>
      var k := RootPick(s, n, strayJ);
      && SearchValue(s, k, strayJ) > RootFloor
      && (forall t :: 0 <= t < n ==> SearchValue(s, t, strayJ) <= SearchValue(s, k, strayJ))
      && (forall t :: 0 <= t < k ==> SearchValue(s, t, strayJ) < SearchValue(s, k, strayJ))
  {
    if n > 0 {
      RootPickIsFirstBest(s, n - 1, strayJ);
    }
  }

  /** The root's choice, stated with the first maximal position of the
    * values the root loop sees. */
  lemma RootPickMatchesFirstArgMax(s: GameState<Board>, strayJ: Index)
    requires |s.successors| > 0
    ensures var vals := SearchValues(s, strayJ);
      var best := FirstArgMax(vals);
      RootPick(s, |s.successors|, strayJ) == if vals[best] > RootFloor then best else -1
  {
    var vals := SearchValues(s, strayJ);
    var n := |s.successors|;
    RootPickIsFirstBest(s, n, strayJ);
    var k := RootPick(s, n, strayJ);
    if k >= 0 {
      FirstArgMaxUnique(vals, k);
    } else {
      assert vals[FirstArgMax(vals)] <= RootFloor;
    }
  }

  /** A min node one ply above the evaluations, searched with the full
    * window, whose children all score at least `Infinity` never lowers its
    * sentinel: the loop returns `Infinity` whatever those scores are. */
  lemma {:induction false} MinLoopSaturated(s: GameState<Board>, i: int, maxP: Mark, minP: Mark, strayJ: Index)
    requires 0 <= i <= |s.successors|
    requires forall t :: 0 <= t < |s.successors| ==> Score(s.successors[t].board, strayJ) >= Infinity
    ensures MinLoop(s, i, Infinity, -Infinity, Infinity, 0, maxP, minP, strayJ) == Infinity
    decreases |s.successors| - i
  {
    if i < |s.successors| {
      MinLoopSaturated(s, i + 1, maxP, minP, strayJ);
    }
  }

  /** When every reply to every successor scores at least `Infinity` (a
    * board can score 10^16 - 1 tenths, `Cube.FilledBoardScore`), the root
    * loop sees `Infinity` for every successor and keeps the first one,
    * whatever the minimax values of the successors are. */
  lemma SaturatedRoot(s: GameState<Board>, strayJ: Index)
    requires |s.successors| > 0
    requires forall t :: 0 <= t < |s.successors| ==> |s.successors[t].successors| > 0
    requires forall t, u :: 0 <= t < |s.successors| && 0 <= u < |s.successors[t].successors| ==>
      Score(s.successors[t].successors[u].board, strayJ) >= Infinity
    ensures forall t :: 0 <= t < |s.successors| ==> SearchValue(s, t, strayJ) == Infinity
    ensures FirstArgMax(SearchValues(s, strayJ)) == 0
  {
    forall t | 0 <= t < |s.successors|
      ensures SearchValue(s, t, strayJ) == Infinity
    {
      MinLoopSaturated(s.successors[t], 0, s.nextPlayer, Opponent(s.nextPlayer), strayJ);
    }
    FirstArgMaxUnique(SearchValues(s, strayJ), 0);
  }

  class Player {
    /** The maximising player and its opponent, set by `Play`. */
    var maxP: Mark
    var minP: Mark

    /** Scores every successor with `AlphaBeta` at depth 1 and the full
      * window, and keeps the first successor of maximal value, provided
      * that value beats the initial floor. */
    method Play(s: GameState<Board>, strayJ: Index) returns (r: Reply<Board>)
      modifies this
      ensures maxP == s.nextPlayer && minP == Opponent(s.nextPlayer)
      ensures |s.successors| == 0 ==> r == NoMove(s)
      ensures r.Moved? ==> r.next in s.successors
      ensures |s.successors| > 0 && r.NoMove? ==> false
      ensures |s.successors| > 0 ==>
        var vals := SearchValues(s, strayJ);
        var best := FirstArgMax(vals);
        r == if vals[best] > RootFloor then Moved(s.successors[best]) else Blank
      ensures (|s.successors| > 0 &&
        forall i :: 0 <= i < |s.successors| ==> LeavesInRange(s.successors[i], SearchDepth - 1, strayJ)) ==>
          var vals := ChildValues(s, Opponent(s.nextPlayer), SearchDepth - 1, s.nextPlayer, Opponent(s.nextPlayer), strayJ);
          var best := FirstArgMax(vals);
          r == if vals[best] > RootFloor then Moved(s.successors[best]) else Blank
    {
      var depth := SearchDepth;
      var alpha, beta := -Infinity, Infinity;
      maxP := s.nextPlayer;
      minP := Opponent(maxP);
      if |s.successors| == 0 {
        return NoMove(s);
      }
      var bestValue := RootFloor;
      ghost var best := -1;
      r := Blank;
      for i := 0 to |s.successors|
        invariant maxP == s.nextPlayer && minP == Opponent(s.nextPlayer)
        invariant best == RootPick(s, i, strayJ)
        invariant best < 0 ==> r == Blank && bestValue == RootFloor
        invariant best >= 0 ==> r == Moved(s.successors[best]) && bestValue == SearchValue(s, best, strayJ)
      {
        var v := AlphaBeta(s.successors[i], minP, depth - 1, alpha, beta, strayJ);
        if v > bestValue {
          bestValue := v;
          best := i;
          r := Moved(s.successors[i]);
        }
      }
      RootPickMatchesFirstArgMax(s, strayJ);
      if forall i :: 0 <= i < |s.successors| ==> LeavesInRange(s.successors[i], depth - 1, strayJ) {
        SearchIsMinimax(s, strayJ);
      }
    }

    /** Minimax with alpha-beta cut-offs. With alpha < beta, a minimax value
      * inside the window is returned exactly; otherwise the result lies on
      * the same side of the window as the minimax value. */
    method AlphaBeta(s: GameState<Board>, player: Mark, depth: int, alpha: int, beta: int, strayJ: Index) returns (v: int)
      ensures v == AlphaBetaValue(s, player, depth, alpha, beta, maxP, minP, strayJ)
      ensures depth == 0 || |s.successors| == 0 ==> v == Score(s.board, strayJ)
      ensures alpha < beta && LeavesInRange(s, depth, strayJ) ==>
        Window(v, Minimax(s, player, depth, maxP, minP, strayJ), alpha, beta)
      decreases s, 1
    {
      if alpha < beta && LeavesInRange(s, depth, strayJ) {
        AlphaBetaWindow(s, player, depth, alpha, beta, maxP, minP, strayJ);
      }
      if depth == 0 || |s.successors| == 0 {
        v := Evaluation(s.board, strayJ);
      } else if player == maxP {
        v := MaxNode(s, depth, alpha, beta, strayJ);
      } else {
        v := MinNode(s, depth, alpha, beta, strayJ);
      }
    }

    /** The max branch of `alphabeta`: `v` starts at -Infinity, takes the
      * maximum with each child's value, raises `alpha` to it, and the loop
      * stops right after the first child at which `beta <= alpha`. */
    method MaxNode(s: GameState<Board>, depth: int, alpha: int, beta: int, strayJ: Index) returns (v: int)
      requires depth != 0 && |s.successors| > 0
      ensures v == MaxLoop(s, 0, -Infinity, alpha, beta, depth - 1, maxP, minP, strayJ)
      ensures alpha < beta && LeavesInRange(s, depth, strayJ) ==>
        Window(v, BestMax(s, |s.successors|, minP, depth - 1, maxP, minP, strayJ), alpha, beta)
      decreases s, 0
    {
      if alpha < beta && LeavesInRange(s, depth, strayJ) {
        MaxLoopWindow(s, 0, -Infinity, alpha, -Infinity, alpha, beta, depth - 1, maxP, minP, strayJ);
      }
      var a := alpha;
      v := -Infinity;
      var i := 0;
      while i < |s.successors|
        invariant 0 <= i <= |s.successors|
        invariant MaxLoop(s, i, v, a, beta, depth - 1, maxP, minP, strayJ)
          == MaxLoop(s, 0, -Infinity, alpha, beta, depth - 1, maxP, minP, strayJ)
      {
        var r := AlphaBeta(s.successors[i], minP, depth - 1, a, beta, strayJ);
        v := Max2(v, r);
        a := Max2(a, v);
        i := i + 1;
        if beta <= a {
          return;
        }
      }
    }

    /** The min branch of `alphabeta`, the mirror image of `MaxNode`. */
    method MinNode(s: GameState<Board>, depth: int, alpha: int, beta: int, strayJ: Index) returns (v: int)
      requires depth != 0 && |s.successors| > 0
      ensures v == MinLoop(s, 0, Infinity, alpha, beta, depth - 1, maxP, minP, strayJ)
      ensures alpha < beta && LeavesInRange(s, depth, strayJ) ==>
        Window(v, BestMin(s, |s.successors|, maxP, depth - 1, maxP, minP, strayJ), alpha, beta)
      decreases s, 0
    {
      if alpha < beta && LeavesInRange(s, depth, strayJ) {
        MinLoopWindow(s, 0, Infinity, beta, Infinity, alpha, beta, depth - 1, maxP, minP, strayJ);
      }
      var b := beta;
      v := Infinity;
      var i := 0;
      while i < |s.successors|
        invariant 0 <= i <= |s.successors|
        invariant MinLoop(s, i, v, alpha, b, depth - 1, maxP, minP, strayJ)
          == MinLoop(s, 0, Infinity, alpha, beta, depth - 1, maxP, minP, strayJ)
      {
        var r := AlphaBeta(s.successors[i], maxP, depth - 1, alpha, b, strayJ);
        v := Min2(v, r);
        b := Min2(b, v);
        i := i + 1;
        if b <= alpha {
          return;
        }
      }
    }

    /** The 76-scan evaluator: ten scans per layer, four per row slab, four
      * per column slab and the four space diagonals. */
    method Evaluation(b: Board, strayJ: Index) returns (score: int)
      ensures score == Score(b, strayJ)
    {
      score := 0;
      for k := 0 to 4
        invariant score == Total(b, LayersUpTo(strayJ, k))
      {
        score := AddCumulativeSweep(b, LayerRows(k), score);
        score := AddCumulativeSweep(b, LayerColumns(k), score);
        score := AddLine(b, LayerStray(k, strayJ), score);
        score := AddLine(b, LayerAnti(k), score);
        LayerTotal(b, k, strayJ);
        TotalAppend(b, LayersUpTo(strayJ, k), LayerScans(k, strayJ));
      }
      for i := 0 to 4
        invariant score == Total(b, LayersUpTo(strayJ, 4)) + Total(b, RowSlabsUpTo(i))
      {
        score := AddPlaneSweep(b, RowSlabByLayer(i), score);
        score := AddPlaneSweep(b, RowSlabByColumn(i), score);
        score := AddLine(b, RowSlabDiagonal(i), score);
        score := AddLine(b, RowSlabAnti(i), score);
        FourTotal(b, Region(RowSlabByLayer(i), 4), Region(RowSlabByColumn(i), 4),
          Straight(RowSlabDiagonal(i)), Straight(RowSlabAnti(i)));
        TotalAppend(b, RowSlabsUpTo(i), RowSlabScans(i));
      }
      for j := 0 to 4
        invariant score == Total(b, LayersUpTo(strayJ, 4)) + Total(b, RowSlabsUpTo(4)) + Total(b, ColumnSlabsUpTo(j))
      {
        score := AddPlaneSweep(b, ColumnSlabByRow(j), score);
        score := AddPlaneSweep(b, ColumnSlabByLayer(j), score);
        score := AddLine(b, ColumnSlabDiagonal(j), score);
        score := AddLine(b, ColumnSlabAnti(j), score);
        FourTotal(b, Region(ColumnSlabByRow(j), 4), Region(ColumnSlabByLayer(j), 4),
          Straight(ColumnSlabDiagonal(j)), Straight(ColumnSlabAnti(j)));
        TotalAppend(b, ColumnSlabsUpTo(j), ColumnSlabScans(j));
      }
      score := AddLine(b, SpaceDiagonal1, score);
      score := AddLine(b, SpaceDiagonal2, score);
      score := AddLine(b, SpaceDiagonal3, score);
      score := AddLine(b, SpaceDiagonal4, score);
      FourTotal(b, Straight(SpaceDiagonal1), Straight(SpaceDiagonal2),
        Straight(SpaceDiagonal3), Straight(SpaceDiagonal4));
      TotalAppend(b, LayersUpTo(strayJ, 4), RowSlabsUpTo(4));
      TotalAppend(b, LayersUpTo(strayJ, 4) + RowSlabsUpTo(4), ColumnSlabsUpTo(4));
      TotalAppend(b, LayersUpTo(strayJ, 4) + RowSlabsUpTo(4) + ColumnSlabsUpTo(4), SpaceDiagonals());
    }
  }
}
