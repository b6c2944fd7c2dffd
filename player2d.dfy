/** The 4x4 agent: plain minimax with X maximising, a leaf counter, the
  * ten-line evaluator, and a root that returns a random successor. */
module Player2D {
  import opened Marks
  import opened Game
  import opened Folds
  import opened Grid

  /** The initial `bestPossible` of a max node, and of a min node. */
  const MaxFloor: int := -1000000
  const MinCeiling: int := 1000000
  /** The depth `play` searches to. */
  const PlayDepth: int := 3

  /** The value `minimax` returns: the evaluation at depth 0 or at a leaf,
    * otherwise the running maximum (for X) or minimum (for anyone else) of
    * the children's values, started from the sentinel. */
  function MinimaxValue(s: GameState<Board>, player: Mark, depth: int): int
    decreases s, 1
  {
    if |s.successors| == 0 || depth == 0 then Score(s.board)
    else if player == CellX then ChildrenMax(s, |s.successors|, depth - 1)
    else ChildrenMin(s, |s.successors|, depth - 1)
  }

  /** `bestPossible` after the first `n` children of a max node. */
  function ChildrenMax(s: GameState<Board>, n: int, depth: int): int
    requires 0 <= n <= |s.successors|
    decreases s, 0, n
  {
    if n == 0 then MaxFloor
    else Max2(ChildrenMax(s, n - 1, depth), MinimaxValue(s.successors[n - 1], CellO, depth))
  }

  /** `bestPossible` after the first `n` children of a min node. */
  function ChildrenMin(s: GameState<Board>, n: int, depth: int): int
    requires 0 <= n <= |s.successors|
    decreases s, 0, n
  {
    if n == 0 then MinCeiling
    else Min2(ChildrenMin(s, n - 1, depth), MinimaxValue(s.successors[n - 1], CellX, depth))
  }

  /** How many evaluations a call of `minimax` performs: one at a leaf or at
    * depth 0, otherwise the total over all children. */
  function LeafCount(s: GameState<Board>, depth: int): nat
    decreases s, 1
  {
    if |s.successors| == 0 || depth == 0 then 1
    else ChildLeaves(s, |s.successors|, depth - 1)
  }

  function ChildLeaves(s: GameState<Board>, n: int, depth: int): nat
    requires 0 <= n <= |s.successors|
    decreases s, 0, n
  {
    if n == 0 then 0 else ChildLeaves(s, n - 1, depth) + LeafCount(s.successors[n - 1], depth)
  }

  /** Every call evaluates at least one position, and an inner node evaluates
    * at least as many as any one of its children. */
  lemma {:induction false} LeafCountPositive(s: GameState<Board>, depth: int)
    ensures LeafCount(s, depth) >= 1
    ensures |s.successors| > 0 && depth != 0 ==>
      forall i :: 0 <= i < |s.successors| ==> LeafCount(s.successors[i], depth - 1) <= LeafCount(s, depth)
    decreases s, 1
  {
    if |s.successors| > 0 && depth != 0 {
      ChildLeavesBounds(s, |s.successors|, depth - 1);
    }
  }

  lemma {:induction false} ChildLeavesBounds(s: GameState<Board>, n: int, depth: int)
    requires 1 <= n <= |s.successors|
    ensures ChildLeaves(s, n, depth) >= n
    ensures forall i :: 0 <= i < n ==> LeafCount(s.successors[i], depth) <= ChildLeaves(s, n, depth)
    decreases s, 0, n
  {
    LeafCountPositive(s.successors[n - 1], depth);
    if n > 1 {
      ChildLeavesBounds(s, n - 1, depth);
    }
  }

  /** Every value minimax returns is an evaluation, hence within ±1000. */
  lemma {:induction false} MinimaxBound(s: GameState<Board>, player: Mark, depth: int)
    ensures -1000 <= MinimaxValue(s, player, depth) <= 1000
    decreases s, 1
  {
    if |s.successors| == 0 || depth == 0 {
      ScoreBound(s.board);
    } else {
      ChildrenBound(s, |s.successors|, depth - 1);
    }
  }

  lemma {:induction false} ChildrenBound(s: GameState<Board>, n: int, depth: int)
    requires 1 <= n <= |s.successors|
    ensures -1000 <= ChildrenMax(s, n, depth) <= 1000
    ensures -1000 <= ChildrenMin(s, n, depth) <= 1000
    decreases s, 0, n
  {
    MinimaxBound(s.successors[n - 1], CellO, depth);
    MinimaxBound(s.successors[n - 1], CellX, depth);
    if n > 1 {
      ChildrenBound(s, n - 1, depth);
    }
  }

  /** Past the first child the sentinel is gone: a max node's value is the
    * largest of its children's values, reached by one of them. */
  lemma {:induction false} ChildrenMaxIsMaximum(s: GameState<Board>, n: int, depth: int)
    requires 1 <= n <= |s.successors|
    ensures forall i :: 0 <= i < n ==> MinimaxValue(s.successors[i], CellO, depth) <= ChildrenMax(s, n, depth)
    ensures exists i :: 0 <= i < n && MinimaxValue(s.successors[i], CellO, depth) == ChildrenMax(s, n, depth)
    decreases n
  {
    MinimaxBound(s.successors[n - 1], CellO, depth);
    if n > 1 {
      ChildrenMaxIsMaximum(s, n - 1, depth);
    }
  }

  /** A min node's value is the smallest of its children's values, reached
    * by one of them. */
  lemma {:induction false} ChildrenMinIsMinimum(s: GameState<Board>, n: int, depth: int)
    requires 1 <= n <= |s.successors|
    ensures forall i :: 0 <= i < n ==> ChildrenMin(s, n, depth) <= MinimaxValue(s.successors[i], CellX, depth)
    ensures exists i :: 0 <= i < n && MinimaxValue(s.successors[i], CellX, depth) == ChildrenMin(s, n, depth)
    decreases n
  {
    MinimaxBound(s.successors[n - 1], CellX, depth);
    if n > 1 {
      ChildrenMinIsMinimum(s, n - 1, depth);
    }
  }

  /** At an inner node, X's value is the maximum over the children searched
    * with O to move, and any other player's value is the minimum over the
    * children searched with X to move; either way one child attains it. */
  lemma InnerNodeValue(s: GameState<Board>, player: Mark, depth: int)
    requires |s.successors| > 0 && depth != 0
    ensures player == CellX ==>
      (forall i :: 0 <= i < |s.successors| ==>
        MinimaxValue(s.successors[i], CellO, depth - 1) <= MinimaxValue(s, player, depth))
      && (exists i :: 0 <= i < |s.successors| &&
            MinimaxValue(s.successors[i], CellO, depth - 1) == MinimaxValue(s, player, depth))
    ensures player != CellX ==>
      (forall i :: 0 <= i < |s.successors| ==>
        MinimaxValue(s, player, depth) <= MinimaxValue(s.successors[i], CellX, depth - 1))
      && (exists i :: 0 <= i < |s.successors| &&
            MinimaxValue(s.successors[i], CellX, depth - 1) == MinimaxValue(s, player, depth))
  {
    if player == CellX {
      ChildrenMaxIsMaximum(s, |s.successors|, depth - 1);
    } else {
      ChildrenMinIsMinimum(s, |s.successors|, depth - 1);
    }
  }

  class Player {
    /** The file-scope counter `iter` of evaluated positions. */
    var iter: int

    /** The counter starts at zero. */
    constructor ()
      ensures iter == 0
    {
      iter := 0;
    }

    /** Runs minimax from the current state to depth 3, only for its effect
      * on the counter, and then returns the successor at `roll` modulo the
      * number of successors; `roll` stands for `rand()`. */
    method Play(s: GameState<Board>, roll: nat) returns (r: Reply<Board>)
      modifies this
      ensures |s.successors| == 0 ==> r == NoMove(s) && iter == old(iter)
      ensures |s.successors| > 0 ==>
        r == Moved(s.successors[roll % |s.successors|]) && iter == old(iter) + LeafCount(s, PlayDepth)
    {
      var deep := 0;
      if |s.successors| == 0 {
        return NoMove(s);
      }
      deep := PlayDepth;
      var sum := Minimax(s, s.nextPlayer, deep);
      r := Moved(s.successors[roll % |s.successors|]);
    }

    /** Plain minimax. Each evaluation adds one to `iter`. */
    method Minimax(s: GameState<Board>, player: Mark, depth: int) returns (v: int)
      modifies this
      ensures v == MinimaxValue(s, player, depth)
      ensures iter == old(iter) + LeafCount(s, depth)
      decreases s
    {
      if |s.successors| == 0 || depth == 0 {
        iter := iter + 1;
        v := Evaluation(s.board);
        return;
      }
      if player == CellX {
        v := MaxFloor;
        for i := 0 to |s.successors|
          invariant v == ChildrenMax(s, i, depth - 1)
          invariant iter == old(iter) + ChildLeaves(s, i, depth - 1)
        {
          var c := Minimax(s.successors[i], CellO, depth - 1);
          v := Max2(v, c);
        }
      } else {
        v := MinCeiling;
        for i := 0 to |s.successors|
          invariant v == ChildrenMin(s, i, depth - 1)
          invariant iter == old(iter) + ChildLeaves(s, i, depth - 1)
        {
          var c := Minimax(s.successors[i], CellX, depth - 1);
          v := Min2(v, c);
        }
      }
    }

    /** The ten-pass evaluator: four row passes, four column passes (with O
      * counted on the diagonal), the diagonal and the anti-diagonal. */
    method Evaluation(b: Board) returns (score: int)
      ensures score == Score(b)
    {
      score := 0;
      var numX, numO := 0, 0;
      for i := 0 to 4
        invariant score == RowsValue(b, i)
      {
        numX, numO := 0, 0;
        for j := 0 to 4
          invariant numX == Count(b, CellX, Row(i), j) && numO == Count(b, CellO, Row(i), j)
        {
          if CellAt(b, i, j) == CellX { numX := numX + 1; }
          if CellAt(b, i, j) == CellO { numO := numO + 1; }
        }
        score := AddTiers(score, numX, numO);
      }
      for i := 0 to 4
        invariant score == RowsValue(b, 4) + ColumnsValue(b, i)
      {
        numX, numO := 0, 0;
        for j := 0 to 4
          invariant numX == Count(b, CellX, Column(i), j) && numO == Count(b, CellO, Diagonal, j)
        {
          if CellAt(b, j, i) == CellX { numX := numX + 1; }
          if CellAt(b, j, j) == CellO { numO := numO + 1; }
        }
        score := AddTiers(score, numX, numO);
      }
      numX, numO := 0, 0;
      for i := 0 to 4
        invariant numX == Count(b, CellX, Diagonal, i) && numO == Count(b, CellO, Diagonal, i)
      {
        if CellAt(b, i, i) == CellX { numX := numX + 1; }
        if CellAt(b, i, i) == CellO { numO := numO + 1; }
      }
      score := AddTiers(score, numX, numO);
      numX, numO := 0, 0;
      for i := 0 to 4
        invariant numX == Count(b, CellX, AntiDiagonal, i) && numO == Count(b, CellO, AntiDiagonal, i)
      {
        if CellAt(b, i, 3 - i) == CellX { numX := numX + 1; }
        if CellAt(b, i, 3 - i) == CellO { numO := numO + 1; }
      }
      score := AddTiers(score, numX, numO);
    }
  }

  /** The two if-chains that follow every pass: add the X tier, then
    * subtract the O tier. */
  method AddTiers(score: int, numX: int, numO: int) returns (total: int)
    ensures total == score + LineValue(numX, numO)
  {
    total := score;
    if numX == 3 {
      total := total + 100;
    } else if numX == 2 {
      total := total + 10;
    } else if numX == 1 {
      total := total + 1;
    }
    if numO == 3 {
      total := total - 100;
    } else if numO == 2 {
      total := total - 10;
    } else if numO == 1 {
      total := total - 1;
    }
  }
}
