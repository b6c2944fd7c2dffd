/** What the 2D agent's `evaluation` computes, as a specification. The board
  * is 4x4; `at(i, j)` is row i, column j. Ten passes each add the tier of the
  * X count and subtract the tier of the O count, where the tiers are 1, 10
  * and 100 for one, two and three marks and 0 otherwise. */
module Grid {
  import opened Marks

  type Board = b: seq<Mark> | |b| == 16 witness seq(16, _ => CellEmpty)

  function CellAt(b: Board, i: Index, j: Index): Mark
  {
    b[4 * i + j]
  }

  /** The ten four-cell lines the passes walk, indexed by `p`. */
  datatype Line =
    | Row(r: Index)          // at(r, p)
    | Column(c: Index)       // at(p, c)
    | Diagonal               // at(p, p)
    | AntiDiagonal           // at(p, 3 - p)

  function LineCell(b: Board, l: Line, p: Index): Mark
  {
    match l
    case Row(r) => CellAt(b, r, p)
    case Column(c) => CellAt(b, p, c)
    case Diagonal => CellAt(b, p, p)
    case AntiDiagonal => CellAt(b, p, 3 - p)
  }

  /** How many of the first `n` cells of `l` hold `m`. */
  function Count(b: Board, m: Mark, l: Line, n: int): int
    requires 0 <= n <= 4
  {
    if n == 0 then 0
    else Count(b, m, l, n - 1) + (if LineCell(b, l, n - 1) == m then 1 else 0)
  }

  /** The if-chain on a counter: 100 for three, 10 for two, 1 for one, and
    * nothing for zero or for a full line of four. */
  function Tier(n: int): int
  {
    if n == 3 then 100 else if n == 2 then 10 else if n == 1 then 1 else 0
  }

  function LineValue(numX: int, numO: int): int
  {
    Tier(numX) - Tier(numO)
  }

  /** The first `n` passes of the row loop. */
  function RowsValue(b: Board, n: int): int
    requires 0 <= n <= 4
  {
    if n == 0 then 0
    else RowsValue(b, n - 1) + LineValue(Count(b, CellX, Row(n - 1), 4), Count(b, CellO, Row(n - 1), 4))
  }

  /** The first `n` passes of the column loop: X is counted down column `i`,
    * but O is counted on `at(j, j)`, which is the diagonal in every pass. */
  function ColumnsValue(b: Board, n: int): int
    requires 0 <= n <= 4
  {
    if n == 0 then 0
    else ColumnsValue(b, n - 1) + LineValue(Count(b, CellX, Column(n - 1), 4), Count(b, CellO, Diagonal, 4))
  }

  function DiagonalValue(b: Board): int
  {
    LineValue(Count(b, CellX, Diagonal, 4), Count(b, CellO, Diagonal, 4))
  }

  function AntiDiagonalValue(b: Board): int
  {
    LineValue(Count(b, CellX, AntiDiagonal, 4), Count(b, CellO, AntiDiagonal, 4))
  }

  function Score(b: Board): int
  {
    RowsValue(b, 4) + ColumnsValue(b, 4) + DiagonalValue(b) + AntiDiagonalValue(b)
  }

  /** A line holds at most four marks in all. */
  lemma {:induction false} CountBounds(b: Board, l: Line, n: int)
    requires 0 <= n <= 4
    ensures 0 <= Count(b, CellX, l, n) && 0 <= Count(b, CellO, l, n)
    ensures Count(b, CellX, l, n) + Count(b, CellO, l, n) <= n
  {
    if n > 0 {
      CountBounds(b, l, n - 1);
    }
  }

  /** The tier table the doc comment describes: one line adds 1, 10 or 100
    * for one, two or three X with no O, and a full line of four adds nothing. */
  lemma LineTable(b: Board, l: Line)
    requires Count(b, CellO, l, 4) == 0
    ensures Count(b, CellX, l, 4) == 1 ==> LineValue(Count(b, CellX, l, 4), 0) == 1
    ensures Count(b, CellX, l, 4) == 2 ==> LineValue(Count(b, CellX, l, 4), 0) == 10
    ensures Count(b, CellX, l, 4) == 3 ==> LineValue(Count(b, CellX, l, 4), 0) == 100
    ensures Count(b, CellX, l, 4) == 4 ==> LineValue(Count(b, CellX, l, 4), 0) == 0
    ensures 0 <= LineValue(Count(b, CellX, l, 4), Count(b, CellO, l, 4)) <= 100
  {
  }

  /** A row full of X: counted as four, it scores the same as an empty row. */
  lemma {:induction false} FullRowScoresNothing(b: Board, r: Index)
    requires forall p: Index :: CellAt(b, r, p) == CellX
    ensures Count(b, CellX, Row(r), 4) == 4
    ensures LineValue(Count(b, CellX, Row(r), 4), Count(b, CellO, Row(r), 4)) == 0
  {
    assert CellAt(b, r, 0) == CellX && CellAt(b, r, 1) == CellX;
    assert CellAt(b, r, 2) == CellX && CellAt(b, r, 3) == CellX;
    assert Count(b, CellX, Row(r), 1) == 1;
    assert Count(b, CellX, Row(r), 2) == 2;
    assert Count(b, CellX, Row(r), 3) == 3;
    CountBounds(b, Row(r), 4);
  }

  lemma {:induction false} RowsBound(b: Board, n: int)
    requires 0 <= n <= 4
    ensures -100 * n <= RowsValue(b, n) <= 100 * n
  {
    if n > 0 {
      RowsBound(b, n - 1);
    }
  }

  lemma {:induction false} ColumnsBound(b: Board, n: int)
    requires 0 <= n <= 4
    ensures -100 * n <= ColumnsValue(b, n) <= 100 * n
  {
    if n > 0 {
      ColumnsBound(b, n - 1);
    }
  }

  /** Ten contributions of at most 100 each. */
  lemma ScoreBound(b: Board)
    ensures -1000 <= Score(b) <= 1000
  {
    RowsBound(b, 4);
    ColumnsBound(b, 4);
  }

  lemma {:induction false} BlankCount(b: Board, m: Mark, l: Line, n: int)
    requires Blank(b) && (m == CellX || m == CellO)
    requires 0 <= n <= 4
    ensures Count(b, m, l, n) == 0
  {
    if n > 0 {
      BlankCount(b, m, l, n - 1);
      var p: Index := n - 1;
      match l
      case Row(r) => assert b[4 * r + p] != m;
      case Column(c) => assert b[4 * p + c] != m;
      case Diagonal => assert b[4 * p + p] != m;
      case AntiDiagonal => assert b[4 * p + (3 - p)] != m;
    }
  }

  lemma {:induction false} BlankPasses(b: Board, n: int)
    requires Blank(b) && 0 <= n <= 4
    ensures RowsValue(b, n) == 0 && ColumnsValue(b, n) == 0
  {
    if n > 0 {
      BlankPasses(b, n - 1);
      BlankCount(b, CellX, Row(n - 1), 4);
      BlankCount(b, CellO, Row(n - 1), 4);
      BlankCount(b, CellX, Column(n - 1), 4);
      BlankCount(b, CellO, Diagonal, 4);
    }
  }

  lemma EmptyBoardScoresZero(b: Board)
    requires Blank(b)
    ensures Score(b) == 0
  {
    BlankPasses(b, 4);
    BlankCount(b, CellX, Diagonal, 4);
    BlankCount(b, CellO, Diagonal, 4);
    BlankCount(b, CellX, AntiDiagonal, 4);
    BlankCount(b, CellO, AntiDiagonal, 4);
  }

  /** Exchanging X and O exchanges the two counts on every line. */
  lemma {:induction false} SwapCount(b: Board, l: Line, n: int)
    requires 0 <= n <= 4
    ensures Count(SwapBoard(b), CellX, l, n) == Count(b, CellO, l, n)
    ensures Count(SwapBoard(b), CellO, l, n) == Count(b, CellX, l, n)
  {
    if n > 0 {
      SwapCount(b, l, n - 1);
      var p: Index := n - 1;
      match l
      case Row(r) => assert SwapBoard(b)[4 * r + p] == SwapMark(b[4 * r + p]);
      case Column(c) => assert SwapBoard(b)[4 * p + c] == SwapMark(b[4 * p + c]);
      case Diagonal => assert SwapBoard(b)[4 * p + p] == SwapMark(b[4 * p + p]);
      case AntiDiagonal => assert SwapBoard(b)[4 * p + (3 - p)] == SwapMark(b[4 * p + (3 - p)]);
    }
  }

  lemma {:induction false} SwapRows(b: Board, n: int)
    requires 0 <= n <= 4
    ensures RowsValue(SwapBoard(b), n) == -RowsValue(b, n)
  {
    if n > 0 {
      SwapRows(b, n - 1);
      SwapCount(b, Row(n - 1), 4);
    }
  }

  /** Exchanging X and O negates the row passes and both diagonal passes. */
  lemma SwapNegatesRowsAndDiagonals(b: Board)
    ensures RowsValue(SwapBoard(b), 4) == -RowsValue(b, 4)
    ensures DiagonalValue(SwapBoard(b)) == -DiagonalValue(b)
    ensures AntiDiagonalValue(SwapBoard(b)) == -AntiDiagonalValue(b)
  {
    SwapRows(b, 4);
    SwapCount(b, Diagonal, 4);
    SwapCount(b, AntiDiagonal, 4);
  }

  /** `b` holds `m` at row 0, column 1 and nothing anywhere else. */
  predicate LoneMark(b: Board, m: Mark)
  {
    && b[1] == m
    && forall k :: 0 <= k < 16 && k != 1 ==> b[k] == CellEmpty
  }

  lemma {:induction false} AbsentCount(b: Board, m: Mark, l: Line, n: int)
    requires 0 <= n <= 4
    requires forall p: Index :: LineCell(b, l, p) != m
    ensures Count(b, m, l, n) == 0
  {
    if n > 0 {
      AbsentCount(b, m, l, n - 1);
    }
  }

  /** The counts of a board with a single mark at row 0, column 1: one on
    * row 0 and one on column 1, none on any other line. */
  lemma LoneCounts(b: Board, m: Mark, l: Line)
    requires LoneMark(b, m) && (m == CellX || m == CellO)
    ensures Count(b, m, l, 4) == (if l == Row(0) || l == Column(1) then 1 else 0)
    ensures Count(b, Opponent(m), l, 4) == 0
  {
    var q := Opponent(m);
    assert forall p: Index :: LineCell(b, l, p) != q;
    AbsentCount(b, q, l, 4);
    if l == Row(0) {
      assert Count(b, m, l, 1) == 0;
      assert Count(b, m, l, 2) == 1;
      assert Count(b, m, l, 3) == 1;
    } else if l == Column(1) {
      assert Count(b, m, l, 1) == 1;
      assert Count(b, m, l, 2) == 1;
      assert Count(b, m, l, 3) == 1;
    } else {
      assert forall p: Index :: LineCell(b, l, p) != m;
      AbsentCount(b, m, l, 4);
    }
  }

  lemma LoneXScores(b: Board)
    requires LoneMark(b, CellX)
    ensures ColumnsValue(b, 4) == 1
    ensures Score(b) == 2
  {
    forall l: Line ensures Count(b, CellX, l, 4) == (if l == Row(0) || l == Column(1) then 1 else 0)
      && Count(b, CellO, l, 4) == 0 {
      LoneCounts(b, CellX, l);
    }
    assert RowsValue(b, 1) == 1 && RowsValue(b, 2) == 1 && RowsValue(b, 3) == 1;
    assert ColumnsValue(b, 1) == 0 && ColumnsValue(b, 2) == 1 && ColumnsValue(b, 3) == 1;
  }

  lemma LoneOScores(b: Board)
    requires LoneMark(b, CellO)
    ensures ColumnsValue(b, 4) == 0
    ensures Score(b) == -1
  {
    forall l: Line ensures Count(b, CellO, l, 4) == (if l == Row(0) || l == Column(1) then 1 else 0)
      && Count(b, CellX, l, 4) == 0 {
      LoneCounts(b, CellO, l);
    }
    assert RowsValue(b, 1) == -1 && RowsValue(b, 2) == -1 && RowsValue(b, 3) == -1;
    assert Count(b, CellO, Diagonal, 4) == 0;
    assert ColumnsValue(b, 1) == 0;
    assert Count(b, CellX, Column(1), 4) == 0;
    assert ColumnsValue(b, 2) == 0;
    assert ColumnsValue(b, 3) == 0;
  }

  /** The column pass is not symmetric: a lone X at row 0, column 1 adds 1
    * in its column pass, but a lone O there is never counted, since O is
    * looked for on the diagonal. So swapping the marks does not negate the
    * score: 2 becomes -1. */
  lemma ColumnPassNotSymmetric(b: Board)
    requires LoneMark(b, CellX)
    ensures ColumnsValue(b, 4) == 1 && ColumnsValue(SwapBoard(b), 4) == 0
    ensures Score(b) == 2 && Score(SwapBoard(b)) == -1
  {
    var w: Board := SwapBoard(b);
    assert LoneMark(w, CellO);
    LoneXScores(b);
    LoneOScores(w);
  }

  // ---------------------------------------------------------------------
  // Mirror images

  /** The board mirrored across its vertical axis: column `j` becomes column
    * `3 - j`. Rows go to rows, columns to columns and the diagonal to the
    * anti-diagonal, so the ten lines are the same ten lines. */
  function MirrorColumns(b: Board): (r: Board)
    ensures forall i: Index, j: Index :: CellAt(r, i, j) == CellAt(b, i, 3 - j)
  {
    seq(16, p requires 0 <= p < 16 => b[4 * (p / 4) + 3 - p % 4])
  }

  /** The line a line becomes under `MirrorColumns`. */
  function MirrorLine(l: Line): Line
  {
    match l
    case Row(r) => Row(r)
    case Column(c) => Column(3 - c)
    case Diagonal => AntiDiagonal
    case AntiDiagonal => Diagonal
  }

  /** A count over a whole line, one cell at a time. */
  lemma CountFour(b: Board, m: Mark, l: Line)
    ensures Count(b, m, l, 4) == (if LineCell(b, l, 0) == m then 1 else 0) + (if LineCell(b, l, 1) == m then 1 else 0)
      + (if LineCell(b, l, 2) == m then 1 else 0) + (if LineCell(b, l, 3) == m then 1 else 0)
  {
    assert Count(b, m, l, 1) == (if LineCell(b, l, 0) == m then 1 else 0);
    assert Count(b, m, l, 2) == Count(b, m, l, 1) + (if LineCell(b, l, 1) == m then 1 else 0);
  }

  /** Mirroring keeps every count: the mirrored line of the mirrored board
    * holds the same marks as the line itself. */
  lemma MirrorCount(b: Board, m: Mark, l: Line)
    ensures Count(MirrorColumns(b), m, MirrorLine(l), 4) == Count(b, m, l, 4)
  {
    var r, n := MirrorColumns(b), MirrorLine(l);
    if l.Row? {
      assert LineCell(r, n, 0) == LineCell(b, l, 3) && LineCell(r, n, 1) == LineCell(b, l, 2);
      assert LineCell(r, n, 2) == LineCell(b, l, 1) && LineCell(r, n, 3) == LineCell(b, l, 0);
    } else {
      assert LineCell(r, n, 0) == LineCell(b, l, 0) && LineCell(r, n, 1) == LineCell(b, l, 1);
      assert LineCell(r, n, 2) == LineCell(b, l, 2) && LineCell(r, n, 3) == LineCell(b, l, 3);
    }
    CountFour(r, m, n);
    CountFour(b, m, l);
  }

  /** So the row passes and the two diagonal passes, taken together, score a
    * board and its mirror image alike. */
  lemma MirrorKeepsRowsAndDiagonals(b: Board)
    ensures RowsValue(MirrorColumns(b), 4) == RowsValue(b, 4)
    ensures DiagonalValue(MirrorColumns(b)) == AntiDiagonalValue(b)
    ensures AntiDiagonalValue(MirrorColumns(b)) == DiagonalValue(b)
  {
    forall l: Line, m: Mark ensures Count(MirrorColumns(b), m, MirrorLine(l), 4) == Count(b, m, l, 4) {
      MirrorCount(b, m, l);
    }
    assert RowsValue(MirrorColumns(b), 1) == RowsValue(b, 1);
    assert RowsValue(MirrorColumns(b), 2) == RowsValue(b, 2);
    assert RowsValue(MirrorColumns(b), 3) == RowsValue(b, 3);
  }

  /** A board whose only mark is `m`, on cell `k` of the row-major order. */
  predicate LoneAt(b: Board, m: Mark, k: int)
  {
    && 0 <= k < 16 && b[k] == m
    && forall q :: 0 <= q < 16 && q != k ==> b[q] == CellEmpty
  }

  /** The column passes are not mirror-symmetric: a lone O at row 1,
    * column 1 lies on the diagonal, so every column pass counts it and the
    * board scores -6; its mirror image, a lone O at row 1, column 2, is off
    * the diagonal and scores -2. */
  lemma MirrorNotSymmetric(b: Board)
    requires LoneAt(b, CellO, 5)
    ensures LoneAt(MirrorColumns(b), CellO, 6)
    ensures Score(b) == -6 && Score(MirrorColumns(b)) == -2
  {
    var w := MirrorColumns(b);
    assert CellAt(w, 1, 2) == CellAt(b, 1, 1);
    forall q | 0 <= q < 16 && q != 6
      ensures w[q] == CellEmpty
    {
      assert CellAt(w, q / 4, q % 4) == CellAt(b, q / 4, 3 - q % 4);
    }
    LoneOAt5(b);
    LoneOAt6(w);
  }

  lemma LoneOAt5(b: Board)
    requires LoneAt(b, CellO, 5)
    ensures Score(b) == -6
  {
    forall l: Line | l != Row(1) && l != Column(1) && l != Diagonal
      ensures Count(b, CellO, l, 4) == 0
    {
      AbsentCount(b, CellO, l, 4);
    }
    forall l: Line ensures Count(b, CellX, l, 4) == 0 {
      AbsentCount(b, CellX, l, 4);
    }
    assert Count(b, CellO, Row(1), 1) == 0 && Count(b, CellO, Row(1), 2) == 1 && Count(b, CellO, Row(1), 3) == 1;
    assert Count(b, CellO, Column(1), 1) == 0 && Count(b, CellO, Column(1), 2) == 1 && Count(b, CellO, Column(1), 3) == 1;
    assert Count(b, CellO, Diagonal, 1) == 0 && Count(b, CellO, Diagonal, 2) == 1 && Count(b, CellO, Diagonal, 3) == 1;
    assert RowsValue(b, 1) == 0 && RowsValue(b, 2) == -1 && RowsValue(b, 3) == -1;
    assert ColumnsValue(b, 1) == -1 && ColumnsValue(b, 2) == -2 && ColumnsValue(b, 3) == -3;
  }

  lemma LoneOAt6(b: Board)
    requires LoneAt(b, CellO, 6)
    ensures Score(b) == -2
  {
    forall l: Line | l != Row(1) && l != Column(2) && l != AntiDiagonal
      ensures Count(b, CellO, l, 4) == 0
    {
      AbsentCount(b, CellO, l, 4);
    }
    forall l: Line ensures Count(b, CellX, l, 4) == 0 {
      AbsentCount(b, CellX, l, 4);
    }
    assert Count(b, CellO, Row(1), 1) == 0 && Count(b, CellO, Row(1), 2) == 0 && Count(b, CellO, Row(1), 3) == 1;
    assert Count(b, CellO, Column(2), 1) == 0 && Count(b, CellO, Column(2), 2) == 1 && Count(b, CellO, Column(2), 3) == 1;
    assert Count(b, CellO, AntiDiagonal, 1) == 0 && Count(b, CellO, AntiDiagonal, 2) == 1 && Count(b, CellO, AntiDiagonal, 3) == 1;
    assert RowsValue(b, 1) == 0 && RowsValue(b, 2) == -1 && RowsValue(b, 3) == -1;
    assert Count(b, CellO, Diagonal, 4) == 0;
    assert ColumnsValue(b, 1) == 0;
    assert Count(b, CellX, Column(1), 4) == 0;
    assert ColumnsValue(b, 2) == 0;
    assert ColumnsValue(b, 3) == 0;
  }
}
