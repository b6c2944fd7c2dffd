/** What the 3D agent's `evaluation` computes, as a specification. The board
  * is 4x4x4; `at(i, j, k)` is row i, column j, layer k. The function sums one
  * contribution per scan, 76 in all, each `pow(10, num_x - 1) - pow(10, num_o - 1)`.
  * Here scores are kept in tenths, so a contribution is `10^num_x - 10^num_o`. */
module Cube {
  import opened Marks

  type Board = b: seq<Mark> | |b| == 64 witness seq(64, _ => CellEmpty)

  /** How many rows of a two-level scan are already counted (0..4). */
  type Rows = n: int | 0 <= n <= 4

  datatype Coord = Coord(i: Index, j: Index, k: Index)

  function At(b: Board, c: Coord): Mark
  {
    b[16 * c.k + 4 * c.i + c.j]
  }

  /** The six two-level scans. The outer index is `a`, the inner one `c`. */
  datatype Sweep =
    | LayerRows(k: Index)            // for i, for j: at(i, j, k)
    | LayerColumns(k: Index)         // for j, for i: at(i, j, k)
    | RowSlabByLayer(i: Index)       // for k, for j: at(i, j, k)
    | RowSlabByColumn(i: Index)      // for j, for k: at(i, j, k)
    | ColumnSlabByRow(j: Index)      // for i, for k: at(i, j, k)
    | ColumnSlabByLayer(j: Index)    // for k, for i: at(i, j, k)

  function SweepCell(sw: Sweep, a: Index, c: Index): Coord
  {
    match sw
    case LayerRows(k) => Coord(a, c, k)
    case LayerColumns(k) => Coord(c, a, k)
    case RowSlabByLayer(i) => Coord(i, c, a)
    case RowSlabByColumn(i) => Coord(i, a, c)
    case ColumnSlabByRow(j) => Coord(a, j, c)
    case ColumnSlabByLayer(j) => Coord(c, j, a)
  }

  /** The single-level scans of four cells, indexed by `p`. `LayerStray(k, j)`
    * is the in-layer scan that reads `at(i, j, k)` with the `j` of its
    * enclosing scope instead of `at(i, i, k)`: column `j` of layer `k`. */
  datatype Line =
    | LayerStray(k: Index, j: Index)   // at(p, j, k)
    | LayerAnti(k: Index)              // at(p, 3-p, k)
    | RowSlabDiagonal(i: Index)        // at(i, p, p)
    | RowSlabAnti(i: Index)            // at(i, p, 3-p)
    | ColumnSlabDiagonal(j: Index)     // at(p, j, p)
    | ColumnSlabAnti(j: Index)         // at(3-p, j, p)
    | SpaceDiagonal1                   // at(p, p, p)
    | SpaceDiagonal2                   // at(3-p, p, p)
    | SpaceDiagonal3                   // at(p, 3-p, p)
    | SpaceDiagonal4                   // at(p, p, 3-p)

  function LineCell(l: Line, p: Index): Coord
  {
    match l
    case LayerStray(k, j) => Coord(p, j, k)
    case LayerAnti(k) => Coord(p, 3 - p, k)
    case RowSlabDiagonal(i) => Coord(i, p, p)
    case RowSlabAnti(i) => Coord(i, p, 3 - p)
    case ColumnSlabDiagonal(j) => Coord(p, j, p)
    case ColumnSlabAnti(j) => Coord(3 - p, j, p)
    case SpaceDiagonal1 => Coord(p, p, p)
    case SpaceDiagonal2 => Coord(3 - p, p, p)
    case SpaceDiagonal3 => Coord(p, 3 - p, p)
    case SpaceDiagonal4 => Coord(p, p, 3 - p)
  }

  function Hit(b: Board, c: Coord, m: Mark): nat
  {
    if At(b, c) == m then 1 else 0
  }

  /** Marks `m` among the first `n` cells of row `a` of a sweep. */
  function CountRow(b: Board, m: Mark, sw: Sweep, a: Index, n: Rows): nat
  {
    if n == 0 then 0 else CountRow(b, m, sw, a, n - 1) + Hit(b, SweepCell(sw, a, n - 1), m)
  }

  /** Marks `m` in the first `rows` rows of a sweep. */
  function CountSweep(b: Board, m: Mark, sw: Sweep, rows: Rows): nat
  {
    if rows == 0 then 0 else CountSweep(b, m, sw, rows - 1) + CountRow(b, m, sw, rows - 1, 4)
  }

  /** Marks `m` among the first `n` cells of a line. */
  function CountLine(b: Board, m: Mark, l: Line, n: Rows): nat
  {
    if n == 0 then 0 else CountLine(b, m, l, n - 1) + Hit(b, LineCell(l, n - 1), m)
  }

  /** A scan is what one `score +=` statement sees: the counters since their
    * last reset, i.e. the first `rows` rows of a sweep, or one line. */
  datatype Scan = Region(sweep: Sweep, rows: Rows) | Straight(line: Line)

  function Tally(b: Board, m: Mark, sc: Scan): nat
  {
    match sc
    case Region(sw, rows) => CountSweep(b, m, sw, rows)
    case Straight(l) => CountLine(b, m, l, 4)
  }

  function Pow10(n: nat): nat
  {
    if n == 0 then 1 else 10 * Pow10(n - 1)
  }

  /** `pow(10, nx - 1) - pow(10, no - 1)`, in tenths. */
  function Contribution(nx: nat, no: nat): int
  {
    Pow10(nx) - Pow10(no)
  }

  function ScanValue(b: Board, sc: Scan): int
  {
    Contribution(Tally(b, CellX, sc), Tally(b, CellO, sc))
  }

  function Total(b: Board, scans: seq<Scan>): int
  {
    if scans == [] then 0 else ScanValue(b, scans[0]) + Total(b, scans[1..])
  }

  /** One `score +=` after each row of a sweep, with counters reset only
    * before the first row. */
  function Cumulative(sw: Sweep): (s: seq<Scan>)
  {
    seq(4, a requires 0 <= a < 4 => Region(sw, a + 1))
  }

  /** The scans of layer `k`: rows, columns, the stray-column scan and the
    * anti-diagonal. */
  function LayerScans(k: Index, strayJ: Index): seq<Scan>
  {
    Cumulative(LayerRows(k)) + Cumulative(LayerColumns(k))
      + [Straight(LayerStray(k, strayJ)), Straight(LayerAnti(k))]
  }

  /** The scans of the slab of cells with row index `i`. */
  function RowSlabScans(i: Index): seq<Scan>
  {
    [Region(RowSlabByLayer(i), 4), Region(RowSlabByColumn(i), 4),
     Straight(RowSlabDiagonal(i)), Straight(RowSlabAnti(i))]
  }

  /** The scans of the slab of cells with column index `j`. */
  function ColumnSlabScans(j: Index): seq<Scan>
  {
    [Region(ColumnSlabByRow(j), 4), Region(ColumnSlabByLayer(j), 4),
     Straight(ColumnSlabDiagonal(j)), Straight(ColumnSlabAnti(j))]
  }

  function SpaceDiagonals(): seq<Scan>
  {
    [Straight(SpaceDiagonal1), Straight(SpaceDiagonal2),
     Straight(SpaceDiagonal3), Straight(SpaceDiagonal4)]
  }

  function LayersUpTo(strayJ: Index, n: Rows): seq<Scan>
  {
    if n == 0 then [] else LayersUpTo(strayJ, n - 1) + LayerScans(n - 1, strayJ)
  }

  function RowSlabsUpTo(n: Rows): seq<Scan>
  {
    if n == 0 then [] else RowSlabsUpTo(n - 1) + RowSlabScans(n - 1)
  }

  function ColumnSlabsUpTo(n: Rows): seq<Scan>
  {
    if n == 0 then [] else ColumnSlabsUpTo(n - 1) + ColumnSlabScans(n - 1)
  }

  /** Every scan of `evaluation`, in the order the code adds them. */
  function Scans(strayJ: Index): seq<Scan>
  {
    LayersUpTo(strayJ, 4) + RowSlabsUpTo(4) + ColumnSlabsUpTo(4) + SpaceDiagonals()
  }

  /** The value `evaluation` returns, in tenths. */
  function Score(b: Board, strayJ: Index): int
  {
    Total(b, Scans(strayJ))
  }

  // ---------------------------------------------------------------------
  // Properties of the specification

  lemma {:induction false} TotalAppend(b: Board, s: seq<Scan>, t: seq<Scan>)
    ensures Total(b, s + t) == Total(b, s) + Total(b, t)
  {
    if s != [] {
      assert (s + t)[1..] == s[1..] + t;
      TotalAppend(b, s[1..], t);
    } else {
      assert s + t == t;
    }
  }

  lemma {:induction false} LayersLength(strayJ: Index, n: Rows)
    ensures |LayersUpTo(strayJ, n)| == 10 * n
  {
    if n > 0 { LayersLength(strayJ, n - 1); }
  }

  /** `evaluation` adds exactly 76 contributions: 40 in the layers, 16 in
    * each family of slabs and 4 along the space diagonals. */
  lemma ScanCount(strayJ: Index)
    ensures |LayersUpTo(strayJ, 4)| == 40
    ensures |RowSlabsUpTo(4)| == 16 && |ColumnSlabsUpTo(4)| == 16
    ensures |Scans(strayJ)| == 76
  {
  }

  lemma {:induction false} BlankCounts(b: Board, m: Mark, sc: Scan)
    requires Blank(b) && (m == CellX || m == CellO)
    ensures Tally(b, m, sc) == 0
  {
    match sc
    case Region(sw, rows) => BlankSweep(b, m, sw, rows);
    case Straight(l) => BlankLine(b, m, l, 4);
  }

  lemma {:induction false} BlankRow(b: Board, m: Mark, sw: Sweep, a: Index, n: Rows)
    requires Blank(b) && (m == CellX || m == CellO)
    ensures CountRow(b, m, sw, a, n) == 0
  {
    if n > 0 { BlankRow(b, m, sw, a, n - 1); }
  }

  lemma {:induction false} BlankSweep(b: Board, m: Mark, sw: Sweep, rows: Rows)
    requires Blank(b) && (m == CellX || m == CellO)
    ensures CountSweep(b, m, sw, rows) == 0
  {
    if rows > 0 {
      BlankSweep(b, m, sw, rows - 1);
      BlankRow(b, m, sw, rows - 1, 4);
    }
  }

  lemma {:induction false} BlankLine(b: Board, m: Mark, l: Line, n: Rows)
    requires Blank(b) && (m == CellX || m == CellO)
    ensures CountLine(b, m, l, n) == 0
  {
    if n > 0 { BlankLine(b, m, l, n - 1); }
  }

  lemma {:induction false} BlankTotal(b: Board, scans: seq<Scan>)
    requires Blank(b)
    ensures Total(b, scans) == 0
  {
    if scans != [] {
      BlankCounts(b, CellX, scans[0]);
      BlankCounts(b, CellO, scans[0]);
      BlankTotal(b, scans[1..]);
    }
  }

  /** A board without marks scores 0: every scan contributes 10^0 - 10^0. */
  lemma EmptyBoardScoresZero(b: Board, strayJ: Index)
    requires Blank(b)
    ensures Score(b, strayJ) == 0
  {
    BlankTotal(b, Scans(strayJ));
  }

  lemma SwapCell(b: Board, m: Mark, c: Coord)
    ensures Hit(SwapBoard(b), c, SwapMark(m)) == Hit(b, c, m)
  {
  }

  lemma {:induction false} SwapRow(b: Board, m: Mark, sw: Sweep, a: Index, n: Rows)
    ensures CountRow(SwapBoard(b), SwapMark(m), sw, a, n) == CountRow(b, m, sw, a, n)
  {
    if n > 0 {
      SwapRow(b, m, sw, a, n - 1);
      SwapCell(b, m, SweepCell(sw, a, n - 1));
    }
  }

  lemma {:induction false} SwapSweep(b: Board, m: Mark, sw: Sweep, rows: Rows)
    ensures CountSweep(SwapBoard(b), SwapMark(m), sw, rows) == CountSweep(b, m, sw, rows)
  {
    if rows > 0 {
      SwapSweep(b, m, sw, rows - 1);
      SwapRow(b, m, sw, rows - 1, 4);
    }
  }

  lemma {:induction false} SwapLine(b: Board, m: Mark, l: Line, n: Rows)
    ensures CountLine(SwapBoard(b), SwapMark(m), l, n) == CountLine(b, m, l, n)
  {
    if n > 0 {
      SwapLine(b, m, l, n - 1);
      SwapCell(b, m, LineCell(l, n - 1));
    }
  }

  /** Exchanging X and O exchanges the two tallies of a scan. */
  lemma SwapTally(b: Board, sc: Scan)
    ensures Tally(SwapBoard(b), CellX, sc) == Tally(b, CellO, sc)
    ensures Tally(SwapBoard(b), CellO, sc) == Tally(b, CellX, sc)
  {
    match sc
    case Region(sw, rows) =>
      SwapSweep(b, CellO, sw, rows);
      SwapSweep(b, CellX, sw, rows);
    case Straight(l) =>
      SwapLine(b, CellO, l, 4);
      SwapLine(b, CellX, l, 4);
  }

  lemma {:induction false} SwapTotal(b: Board, scans: seq<Scan>)
    ensures Total(SwapBoard(b), scans) == -Total(b, scans)
  {
    if scans != [] {
      SwapTally(b, scans[0]);
      SwapTotal(b, scans[1..]);
    }
  }

  /** Exchanging every X with an O and back negates the score. */
  lemma SwapNegatesScore(b: Board, strayJ: Index)
    ensures Score(SwapBoard(b), strayJ) == -Score(b, strayJ)
  {
    SwapTotal(b, Scans(strayJ));
  }

  lemma {:induction false} LineTallies(b: Board, l: Line, n: Rows)
    ensures CountLine(b, CellX, l, n) + CountLine(b, CellO, l, n) <= n
  {
    if n > 0 { LineTallies(b, l, n - 1); }
  }

  /** On a true line of four cells the counts are at most 4 together, and with
    * no O the line is worth 1000, 100, 10 or 1 for 4, 3, 2 or 1 X, minus the
    * 0.1 of `pow(10, -1)`, and nothing for no X. */
  lemma LineContribution(b: Board, l: Line)
    ensures Tally(b, CellX, Straight(l)) + Tally(b, CellO, Straight(l)) <= 4
    ensures Tally(b, CellO, Straight(l)) == 0 ==>
      ScanValue(b, Straight(l)) == [0, 9, 99, 999, 9999][Tally(b, CellX, Straight(l))]
  {
    LineTallies(b, l, 4);
    assert Pow10(1) == 10 && Pow10(2) == 100 && Pow10(3) == 1000 && Pow10(4) == 10000;
  }

  lemma {:induction false} RowTallies(b: Board, sw: Sweep, a: Index, n: Rows)
    ensures CountRow(b, CellX, sw, a, n) + CountRow(b, CellO, sw, a, n) <= n
  {
    if n > 0 { RowTallies(b, sw, a, n - 1); }
  }

  lemma {:induction false} SweepTallies(b: Board, sw: Sweep, rows: Rows)
    ensures CountSweep(b, CellX, sw, rows) + CountSweep(b, CellO, sw, rows) <= 4 * rows
  {
    if rows > 0 {
      SweepTallies(b, sw, rows - 1);
      RowTallies(b, sw, rows - 1, 4);
    }
  }

  /** The counters of a region scan are not reset between its rows, so they
    * reach up to 4 per row counted: up to 16 for a whole layer or slab. */
  lemma RegionTallies(b: Board, sw: Sweep, rows: Rows)
    ensures Tally(b, CellX, Region(sw, rows)) + Tally(b, CellO, Region(sw, rows)) <= 4 * rows
  {
    SweepTallies(b, sw, rows);
  }

  // ---------------------------------------------------------------------
  // How large a score gets

  /** A board with `m` in every cell. */
  predicate Filled(b: Board, m: Mark)
  {
    forall i :: 0 <= i < 64 ==> b[i] == m
  }

  lemma FilledCell(b: Board, c: Coord)
    requires Filled(b, CellX)
    ensures Hit(b, c, CellX) == 1 && Hit(b, c, CellO) == 0
  {
  }

  lemma {:induction false} FilledRow(b: Board, sw: Sweep, a: Index, n: Rows)
    requires Filled(b, CellX)
    ensures CountRow(b, CellX, sw, a, n) == n && CountRow(b, CellO, sw, a, n) == 0
  {
    if n > 0 {
      FilledRow(b, sw, a, n - 1);
      FilledCell(b, SweepCell(sw, a, n - 1));
    }
  }

  lemma {:induction false} FilledSweep(b: Board, sw: Sweep, rows: Rows)
    requires Filled(b, CellX)
    ensures CountSweep(b, CellX, sw, rows) == 4 * rows && CountSweep(b, CellO, sw, rows) == 0
  {
    if rows > 0 {
      FilledSweep(b, sw, rows - 1);
      FilledRow(b, sw, rows - 1, 4);
    }
  }

  lemma {:induction false} FilledLine(b: Board, l: Line, n: Rows)
    requires Filled(b, CellX)
    ensures CountLine(b, CellX, l, n) == n && CountLine(b, CellO, l, n) == 0
  {
    if n > 0 {
      FilledLine(b, l, n - 1);
      FilledCell(b, LineCell(l, n - 1));
    }
  }

  lemma {:induction false} Pow10Positive(n: nat)
    ensures Pow10(n) >= 1
  {
    if n > 0 { Pow10Positive(n - 1); }
  }

  /** With no O on the board no scan subtracts anything. */
  lemma {:induction false} FilledTotal(b: Board, scans: seq<Scan>, k: int)
    requires Filled(b, CellX) && 0 <= k < |scans|
    ensures Total(b, scans) >= ScanValue(b, scans[k]) >= 0
  {
    var sc := scans[0];
    if sc.Region? {
      FilledSweep(b, sc.sweep, sc.rows);
    } else {
      FilledLine(b, sc.line, 4);
    }
    Pow10Positive(Tally(b, CellX, sc));
    if k > 0 {
      FilledTotal(b, scans[1..], k - 1);
    } else if |scans| > 1 {
      FilledTotal(b, scans[1..], 0);
    }
  }

  /** The counters of the first layer's row pass are never reset between its
    * rows, so on a board full of X its last contribution counts 16 X and is
    * worth 10^16 - 1 tenths; no other scan subtracts anything. */
  lemma FilledBoardScore(b: Board, strayJ: Index)
    requires Filled(b, CellX)
    ensures Score(b, strayJ) >= 9_999_999_999_999_999
  {
    var sc := Region(LayerRows(0), 4);
    LayersLength(strayJ, 3);
    assert LayersUpTo(strayJ, 1) == LayerScans(0, strayJ);
    assert LayersUpTo(strayJ, 4)[3] == sc;
    assert Scans(strayJ)[3] == sc;
    FilledSweep(b, LayerRows(0), 4);
    assert Pow10(4) == 10_000;
    assert Pow10(8) == 100_000_000;
    assert Pow10(12) == 1_000_000_000_000;
    assert Pow10(16) == 10_000_000_000_000_000;
    FilledTotal(b, Scans(strayJ), 3);
  }

  lemma FourTotal(b: Board, w: Scan, x: Scan, y: Scan, z: Scan)
    ensures Total(b, [w, x, y, z]) == ScanValue(b, w) + ScanValue(b, x) + ScanValue(b, y) + ScanValue(b, z)
  {
    assert [w, x, y, z][1..] == [x, y, z];
    assert [x, y, z][1..] == [y, z];
    assert [y, z][1..] == [z];
    assert [z][1..] == [];
    assert Total(b, [z]) == ScanValue(b, z);
    assert Total(b, [y, z]) == ScanValue(b, y) + Total(b, [z]);
    assert Total(b, [x, y, z]) == ScanValue(b, x) + Total(b, [y, z]);
  }

  lemma {:induction false} Pow10Monotone(m: nat, n: nat)
    requires m <= n
    ensures Pow10(m) <= Pow10(n)
  {
    if m < n {
      Pow10Monotone(m, n - 1);
      Pow10Positive(n - 1);
    }
  }

  /** The row pass of a layer is not symmetric under mirroring the rows
    * (`i` to `3 - i`), though that maps lines of four to lines of four: its
    * counters are reset once per layer, so a lone X on row `i` is counted in
    * the contributions after rows `i` to 3, that is `4 - i` times. A lone X
    * on row 0 adds 36 tenths there, its mirror image on row 3 only 9. */
  lemma LoneRowPass(b: Board, c: Coord)
    requires LoneX(b, c)
    ensures Total(b, Cumulative(LayerRows(c.k))) == 9 * (4 - c.i)
  {
    var sw := LayerRows(c.k);
    forall r: Rows ensures ScanValue(b, Region(sw, r)) == if c.i < r then 9 else 0 {
      LoneSweep(b, c, r);
    }
    assert Cumulative(sw) == [Region(sw, 1), Region(sw, 2), Region(sw, 3), Region(sw, 4)];
    FourTotal(b, Region(sw, 1), Region(sw, 2), Region(sw, 3), Region(sw, 4));
  }

  /** A board whose only mark is an X on cell `c`. */
  ghost predicate LoneX(b: Board, c: Coord)
  {
    && At(b, c) == CellX
    && forall d: Coord :: d != c ==> At(b, d) == CellEmpty
  }

  lemma {:induction false} LoneRow(b: Board, c: Coord, a: Index, n: Rows)
    requires LoneX(b, c)
    ensures CountRow(b, CellX, LayerRows(c.k), a, n) == (if a == c.i && c.j < n then 1 else 0)
    ensures CountRow(b, CellO, LayerRows(c.k), a, n) == 0
  {
    if n > 0 {
      LoneRow(b, c, a, n - 1);
      assert SweepCell(LayerRows(c.k), a, n - 1) == Coord(a, n - 1, c.k);
    }
  }

  lemma {:induction false} LoneSweep(b: Board, c: Coord, rows: Rows)
    requires LoneX(b, c)
    ensures CountSweep(b, CellX, LayerRows(c.k), rows) == (if c.i < rows then 1 else 0)
    ensures CountSweep(b, CellO, LayerRows(c.k), rows) == 0
  {
    if rows > 0 {
      LoneSweep(b, c, rows - 1);
      LoneRow(b, c, rows - 1, 4);
    }
  }

  /** Three X on each of the first three rows of layer `k` and no O in the
    * layer: no line of four, yet the row pass's counters reach 3, 6, 9 and
    * 9, and its last two contributions are worth 10^9 - 1 tenths each. */
  lemma LayerRowsOverflow(b: Board, k: Index)
    requires forall a: Index, c: Index :: a < 3 && c < 3 ==> At(b, Coord(a, c, k)) == CellX
    requires forall a: Index, c: Index :: At(b, Coord(a, c, k)) != CellO
    ensures Total(b, Cumulative(LayerRows(k))) >= 1_999_999_998
  {
    var sw := LayerRows(k);
    forall a: Index | a < 3 ensures CountRow(b, CellX, sw, a, 4) >= 3 {
      ThreeInRow(b, k, a);
    }
    forall r: Rows ensures CountSweep(b, CellO, sw, r) == 0 {
      NoOSweep(b, k, r);
    }
    assert CountSweep(b, CellX, sw, 2) >= 6;
    assert CountSweep(b, CellX, sw, 3) >= 9;
    assert CountSweep(b, CellX, sw, 4) >= 9;
    Pow10Positive(CountSweep(b, CellX, sw, 1));
    Pow10Positive(CountSweep(b, CellX, sw, 2));
    Pow10Monotone(9, CountSweep(b, CellX, sw, 3));
    Pow10Monotone(9, CountSweep(b, CellX, sw, 4));
    assert Pow10(4) == 10_000;
    assert Pow10(8) == 100_000_000;
    assert Pow10(9) == 1_000_000_000;
    assert Cumulative(sw) == [Region(sw, 1), Region(sw, 2), Region(sw, 3), Region(sw, 4)];
    FourTotal(b, Region(sw, 1), Region(sw, 2), Region(sw, 3), Region(sw, 4));
  }

  lemma ThreeInRow(b: Board, k: Index, a: Index)
    requires forall c: Index :: c < 3 ==> At(b, Coord(a, c, k)) == CellX
    ensures CountRow(b, CellX, LayerRows(k), a, 4) >= 3
  {
    assert CountRow(b, CellX, LayerRows(k), a, 1) == 1;
    assert CountRow(b, CellX, LayerRows(k), a, 2) == 2;
    assert CountRow(b, CellX, LayerRows(k), a, 3) == 3;
  }

  lemma {:induction false} NoOSweep(b: Board, k: Index, rows: Rows)
    requires forall a: Index, c: Index :: At(b, Coord(a, c, k)) != CellO
    ensures CountSweep(b, CellO, LayerRows(k), rows) == 0
  {
    if rows > 0 {
      NoOSweep(b, k, rows - 1);
      NoORow(b, k, rows - 1, 4);
    }
  }

  lemma {:induction false} NoORow(b: Board, k: Index, a: Index, n: Rows)
    requires forall a: Index, c: Index :: At(b, Coord(a, c, k)) != CellO
    ensures CountRow(b, CellO, LayerRows(k), a, n) == 0
  {
    if n > 0 {
      NoORow(b, k, a, n - 1);
      assert At(b, SweepCell(LayerRows(k), a, n - 1)) != CellO;
    }
  }
}
