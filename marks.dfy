/** Cell contents and player identities. Both agents store them as `uint8_t`
  * flags and compare them with `==`; the opponent is computed with a XOR. */
module Marks {

  type Mark = bv8

  /** The values of `CELL_EMPTY`, `CELL_X` and `CELL_O`. Only the fact that the
    * X and O flags are distinct single bits is used below. */
  const CellEmpty: Mark := 0
  const CellX: Mark := 1
  const CellO: Mark := 2

  /** A board coordinate: every loop of both evaluators runs 0..3. */
  type Index = x: int | 0 <= x < 4

  /** The opponent of `p`: `p ^ (CELL_X | CELL_O)`. */
  function Opponent(p: Mark): (q: Mark)
    ensures p == CellX <==> q == CellO
    ensures p == CellO <==> q == CellX
    ensures q != p
  {
    p ^ (CellX | CellO)
  }

  /** Taking the opponent twice gives back the player, for every flag value. */
  lemma OpponentTwice(p: Mark)
    ensures Opponent(Opponent(p)) == p
  {
  }

  /** Exchanging the two players' marks on a single cell. */
  function SwapMark(c: Mark): (d: Mark)
    ensures c == CellX <==> d == CellO
    ensures c == CellO <==> d == CellX
    ensures c != CellX && c != CellO ==> d == c
  {
    if c == CellX then CellO else if c == CellO then CellX else c
  }

  /** Exchanging X and O on every cell of a board. */
  function SwapBoard(b: seq<Mark>): (s: seq<Mark>)
    ensures |s| == |b|
    ensures forall p :: 0 <= p < |b| ==> s[p] == SwapMark(b[p])
  {
    seq(|b|, p requires 0 <= p < |b| => SwapMark(b[p]))
  }

  /** No cell holds either player's mark. */
  predicate Blank(b: seq<Mark>)
  {
    forall p :: 0 <= p < |b| ==> b[p] != CellX && b[p] != CellO
  }
}
