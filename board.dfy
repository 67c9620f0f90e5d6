/**
 * The Bagh-Chal board: a fixed 5x5 grid whose cells are empty or hold a
 * goat or a tiger, the game's constants, and counting over board contents.
 *
 * A board is represented, for specification purposes, as a flat sequence of
 * 25 cells in row-major order; `Index` and `PosOf` convert between a
 * (row, column) position and its place in that sequence.
 */
module Board {

  /** Side length of the board (script.js `gridSize`). */
  const GridSize: int := 5
  /** Number of cells on the board. */
  const CellCount: int := GridSize * GridSize
  /** Goats the goat side may place before it starts moving (`totalGoats`). */
  const TotalGoats: int := 20
  /** Captures after which the tigers win. */
  const CapturesToWin: int := 5
  /** Tigers on the board: one per corner, never added or removed. */
  const TigerCount: int := 4

  datatype Option<T> = None | Some(value: T)

  /** The two kinds of piece; also used for the side whose turn it is. */
  datatype Piece = Goat | Tiger

  /** A board cell: `null`, `'goat'` or `'tiger'` in the source. */
  datatype Cell = Empty | Holds(piece: Piece)

  /** The side that moves after `p`. */
  function Opponent(p: Piece): (q: Piece)
    ensures q != p
  {
    if p == Goat then Tiger else Goat
  }

  /** A (row, column) coordinate; it may lie off the board. */
  datatype Pos = Pos(r: int, c: int)

  predicate InGrid(p: Pos) {
    0 <= p.r < GridSize && 0 <= p.c < GridSize
  }

  /** Board contents, one cell per position, in row-major order. */
  type Grid = g: seq<Cell> | |g| == CellCount witness seq(25, _ => Empty)

  function PosOf(k: int): (p: Pos)
    requires 0 <= k < CellCount
    ensures InGrid(p)
  {
    Pos(k / GridSize, k % GridSize)
  }

  /** The place of an on-board position in the row-major sequence. */
  function Index(p: Pos): (k: int)
    requires InGrid(p)
    ensures 0 <= k < CellCount
    ensures PosOf(k) == p
  {
    p.r * GridSize + p.c
  }

  lemma PosOfIndex(k: int)
    requires 0 <= k < CellCount
    ensures Index(PosOf(k)) == k
  {
  }

  /** Number of cells of `g` equal to `x`. */
  function Count(g: seq<Cell>, x: Cell): nat {
    if g == [] then 0 else (if g[0] == x then 1 else 0) + Count(g[1..], x)
  }

  /** Overwriting one cell changes the count of `x` by what left and what arrived. */
  lemma {:induction false} CountUpdate(g: seq<Cell>, k: int, v: Cell, x: Cell)
    requires 0 <= k < |g|
    ensures Count(g[k := v], x)
         == Count(g, x) - (if g[k] == x then 1 else 0) + (if v == x then 1 else 0)
  {
    if k > 0 {
      assert g[k := v][1..] == g[1..][k - 1 := v];
      CountUpdate(g[1..], k - 1, v, x);
    } else {
      assert g[k := v][1..] == g[1..];
    }
  }

  /** Every cell is empty, a goat or a tiger, so the three counts add up to the size. */
  lemma {:induction false} CountPartition(g: seq<Cell>)
    ensures Count(g, Empty) + Count(g, Holds(Goat)) + Count(g, Holds(Tiger)) == |g|
  {
    if g != [] {
      CountPartition(g[1..]);
      match g[0]
      case Empty =>
      case Holds(p) => assert p == Goat || p == Tiger;
    }
  }

  /** A value that occurs in no cell has count zero. */
  lemma {:induction false} CountAbsent(g: seq<Cell>, x: Cell)
    requires forall k :: 0 <= k < |g| ==> g[k] != x
    ensures Count(g, x) == 0
  {
    if g != [] {
      assert forall k :: 0 <= k < |g[1..]| ==> g[1..][k] == g[k + 1];
      CountAbsent(g[1..], x);
    }
  }

  /** A positive count is witnessed by some cell. */
  lemma {:induction false} CountWitness(g: seq<Cell>, x: Cell) returns (k: int)
    requires Count(g, x) > 0
    ensures 0 <= k < |g| && g[k] == x
  {
    if g[0] == x {
      k := 0;
    } else {
      var j := CountWitness(g[1..], x);
      k := j + 1;
    }
  }
}
