/**
 * Move generation (script.js `getValidMoves`) as a specification function,
 * an independent declarative description of a legal move (`Legal`), and the
 * board-wide scans the AIs and the win check perform: all moves of one kind
 * of piece, whether any tiger can move, and the list of empty cells.
 */
module Moves {
  import opened Board

  /** A direction: the change of row and of column for one step. */
  datatype Dir = Dir(dr: int, dc: int)

  /** The eight directions, in the order the generator tries them. */
  const Directions: seq<Dir> :=
    [Dir(-1, 0), Dir(1, 0), Dir(0, -1), Dir(0, 1),
     Dir(-1, -1), Dir(-1, 1), Dir(1, -1), Dir(1, 1)]

  /** One king step: each component is -1, 0 or 1, and not both are 0. */
  predicate UnitDir(d: Dir) {
    -1 <= d.dr <= 1 && -1 <= d.dc <= 1 && (d.dr != 0 || d.dc != 0)
  }

  function Add(p: Pos, d: Dir): Pos {
    Pos(p.r + d.dr, p.c + d.dc)
  }

  function Add2(p: Pos, d: Dir): Pos {
    Pos(p.r + 2 * d.dr, p.c + 2 * d.dc)
  }

  /**
   * A candidate move. `captured` is present exactly for a tiger's jump and
   * names the jumped cell (the source's `capture` flag is `captured.Some?`).
   */
  datatype Move = Move(from: Pos, to: Pos, captured: Option<Pos>)

  /** One pass of the generator's loop: the move list `acc` after direction
      `d` has been tried. A step onto an empty neighbour is pushed; then, for
      a tiger whose landing cell is on the board, a jump over a neighbouring
      goat onto an empty cell. */
  function TryDirection(acc: seq<Move>, g: Grid, from: Pos, piece: Piece, d: Dir): seq<Move> {
    var mid := Add(from, d);
    if !InGrid(mid) then acc
    else
      var stepped := if g[Index(mid)] == Empty then acc + [Move(from, mid, None)] else acc;
      var land := Add2(from, d);
      if piece != Tiger || !InGrid(land) then stepped
      else if g[Index(mid)] == Holds(Goat) && g[Index(land)] == Empty then
        stepped + [Move(from, land, Some(mid))]
      else stepped
  }

  /** The moves found in the first `n` directions, tried in order. */
  function MovesFrom(g: Grid, from: Pos, piece: Piece, n: nat): seq<Move>
    requires n <= |Directions|
  {
    if n == 0 then []
    else TryDirection(MovesFrom(g, from, piece, n - 1), g, from, piece, Directions[n - 1])
  }

  /** The moves `getValidMoves` returns for a `piece` standing at `from`. */
  function ValidMoves(g: Grid, from: Pos, piece: Piece): seq<Move> {
    MovesFrom(g, from, piece, |Directions|)
  }

  /** Declarative description of a legal move in direction `d`: a step onto an
      empty cell, or a tiger's jump over a goat onto an empty cell. */
  predicate LegalIn(g: Grid, from: Pos, piece: Piece, m: Move, d: Dir) {
    m.from == from &&
    ((m.captured == None && m.to == Add(from, d) && InGrid(m.to) && g[Index(m.to)] == Empty) ||
     (piece == Tiger && m.captured == Some(Add(from, d)) && m.to == Add2(from, d) &&
      InGrid(Add(from, d)) && InGrid(m.to) &&
      g[Index(Add(from, d))] == Holds(Goat) && g[Index(m.to)] == Empty))
  }

  predicate Legal(g: Grid, from: Pos, piece: Piece, m: Move) {
    exists d :: d in Directions && LegalIn(g, from, piece, m, d)
  }

  /** Trying a direction adds exactly the legal moves in that direction. */
  lemma TryDirectionIff(acc: seq<Move>, g: Grid, from: Pos, piece: Piece, d: Dir, m: Move)
    ensures m in TryDirection(acc, g, from, piece, d) <==> m in acc || LegalIn(g, from, piece, m, d)
  {
  }

  lemma {:induction false} MovesFromIff(g: Grid, from: Pos, piece: Piece, n: nat, m: Move)
    requires n <= |Directions|
    ensures m in MovesFrom(g, from, piece, n) <==>
      exists j :: 0 <= j < n && LegalIn(g, from, piece, m, Directions[j])
  {
    if n > 0 {
      MovesFromIff(g, from, piece, n - 1, m);
      TryDirectionIff(MovesFrom(g, from, piece, n - 1), g, from, piece, Directions[n - 1], m);
      if exists j :: 0 <= j < n && LegalIn(g, from, piece, m, Directions[j]) {
        var j :| 0 <= j < n && LegalIn(g, from, piece, m, Directions[j]);
        if j < n - 1 {
          assert 0 <= j < n - 1 && LegalIn(g, from, piece, m, Directions[j]);
        }
      }
    }
  }

  /** The generator returns exactly the legal moves. */
  lemma ValidMovesIff(g: Grid, from: Pos, piece: Piece, m: Move)
    ensures m in ValidMoves(g, from, piece) <==> Legal(g, from, piece, m)
  {
    MovesFromIff(g, from, piece, |Directions|, m);
    if Legal(g, from, piece, m) {
      var d :| d in Directions && LegalIn(g, from, piece, m, d);
      var j :| 0 <= j < |Directions| && Directions[j] == d;
      assert LegalIn(g, from, piece, m, Directions[j]);
    }
  }

  /** Every generated move starts at `from` and lands inside the grid on an
      empty cell; a capture only ever jumps a goat, and only tigers capture. */
  lemma ValidMoveLandsOnEmpty(g: Grid, from: Pos, piece: Piece, m: Move)
    requires m in ValidMoves(g, from, piece)
    ensures m.from == from && InGrid(m.to) && g[Index(m.to)] == Empty
    ensures m.captured.Some? ==>
      piece == Tiger && InGrid(m.captured.value) && g[Index(m.captured.value)] == Holds(Goat)
  {
    ValidMovesIff(g, from, piece, m);
  }

  /** A plain move is one step in one of the eight directions; a capture lands
      two steps away and removes the piece on the cell in between. */
  lemma ValidMoveShape(g: Grid, from: Pos, piece: Piece, m: Move)
    requires m in ValidMoves(g, from, piece)
    ensures piece == Goat ==> m.captured.None?
    ensures m.captured.None? ==> exists d :: d in Directions && m.to == Add(from, d)
    ensures m.captured.Some? ==>
      exists d :: d in Directions && m.captured.value == Add(from, d) && m.to == Add2(from, d)
  {
    ValidMovesIff(g, from, piece, m);
  }

  lemma DirectionsAreUnit()
    ensures forall d :: d in Directions ==> UnitDir(d)
  {
  }

  /** No cell is both one step and two steps away from the same origin, so a
      destination identifies whether the move to it is a capture. */
  lemma StepIsNotJump(from: Pos, d1: Dir, d2: Dir)
    requires UnitDir(d1) && UnitDir(d2)
    ensures Add(from, d1) != Add2(from, d2)
  {
  }

  // ---------------------------------------------------------------------
  // Board-wide scans (the nested row/column loops of the AIs and the win check)
  // ---------------------------------------------------------------------

  /** Moves of every `piece` among the first `n` cells, in row-major order. */
  function MovesUpTo(g: Grid, piece: Piece, n: nat): seq<Move>
    requires n <= CellCount
  {
    if n == 0 then []
    else MovesUpTo(g, piece, n - 1) +
         (if g[n - 1] == Holds(piece) then ValidMoves(g, PosOf(n - 1), piece) else [])
  }

  /** Every move of every `piece` on the board. */
  function AllMoves(g: Grid, piece: Piece): seq<Move> {
    MovesUpTo(g, piece, CellCount)
  }

  lemma {:induction false} MovesUpToIff(g: Grid, piece: Piece, n: nat, m: Move)
    requires n <= CellCount
    ensures m in MovesUpTo(g, piece, n) <==>
      exists k :: 0 <= k < n && g[k] == Holds(piece) && m in ValidMoves(g, PosOf(k), piece)
  {
    if n > 0 {
      MovesUpToIff(g, piece, n - 1, m);
    }
  }

  /** The board-wide list holds exactly the legal moves of the pieces of that kind. */
  lemma AllMovesIff(g: Grid, piece: Piece, m: Move)
    ensures m in AllMoves(g, piece) <==>
      InGrid(m.from) && g[Index(m.from)] == Holds(piece) && Legal(g, m.from, piece, m)
  {
    MovesUpToIff(g, piece, CellCount, m);
    if m in AllMoves(g, piece) {
      var k :| 0 <= k < CellCount && g[k] == Holds(piece) && m in ValidMoves(g, PosOf(k), piece);
      ValidMoveLandsOnEmpty(g, PosOf(k), piece, m);
      ValidMovesIff(g, m.from, piece, m);
    }
    if InGrid(m.from) && g[Index(m.from)] == Holds(piece) && Legal(g, m.from, piece, m) {
      ValidMovesIff(g, m.from, piece, m);
      var k := Index(m.from);
      assert g[k] == Holds(piece) && m in ValidMoves(g, PosOf(k), piece);
    }
  }

  /** What a member of a board-wide move list guarantees: it starts on a piece
      of that kind, lands inside the grid on an empty cell, and a capture
      jumps a goat and is only ever made by a tiger. */
  lemma AllMovesWellFormed(g: Grid, piece: Piece, m: Move)
    requires m in AllMoves(g, piece)
    ensures InGrid(m.from) && g[Index(m.from)] == Holds(piece)
    ensures InGrid(m.to) && g[Index(m.to)] == Empty
    ensures m.captured.Some? ==>
      piece == Tiger && InGrid(m.captured.value) && g[Index(m.captured.value)] == Holds(Goat)
  {
    MovesUpToIff(g, piece, CellCount, m);
    var k :| 0 <= k < CellCount && g[k] == Holds(piece) && m in ValidMoves(g, PosOf(k), piece);
    ValidMoveLandsOnEmpty(g, PosOf(k), piece, m);
  }

  /** Some tiger has a move (the scan of `checkWinConditions`). */
  predicate TigerCanMove(g: Grid) {
    exists k :: 0 <= k < CellCount && g[k] == Holds(Tiger) && ValidMoves(g, PosOf(k), Tiger) != []
  }

  /** Some tiger can move exactly when the board-wide tiger move list is non-empty,
      that is, when some tiger has a legal move. */
  lemma TigerCanMoveIff(g: Grid)
    ensures TigerCanMove(g) <==> AllMoves(g, Tiger) != []
    ensures TigerCanMove(g) <==>
      exists m: Move :: InGrid(m.from) && g[Index(m.from)] == Holds(Tiger) && Legal(g, m.from, Tiger, m)
  {
    if TigerCanMove(g) {
      var k :| 0 <= k < CellCount && g[k] == Holds(Tiger) && ValidMoves(g, PosOf(k), Tiger) != [];
      var m := ValidMoves(g, PosOf(k), Tiger)[0];
      MovesUpToIff(g, Tiger, CellCount, m);
      AllMovesIff(g, Tiger, m);
    }
    if AllMoves(g, Tiger) != [] {
      var m := AllMoves(g, Tiger)[0];
      MovesUpToIff(g, Tiger, CellCount, m);
      AllMovesIff(g, Tiger, m);
    }
    if exists m: Move :: InGrid(m.from) && g[Index(m.from)] == Holds(Tiger) && Legal(g, m.from, Tiger, m) {
      var m: Move :| InGrid(m.from) && g[Index(m.from)] == Holds(Tiger) && Legal(g, m.from, Tiger, m);
      AllMovesIff(g, Tiger, m);
    }
  }

  /** Empty cells among the first `n`, in row-major order. */
  function EmptiesUpTo(g: Grid, n: nat): seq<Pos>
    requires n <= CellCount
  {
    if n == 0 then []
    else EmptiesUpTo(g, n - 1) + (if g[n - 1] == Empty then [PosOf(n - 1)] else [])
  }

  /** The empty cells of the board (the goat AI's placement candidates). */
  function EmptyCells(g: Grid): seq<Pos> {
    EmptiesUpTo(g, CellCount)
  }

  lemma {:induction false} EmptiesUpToIff(g: Grid, n: nat, p: Pos)
    requires n <= CellCount
    ensures p in EmptiesUpTo(g, n) <==> InGrid(p) && Index(p) < n && g[Index(p)] == Empty
  {
    if n > 0 {
      EmptiesUpToIff(g, n - 1, p);
      if InGrid(p) && Index(p) == n - 1 {
        assert PosOf(n - 1) == p;
      }
    }
  }

  lemma EmptyCellsIff(g: Grid, p: Pos)
    ensures p in EmptyCells(g) <==> InGrid(p) && g[Index(p)] == Empty
  {
    EmptiesUpToIff(g, CellCount, p);
  }
}
