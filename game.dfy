/**
 * The game of script.js as the source runs it: one object holding the board
 * (a 5x5 array updated in place) and the global counters, whose methods are
 * the source's functions. Every method that changes the game is proved to
 * perform exactly the transition of the corresponding function in rules.dfy
 * and to keep the invariant `Valid()`; the scans that only read the board are
 * proved to compute the specification functions of moves.dfy.
 */
module BaghChal {
  import opened Board
  import opened Moves
  import opened Rules
  import Properties

  /** The grid `initBoard` builds row by row, every cell cleared. */
  method NewBoard() returns (b: array2<Cell>)
    ensures fresh(b) && b.Length0 == GridSize && b.Length1 == GridSize
    ensures forall r, c :: 0 <= r < GridSize && 0 <= c < GridSize ==> b[r, c] == Empty
  {
    b := new Cell[GridSize, GridSize];
    for r := 0 to GridSize
      invariant forall i, j :: 0 <= i < r && 0 <= j < GridSize ==> b[i, j] == Empty
    {
      for c := 0 to GridSize
        invariant forall i, j :: 0 <= i < r && 0 <= j < GridSize ==> b[i, j] == Empty
        invariant forall j :: 0 <= j < c ==> b[r, j] == Empty
      {
        b[r, c] := Empty;
      }
    }
  }

  class Game {
    /** `boardState`: each cell empty, a goat or a tiger. */
    var board: array2<Cell>
    var goatsPlaced: int
    var goatsCaptured: int
    var currentTurn: Piece
    var gameOver: bool
    /** The piece picked for a move in the movement phase, if any. */
    var selectedPiece: Option<Pos>
    /** The side the human plays. */
    var playerRole: Piece

    /** The board's contents as a row-major sequence of cells. */
    ghost var cells: Grid

    /** The board has the game's dimensions and `cells` lists its contents. */
    ghost predicate Wf()
      reads this, board
    {
      board.Length0 == GridSize && board.Length1 == GridSize &&
      forall r, c :: 0 <= r < GridSize && 0 <= c < GridSize ==> board[r, c] == cells[r * GridSize + c]
    }

    /** The game state the fields stand for. */
    ghost function State(): Rules.State
      reads this
    {
      Rules.State.State(cells, goatsPlaced, goatsCaptured, currentTurn, gameOver, selectedPiece, playerRole)
    }

    ghost predicate Valid()
      reads this, board
    {
      Wf() && Inv(State())
    }

    /** Choosing a side (the two role buttons): record it and start a game. */
    constructor (role: Piece)
      ensures Valid() && State() == Initial(role)
    {
      board := new Cell[GridSize, GridSize];
      playerRole := role;
      new;
      InitBoard();
    }

    /**
     * `initBoard`: a fresh empty board with a tiger in each corner, no goat
     * placed or captured, goats to move, nothing selected, the side kept.
     * Scheduling the AI's first move is left to the caller.
     */
    method InitBoard()
      modifies this
      ensures Valid() && fresh(board)
      ensures State() == Initial(old(playerRole))
    {
      Reset();
      Properties.InitialInv(State());
    }

    /** The assignments of `initBoard`. */
    method Reset()
      modifies this
      ensures Wf() && fresh(board)
      ensures State() == Initial(old(playerRole))
    {
      board := NewBoard();
      goatsPlaced := 0;
      goatsCaptured := 0;
      selectedPiece := None;
      gameOver := false;
      currentTurn := Goat;
      cells := EmptyGrid();
      PlaceTigers();
    }

    /** Puts a tiger in each corner of the cleared board. */
    method PlaceTigers()
      requires Wf() && cells == EmptyGrid()
      modifies this`cells, board
      ensures Wf() && cells == StartGrid()
    {
      for t := 0 to |TigerStarts|
        invariant Wf()
        invariant cells == TigersPlaced(t)
      {
        var pos := TigerStarts[t];
        Put(pos, Holds(Tiger));
      }
    }

    /** Writes one cell of the board; nothing else changes. */
    method Put(p: Pos, v: Cell)
      requires Wf() && InGrid(p)
      modifies this`cells, board
      ensures Wf() && cells == old(cells)[Index(p) := v]
    {
      board[p.r, p.c] := v;
      cells := cells[Index(p) := v];
    }

    // -------------------------------------------------------------------
    // Scans that only read the board
    // -------------------------------------------------------------------

    /** `getValidMoves`: the moves of a `piece` standing at (r, c), trying
        the eight directions in order. */
    method GetValidMoves(r: int, c: int, piece: Piece) returns (moves: seq<Move>)
      requires Wf()
      ensures moves == ValidMoves(cells, Pos(r, c), piece)
    {
      moves := [];
      for i := 0 to |Directions|
        invariant moves == MovesFrom(cells, Pos(r, c), piece, i)
      {
        moves := TryDirection(r, c, piece, Directions[i], moves);
      }
    }

    /** One pass of the loop of `getValidMoves`: the moves in direction `d`
        are pushed onto `acc`. */
    method TryDirection(r: int, c: int, piece: Piece, d: Dir, acc: seq<Move>) returns (moves: seq<Move>)
      requires Wf()
      ensures moves == Moves.TryDirection(acc, cells, Pos(r, c), piece, d)
    {
      moves := acc;
      var newR, newC := r + d.dr, c + d.dc;
      if newR < 0 || newR >= GridSize || newC < 0 || newC >= GridSize {
        return;
      }
      if board[newR, newC] == Empty {
        moves := moves + [Move(Pos(r, c), Pos(newR, newC), None)];
      }
      if piece == Tiger {
        var midR, midC := r + d.dr, c + d.dc;
        var jumpR, jumpC := r + 2 * d.dr, c + 2 * d.dc;
        if jumpR < 0 || jumpR >= GridSize || jumpC < 0 || jumpC >= GridSize {
          return;
        }
        if board[midR, midC] == Holds(Goat) && board[jumpR, jumpC] == Empty {
          moves := moves + [Move(Pos(r, c), Pos(jumpR, jumpC), Some(Pos(midR, midC)))];
        }
      }
    }

    /** The row-major scan of the AIs: the moves of every `piece` on the board. */
    method CollectMoves(piece: Piece) returns (moves: seq<Move>)
      requires Wf()
      ensures moves == AllMoves(cells, piece)
    {
      moves := [];
      for r := 0 to GridSize
        invariant moves == MovesUpTo(cells, piece, r * GridSize)
      {
        for c := 0 to GridSize
          invariant moves == MovesUpTo(cells, piece, r * GridSize + c)
        {
          assert Index(Pos(r, c)) == r * GridSize + c;
          if board[r, c] == Holds(piece) {
            var found := GetValidMoves(r, c, piece);
            if |found| > 0 {
              moves := moves + found;
            }
          }
        }
      }
    }

    /** The placement scan of the goat AI: every empty cell, row by row. */
    method FindEmptyCells() returns (empties: seq<Pos>)
      requires Wf()
      ensures empties == EmptyCells(cells)
    {
      empties := [];
      for r := 0 to GridSize
        invariant empties == EmptiesUpTo(cells, r * GridSize)
      {
        for c := 0 to GridSize
          invariant empties == EmptiesUpTo(cells, r * GridSize + c)
        {
          assert Index(Pos(r, c)) == r * GridSize + c;
          if board[r, c] == Empty {
            empties := empties + [Pos(r, c)];
          }
        }
      }
    }

    /** The scan of `checkWinConditions`: whether some tiger has a move; it
        stops at the first such tiger. */
    method AnyTigerMove() returns (tigerCanMove: bool)
      requires Wf()
      ensures tigerCanMove == TigerCanMove(cells)
    {
      tigerCanMove := false;
      for r := 0 to GridSize
        invariant !tigerCanMove
        invariant forall k :: 0 <= k < r * GridSize ==>
          cells[k] != Holds(Tiger) || ValidMoves(cells, PosOf(k), Tiger) == []
      {
        for c := 0 to GridSize
          invariant !tigerCanMove
          invariant forall k :: 0 <= k < r * GridSize + c ==>
            cells[k] != Holds(Tiger) || ValidMoves(cells, PosOf(k), Tiger) == []
        {
          assert Index(Pos(r, c)) == r * GridSize + c;
          if board[r, c] == Holds(Tiger) {
            var moves := GetValidMoves(r, c, Tiger);
            if |moves| > 0 {
              tigerCanMove := true;
              break;
            }
          }
        }
        if tigerCanMove {
          break;
        }
      }
    }

    // -------------------------------------------------------------------
    // Turn and end of game
    // -------------------------------------------------------------------

    /** `checkWinConditions`: true, with the game ended, after five captures
        or when no tiger can move; otherwise false and nothing changes. */
    method CheckWin() returns (ended: bool)
      requires Wf()
      modifies this`gameOver
      ensures Wf()
      ensures ended == WinReached(old(State()))
      ensures State() == if ended then old(State()).(gameOver := true) else old(State())
    {
      if goatsCaptured >= CapturesToWin {
        gameOver := true;
        return true;
      }
      var tigerCanMove := AnyTigerMove();
      if !tigerCanMove {
        gameOver := true;
        return true;
      }
      return false;
    }

    /** `switchTurn`: the other side is to move. Scheduling the AI's reply
        is left to the caller (see `AIMove`). */
    method SwitchTurn()
      requires Wf()
      modifies this`currentTurn
      ensures Wf() && State() == Rules.SwitchTurn(old(State()))
    {
      currentTurn := if currentTurn == Goat then Tiger else Goat;
    }

    /** What follows every applied move: `if (checkWinConditions()) return;
        switchTurn();`. `ended` tells whether the game ended. */
    method EndTurn() returns (ended: bool)
      requires Wf()
      modifies this`gameOver, this`currentTurn
      ensures Wf()
      ensures ended == WinReached(old(State()))
      ensures State() == Rules.EndTurn(old(State()))
    {
      ended := CheckWin();
      if ended {
        return;
      }
      SwitchTurn();
    }

    // -------------------------------------------------------------------
    // Board updates shared by the human's and the AI's moves
    // -------------------------------------------------------------------

    /** A goat is placed on the empty cell `p` and counted. */
    method PlaceGoat(p: Pos)
      requires Wf() && InGrid(p)
      modifies this`cells, this`goatsPlaced, board
      ensures Wf() && State() == Rules.PlaceGoat(old(State()), p)
    {
      Put(p, Holds(Goat));
      goatsPlaced := goatsPlaced + 1;
    }

    /** `piece` is written to `to`, then `from` is cleared. */
    method MovePiece(from: Pos, to: Pos, piece: Piece)
      requires Wf() && InGrid(from) && InGrid(to)
      modifies this`cells, board
      ensures Wf() && cells == Relocate(old(cells), from, to, piece)
    {
      Put(to, Holds(piece));
      Put(from, Empty);
    }

    /** A tiger moves; on a capture the jumped goat is removed and counted. */
    method MoveTiger(from: Pos, to: Pos, captured: Option<Pos>)
      requires Wf() && InGrid(from) && InGrid(to) && (captured.Some? ==> InGrid(captured.value))
      modifies this`cells, this`goatsCaptured, board
      ensures Wf() && State() == ApplyTigerMove(old(State()), from, to, captured)
    {
      MovePiece(from, to, Tiger);
      if captured.Some? {
        Put(captured.value, Empty);
        goatsCaptured := goatsCaptured + 1;
      }
    }

    // -------------------------------------------------------------------
    // The click handler
    // -------------------------------------------------------------------

    /** `onCellClick` on the cell in row r, column c. */
    method Click(r: int, c: int)
      requires Valid() && InGrid(Pos(r, c))
      modifies this, board
      ensures Valid() && board == old(board)
      ensures State() == Rules.Click(old(State()), Pos(r, c))
    {
      ghost var s := State();
      Properties.ClickInv(s, Pos(r, c));
      if gameOver || currentTurn != playerRole {
        return;
      }
      if currentTurn == Goat {
        var returned := GoatTurn(r, c);
        if returned {
          return;
        }
      }
      TigerTurn(r, c);
    }

    /** The goat block of `onCellClick`; `returned` tells whether the handler
        returns from inside it rather than going on to the tiger block. */
    method GoatTurn(r: int, c: int) returns (returned: bool)
      requires Wf() && InGrid(Pos(r, c)) && SelectionOnBoard(State())
      modifies this, board
      ensures Wf() && board == old(board)
      ensures (State(), returned) == GoatBlock(old(State()), Pos(r, c))
    {
      var p := Pos(r, c);
      if goatsPlaced < TotalGoats {
        if board[r, c] != Empty {
          return true;
        }
        PlaceGoat(p);
        var _ := EndTurn();
        return true;
      }
      if selectedPiece.None? {
        if board[r, c] == Holds(Goat) {
          selectedPiece := Some(p);
        }
        return true;
      }
      if board[r, c] == Holds(Goat) {
        selectedPiece := Some(p);
        return true;
      }
      var sel := selectedPiece.value;
      var validMoves := GetValidMoves(sel.r, sel.c, Goat);
      var move := FindTo(validMoves, p);
      if move.Some? {
        MovePiece(sel, p, Goat);
        selectedPiece := None;
        var ended := EndTurn();
        if ended {
          return true;
        }
      }
      return false;
    }

    /** The tiger block of `onCellClick`. */
    method TigerTurn(r: int, c: int)
      requires Wf() && InGrid(Pos(r, c)) && SelectionOnBoard(State())
      modifies this, board
      ensures Wf() && board == old(board)
      ensures State() == TigerBlock(old(State()), Pos(r, c))
    {
      if currentTurn != Tiger {
        return;
      }
      var p := Pos(r, c);
      if selectedPiece.None? {
        if board[r, c] == Holds(Tiger) {
          selectedPiece := Some(p);
        }
        return;
      }
      if board[r, c] == Holds(Tiger) {
        selectedPiece := Some(p);
        return;
      }
      var sel := selectedPiece.value;
      var validMoves := GetValidMoves(sel.r, sel.c, Tiger);
      var move := FindTo(validMoves, p);
      if move.Some? {
        ValidMoveLandsOnEmpty(cells, sel, Tiger, move.value);
        MoveTiger(sel, p, move.value.captured);
        selectedPiece := None;
        var _ := EndTurn();
      }
    }

    // -------------------------------------------------------------------
    // The AIs; the index i stands for the random choice
    // -------------------------------------------------------------------

    /** `tigerAIMove`: the tigers are trapped and lose when they have no
        move; otherwise the i-th capture, or the i-th move when there is no
        capture, is applied and the turn ends. */
    method TigerAIMove(i: nat)
      requires Valid() && currentTurn != playerRole && TigerIndexOk(State(), i)
      modifies this, board
      ensures Valid() && board == old(board)
      ensures State() == TigerAI(old(State()), i)
    {
      ghost var s := State();
      Properties.TigerAIInv(s, i);
      if gameOver {
        return;
      }
      var tigerMoves := CollectMoves(Tiger);
      if |tigerMoves| == 0 {
        gameOver := true;
        return;
      }
      var captureMoves := Captures(tigerMoves);
      var chosen := if |captureMoves| > 0 then captureMoves[i] else tigerMoves[i];
      assert chosen == TigerChoices(s.cells)[i];
      AllMovesWellFormed(s.cells, Tiger, chosen);
      MoveTiger(chosen.from, chosen.to, chosen.captured);
      var _ := EndTurn();
    }

    /** `goatAIMove`: while goats remain to be placed, one is placed on the
        i-th empty cell; afterwards the i-th goat move is made. With nothing
        to choose nothing moves, but the turn still ends. */
    method GoatAIMove(i: nat)
      requires Valid() && currentTurn != playerRole && GoatIndexOk(State(), i)
      modifies this, board
      ensures Valid() && board == old(board)
      ensures State() == GoatAI(old(State()), i)
    {
      ghost var s := State();
      Properties.GoatAIInv(s, i);
      if gameOver {
        return;
      }
      if goatsPlaced < TotalGoats {
        var emptyCells := FindEmptyCells();
        if |emptyCells| > 0 {
          var chosen := emptyCells[i];
          EmptyCellsIff(s.cells, chosen);
          PlaceGoat(chosen);
        }
      } else {
        var goatMoves := CollectMoves(Goat);
        if |goatMoves| > 0 {
          var chosen := goatMoves[i];
          AllMovesWellFormed(s.cells, Goat, chosen);
          MovePiece(chosen.from, chosen.to, Goat);
        }
      }
      var _ := EndTurn();
    }

    /** The deferred call `initBoard` and `switchTurn` schedule when the AI
        is to move: the AI of the side whose turn it is. */
    method AIMove(i: nat)
      requires Valid() && currentTurn != playerRole
      requires currentTurn == Goat ==> GoatIndexOk(State(), i)
      requires currentTurn == Tiger ==> TigerIndexOk(State(), i)
      modifies this, board
      ensures Valid() && board == old(board)
      ensures State() == if old(currentTurn) == Goat then GoatAI(old(State()), i)
                         else TigerAI(old(State()), i)
    {
      if currentTurn == Goat {
        GoatAIMove(i);
      } else {
        TigerAIMove(i);
      }
    }
  }
}
