/**
 * Properties of the game rules: the invariant holds from the initial state
 * across every placement, move and capture; what a click does in each phase;
 * how the captures are counted; when the game ends; what the two AIs choose.
 */
module Properties {
  import opened Board
  import opened Moves
  import opened Rules

  // ---------------------------------------------------------------------
  // Move generation facts used below
  // ---------------------------------------------------------------------

  /** Two legal moves from the same cell that land on the same cell are the
      same move: the destination decides whether it is a capture. */
  lemma LegalDestinationUnique(g: Grid, from: Pos, piece: Piece, m1: Move, m2: Move)
    requires Legal(g, from, piece, m1) && Legal(g, from, piece, m2) && m1.to == m2.to
    ensures m1 == m2
  {
    var d1 :| d1 in Directions && LegalIn(g, from, piece, m1, d1);
    var d2 :| d2 in Directions && LegalIn(g, from, piece, m2, d2);
    DirectionsAreUnit();
    if m1.captured.None? && m2.captured.Some? {
      StepIsNotJump(from, d1, d2);
    } else if m1.captured.Some? && m2.captured.None? {
      StepIsNotJump(from, d2, d1);
    } else if m1.captured.Some? {
      assert d1 == d2;
    }
  }

  /** Looking up the clicked destination among the generated moves finds
      exactly the legal move to it, if there is one. */
  lemma FindLegalDestination(g: Grid, from: Pos, piece: Piece, m: Move)
    requires Legal(g, from, piece, m)
    ensures FindTo(ValidMoves(g, from, piece), m.to) == Some(m)
  {
    ValidMovesIff(g, from, piece, m);
    var r := FindTo(ValidMoves(g, from, piece), m.to);
    ValidMovesIff(g, from, piece, r.value);
    LegalDestinationUnique(g, from, piece, m, r.value);
  }

  /** No legal move lands on `p` exactly when the lookup finds nothing. */
  lemma FindNoDestination(g: Grid, from: Pos, piece: Piece, p: Pos)
    ensures FindTo(ValidMoves(g, from, piece), p).None? <==>
      forall m :: Legal(g, from, piece, m) ==> m.to != p
  {
    var r := FindTo(ValidMoves(g, from, piece), p);
    if r.Some? {
      ValidMovesIff(g, from, piece, r.value);
    } else {
      forall m | Legal(g, from, piece, m) ensures m.to != p {
        ValidMovesIff(g, from, piece, m);
      }
    }
  }

  // ---------------------------------------------------------------------
  // The invariant
  // ---------------------------------------------------------------------

  /** The start position satisfies the invariant: four tigers, no goats,
      nothing selected. */
  lemma InitialInv(s: State)
    requires s == Initial(s.role)
    ensures Inv(s)
  {
    TigersPlacedCounts(|TigerStarts|);
  }

  /** At the start the tigers are not trapped, so the game is under way. */
  lemma InitialNotWon(s: State)
    requires s == Initial(s.role)
    ensures !WinReached(s)
  {
    TigersPlacedAt(|TigerStarts|, Pos(0, 0));
    TigersPlacedAt(|TigerStarts|, Pos(1, 0));
    assert TigerStarts[..|TigerStarts|] == TigerStarts;
    CornerTigerCanMove(s.cells);
  }

  /** A tiger in the top-left corner with an empty cell below it can move. */
  lemma CornerTigerCanMove(g: Grid)
    requires g[Index(Pos(0, 0))] == Holds(Tiger) && g[Index(Pos(1, 0))] == Empty
    ensures TigerCanMove(g)
  {
    var m := Move(Pos(0, 0), Pos(1, 0), None);
    assert Dir(1, 0) in Directions;
    assert LegalIn(g, Pos(0, 0), Tiger, m, Dir(1, 0));
    assert Legal(g, m.from, Tiger, m);
    TigerCanMoveIff(g);
  }

  /** The first `n` corners carry a tiger each and the other cells are empty. */
  lemma {:induction false} TigersPlacedAt(n: nat, p: Pos)
    requires n <= |TigerStarts| && InGrid(p)
    ensures TigersPlaced(n)[Index(p)] == if p in TigerStarts[..n] then Holds(Tiger) else Empty
  {
    if n > 0 {
      TigersPlacedAt(n - 1, p);
      assert TigerStarts[..n] == TigerStarts[..n - 1] + [TigerStarts[n - 1]];
      if p != TigerStarts[n - 1] {
        assert Index(p) != Index(TigerStarts[n - 1]);
      }
    }
  }

  /** The corners are distinct, so the `n`-th is not among the earlier ones. */
  lemma CornerNotYetPlaced(n: nat)
    requires 0 < n <= |TigerStarts|
    ensures TigerStarts[n - 1] !in TigerStarts[..n - 1]
  {
  }

  /** The cleared board holds no piece. */
  lemma EmptyGridHasNo(x: Cell)
    requires x != Empty
    ensures Count(EmptyGrid(), x) == 0
  {
    CountAbsent(EmptyGrid(), x);
  }

  /** Placing the first `n` tigers leaves `n` tigers and no goat. */
  lemma {:induction false} TigersPlacedCounts(n: nat)
    requires n <= |TigerStarts|
    ensures Count(TigersPlaced(n), Holds(Tiger)) == n
    ensures Count(TigersPlaced(n), Holds(Goat)) == 0
  {
    if n == 0 {
      EmptyGridHasNo(Holds(Tiger));
      EmptyGridHasNo(Holds(Goat));
    } else {
      var corner := TigerStarts[n - 1];
      TigersPlacedCounts(n - 1);
      TigersPlacedAt(n - 1, corner);
      CornerNotYetPlaced(n);
      CountUpdate(TigersPlaced(n - 1), Index(corner), Holds(Tiger), Holds(Tiger));
      CountUpdate(TigersPlaced(n - 1), Index(corner), Holds(Tiger), Holds(Goat));
    }
  }

  /** Ending a turn (win check, then switch) keeps the invariant when the
      piece counts hold and nothing is selected. */
  lemma EndTurnInv(s: State)
    requires BoardInv(s) && s.goatsCaptured <= CapturesToWin && s.selected.None?
    ensures Inv(EndTurn(s))
    ensures EndTurn(s).gameOver == (s.gameOver || WinReached(s))
    ensures !WinReached(s) ==> EndTurn(s).turn == Opponent(s.turn)
  {
  }

  lemma PlaceGoatBoardInv(s: State, p: Pos)
    requires BoardInv(s) && s.goatsPlaced < TotalGoats && InGrid(p) && s.cells[Index(p)] == Empty
    ensures BoardInv(PlaceGoat(s, p))
  {
    CountUpdate(s.cells, Index(p), Holds(Goat), Holds(Tiger));
    CountUpdate(s.cells, Index(p), Holds(Goat), Holds(Goat));
  }

  lemma GoatMoveBoardInv(s: State, from: Pos, to: Pos)
    requires BoardInv(s) && InGrid(from) && InGrid(to)
    requires s.cells[Index(from)] == Holds(Goat) && s.cells[Index(to)] == Empty
    ensures BoardInv(s.(cells := Relocate(s.cells, from, to, Goat)))
  {
    var g1 := s.cells[Index(to) := Holds(Goat)];
    CountUpdate(s.cells, Index(to), Holds(Goat), Holds(Tiger));
    CountUpdate(s.cells, Index(to), Holds(Goat), Holds(Goat));
    CountUpdate(g1, Index(from), Empty, Holds(Tiger));
    CountUpdate(g1, Index(from), Empty, Holds(Goat));
  }

  lemma TigerMoveBoardInv(s: State, from: Pos, to: Pos, captured: Option<Pos>)
    requires BoardInv(s) && InGrid(from) && InGrid(to)
    requires s.cells[Index(from)] == Holds(Tiger) && s.cells[Index(to)] == Empty
    requires captured.Some? ==> InGrid(captured.value) && s.cells[Index(captured.value)] == Holds(Goat)
    ensures BoardInv(ApplyTigerMove(s, from, to, captured))
  {
    var g1 := s.cells[Index(to) := Holds(Tiger)];
    var g2 := g1[Index(from) := Empty];
    CountUpdate(s.cells, Index(to), Holds(Tiger), Holds(Tiger));
    CountUpdate(s.cells, Index(to), Holds(Tiger), Holds(Goat));
    CountUpdate(g1, Index(from), Empty, Holds(Tiger));
    CountUpdate(g1, Index(from), Empty, Holds(Goat));
    if captured.Some? {
      CountUpdate(g2, Index(captured.value), Empty, Holds(Tiger));
      CountUpdate(g2, Index(captured.value), Empty, Holds(Goat));
    }
  }

  /**
   * The fall-through of the click handler: after the goat block lets
   * control reach the tiger block, that block changes nothing, so the click
   * is exactly the goat block.
   */
  lemma FallThroughIsNoOp(s: State, p: Pos)
    requires InGrid(p) && SelectionOnBoard(s)
    requires !s.gameOver && s.turn == Goat && s.role == Goat
    ensures Click(s, p) == GoatBlock(s, p).0
  {
    var r := GoatBlock(s, p);
    if !r.1 && r.0.turn == Tiger {
      var sel := s.selected.value;
      assert r.0.selected.None?;
      assert r.0.cells == Relocate(s.cells, sel, p, Goat);
      assert r.0.cells[Index(p)] != Holds(Tiger);
    }
  }

  lemma GoatBlockInv(s: State, p: Pos)
    requires Inv(s) && InGrid(p) && !s.gameOver && s.turn == Goat && s.role == Goat
    ensures Inv(GoatBlock(s, p).0)
  {
    var cell := s.cells[Index(p)];
    if s.goatsPlaced < TotalGoats {
      if cell == Empty {
        PlaceGoatBoardInv(s, p);
        EndTurnInv(PlaceGoat(s, p));
      }
    } else if s.selected.Some? && cell != Holds(Goat) {
      var sel := s.selected.value;
      match FindTo(ValidMoves(s.cells, sel, Goat), p)
      case None =>
      case Some(m) =>
        ValidMoveLandsOnEmpty(s.cells, sel, Goat, m);
        GoatMoveBoardInv(s, sel, p);
        EndTurnInv(s.(cells := Relocate(s.cells, sel, p, Goat), selected := None));
    }
  }

  lemma TigerBlockInv(s: State, p: Pos)
    requires Inv(s) && InGrid(p) && !s.gameOver && s.turn == Tiger && s.role == Tiger
    ensures Inv(TigerBlock(s, p))
  {
    var cell := s.cells[Index(p)];
    if s.selected.Some? && cell != Holds(Tiger) {
      var sel := s.selected.value;
      match FindTo(ValidMoves(s.cells, sel, Tiger), p)
      case None =>
      case Some(m) =>
        ValidMoveLandsOnEmpty(s.cells, sel, Tiger, m);
        TigerMoveBoardInv(s, sel, p, m.captured);
        EndTurnInv(ApplyTigerMove(s, sel, p, m.captured).(selected := None));
    }
  }

  /** Every click keeps the invariant. */
  lemma ClickInv(s: State, p: Pos)
    requires Inv(s) && InGrid(p)
    ensures Inv(Click(s, p))
  {
    if !s.gameOver && s.turn == s.role {
      if s.turn == Goat {
        FallThroughIsNoOp(s, p);
        GoatBlockInv(s, p);
      } else {
        TigerBlockInv(s, p);
      }
    }
  }

  /** The tiger AI's move keeps the invariant. */
  lemma TigerAIInv(s: State, i: nat)
    requires Inv(s) && s.turn != s.role && TigerIndexOk(s, i)
    ensures Inv(TigerAI(s, i))
  {
    if !s.gameOver && AllMoves(s.cells, Tiger) != [] {
      var m := TigerChoices(s.cells)[i];
      AllMovesWellFormed(s.cells, Tiger, m);
      TigerMoveBoardInv(s, m.from, m.to, m.captured);
      EndTurnInv(ApplyTigerMove(s, m.from, m.to, m.captured));
    }
  }

  /** The goat AI's move keeps the invariant. */
  lemma GoatAIInv(s: State, i: nat)
    requires Inv(s) && s.turn != s.role && GoatIndexOk(s, i)
    ensures Inv(GoatAI(s, i))
  {
    if !s.gameOver {
      if s.goatsPlaced < TotalGoats {
        var empties := EmptyCells(s.cells);
        if empties != [] {
          EmptyCellsIff(s.cells, empties[i]);
          PlaceGoatBoardInv(s, empties[i]);
          EndTurnInv(PlaceGoat(s, empties[i]));
        } else {
          EndTurnInv(s);
        }
      } else {
        var moves := AllMoves(s.cells, Goat);
        if moves != [] {
          AllMovesWellFormed(s.cells, Goat, moves[i]);
          GoatMoveBoardInv(s, moves[i].from, moves[i].to);
          EndTurnInv(s.(cells := Relocate(s.cells, moves[i].from, moves[i].to, Goat)));
        } else {
          EndTurnInv(s);
        }
      }
    }
  }

  /** While goats are being placed the board always has an empty cell, so
      the goat AI always has a placement to choose. */
  lemma PlacementHasEmptyCell(s: State)
    requires Inv(s) && s.goatsPlaced < TotalGoats
    ensures EmptyCells(s.cells) != []
  {
    CountPartition(s.cells);
    var k := CountWitness(s.cells, Empty);
    PosOfIndex(k);
    EmptyCellsIff(s.cells, PosOf(k));
  }

  // ---------------------------------------------------------------------
  // The click handler, phase by phase
  // ---------------------------------------------------------------------

  /** The goats are still being placed and it is the goat side's turn. */
  predicate Placing(s: State) {
    s.turn == Goat && s.goatsPlaced < TotalGoats
  }

  /** A click that places a goat: the game goes on, the human plays the goats,
      it is their turn, goats remain to be placed and the cell is empty. */
  predicate PlacesGoat(s: State, p: Pos)
    requires InGrid(p)
  {
    !s.gameOver && s.turn == Goat && s.role == Goat &&
    s.goatsPlaced < TotalGoats && s.cells[Index(p)] == Empty
  }

  /** How every applied move ends, `if (checkWinConditions()) return;
      switchTurn();`: the game is over exactly when the win test holds on the
      position `t` the move left, and only then does the turn stay with the
      side `s.turn` that moved. */
  predicate TurnEnds(s: State, t: State) {
    t.gameOver == WinReached(t) && t.turn == (if t.gameOver then s.turn else Opponent(s.turn))
  }

  /** A click when the game is over or it is not the human's turn changes nothing. */
  lemma ClickIgnored(s: State, p: Pos)
    requires InGrid(p) && SelectionOnBoard(s)
    requires s.gameOver || s.turn != s.role
    ensures Click(s, p) == s
  {
  }

  /** A click adds one goat to the placed count exactly when it places a goat
      on an empty cell during the placement phase, and that goat is the only
      change to the board; a click on an occupied cell during placement
      changes nothing. */
  lemma ClickPlacement(s: State, p: Pos)
    requires InGrid(p) && SelectionOnBoard(s)
    ensures Click(s, p).goatsPlaced == s.goatsPlaced + (if PlacesGoat(s, p) then 1 else 0)
    ensures PlacesGoat(s, p) ==> Click(s, p).cells == s.cells[Index(p) := Holds(Goat)]
    ensures PlacesGoat(s, p) ==> TurnEnds(s, Click(s, p)) && Click(s, p).selected == s.selected
    ensures !s.gameOver && s.turn == s.role && Placing(s) && s.cells[Index(p)] != Empty ==>
      Click(s, p) == s
  {
    if !s.gameOver && s.turn == s.role && s.turn == Goat {
      FallThroughIsNoOp(s, p);
    }
  }

  /** In the movement phase, clicking another of one's own pieces only moves
      the selection there. */
  lemma ClickOwnPiece(s: State, p: Pos)
    requires InGrid(p) && SelectionOnBoard(s)
    requires !s.gameOver && s.turn == s.role && !Placing(s)
    requires s.cells[Index(p)] == Holds(s.turn)
    ensures Click(s, p) == s.(selected := Some(p))
  {
  }

  /** In the movement phase with nothing selected, clicking a cell that does
      not hold one of the mover's pieces changes nothing. */
  lemma ClickNoSelectionElsewhere(s: State, p: Pos)
    requires InGrid(p) && SelectionOnBoard(s)
    requires !s.gameOver && s.turn == s.role && !Placing(s) && s.selected.None?
    requires s.cells[Index(p)] != Holds(s.turn)
    ensures Click(s, p) == s
  {
  }

  /** In the movement phase, with a piece selected, clicking a cell that is
      neither one's own piece nor a legal destination of the selected piece
      changes nothing (so repeating such a click never changes the state). */
  lemma ClickIllegalDestination(s: State, p: Pos)
    requires InGrid(p) && SelectionOnBoard(s)
    requires !s.gameOver && s.turn == s.role && !Placing(s) && s.selected.Some?
    requires s.cells[Index(p)] != Holds(s.turn)
    requires forall m :: Legal(s.cells, s.selected.value, s.turn, m) ==> m.to != p
    ensures Click(s, p) == s
  {
    FindNoDestination(s.cells, s.selected.value, s.turn, p);
  }

  /** In the movement phase, clicking a legal destination of the selected
      piece makes that move: the piece arrives on `p`, its old cell is
      emptied, a jumped goat is removed and counted, the selection is
      cleared, and unless the game ended the turn passes. */
  lemma ClickLegalDestination(s: State, p: Pos, m: Move)
    requires Inv(s) && InGrid(p)
    requires !s.gameOver && s.turn == s.role && !Placing(s) && s.selected.Some?
    requires Legal(s.cells, s.selected.value, s.turn, m) && m.to == p
    ensures Click(s, p).selected.None?
    ensures Click(s, p).cells[Index(p)] == Holds(s.turn)
    ensures Click(s, p).cells[Index(s.selected.value)] == Empty
    ensures m.captured.Some? ==>
      InGrid(m.captured.value) && Click(s, p).cells[Index(m.captured.value)] == Empty
    ensures Click(s, p).goatsCaptured == s.goatsCaptured + (if m.captured.Some? then 1 else 0)
    ensures TurnEnds(s, Click(s, p))
    ensures InGrid(s.selected.value) && (m.captured.Some? ==> InGrid(m.captured.value)) &&
      Click(s, p).cells ==
        (if m.captured.Some? then Relocate(s.cells, s.selected.value, p, s.turn)[Index(m.captured.value) := Empty]
         else Relocate(s.cells, s.selected.value, p, s.turn))
    ensures Click(s, p).goatsPlaced == s.goatsPlaced
  {
    if s.turn == Goat {
      GoatClickLegalDestination(s, p, m);
    } else {
      TigerClickLegalDestination(s, p, m);
    }
  }

  lemma GoatClickLegalDestination(s: State, p: Pos, m: Move)
    requires Inv(s) && InGrid(p)
    requires !s.gameOver && s.turn == Goat && s.role == Goat && !Placing(s) && s.selected.Some?
    requires Legal(s.cells, s.selected.value, Goat, m) && m.to == p
    ensures Click(s, p).selected.None?
    ensures Click(s, p).cells[Index(p)] == Holds(Goat)
    ensures Click(s, p).cells[Index(s.selected.value)] == Empty
    ensures m.captured.None?
    ensures Click(s, p).goatsCaptured == s.goatsCaptured
    ensures TurnEnds(s, Click(s, p))
    ensures InGrid(s.selected.value) && Click(s, p).cells == Relocate(s.cells, s.selected.value, p, Goat)
    ensures Click(s, p).goatsPlaced == s.goatsPlaced
  {
    var sel := s.selected.value;
    FindLegalDestination(s.cells, sel, Goat, m);
    ValidMovesIff(s.cells, sel, Goat, m);
    ValidMoveLandsOnEmpty(s.cells, sel, Goat, m);
    FallThroughIsNoOp(s, p);
  }

  lemma TigerClickLegalDestination(s: State, p: Pos, m: Move)
    requires Inv(s) && InGrid(p)
    requires !s.gameOver && s.turn == Tiger && s.role == Tiger && !Placing(s) && s.selected.Some?
    requires Legal(s.cells, s.selected.value, Tiger, m) && m.to == p
    ensures Click(s, p).selected.None?
    ensures Click(s, p).cells[Index(p)] == Holds(Tiger)
    ensures Click(s, p).cells[Index(s.selected.value)] == Empty
    ensures m.captured.Some? ==>
      InGrid(m.captured.value) && Click(s, p).cells[Index(m.captured.value)] == Empty
    ensures Click(s, p).goatsCaptured == s.goatsCaptured + (if m.captured.Some? then 1 else 0)
    ensures TurnEnds(s, Click(s, p))
    ensures InGrid(s.selected.value) && (m.captured.Some? ==> InGrid(m.captured.value)) &&
      Click(s, p).cells ==
        (if m.captured.Some? then Relocate(s.cells, s.selected.value, p, Tiger)[Index(m.captured.value) := Empty]
         else Relocate(s.cells, s.selected.value, p, Tiger))
    ensures Click(s, p).goatsPlaced == s.goatsPlaced
  {
    var sel := s.selected.value;
    FindLegalDestination(s.cells, sel, Tiger, m);
    ValidMovesIff(s.cells, sel, Tiger, m);
    ValidMoveLandsOnEmpty(s.cells, sel, Tiger, m);
  }

  /** A capture click: the human plays the tigers, it is their turn, a tiger is
      selected and `p` is the landing cell of one of its jumps. */
  ghost predicate CaptureClick(s: State, p: Pos)
    requires SelectionOnBoard(s)
  {
    !s.gameOver && s.turn == Tiger && s.role == Tiger && s.selected.Some? &&
    exists m :: Legal(s.cells, s.selected.value, Tiger, m) && m.to == p && m.captured.Some?
  }

  /** A click raises the capture count by exactly one when it makes a capture
      and leaves it unchanged otherwise. */
  lemma ClickCaptureCount(s: State, p: Pos)
    requires Inv(s) && InGrid(p)
    ensures Click(s, p).goatsCaptured == s.goatsCaptured + (if CaptureClick(s, p) then 1 else 0)
  {
    if !s.gameOver && s.turn == s.role {
      if s.turn == Goat {
        FallThroughIsNoOp(s, p);
      } else if CaptureClick(s, p) {
        var m :| Legal(s.cells, s.selected.value, Tiger, m) && m.to == p && m.captured.Some?;
        ClickLegalDestination(s, p, m);
      } else if s.selected.Some? && s.cells[Index(p)] != Holds(Tiger) {
        var sel := s.selected.value;
        var r := FindTo(ValidMoves(s.cells, sel, Tiger), p);
        if r.Some? {
          ValidMovesIff(s.cells, sel, Tiger, r.value);
          assert r.value.captured.None?;
        }
      }
    }
  }

  // ---------------------------------------------------------------------
  // End of game
  // ---------------------------------------------------------------------

  /** The win test holds exactly at five captures or when no tiger on the
      board has a legal move. */
  lemma WinReachedIff(s: State)
    ensures WinReached(s) <==>
      s.goatsCaptured >= CapturesToWin ||
      forall m: Move :: InGrid(m.from) && s.cells[Index(m.from)] == Holds(Tiger) ==>
        !Legal(s.cells, m.from, Tiger, m)
  {
    TigerCanMoveIff(s.cells);
  }

  /** `switchTurn` swaps the sides and changes nothing else. */
  lemma SwitchTurnFlips(s: State)
    ensures SwitchTurn(s).turn != s.turn
    ensures SwitchTurn(SwitchTurn(s)) == s
    ensures SwitchTurn(s).(turn := s.turn) == s
  {
  }

  // ---------------------------------------------------------------------
  // The AIs
  // ---------------------------------------------------------------------

  /** The tiger AI makes one of the tigers' legal moves, a capture whenever
      one exists; the capture count rises exactly on a capture. */
  lemma TigerAIEffect(s: State, i: nat)
    requires TigerIndexOk(s, i) && !s.gameOver && TigerCanMove(s.cells)
    ensures i < |TigerChoices(s.cells)|
    ensures var m := TigerChoices(s.cells)[i];
      InGrid(m.from) && s.cells[Index(m.from)] == Holds(Tiger) && Legal(s.cells, m.from, Tiger, m) &&
      ((exists c :: c in AllMoves(s.cells, Tiger) && c.captured.Some?) ==> m.captured.Some?) &&
      TigerAI(s, i).cells[Index(m.to)] == Holds(Tiger) &&
      TigerAI(s, i).cells[Index(m.from)] == Empty &&
      TigerAI(s, i).goatsCaptured == s.goatsCaptured + (if m.captured.Some? then 1 else 0)
    ensures var m := TigerChoices(s.cells)[i];
      InGrid(m.to) && (m.captured.Some? ==> InGrid(m.captured.value)) &&
      TigerAI(s, i).cells ==
        (if m.captured.Some? then Relocate(s.cells, m.from, m.to, Tiger)[Index(m.captured.value) := Empty]
         else Relocate(s.cells, m.from, m.to, Tiger)) &&
      TigerAI(s, i).goatsPlaced == s.goatsPlaced
    ensures TurnEnds(s, TigerAI(s, i)) && TigerAI(s, i).selected == s.selected
  {
    TigerCanMoveIff(s.cells);
    var m := TigerChoices(s.cells)[i];
    AllMovesIff(s.cells, Tiger, m);
    AllMovesWellFormed(s.cells, Tiger, m);
  }

  /** When no tiger can move, the tiger AI ends the game and leaves the board alone. */
  lemma TigerAITrapped(s: State, i: nat)
    requires TigerIndexOk(s, i) && !s.gameOver && !TigerCanMove(s.cells)
    ensures TigerAI(s, i) == s.(gameOver := true)
  {
    TigerCanMoveIff(s.cells);
  }

  /** The goat AI never captures. While placing it puts one goat on an empty
      cell; afterwards it makes one legal goat move or, when there is none,
      leaves the board unchanged. The turn passes unless the game ended. */
  lemma GoatAIEffect(s: State, i: nat)
    requires Inv(s) && GoatIndexOk(s, i) && !s.gameOver
    ensures GoatAI(s, i).goatsCaptured == s.goatsCaptured
    ensures s.goatsPlaced < TotalGoats ==>
      GoatAI(s, i).goatsPlaced == s.goatsPlaced + 1 &&
      exists p :: InGrid(p) && s.cells[Index(p)] == Empty &&
        GoatAI(s, i).cells == s.cells[Index(p) := Holds(Goat)]
    ensures s.goatsPlaced >= TotalGoats ==>
      GoatAI(s, i).goatsPlaced == s.goatsPlaced &&
      (GoatAI(s, i).cells == s.cells ||
       exists m: Move :: InGrid(m.from) && InGrid(m.to) && s.cells[Index(m.from)] == Holds(Goat) &&
         Legal(s.cells, m.from, Goat, m) &&
         GoatAI(s, i).cells == Relocate(s.cells, m.from, m.to, Goat))
    ensures s.goatsPlaced >= TotalGoats ==>
      (GoatAI(s, i).cells == s.cells <==> AllMoves(s.cells, Goat) == [])
    ensures s.goatsPlaced < TotalGoats ==>
      i < |EmptyCells(s.cells)| && InGrid(EmptyCells(s.cells)[i]) &&
      GoatAI(s, i).cells == s.cells[Index(EmptyCells(s.cells)[i]) := Holds(Goat)]
    ensures s.goatsPlaced >= TotalGoats && AllMoves(s.cells, Goat) != [] ==>
      i < |AllMoves(s.cells, Goat)| &&
      InGrid(AllMoves(s.cells, Goat)[i].from) && InGrid(AllMoves(s.cells, Goat)[i].to) &&
      GoatAI(s, i).cells ==
        Relocate(s.cells, AllMoves(s.cells, Goat)[i].from, AllMoves(s.cells, Goat)[i].to, Goat)
    ensures TurnEnds(s, GoatAI(s, i)) && GoatAI(s, i).selected == s.selected
  {
    if s.goatsPlaced < TotalGoats {
      PlacementHasEmptyCell(s);
      var p := EmptyCells(s.cells)[i];
      EmptyCellsIff(s.cells, p);
    } else {
      var moves := AllMoves(s.cells, Goat);
      if moves != [] {
        AllMovesWellFormed(s.cells, Goat, moves[i]);
        AllMovesIff(s.cells, Goat, moves[i]);
      }
    }
  }

  /** Every candidate of the goat AI is some index's choice: while placing,
      each empty cell is where the goat goes for some valid index; afterwards,
      each legal goat move is the move made for some valid index. */
  lemma GoatAIReachesEveryCandidate(s: State)
    requires Inv(s) && !s.gameOver
    ensures s.goatsPlaced < TotalGoats ==>
      forall p :: InGrid(p) && s.cells[Index(p)] == Empty ==>
        exists i: nat :: GoatIndexOk(s, i) && GoatAI(s, i).cells == s.cells[Index(p) := Holds(Goat)]
    ensures s.goatsPlaced >= TotalGoats ==>
      forall m: Move ::
        InGrid(m.from) && s.cells[Index(m.from)] == Holds(Goat) && Legal(s.cells, m.from, Goat, m) ==>
        InGrid(m.to) &&
        exists i: nat :: GoatIndexOk(s, i) && GoatAI(s, i).cells == Relocate(s.cells, m.from, m.to, Goat)
  {
    if s.goatsPlaced < TotalGoats {
      forall p | InGrid(p) && s.cells[Index(p)] == Empty
        ensures exists i: nat :: GoatIndexOk(s, i) && GoatAI(s, i).cells == s.cells[Index(p) := Holds(Goat)]
      {
        EmptyCellsIff(s.cells, p);
        var i :| 0 <= i < |EmptyCells(s.cells)| && EmptyCells(s.cells)[i] == p;
        GoatAIEffect(s, i);
      }
    } else {
      forall m: Move | InGrid(m.from) && s.cells[Index(m.from)] == Holds(Goat) && Legal(s.cells, m.from, Goat, m)
        ensures InGrid(m.to) &&
          exists i: nat :: GoatIndexOk(s, i) && GoatAI(s, i).cells == Relocate(s.cells, m.from, m.to, Goat)
      {
        AllMovesIff(s.cells, Goat, m);
        AllMovesWellFormed(s.cells, Goat, m);
        var i :| 0 <= i < |AllMoves(s.cells, Goat)| && AllMoves(s.cells, Goat)[i] == m;
        GoatAIEffect(s, i);
      }
    }
  }

  /** In the movement phase with no legal goat move, the goat AI leaves the
      board as it is, and the turn still passes unless a win is detected. */
  lemma GoatAINoMove(s: State, i: nat)
    requires GoatIndexOk(s, i) && !s.gameOver && s.goatsPlaced >= TotalGoats
    requires forall m: Move :: InGrid(m.from) && s.cells[Index(m.from)] == Holds(Goat) ==>
      !Legal(s.cells, m.from, Goat, m)
    ensures GoatAI(s, i) == EndTurn(s)
    ensures GoatAI(s, i).cells == s.cells
    ensures !WinReached(s) ==> GoatAI(s, i).turn == Opponent(s.turn)
  {
    var moves := AllMoves(s.cells, Goat);
    if moves != [] {
      AllMovesIff(s.cells, Goat, moves[0]);
      assert false;
    }
  }

  // ---------------------------------------------------------------------
  // Example positions
  // ---------------------------------------------------------------------

  /** A tiger in the top-left corner whose three neighbours are empty has
      exactly its three plain steps, in the order of the direction list:
      down, right, diagonal. Off-board directions contribute nothing, and
      no jump is possible over an empty cell. This is the corner tiger of
      the start position, whatever goats stand further away. */
  lemma CornerTigerSteps(g: Grid)
    requires g[Index(Pos(1, 0))] == Empty && g[Index(Pos(0, 1))] == Empty
    requires g[Index(Pos(1, 1))] == Empty
    ensures ValidMoves(g, Pos(0, 0), Tiger) ==
      [Move(Pos(0, 0), Pos(1, 0), None), Move(Pos(0, 0), Pos(0, 1), None),
       Move(Pos(0, 0), Pos(1, 1), None)]
  {
    var o := Pos(0, 0);
    for i := 0 to |Directions|
      invariant MovesFrom(g, o, Tiger, i) ==
        (if i <= 1 then [] else [Move(o, Pos(1, 0), None)]) +
        (if i <= 3 then [] else [Move(o, Pos(0, 1), None)]) +
        (if i <= 7 then [] else [Move(o, Pos(1, 1), None)])
    {
    }
  }

  /** A tiger with a goat beside it and an empty cell beyond can capture it. */
  lemma EdgeCapture(g: Grid)
    requires g[Index(Pos(2, 0))] == Holds(Tiger) && g[Index(Pos(2, 1))] == Holds(Goat)
    requires g[Index(Pos(2, 2))] == Empty
    ensures Move(Pos(2, 0), Pos(2, 2), Some(Pos(2, 1))) in ValidMoves(g, Pos(2, 0), Tiger)
  {
    var m := Move(Pos(2, 0), Pos(2, 2), Some(Pos(2, 1)));
    assert LegalIn(g, Pos(2, 0), Tiger, m, Dir(0, 1));
    ValidMovesIff(g, Pos(2, 0), Tiger, m);
  }
}
