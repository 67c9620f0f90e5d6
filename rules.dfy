/**
 * The game state machine of script.js as pure functions over a `State`
 * value: the reset of `initBoard`, the click handler `onCellClick`,
 * `switchTurn`, `checkWinConditions` and the two AIs. The class in
 * game.dfy performs the same transitions in place and is proved to agree
 * with these functions; the properties of the transitions are proved in
 * properties.dfy.
 */
module Rules {
  import opened Board
  import opened Moves

  /** The source's global game state (`boardState`, the two counters,
      `currentTurn`, `gameOver`, `selectedPiece`) and the human's side
      (`playerRole`). */
  datatype State = State(
    cells: Grid,
    goatsPlaced: int,
    goatsCaptured: int,
    turn: Piece,
    gameOver: bool,
    selected: Option<Pos>,
    role: Piece)

  /** The four corners, where the tigers start. */
  const TigerStarts: seq<Pos> :=
    [Pos(0, 0), Pos(0, GridSize - 1), Pos(GridSize - 1, 0), Pos(GridSize - 1, GridSize - 1)]

  /** Every cell cleared. */
  function EmptyGrid(): Grid {
    seq(CellCount, _ => Empty)
  }

  /** The cleared board with a tiger written to each of the first `n`
      corners in turn. */
  function TigersPlaced(n: nat): Grid
    requires n <= |TigerStarts|
  {
    if n == 0 then EmptyGrid()
    else TigersPlaced(n - 1)[Index(TigerStarts[n - 1]) := Holds(Tiger)]
  }

  /** The board after `initBoard`. */
  function StartGrid(): Grid {
    TigersPlaced(|TigerStarts|)
  }

  /** The state `initBoard` establishes for a human playing `role`. */
  function Initial(role: Piece): State {
    State(StartGrid(), 0, 0, Goat, false, None, role)
  }

  // ---------------------------------------------------------------------
  // Invariants
  // ---------------------------------------------------------------------

  /** A selection, if any, is a board position. */
  predicate SelectionOnBoard(s: State) {
    s.selected.Some? ==> InGrid(s.selected.value)
  }

  /** Piece counts: four tigers, and as many goats on the board as were
      placed and not captured. */
  predicate BoardInv(s: State) {
    Count(s.cells, Holds(Tiger)) == TigerCount &&
    0 <= s.goatsCaptured <= s.goatsPlaced <= TotalGoats &&
    Count(s.cells, Holds(Goat)) == s.goatsPlaced - s.goatsCaptured
  }

  /** The selection belongs to the human whose turn it is, points at one of
      that side's pieces and is never made while goats are still placed. */
  predicate SelectionInv(s: State) {
    SelectionOnBoard(s) &&
    (s.selected.Some? ==>
       s.cells[Index(s.selected.value)] == Holds(s.turn) &&
       s.turn == s.role &&
       !(s.turn == Goat && s.goatsPlaced < TotalGoats))
  }

  /** The invariant every reachable state satisfies. */
  predicate Inv(s: State) {
    BoardInv(s) &&
    s.goatsCaptured <= CapturesToWin &&
    (!s.gameOver ==> s.goatsCaptured < CapturesToWin) &&
    SelectionInv(s)
  }

  // ---------------------------------------------------------------------
  // Turn, end of game
  // ---------------------------------------------------------------------

  /** `switchTurn`: the other side is to move. */
  function SwitchTurn(s: State): State {
    s.(turn := Opponent(s.turn))
  }

  /** The test of `checkWinConditions`: five captures, or no tiger can move. */
  predicate WinReached(s: State) {
    s.goatsCaptured >= CapturesToWin || !TigerCanMove(s.cells)
  }

  /** What follows every applied move: `if (checkWinConditions()) return;
      switchTurn();`. */
  function EndTurn(s: State): State {
    if WinReached(s) then s.(gameOver := true) else SwitchTurn(s)
  }

  // ---------------------------------------------------------------------
  // Board updates
  // ---------------------------------------------------------------------

  /** A goat is placed on `p`. */
  function PlaceGoat(s: State, p: Pos): State
    requires InGrid(p)
  {
    s.(cells := s.cells[Index(p) := Holds(Goat)], goatsPlaced := s.goatsPlaced + 1)
  }

  /** `piece` is written to `to`, then `from` is cleared. */
  function Relocate(g: Grid, from: Pos, to: Pos, piece: Piece): Grid
    requires InGrid(from) && InGrid(to)
  {
    g[Index(to) := Holds(piece)][Index(from) := Empty]
  }

  /** A tiger moves from `from` to `to`; on a capture the jumped cell is
      cleared and the capture is counted. */
  function ApplyTigerMove(s: State, from: Pos, to: Pos, captured: Option<Pos>): State
    requires InGrid(from) && InGrid(to) && (captured.Some? ==> InGrid(captured.value))
  {
    var g := Relocate(s.cells, from, to, Tiger);
    if captured.Some? then
      s.(cells := g[Index(captured.value) := Empty], goatsCaptured := s.goatsCaptured + 1)
    else
      s.(cells := g)
  }

  /** `validMoves.find(m => m.to == p)`: the first move landing on `p`. */
  function FindTo(ms: seq<Move>, p: Pos): (r: Option<Move>)
    ensures r.Some? ==> r.value in ms && r.value.to == p
    ensures r.None? <==> forall m :: m in ms ==> m.to != p
  {
    if ms == [] then None
    else if ms[0].to == p then Some(ms[0])
    else FindTo(ms[1..], p)
  }

  // ---------------------------------------------------------------------
  // The click handler
  // ---------------------------------------------------------------------

  /**
   * The goat block of `onCellClick` on the clicked cell `p`. The flag is true
   * when the handler returns from inside the block, false when control
   * falls through to the tiger block.
   */
  function GoatBlock(s: State, p: Pos): (r: (State, bool))
    requires InGrid(p) && SelectionOnBoard(s)
    ensures SelectionOnBoard(r.0)
  {
    var cell := s.cells[Index(p)];
    if s.goatsPlaced < TotalGoats then
      if cell != Empty then (s, true) else (EndTurn(PlaceGoat(s, p)), true)
    else if s.selected.None? then
      (if cell == Holds(Goat) then s.(selected := Some(p)) else s, true)
    else if cell == Holds(Goat) then
      (s.(selected := Some(p)), true)
    else
      var sel := s.selected.value;
      match FindTo(ValidMoves(s.cells, sel, Goat), p)
      case None => (s, false)
      case Some(_) =>
        var moved := s.(cells := Relocate(s.cells, sel, p, Goat), selected := None);
        if WinReached(moved) then (moved.(gameOver := true), true) else (SwitchTurn(moved), false)
  }

  /** The tiger block of `onCellClick`, entered whenever it is the tigers'
      turn at that point. */
  function TigerBlock(s: State, p: Pos): State
    requires InGrid(p) && SelectionOnBoard(s)
  {
    if s.turn != Tiger then s
    else
      var cell := s.cells[Index(p)];
      if s.selected.None? then
        if cell == Holds(Tiger) then s.(selected := Some(p)) else s
      else if cell == Holds(Tiger) then
        s.(selected := Some(p))
      else
        var sel := s.selected.value;
        match FindTo(ValidMoves(s.cells, sel, Tiger), p)
        case None => s
        case Some(m) =>
          ValidMoveLandsOnEmpty(s.cells, sel, Tiger, m);
          EndTurn(ApplyTigerMove(s, sel, p, m.captured).(selected := None))
  }

  /** `onCellClick` on cell `p`: ignored when the game is over or it is not
      the human's turn; otherwise the goat block, then the tiger block. */
  function Click(s: State, p: Pos): State
    requires InGrid(p) && SelectionOnBoard(s)
  {
    if s.gameOver || s.turn != s.role then s
    else if s.turn == Goat then
      var r := GoatBlock(s, p);
      if r.1 then r.0 else TigerBlock(r.0, p)
    else
      TigerBlock(s, p)
  }

  // ---------------------------------------------------------------------
  // The AIs (the random index is a parameter)
  // ---------------------------------------------------------------------

  /** `moves.filter(move => move.capture)`. */
  function Captures(ms: seq<Move>): (cs: seq<Move>)
    ensures forall m :: m in cs <==> m in ms && m.captured.Some?
  {
    if ms == [] then []
    else (if ms[0].captured.Some? then [ms[0]] else []) + Captures(ms[1..])
  }

  /** The moves the tiger AI chooses among: the captures if there are any,
      otherwise every tiger move. */
  function TigerChoices(g: Grid): (cs: seq<Move>)
    ensures forall m :: m in cs ==> m in AllMoves(g, Tiger)
    ensures (exists m :: m in AllMoves(g, Tiger) && m.captured.Some?) ==>
      forall m :: m in cs ==> m.captured.Some?
    ensures forall m :: m in AllMoves(g, Tiger) && m.captured.Some? ==> m in cs
    ensures (forall m :: m in AllMoves(g, Tiger) ==> m.captured.None?) ==> cs == AllMoves(g, Tiger)
    ensures cs == [] <==> AllMoves(g, Tiger) == []
  {
    var all := AllMoves(g, Tiger);
    var caps := Captures(all);
    if caps != [] then
      assert caps[0] in all && caps[0].captured.Some?;
      caps
    else
      assert forall m :: m in all ==> m.captured.None?;
      all
  }

  /** The index stands for `Math.floor(Math.random() * n)`: it selects a
      candidate whenever the tiger AI gets as far as choosing one. */
  predicate TigerIndexOk(s: State, i: nat) {
    !s.gameOver && AllMoves(s.cells, Tiger) != [] ==> i < |TigerChoices(s.cells)|
  }

  /** `tigerAIMove` with the choice `i`. */
  function TigerAI(s: State, i: nat): State
    requires TigerIndexOk(s, i)
  {
    if s.gameOver then s
    else if AllMoves(s.cells, Tiger) == [] then s.(gameOver := true)
    else
      var m := TigerChoices(s.cells)[i];
      AllMovesWellFormed(s.cells, Tiger, m);
      EndTurn(ApplyTigerMove(s, m.from, m.to, m.captured))
  }

  /** How many candidates the goat AI chooses among: empty cells while goats
      are placed, goat moves afterwards. */
  function GoatChoiceCount(s: State): nat {
    if s.goatsPlaced < TotalGoats then |EmptyCells(s.cells)| else |AllMoves(s.cells, Goat)|
  }

  predicate GoatIndexOk(s: State, i: nat) {
    !s.gameOver && GoatChoiceCount(s) > 0 ==> i < GoatChoiceCount(s)
  }

  /** `goatAIMove` with the choice `i`: place on the i-th empty cell, or make
      the i-th goat move; when there is none, nothing moves but the turn
      still ends. */
  function GoatAI(s: State, i: nat): State
    requires GoatIndexOk(s, i)
  {
    if s.gameOver then s
    else if s.goatsPlaced < TotalGoats then
      var empties := EmptyCells(s.cells);
      if empties == [] then EndTurn(s)
      else
        EmptyCellsIff(s.cells, empties[i]);
        EndTurn(PlaceGoat(s, empties[i]))
    else
      var moves := AllMoves(s.cells, Goat);
      if moves == [] then EndTurn(s)
      else
        AllMovesWellFormed(s.cells, Goat, moves[i]);
        EndTurn(s.(cells := Relocate(s.cells, moves[i].from, moves[i].to, Goat)))
  }
}
