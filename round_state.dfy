/** The React state slots the control panel reads and writes, and the
    handlers that write them: the mines, gems and bet editors, START GAME,
    CASH OUT and "play again". */
module RoundState {
  import opened GameTypes
  import opened ConfigEdits
  import opened GridSetup

  class Round {
    var userInputs: UserInputs
    var gameStatus: GameStatus
    var revealedCells: set<int>
    var cellTypes: seq<CellType>

    /** What every handler here keeps: an idle round has no grid and no
        revealed cells, and a revealed index always names a cell. */
    ghost predicate Valid()
      reads this
    {
      (gameStatus == Idle ==> cellTypes == [] && revealedCells == {}) &&
      forall k :: k in revealedCells ==> 0 <= k < |cellTypes|
    }

    /** The enabled state of the CASH OUT button: the negation of its
        `disabled` condition. */
    predicate CanCashOut()
      reads this
      ensures CanCashOut() <==> !(gameStatus != Playing || |revealedCells| == 0)
    {
      gameStatus == Playing && |revealedCells| > 0
    }

    /** The state before any round: idle, with the given inputs. */
    constructor (inputs: UserInputs)
      ensures Valid()
      ensures userInputs == inputs
      ensures gameStatus == Idle && revealedCells == {} && cellTypes == []
    {
      userInputs := inputs;
      gameStatus := Idle;
      revealedCells := {};
      cellTypes := [];
    }

    /** `handleMinesChange`: the counts satisfy the grid invariant afterwards
        and the bet is unchanged. */
    method HandleMinesChange(newMines: int)
      requires Valid()
      modifies this`userInputs
      ensures Valid()
      ensures userInputs == MinesUpdate(old(userInputs), newMines)
      ensures ValidConfig(userInputs) && userInputs.bet == old(userInputs.bet)
    {
      userInputs := MinesUpdate(userInputs, newMines);
    }

    /** `handleGemsChange`: the mirror image of `HandleMinesChange`. */
    method HandleGemsChange(newGems: int)
      requires Valid()
      modifies this`userInputs
      ensures Valid()
      ensures userInputs == GemsUpdate(old(userInputs), newGems)
      ensures ValidConfig(userInputs) && userInputs.bet == old(userInputs.bet)
    {
      userInputs := GemsUpdate(userInputs, newGems);
    }

    /** The bet input's change handler: only the bet moves. */
    method HandleBetChange(value: real)
      requires Valid()
      modifies this`userInputs
      ensures Valid()
      ensures userInputs == BetUpdate(old(userInputs), value)
      ensures userInputs.mines == old(userInputs.mines) && userInputs.gems == old(userInputs.gems)
    {
      userInputs := BetUpdate(userInputs, value);
    }

    /** `handleCashOut`: a playing round with at least one revealed cell is
        won; in every other state nothing changes. Neither the revealed
        cells nor the grid are ever touched. A round can only be won this
        way when it has a grid. The handler's guard is the same condition
        as the button's enabled state, so it is written once. */
    method HandleCashOut()
      requires Valid()
      modifies this`gameStatus
      ensures Valid()
      ensures old(CanCashOut()) ==> gameStatus == Won
      ensures !old(CanCashOut()) ==> gameStatus == old(gameStatus)
      ensures revealedCells == old(revealedCells) && cellTypes == old(cellTypes)
      ensures old(CanCashOut()) ==> |cellTypes| > 0
    {
      if CanCashOut() {
        RevealedCellNamesCell(revealedCells, cellTypes);
        gameStatus := Won;
      }
    }

    /** `startGame`: a fresh shuffled grid from the current counts, no cell
        revealed, and the round playing. With counts that satisfy the grid
        invariant, the grid has all 25 cells. */
    method StartGame(random: nat -> real)
      requires Valid()
      requires RandomInRange(random)
      modifies this`cellTypes, this`revealedCells, this`gameStatus
      ensures Valid()
      ensures cellTypes == Shuffle(Unshuffled(userInputs.mines, userInputs.gems), random)
      ensures multiset(cellTypes)[Mine] == Max0(userInputs.mines)
      ensures multiset(cellTypes)[Gem] == Max0(userInputs.gems)
      ensures ValidConfig(userInputs) ==> |cellTypes| == GridSize
      ensures revealedCells == {} && gameStatus == Playing
    {
      var grid := InitializeGameGrid(userInputs.mines, userInputs.gems, random);
      ShuffledCounts(userInputs.mines, userInputs.gems, random);
      cellTypes := grid;
      revealedCells := {};
      gameStatus := Playing;
    }

    /** The "play again" button: back to an idle round with no grid. */
    method PlayAgain()
      requires Valid()
      modifies this`gameStatus, this`revealedCells, this`cellTypes
      ensures Valid()
      ensures gameStatus == Idle && revealedCells == {} && cellTypes == []
    {
      gameStatus := Idle;
      revealedCells := {};
      cellTypes := [];
    }
  }

  /** When every revealed index names a cell, an empty grid has no
      revealed cells. */
  lemma RevealedCellNamesCell(revealed: set<int>, cells: seq<CellType>)
    requires forall k :: k in revealed ==> 0 <= k < |cells|
    ensures |cells| == 0 ==> revealed == {}
  {
    if |cells| == 0 {
      assert forall k :: k !in revealed;
    }
  }

  /** Pressing CASH OUT straight after START GAME, before any cell is
      revealed, leaves the round playing with its grid intact. */
  method CashOutBeforeRevealIgnored(inputs: UserInputs, random: nat -> real)
    returns (status: GameStatus, revealed: set<int>, grid: seq<CellType>)
    requires RandomInRange(random)
    ensures status == Playing && revealed == {}
    ensures grid == Shuffle(Unshuffled(inputs.mines, inputs.gems), random)
  {
    var round := new Round(inputs);
    round.StartGame(random);
    round.HandleCashOut();
    status, revealed, grid := round.gameStatus, round.revealedCells, round.cellTypes;
  }

  /** After a configuration edit, START GAME always deals the full grid of
      25 cells with the edited number of mines. */
  method EditThenStart(inputs: UserInputs, newMines: int, random: nat -> real)
    returns (grid: seq<CellType>)
    requires RandomInRange(random)
    ensures |grid| == GridSize
    ensures multiset(grid)[Mine] == Clamp(newMines)
    ensures multiset(grid)[Gem] == GridSize - Clamp(newMines)
  {
    var round := new Round(inputs);
    round.HandleMinesChange(newMines);
    round.StartGame(random);
    grid := round.cellTypes;
  }
}
