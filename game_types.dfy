/** The value types shared by the control panel and the grid:
    the two cell kinds, the four round statuses and the user's wager inputs. */
module GameTypes {

  /** What a grid cell hides. */
  datatype CellType = Mine | Gem

  /** Where the round is. Only `Idle` shows the START GAME button. */
  datatype GameStatus = Idle | Playing | Won | Lost

  /** The bet and the mine/gem split the player has typed in.
      `bet` is a JavaScript number; it is carried along unchanged by every
      operation modelled here, so it is kept as a `real`. */
  datatype UserInputs = UserInputs(bet: real, gems: int, mines: int)

  /** The number of loop iterations `for (let i = 0; i < n; i++)` performs. */
  function Max0(n: int): (r: nat)
    ensures n >= 0 ==> r == n
    ensures n < 0 ==> r == 0
  {
    if n < 0 then 0 else n
  }
}
