# Motherlode mine sweeper: control panel game logic

A model of the game logic in the control panel of a mines-style wager game.
The player picks a bet and splits a 25-cell grid into mines and gems. They
then start a round on a freshly shuffled grid and may cash out once at least
one cell is revealed. The model covers four parts:

- `GameTypes`: the cell kinds, the four round statuses and the user inputs
  record, as declared in `src/types.d.ts`.
- `GridSetup`: `initializeGameGrid`. It writes the mine cells, then the gem
  cells, into an array. It then runs the descending Fisher–Yates loop in
  place on that array. The method is proved equal to a functional
  specification (`Shuffle` of `Unshuffled`). Lemmas prove that the result is
  a permutation with exactly the requested number of mines and gems, that
  every swap index stays inside the grid, and that positions are fixed from
  the top down.
- `ConfigEdits`: the record updaters passed to `setUserInputs` by the mines,
  gems and bet inputs. The two count editors clamp into [1, 24] and restore
  `mines + gems == 25`. Lemmas prove idempotence, that in-range values are
  taken exactly, that the two editors mirror each other, and that the last
  count edit wins.
- `RoundState`: class `Round`, whose fields are the React state slots
  (`userInputs`, `gameStatus`, `revealedCells`, `cellTypes`). Each handler is
  a method with a `modifies` frame. Every method keeps the invariant
  `Valid()`: an idle round has no grid and no revealed cells, and every
  revealed index names a cell.

`Math.random()` is an oracle `random: nat -> real`. `random(k)` is the value
returned by the k-th call, and it lies in [0, 1). The loop round with counter
`i` makes call number `length - 1 - i` and swaps with
`j = floor(random(k) * (i + 1))`.

Where the code differs from the game's stated rules, the code is modelled.
`startGame` does not re-check the counts; its grid has 25 cells only when the
inputs satisfy the invariant, as `StartGame` states. "Play again" returns the
round to `idle`.

## Model

| member | source | states |
|---|---|---|
| `ConfigEdits.Clamp` | src/components/control-panel.tsx:47 | the result lies in [1, 24]; it is the input itself when the input is in range, 1 below, 24 above |
| `ConfigEdits.MinesUpdate` | src/components/control-panel.tsx:46-53 | after a mines edit the counts satisfy 1 ≤ mines, gems ≤ 24 and mines + gems = 25; mines is the clamped value; the bet is unchanged |
| `ConfigEdits.GemsUpdate` | src/components/control-panel.tsx:56-63 | after a gems edit the same invariant holds; gems is the clamped value; the bet is unchanged |
| `ConfigEdits.BetUpdate` | src/components/control-panel.tsx:100-101 | the bet becomes the typed value; mines and gems are unchanged |
| `ConfigEdits.MinesInRangeTakenExactly` | src/components/control-panel.tsx:47-52 | a mine count in [1, 24] is taken exactly, gems become 25 minus it, the bet stays |
| `ConfigEdits.GemsInRangeTakenExactly` | src/components/control-panel.tsx:57-62 | a gem count in [1, 24] is taken exactly, mines become 25 minus it, the bet stays |
| `ConfigEdits.MinesUpdateIdempotent` | src/components/control-panel.tsx:46-53 | applying the same mines edit twice equals applying it once |
| `ConfigEdits.GemsUpdateIdempotent` | src/components/control-panel.tsx:56-63 | applying the same gems edit twice equals applying it once |
| `ConfigEdits.UpdatesFixValidInputs` | src/components/control-panel.tsx:46-63 | on inputs that satisfy the invariant, re-entering the current count changes nothing |
| `ConfigEdits.GemsUpdateMirrorsMinesUpdate` | src/components/control-panel.tsx:46-63 | setting gems to n is the same record update as setting mines to 25 − n |
| `ConfigEdits.LastCountEditWins` | src/components/control-panel.tsx:46-63 | a mines edit after a gems edit (and vice versa) erases the earlier edit |
| `ConfigEdits.BetUpdateKeepsValidConfig` | src/components/control-panel.tsx:100-101 | a bet edit never breaks the count invariant |
| `GridSetup.Draw` | src/components/control-panel.tsx:25 | the swap partner floor(r · (i + 1)) of a value r in [0, 1) lies in [0, i] |
| `GridSetup.DrawReachesEveryIndex` | src/components/control-panel.tsx:25 | every index in [0, i] is drawn by some value in [0, 1) |
| `GridSetup.Swap` | src/components/control-panel.tsx:26 | the two cells trade places and every other cell is unchanged |
| `GridSetup.SwapPermutes` | src/components/control-panel.tsx:26 | a swap keeps the multiset of cells |
| `GameTypes.Max0` | src/components/control-panel.tsx:20-21 | the number of iterations of `for (let i = 0; i < n; i++)`: n when n ≥ 0, otherwise 0 |
| `GridSetup.Unshuffled` | src/components/control-panel.tsx:20-21 | the pushed cells are max(0, mines) mines followed by max(0, gems) gems |
| `GridSetup.RunCount` | src/components/control-panel.tsx:20-21 | n pushes of one kind yield n cells of that kind and none of the other |
| `GridSetup.UnshuffledCounts` | src/components/control-panel.tsx:20-21 | the unshuffled grid holds exactly the requested numbers of mines and gems |
| `GridSetup.ShuffleFrom` | src/components/control-panel.tsx:24-27 | the remaining shuffle rounds keep the grid's length |
| `GridSetup.ShuffleFromPermutes` | src/components/control-panel.tsx:24-27 | the remaining shuffle rounds only permute the cells |
| `GridSetup.Shuffle` | src/components/control-panel.tsx:24-27 | the whole shuffle keeps the grid's length |
| `GridSetup.ShufflePermutes` | src/components/control-panel.tsx:24-27 | the shuffled grid is a permutation of the unshuffled one |
| `GridSetup.ShuffledCounts` | src/components/control-panel.tsx:17-29 | the shuffled grid has mines + gems cells, exactly mines of them mines and gems of them gems |
| `GridSetup.ShuffleFromKeepsAbove` | src/components/control-panel.tsx:24-27 | rounds at or below i never touch positions above i |
| `GridSetup.LastCellIsFirstDraw` | src/components/control-panel.tsx:24-26 | the last cell of the shuffled grid is the cell picked by the first random draw |
| `GridSetup.InitializeGameGrid` | src/components/control-panel.tsx:17-30 | the array-based build and in-place shuffle return exactly `Shuffle(Unshuffled(mines, gems))`, of length mines + gems, a permutation of the unshuffled cells |
| `RoundState.Round.HandleMinesChange` | src/components/control-panel.tsx:46-54 | the inputs become `MinesUpdate` of the old inputs, satisfy the invariant, keep the bet; `Valid()` is kept |
| `RoundState.Round.HandleGemsChange` | src/components/control-panel.tsx:56-64 | the inputs become `GemsUpdate` of the old inputs, satisfy the invariant, keep the bet; `Valid()` is kept |
| `RoundState.Round.HandleBetChange` | src/components/control-panel.tsx:100-102 | only the bet changes |
| `RoundState.Round.CanCashOut` | src/components/control-panel.tsx:156 | true exactly when the status is playing and at least one cell is revealed, the negation of the CASH OUT button's disabled condition |
| `RoundState.Round.HandleCashOut` | src/components/control-panel.tsx:66-70 | status becomes won iff `CanCashOut()` held (the handler's guard and the button's enabled state coincide), otherwise it is unchanged; revealed cells and grid are never touched; a round won this way has a non-empty grid |
| `RoundState.RevealedCellNamesCell` | src/components/control-panel.tsx:66-70 | when every revealed index names a cell, an empty grid has no revealed cells, so cash-out never wins a round without a grid |
| `RoundState.Round.StartGame` | src/components/control-panel.tsx:72-77 | the grid is a fresh shuffle of the current counts with exactly that many mines and gems (25 cells when the inputs satisfy the invariant), no cell is revealed, status is playing |
| `RoundState.Round.PlayAgain` | src/components/control-panel.tsx:171-175 | status is idle, no revealed cells, empty grid; the inputs are kept |
| `RoundState.CashOutBeforeRevealIgnored` | src/components/control-panel.tsx:66-77 | cashing out right after starting a round leaves it playing with nothing revealed and with the grid dealt by the start, `Shuffle(Unshuffled(mines, gems))` |
| `RoundState.EditThenStart` | src/components/control-panel.tsx:46-77 | after a mines edit, starting a round deals 25 cells with the clamped number of mines and the rest gems |

## Left out

- `calculateProfit` is imported from `src/lib/utils`, which is not part of this model. It is also floating-point currency arithmetic.
- The cell-reveal handler (mine hit, full clear) is not in the control panel; the grid only forwards `onCellClick(index)` to a parent that is not part of this model. Nothing else adds to `revealedCells` here.
- The initial values of the state slots are set by a parent component that is not part of this model. The `Round` constructor assumes an idle round with no grid and no revealed cells.
- `Math.random()` is an oracle of values in [0, 1). Its distribution, and so the uniformity of the shuffle, is not modelled.
- `Draw` uses exact real arithmetic for `Math.random() * (i + 1)`; IEEE double rounding is not modelled.
- Counts are integers. `Number(e.target.value)` can give NaN or a fraction, which `Math.max`/`Math.min` pass through; those inputs are not modelled. The bet is a `real` and only ever copied.
- `InitializeGameGrid` writes into an array allocated at its final length instead of pushing onto a growing JavaScript array.
- React batching and stale closures: each handler reads and writes the current state directly.
- Button visibility (START GAME only when idle, "play again" only when won or lost) is rendering; the handlers are modelled without those guards, as the code has none.
- `Round.Valid` requires every revealed index to name a cell. The handler that adds revealed cells is not part of this model, so this clause is an assumption about it; every handler modelled here keeps it.
- Rendering, styling, `CurrencyInput` parsing and the 25-cell placeholder grid are not modelled.
