/** The record updaters that the mines, gems and bet inputs pass to
    `setUserInputs`: each rewrites one field of the previous inputs and,
    for the two counts, keeps the total at the grid size. */
module ConfigEdits {
  import opened GameTypes

  const GridSize: int := 25
  const MinCount: int := 1
  const MaxCount: int := 24

  /** The invariant the two count editors restore: both counts in
      [1, 24] and together filling the 25-cell grid. */
  predicate ValidConfig(u: UserInputs) {
    MinCount <= u.mines <= MaxCount && MinCount <= u.gems <= MaxCount &&
    u.mines + u.gems == GridSize
  }

  /** `Math.max(1, Math.min(24, n))`. */
  function Clamp(n: int): (c: int)
    ensures MinCount <= c <= MaxCount
    ensures MinCount <= n <= MaxCount ==> c == n
    ensures n < MinCount ==> c == MinCount
    ensures n > MaxCount ==> c == MaxCount
  {
    if n > MaxCount then MaxCount else if n < MinCount then MinCount else n
  }

  /** The updater behind `handleMinesChange(newMines)`. */
  function MinesUpdate(prev: UserInputs, newMines: int): (next: UserInputs)
    ensures ValidConfig(next)
    ensures next.bet == prev.bet
    ensures next.mines == Clamp(newMines)
  {
    var clampedMines := Clamp(newMines);
    prev.(mines := clampedMines, gems := GridSize - clampedMines)
  }

  /** The updater behind `handleGemsChange(newGems)`. */
  function GemsUpdate(prev: UserInputs, newGems: int): (next: UserInputs)
    ensures ValidConfig(next)
    ensures next.bet == prev.bet
    ensures next.gems == Clamp(newGems)
  {
    var clampedGems := Clamp(newGems);
    prev.(mines := GridSize - clampedGems, gems := clampedGems)
  }

  /** The updater the bet input passes to `setUserInputs`. */
  function BetUpdate(prev: UserInputs, value: real): (next: UserInputs)
    ensures next.bet == value
    ensures next.mines == prev.mines && next.gems == prev.gems
  {
    prev.(bet := value)
  }

  /** A count typed inside [1, 24] is taken exactly, and its partner is
      what is left of the 25 cells. */
  lemma MinesInRangeTakenExactly(prev: UserInputs, n: int)
    requires MinCount <= n <= MaxCount
    ensures MinesUpdate(prev, n) == UserInputs(prev.bet, GridSize - n, n)
  {
  }

  lemma GemsInRangeTakenExactly(prev: UserInputs, n: int)
    requires MinCount <= n <= MaxCount
    ensures GemsUpdate(prev, n) == UserInputs(prev.bet, n, GridSize - n)
  {
  }

  /** Typing the same mine count twice is the same as typing it once. */
  lemma MinesUpdateIdempotent(prev: UserInputs, n: int)
    ensures MinesUpdate(MinesUpdate(prev, n), n) == MinesUpdate(prev, n)
  {
  }

  lemma GemsUpdateIdempotent(prev: UserInputs, n: int)
    ensures GemsUpdate(GemsUpdate(prev, n), n) == GemsUpdate(prev, n)
  {
  }

  /** On inputs that already satisfy the invariant, re-entering the
      current count changes nothing. */
  lemma UpdatesFixValidInputs(u: UserInputs)
    requires ValidConfig(u)
    ensures MinesUpdate(u, u.mines) == u
    ensures GemsUpdate(u, u.gems) == u
  {
  }

  /** Editing the gems to `n` is editing the mines to `25 - n`: the two
      clamps mirror each other around the grid size. */
  lemma GemsUpdateMirrorsMinesUpdate(prev: UserInputs, n: int)
    ensures GemsUpdate(prev, n) == MinesUpdate(prev, GridSize - n)
  {
  }

  /** Whichever count was edited last decides the split: an earlier edit
      of either count leaves no trace. */
  lemma LastCountEditWins(prev: UserInputs, g: int, m: int)
    ensures MinesUpdate(GemsUpdate(prev, g), m) == MinesUpdate(prev, m)
    ensures GemsUpdate(MinesUpdate(prev, m), g) == GemsUpdate(prev, g)
  {
  }

  /** Changing the bet never breaks the count invariant. */
  lemma BetUpdateKeepsValidConfig(prev: UserInputs, value: real)
    requires ValidConfig(prev)
    ensures ValidConfig(BetUpdate(prev, value))
  {
  }
}
