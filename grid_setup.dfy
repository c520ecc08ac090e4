/** `initializeGameGrid`: lay out the mine cells, then the gem cells, then
    shuffle them in place with a descending Fisher–Yates loop.

    `Math.random()` is not modelled; it is an oracle `random` where
    `random(k)` is the value the k-th call returns, somewhere in [0, 1). */
module GridSetup {
  import opened GameTypes

  /** What every call of `Math.random()` may return. */
  ghost predicate RandomInRange(random: nat -> real) {
    forall k: nat :: 0.0 <= random(k) < 1.0
  }

  /** `Math.floor(r * (i + 1))`: the partner index for position `i`.
      It always lies in [0, i], so the swap never leaves the grid. */
  function Draw(r: real, i: nat): (j: int)
    requires 0.0 <= r < 1.0
    ensures 0 <= j <= i
  {
    assert r * ((i + 1) as real) < (i + 1) as real by {
      assert ((i + 1) as real) * (1.0 - r) > 0.0;
    }
    (r * ((i + 1) as real)).Floor
  }

  /** Every partner index can be drawn: the value j / (i + 1) picks j. */
  lemma DrawReachesEveryIndex(i: nat, j: nat)
    requires j <= i
    ensures 0.0 <= (j as real) / ((i + 1) as real) < 1.0
    ensures Draw((j as real) / ((i + 1) as real), i) == j
  {
    var n := (i + 1) as real;
    var r := (j as real) / n;
    assert r * n == j as real;
    assert j as real < n;
  }

  /** `[grid[i], grid[j]] = [grid[j], grid[i]]` on the sequence of cells. */
  function Swap(s: seq<CellType>, i: nat, j: nat): (t: seq<CellType>)
    requires i < |s| && j < |s|
    ensures |t| == |s| && t[i] == s[j] && t[j] == s[i]
    ensures forall k :: 0 <= k < |s| && k != i && k != j ==> t[k] == s[k]
  {
    s[i := s[j]][j := s[i]]
  }

  /** A swap only moves cells around. */
  lemma SwapPermutes(s: seq<CellType>, i: nat, j: nat)
    requires i < |s| && j < |s|
    ensures multiset(Swap(s, i, j)) == multiset(s)
  {
  }

  /** The cells the two filling loops push: `mines` mines, then `gems` gems
      (a negative count pushes nothing). */
  function Unshuffled(mines: int, gems: int): (s: seq<CellType>)
    ensures |s| == Max0(mines) + Max0(gems)
    ensures forall k :: 0 <= k < Max0(mines) ==> s[k] == Mine
    ensures forall k :: Max0(mines) <= k < |s| ==> s[k] == Gem
  {
    seq(Max0(mines), _ => Mine) + seq(Max0(gems), _ => Gem)
  }

  /** The rounds of the shuffle loop still to run when its counter is `i`:
      rounds i, i - 1, ..., 1, where round i is the (|s| - 1 - i)-th call of
      the oracle. */
  function ShuffleFrom(s: seq<CellType>, i: int, random: nat -> real): (t: seq<CellType>)
    requires i < |s|
    requires RandomInRange(random)
    ensures |t| == |s|
    decreases i
  {
    if i <= 0 then s
    else ShuffleFrom(Swap(s, i, Draw(random(|s| - 1 - i), i)), i - 1, random)
  }

  /** Each round only swaps, so the rounds still to run leave the cells a
      permutation of the ones they start from. */
  lemma {:induction false} ShuffleFromPermutes(s: seq<CellType>, i: int, random: nat -> real)
    requires i < |s|
    requires RandomInRange(random)
    ensures multiset(ShuffleFrom(s, i, random)) == multiset(s)
    decreases i
  {
    if i > 0 {
      var t := Swap(s, i, Draw(random(|s| - 1 - i), i));
      SwapPermutes(s, i, Draw(random(|s| - 1 - i), i));
      ShuffleFromPermutes(t, i - 1, random);
    }
  }

  /** The whole shuffle, started at the last index. */
  function Shuffle(s: seq<CellType>, random: nat -> real): (t: seq<CellType>)
    requires RandomInRange(random)
    ensures |t| == |s|
  {
    ShuffleFrom(s, |s| - 1, random)
  }

  /** The shuffled grid is a permutation of the unshuffled one. */
  lemma ShufflePermutes(s: seq<CellType>, random: nat -> real)
    requires RandomInRange(random)
    ensures multiset(Shuffle(s, random)) == multiset(s)
  {
    ShuffleFromPermutes(s, |s| - 1, random);
  }

  /** A run of `n` copies of `c` holds `n` of `c` and none of anything else. */
  lemma {:induction false} RunCount(c: CellType, n: nat, other: CellType)
    requires other != c
    ensures multiset(seq(n, _ => c))[c] == n
    ensures multiset(seq(n, _ => c))[other] == 0
  {
    if n > 0 {
      RunCount(c, n - 1, other);
      assert seq(n, _ => c) == seq(n - 1, _ => c) + [c];
    }
  }

  /** The unshuffled grid holds exactly the requested numbers of each kind. */
  lemma UnshuffledCounts(mines: int, gems: int)
    ensures multiset(Unshuffled(mines, gems))[Mine] == Max0(mines)
    ensures multiset(Unshuffled(mines, gems))[Gem] == Max0(gems)
  {
    RunCount(Mine, Max0(mines), Gem);
    RunCount(Gem, Max0(gems), Mine);
  }

  /** The shuffled grid has `mines + gems` cells, `mines` of them mines and
      `gems` of them gems. */
  lemma ShuffledCounts(mines: int, gems: int, random: nat -> real)
    requires RandomInRange(random)
    ensures |Shuffle(Unshuffled(mines, gems), random)| == Max0(mines) + Max0(gems)
    ensures multiset(Shuffle(Unshuffled(mines, gems), random))[Mine] == Max0(mines)
    ensures multiset(Shuffle(Unshuffled(mines, gems), random))[Gem] == Max0(gems)
  {
    UnshuffledCounts(mines, gems);
    ShufflePermutes(Unshuffled(mines, gems), random);
  }

  /** Once round i has run, no later round touches positions above i. */
  lemma {:induction false} ShuffleFromKeepsAbove(s: seq<CellType>, i: int, random: nat -> real, k: nat)
    requires i < k < |s|
    requires RandomInRange(random)
    ensures ShuffleFrom(s, i, random)[k] == s[k]
    decreases i
  {
    if i > 0 {
      var t := Swap(s, i, Draw(random(|s| - 1 - i), i));
      ShuffleFromKeepsAbove(t, i - 1, random, k);
    }
  }

  /** The last cell of the shuffled grid is the one the first oracle call
      picked: Fisher–Yates fixes the positions from the top down. */
  lemma LastCellIsFirstDraw(s: seq<CellType>, random: nat -> real)
    requires |s| > 0
    requires RandomInRange(random)
    ensures Shuffle(s, random)[|s| - 1] == s[Draw(random(0), |s| - 1)]
  {
    var n := |s|;
    if n > 1 {
      var t := Swap(s, n - 1, Draw(random(0), n - 1));
      ShuffleFromKeepsAbove(t, n - 2, random, n - 1);
    }
  }

  /** `initializeGameGrid(mines, gems)`, with the oracle passed in. The grid
      is built and shuffled in an array; its final contents are returned. */
  method InitializeGameGrid(mines: int, gems: int, random: nat -> real) returns (grid: seq<CellType>)
    requires RandomInRange(random)
    ensures grid == Shuffle(Unshuffled(mines, gems), random)
    ensures |grid| == Max0(mines) + Max0(gems)
    ensures multiset(grid) == multiset(Unshuffled(mines, gems))
  {
    var a := new CellType[Max0(mines) + Max0(gems)];

    var i := 0;
    while i < mines
      invariant 0 <= i <= Max0(mines)
      invariant forall k :: 0 <= k < i ==> a[k] == Mine
    {
      a[i] := Mine;
      i := i + 1;
    }
    i := 0;
    while i < gems
      invariant 0 <= i <= Max0(gems)
      invariant forall k :: 0 <= k < Max0(mines) ==> a[k] == Mine
      invariant forall k :: Max0(mines) <= k < Max0(mines) + i ==> a[k] == Gem
    {
      a[Max0(mines) + i] := Gem;
      i := i + 1;
    }
    ghost var start := a[..];
    assert start == Unshuffled(mines, gems);

    i := a.Length - 1;
    while i > 0
      invariant -1 <= i < a.Length
      invariant multiset(a[..]) == multiset(start)
      invariant ShuffleFrom(a[..], i, random) == Shuffle(start, random)
      decreases i
    {
      ghost var before := a[..];
      var j := Draw(random(a.Length - 1 - i), i);
      a[i], a[j] := a[j], a[i];
      assert a[..] == Swap(before, i, j);
      SwapPermutes(before, i, j);
      i := i - 1;
    }
    grid := a[..];
  }
}
