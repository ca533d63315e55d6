/** The rules of Mines that need no database: the multiplier path and the mine draw
    (src/modules/mines/mines-game.logic.ts). */
module MinesGame {
  import opened Combinatorics
  import opened Money
  import opened Sequences

  /** House return per unit stake, in hundredths: the source's 0.96. */
  const HOUSE_RETURN := 96

  predicate ValidBoard(boardSize: int, minesCount: int)
  {
    0 < minesCount < boardSize
  }

  // ----- The multiplier path -----

  /** What the k-th safe reveal must be worth for the game to return 0.96: the odds are
      counted over mine layouts, C(n,m) in all, C(n-k,m) of which spare k given cells. */
  function PathMultiplier(n: nat, m: nat, k: nat): (hundredths: int)
    requires ValidBoard(n, m) && 1 <= k <= n - m
  {
    RoundHalfUp(HOUSE_RETURN * Choose(n, m), Choose(n - k, m))
  }

  function MultiplierPath(boardSize: int, minesCount: int): (path: seq<int>)
    ensures |path| == if ValidBoard(boardSize, minesCount) then boardSize - minesCount else 0
  {
    if ValidBoard(boardSize, minesCount) then
      seq(boardSize - minesCount,
          i requires 0 <= i < boardSize - minesCount => PathMultiplier(boardSize, minesCount, i + 1))
    else []
  }

  /** The source's running product of probabilities, kept as an exact fraction, yields
      the path that counting layouts prescribes. */
  method BuildMinesMultiplierPath(boardSize: int, minesCount: int) returns (multipliers: seq<int>)
    ensures multipliers == MultiplierPath(boardSize, minesCount)
  {
    var safeCells := boardSize - minesCount;
    if boardSize <= 0 || minesCount <= 0 || safeCells <= 0 {
      return [];
    }
    multipliers := [];
    // safeProbability == survivors / total
    var survivors, total := 1, 1;
    for revealIndex := 0 to safeCells
      invariant survivors > 0 && total > 0
      invariant total * Choose(boardSize - revealIndex, minesCount) == survivors * Choose(boardSize, minesCount)
      invariant multipliers == MultiplierPath(boardSize, minesCount)[..revealIndex]
    {
      SafeProbabilityStep(boardSize, minesCount, revealIndex, survivors, total);
      survivors := survivors * (safeCells - revealIndex);
      total := total * (boardSize - revealIndex);
      multipliers := multipliers + [RoundHalfUp(HOUSE_RETURN * total, survivors)];
    }
  }

  /** One factor (n-m-i)/(n-i) turns C(n-i,m)/C(n,m) into C(n-i-1,m)/C(n,m). */
  lemma SafeProbabilityStep(n: nat, m: nat, i: nat, survivors: int, total: int)
    requires ValidBoard(n, m) && i < n - m && survivors > 0 && total > 0
    requires total * Choose(n - i, m) == survivors * Choose(n, m)
    ensures var s, t := survivors * (n - m - i), total * (n - i);
            && s > 0 && t > 0
            && t * Choose(n - i - 1, m) == s * Choose(n, m)
            && RoundHalfUp(HOUSE_RETURN * t, s) == PathMultiplier(n, m, i + 1)
  {
    var s, t := survivors * (n - m - i), total * (n - i);
    var all, before, after := Choose(n, m), Choose(n - i, m), Choose(n - i - 1, m);
    ChooseShrink(n - i, m);
    ScaleFraction(all, before, after, survivors, total, n - i - m, n - i);
    RoundScaled(HOUSE_RETURN, t, s, all, after);
  }

  lemma RoundScaled(factor: int, t: int, s: int, all: int, after: int)
    requires s > 0 && after > 0 && t * after == s * all
    ensures RoundHalfUp(factor * t, s) == RoundHalfUp(factor * all, after)
  {
    assert (factor * t) * after == factor * (t * after);
    assert (factor * all) * s == factor * (s * all);
    RoundSameRatio(factor * t, s, factor * all, after);
  }

  lemma ScaleFraction(all: int, before: int, after: int, survivors: int, total: int, x: int, y: int)
    requires x * before == y * after && x > 0 && y > 0 && survivors > 0 && total > 0
    requires total * before == survivors * all
    ensures survivors * x > 0 && total * y > 0
    ensures (total * y) * after == (survivors * x) * all
  {
  }

  /** The exact path 0.96 C(n,m) / C(n-k,m) strictly increases, compared by cross
      multiplication; rounded to hundredths it never decreases. */
  lemma PathIncreases(n: nat, m: nat, k: nat)
    requires ValidBoard(n, m) && 1 <= k < n - m
    ensures var units := HOUSE_RETURN * Choose(n, m);
            units * Choose(n - k - 1, m) < units * Choose(n - k, m)
    ensures 0 < Choose(n - k - 1, m) < Choose(n - k, m)
    ensures PathMultiplier(n, m, k) <= PathMultiplier(n, m, k + 1)
  {
    var c, before, after := HOUSE_RETURN * Choose(n, m), Choose(n - k, m), Choose(n - k - 1, m);
    assert before == Choose(n - k - 1, m - 1) + after;
    MulOrder(c, after, before);
    RoundMonotone(c, before, c, after);
  }

  /** Even the first safe reveal is worth at least the house return. */
  lemma PathPositive(n: nat, m: nat, k: nat)
    requires ValidBoard(n, m) && 1 <= k <= n - m
    ensures PathMultiplier(n, m, k) >= 96
  {
    ChooseMonotone(n - k, n, m);
    var c, d := HOUSE_RETURN * Choose(n, m), Choose(n - k, m);
    RoundWhole(HOUSE_RETURN, 1);
    assert HOUSE_RETURN * d <= c * 1;
    RoundMonotone(HOUSE_RETURN, 1, c, d);
  }

  lemma {:induction false} ChooseMonotone(a: nat, b: nat, m: nat)
    requires a <= b
    ensures Choose(a, m) <= Choose(b, m)
    decreases b - a
  {
    if a < b {
      ChooseMonotone(a, b - 1, m);
    }
  }

  // ----- The mine draw -----

  // The random generator is a list of the values it will return. A list is long enough
  // when it holds as many distinct cells as there are mines to place.

  /** The distinct values among the first `draws` values of the stream. */
  function DrawnCells(stream: seq<int>, draws: nat): (cells: set<int>)
    requires draws <= |stream|
  {
    Elements(stream[..draws])
  }

  /** After `draws` values, and no earlier, `count` distinct cells have been seen. */
  ghost predicate StopsAt(stream: seq<int>, count: nat, draws: nat)
    requires draws <= |stream|
  {
    && 0 < draws
    && |DrawnCells(stream, draws)| == count
    && |DrawnCells(stream, draws - 1)| < count
  }

  predicate StrictlySorted(xs: seq<int>)
  {
    forall i, j :: 0 <= i < j < |xs| ==> xs[i] < xs[j]
  }

  function InsertAscending(x: int, xs: seq<int>): (ys: seq<int>)
    ensures |ys| == |xs| + 1 && forall y :: y in ys <==> y == x || y in xs
  {
    if xs == [] then [x]
    else
      assert xs == [xs[0]] + xs[1..];
      if x < xs[0] then [x] + xs else [xs[0]] + InsertAscending(x, xs[1..])
  }

  lemma {:induction false} InsertKeepsSorted(x: int, xs: seq<int>)
    requires StrictlySorted(xs) && x !in xs
    ensures StrictlySorted(InsertAscending(x, xs))
  {
    if xs != [] {
      var first, rest := xs[0], xs[1..];
      assert xs == [first] + rest;
      if first < x {
        InsertKeepsSorted(x, rest);
        SortedCons(first, InsertAscending(x, rest));
      } else {
        SortedCons(x, xs);
      }
    }
  }

  lemma SortedCons(x: int, xs: seq<int>)
    requires StrictlySorted(xs) && forall y :: y in xs ==> x < y
    ensures StrictlySorted([x] + xs)
  {
    var ys := [x] + xs;
    forall i, j | 0 <= i < j < |ys| ensures ys[i] < ys[j] {
      assert ys[j] == xs[j - 1] && xs[j - 1] in xs;
    }
  }

  /** `Array.from(positions).sort((a, b) => a - b)` */
  function SortAscending(xs: seq<int>): (ys: seq<int>)
    ensures |ys| == |xs| && forall y :: y in ys <==> y in xs
  {
    if xs == [] then []
    else
      assert xs == [xs[0]] + xs[1..];
      InsertAscending(xs[0], SortAscending(xs[1..]))
  }

  lemma {:induction false} SortAscendingSorts(xs: seq<int>)
    requires Distinct(xs)
    ensures StrictlySorted(SortAscending(xs)) && Elements(SortAscending(xs)) == Elements(xs)
  {
    if xs != [] {
      assert xs == [xs[0]] + xs[1..];
      SortAscendingSorts(xs[1..]);
      InsertKeepsSorted(xs[0], SortAscending(xs[1..]));
    }
  }

  /** What the draw has collected after `draws` values. */
  ghost predicate Collected(found: seq<int>, stream: seq<int>, draws: nat, count: nat)
  {
    && draws <= |stream| && |found| <= count
    && Distinct(found) && Elements(found) == DrawnCells(stream, draws)
    && (0 < |found| == count ==> StopsAt(stream, count, draws))
  }

  lemma CollectNext(found: seq<int>, stream: seq<int>, draws: nat, count: nat)
    requires Collected(found, stream, draws, count) && |found| < count && draws < |stream|
    ensures var cell := stream[draws];
            Collected(if cell in found then found else found + [cell], stream, draws + 1, count)
  {
    var cell := stream[draws];
    var next := if cell in found then found else found + [cell];
    assert stream[..draws + 1] == stream[..draws] + [cell];
    assert Elements(stream[..draws + 1]) == Elements(stream[..draws]) + {cell};
    assert Elements(found + [cell]) == Elements(found) + {cell};
    DistinctSize(found);
    DistinctSize(next);
  }

  lemma StreamNotExhausted(found: seq<int>, stream: seq<int>, draws: nat, count: nat)
    requires Collected(found, stream, draws, count) && |found| < count <= |Elements(stream)|
    ensures draws < |stream|
  {
    DistinctSize(found);
    assert stream[..|stream|] == stream;
  }

  /** What a finished draw returns, on a board of n cells. */
  ghost predicate Drawn(positions: seq<int>, stream: seq<int>, draws: nat, n: int, count: nat)
  {
    && |positions| == count && StrictlySorted(positions) && (forall p :: p in positions ==> 0 <= p < n)
    && draws <= |stream| && StopsAt(stream, count, draws)
    && Elements(positions) == DrawnCells(stream, draws)
  }

  lemma CollectedSorted(found: seq<int>, stream: seq<int>, draws: nat, n: int, count: nat)
    requires Collected(found, stream, draws, count) && |found| == count > 0
    requires forall c :: c in stream ==> 0 <= c < n
    ensures Drawn(SortAscending(found), stream, draws, n, count)
  {
    var positions := SortAscending(found);
    SortAscendingSorts(found);
    forall p | p in positions ensures 0 <= p < n {
      assert p in Elements(found);
      assert p in stream[..draws];
      assert p in stream;
    }
  }

  /** The loop ends exactly because the stream holds minesCount distinct cells; it returns
      the first minesCount distinct values, sorted, and reads no further. */
  method DrawMinePositions(boardSize: int, minesCount: int, stream: seq<int>)
    returns (positions: seq<int>, draws: nat)
    requires ValidBoard(boardSize, minesCount) ==> forall c :: c in stream ==> 0 <= c < boardSize
    requires ValidBoard(boardSize, minesCount) ==> |Elements(stream)| >= minesCount
    ensures !ValidBoard(boardSize, minesCount) ==> positions == [] && draws == 0
    ensures ValidBoard(boardSize, minesCount) ==> Drawn(positions, stream, draws, boardSize, minesCount)
  {
    draws := 0;
    if boardSize <= 0 || minesCount <= 0 || minesCount >= boardSize {
      return [], 0;
    }
    var found := [];
    while |found| < minesCount
      invariant Collected(found, stream, draws, minesCount)
      decreases |stream| - draws
    {
      StreamNotExhausted(found, stream, draws, minesCount);
      CollectNext(found, stream, draws, minesCount);
      var cell := stream[draws];
      if cell !in found {
        found := found + [cell];
      }
      draws := draws + 1;
    }
    positions := SortAscending(found);
    CollectedSorted(found, stream, draws, boardSize, minesCount);
  }

  /** A stream without minesCount distinct cells never lets the loop end. */
  lemma DrawNeedsDistinctCells(stream: seq<int>, m: nat, draws: nat)
    requires draws <= |stream| && StopsAt(stream, m, draws)
    ensures |Elements(stream)| >= m
  {
    SubsetSize(DrawnCells(stream, draws), Elements(stream));
  }

  /** A renumbering of the n cells of a board. */
  ghost predicate Permutation(n: nat, renumber: map<int, int>)
  {
    && (forall c :: c in renumber <==> 0 <= c < n)
    && (forall c :: c in renumber ==> 0 <= renumber[c] < n)
    && (forall c, d :: c in renumber && d in renumber && renumber[c] == renumber[d] ==> c == d)
  }

  ghost function Renumber(cells: set<int>, renumber: map<int, int>): (r: set<int>)
  {
    set c | c in cells && c in renumber :: renumber[c]
  }

  lemma {:induction false} RenumberSize(n: nat, cells: set<int>, renumber: map<int, int>)
    requires Permutation(n, renumber) && cells <= renumber.Keys
    ensures |Renumber(cells, renumber)| == |cells|
  {
    if cells == {} {
      assert Renumber(cells, renumber) == {};
    } else {
      var c := Member(cells);
      RenumberSize(n, cells - {c}, renumber);
      assert Renumber(cells, renumber) == Renumber(cells - {c}, renumber) + {renumber[c]};
    }
  }

  /** No cell is favoured: renumbering the cells in the stream renumbers the drawn set,
      and does not change how many values are read. */
  lemma DrawIsSymmetric(n: nat, m: nat, stream: seq<int>, renumbered: seq<int>, renumber: map<int, int>, draws: nat)
    requires Permutation(n, renumber) && draws <= |stream| == |renumbered|
    requires forall i :: 0 <= i < |stream| ==> stream[i] in renumber && renumbered[i] == renumber[stream[i]]
    ensures DrawnCells(renumbered, draws) == Renumber(DrawnCells(stream, draws), renumber)
    ensures StopsAt(renumbered, m, draws) <==> StopsAt(stream, m, draws)
  {
    SymmetricCells(n, stream, renumbered, renumber, draws);
    if draws > 0 {
      SymmetricCells(n, stream, renumbered, renumber, draws - 1);
    }
  }

  lemma SymmetricCells(n: nat, stream: seq<int>, renumbered: seq<int>, renumber: map<int, int>, draws: nat)
    requires Permutation(n, renumber) && draws <= |stream| == |renumbered|
    requires forall i :: 0 <= i < |stream| ==> stream[i] in renumber && renumbered[i] == renumber[stream[i]]
    ensures DrawnCells(renumbered, draws) == Renumber(DrawnCells(stream, draws), renumber)
    ensures |DrawnCells(renumbered, draws)| == |DrawnCells(stream, draws)|
  {
    var cells, image := DrawnCells(stream, draws), DrawnCells(renumbered, draws);
    forall d | d in image ensures d in Renumber(cells, renumber) {
      var i :| 0 <= i < draws && renumbered[i] == d;
      var c := stream[..draws][i];
      assert c in cells && c in renumber && renumber[c] == d;
    }
    forall d | d in Renumber(cells, renumber) ensures d in image {
      var c :| c in cells && c in renumber && renumber[c] == d;
      var i :| 0 <= i < draws && stream[..draws][i] == c;
      assert renumbered[..draws][i] == d;
    }
    RenumberSize(n, cells, renumber);
  }
}
