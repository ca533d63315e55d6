/** The mine draw is uniform: among the streams of random cells of any length, equally many
    draw each layout (src/modules/mines/mines-game.logic.ts). */
module MineDraws {
  import opened Combinatorics
  import opened MinesGame
  import opened MinesSession
  import opened Sequences

  /** All streams of a given length over the n cells of a board. */
  ghost function Streams(n: nat, length: nat): (streams: set<seq<int>>)
  {
    if length == 0 then {[]} else set s, c | s in Streams(n, length - 1) && c in Range(0, n) :: s + [c]
  }

  ghost predicate OnBoard(n: nat, stream: seq<int>)
  {
    forall i :: 0 <= i < |stream| ==> 0 <= stream[i] < n
  }

  lemma {:induction false} StreamsAreAll(n: nat, length: nat, stream: seq<int>)
    ensures stream in Streams(n, length) <==> |stream| == length && OnBoard(n, stream)
  {
    if length > 0 && stream != [] {
      var front, last := stream[..|stream| - 1], stream[|stream| - 1];
      StreamsAreAll(n, length - 1, front);
      assert stream == front + [last];
      assert OnBoard(n, stream) <==> OnBoard(n, front) && last in Range(0, n);
      if stream in Streams(n, length) {
        var s, c :| s in Streams(n, length - 1) && c in Range(0, n) && stream == s + [c];
        assert s == front && c == last;
      }
    }
  }

  /** `drawMinePositions` returns this layout when fed this stream. */
  ghost predicate Draws(stream: seq<int>, m: nat, layout: set<int>)
  {
    exists draws: nat :: draws <= |stream| && StopsAt(stream, m, draws) && DrawnCells(stream, draws) == layout
  }

  ghost function DrawingStreams(n: nat, m: nat, length: nat, layout: set<int>): (streams: set<seq<int>>)
  {
    set s | s in Streams(n, length) && Draws(s, m, layout)
  }

  // ----- Exchanging two cells -----

  function SwapCell(a: int, b: int, c: int): (cell: int)
  {
    if c == a then b else if c == b then a else c
  }

  function Swap(n: nat, a: int, b: int): (renumber: map<int, int>)
  {
    map c | 0 <= c < n :: SwapCell(a, b, c)
  }

  function SwapStream(stream: seq<int>, a: int, b: int): (swapped: seq<int>)
    ensures |swapped| == |stream|
  {
    seq(|stream|, i requires 0 <= i < |stream| => SwapCell(a, b, stream[i]))
  }

  lemma SwapTwice(stream: seq<int>, a: int, b: int)
    ensures SwapStream(SwapStream(stream, a, b), a, b) == stream
  {
  }

  lemma SwapKeepsDraws(n: nat, m: nat, length: nat, a: int, b: int, layout: set<int>, stream: seq<int>)
    requires 0 <= a < n && 0 <= b < n && stream in DrawingStreams(n, m, length, layout)
    ensures SwapStream(stream, a, b) in DrawingStreams(n, m, length, Renumber(layout, Swap(n, a, b)))
  {
    var swapped := SwapStream(stream, a, b);
    StreamsAreAll(n, length, stream);
    StreamsAreAll(n, length, swapped);
    var draws: nat :| draws <= |stream| && StopsAt(stream, m, draws) && DrawnCells(stream, draws) == layout;
    DrawIsSymmetric(n, m, stream, swapped, Swap(n, a, b), draws);
  }

  ghost function SwapAll(streams: set<seq<int>>, a: int, b: int): (swapped: set<seq<int>>)
  {
    set s | s in streams :: SwapStream(s, a, b)
  }

  lemma {:induction false} SwapAllSize(streams: set<seq<int>>, a: int, b: int)
    ensures |SwapAll(streams, a, b)| == |streams|
  {
    if streams == {} {
      assert SwapAll(streams, a, b) == {};
    } else {
      var s := Member(streams);
      var rest := streams - {s};
      SwapAllSize(rest, a, b);
      assert SwapAll(streams, a, b) == SwapAll(rest, a, b) + {SwapStream(s, a, b)};
      forall t | t in rest ensures SwapStream(t, a, b) != SwapStream(s, a, b) {
        SwapTwice(t, a, b);
        SwapTwice(s, a, b);
      }
    }
  }

  lemma SwapCount(n: nat, m: nat, length: nat, a: int, b: int, layout: set<int>)
    requires 0 <= a < n && 0 <= b < n
    ensures |DrawingStreams(n, m, length, layout)| <= |DrawingStreams(n, m, length, Renumber(layout, Swap(n, a, b)))|
  {
    var streams := DrawingStreams(n, m, length, layout);
    var target := DrawingStreams(n, m, length, Renumber(layout, Swap(n, a, b)));
    forall t | t in SwapAll(streams, a, b) ensures t in target {
      var s :| s in streams && t == SwapStream(s, a, b);
      SwapKeepsDraws(n, m, length, a, b, layout, s);
    }
    SwapAllSize(streams, a, b);
    SubsetSize(SwapAll(streams, a, b), target);
  }

  lemma SwapMember(n: nat, a: int, b: int, layout: set<int>, c: int)
    requires 0 <= a < n && 0 <= b < n && layout <= Range(0, n)
    ensures c in Renumber(layout, Swap(n, a, b)) <==> SwapCell(a, b, c) in layout
  {
    var d := SwapCell(a, b, c);
    assert SwapCell(a, b, d) == c;
    if d in layout {
      assert d in Swap(n, a, b) && Swap(n, a, b)[d] == c;
    }
  }

  /** Exchanging a mine and a free cell moves that mine, and back. */
  lemma SwapLayout(n: nat, a: int, b: int, layout: set<int>)
    requires layout <= Range(0, n) && a in layout && b !in layout && 0 <= b < n
    ensures Renumber(layout, Swap(n, a, b)) == layout - {a} + {b}
    ensures Renumber(layout - {a} + {b}, Swap(n, a, b)) == layout
  {
    var moved := layout - {a} + {b};
    forall c ensures c in Renumber(layout, Swap(n, a, b)) <==> c in moved {
      SwapMember(n, a, b, layout, c);
    }
    forall c ensures c in Renumber(moved, Swap(n, a, b)) <==> c in layout {
      SwapMember(n, a, b, moved, c);
    }
  }

  lemma DifferingCells(x: set<int>, y: set<int>) returns (a: int, b: int)
    requires |x| == |y| && x != y
    ensures a in x && a !in y && b in y && b !in x
  {
    assert x == (x - y) + x * y && y == (y - x) + x * y;
    if x <= y {
      SubsetSize(x, y);
    }
    if y <= x {
      SubsetSize(y, x);
    }
    a := Member(x - y);
    b := Member(y - x);
  }

  lemma NextLayout(x: set<int>, y: set<int>, a: int, b: int)
    requires a in x && a !in y && b in y && b !in x
    ensures |x - {a} + {b}| == |x| && |x - {a} + {b} - y| == |x - y| - 1
  {
    assert x - {a} + {b} - y == (x - y) - {a};
  }

  lemma MoveMine(n: nat, m: nat, length: nat, layout: set<int>, a: int, b: int)
    requires layout <= Range(0, n) && a in layout && b !in layout && 0 <= b < n
    ensures |DrawingStreams(n, m, length, layout)| == |DrawingStreams(n, m, length, layout - {a} + {b})|
  {
    assert a in Range(0, n);
    SwapLayout(n, a, b, layout);
    SwapCount(n, m, length, a, b, layout);
    SwapCount(n, m, length, a, b, layout - {a} + {b});
  }

  /** No layout is favoured: for any two layouts of m mines, equally many streams of each
      length draw them. */
  lemma {:induction false} DrawIsUniform(n: nat, m: nat, length: nat, x: set<int>, y: set<int>)
    requires x in Layouts(Range(0, n), m) && y in Layouts(Range(0, n), m)
    ensures |DrawingStreams(n, m, length, x)| == |DrawingStreams(n, m, length, y)|
    decreases |x - y|
  {
    if x != y {
      var a, b := DifferingCells(x, y);
      assert b in Range(0, n);
      NextLayout(x, y, a, b);
      MoveMine(n, m, length, x, a, b);
      DrawIsUniform(n, m, length, x - {a} + {b}, y);
    }
  }

  // ----- How many streams draw a layout -----

  lemma CellsGrow(stream: seq<int>, a: nat, b: nat)
    requires a <= b <= |stream|
    ensures DrawnCells(stream, a) <= DrawnCells(stream, b)
    ensures |DrawnCells(stream, a)| <= |DrawnCells(stream, b)|
  {
    forall c | c in DrawnCells(stream, a) ensures c in DrawnCells(stream, b) {
      var i :| 0 <= i < a && stream[..a][i] == c;
      assert stream[..b][i] == c;
    }
    SubsetSize(DrawnCells(stream, a), DrawnCells(stream, b));
  }

  lemma OneMoreCell(stream: seq<int>, k: nat)
    requires k < |stream|
    ensures |DrawnCells(stream, k + 1)| <= |DrawnCells(stream, k)| + 1
  {
    assert stream[..k + 1] == stream[..k] + [stream[k]];
    assert DrawnCells(stream, k + 1) == DrawnCells(stream, k) + {stream[k]};
  }

  lemma NothingDrawn(stream: seq<int>)
    ensures |DrawnCells(stream, 0)| == 0
  {
    assert DrawnCells(stream, 0) == {};
  }

  /** The draw stops somewhere in the first k values once they hold m distinct cells. */
  lemma {:induction false} StopFound(stream: seq<int>, m: nat, k: nat) returns (draws: nat)
    requires 0 < m && k <= |stream| && |DrawnCells(stream, k)| >= m
    ensures draws <= k && StopsAt(stream, m, draws)
  {
    NothingDrawn(stream);
    if |DrawnCells(stream, k - 1)| >= m {
      draws := StopFound(stream, m, k - 1);
    } else {
      OneMoreCell(stream, k - 1);
      draws := k;
    }
  }

  lemma StopsOnce(stream: seq<int>, m: nat, a: nat, b: nat)
    requires a <= |stream| && b <= |stream| && StopsAt(stream, m, a) && StopsAt(stream, m, b)
    ensures a == b
  {
    if a < b {
      CellsGrow(stream, a, b - 1);
    } else if b < a {
      CellsGrow(stream, b, a - 1);
    }
  }

  /** A stream of board cells draws a layout exactly if it holds m distinct cells, and then
      draws one layout of m mines alone. */
  lemma DrawsOne(n: nat, m: nat, stream: seq<int>)
    requires 0 < m && OnBoard(n, stream)
    ensures |Elements(stream)| >= m <==> exists layout :: Draws(stream, m, layout)
    ensures forall x, y :: Draws(stream, m, x) && Draws(stream, m, y) ==> x == y
    ensures forall layout :: Draws(stream, m, layout) ==> layout in Layouts(Range(0, n), m)
  {
    assert stream[..|stream|] == stream;
    if |Elements(stream)| >= m {
      var draws := StopFound(stream, m, |stream|);
      assert Draws(stream, m, DrawnCells(stream, draws));
    }
    forall layout | Draws(stream, m, layout)
      ensures |Elements(stream)| >= m && layout in Layouts(Range(0, n), m)
    {
      var draws: nat :| draws <= |stream| && StopsAt(stream, m, draws) && DrawnCells(stream, draws) == layout;
      DrawNeedsDistinctCells(stream, m, draws);
      CellsOnBoard(n, stream, draws);
    }
    forall x, y | Draws(stream, m, x) && Draws(stream, m, y) ensures x == y {
      var a: nat :| a <= |stream| && StopsAt(stream, m, a) && DrawnCells(stream, a) == x;
      var b: nat :| b <= |stream| && StopsAt(stream, m, b) && DrawnCells(stream, b) == y;
      StopsOnce(stream, m, a, b);
    }
  }

  lemma CellsOnBoard(n: nat, stream: seq<int>, draws: nat)
    requires draws <= |stream| && OnBoard(n, stream)
    ensures DrawnCells(stream, draws) <= Range(0, n)
  {
    forall c | c in DrawnCells(stream, draws) ensures c in Range(0, n) {
      var i :| 0 <= i < draws && stream[..draws][i] == c;
    }
  }

  /** The streams of a length on which the draw ends. */
  ghost function EndingStreams(n: nat, m: nat, length: nat): (streams: set<seq<int>>)
  {
    set s | s in Streams(n, length) && |Elements(s)| >= m
  }

  ghost function StreamsDrawing(n: nat, m: nat, length: nat, layouts: set<set<int>>): (streams: set<seq<int>>)
  {
    set s, l | l in layouts && s in DrawingStreams(n, m, length, l) :: s
  }

  ghost function StreamCount(n: nat, m: nat, length: nat): (count: set<int> -> int)
  {
    layout => |DrawingStreams(n, m, length, layout)|
  }

  lemma DisjointSize<T>(all: set<T>, a: set<T>, b: set<T>)
    requires all == a + b && a !! b
    ensures |all| == |a| + |b|
  {
  }

  lemma DrawnByNoOther(n: nat, m: nat, length: nat, layouts: set<set<int>>, l: set<int>)
    requires 0 < m && l !in layouts
    ensures DrawingStreams(n, m, length, l) !! StreamsDrawing(n, m, length, layouts)
  {
    forall s | s in DrawingStreams(n, m, length, l) ensures s !in StreamsDrawing(n, m, length, layouts) {
      StreamsAreAll(n, length, s);
      DrawsOne(n, m, s);
    }
  }

  lemma {:induction false} StreamsAddUp(n: nat, m: nat, length: nat, layouts: set<set<int>>)
    requires 0 < m
    ensures |StreamsDrawing(n, m, length, layouts)| == Total(layouts, StreamCount(n, m, length))
  {
    if layouts == {} {
      assert StreamsDrawing(n, m, length, layouts) == {};
    } else {
      var l := Pick(layouts);
      var first, others := DrawingStreams(n, m, length, l), StreamsDrawing(n, m, length, layouts - {l});
      StreamsAddUp(n, m, length, layouts - {l});
      DrawnByNoOther(n, m, length, layouts - {l}, l);
      DisjointSize(StreamsDrawing(n, m, length, layouts), first, others);
    }
  }

  lemma EveryEndingStreamDraws(n: nat, m: nat, length: nat)
    requires 0 < m
    ensures StreamsDrawing(n, m, length, Layouts(Range(0, n), m)) == EndingStreams(n, m, length)
  {
    var layouts := Layouts(Range(0, n), m);
    forall s | s in Streams(n, length)
      ensures s in StreamsDrawing(n, m, length, layouts) <==> s in EndingStreams(n, m, length)
    {
      StreamsAreAll(n, length, s);
      DrawsOne(n, m, s);
      if s in EndingStreams(n, m, length) {
        var layout :| Draws(s, m, layout);
        assert layout in layouts && s in DrawingStreams(n, m, length, layout);
      }
    }
  }

  lemma {:induction false} TotalOfEqual(layouts: set<set<int>>, f: set<int> -> int, each: int)
    requires forall l :: l in layouts ==> f(l) == each
    ensures Total(layouts, f) == each * |layouts|
  {
    if layouts != {} {
      var l := Pick(layouts);
      TotalOfEqual(layouts - {l}, f, each);
      assert each * |layouts| == each * |layouts - {l}| + each;
    }
  }

  lemma EachDrawnEqually(n: nat, m: nat, length: nat, layout: set<int>)
    requires layout in Layouts(Range(0, n), m)
    ensures Total(Layouts(Range(0, n), m), StreamCount(n, m, length))
         == |DrawingStreams(n, m, length, layout)| * |Layouts(Range(0, n), m)|
  {
    var layouts, each := Layouts(Range(0, n), m), |DrawingStreams(n, m, length, layout)|;
    forall l | l in layouts ensures StreamCount(n, m, length)(l) == each {
      DrawIsUniform(n, m, length, l, layout);
    }
    TotalOfEqual(layouts, StreamCount(n, m, length), each);
  }

  lemma EndingStreamsTotal(n: nat, m: nat, length: nat)
    requires 0 < m
    ensures Total(Layouts(Range(0, n), m), StreamCount(n, m, length)) == |EndingStreams(n, m, length)|
  {
    StreamsAddUp(n, m, length, Layouts(Range(0, n), m));
    EveryEndingStreamDraws(n, m, length);
  }

  /** Each of the C(n, m) layouts is drawn by exactly one in C(n, m) of the streams on which the
      draw ends. */
  lemma DrawShare(n: nat, m: nat, length: nat, layout: set<int>)
    requires 0 < m && layout in Layouts(Range(0, n), m)
    ensures |DrawingStreams(n, m, length, layout)| * Choose(n, m) == |EndingStreams(n, m, length)|
  {
    EachDrawnEqually(n, m, length, layout);
    EndingStreamsTotal(n, m, length);
    LayoutCount(Range(0, n), m);
  }

  // ----- The return over draws -----

  /** What a plan pays on one layout, counted once for every stream that draws it. */
  ghost function DrawnWins(n: nat, m: nat, bet: nat, plan: seq<int>, length: nat): (payout: set<int> -> int)
  {
    mines => |DrawingStreams(n, m, length, mines)| * PlanWin(n, m, bet, plan, mines)
  }

  lemma {:induction false} TotalScaled(layouts: set<set<int>>, factor: int, f: set<int> -> int, g: set<int> -> int)
    requires forall l :: l in layouts ==> g(l) == factor * f(l)
    ensures Total(layouts, g) == factor * Total(layouts, f)
  {
    if layouts != {} {
      var l := Pick(layouts);
      TotalScaled(layouts - {l}, factor, f, g);
      assert factor * (f(l) + Total(layouts - {l}, f)) == factor * f(l) + factor * Total(layouts - {l}, f);
    }
  }

  /** So the payout over all streams of a length is the payout over all layouts, times the
      number of streams that draw any one of them: the constant return is that of the draw. */
  lemma DrawnReturn(n: nat, m: nat, bet: nat, plan: seq<int>, length: nat, layout: set<int>)
    requires layout in Layouts(Range(0, n), m)
    ensures Total(Layouts(Range(0, n), m), DrawnWins(n, m, bet, plan, length))
         == |DrawingStreams(n, m, length, layout)| * Total(Layouts(Range(0, n), m), PlanWins(n, m, bet, plan))
  {
    var layouts, wins := Layouts(Range(0, n), m), PlanWins(n, m, bet, plan);
    var each := |DrawingStreams(n, m, length, layout)|;
    forall l | l in layouts ensures DrawnWins(n, m, bet, plan, length)(l) == each * wins(l) {
      DrawIsUniform(n, m, length, l, layout);
    }
    TotalScaled(layouts, each, wins, DrawnWins(n, m, bet, plan, length));
  }
}
