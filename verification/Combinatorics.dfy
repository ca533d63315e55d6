/** Binomial coefficients, and the layouts they count. */
module Combinatorics {
  import opened Sequences

  function Choose(n: nat, k: nat): (c: nat)
    ensures k <= n ==> c > 0
    ensures k > n ==> c == 0
  {
    if k == 0 then 1
    else if n == 0 then 0
    else Choose(n - 1, k - 1) + Choose(n - 1, k)
  }

  lemma {:induction false} ChooseNext(b: nat, j: nat)
    ensures (b - j) * Choose(b, j) == (j + 1) * Choose(b, j + 1)
  {
    if b == 0 {
    } else if j == 0 {
      ChooseNext(b - 1, 0);
    } else {
      ChooseNext(b - 1, j - 1);
      ChooseNext(b - 1, j);
      AddPascalRows(b, j, Choose(b - 1, j - 1), Choose(b - 1, j), Choose(b - 1, j + 1));
    }
  }

  lemma AddPascalRows(b: int, j: int, x: int, y: int, z: int)
    requires (b - j) * x == j * y
    requires (b - 1 - j) * y == (j + 1) * z
    ensures (b - j) * (x + y) == (j + 1) * (y + z)
  {
  }

  /** Removing one cell from the board: (a - m) C(a, m) = a C(a - 1, m). */
  lemma ChooseShrink(a: nat, m: nat)
    requires 0 < a
    ensures (a - m) * Choose(a, m) == a * Choose(a - 1, m)
  {
    if m > 0 {
      ChooseNext(a - 1, m - 1);
      DropCell(a, m, Choose(a - 1, m - 1), Choose(a - 1, m));
    }
  }

  lemma DropCell(a: int, m: int, x: int, y: int)
    requires (a - m) * x == m * y
    ensures (a - m) * (x + y) == a * y
  {
  }

  // ----- Layouts -----

  /** All the ways of placing m mines on the given cells. */
  ghost function Layouts(cells: set<int>, m: nat): (ls: set<set<int>>)
  {
    set l | l <= cells && |l| == m
  }

  /** Every layout of ls with one more mine, on x. */
  ghost function AddMine(ls: set<set<int>>, x: int): (r: set<set<int>>)
  {
    set l | l in ls :: l + {x}
  }

  lemma {:induction false} AddMineSize(ls: set<set<int>>, x: int)
    requires forall l :: l in ls ==> x !in l
    ensures |AddMine(ls, x)| == |ls|
  {
    if ls == {} {
      assert AddMine(ls, x) == {};
    } else {
      var l := Member(ls);
      AddMineSize(ls - {l}, x);
      AddOneLayout(ls, x, l);
    }
  }

  lemma AddOneLayout(ls: set<set<int>>, x: int, l: set<int>)
    requires (forall k :: k in ls ==> x !in k) && l in ls
    ensures AddMine(ls, x) == AddMine(ls - {l}, x) + {l + {x}}
    ensures l + {x} !in AddMine(ls - {l}, x)
  {
  }

  /** Layouts with a mine on x, and layouts without one. */
  lemma SplitLayouts(cells: set<int>, m: nat, x: int)
    requires x in cells && m > 0
    ensures Layouts(cells, m) == AddMine(Layouts(cells - {x}, m - 1), x) + Layouts(cells - {x}, m)
    ensures AddMine(Layouts(cells - {x}, m - 1), x) !! Layouts(cells - {x}, m)
  {
    var rest := cells - {x};
    var with := AddMine(Layouts(rest, m - 1), x);
    forall l | l in Layouts(cells, m)
      ensures l in with + Layouts(rest, m)
    {
      if x in l {
        assert l - {x} in Layouts(rest, m - 1);
        assert l == (l - {x}) + {x};
      }
    }
    forall l | l in with
      ensures l in Layouts(cells, m)
    {
      var k :| k in Layouts(rest, m - 1) && l == k + {x};
      assert |l| == m;
    }
  }

  lemma NoMines(cells: set<int>)
    ensures Layouts(cells, 0) == {{}}
  {
  }

  lemma PascalLayouts(cells: set<int>, m: nat, x: int)
    requires x in cells && m > 0
    ensures |Layouts(cells, m)| == |Layouts(cells - {x}, m - 1)| + |Layouts(cells - {x}, m)|
  {
    SplitLayouts(cells, m, x);
    AddMineSize(Layouts(cells - {x}, m - 1), x);
  }

  lemma NoRoom(cells: set<int>, m: nat)
    requires cells == {} && m > 0
    ensures Layouts(cells, m) == {}
  {
  }

  /** There are exactly C(|cells|, m) layouts. */
  lemma {:induction false} LayoutCount(cells: set<int>, m: nat)
    ensures |Layouts(cells, m)| == Choose(|cells|, m)
    decreases |cells|, m
  {
    if m == 0 {
      NoMines(cells);
    } else if cells == {} {
      NoRoom(cells, m);
    } else {
      var x := Member(cells);
      var rest := cells - {x};
      LayoutCount(rest, m - 1);
      LayoutCount(rest, m);
      PascalLayouts(cells, m, x);
    }
  }

  /** The layouts with no mine on the given cells. */
  ghost function Sparing(layouts: set<set<int>>, cells: set<int>): (spared: set<set<int>>)
  {
    set l | l in layouts && l !! cells
  }

  /** Opening cells one cannot have placed a mine on: the surviving layouts are
      exactly the layouts of the unopened cells. */
  lemma SurvivorCount(cells: set<int>, m: nat, plan: set<int>)
    requires plan <= cells
    ensures |plan| <= |cells|
    ensures |Sparing(Layouts(cells, m), plan)| == Choose(|cells| - |plan|, m)
  {
    LayoutCount(cells - plan, m);
    SubsetSize(plan, cells);
    assert cells == (cells - plan) + plan;
    assert Sparing(Layouts(cells, m), plan) == Layouts(cells - plan, m);
  }
}
