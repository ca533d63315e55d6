/** One Mines session: what a move and a cashout do to its row, what every reachable row
    satisfies, and what the game returns (src/modules/mines/mines.service.ts). */
module MinesSession {
  import opened Combinatorics
  import opened MinesGame
  import opened Money
  import opened Sequences

  datatype Status = Active | CashedOut | Lost

  datatype Refusal = NotActive | InvalidCell | AlreadyRevealed | NothingRevealed

  /** Amounts in cents, multipliers in hundredths. Of `mine_positions` the code only ever
      asks which cells it includes, so a set of cells stands for it. */
  datatype Session = Session(
    boardSize: nat,
    minesCount: nat,
    mines: set<int>,
    bet: nat,
    revealed: seq<int>,
    multiplier: int,
    status: Status,
    win: Option<int>)

  datatype Result = Accepted(session: Session) | Refused(why: Refusal)

  function CountSafeReveals(revealed: seq<int>, mines: set<int>): (count: nat)
    ensures count <= |revealed|
    ensures count == |revealed| <==> AllSafe(revealed, mines)
  {
    if revealed == [] then 0
    else
      var n := |revealed| - 1;
      assert forall c :: c in revealed <==> c in revealed[..n] || c == revealed[n];
      CountSafeReveals(revealed[..n], mines) + if revealed[n] in mines then 0 else 1
  }

  ghost predicate AllSafe(cells: seq<int>, mines: set<int>)
  {
    forall c :: c in cells ==> c !in mines
  }

  function ProjectedWin(bet: int, multiplier: int): (cents: int)
  {
    RoundHalfUp(bet * multiplier, 100)
  }

  function NewSession(boardSize: nat, minesCount: nat, mines: set<int>, bet: nat): (s: Session)
  {
    Session(boardSize, minesCount, mines, bet, [], 100, Active, None)
  }

  /** `makeMove`: a mine loses the session, the last safe cell cashes it out. */
  function Move(s: Session, cell: int): (r: Result)
  {
    if s.status != Active then Refused(NotActive)
    else if !(0 <= cell < s.boardSize) then Refused(InvalidCell)
    else if cell in s.revealed then Refused(AlreadyRevealed)
    else
      var shown := s.(revealed := s.revealed + [cell]);
      if cell in s.mines then Accepted(shown.(status := Lost, win := Some(0)))
      else Accepted(SafeReveal(shown))
  }

  /** The newest cell is safe: raise the multiplier, and pay if it was the last safe cell. */
  function SafeReveal(shown: Session): (s: Session)
  {
    var path, safe := MultiplierPath(shown.boardSize, shown.minesCount), CountSafeReveals(shown.revealed, shown.mines);
    var raised := shown.(multiplier := if 1 <= safe <= |path| then path[safe - 1] else shown.multiplier);
    if safe >= shown.boardSize - shown.minesCount then Paid(raised) else raised
  }

  function Paid(s: Session): (p: Session)
  {
    s.(status := CashedOut, win := Some(ProjectedWin(s.bet, s.multiplier)))
  }

  /** `cashout` */
  function CashOut(s: Session): (r: Result)
  {
    if s.status != Active then Refused(NotActive)
    else if CountSafeReveals(s.revealed, s.mines) <= 0 then Refused(NothingRevealed)
    else Accepted(Paid(s))
  }

  // ----- What every reachable session satisfies -----

  ghost predicate ValidLayout(s: Session)
  {
    && ValidBoard(s.boardSize, s.minesCount)
    && (forall c :: c in s.mines ==> 0 <= c < s.boardSize)
    && |s.mines| == s.minesCount
  }

  /** What the multiplier must be after a given number of safe reveals. */
  ghost function Earned(s: Session, safe: nat): int
    requires ValidBoard(s.boardSize, s.minesCount) && safe <= s.boardSize - s.minesCount
  {
    if safe == 0 then 100 else PathMultiplier(s.boardSize, s.minesCount, safe)
  }

  ghost predicate Invariant(s: Session)
  {
    var r := |s.revealed|;
    && ValidLayout(s)
    && Distinct(s.revealed)
    && (forall c :: c in s.revealed ==> 0 <= c < s.boardSize)
    && match s.status
       case Active =>
         && AllSafe(s.revealed, s.mines)
         && r < s.boardSize - s.minesCount
         && s.multiplier == Earned(s, r)
         && s.win == None
       case Lost =>
         && 0 < r <= s.boardSize - s.minesCount
         && s.revealed[r - 1] in s.mines
         && AllSafe(s.revealed[..r - 1], s.mines)
         && s.multiplier == Earned(s, r - 1)
         && s.win == Some(0)
       case CashedOut =>
         && AllSafe(s.revealed, s.mines)
         && 0 < r <= s.boardSize - s.minesCount
         && s.multiplier == Earned(s, r)
         && s.win == Some(ProjectedWin(s.bet, s.multiplier))
  }

  lemma NewSessionInvariant(boardSize: nat, minesCount: nat, mines: set<int>, bet: nat)
    requires ValidBoard(boardSize, minesCount)
    requires (forall c :: c in mines ==> 0 <= c < boardSize) && |mines| == minesCount
    ensures Invariant(NewSession(boardSize, minesCount, mines, bet))
  {
  }

  /** A safe reveal keeps the invariant and pays exactly on the last safe cell. */
  lemma SafeRevealEffect(s: Session, cell: int)
    requires Invariant(s) && s.status == Active && 0 <= cell < s.boardSize && cell !in s.revealed && cell !in s.mines
    ensures var shown := s.(revealed := s.revealed + [cell]);
            var next := SafeReveal(shown);
            && Invariant(next)
            && next == shown.(multiplier := next.multiplier, status := next.status, win := next.win)
            && next.status == if |shown.revealed| == s.boardSize - s.minesCount then CashedOut else Active
  {
  }

  lemma MineRevealEffect(s: Session, cell: int)
    requires Invariant(s) && s.status == Active && 0 <= cell < s.boardSize && cell !in s.revealed && cell in s.mines
    ensures Invariant(s.(revealed := s.revealed + [cell], status := Lost, win := Some(0)))
  {
  }

  /** An accepted move on a reachable session, described by the mines alone. */
  lemma MoveEffect(s: Session, cell: int)
    requires Invariant(s)
    ensures Move(s, cell).Accepted? <==> s.status == Active && 0 <= cell < s.boardSize && cell !in s.revealed
    ensures Move(s, cell) == Refused(NotActive) <==> s.status != Active
    ensures Move(s, cell) == Refused(AlreadyRevealed) <==> s.status == Active && cell in s.revealed
    ensures Move(s, cell).Accepted? ==>
              var next := Move(s, cell).session;
              && Invariant(next)
              && next == s.(revealed := s.revealed + [cell], multiplier := next.multiplier,
                            status := next.status, win := next.win)
              && (next.status == Lost <==> cell in s.mines)
              && (next.status == CashedOut <==> cell !in s.mines && |next.revealed| == s.boardSize - s.minesCount)
  {
    if Move(s, cell).Accepted? {
      if cell in s.mines {
        MineRevealEffect(s, cell);
      } else {
        SafeRevealEffect(s, cell);
      }
    }
  }

  lemma CashOutEffect(s: Session)
    requires Invariant(s)
    ensures CashOut(s).Accepted? <==> s.status == Active && s.revealed != []
    ensures CashOut(s).Accepted? ==> CashOut(s).session == Paid(s) && Invariant(Paid(s))
  {
  }

  // ----- Whole runs -----

  datatype Action = DoMove(cell: int) | DoCashOut

  function Act(s: Session, a: Action): (r: Result)
  {
    match a
    case DoMove(cell) => Move(s, cell)
    case DoCashOut => CashOut(s)
  }

  lemma ActEffect(s: Session, a: Action)
    requires Invariant(s) && Act(s, a).Accepted?
    ensures var next := Act(s, a).session;
            && s.status == Active && Invariant(next)
            && (next.boardSize, next.minesCount, next.mines, next.bet) == (s.boardSize, s.minesCount, s.mines, s.bet)
            && |next.revealed| == |s.revealed| + if a.DoMove? then 1 else 0
  {
    match a {
      case DoMove(cell) => MoveEffect(s, cell);
      case DoCashOut => CashOutEffect(s);
    }
  }

  /** Refused actions leave the row as it was. */
  function Run(s: Session, actions: seq<Action>): (end: Session)
    decreases |actions|
  {
    if actions == [] then s
    else
      var r := Act(s, actions[0]);
      Run(if r.Accepted? then r.session else s, actions[1..])
  }

  function AcceptedMoves(s: Session, actions: seq<Action>): (count: nat)
    decreases |actions|
  {
    if actions == [] then 0
    else
      var r := Act(s, actions[0]);
      (if r.Accepted? && actions[0].DoMove? then 1 else 0)
      + AcceptedMoves(if r.Accepted? then r.session else s, actions[1..])
  }

  /** Whatever a player sends, the invariant holds afterwards; a finished session never
      changes again; and at most n - m moves are ever accepted. */
  lemma {:induction false} RunInvariant(s: Session, actions: seq<Action>)
    requires Invariant(s)
    ensures var end := Run(s, actions);
            && Invariant(end)
            && (s.status != Active ==> end == s)
            && |end.revealed| == |s.revealed| + AcceptedMoves(s, actions)
            && AcceptedMoves(s, actions) <= s.boardSize - s.minesCount
            && (end.boardSize, end.minesCount, end.mines, end.bet) == (s.boardSize, s.minesCount, s.mines, s.bet)
    decreases |actions|
  {
    if actions != [] {
      var r := Act(s, actions[0]);
      if r.Accepted? {
        ActEffect(s, actions[0]);
      }
      RunInvariant(if r.Accepted? then r.session else s, actions[1..]);
    }
  }

  // ----- The constant return -----

  /** Open the planned cells in order, then cash out unless the session already ended. */
  function PlayPlan(s: Session, plan: seq<int>): (end: Session)
    decreases |plan|
  {
    if s.status != Active then s
    else if plan == [] then (var r := CashOut(s); if r.Accepted? then r.session else s)
    else
      var r := Move(s, plan[0]);
      PlayPlan(if r.Accepted? then r.session else s, plan[1..])
  }

  ghost predicate ValidPlan(n: nat, m: nat, plan: seq<int>)
  {
    && ValidBoard(n, m)
    && Distinct(plan) && (forall c :: c in plan ==> 0 <= c < n)
    && 1 <= |plan| <= n - m
  }

  /** What the plan pays on one layout. */
  function PlanWin(n: nat, m: nat, bet: nat, plan: seq<int>, mines: set<int>): (cents: int)
  {
    PlayPlan(NewSession(n, m, mines, bet), plan).win.GetOr(0)
  }

  ghost function PlanWins(n: nat, m: nat, bet: nat, plan: seq<int>): (payout: set<int> -> int)
  {
    mines => PlanWin(n, m, bet, plan, mines)
  }

  /** A plan that may still be played on a session. */
  ghost predicate Playable(s: Session, plan: seq<int>)
  {
    && Invariant(s) && s.status == Active
    && Distinct(s.revealed + plan) && (forall c :: c in plan ==> 0 <= c < s.boardSize)
    && 1 <= |s.revealed + plan| <= s.boardSize - s.minesCount
  }

  lemma PlanHeadIsNew(s: Session, plan: seq<int>)
    requires Playable(s, plan) && plan != []
    ensures 0 <= plan[0] < s.boardSize && plan[0] !in s.revealed
  {
    var all := s.revealed + plan;
    assert plan[0] in plan && all[|s.revealed|] == plan[0];
    forall i | 0 <= i < |s.revealed| ensures s.revealed[i] != plan[0] {
      assert all[i] == s.revealed[i];
    }
  }

  /** Opening the first cell of a plan: a mine ends the game, the last cell is paid, and
      otherwise the rest of the plan may be played. */
  lemma PlanHead(s: Session, plan: seq<int>)
    requires Playable(s, plan) && plan != []
    ensures Move(s, plan[0]).Accepted?
    ensures var next := Move(s, plan[0]).session;
            && (plan[0] in s.mines ==> next.status == Lost && next.win == Some(0))
            && (plan[0] !in s.mines && plan[1..] == [] && next.status != Active ==>
                  next.win == Some(ProjectedWin(s.bet, Earned(s, |s.revealed + plan|))))
            && (plan[0] !in s.mines && next.status != Active ==> plan[1..] == [])
            && (next.status == Active ==>
                  && Playable(next, plan[1..]) && next.revealed + plan[1..] == s.revealed + plan
                  && next == s.(revealed := next.revealed, multiplier := next.multiplier))
  {
    PlanHeadIsNew(s, plan);
    MoveEffect(s, plan[0]);
    assert plan == [plan[0]] + plan[1..];
    assert (s.revealed + [plan[0]]) + plan[1..] == s.revealed + plan;
    assert forall c :: c in plan[1..] ==> c in plan;
  }

  lemma {:induction false} PlayPlanOutcome(s: Session, plan: seq<int>)
    requires Playable(s, plan)
    ensures PlayPlan(s, plan).win ==
            Some(if AllSafe(plan, s.mines) then ProjectedWin(s.bet, Earned(s, |s.revealed + plan|)) else 0)
    decreases |plan|
  {
    if plan == [] {
      CashOutEffect(s);
      assert s.revealed + plan == s.revealed;
    } else {
      PlanHead(s, plan);
      var next := Move(s, plan[0]).session;
      assert AllSafe(plan, s.mines) <==> plan[0] !in s.mines && AllSafe(plan[1..], s.mines) by {
        assert plan == [plan[0]] + plan[1..];
      }
      if next.status == Active {
        PlayPlanOutcome(next, plan[1..]);
      }
    }
  }

  /** Sum of a payout over a set of layouts. */
  ghost function Total(layouts: set<set<int>>, payout: set<int> -> int): (sum: int)
  {
    if layouts == {} then 0
    else
      var l := Pick(layouts);
      payout(l) + Total(layouts - {l}, payout)
  }

  ghost function Pick<T>(s: set<T>): (x: T)
    requires s != {}
    ensures x in s
  {
    var x :| x in s;
    x
  }

  lemma {:induction false} TotalOfConstant(layouts: set<set<int>>, spared: set<int>, value: int,
                                           payout: set<int> -> int)
    requires forall l :: l in layouts ==> payout(l) == if l !! spared then value else 0
    ensures Total(layouts, payout) == value * |Sparing(layouts, spared)|
  {
    var winners := Sparing(layouts, spared);
    if layouts != {} {
      var l := Pick(layouts);
      var rest := Sparing(layouts - {l}, spared);
      TotalOfConstant(layouts - {l}, spared, value, payout);
      if l !! spared {
        assert winners == rest + {l};
        assert value * (|rest| + 1) == value * |rest| + value;
      } else {
        assert winners == rest;
      }
    } else {
      assert winners == {};
    }
  }

  lemma PlanWinOnLayout(n: nat, m: nat, bet: nat, plan: seq<int>, mines: set<int>)
    requires ValidPlan(n, m, plan) && mines in Layouts(Range(0, n), m)
    ensures PlanWin(n, m, bet, plan, mines)
         == if mines !! Elements(plan) then ProjectedWin(bet, PathMultiplier(n, m, |plan|)) else 0
  {
    var s := NewSession(n, m, mines, bet);
    NewSessionInvariant(n, m, mines, bet);
    assert s.revealed + plan == plan;
    PlayPlanOutcome(s, plan);
    if AllSafe(plan, mines) {
      assert mines !! Elements(plan);
    } else {
      var c :| c in plan && c in mines;
      assert c in Elements(plan);
    }
  }

  lemma WinsAreConstant(n: nat, m: nat, bet: nat, plan: seq<int>, layouts: set<set<int>>)
    requires ValidPlan(n, m, plan) && layouts == Layouts(Range(0, n), m)
    ensures Total(layouts, PlanWins(n, m, bet, plan))
         == ProjectedWin(bet, PathMultiplier(n, m, |plan|)) * |Sparing(layouts, Elements(plan))|
  {
    var value := ProjectedWin(bet, PathMultiplier(n, m, |plan|));
    forall l | l in layouts
      ensures PlanWins(n, m, bet, plan)(l) == if l !! Elements(plan) then value else 0
    {
      PlanWinOnLayout(n, m, bet, plan, l);
    }
    TotalOfConstant(layouts, Elements(plan), value, PlanWins(n, m, bet, plan));
  }

  /** Over all layouts of an n-cell board, any plan of k distinct cells is paid on exactly
      C(n-k,m) of the C(n,m) layouts, each time the same amount. */
  lemma PlanReturn(n: nat, m: nat, bet: nat, plan: seq<int>)
    requires ValidPlan(n, m, plan)
    ensures var layouts := Layouts(Range(0, n), m);
            && |layouts| == Choose(n, m)
            && |Sparing(layouts, Elements(plan))| == Choose(n - |plan|, m)
            && Total(layouts, PlanWins(n, m, bet, plan))
               == ProjectedWin(bet, PathMultiplier(n, m, |plan|)) * Choose(n - |plan|, m)
  {
    WinsAreConstant(n, m, bet, plan, Layouts(Range(0, n), m));
    LayoutCount(Range(0, n), m);
    DistinctSize(plan);
    SurvivorCount(Range(0, n), m, Elements(plan));
  }

  /** Mines is a constant-return game: whatever the bet and the plan, the payout summed over
      all C(n,m) layouts is bet * 0.96 C(n,m), up to the rounding of one path entry and of one
      win: half a cent per surviving layout for the win, and half a hundredth of the bet for
      the entry. Amounts are compared in hundredths of a cent. */
  lemma ConstantReturn(n: nat, m: nat, bet: nat, plan: seq<int>)
    requires ValidPlan(n, m, plan)
    ensures var returned := Total(Layouts(Range(0, n), m), PlanWins(n, m, bet, plan));
            var survivors := Choose(n - |plan|, m);
            -1 * ((bet + 100) * survivors) <= 2 * (100 * returned - bet * (96 * Choose(n, m)))
            <= (bet + 100) * survivors
  {
    var all, survivors := HOUSE_RETURN * Choose(n, m), Choose(n - |plan|, m);
    var r := PathMultiplier(n, m, |plan|);
    PlanReturn(n, m, bet, plan);
    RoundingError(all, survivors);
    RoundingError(bet * r, 100);
    TwoRoundings(bet, all, survivors, r, ProjectedWin(bet, r));
  }

  lemma TwoRoundings(bet: nat, all: int, survivors: nat, r: int, win: int)
    requires -1 * survivors <= 2 * (r * survivors - all) <= survivors
    requires -100 <= 2 * (win * 100 - bet * r) <= 100
    ensures -1 * ((bet + 100) * survivors) <= 2 * (100 * (win * survivors) - bet * all) <= (bet + 100) * survivors
  {
    var entry, payout := 2 * (r * survivors - all), 2 * (win * 100 - bet * r);
    MulBounds(bet, entry, survivors);
    MulBounds(survivors, payout, 100);
    calc {
      payout * survivors + bet * entry;
      2 * (win * 100 - bet * r) * survivors + bet * (2 * (r * survivors - all));
      { assert (bet * r) * survivors == bet * (r * survivors); }
      2 * (100 * (win * survivors) - bet * all);
    }
  }

  lemma MulBounds(factor: nat, x: int, bound: int)
    requires -1 * bound <= x <= bound
    ensures -1 * (factor * bound) <= factor * x <= factor * bound
  {
  }

  /** For a stake of one unit (100 cents) no win is rounded: only half a cent for each
      surviving layout remains. */
  lemma UnitReturn(n: nat, m: nat, plan: seq<int>)
    requires ValidPlan(n, m, plan)
    ensures var returned := Total(Layouts(Range(0, n), m), PlanWins(n, m, 100, plan));
            var survivors := Choose(n - |plan|, m);
            -1 * survivors <= 2 * (returned - 96 * Choose(n, m)) <= survivors
  {
    var r := PathMultiplier(n, m, |plan|);
    PlanReturn(n, m, 100, plan);
    assert 100 * r == r * 100;
    RoundWhole(r, 100);
    RoundingError(HOUSE_RETURN * Choose(n, m), Choose(n - |plan|, m));
  }

  /** Rounding num/den and multiplying back by den is off by at most den/2. */
  lemma RoundingError(num: int, den: int)
    requires den > 0
    ensures -1 * den <= 2 * (RoundHalfUp(num, den) * den - num) <= den
  {
  }
}
