/** One user's money and inventory under any mix of Mines and Crash calls
    (src/modules/mines/mines.service.ts, src/modules/crash/crash.service.ts,
    src/modules/crash/crash-game.logic.ts).

    Each call runs in one transaction under the user's row lock, so it is one step. The
    functions say what a call does to the rows; the class `GameService` does it in the
    order of the source and is proved to have that effect. */
module GameLedger {
  import opened MinesGame
  import opened MinesSession
  import opened Money
  import opened Sequences

  // ----- Rows -----

  /** An inventory row; `used` when sold or withdrawn. */
  datatype Item = Item(price: Option<int>, used: bool)

  /** What a session remembers of a staked item. */
  datatype StakeItem = StakeItem(id: nat, price: int)

  datatype MinesRow = MinesRow(session: Session, fromBalance: bool, items: seq<StakeItem>)

  datatype CrashStatus = Running | CrashedOut | Crashed

  datatype CrashRow = CrashRow(
    slot: nat,
    stake: int,
    fromBalance: bool,
    items: seq<StakeItem>,
    status: CrashStatus,
    multiplier: Option<int>,
    win: Option<int>)

  /** Ids of sessions are their positions. */
  datatype Ledger = Ledger(balance: int, inventory: map<nat, Item>, mines: seq<MinesRow>, crash: seq<CrashRow>)

  // ----- Requests and replies -----

  datatype StakeRequest = StakeRequest(bet: Option<int>, itemIds: seq<nat>)

  datatype Op =
    | StartMines(stake: StakeRequest, minesCount: int, drawn: set<int>)
    | MoveMines(id: nat, x: int, y: int)
    | CashOutMines(id: nat)
    | StartCrash(stake: StakeRequest, twoBets: bool)
    | CashOutCrash(id: nat, multiplier: int)
    | SettleCrash(id: nat)

  datatype Reply =
    | BadRequest
    | NotFound
    | Started
    | Moved(status: Status)
    | PaidOut(win: int, newBalance: int)
    | AlreadyPaid(win: int, newBalance: int)
    | Settled

  const MIN_STAKE := 50
  const MAX_STAKE := 500000
  const MAX_MATERIALS := 20
  const GRID_SIZE := 5

  predicate StakeInRange(cents: int)
  {
    MIN_STAKE <= cents <= MAX_STAKE
  }

  predicate AllInRange(stakes: seq<int>)
  {
    forall k :: 0 <= k < |stakes| ==> StakeInRange(stakes[k])
  }

  // ----- Stakes -----

  datatype Stake = NoStake(why: Reply) | BalanceStake(bet: int) | ItemStake(items: seq<StakeItem>)

  function ItemPrice(item: StakeItem): int { item.price }

  function ItemsValue(items: seq<StakeItem>): int { Sum(items, ItemPrice) }

  predicate Stakeable(inventory: map<nat, Item>, id: nat)
  {
    id in inventory && !inventory[id].used
  }

  predicate Priced(inventory: map<nat, Item>, id: nat)
  {
    id in inventory && inventory[id].price.Some? && inventory[id].price.value > 0
  }

  /** `resolveStakeMode`, `normalizeInventoryIds`, `lockInventoryStake`, `buildStakeItems`. */
  function ResolveStake(inventory: map<nat, Item>, req: StakeRequest): (s: Stake)
    ensures s.NoStake? ==> s.why == BadRequest || s.why == NotFound
    ensures s.BalanceStake? ==> req.bet == Some(s.bet)
    ensures s.ItemStake? ==>
              && |s.items| == |req.itemIds| > 0 && Distinct(req.itemIds)
              && forall k :: 0 <= k < |s.items| ==>
                   && s.items[k].id == req.itemIds[k] && Stakeable(inventory, s.items[k].id)
                   && inventory[s.items[k].id].price == Some(s.items[k].price) && s.items[k].price > 0
  {
    if req.bet.Some? == (req.itemIds != []) then NoStake(BadRequest)
    else if req.bet.Some? then BalanceStake(req.bet.value)
    else if !Distinct(req.itemIds) || |req.itemIds| > MAX_MATERIALS then NoStake(BadRequest)
    else if exists k :: 0 <= k < |req.itemIds| && !Stakeable(inventory, req.itemIds[k]) then NoStake(NotFound)
    else if exists k :: 0 <= k < |req.itemIds| && !Priced(inventory, req.itemIds[k]) then NoStake(BadRequest)
    else ItemStake(seq(|req.itemIds|, k requires 0 <= k < |req.itemIds| && Priced(inventory, req.itemIds[k]) =>
                                        StakeItem(req.itemIds[k], inventory[req.itemIds[k]].price.value)))
  }

  function StakedIds(items: seq<StakeItem>): (ids: set<nat>)
  {
    set item | item in items :: item.id
  }

  /** `is_sold = true` on every staked item. */
  function UseItems(inventory: map<nat, Item>, ids: set<nat>): (after: map<nat, Item>)
  {
    map id | id in inventory :: if id in ids then inventory[id].(used := true) else inventory[id]
  }

  /** `splitCrashStake` */
  function SplitStake(total: int, twoBets: bool): (stakes: seq<int>)
  {
    if !twoBets then [total]
    else
      var first := RoundHalfUp(total, 2);
      [first, total - first]
  }

  /** `calculateCrashPayout` */
  function CrashPayout(stake: int, multiplier: int): (cents: int)
  {
    RoundHalfUp(stake * (if multiplier < 100 then 100 else multiplier), 100)
  }

  function NewCrashRow(slot: nat, stake: int, fromBalance: bool, items: seq<StakeItem>): CrashRow
  {
    CrashRow(slot, stake, fromBalance, items, Running, None, None)
  }

  /** One row per stake, in slots 1 and 2. */
  function NewCrashRows(stakes: seq<int>, fromBalance: bool, items: seq<StakeItem>): (rows: seq<CrashRow>)
  {
    seq(|stakes|, k requires 0 <= k < |stakes| => NewCrashRow(k + 1, stakes[k], fromBalance, items))
  }

  // ----- The effect of each call -----

  predicate HasActiveMines(mines: seq<MinesRow>)
  {
    exists i :: 0 <= i < |mines| && mines[i].session.status == Active
  }

  function StartMinesEffect(l: Ledger, boardSize: nat, req: StakeRequest, minesCount: int,
                            drawn: set<int>): (r: (Ledger, Reply))
  {
    if !ValidBoard(boardSize, minesCount) || HasActiveMines(l.mines) then (l, BadRequest)
    else
      match ResolveStake(l.inventory, req)
      case NoStake(why) => (l, why)
      case BalanceStake(bet) =>
        if !StakeInRange(bet) || l.balance < bet then (l, BadRequest)
        else
          var row := MinesRow(NewSession(boardSize, minesCount, drawn, bet), true, []);
          (l.(balance := l.balance - bet, mines := l.mines + [row]), Started)
      case ItemStake(items) =>
        if !StakeInRange(ItemsValue(items)) then (l, BadRequest)
        else
          var row := MinesRow(NewSession(boardSize, minesCount, drawn, ItemsValue(items)), false, items);
          (l.(inventory := UseItems(l.inventory, StakedIds(items)), mines := l.mines + [row]), Started)
  }

  /** A session's new state; a cashed-out session adds its win to the balance. */
  function StoreMines(l: Ledger, id: nat, s: Session): (after: Ledger)
    requires id < |l.mines|
  {
    l.(balance := l.balance + (if s.status == CashedOut then s.win.GetOr(0) else 0),
       mines := l.mines[id := l.mines[id].(session := s)])
  }

  function MoveMinesEffect(l: Ledger, id: nat, x: int, y: int): (r: (Ledger, Reply))
  {
    if id >= |l.mines| then (l, NotFound)
    else
      match Move(l.mines[id].session, y * GRID_SIZE + x)
      case Refused(_) => (l, BadRequest)
      case Accepted(s) => (StoreMines(l, id, s), Moved(s.status))
  }

  function CashOutMinesEffect(l: Ledger, id: nat): (r: (Ledger, Reply))
  {
    if id >= |l.mines| then (l, NotFound)
    else
      match CashOut(l.mines[id].session)
      case Refused(_) => (l, BadRequest)
      case Accepted(s) => (StoreMines(l, id, s), PaidOut(s.win.GetOr(0), l.balance + s.win.GetOr(0)))
  }

  function StartCrashEffect(l: Ledger, req: StakeRequest, twoBets: bool): (r: (Ledger, Reply))
  {
    match ResolveStake(l.inventory, req)
    case NoStake(why) => (l, why)
    case BalanceStake(bet) =>
      var stakes := if twoBets then [bet, bet] else [bet];
      if !StakeInRange(bet) || l.balance < bet * |stakes| then (l, BadRequest)
      else (l.(balance := l.balance - bet * |stakes|, crash := l.crash + NewCrashRows(stakes, true, [])), Started)
    case ItemStake(items) =>
      var stakes := SplitStake(ItemsValue(items), twoBets);
      if !AllInRange(stakes) then (l, BadRequest)
      else (l.(inventory := UseItems(l.inventory, StakedIds(items)),
               crash := l.crash + NewCrashRows(stakes, false, items)), Started)
  }

  function CashOutCrashEffect(l: Ledger, id: nat, multiplier: int): (r: (Ledger, Reply))
  {
    if id >= |l.crash| then (l, NotFound)
    else
      var row := l.crash[id];
      match row.status
      case CrashedOut => (l, AlreadyPaid(row.win.GetOr(0), l.balance))
      case Crashed => (l, BadRequest)
      case Running =>
        var win := CrashPayout(row.stake, multiplier);
        var paid := row.(status := CrashedOut, multiplier := Some(multiplier), win := Some(win));
        (l.(balance := l.balance + win, crash := l.crash[id := paid]), PaidOut(win, l.balance + win))
  }

  function SettleCrashEffect(l: Ledger, id: nat): (r: (Ledger, Reply))
  {
    if id >= |l.crash| then (l, NotFound)
    else if l.crash[id].status != Running then (l, Settled)
    else
      var settled := l.crash[id].(status := Crashed, multiplier := Some(0), win := Some(0));
      (l.(crash := l.crash[id := settled]), Settled)
  }

  function Perform(l: Ledger, boardSize: nat, op: Op): (r: (Ledger, Reply))
  {
    match op
    case StartMines(req, minesCount, drawn) => StartMinesEffect(l, boardSize, req, minesCount, drawn)
    case MoveMines(id, x, y) => MoveMinesEffect(l, id, x, y)
    case CashOutMines(id) => CashOutMinesEffect(l, id)
    case StartCrash(req, twoBets) => StartCrashEffect(l, req, twoBets)
    case CashOutCrash(id, multiplier) => CashOutCrashEffect(l, id, multiplier)
    case SettleCrash(id) => SettleCrashEffect(l, id)
  }

  function RunOps(l: Ledger, boardSize: nat, ops: seq<Op>): (end: Ledger)
    decreases |ops|
  {
    if ops == [] then l else RunOps(Perform(l, boardSize, ops[0]).0, boardSize, ops[1..])
  }

  // ----- What every reachable ledger satisfies -----

  /** `drawMinePositions` delivers minesCount cells of the board (MinesGame.DrawMinePositions). */
  ghost predicate GoodDraw(boardSize: nat, op: Op)
  {
    op.StartMines? && ValidBoard(boardSize, op.minesCount) ==>
      |op.drawn| == op.minesCount && forall c :: c in op.drawn ==> 0 <= c < boardSize
  }

  ghost predicate MinesRowValid(row: MinesRow, boardSize: nat)
  {
    && Invariant(row.session) && row.session.boardSize == boardSize
    && if row.fromBalance then row.items == [] else row.session.bet == ItemsValue(row.items)
  }

  ghost predicate OneActive(mines: seq<MinesRow>)
  {
    forall i, j | 0 <= i < j < |mines| :: !(mines[i].session.status == Active && mines[j].session.status == Active)
  }

  ghost predicate MinesRowsValid(mines: seq<MinesRow>, boardSize: nat)
  {
    (forall i :: 0 <= i < |mines| ==> MinesRowValid(mines[i], boardSize)) && OneActive(mines)
  }

  ghost predicate CrashRowValid(row: CrashRow)
  {
    && row.stake > 0
    && (row.slot == 1 || row.slot == 2)
    && (row.fromBalance ==> row.items == [])
    && match row.status
       case Running => row.win == None
       case CrashedOut => row.multiplier.Some? && row.win == Some(CrashPayout(row.stake, row.multiplier.value))
       case Crashed => row.win == Some(0)
  }

  /** Row j was opened by the same call as row i, as its second bet. */
  ghost predicate Twins(crash: seq<CrashRow>, i: nat, j: nat)
  {
    j == i + 1 && j < |crash| && crash[i].slot == 1 && crash[j].slot == 2
  }

  /** A second bet directly follows the first one of its call. */
  ghost predicate SecondFollowsFirst(crash: seq<CrashRow>, i: nat)
    requires i < |crash|
  {
    crash[i].slot == 2 ==>
      && i > 0 && Twins(crash, i - 1, i)
      && crash[i - 1].items == crash[i].items && crash[i - 1].fromBalance == crash[i].fromBalance
  }

  /** The bets opened by one call stake exactly the value of its items. */
  ghost predicate CrashStakesAddUp(crash: seq<CrashRow>, i: nat)
    requires i < |crash|
  {
    !crash[i].fromBalance && crash[i].slot == 1 ==>
      ItemsValue(crash[i].items)
      == crash[i].stake + if i + 1 < |crash| && crash[i + 1].slot == 2 then crash[i + 1].stake else 0
  }

  ghost predicate CrashRowsValid(crash: seq<CrashRow>)
  {
    && (forall i :: 0 <= i < |crash| ==> CrashRowValid(crash[i]))
    && (forall i :: 0 <= i < |crash| ==> SecondFollowsFirst(crash, i))
    && (forall i :: 0 <= i < |crash| ==> CrashStakesAddUp(crash, i))
  }

  ghost predicate AllUsed(inventory: map<nat, Item>, ids: set<nat>)
  {
    forall id :: id in ids ==> id in inventory && inventory[id].used
  }

  /** The items staked by a row. */
  function MinesIds(row: MinesRow): set<nat> { StakedIds(row.items) }
  function CrashIds(row: CrashRow): set<nat> { StakedIds(row.items) }

  ghost predicate MinesItemsApart(mines: seq<MinesRow>)
  {
    forall i, j | 0 <= i < j < |mines| :: MinesIds(mines[i]) !! MinesIds(mines[j])
  }

  ghost predicate CrashItemsApart(crash: seq<CrashRow>)
  {
    forall i, j | 0 <= i < j < |crash| :: Twins(crash, i, j) || CrashIds(crash[i]) !! CrashIds(crash[j])
  }

  ghost predicate GamesItemsApart(mines: seq<MinesRow>, crash: seq<CrashRow>)
  {
    forall i, j | 0 <= i < |mines| && 0 <= j < |crash| :: MinesIds(mines[i]) !! CrashIds(crash[j])
  }

  ghost predicate StakedItemsUsed(inventory: map<nat, Item>, mines: seq<MinesRow>, crash: seq<CrashRow>)
  {
    && (forall i :: 0 <= i < |mines| ==> AllUsed(inventory, MinesIds(mines[i])))
    && (forall j :: 0 <= j < |crash| ==> AllUsed(inventory, CrashIds(crash[j])))
  }

  /** Every staked item is used up, and was staked by one call only. */
  ghost predicate ItemsStakedOnce(l: Ledger)
  {
    && StakedItemsUsed(l.inventory, l.mines, l.crash)
    && MinesItemsApart(l.mines) && CrashItemsApart(l.crash) && GamesItemsApart(l.mines, l.crash)
  }

  ghost predicate Sound(l: Ledger, boardSize: nat)
  {
    l.balance >= 0 && MinesRowsValid(l.mines, boardSize) && CrashRowsValid(l.crash) && ItemsStakedOnce(l)
  }

  // ----- Where the money is -----

  function MinesStaked(row: MinesRow): int { if row.fromBalance then row.session.bet else 0 }
  function MinesWon(row: MinesRow): int { row.session.win.GetOr(0) }
  function CrashStaked(row: CrashRow): int { if row.fromBalance then row.stake else 0 }
  function CrashWon(row: CrashRow): int { row.win.GetOr(0) }

  function StakedFromBalance(l: Ledger): int { Sum(l.mines, MinesStaked) + Sum(l.crash, CrashStaked) }
  function RecordedWins(l: Ledger): int { Sum(l.mines, MinesWon) + Sum(l.crash, CrashWon) }

  /** What the user would hold had nothing been staked or won. */
  function Stock(l: Ledger): int { l.balance + StakedFromBalance(l) - RecordedWins(l) }

  // ----- Amounts -----

  /** The two bets differ by at most one cent and add up to the total. */
  lemma SplitIsExact(total: int, twoBets: bool)
    requires total >= 0
    ensures var stakes := SplitStake(total, twoBets);
            && Sum(stakes, (x: int) => x) == total
            && (twoBets ==> 0 <= stakes[0] - stakes[1] <= 1)
  {
    if twoBets {
      var first := RoundHalfUp(total, 2);
      assert [first, total - first] == [first] + [total - first];
      SumAppend([first], total - first, (x: int) => x);
      SumAppend([], first, (x: int) => x);
    }
  }

  lemma RoundNonNegative(num: int, den: int)
    requires num >= 0 && den > 0
    ensures RoundHalfUp(num, den) >= 0
  {
  }

  lemma MinesWinNonNegative(s: Session)
    requires Invariant(s)
    ensures s.win.GetOr(0) >= 0
  {
    if s.status == CashedOut {
      PathPositive(s.boardSize, s.minesCount, |s.revealed|);
      RoundNonNegative(s.bet * s.multiplier, 100);
    }
  }

  lemma CrashPayoutAtLeastStake(stake: int, multiplier: int)
    requires stake >= 0
    ensures CrashPayout(stake, multiplier) >= stake
    ensures multiplier >= 100 ==> -50 <= 100 * CrashPayout(stake, multiplier) - stake * multiplier <= 50
  {
    var m := if multiplier < 100 then 100 else multiplier;
    RoundWhole(stake, 100);
    RoundMonotone(stake * 100, 100, stake * m, 100);
  }

  // ----- Every call keeps the ledger sound and the stock unchanged -----

  lemma StoreMinesRow(mines: seq<MinesRow>, boardSize: nat, id: nat, s: Session)
    requires MinesRowsValid(mines, boardSize) && id < |mines| && Invariant(s)
    requires mines[id].session.status == Active && s.bet == mines[id].session.bet && s.boardSize == boardSize
    ensures MinesRowsValid(mines[id := mines[id].(session := s)], boardSize)
  {
  }

  /** Rows that stake the same items keep the items apart. */
  lemma SameMinesItems(l: Ledger, id: nat, row: MinesRow)
    requires ItemsStakedOnce(l) && id < |l.mines| && row.items == l.mines[id].items
    ensures ItemsStakedOnce(l.(mines := l.mines[id := row]))
  {
  }

  lemma StoreMinesKeeps(l: Ledger, boardSize: nat, id: nat, s: Session)
    requires Sound(l, boardSize) && id < |l.mines| && Invariant(s)
    requires l.mines[id].session.status == Active && s.bet == l.mines[id].session.bet && s.boardSize == boardSize
    ensures Sound(StoreMines(l, id, s), boardSize) && Stock(StoreMines(l, id, s)) == Stock(l)
  {
    var row := l.mines[id].(session := s);
    StoreMinesRow(l.mines, boardSize, id, s);
    SameMinesItems(l, id, row);
    SumUpdate(l.mines, id, row, MinesStaked);
    SumUpdate(l.mines, id, row, MinesWon);
    MinesWinNonNegative(s);
    assert MinesRowValid(l.mines[id], boardSize);
  }

  lemma ActMinesKeeps(l: Ledger, boardSize: nat, id: nat, a: Action)
    requires Sound(l, boardSize) && id < |l.mines| && Act(l.mines[id].session, a).Accepted?
    ensures var after := StoreMines(l, id, Act(l.mines[id].session, a).session);
            Sound(after, boardSize) && Stock(after) == Stock(l)
  {
    assert MinesRowValid(l.mines[id], boardSize);
    ActEffect(l.mines[id].session, a);
    StoreMinesKeeps(l, boardSize, id, Act(l.mines[id].session, a).session);
  }

  /** A refused action changes nothing, an accepted one stores its session. */
  function AfterAct(l: Ledger, id: nat, a: Action): (after: Ledger)
  {
    if id < |l.mines| && Act(l.mines[id].session, a).Accepted? then
      StoreMines(l, id, Act(l.mines[id].session, a).session)
    else l
  }

  lemma EffectsAreActs(l: Ledger, id: nat, x: int, y: int)
    ensures MoveMinesEffect(l, id, x, y).0 == AfterAct(l, id, DoMove(y * GRID_SIZE + x))
    ensures CashOutMinesEffect(l, id).0 == AfterAct(l, id, DoCashOut)
  {
  }

  lemma AfterActKeeps(l: Ledger, boardSize: nat, id: nat, a: Action)
    requires Sound(l, boardSize)
    ensures Sound(AfterAct(l, id, a), boardSize) && Stock(AfterAct(l, id, a)) == Stock(l)
  {
    if id < |l.mines| && Act(l.mines[id].session, a).Accepted? {
      ActMinesKeeps(l, boardSize, id, a);
    }
  }

  /** The inventory after a stake: everything staked before or now is used up, and the new
      items are disjoint from all earlier ones. */
  ghost predicate CanAdd(l: Ledger, items: seq<StakeItem>, inventory: map<nat, Item>)
  {
    && StakedItemsUsed(inventory, l.mines, l.crash) && AllUsed(inventory, StakedIds(items))
    && (forall i :: 0 <= i < |l.mines| ==> MinesIds(l.mines[i]) !! StakedIds(items))
    && (forall j :: 0 <= j < |l.crash| ==> CrashIds(l.crash[j]) !! StakedIds(items))
  }

  lemma CanAddStake(l: Ledger, req: StakeRequest)
    requires ItemsStakedOnce(l)
    ensures CanAdd(l, [], l.inventory)
    ensures ResolveStake(l.inventory, req).ItemStake? ==>
              var items := ResolveStake(l.inventory, req).items;
              CanAdd(l, items, UseItems(l.inventory, StakedIds(items)))
  {
  }

  lemma MinesRowAppended(mines: seq<MinesRow>, boardSize: nat, row: MinesRow)
    requires MinesRowsValid(mines, boardSize) && !HasActiveMines(mines) && MinesRowValid(row, boardSize)
    ensures MinesRowsValid(mines + [row], boardSize)
  {
  }

  lemma MinesItemsAdded(l: Ledger, row: MinesRow, inventory: map<nat, Item>)
    requires ItemsStakedOnce(l) && CanAdd(l, row.items, inventory)
    ensures ItemsStakedOnce(l.(inventory := inventory, mines := l.mines + [row]))
  {
  }

  /** A new session takes its stake and keeps the ledger sound. */
  lemma MinesRowAdded(l: Ledger, boardSize: nat, row: MinesRow, inventory: map<nat, Item>)
    requires Sound(l, boardSize) && !HasActiveMines(l.mines) && CanAdd(l, row.items, inventory)
    requires MinesRowValid(row, boardSize) && row.session.win == None && MinesStaked(row) <= l.balance
    ensures var after := Ledger(l.balance - MinesStaked(row), inventory, l.mines + [row], l.crash);
            Sound(after, boardSize) && Stock(after) == Stock(l)
  {
    MinesRowAppended(l.mines, boardSize, row);
    MinesItemsAdded(l, row, inventory);
    SumAppend(l.mines, row, MinesStaked);
    SumAppend(l.mines, row, MinesWon);
  }

  lemma StartMinesKeeps(l: Ledger, boardSize: nat, op: Op)
    requires Sound(l, boardSize) && op.StartMines? && GoodDraw(boardSize, op)
    ensures var after := Perform(l, boardSize, op).0;
            Sound(after, boardSize) && Stock(after) == Stock(l)
  {
    if ValidBoard(boardSize, op.minesCount) && !HasActiveMines(l.mines) {
      CanAddStake(l, op.stake);
      match ResolveStake(l.inventory, op.stake) {
        case NoStake(_) =>
        case BalanceStake(bet) =>
          if StakeInRange(bet) && bet <= l.balance {
            var row := MinesRow(NewSession(boardSize, op.minesCount, op.drawn, bet), true, []);
            NewSessionInvariant(boardSize, op.minesCount, op.drawn, bet);
            MinesRowAdded(l, boardSize, row, l.inventory);
          }
        case ItemStake(items) =>
          if StakeInRange(ItemsValue(items)) {
            var row := MinesRow(NewSession(boardSize, op.minesCount, op.drawn, ItemsValue(items)), false, items);
            NewSessionInvariant(boardSize, op.minesCount, op.drawn, ItemsValue(items));
            MinesRowAdded(l, boardSize, row, UseItems(l.inventory, StakedIds(items)));
          }
      }
    }
  }

  // ----- Adding and storing Crash rows -----

  /** What the bets of one call stake. */
  function TotalStake(stakes: seq<int>): int
    requires 1 <= |stakes| <= 2
  {
    stakes[0] + if |stakes| == 2 then stakes[1] else 0
  }

  ghost predicate StakesValid(stakes: seq<int>, fromBalance: bool, items: seq<StakeItem>)
  {
    && 1 <= |stakes| <= 2 && (forall k :: 0 <= k < |stakes| ==> stakes[k] > 0)
    && if fromBalance then items == [] else ItemsValue(items) == TotalStake(stakes)
  }

  lemma CrashRowsAdded(crash: seq<CrashRow>, stakes: seq<int>, fromBalance: bool, items: seq<StakeItem>)
    requires CrashRowsValid(crash) && StakesValid(stakes, fromBalance, items)
    ensures CrashRowsValid(crash + NewCrashRows(stakes, fromBalance, items))
  {
    var after := crash + NewCrashRows(stakes, fromBalance, items);
    forall i | 0 <= i < |after|
      ensures CrashRowValid(after[i]) && SecondFollowsFirst(after, i) && CrashStakesAddUp(after, i)
    {
      if i < |crash| {
        assert CrashRowValid(crash[i]) && SecondFollowsFirst(crash, i) && CrashStakesAddUp(crash, i);
      }
    }
  }

  lemma CrashItemsAdded(l: Ledger, stakes: seq<int>, fromBalance: bool, items: seq<StakeItem>,
                        inventory: map<nat, Item>)
    requires ItemsStakedOnce(l) && 1 <= |stakes| <= 2 && CanAdd(l, items, inventory)
    ensures ItemsStakedOnce(l.(inventory := inventory, crash := l.crash + NewCrashRows(stakes, fromBalance, items)))
  {
    var crash := l.crash + NewCrashRows(stakes, fromBalance, items);
    var n := |l.crash|;
    assert forall i :: 0 <= i < n ==> CrashIds(crash[i]) == CrashIds(l.crash[i]);
    assert forall i :: n <= i < |crash| ==> CrashIds(crash[i]) == StakedIds(items);
    CrashItemsStayApart(l.crash, stakes, fromBalance, items);
  }

  lemma CrashItemsStayApart(crash: seq<CrashRow>, stakes: seq<int>, fromBalance: bool, items: seq<StakeItem>)
    requires CrashItemsApart(crash) && 1 <= |stakes| <= 2
    requires forall j :: 0 <= j < |crash| ==> CrashIds(crash[j]) !! StakedIds(items)
    ensures CrashItemsApart(crash + NewCrashRows(stakes, fromBalance, items))
  {
  }

  lemma AppendTwo(crash: seq<CrashRow>, rows: seq<CrashRow>, f: CrashRow -> int)
    requires 1 <= |rows| <= 2
    ensures Sum(crash + rows, f) == Sum(crash, f) + f(rows[0]) + if |rows| == 2 then f(rows[1]) else 0
  {
    SumAppend(crash, rows[0], f);
    if |rows| == 2 {
      SumAppend(crash + [rows[0]], rows[1], f);
      assert crash + rows == crash + [rows[0]] + [rows[1]];
    } else {
      assert crash + rows == crash + [rows[0]];
    }
  }

  /** New bets take their stakes and keep the ledger sound. */
  lemma CrashAdded(l: Ledger, boardSize: nat, stakes: seq<int>, fromBalance: bool, items: seq<StakeItem>,
                   inventory: map<nat, Item>)
    requires Sound(l, boardSize) && StakesValid(stakes, fromBalance, items) && CanAdd(l, items, inventory)
    requires fromBalance ==> TotalStake(stakes) <= l.balance
    ensures var taken := if fromBalance then TotalStake(stakes) else 0;
            var after := Ledger(l.balance - taken, inventory, l.mines,
                                l.crash + NewCrashRows(stakes, fromBalance, items));
            Sound(after, boardSize) && Stock(after) == Stock(l)
  {
    var rows := NewCrashRows(stakes, fromBalance, items);
    CrashRowsAdded(l.crash, stakes, fromBalance, items);
    CrashItemsAdded(l, stakes, fromBalance, items, inventory);
    AppendTwo(l.crash, rows, CrashStaked);
    AppendTwo(l.crash, rows, CrashWon);
  }

  lemma SplitAddsUp(total: int, twoBets: bool)
    ensures 1 <= |SplitStake(total, twoBets)| <= 2 && TotalStake(SplitStake(total, twoBets)) == total
  {
  }

  lemma BalanceBetsKeep(l: Ledger, boardSize: nat, bet: int, twoBets: bool)
    requires Sound(l, boardSize) && CanAdd(l, [], l.inventory) && StakeInRange(bet)
    ensures var stakes := if twoBets then [bet, bet] else [bet];
            var after := l.(balance := l.balance - bet * |stakes|, crash := l.crash + NewCrashRows(stakes, true, []));
            bet * |stakes| <= l.balance ==> Sound(after, boardSize) && Stock(after) == Stock(l)
  {
    var stakes := if twoBets then [bet, bet] else [bet];
    assert TotalStake(stakes) == bet * |stakes|;
    if bet * |stakes| <= l.balance {
      CrashAdded(l, boardSize, stakes, true, [], l.inventory);
    }
  }

  lemma ItemBetsKeep(l: Ledger, boardSize: nat, items: seq<StakeItem>, inventory: map<nat, Item>, twoBets: bool)
    requires Sound(l, boardSize) && CanAdd(l, items, inventory)
    requires AllInRange(SplitStake(ItemsValue(items), twoBets))
    ensures var stakes := SplitStake(ItemsValue(items), twoBets);
            var after := l.(inventory := inventory, crash := l.crash + NewCrashRows(stakes, false, items));
            Sound(after, boardSize) && Stock(after) == Stock(l)
  {
    SplitAddsUp(ItemsValue(items), twoBets);
    CrashAdded(l, boardSize, SplitStake(ItemsValue(items), twoBets), false, items, inventory);
  }

  lemma StartCrashKeeps(l: Ledger, boardSize: nat, req: StakeRequest, twoBets: bool)
    requires Sound(l, boardSize)
    ensures var after := StartCrashEffect(l, req, twoBets).0;
            Sound(after, boardSize) && Stock(after) == Stock(l)
  {
    CanAddStake(l, req);
    match ResolveStake(l.inventory, req) {
      case NoStake(_) =>
      case BalanceStake(bet) =>
        if StakeInRange(bet) {
          BalanceBetsKeep(l, boardSize, bet, twoBets);
        }
      case ItemStake(items) =>
        var stakes := SplitStake(ItemsValue(items), twoBets);
        if AllInRange(stakes) {
          ItemBetsKeep(l, boardSize, items, UseItems(l.inventory, StakedIds(items)), twoBets);
        }
    }
  }

  /** Storing a settled row does not touch what it staked. */
  lemma StoreCrashRow(crash: seq<CrashRow>, id: nat, row: CrashRow)
    requires CrashRowsValid(crash) && id < |crash| && CrashRowValid(row)
    requires row == crash[id].(status := row.status, multiplier := row.multiplier, win := row.win)
    ensures CrashRowsValid(crash[id := row])
  {
    var after := crash[id := row];
    forall i | 0 <= i < |after|
      ensures CrashRowValid(after[i]) && SecondFollowsFirst(after, i) && CrashStakesAddUp(after, i)
    {
      assert CrashRowValid(crash[i]) && SecondFollowsFirst(crash, i) && CrashStakesAddUp(crash, i);
    }
  }

  lemma SameCrashItems(l: Ledger, id: nat, row: CrashRow)
    requires ItemsStakedOnce(l) && id < |l.crash| && row.items == l.crash[id].items && row.slot == l.crash[id].slot
    ensures ItemsStakedOnce(l.(crash := l.crash[id := row]))
  {
  }

  lemma StoreCrashKeeps(l: Ledger, boardSize: nat, id: nat, row: CrashRow)
    requires Sound(l, boardSize) && id < |l.crash| && CrashRowValid(row) && row.win.GetOr(0) >= 0
    requires l.crash[id].status == Running
    requires row == l.crash[id].(status := row.status, multiplier := row.multiplier, win := row.win)
    ensures var after := l.(balance := l.balance + row.win.GetOr(0), crash := l.crash[id := row]);
            Sound(after, boardSize) && Stock(after) == Stock(l)
  {
    SumUpdate(l.crash, id, row, CrashStaked);
    SumUpdate(l.crash, id, row, CrashWon);
    StoreCrashRow(l.crash, id, row);
    SameCrashItems(l, id, row);
    assert CrashRowValid(l.crash[id]);
  }

  lemma CashOutCrashKeeps(l: Ledger, boardSize: nat, id: nat, multiplier: int)
    requires Sound(l, boardSize)
    ensures var after := CashOutCrashEffect(l, id, multiplier).0;
            Sound(after, boardSize) && Stock(after) == Stock(l)
  {
    if id < |l.crash| && l.crash[id].status == Running {
      var row := l.crash[id];
      var win := CrashPayout(row.stake, multiplier);
      assert CrashRowValid(row);
      CrashPayoutAtLeastStake(row.stake, multiplier);
      StoreCrashKeeps(l, boardSize, id, row.(status := CrashedOut, multiplier := Some(multiplier), win := Some(win)));
    }
  }

  lemma SettleCrashKeeps(l: Ledger, boardSize: nat, id: nat)
    requires Sound(l, boardSize)
    ensures var after := SettleCrashEffect(l, id).0;
            Sound(after, boardSize) && Stock(after) == Stock(l)
  {
    if id < |l.crash| && l.crash[id].status == Running {
      assert CrashRowValid(l.crash[id]);
      StoreCrashKeeps(l, boardSize, id, l.crash[id].(status := Crashed, multiplier := Some(0), win := Some(0)));
    }
  }

  lemma PerformKeeps(l: Ledger, boardSize: nat, op: Op)
    requires Sound(l, boardSize) && GoodDraw(boardSize, op)
    ensures var after := Perform(l, boardSize, op).0;
            Sound(after, boardSize) && Stock(after) == Stock(l)
  {
    match op {
      case StartMines(_, _, _) => StartMinesKeeps(l, boardSize, op);
      case MoveMines(id, x, y) =>
        EffectsAreActs(l, id, x, y);
        AfterActKeeps(l, boardSize, id, DoMove(y * GRID_SIZE + x));
      case CashOutMines(id) =>
        EffectsAreActs(l, id, 0, 0);
        AfterActKeeps(l, boardSize, id, DoCashOut);
      case StartCrash(req, twoBets) => StartCrashKeeps(l, boardSize, req, twoBets);
      case CashOutCrash(id, multiplier) => CashOutCrashKeeps(l, boardSize, id, multiplier);
      case SettleCrash(id) => SettleCrashKeeps(l, boardSize, id);
    }
  }

  // ----- Sessions are paid at most once -----

  /** Sessions are never removed, and once finished never change. */
  ghost predicate OnlyRunningChange(before: Ledger, after: Ledger)
  {
    && |before.mines| <= |after.mines| && |before.crash| <= |after.crash|
    && (forall i :: 0 <= i < |before.mines| && before.mines[i].session.status != Active ==>
          after.mines[i] == before.mines[i])
    && (forall i :: 0 <= i < |before.crash| && before.crash[i].status != Running ==>
          after.crash[i] == before.crash[i])
  }

  lemma PerformOnlyChangesRunning(l: Ledger, boardSize: nat, op: Op)
    ensures OnlyRunningChange(l, Perform(l, boardSize, op).0)
  {
  }

  /** Conservation over whole runs of Mines and Crash calls, in any order and with any
      retries: the ledger stays sound (balance never negative, items staked once, at most
      one active Mines session, Crash stakes adding up to the staked items), the balance is
      the initial one minus the balance stakes plus the recorded wins, and a finished session
      keeps the one win it recorded. */
  lemma {:induction false} Conservation(l: Ledger, boardSize: nat, ops: seq<Op>)
    requires Sound(l, boardSize) && forall i :: 0 <= i < |ops| ==> GoodDraw(boardSize, ops[i])
    ensures var end := RunOps(l, boardSize, ops);
            && Sound(end, boardSize)
            && end.balance - l.balance
               == (RecordedWins(end) - RecordedWins(l)) - (StakedFromBalance(end) - StakedFromBalance(l))
            && OnlyRunningChange(l, end)
    decreases |ops|
  {
    if ops != [] {
      var next := Perform(l, boardSize, ops[0]).0;
      PerformKeeps(l, boardSize, ops[0]);
      PerformOnlyChangesRunning(l, boardSize, ops[0]);
      assert forall i :: 0 <= i < |ops[1..]| ==> ops[1..][i] == ops[i + 1];
      Conservation(next, boardSize, ops[1..]);
    }
  }

  /** A repeated Crash cashout reports the recorded win and pays nothing, whatever happened
      in between and whatever multiplier it names. */
  lemma RepeatedCashOut(l: Ledger, boardSize: nat, id: nat, multiplier: int, ops: seq<Op>, again: int)
    requires Sound(l, boardSize) && forall i :: 0 <= i < |ops| ==> GoodDraw(boardSize, ops[i])
    requires id < |l.crash| && l.crash[id].status == Running
    ensures var paid := CashOutCrashEffect(l, id, multiplier);
            var later := RunOps(paid.0, boardSize, ops);
            var repeat := CashOutCrashEffect(later, id, again);
            && paid.1.PaidOut? && paid.0.balance == l.balance + paid.1.win
            && repeat == (later, AlreadyPaid(paid.1.win, later.balance))
  {
    var op := CashOutCrash(id, multiplier);
    PerformKeeps(l, boardSize, op);
    Conservation(Perform(l, boardSize, op).0, boardSize, ops);
  }

  // ----- What each call takes, gives and refuses -----

  /** A stake from the balance that `bets` equal bets can be paid from. */
  predicate PaidFromBalance(l: Ledger, req: StakeRequest, bets: nat)
  {
    req.itemIds == [] && req.bet.Some? && 50 <= req.bet.value <= 500_000 && req.bet.value * bets <= l.balance
  }

  function PriceIn(inventory: map<nat, Item>): (price: nat -> int)
  {
    (id: nat) => if id in inventory then inventory[id].price.GetOr(0) else 0
  }

  /** Up to 20 distinct items, unused and priced, worth `least` to `most` cents together. */
  predicate PaidWithItems(l: Ledger, req: StakeRequest, least: int, most: int)
  {
    && req.bet.None? && 0 < |req.itemIds| <= 20 && Distinct(req.itemIds)
    && (forall id :: id in req.itemIds ==> id in l.inventory && !l.inventory[id].used && PriceIn(l.inventory)(id) > 0)
    && least <= Sum(req.itemIds, PriceIn(l.inventory)) <= most
  }

  /** Items are used up exactly when they were or are staked now, and keep their price. */
  ghost predicate OnlyUsedUp(before: map<nat, Item>, after: map<nat, Item>, ids: seq<nat>)
  {
    && after.Keys == before.Keys
    && forall id :: id in before ==>
         after[id].price == before[id].price && after[id].used == (before[id].used || id in ids)
  }

  lemma {:induction false} StakeWorth(inventory: map<nat, Item>, items: seq<StakeItem>, ids: seq<nat>)
    requires |items| == |ids|
    requires forall k :: 0 <= k < |items| ==> items[k].id == ids[k] && items[k].price == PriceIn(inventory)(ids[k])
    ensures ItemsValue(items) == Sum(ids, PriceIn(inventory))
  {
    if items != [] {
      StakeWorth(inventory, items[..|items| - 1], ids[..|ids| - 1]);
    }
  }

  lemma StakedAsAsked(items: seq<StakeItem>, ids: seq<nat>)
    requires |items| == |ids| && forall k :: 0 <= k < |items| ==> items[k].id == ids[k]
    ensures forall id :: id in StakedIds(items) <==> id in ids
  {
    forall id | id in ids ensures id in StakedIds(items) {
      var k :| 0 <= k < |ids| && ids[k] == id;
      assert items[k] in items;
    }
  }

  /** What the stake of a request comes to. */
  lemma StakeMeaning(l: Ledger, req: StakeRequest)
    ensures var stake := ResolveStake(l.inventory, req);
            && (stake.BalanceStake? <==> req.bet.Some? && req.itemIds == [])
            && (stake.BalanceStake? ==> req.bet == Some(stake.bet))
            && (stake.ItemStake? ==>
                  && ItemsValue(stake.items) == Sum(req.itemIds, PriceIn(l.inventory))
                  && OnlyUsedUp(l.inventory, UseItems(l.inventory, StakedIds(stake.items)), req.itemIds))
    ensures forall least, most ::
              PaidWithItems(l, req, least, most)
              <==> ResolveStake(l.inventory, req).ItemStake?
                   && least <= Sum(req.itemIds, PriceIn(l.inventory)) <= most
  {
    var stake := ResolveStake(l.inventory, req);
    assert forall k :: 0 <= k < |req.itemIds| ==> req.itemIds[k] in req.itemIds;
    if stake.ItemStake? {
      StakeWorth(l.inventory, stake.items, req.itemIds);
      StakedAsAsked(stake.items, req.itemIds);
    }
  }

  /** The rows a start adds: a fresh Mines session on the drawn cells. */
  ghost predicate FreshSession(s: Session, boardSize: nat, minesCount: int, drawn: set<int>, bet: int)
  {
    && s.boardSize == boardSize && s.minesCount == minesCount && s.mines == drawn && s.bet == bet
    && s.revealed == [] && s.multiplier == 100 && s.status == Active && s.win == None
  }

  /** A Mines start is accepted exactly for a valid board, no active session and a payable
      stake; it then takes that stake and opens one session for it, and else does nothing. */
  lemma StartMinesTakes(l: Ledger, boardSize: nat, req: StakeRequest, minesCount: int, drawn: set<int>)
    ensures var r := StartMinesEffect(l, boardSize, req, minesCount, drawn);
            var worth := Sum(req.itemIds, PriceIn(l.inventory));
            && (r.1 == Started <==>
                  && 0 < minesCount < boardSize
                  && (forall i :: 0 <= i < |l.mines| ==> l.mines[i].session.status != Active)
                  && (PaidFromBalance(l, req, 1) || PaidWithItems(l, req, 50, 500_000)))
            && (r.1 != Started ==> r.0 == l)
            && (r.1 == Started ==>
                  && r.0.crash == l.crash && |r.0.mines| == |l.mines| + 1 && r.0.mines[..|l.mines|] == l.mines
                  && FreshSession(r.0.mines[|l.mines|].session, boardSize, minesCount, drawn, req.bet.GetOr(worth))
                  && r.0.balance == l.balance - req.bet.GetOr(0)
                  && OnlyUsedUp(l.inventory, r.0.inventory, req.itemIds))
  {
    StakeMeaning(l, req);
  }

  /** Bets with consecutive slots, each of its stake. */
  ghost predicate FreshBets(rows: seq<CrashRow>, stakes: seq<int>)
  {
    && |rows| == |stakes|
    && forall k :: 0 <= k < |rows| ==>
         && rows[k].slot == k + 1 && rows[k].stake == stakes[k]
         && rows[k].status == Running && rows[k].multiplier == None && rows[k].win == None
  }

  /** The stakes of a Crash start: each of two bets is the full bet, while items are split, the
      odd cent going to the first. */
  function CrashStakes(l: Ledger, req: StakeRequest, twoBets: bool): (stakes: seq<int>)
  {
    var worth := Sum(req.itemIds, PriceIn(l.inventory));
    if req.bet.Some? then (if twoBets then [req.bet.value, req.bet.value] else [req.bet.value])
    else if twoBets then [(worth + 1) / 2, worth / 2]
    else [worth]
  }

  lemma SplitHalves(worth: int)
    ensures SplitStake(worth, true) == [(worth + 1) / 2, worth / 2]
    ensures AllInRange(SplitStake(worth, true)) <==> 100 <= worth <= 1_000_000
    ensures SplitStake(worth, false) == [worth]
    ensures AllInRange(SplitStake(worth, false)) <==> 50 <= worth <= 500_000
  {
    RoundUnique(worth, 2, (worth + 1) / 2);
    var halves := SplitStake(worth, true);
    assert halves[0] == (worth + 1) / 2 && halves[1] == worth / 2;
    assert AllInRange(halves) <==> StakeInRange(halves[0]) && StakeInRange(halves[1]);
    assert AllInRange([worth]) <==> StakeInRange([worth][0]);
  }

  lemma NewRowsAreFresh(crash: seq<CrashRow>, stakes: seq<int>, fromBalance: bool, items: seq<StakeItem>)
    ensures var after := crash + NewCrashRows(stakes, fromBalance, items);
            after[..|crash|] == crash && FreshBets(after[|crash|..], stakes)
  {
    assert (crash + NewCrashRows(stakes, fromBalance, items))[|crash|..] == NewCrashRows(stakes, fromBalance, items);
  }

  /** A Crash start is accepted exactly for a payable stake. */
  lemma StartCrashAccepts(l: Ledger, req: StakeRequest, twoBets: bool)
    ensures var r, bets := StartCrashEffect(l, req, twoBets), if twoBets then 2 else 1;
            && (r.1 == Started <==> PaidFromBalance(l, req, bets) || PaidWithItems(l, req, 50 * bets, 500_000 * bets))
            && (r.1 != Started ==> r.0 == l)
  {
    var bets := if twoBets then 2 else 1;
    StakeMeaning(l, req);
    match ResolveStake(l.inventory, req) {
      case NoStake(_) =>
      case BalanceStake(bet) =>
        assert |if twoBets then [bet, bet] else [bet]| == bets;
      case ItemStake(items) => SplitHalves(ItemsValue(items));
    }
  }

  /** It then takes the stakes of its bets and opens one running row for each. */
  lemma StartCrashTakes(l: Ledger, req: StakeRequest, twoBets: bool)
    requires StartCrashEffect(l, req, twoBets).1 == Started
    ensures var after, bets := StartCrashEffect(l, req, twoBets).0, if twoBets then 2 else 1;
            && after.mines == l.mines && |l.crash| <= |after.crash| && after.crash[..|l.crash|] == l.crash
            && FreshBets(after.crash[|l.crash|..], CrashStakes(l, req, twoBets))
            && after.balance == l.balance - req.bet.GetOr(0) * bets
            && OnlyUsedUp(l.inventory, after.inventory, req.itemIds)
  {
    StakeMeaning(l, req);
    match ResolveStake(l.inventory, req) {
      case NoStake(_) =>
      case BalanceStake(bet) =>
        var stakes := if twoBets then [bet, bet] else [bet];
        NewRowsAreFresh(l.crash, stakes, true, []);
      case ItemStake(items) =>
        SplitHalves(ItemsValue(items));
        NewRowsAreFresh(l.crash, SplitStake(ItemsValue(items), twoBets), false, items);
    }
  }

  /** A Crash cashout pays stake times multiplier to the nearest cent, and the stake for a
      multiplier below 1.00; it records what it paid and touches nothing else. */
  lemma CashOutCrashPays(l: Ledger, id: nat, multiplier: int)
    requires id < |l.crash| && l.crash[id].status == Running
    ensures var r := CashOutCrashEffect(l, id, multiplier);
            var row, paid := l.crash[id], r.0.balance - l.balance;
            && (multiplier >= 100 ==> -50 <= 100 * paid - row.stake * multiplier <= 50)
            && (multiplier < 100 ==> paid == row.stake)
            && r.1 == PaidOut(paid, r.0.balance)
            && r.0 == l.(balance := l.balance + paid,
                         crash := l.crash[id := row.(status := CrashedOut, multiplier := Some(multiplier),
                                                     win := Some(paid))])
  {
    RoundWhole(l.crash[id].stake, 100);
  }

  /** A session that crashed is never paid, whatever is called later. */
  lemma CrashedIsNeverPaid(l: Ledger, boardSize: nat, id: nat, ops: seq<Op>, multiplier: int)
    requires Sound(l, boardSize) && forall i :: 0 <= i < |ops| ==> GoodDraw(boardSize, ops[i])
    requires id < |l.crash| && l.crash[id].status == Running
    ensures var settled := SettleCrashEffect(l, id).0;
            var later := RunOps(settled, boardSize, ops);
            && settled.balance == l.balance && id < |later.crash|
            && later.crash[id] == l.crash[id].(status := Crashed, multiplier := Some(0), win := Some(0))
            && CashOutCrashEffect(later, id, multiplier) == (later, BadRequest)
  {
    PerformKeeps(l, boardSize, SettleCrash(id));
    Conservation(Perform(l, boardSize, SettleCrash(id)).0, boardSize, ops);
  }

  /** A Mines cashout works exactly for an active session with an opened cell, and pays its bet
      times its multiplier to the nearest cent. */
  lemma CashOutMinesPays(l: Ledger, boardSize: nat, id: nat)
    requires Sound(l, boardSize) && id < |l.mines|
    ensures var r, s := CashOutMinesEffect(l, id), l.mines[id].session;
            var paid := r.0.balance - l.balance;
            && (r.1.PaidOut? <==> s.status == Active && s.revealed != [])
            && (!r.1.PaidOut? ==> r == (l, BadRequest))
            && (r.1.PaidOut? ==>
                  && r.1 == PaidOut(paid, r.0.balance) && -50 <= 100 * paid - s.bet * s.multiplier <= 50
                  && r.0.mines[id].session == s.(status := CashedOut, win := Some(paid)))
  {
    assert MinesRowValid(l.mines[id], boardSize);
    CashOutEffect(l.mines[id].session);
  }

  /** A move opens the cell of its coordinates on the 5 by 5 grid, exactly if the session is
      active and the cell on the board and unopened; it loses exactly on a mine. */
  lemma MoveOpensCell(l: Ledger, id: nat, x: int, y: int)
    requires id < |l.mines|
    ensures var r, s, cell := MoveMinesEffect(l, id, x, y), l.mines[id].session, 5 * y + x;
            && (r.1.Moved? <==> s.status == Active && 0 <= cell < s.boardSize && cell !in s.revealed)
            && (!r.1.Moved? ==> r == (l, BadRequest))
            && (r.1.Moved? ==>
                  && |r.0.mines| == |l.mines| && r.0.mines == l.mines[id := r.0.mines[id]]
                  && r.0.mines[id].session.revealed == s.revealed + [cell]
                  && r.1.status == r.0.mines[id].session.status
                  && (r.1.status == Lost <==> cell in s.mines))
  {
  }

  // ----- The service -----

  /** The tables of one user. Every method leaves them as its `...Effect` says. */
  class GameService {
    const boardSize: nat
    var balance: int
    var inventory: map<nat, Item>
    var mines: seq<MinesRow>
    var crash: seq<CrashRow>

    constructor (boardSize: nat, balance: int, inventory: map<nat, Item>)
      requires balance >= 0
      ensures this.boardSize == boardSize
      ensures State() == Ledger(balance, inventory, [], []) && Sound(State(), boardSize)
    {
      this.boardSize, this.balance, this.inventory := boardSize, balance, inventory;
      mines, crash := [], [];
    }

    ghost function State(): Ledger
      reads this
    {
      Ledger(balance, inventory, mines, crash)
    }

    /** `item.is_sold = true` for each staked item. */
    method MarkItemsSold(items: seq<StakeItem>)
      requires forall k :: 0 <= k < |items| ==> items[k].id in inventory
      modifies this`inventory
      ensures inventory == UseItems(old(inventory), StakedIds(items))
    {
      for k := 0 to |items|
        invariant inventory == UseItems(old(inventory), StakedIds(items[..k]))
      {
        var id := items[k].id;
        inventory := inventory[id := inventory[id].(used := true)];
        assert StakedIds(items[..k + 1]) == StakedIds(items[..k]) + {id};
      }
      assert items[..|items|] == items;
    }

    method StartMines(req: StakeRequest, minesCount: int, stream: seq<int>) returns (reply: Reply, drawn: set<int>)
      requires ValidBoard(boardSize, minesCount) ==>
                 (forall c :: c in stream ==> 0 <= c < boardSize) && |Elements(stream)| >= minesCount
      modifies this
      ensures var op := Op.StartMines(req, minesCount, drawn);
              GoodDraw(boardSize, op) && (State(), reply) == Perform(old(State()), boardSize, op)
    {
      var positions, _ := DrawMinePositions(boardSize, minesCount, stream);
      drawn := Elements(positions);
      SortedSize(positions);
      if !ValidBoard(boardSize, minesCount) || HasActiveMines(mines) {
        return BadRequest, drawn;
      }
      var bet, fromBalance, items := 0, true, [];
      match ResolveStake(inventory, req) {
        case NoStake(why) => return why, drawn;
        case BalanceStake(amount) =>
          bet := amount;
          if !StakeInRange(bet) || balance < bet {
            return BadRequest, drawn;
          }
          balance := balance - bet;
        case ItemStake(staked) =>
          bet, fromBalance, items := ItemsValue(staked), false, staked;
          if !StakeInRange(bet) {
            return BadRequest, drawn;
          }
          MarkItemsSold(items);
      }
      mines := mines + [MinesRow(NewSession(boardSize, minesCount, drawn, bet), fromBalance, items)];
      reply := Started;
    }

    method MakeMove(id: nat, x: int, y: int) returns (reply: Reply)
      modifies this`balance, this`mines
      ensures (State(), reply) == Perform(old(State()), boardSize, MoveMines(id, x, y))
    {
      if id >= |mines| {
        return NotFound;
      }
      var session := mines[id].session;
      if session.status != Active {
        return BadRequest;
      }
      var cellIndex := y * GRID_SIZE + x;
      if cellIndex < 0 || cellIndex >= session.boardSize || cellIndex in session.revealed {
        return BadRequest;
      }
      session := session.(revealed := session.revealed + [cellIndex]);
      if cellIndex in session.mines {
        session := session.(status := Lost, win := Some(0));
        mines := mines[id := mines[id].(session := session)];
        return Moved(Lost);
      }
      RevealSafeCell(id, session);
      reply := Moved(mines[id].session.status);
    }

    /** The rest of `makeMove` for a safe cell: new multiplier, and the win of a cleared board. */
    method RevealSafeCell(id: nat, shown: Session)
      requires id < |mines|
      modifies this`balance, this`mines
      ensures shown.status == Active ==> State() == StoreMines(old(State()), id, SafeReveal(shown))
    {
      var session := shown;
      var multipliers := BuildMinesMultiplierPath(session.boardSize, session.minesCount);
      var safeReveals := CountSafeReveals(session.revealed, session.mines);
      if 1 <= safeReveals <= |multipliers| {
        session := session.(multiplier := multipliers[safeReveals - 1]);
      }
      if safeReveals >= session.boardSize - session.minesCount {
        var winAmount := ProjectedWin(session.bet, session.multiplier);
        balance := balance + winAmount;
        session := session.(status := CashedOut, win := Some(winAmount));
      }
      mines := mines[id := mines[id].(session := session)];
    }

    method CashOutMinesSession(id: nat) returns (reply: Reply)
      modifies this`balance, this`mines
      ensures (State(), reply) == Perform(old(State()), boardSize, CashOutMines(id))
    {
      if id >= |mines| {
        return NotFound;
      }
      var session := mines[id].session;
      if session.status != Active || CountSafeReveals(session.revealed, session.mines) <= 0 {
        return BadRequest;
      }
      var winAmount := ProjectedWin(session.bet, session.multiplier);
      balance := balance + winAmount;
      session := session.(status := CashedOut, win := Some(winAmount));
      mines := mines[id := mines[id].(session := session)];
      reply := PaidOut(winAmount, balance);
    }

    method StartCrashGame(req: StakeRequest, twoBets: bool) returns (reply: Reply)
      modifies this
      ensures (State(), reply) == Perform(old(State()), boardSize, StartCrash(req, twoBets))
    {
      var stakes, fromBalance, items := [], true, [];
      match ResolveStake(inventory, req) {
        case NoStake(why) => return why;
        case BalanceStake(bet) =>
          stakes := if twoBets then [bet, bet] else [bet];
          if !StakeInRange(bet) || balance < bet * |stakes| {
            return BadRequest;
          }
          balance := balance - bet * |stakes|;
        case ItemStake(staked) =>
          stakes, fromBalance, items := SplitStake(ItemsValue(staked), twoBets), false, staked;
          if !AllInRange(stakes) {
            return BadRequest;
          }
          MarkItemsSold(items);
      }
      ghost var rows, paid, used := NewCrashRows(stakes, fromBalance, items), balance, inventory;
      for index := 0 to |stakes|
        invariant crash == old(crash) + rows[..index]
        invariant mines == old(mines) && balance == paid && inventory == used
      {
        assert rows[..index + 1] == rows[..index] + [rows[index]];
        crash := crash + [NewCrashRow(index + 1, stakes[index], fromBalance, items)];
      }
      assert rows[..|stakes|] == rows;
      reply := Started;
    }

    method CashOutCrashSession(id: nat, multiplier: int) returns (reply: Reply)
      modifies this`balance, this`crash
      ensures (State(), reply) == Perform(old(State()), boardSize, CashOutCrash(id, multiplier))
      ensures reply.PaidOut? ==>
                && id < |old(crash)| && balance == reply.newBalance == old(balance) + reply.win
                && (multiplier >= 100 ==> -50 <= 100 * reply.win - old(crash)[id].stake * multiplier <= 50)
    {
      if id >= |crash| {
        return NotFound;
      }
      var session := crash[id];
      if session.status == CrashedOut {
        return AlreadyPaid(session.win.GetOr(0), balance);
      }
      if session.status != Running {
        return BadRequest;
      }
      var winAmount := CrashPayout(session.stake, multiplier);
      balance := balance + winAmount;
      crash := crash[id := session.(status := CrashedOut, multiplier := Some(multiplier), win := Some(winAmount))];
      reply := PaidOut(winAmount, balance);
    }

    method SettleCrashSession(id: nat) returns (reply: Reply)
      modifies this`crash
      ensures (State(), reply) == Perform(old(State()), boardSize, SettleCrash(id))
    {
      if id >= |crash| {
        return NotFound;
      }
      var session := crash[id];
      if session.status == Running {
        crash := crash[id := session.(status := Crashed, multiplier := Some(0), win := Some(0))];
      }
      reply := Settled;
    }
  }

  lemma SortedSize(positions: seq<int>)
    requires StrictlySorted(positions)
    ensures |Elements(positions)| == |positions|
    ensures forall c :: c in Elements(positions) <==> c in positions
  {
    DistinctSize(positions);
  }
}
