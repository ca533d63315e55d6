# Money and chance: a verified model of the backend

The backend runs games of chance over shared balances: Mines, Crash, case openings, giveaways,
a savings vault, deposits credited by webhooks, and the sessions and budgets around them. This
project models the code that decides who wins, what is paid and what every run of stakes,
payouts, retries and webhooks keeps, and proves what that code is for.

Conventions of the model:

- Money is counted in whole cents, multipliers and chances in whole hundredths, probabilities are
  exact fractions. Every rounding of the source is round half up on the exact value (`Money.dfy`).
- A database transaction under its row lock is one step. Where the source takes no lock, or awaits
  between steps, the steps are separate and interleave freely (`Idempotency`, `LimitedCopies`,
  `CrashRounds`, `Giveaways`, `RefreshRaces`). `RefreshTokens` has the same calls one at a time.
- SHA-256, token signatures, clocks and random sources are parameters: functions, flags, or the list
  of values a generator will return. Board sizes, mine counts, list and run lengths are unbounded.
- A component that updates its fields is a class whose methods follow the source's order of checks
  and writes; each is proved to have the effect that a function of the old state describes, and the
  lemmas over whole runs are about those functions.

| file | component |
|---|---|
| `Combinatorics.dfy`, `MinesGame.dfy`, `MinesSession.dfy`, `MineDraws.dfy` | Mines: layouts, multiplier path, mine draw, one session, the constant return, the uniform draw |
| `GameLedger.dfy` | one user's balance, inventory, Mines and Crash sessions |
| `CaseLottery.dfy`, `ProvablyFair.dfy` | ticket ranges, the roll, seeds and their verification |
| `LimitedCopies.dfy` | concurrent opens of a limited case, with other writes of the balance: reserve, charge, restore, drop |
| `Idempotency.dfy` | concurrent callers of one expiring key |
| `CrashParticipants.dfy`, `CrashRounds.dfy` | the live Crash round |
| `EarnVault.dfy`, `Deposits.dfy`, `RefreshTokens.dfy` | the vault, deposit webhooks with partner totals, refresh rotation |
| `RefreshRaces.dfy` | refresh and revoke calls that overlap, statement by statement |
| `ClickerProgress.dfy`, `SocketBudget.dfy`, `Giveaways.dfy` | levels and challenges, the websocket budget, giveaways |
| `Money.dfy`, `Sequences.dfy` | rounding; sums, filters and finite sets |

Where the code does not do what one might expect, the code is kept and the difference is a lemma:
one paid hash word has no winner (`CaseLottery.RollTotality`); the clicker modal keeps orphan rows
(`CaseLottery.ClickerAgreement`, `ClickerDisagreement`); the crashing tick cashes out before the
crash point is shown (`CrashParticipants.TickMatters`); the table belongs to the round built last,
not always to the current one (`CrashRounds.TableIsLastBuilt`, `LateBuild`); a credited deposit can
go back to waiting (`Deposits.CreditedYetWaiting`); the balance charge of a case opening takes no
row lock and writes away whatever else was written since its read
(`LimitedCopies.EveryCentAccountedFor`, `LostWin`, `OverlappingCharges`); two overlapping refreshes
of one token can both succeed (`RefreshRaces.ConsumedOnceIffNoneOvertaken`, `OverlappingRefreshes`);
more experience can mean a smaller deposit bonus (`Deposits.BonusFallsIff`); partner thresholds out
of order make the scan miss levels (`Deposits.LevelServesExactly`); a reused token whose row is
already revoked goes unnoticed
(`RefreshTokens.ReuseNoticedIffUnrevoked`, `SilentReuse`); a handler that outlives its TTL disturbs
the next one (`Idempotency.OverrunDeleteFreesKey`, `OverrunPublishAnswers`); maintenance jobs that
overlap can outrun the bot pace (`Giveaways.OvershootIsOverlaps`, `OverlappingJobs`); level
thresholds out of order make the scan miss tiers (`ClickerProgress.ScanServesExactly`).

`src/modules/users/users.service.ts` is cited for the charge alone.

## Model

| member | source | states |
|---|---|---|
| `MinesGame.BuildMinesMultiplierPath` | src/modules/mines/mines-game.logic.ts:31-51 | the running product of probabilities yields, entry by entry, 0.96 times the inverse of the share of mine layouts that spare the cells opened so far, for every board size and mine count |
| `MinesGame.PathIncreases` | src/modules/mines/mines-game.logic.ts:31-51 | the unrounded path strictly increases; rounded to hundredths it never decreases |
| `MinesGame.PathPositive` | src/modules/mines/mines-game.logic.ts:31-51 | no entry of the path is worth less than the house return |
| `Combinatorics.LayoutCount` | src/modules/mines/mines-game.logic.ts:53-69 | there are exactly C(n, m) ways of placing m mines on n cells |
| `Combinatorics.SurvivorCount` | src/modules/mines/mines-game.logic.ts:31-51 | exactly C(n-k, m) layouts spare k given cells |
| `MinesSession.PlanReturn` | src/modules/mines/mines.service.ts:325-534 | any plan of k distinct cells followed by a cashout is paid on exactly C(n-k, m) of the C(n, m) layouts, each time the same amount |
| `MinesSession.ConstantReturn` | src/modules/mines/mines.service.ts:325-534 | constant return, for every bet and plan: summed over all layouts the payout is bet times 0.96 C(n, m), up to half a cent per surviving layout and the rounding of one path entry |
| `MinesSession.UnitReturn` | src/modules/mines/mines.service.ts:325-534 | for a stake of one unit only half a cent for each surviving layout remains |
| `MineDraws.DrawIsUniform` | src/modules/mines/mines-game.logic.ts:53-69 | no layout is favoured: for any two layouts of m mines, equally many streams of each length draw them |
| `MineDraws.DrawsOne` | src/modules/mines/mines-game.logic.ts:53-69 | a stream of board cells draws a layout exactly if it holds m distinct cells, and then one layout of m mines alone |
| `MineDraws.DrawShare` | src/modules/mines/mines-game.logic.ts:53-69 | each of the C(n, m) layouts is drawn by exactly one in C(n, m) of the streams, of any length, on which the draw ends |
| `MineDraws.DrawnReturn` | src/modules/mines/mines-game.logic.ts:53-69 | so a plan's payout over all streams of a length is its payout over all layouts, times the streams that draw any one of them |
| `MinesGame.DrawMinePositions` | src/modules/mines/mines-game.logic.ts:53-69 | returns the first m distinct values of the stream, sorted and on the board, reading no further than it must; ends for every stream that holds m distinct cells |
| `MinesGame.DrawNeedsDistinctCells` | src/modules/mines/mines-game.logic.ts:53-69 | that condition on the stream is also necessary |
| `MinesGame.DrawIsSymmetric` | src/modules/mines/mines-game.logic.ts:53-69 | renumbering the cells in the stream renumbers the drawn set and changes nothing else: no cell is favoured |
| `MinesSession.MoveEffect` | src/modules/mines/mines.service.ts:392-481 | a move is accepted exactly on an unopened cell of an active session; a mine loses, the last safe cell cashes out, and the session invariant is kept |
| `MinesSession.CashOutEffect` | src/modules/mines/mines.service.ts:483-534 | cashing out works exactly for an active session with an opened cell, and keeps the session invariant |
| `MinesSession.SafeRevealEffect` | src/modules/mines/mines.service.ts:436-463 | a safe reveal keeps the session invariant and pays exactly on the last safe cell |
| `MinesSession.RunInvariant` | src/modules/mines/mines.service.ts:392-534 | over every run: active sessions have no mine opened, no repeated cell and the multiplier of their reveals; lost ones a single mine, opened last, and win 0; cashed-out ones win the rounded bet times multiplier; finished sessions never change; at most n-m moves are accepted |
| `GameLedger.GameService.StartMines` | src/modules/mines/mines.service.ts:325-390 | takes the stake from the balance or marks the items sold, draws the mines and opens a session, or refuses and changes nothing |
| `GameLedger.GameService.MakeMove` | src/modules/mines/mines.service.ts:392-481 | the order of checks and writes of a move has the effect of the session's transition, paying the win of a cleared board |
| `GameLedger.GameService.RevealSafeCell` | src/modules/mines/mines.service.ts:436-463 | a safe cell raises the multiplier, and clearing the board pays the win |
| `GameLedger.GameService.CashOutMinesSession` | src/modules/mines/mines.service.ts:483-534 | pays the session's win once and records it |
| `GameLedger.GameService.MarkItemsSold` | src/modules/mines/mines.service.ts:359-362 | marks exactly the staked items |
| `GameLedger.GameService.StartCrashGame` | src/modules/crash/crash.service.ts:329-394 | one or two bets are opened for the stake taken, in slots 1 and 2, or nothing changes |
| `GameLedger.GameService.CashOutCrashSession` | src/modules/crash/crash.service.ts:396-447 | pays a running session its stake times the multiplier to the nearest cent; a cashed-out one only reports what it recorded; a crashed one is refused |
| `GameLedger.GameService.SettleCrashSession` | src/modules/crash/crash.service.ts:449-474 | a running session becomes crashed with win 0, a finished one is left alone |
| `GameLedger.ResolveStake` | src/modules/mines/mines.service.ts:720-832 | a stake of items names each once, and every item is owned, unused and priced |
| `GameLedger.SplitIsExact` | src/modules/crash/crash-game.logic.ts:4-17 | the one or two stakes sum exactly to the total and differ by at most a cent |
| `GameLedger.CrashPayoutAtLeastStake` | src/modules/crash/crash-game.logic.ts:19-22 | a cashout is the stake times the multiplier to the nearest cent, and never less than the stake |
| `GameLedger.PerformKeeps` | src/modules/mines/mines.service.ts:325-534 | every call keeps the ledger sound and the money accounted for |
| `GameLedger.Conservation` | src/modules/mines/mines.service.ts:325-534 | over every mix of Mines and Crash calls and retries: balance = initial - balance stakes + recorded wins, never negative; at most one active Mines session; each item staked once; Crash stakes add up to the staked value; finished sessions keep the one win they recorded |
| `GameLedger.RepeatedCashOut` | src/modules/crash/crash.service.ts:396-447 | a Crash cashout repeated at any later time returns the first win and pays nothing |
| `GameLedger.StartMinesTakes` | src/modules/mines/mines.service.ts:325-390 | a Mines start is accepted exactly for a valid board, no active session, and 0.50 to 5000 from the balance or in up to 20 distinct unused priced items; it takes exactly that stake, opens one fresh session for it, and else changes nothing |
| `GameLedger.StartCrashAccepts` | src/modules/crash/crash.service.ts:329-394 | a Crash start is accepted exactly for such a stake, for each of its bets, and else changes nothing |
| `GameLedger.StartCrashTakes` | src/modules/crash/crash.service.ts:329-394 | it takes the full bet for each of two bets from the balance, or splits the items' value with the odd cent in slot 1, opens one running row for each, and uses up exactly the items named |
| `GameLedger.CashOutCrashPays` | src/modules/crash/crash-game.logic.ts:19-22 | the balance grows by stake times multiplier to the nearest cent, by the stake for a multiplier below 1.00, and the row records it |
| `GameLedger.CrashedIsNeverPaid` | src/modules/crash/crash.service.ts:449-474 | a settled session takes nothing from the balance and is refused a cashout at any later time |
| `GameLedger.CashOutMinesPays` | src/modules/mines/mines.service.ts:483-534 | a Mines cashout works exactly for an active session with an opened cell, and pays bet times multiplier to the nearest cent |
| `GameLedger.MoveOpensCell` | src/modules/mines/mines.service.ts:392-434 | a move on (x, y) opens cell 5y + x, exactly if the session is active and the cell on the board and unopened; it loses exactly on a mine, and no other session changes |
| `CaseLottery.SortPermutes` | src/modules/cases/case.service.ts:77-84 | the lottery order is a permutation of the rows |
| `CaseLottery.FilterCommutesWithSort` | src/modules/cases/case.service.ts:694-731 | filtering before sorting gives the list that sorting before filtering gives |
| `CaseLottery.AssignTicketRanges` | src/modules/cases/case.service.ts:645-661 | sorts the rows in place and writes to exactly the rows that can drop the range that follows the tickets before it, ten tickets for each hundredth of a percent |
| `CaseLottery.PrepareTicketRanges` | src/modules/cases/case.service.ts:618-642 | lays the pool's ranges end to end from ticket 1 on, ten tickets for each hundredth of a percent of a row's chance; refuses exactly when some chance is not positive |
| `CaseLottery.SortForgetsOrder` | src/modules/cases/case.service.ts:72-84 | rows with distinct ids sort to one list whatever order a query returned them in: the id breaks every tie |
| `CaseLottery.CaseServiceAgreement` | src/modules/cases/case.service.ts:618-731 | whatever order the read query and the roll's query return the rows in, the ranges players are shown are the ranges of the roll, for every row that can be rolled, and no other row is shown tickets |
| `CaseLottery.ClickerAgreement` | src/modules/clickerCase/clicker-cases.service.ts:446-503 | in the clicker copy, again for any two query orders, a row's shown and rolled ranges agree if and only if no orphan with tickets is listed before it, hence for every positive price |
| `CaseLottery.ClickerDisagreement` | src/modules/clickerCase/clicker-cases.service.ts:487-503 | with a free skin behind an orphan the two ranges differ |
| `CaseLottery.Partition` | src/modules/cases/case.service.ts:618-642 | the ranges partition the tickets 1..T |
| `CaseLottery.RangesMeasureChances` | src/modules/cases/case.service.ts:618-642 | the roll's ranges are exactly those that follow each other from ticket 1 on with ten tickets per hundredth of a percent; the last ends at ten times the sum of the chances |
| `CaseLottery.PoolHoldsSkins` | src/modules/cases/case.service.ts:686-731 | the pool holds exactly the rows whose skin was found, and is refused exactly if there is none |
| `CaseLottery.WinnerIsOwner` | src/modules/cases/case.service.ts:663-679 | a row wins exactly when the ticket lies in its range |
| `CaseLottery.RollTotality` | src/modules/cases/case.service.ts:663-683 | the demo roll always has a winner; the paid roll has one for every word but 0xffffffff, whose ticket is T+1 |
| `CaseLottery.WinningInterval` | src/modules/cases/case.service.ts:663-679 | the words on which a row wins form one interval, given exactly |
| `CaseLottery.FairShare` | src/modules/cases/case.service.ts:618-679 | in chances: with C the sum of the pool's chances, a row with chance c wins on c D / C of the D words, give or take less than one |
| `ProvablyFair.ParseHexInjective` | src/modules/provably-fair/provably-fair.service.ts:134-134 | digit strings of one length parse to distinct words exactly when they differ |
| `ProvablyFair.FirstDigitDecides` | src/modules/provably-fair/provably-fair.service.ts:134-134 | digits count from the most significant on: the first differing digit decides which word is larger |
| `ProvablyFair.RollInUnitInterval` | src/modules/provably-fair/provably-fair.service.ts:129-135 | a paid roll lies between 0 and 1 and is 1 exactly for a digest starting with eight digits f |
| `ProvablyFair.VerifyAcceptsStoredSeeds` | src/modules/provably-fair/provably-fair.service.ts:53-91 | verification accepts exactly the stored pair of seeds and reproduces the roll; the published hash never fails it |
| `ProvablyFair.GenerateNeedsSeed` | src/modules/provably-fair/provably-fair.service.ts:19-51 | a client seed of fewer than 32 characters changes nothing; any other appends one game under the hash of its server seed |
| `ProvablyFair.RollVerifiesLater` | src/modules/provably-fair/provably-fair.service.ts:19-91 | whatever is generated or marked in between, a roll's seeds verify to the word it used, which has a winner unless its digits are all f |
| `ProvablyFair.ProvablyFairService.GenerateSeed` | src/modules/provably-fair/provably-fair.service.ts:19-51 | short client seeds are refused; otherwise the game is stored with the hash of its server seed |
| `ProvablyFair.ProvablyFairService.MarkSeedAsUsed` | src/modules/provably-fair/provably-fair.service.ts:104-106 | marks that game alone, and leaves every verification verdict as it was |
| `ProvablyFair.ProvablyFairService.VerifyResult` | src/modules/provably-fair/provably-fair.service.ts:53-91 | checks game, seeds and hash in the order of the source |
| `Idempotency.BeginKeepsSafe` | src/core/idempotency/idempotency.service.ts:44-50 | taking the key keeps the protocol safe while nobody has held it for the whole processing TTL |
| `Idempotency.PublishKeepsSafe` | src/core/idempotency/idempotency.service.ts:54-61 | writing a result keeps the protocol safe |
| `Idempotency.DeleteKeepsSafe` | src/core/idempotency/idempotency.service.ts:62-71 | deleting the key after a failure keeps the protocol safe |
| `Idempotency.DeleteFailsKeepsSafe` | src/core/idempotency/idempotency.service.ts:63-69 | so does a delete that fails: the key then blocks retries until it expires |
| `Idempotency.ReadKeepsSafe` | src/core/idempotency/idempotency.service.ts:74-77 | a refused caller is answered with the stored result or a conflict, never with anything else |
| `Idempotency.ExecuteKeepsSafe` | src/core/idempotency/idempotency.service.ts:31-79 | every interleaving of any number of callers keeps the protocol safe |
| `Idempotency.AtMostOnce` | src/core/idempotency/idempotency.service.ts:31-79 | at most one handler runs at a time, a success is not repeated before its stored result expires, and every value handed out is the result of the success in force |
| `Idempotency.OnlyFailuresRerun` | src/core/idempotency/idempotency.service.ts:31-79 | if results can be written, only failed runs are executed again before expiry |
| `Idempotency.HeldForAMinute` | src/core/idempotency/idempotency.service.ts:44-50 | from the moment a call takes the key, a new caller meets a conflict for 60 seconds and starts its handler from then on |
| `Idempotency.FailureFreesKey` | src/core/idempotency/idempotency.service.ts:62-71 | a handler that throws frees the key: whatever other calls do before the delete, the next new caller runs |
| `Idempotency.WriteFailureFreesKey` | src/core/idempotency/idempotency.service.ts:54-71 | so does a result that cannot be written |
| `Idempotency.FailedDeleteBlocks` | src/core/idempotency/idempotency.service.ts:62-71 | if the delete fails too, new callers meet a conflict until 60 seconds after the start, and run from then on |
| `Idempotency.ResultAnswersForADay` | src/core/idempotency/idempotency.service.ts:54-77 | a published result answers its own call and, for 24 hours, every later one, whatever other calls do meanwhile |
| `Idempotency.ResultExpires` | src/core/idempotency/idempotency.service.ts:54-61 | a call publishes and answers what its handler returned; without another call the handler runs again exactly from 24 hours on |
| `Idempotency.OverlapIffExpired` | src/core/idempotency/idempotency.service.ts:44-50 | while a handler runs, a new caller starts a second one exactly when the entry is not visible any more |
| `Idempotency.OverrunDeleteFreesKey` | src/core/idempotency/idempotency.service.ts:62-71 | the delete of an owner that overran its TTL frees the key under the second owner, so that a third handler starts beside it |
| `Idempotency.OverrunPublishAnswers` | src/core/idempotency/idempotency.service.ts:54-61 | its publish answers later callers with its own result while the second handler still runs |
| `Idempotency.SlowHandlersOverlap` | src/core/idempotency/idempotency.service.ts:44-50 | such runs exist: a handler that outlives the TTL can meet a second one |
| `CrashParticipants.TickingRefinesSettling` | src/modules/crashLive/crash-live.logic.ts:163-215 | cashing out tick by tick and settling at the crash point equals one settlement of the initial list at the crashing tick's multiplier, for every tick schedule |
| `CrashParticipants.TickMatters` | src/modules/crashLive/crash-live.service.ts:128-147 | settling at the crash point would give the same exactly when no open target lies between it and the crashing tick's multiplier |
| `CrashParticipants.SettledOutcome` | src/modules/crashLive/crash-live.logic.ts:163-192 | a settlement pays exactly the open participants whose target is reached, stake times target to the nearest cent; the others lose their stake |
| `CrashParticipants.TicksOutcome` | src/modules/crashLive/crash-live.logic.ts:194-215 | after any ticks exactly those have cashed out whose target the highest one reached, at their own target |
| `CrashParticipants.ProfitAddsUp` | src/modules/crashLive/crash-live.logic.ts:163-192 | total profit is at least total payout minus total stake, with equality exactly when nobody cashes out below the stake, in particular for targets of at least 1.00 |
| `CrashParticipants.SchedulesInsideWait` | src/modules/crashLive/crash-live.logic.ts:108-149 | whatever the random numbers, every join is at the raw time or, if that is outside, at the nearer end of 0.6 to 14.3 s: inside the wait |
| `CrashParticipants.PotGrows` | src/modules/crashLive/crash-live.logic.ts:151-161 | while waiting the pot only grows |
| `CrashParticipants.VisibleOnceJoined` | src/modules/crashLive/crash-live.logic.ts:151-161 | while waiting exactly those whose join time has passed are shown |
| `CrashParticipants.AllJoined` | src/modules/crashLive/crash-live.logic.ts:151-161 | when the wait ends everybody is visible, so nothing changes when running starts |
| `CrashRounds.HappenShape` | src/modules/crashLive/crash-live.service.ts:108-184 | phases cycle waiting, running, crashed with the round id rising by one; the shown multiplier never falls inside a round and ends at the crash point, which alone enters the history |
| `CrashRounds.RunKeepsPhase` | src/modules/crashLive/crash-live.service.ts:108-184 | in every run the crash point is null exactly while waiting, and from the first tick on a running multiplier lies between 1.00 and below the crash point |
| `CrashRounds.RunMovesOn` | src/modules/crashLive/crash-live.service.ts:108-184 | in every run rounds and phases only move forward, one at a time |
| `CrashRounds.HistoryIsNewest` | src/modules/crashLive/crash-live.service.ts:141-144 | after any run the history holds the newest crash points, at most 16, newest first, and all of them up to 16 |
| `CrashRounds.RunKeepsTable` | src/modules/crashLive/crash-live.service.ts:108-184 | when every build finishes in time, the participants shown are those dealt to this round, cashed out by its ticks |
| `CrashRounds.CrashIsOneSettlement` | src/modules/crashLive/crash-live.service.ts:108-184 | from bootstrap, running and crashed participants belong to the current round, and a crashed round shows one settlement of those it started with |
| `CrashRounds.EveryParticipantSettled` | src/modules/crashLive/crash-live.service.ts:108-158 | in every such run each participant dealt has been paid at its target exactly if the multiplier reached it, and at the crash the others have lost their stakes |
| `CrashRounds.PhasesEndOnTime` | src/modules/crashLive/crash-live.service.ts:108-184 | a waiting round runs exactly from 15 seconds on, a running one crashes exactly when the curve reaches the crash point drawn at its start, and a crashed one waits again exactly from 3.2 seconds on |
| `CrashRounds.ShownHaveJoined` | src/modules/crashLive/crash-live.service.ts:83-106 | a snapshot shows exactly those who have joined, and everybody once the round runs |
| `CrashRounds.PotGrowsInRound` | src/modules/crashLive/crash-live.service.ts:83-158 | once a round is built, the pot it shows never falls in any run within the round, and from the moment it runs it is the pot of everybody |
| `CrashRounds.TableIsLastBuilt` | src/modules/crashLive/crash-live.service.ts:175-184 | with no assumption on timing, the table holds the participants of the round whose build finished last: it belongs to the current round if and only if that round's build was the last to finish, and to an earlier one while it is pending |
| `CrashRounds.TableIsCurrentOnceBuilt` | src/modules/crashLive/crash-live.service.ts:175-184 | when builds finish in order, the table belongs to the current round exactly from the moment that round is built |
| `CrashRounds.LateBuildReplacesTable` | src/modules/crashLive/crash-live.service.ts:175-184 | a build that finishes after a newer round is built puts the older round back on the table |
| `CrashRounds.LateBuild` | src/modules/crashLive/crash-live.service.ts:108-184 | such runs exist: a build that outlasts the wait makes the next round run with the settled participants of the one before |
| `CrashRounds.CrashLiveService.constructor` | src/modules/crashLive/crash-live.service.ts:53-64 | bootstrap leaves round 1 waiting with its participants in place |
| `CrashRounds.CrashLiveService.TickTimer` | src/modules/crashLive/crash-live.service.ts:108-158 | the branches and writes of a tick have the effect of the phase machine's step |
| `CrashRounds.CrashLiveService.StartWaitingRound` | src/modules/crashLive/crash-live.service.ts:175-184 | up to its await, a new round waits with the old participants still in place |
| `CrashRounds.CrashLiveService.FinishBuild` | src/modules/crashLive/crash-live.service.ts:184-184 | the table goes to the round that was built, whatever round and phase have been reached since; it is the current one's exactly if that round is current |
| `CrashRounds.CrashLiveService.GetSnapshot` | src/modules/crashLive/crash-live.service.ts:83-106 | shows the joined participants and the sum of their stakes |
| `EarnVault.FixedIsAccruedAtEnd` | src/modules/earnVault/earn-vault.logic.ts:89-109 | a fixed plan's reward is the accrual formula taken at its end date |
| `EarnVault.PerformKeeps` | src/modules/earnVault/earn-vault.service.ts:123-292 | each call keeps the vault sound, its net worth, and every position that has left active |
| `EarnVault.NetWorthIsConstant` | src/modules/earnVault/earn-vault.service.ts:81-292 | over every run the summary's available + vault balance - claimed reward is constant, the balance is not negative, at most 25 positions are active, and each leaves active at most once |
| `EarnVault.FlagsPredict` | src/modules/earnVault/earn-vault.service.ts:325-352 | the two flags exclude each other, cover every active position and predict which call succeeds at that instant, and what a claim pays |
| `EarnVault.ClaimableFromEnd` | src/modules/earnVault/earn-vault.logic.ts:121-125 | an active position can be claimed exactly from its start plus its days on, a flexible one always, and unstaked exactly until then |
| `EarnVault.ClaimPays` | src/modules/earnVault/earn-vault.service.ts:212-292 | a claim pays the amount and, to the nearest cent, the yearly rate on it for its days, or for the time passed if flexible; an early exit pays the amount alone |
| `EarnVault.CreateTakes` | src/modules/earnVault/earn-vault.service.ts:136-210 | a position is opened exactly for one of the four plans, a whole number of cents within its limits and the balance, and fewer than 25 active ones; it starts now, on the plan's terms |
| `EarnVault.SavingsReturn` | src/modules/earnVault/earn-vault.service.ts:136-252 | round trip: whatever other positions do meanwhile, what was put into a plan can be claimed exactly from the plan's days on, with the plan's interest |
| `EarnVault.SummaryForetells` | src/modules/earnVault/earn-vault.service.ts:81-121 | the two reward lines are what a claim would add now and what an early exit would forgo |
| `EarnVault.EarnVaultService.GetSummary` | src/modules/earnVault/earn-vault.service.ts:81-121 | the summary's lines add up to the vault's net worth |
| `EarnVault.EarnVaultService.CountActivePositions` | src/modules/earnVault/earn-vault.service.ts:318-323 | counts the active positions |
| `EarnVault.EarnVaultService.CreatePosition` | src/modules/earnVault/earn-vault.service.ts:136-210 | moves the amount into a position, or refuses an unknown plan, a bad amount, a short balance or a 26th position |
| `EarnVault.EarnVaultService.ClaimPosition` | src/modules/earnVault/earn-vault.service.ts:212-252 | pays amount and reward exactly from the position's end on, else refuses |
| `EarnVault.EarnVaultService.UnstakePosition` | src/modules/earnVault/earn-vault.service.ts:254-292 | returns the amount of a fixed position exactly before its end, else refuses |
| `Deposits.LevelIsHighestReached` | src/modules/partners/partner.service.ts:693-703 | for ascending thresholds the scan finds the highest level reached, or keeps the starting one |
| `Deposits.LevelServesExactly` | src/modules/partners/partner.service.ts:693-703 | the scan stores the highest level reached for every total if and only if thresholds never decrease from one level to the next |
| `Deposits.CreditedExactlyOnce` | src/modules/payments/skinsback.service.ts:202-326 | for any webhooks in any order, with repeats and changed amounts: each deposit is credited at most once and stays credited; balances, deposit totals and partner totals move by exactly the credits; a user's first-deposit postback goes with the first credit only |
| `Deposits.CreditKeepsBalanced` | src/modules/payments/skinsback.service.ts:258-288 | one credit moves the user's balance and total, and the partner's total and level, by what it records |
| `Deposits.CreditKeepsExactlyOnce` | src/modules/payments/skinsback.service.ts:232-288 | one credit keeps deposits and credits one to one |
| `Deposits.CreditGoesToOwner` | src/modules/payments/skinsback.service.ts:202-298 | a credit goes to the uncredited deposit that carries the payload's order id, or without one its transaction id, and to that deposit's user; the total of a parent other than the user grows by the amount, and no other user or profile changes |
| `Deposits.CreditedIffDue` | src/modules/payments/skinsback.service.ts:202-298 | a credit is made exactly when the first deposit that carries the id is uncredited and not contradicted, its user exists, and the payload is a success with an amount |
| `Deposits.WebhookReplies` | src/modules/payments/skinsback.service.ts:196-231 | an id no deposit carries is not found, a missing or contradicting one refused, and neither changes anything |
| `Deposits.RetryChangesNothing` | src/modules/payments/skinsback.service.ts:196-326 | the same webhook again is accepted again, with the same status, and changes nothing |
| `Deposits.NewDepositIsCredited` | src/modules/payments/skinsback.service.ts:91-298 | the success of a newly requested deposit credits its user amount and bonus |
| `Deposits.TransactionBinds` | src/modules/payments/skinsback.service.ts:223-239 | a deposit once bound to a transaction keeps to it over every run |
| `Deposits.BonusByTier` | src/modules/vip/vip-rewards.logic.ts:65-205 | a deposit's bonus is the tier's rate to the nearest cent up to its cap, from the tier's least amount on |
| `Deposits.BonusFallsIff` | src/modules/payments/skinsback.service.ts:374-387 | more experience means a smaller bonus exactly for a deposit below the least amount of the higher tier but not of the lower one |
| `Deposits.PartnerLevelIsHighest` | src/modules/partners/partner.service.ts:673-715 | after any run a credited partner stands at the highest level the total reaches |
| `Deposits.LastWebhookWins` | src/modules/payments/skinsback.service.ts:250-299 | status and a positive amount follow the latest accepted webhook alone; ids, once set, and the user stay |
| `Deposits.LastWebhookDecides` | src/modules/payments/skinsback.service.ts:250-299 | after any run a deposit has the status of the last accepted webhook that found it, so even a credited one reads success exactly when that webhook was a success with a positive amount |
| `Deposits.CreditedYetWaiting` | src/modules/payments/skinsback.service.ts:250-299 | so a credited deposit can end up waiting, showing an amount never credited |
| `Deposits.CreditedFlag` | src/modules/payments/skinsback.service.ts:321-321 | the reply claims a credit exactly when one was made or the amount was unusable |
| `Deposits.SkinsbackService.HandleWebhook` | src/modules/payments/skinsback.service.ts:196-326 | the sequence of writes and branches has the effect of one webhook, and reports the first-deposit postback |
| `Deposits.SkinsbackService.CreditUser` | src/modules/payments/skinsback.service.ts:258-288 | the crediting writes have the effect of one credit |
| `Deposits.SkinsbackService.RecordReferralDeposit` | src/modules/partners/partner.service.ts:717-786 | adds the amount to the partner's total, recomputes the level, and produces a postback only for a first deposit |
| `Deposits.SkinsbackService.RecomputeLevel` | src/modules/partners/partner.service.ts:673-715 | the loop stores the scanned level, and leaves a partner without a profile alone |
| `RefreshTokens.RefreshRotates` | src/modules/auth/auth.service.ts:70-166 | a refresh succeeds exactly for a verified token of an allowed account whose row is live, and then consumes that row, adds one and touches no other |
| `RefreshTokens.BlockedRefreshConsumes` | src/modules/auth/auth.service.ts:136-143 | a blocked account still loses the token it presented |
| `RefreshTokens.OneTokenPerLogin` | src/modules/auth/auth.service.ts:60-166 | with calls one at a time, each login has at most one unspent descendant in every run: rotation never forks |
| `RefreshTokens.DeadStays` | src/modules/auth/auth.service.ts:70-276 | no call revives a consumed, revoked or deleted token |
| `RefreshTokens.NoTokenTwice` | src/modules/auth/auth.service.ts:70-166 | with calls one at a time, no token succeeds twice, whatever runs in between |
| `RefreshTokens.ReuseRevokesAll` | src/modules/auth/auth.service.ts:118-129 | presenting a consumed, unrevoked token leaves its user no live token and other users' rows alone, the response of section 10.4 of RFC 6749 |
| `RefreshTokens.ReuseEndsAllSessions` | src/modules/auth/auth.service.ts:118-129 | for the rest of the run only tokens descending from a later login work |
| `RefreshTokens.ReuseNoticedIffUnrevoked` | src/modules/auth/auth.service.ts:103-129 | presenting a consumed token leaves its user no unspent row if and only if its row was unrevoked or there was none before |
| `RefreshTokens.RevokedReuseIsSilent` | src/modules/auth/auth.service.ts:103-116 | a token whose row is already revoked is refused and changes nothing |
| `RefreshTokens.SilentReuse` | src/modules/auth/auth.service.ts:103-129 | such runs exist: after revoking other sessions, a consumed token presented again leaves the current session live |
| `RefreshTokens.OthersRevoked` | src/modules/auth/auth.service.ts:264-276 | afterwards the current row is the only one that can be unrevoked |
| `RefreshTokens.LoginLastsSevenDays` | src/modules/auth/auth.service.ts:60-66 | a login of an allowed account, and no other, hands out a token that refreshes exactly for the next seven days |
| `RefreshTokens.LogoutSpends` | src/modules/auth/auth.service.ts:172-197 | a logout spends the presented token if it is verified and its user's own, and changes no other row |
| `RefreshTokens.RevokeSessionSpends` | src/modules/auth/auth.service.ts:252-262 | revoking a session works exactly on a row of the user, and spends that row alone |
| `RefreshTokens.RevokeOthersSpends` | src/modules/auth/auth.service.ts:199-276 | revoking all or all other sessions leaves the user no unspent row but the current one, and nobody else's rows change |
| `RefreshTokens.CleanupDropsExpired` | src/modules/auth/auth.service.ts:358-363 | a clean-up removes exactly the user's expired rows and ends nobody's session |
| `RefreshTokens.SessionsAreRefreshable` | src/modules/auth/auth.service.ts:227-250 | the session list is exactly the rows whose token would refresh now |
| `RefreshTokens.SessionsHaveDistinctLogins` | src/modules/auth/auth.service.ts:227-250 | after any run the listed sessions stem from distinct logins |
| `RefreshTokens.AuthService.Login` | src/modules/auth/auth.service.ts:60-66 | issues a row for an allowed account and refuses any other |
| `RefreshTokens.AuthService.RefreshToken` | src/modules/auth/auth.service.ts:70-166 | the checks and writes, in their order, have the effect of one refresh |
| `RefreshTokens.AuthService.Logout` | src/modules/auth/auth.service.ts:172-197 | revokes the presented row if it is verified, owned and unrevoked, and never fails |
| `RefreshTokens.AuthService.RevokeAllForUser` | src/modules/auth/auth.service.ts:199-204 | afterwards the user has no unspent row, and rows of others are as they were |
| `RefreshTokens.AuthService.RevokeSession` | src/modules/auth/auth.service.ts:252-262 | revokes one row of the user, refusing unknown or foreign ids |
| `RefreshTokens.AuthService.RevokeOtherSessions` | src/modules/auth/auth.service.ts:264-276 | the loop revokes all unrevoked rows of the user but the current one and counts them |
| `RefreshTokens.AuthService.ListActiveSessions` | src/modules/auth/auth.service.ts:227-250 | for an allowed account every listed id would refresh now, and no other row of the user would |
| `RefreshTokens.AuthService.SignAndStorePair` | src/modules/auth/auth.service.ts:322-356 | adds one unspent row under an id never issued before |
| `RefreshTokens.AuthService.DeleteExpired` | src/modules/auth/auth.service.ts:358-363 | the user's expired rows go, all others stay as they are, and nobody's session list changes, now or later |
| `RefreshRaces.AloneIsAtomic` | src/modules/auth/auth.service.ts:70-166 | a refresh that nothing overlaps, taken statement by statement, has the effect of the one-step refresh |
| `RefreshRaces.RevokeAloneIsAtomic` | src/modules/auth/auth.service.ts:252-262 | so has a revocation |
| `RefreshRaces.OtherIsOneStatement` | src/modules/auth/auth.service.ts:199-204 | logins, bulk revocations, clean-ups and blocks happen at once |
| `RefreshRaces.DeadStaysInRaces` | src/modules/auth/auth.service.ts:103-276 | even calls that overlap, and save a row as they once read it, never revive a spent token |
| `RefreshRaces.ConsumedOnceIffNoneOvertaken` | src/modules/auth/auth.service.ts:103-134 | under any interleaving a token is consumed at most once if and only if no refresh of it reads its row before another one saves it and saves it after |
| `RefreshRaces.SuccessNeedsConsumption` | src/modules/auth/auth.service.ts:103-166 | each success of a token needs a consumption of its own |
| `RefreshRaces.OneSuccessIfNoneOvertaken` | src/modules/auth/auth.service.ts:103-166 | so in such interleavings no token succeeds twice |
| `RefreshRaces.NoForkIfNoneOvertaken` | src/modules/auth/auth.service.ts:70-276 | and no login ever has two unspent tokens, whatever logins, logouts, revocations and clean-ups come between |
| `RefreshRaces.OverlappingRefreshes` | src/modules/auth/auth.service.ts:103-166 | such overlaps exist: two refreshes of one token at once both succeed and leave two live tokens of one login |
| `SocketBudget.WindowBudget` | src/modules/clickerUser/clicker-user.gateway.ts:662-708 | over any packets of any users, no window accepts more than 40 packets or 32 KiB of one user |
| `SocketBudget.WindowIsExact` | src/modules/clickerUser/clicker-user.gateway.ts:678-705 | within a window a packet is accepted if and only if it is among the first 40 and the sizes up to it do not exceed 32 KiB |
| `SocketBudget.ExpiredIsNotCharged` | src/modules/clickerUser/clicker-user.gateway.ts:662-676 | a packet is turned away as expired exactly on an expired socket, and is then not charged |
| `SocketBudget.IntervalBudget` | src/modules/clickerUser/clicker-user.gateway.ts:662-708 | any stretch of 1000 ms accepts at most 80 packets and 64 KiB of one user |
| `SocketBudget.IntervalPackets` | src/modules/clickerUser/clicker-user.gateway.ts:678-691 | exactly, any 1000 ms accepts at most 79 packets, since a window is opened by a packet of its own |
| `SocketBudget.WindowEdgeBurst` | src/modules/clickerUser/clicker-user.gateway.ts:678-691 | that bound is reached: 79 packets within two milliseconds can all be accepted |
| `SocketBudget.RejectionLasts` | src/modules/clickerUser/clicker-user.gateway.ts:688-705 | rejected packets count: a window that has rejected one accepts nothing more |
| `SocketBudget.UsersAreIsolated` | src/modules/clickerUser/clicker-user.gateway.ts:678-691 | what is accepted of a user depends on that user's packets alone |
| `SocketBudget.ClickerUserGateway.GuardSocketEvent` | src/modules/clickerUser/clicker-user.gateway.ts:662-708 | an expired socket is refused without being charged; otherwise the current or a fresh window is charged and the limits decide |
| `ClickerProgress.ScanFindsTier` | src/modules/clickerUser/clicker-user.service.ts:609-619 | for a catalogue whose thresholds do not decrease from the current level on, the incremental scan finds the higher of the current level and the highest tier reached |
| `ClickerProgress.ScanServesExactly` | src/modules/clickerUser/clicker-user.service.ts:609-619 | for a catalogue sorted by id, the scan from a current level finds the higher of that level and the tier of every total if and only if thresholds never decrease from that level on |
| `ClickerProgress.UnorderedCatalogueMissesTier` | src/modules/clickerUser/clicker-user.service.ts:612-619 | an example of thresholds out of order, and the tier missed |
| `ClickerProgress.NeverDemoted` | src/modules/clickerUser/clicker-user.service.ts:586-624 | no run, and no catalogue, takes a level or lifetime total back or makes points negative |
| `ClickerProgress.LevelIsTierOfTotal` | src/modules/clickerUser/clicker-user.service.ts:586-624 | for such a catalogue, after any run that touched the profile the level is the higher of the starting level and the tier of the lifetime total |
| `ClickerProgress.PointsAddUp` | src/modules/clickerUser/clicker-user.service.ts:541-740 | over any run points are what was gained and lost plus what losses beyond the points there were let off, and the lifetime total is what was gained |
| `ClickerProgress.ProgressIsSum` | src/modules/clickerChallenges/clicker-challenges.service.ts:381-443 | until claimed, progress is the sum of its steps capped at the first event's target, completed exactly when the sum reaches it |
| `ClickerProgress.StepsReachCounts` | src/modules/clickerChallenges/clicker-challenges.service.ts:386-390 | capping each step loses nothing when the target is fixed |
| `ClickerProgress.FixedTargetProgress` | src/modules/clickerChallenges/clicker-challenges.service.ts:381-443 | with a fixed target, progress is the total count capped at the target, in any order of events |
| `ClickerProgress.ClaimedStaysFrozen` | src/modules/clickerChallenges/clicker-challenges.service.ts:414-440 | a claimed row never changes again |
| `ClickerProgress.PaidOnce` | src/modules/clickerChallenges/clicker-challenges.service.ts:244-322 | the reward is paid exactly when the row becomes claimed, so at most once |
| `ClickerProgress.ClaimAcceptedIff` | src/modules/clickerChallenges/clicker-challenges.service.ts:219-322 | a claim pays exactly when its row is completed; a claimed row is a conflict; a refused claim changes nothing |
| `ClickerProgress.ClickerService.GrantPoints` | src/modules/clickerUser/clicker-user.service.ts:541-650 | a zero delta is refused; otherwise points, lifetime total and level move as one grant |
| `ClickerProgress.ClickerService.GrantWheelRewardPoints` | src/modules/clickerUser/clicker-user.service.ts:665-740 | as a grant, refusing amounts that are not positive |
| `ClickerProgress.ClickerService.Reanchor` | src/modules/clickerUser/clicker-user.service.ts:586-624 | the loop with its skip and its break stores the scanned level |
| `ClickerProgress.ClickerService.IncrementProgress` | src/modules/clickerChallenges/clicker-challenges.service.ts:381-443 | the upsert's insert and update branches |
| `ClickerProgress.ClickerService.ClaimReward` | src/modules/clickerChallenges/clicker-challenges.service.ts:219-322 | refuses missing, unfinished and claimed rows; otherwise pays the reward and freezes the row |
| `LimitedCopies.StageMovesCopies` | src/modules/cases/case.service.ts:733-760 | one step of an open moves its copies between shelf, in flight, sold and lost without creating any |
| `LimitedCopies.SupplyConserved` | src/modules/cases/case.service.ts:814-888 | under any interleaving remaining + in flight + sold + lost by failed restores equals the supply, and remaining is never negative |
| `LimitedCopies.NeverOversold` | src/modules/clickerCase/clicker-cases.service.ts:242-267 | no more skins drop than copies left the shelf |
| `LimitedCopies.BalancesStayNonNegative` | src/modules/users/users.service.ts:1245-1264 | no interleaving of charges makes a balance negative |
| `LimitedCopies.EveryCentAccountedFor` | src/modules/users/users.service.ts:1245-1264 | under any interleaving of opens with other writes of the balance (wins, stakes, deposits), balance = initial + those writes - price of what was sold - what the charges overwrote; exact if and only if the overwritten writes, those between a charge's read and its own write, net to zero |
| `LimitedCopies.LostWin` | src/modules/users/users.service.ts:1245-1264 | such losses exist: a win paid during a charge is written away |
| `LimitedCopies.NeverOvercharged` | src/modules/users/users.service.ts:1245-1264 | under any interleaving of opens alone a user is never charged more than the price of what was sold |
| `LimitedCopies.ChargesAreExact` | src/modules/users/users.service.ts:1245-1264 | over any interleaving of opens alone the balance falls by exactly the price of every sold open that was not free if and only if the case costs nothing or no charge of the user succeeds between another one's read and its own write |
| `LimitedCopies.SoldMeansPaid` | src/modules/users/users.service.ts:1245-1264 | in particular, for opens alone, it does while one charge of the user runs at a time |
| `LimitedCopies.SoldOnlyAfterCharge` | src/modules/cases/case.service.ts:863-888 | an open turns into a sale only by being free or by a charge that succeeded and was covered by the balance it read |
| `LimitedCopies.SoloOpen` | src/modules/cases/case.service.ts:814-888 | a request is let in exactly for 1 to 5 opens of a case on sale; by itself it drops all its skins for the full price, or free, exactly when the shelf holds its copies and the balance its price, and else balance and shelf end as they were |
| `LimitedCopies.FailedChargeRestores` | src/modules/cases/case.service.ts:863-888 | a charge that fails takes nothing, and a restore that works puts the copies back |
| `LimitedCopies.OffSale` | src/modules/cases/case.service.ts:733-750 | a case taken off sale lets nobody in and gives out no more limited copies |
| `LimitedCopies.OverlappingCharges` | src/modules/users/users.service.ts:1245-1264 | two overlapping charges of one user can sell two opens for one price |
| `Giveaways.Unique` | src/modules/giveaways/giveaways.service.ts:167-167 | removes repeats, keeps all ids, and changes nothing in a list without repeats |
| `Giveaways.Pick` | src/modules/giveaways/giveaways.logic.ts:1-15 | a draw names some element of the list, and none only of an empty one |
| `Giveaways.PickAt` | src/modules/giveaways/giveaways.logic.ts:1-15 | each of n positions is picked on an equal stretch of the random numbers: position i from i/n to (i+1)/n |
| `Giveaways.DrawIsEven` | src/modules/giveaways/giveaways.service.ts:245-306 | so each participant of an expired giveaway wins on an equal stretch of the random numbers |
| `Giveaways.HashToWord` | src/modules/giveaways/giveaways.logic.ts:85-94 | the loop of xor and 32-bit multiplication computes the hash of the key |
| `Giveaways.HashVectors` | src/modules/giveaways/giveaways.logic.ts:85-94 | the hash gives the published FNV-1a values of the empty string and of a |
| `Giveaways.BotTargetRange` | src/modules/giveaways/giveaways.logic.ts:85-107 | the bot target stays in the tier's range for every hash word but the largest, which gives one more |
| `Giveaways.BotTargetShare` | src/modules/giveaways/giveaways.logic.ts:96-107 | each target above the least takes an equal stretch of hash words |
| `Giveaways.JoinsIffBehind` | src/modules/giveaways/giveaways.logic.ts:109-134 | a bot joins if and only if the bots, plus a random part of one, lie below the elapsed share of the target |
| `Giveaways.JoinWithinPace` | src/modules/giveaways/giveaways.logic.ts:109-134 | a bot is let in only while the bots stay within the elapsed share of the target, rounded up |
| `Giveaways.RunKeepsSound` | src/modules/giveaways/giveaways.service.ts:137-306 | over any run participants stay distinct and counted, a winner is one of them, and each completed giveaway has exactly one prize row, its winner's |
| `Giveaways.FinalizeSettles` | src/modules/giveaways/giveaways.service.ts:245-306 | no expired giveaway is left active; it is completed unless it had no participant or the draw named id 0; no other giveaway changes |
| `Giveaways.FinishedStays` | src/modules/giveaways/giveaways.service.ts:245-306 | a finished giveaway never changes again, so it is finalised and awarded once |
| `Giveaways.CancelledForGood` | src/modules/giveaways/giveaways.service.ts:363-373 | a running giveaway can be cancelled and is then never won |
| `Giveaways.ParticipateJoins` | src/modules/giveaways/giveaways.service.ts:137-197 | a user joins exactly a running giveaway, once, if known and with enough deposits, at the end of the list; else nothing changes |
| `Giveaways.DecisionIff` | src/modules/giveaways/giveaways.service.ts:417-497 | a job decides on a bot exactly while the giveaway runs, its bots lag behind, and some bot has not joined; it names such a bot |
| `Giveaways.JobDecidesForEach` | src/modules/giveaways/giveaways.service.ts:417-479 | a job decides once for each giveaway it finds a bot for, and for no other |
| `Giveaways.JobIsItsSteps` | src/modules/giveaways/giveaways.service.ts:417-479 | taken step by step a job adds its decisions for the giveaways as it first read them |
| `Giveaways.AddedIff` | src/modules/giveaways/giveaways.service.ts:538-588 | a decision is carried out exactly if the giveaway was running, the bot has not joined meanwhile and the target leaves room |
| `Giveaways.BotCountMeaning` | src/modules/giveaways/giveaways.service.ts:538-588 | bots are the participants that have a bot profile |
| `Giveaways.AdditionKeepsPace` | src/modules/giveaways/giveaways.service.ts:564-582 | adding a bot keeps the pace of the moment it was decided on exactly when there is still room then, which the addition does not check again |
| `Giveaways.OvershootIsOverlaps` | src/modules/giveaways/giveaways.service.ts:417-588 | however many jobs run at once, bots and pending bots exceed the elapsed share of the target, rounded up, by at most the number of decisions taken while another one for that giveaway was pending |
| `Giveaways.BotsKeepPace` | src/modules/giveaways/giveaways.service.ts:417-588 | so with one maintenance job at a time they never exceed it, whatever happens in between |
| `Giveaways.PaceWithinTarget` | src/modules/giveaways/giveaways.logic.ts:109-134 | that share never exceeds the target |
| `Giveaways.BotsWithinTarget` | src/modules/giveaways/giveaways.service.ts:538-588 | however many jobs run at once, bots never exceed the target |
| `Giveaways.OverlappingJobs` | src/modules/giveaways/giveaways.service.ts:417-497 | such overshoots exist: two jobs at once run ahead by one bot |
| `Giveaways.GiveawaysService.FinalizeExpiredGiveaways` | src/modules/giveaways/giveaways.service.ts:231-306 | the loop settles every expired giveaway once and returns the prize rows it added |
| `Giveaways.GiveawaysService.FinalizeGiveaway` | src/modules/giveaways/giveaways.service.ts:258-297 | one turn of that loop |
| `Giveaways.GiveawaysService.Participate` | src/modules/giveaways/giveaways.service.ts:137-197 | finalises first, then applies the checks in order and appends the user once |
| `Giveaways.GiveawaysService.DecideBots` | src/modules/giveaways/giveaways.service.ts:417-479 | one job decides for every giveaway from the giveaways as it first read them |
| `Giveaways.GiveawaysService.AddBotParticipant` | src/modules/giveaways/giveaways.service.ts:538-588 | re-checks existence, status, membership and target under the lock before appending the bot |

## Left out

- JavaScript floating point: values are exact, so the error of a double before rounding (which the source corrects with `Number.EPSILON`) is not modelled, nor are stakes in fractions of a cent.
- Request validation by DTO decorators; a Mines start on an invalid board is refused, and the request's `mode` field is read as the choice between a balance and an inventory stake.
- `GameLedger`: the tables are those of one user and one board size; foreign session ids are simply not found. The unlocked charge of a case opening in between is the subject of `LimitedCopies`. VIP earnings, session listings, public views and live-drop publishing are not part of it.
- The curve of `getCrashRoundMultiplier` is any growing function from 1.00 on, and `generateCrashPoint` any value of at least 1.00.
- Building bot participants: their stakes, targets and profiles are inputs of `CrashRounds`; the wave anchors and jitter of `scheduleCrashParticipantJoins` are arbitrary numbers before the clamp.
- `Idempotency`: which run an answer came from is recorded only for runs in which nobody overruns the processing TTL; key trimming, the 160-character cut and the digest of the Redis key; callers without a key, who run the handler directly; an entry that cannot be parsed; a write that succeeds although its reply is lost.
- `CaseLottery`: hydration of Dota skins is the field that says whether a row's skin was found; a chance has at most two decimals, as its column does.
- `LimitedCopies`: opens are a state machine over their steps rather than a class, since their interleaving is the point; one case with one price; VIP earnings, history, challenge tracking and live drops that follow an open; the clicker's point deduction, whose Lua code is not part of this model, is taken as a charge like the other.
- `EarnVault`: progress percentages, position listings and the idempotency wrapper of creation.
- `Deposits`: signatures and configuration, provider payload and failure texts, creating a deposit at the provider (here one step, so that no webhook overtakes the save of its answer), campaign statistics, CPM impressions, notifications, and delivery of the postback.
- `RefreshTokens`: calls run one at a time, and overlapping ones are `RefreshRaces`; comparing a jti with each bcrypt hash is a lookup by jti; a row's id and its jti are one number; access tokens, IP addresses and the admin copy of the service.
- `RefreshRaces`: revoking other sessions is a series of single revocations, chosen when each begins rather than by one query; the row lookup and the checks before the first save are one step.
- `SocketBudget`: measuring a payload, disconnecting a socket and the upgrade cooldown.
- `ClickerProgress`: points spent through the Redis engine, flushing it, matching events against challenge conditions, and history rows. The state is one player's.
- `Giveaways`: picking a prize, creating and cancelling cycles (each one unconditional step here, without the unlocked read before it), the deposit window sum (the eligible amount is an input), and notifications. Printing an id as the key that is hashed is not modelled: a giveaway carries its hash word.
- `ProvablyFair`: listing a user's games; seeds are inputs of the generator.
- Admin listings, search, reporting, news, notifications and pagination: queries without a hard property.
