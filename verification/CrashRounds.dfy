/** The live Crash service: a timer-driven phase machine with an asynchronous gap, since a
    new round starts waiting before its participants are built
    (src/modules/crashLive/crash-live.service.ts). */
module CrashRounds {
  import opened CrashParticipants
  import opened Sequences

  const RESET_MS := 3200
  const HISTORY_LIMIT := 16

  /** `pending` holds the rounds whose participants are still being built. `dealt` and
      `ticks` remember, for the round in progress, its participants when it started running
      and the multiplier computed on each tick since. */
  datatype Live = Live(
    clock: int,
    phase: Phase,
    roundId: int,
    phaseStartedAt: int,
    currentMultiplier: int,
    countdownMs: int,
    crashPoint: Option<int>,
    participants: seq<Participant>,
    roundHistory: seq<int>,
    pending: set<int>,
    dealt: seq<Participant>,
    ticks: seq<int>)

  /** `dt` is the time since the last event; `draw` what `generateCrashPoint` would return. */
  datatype Event = Tick(dt: nat, draw: int) | BuildDone(round: int, built: seq<Participant>)

  /** `getCrashRoundMultiplier`, of which only growth from 1.00 matters. */
  ghost predicate Growth(curve: int -> int)
  {
    (forall e :: curve(e) >= 100) && forall e, f :: e <= f ==> curve(e) <= curve(f)
  }

  function Push(point: int, history: seq<int>): (h: seq<int>)
    ensures |h| == if |history| < HISTORY_LIMIT then |history| + 1 else HISTORY_LIMIT
    ensures h[0] == point && forall i :: 1 <= i < |h| ==> h[i] == history[i - 1]
  {
    if |history| < HISTORY_LIMIT then [point] + history else [point] + history[..HISTORY_LIMIT - 1]
  }

  function StartRunning(s: Live, draw: int): (t: Live)
  {
    s.(phase := Running, phaseStartedAt := s.clock, currentMultiplier := 100, crashPoint := Some(draw),
       dealt := s.participants, ticks := [])
  }

  function StartWaiting(s: Live): (t: Live)
  {
    s.(phase := Waiting, roundId := s.roundId + 1, phaseStartedAt := s.clock, countdownMs := WAIT_MS,
       currentMultiplier := 100, crashPoint := None, pending := s.pending + {s.roundId + 1})
  }

  function CountDown(s: Live, draw: int): (t: Live)
  {
    var left := WAIT_MS - (s.clock - s.phaseStartedAt);
    var counted := s.(countdownMs := if left > 0 then left else 0);
    if counted.countdownMs <= 0 then StartRunning(counted, draw) else counted
  }

  function TickEffect(s0: Live, dt: nat, draw: int, curve: int -> int): (t: Live)
  {
    var s := s0.(clock := s0.clock + dt);
    var elapsed := s.clock - s.phaseStartedAt;
    match s.phase
    case Waiting => CountDown(s, draw)
    case Running =>
      var m := curve(elapsed);
      var moved := s.(currentMultiplier := m, participants := CashOutDue(s.participants, m), ticks := s.ticks + [m]);
      if s.crashPoint.Some? && m >= s.crashPoint.value then
        moved.(currentMultiplier := s.crashPoint.value,
               participants := Settle(moved.participants, s.crashPoint.value),
               roundHistory := Push(s.crashPoint.value, s.roundHistory),
               phase := Over,
               phaseStartedAt := s.clock)
      else moved
    case Over => if elapsed >= RESET_MS then StartWaiting(s) else s
  }

  function Happen(s: Live, e: Event, curve: int -> int): (t: Live)
  {
    match e
    case Tick(dt, draw) => TickEffect(s, dt, draw, curve)
    case BuildDone(round, built) =>
      if round in s.pending then s.(participants := built, pending := s.pending - {round}) else s
  }

  function RunEvents(s: Live, events: seq<Event>, curve: int -> int): (t: Live)
    decreases |events|
  {
    if events == [] then s else RunEvents(Happen(s, events[0], curve), events[1..], curve)
  }

  // ----- What the inputs are assumed to be -----

  ghost predicate GoodBuild(round: int, built: seq<Participant>)
  {
    Joining(built) && forall p :: p in built ==> p.round == round && Fresh(p)
  }

  /** Crash points are at least 1.00, and a build delivers fresh participants of its round
      with joins scheduled inside the wait. */
  ghost predicate GoodEvent(e: Event)
  {
    match e
    case Tick(_, draw) => draw >= 100
    case BuildDone(round, built) => GoodBuild(round, built)
  }

  /** After bootstrap: round 1 is waiting and its participants are in place. */
  ghost predicate Booted(s: Live)
  {
    && s.phase == Waiting && s.crashPoint == None && s.currentMultiplier == 100
    && s.phaseStartedAt <= s.clock && |s.roundHistory| <= HISTORY_LIMIT
    && s.pending == {} && GoodBuild(s.roundId, s.participants)
  }

  // ----- What every reachable state satisfies -----

  ghost predicate PhaseInvariant(s: Live, curve: int -> int)
  {
    && s.phaseStartedAt <= s.clock
    && |s.roundHistory| <= HISTORY_LIMIT
    && (s.crashPoint == None <==> s.phase == Waiting)
    && (forall r :: r in s.pending ==> r <= s.roundId)
    && match s.phase
       case Waiting => s.currentMultiplier == 100
       case Running =>
         && 100 <= s.crashPoint.value
         && (s.ticks == [] ==> s.currentMultiplier == 100)
         && (s.ticks != [] ==> 100 <= s.currentMultiplier == s.ticks[|s.ticks| - 1] < s.crashPoint.value)
         && s.currentMultiplier <= curve(s.clock - s.phaseStartedAt)
         && (forall t :: t in s.ticks ==> t <= s.currentMultiplier)
       case Over =>
         && 100 <= s.crashPoint.value == s.currentMultiplier
         && s.roundHistory != [] && s.roundHistory[0] == s.crashPoint.value
         && s.ticks != [] && s.crashPoint.value <= s.ticks[|s.ticks| - 1]
         && (forall t :: t in s.ticks ==> t <= s.ticks[|s.ticks| - 1])
         && (forall k :: 0 <= k < |s.ticks| - 1 ==> s.ticks[k] < s.crashPoint.value)
  }

  lemma HappenKeepsPhase(s: Live, e: Event, curve: int -> int)
    requires Growth(curve) && GoodEvent(e) && PhaseInvariant(s, curve)
    ensures PhaseInvariant(Happen(s, e, curve), curve)
  {
    if e.Tick? && s.phase == Running {
      var elapsed := s.clock + e.dt - s.phaseStartedAt;
      var m := curve(elapsed);
      assert curve(s.clock - s.phaseStartedAt) <= m;
      forall t | t in s.ticks + [m] ensures t <= m {}
      assert forall k :: 0 <= k < |s.ticks| ==> s.ticks[k] in s.ticks;
    }
  }

  /** One event of a run: phases cycle waiting, running, crashed with the round id rising by
      one; inside a round the shown multiplier never falls, and crashing shows the crash
      point and puts it in front of the history, which nothing else changes. */
  lemma HappenShape(s: Live, e: Event, curve: int -> int)
    requires Growth(curve) && GoodEvent(e) && PhaseInvariant(s, curve)
    ensures var t := Happen(s, e, curve);
            && (|| (t.phase == s.phase && t.roundId == s.roundId)
                || (s.phase == Waiting && t.phase == Running && t.roundId == s.roundId)
                || (s.phase == Running && t.phase == Over && t.roundId == s.roundId)
                || (s.phase == Over && t.phase == Waiting && t.roundId == s.roundId + 1))
            && (t.roundId == s.roundId ==> s.currentMultiplier <= t.currentMultiplier)
            && (t.phase == s.phase ==> t.crashPoint == s.crashPoint)
            && (if s.phase == Running && t.phase == Over
                then && t.currentMultiplier == s.crashPoint.value
                     && t.roundHistory == Push(s.crashPoint.value, s.roundHistory)
                else t.roundHistory == s.roundHistory)
  {
  }

  /** Every build finishes before the wait of its round ends. */
  ghost predicate BuiltInTime(s: Live)
  {
    s.phase != Waiting ==> s.pending == {}
  }

  ghost predicate BuiltInTimeThroughout(s: Live, events: seq<Event>, curve: int -> int)
    decreases |events|
  {
    BuiltInTime(s) && (events != [] ==> BuiltInTimeThroughout(Happen(s, events[0], curve), events[1..], curve))
  }

  /** Whose participants are on the table, and what has happened to them. */
  ghost predicate TableInvariant(s: Live)
  {
    match s.phase
    case Waiting =>
      (s.pending == {} && GoodBuild(s.roundId, s.participants)) || s.pending == {s.roundId}
    case Running =>
      && s.pending == {} && GoodBuild(s.roundId, s.dealt)
      && s.participants == CashOutTicks(s.dealt, s.ticks)
    case Over =>
      && s.pending == {} && GoodBuild(s.roundId, s.dealt) && s.crashPoint.Some?
      && s.participants == Settle(CashOutTicks(s.dealt, s.ticks), s.crashPoint.value)
  }

  lemma HappenKeepsTable(s: Live, e: Event, curve: int -> int)
    requires Growth(curve) && GoodEvent(e) && PhaseInvariant(s, curve) && TableInvariant(s)
    requires BuiltInTime(Happen(s, e, curve))
    ensures TableInvariant(Happen(s, e, curve))
  {
    match e {
      case BuildDone(round, built) =>
      case Tick(dt, draw) =>
        if s.phase == Running {
          var m := curve(s.clock + dt - s.phaseStartedAt);
          assert (s.ticks + [m])[..|s.ticks|] == s.ticks;
        }
    }
  }

  lemma {:induction false} RunKeepsPhase(s: Live, events: seq<Event>, curve: int -> int)
    requires Growth(curve) && PhaseInvariant(s, curve)
    requires forall i :: 0 <= i < |events| ==> GoodEvent(events[i])
    ensures var t := RunEvents(s, events, curve);
            && PhaseInvariant(t, curve)
            && s.roundId <= t.roundId
            && (t.roundId == s.roundId ==> s.currentMultiplier <= t.currentMultiplier)
    decreases |events|
  {
    if events != [] {
      assert GoodEvent(events[0]);
      HappenKeepsPhase(s, events[0], curve);
      HappenShape(s, events[0], curve);
      assert forall i :: 0 <= i < |events[1..]| ==> events[1..][i] == events[i + 1];
      RunKeepsPhase(Happen(s, events[0], curve), events[1..], curve);
    }
  }

  lemma {:induction false} RunKeepsTable(s: Live, events: seq<Event>, curve: int -> int)
    requires Growth(curve) && PhaseInvariant(s, curve) && TableInvariant(s)
    requires forall i :: 0 <= i < |events| ==> GoodEvent(events[i])
    requires BuiltInTimeThroughout(s, events, curve)
    ensures TableInvariant(RunEvents(s, events, curve))
    decreases |events|
  {
    if events != [] {
      assert GoodEvent(events[0]);
      HappenKeepsPhase(s, events[0], curve);
      HappenKeepsTable(s, events[0], curve);
      assert forall i :: 0 <= i < |events[1..]| ==> events[1..][i] == events[i + 1];
      RunKeepsTable(Happen(s, events[0], curve), events[1..], curve);
    }
  }

  /** In every run whose builds finish in time, running and crashed participants belong to
      the current round, and a crashed round shows exactly one settlement of the participants
      it started with, at the multiplier of the crashing tick, which reached the crash point. */
  lemma CrashIsOneSettlement(s: Live, events: seq<Event>, curve: int -> int)
    requires Growth(curve) && Booted(s)
    requires forall i :: 0 <= i < |events| ==> GoodEvent(events[i])
    requires BuiltInTimeThroughout(s, events, curve)
    ensures var t := RunEvents(s, events, curve);
            && (t.phase == Running ==>
                  GoodBuild(t.roundId, t.dealt) && t.participants == CashOutTicks(t.dealt, t.ticks))
            && (t.phase == Over ==>
                  && GoodBuild(t.roundId, t.dealt) && t.ticks != [] && t.crashPoint.Some?
                  && t.crashPoint.value <= t.ticks[|t.ticks| - 1]
                  && t.participants == Settle(t.dealt, t.ticks[|t.ticks| - 1]))
            && (t.phase != Waiting ==> AllOf(t.participants, t.roundId))
  {
    var t := RunEvents(s, events, curve);
    RunKeepsPhase(s, events, curve);
    RunKeepsTable(s, events, curve);
    if t.phase == Over {
      TickingRefinesSettling(t.dealt, t.ticks, t.crashPoint.value);
      SettleKeepsRounds(t.dealt, t.ticks[|t.ticks| - 1], t.roundId);
    } else if t.phase == Running {
      TicksKeepRounds(t.dealt, t.ticks, t.roundId);
    }
  }

  /** What each participant of such a round has got: from the first tick on exactly those whose
      target the multiplier has reached are paid, at the crash by its tick's multiplier, and
      then the rest lose their stakes. */
  lemma EveryParticipantSettled(s: Live, events: seq<Event>, curve: int -> int, i: nat)
    requires Growth(curve) && Booted(s)
    requires forall k :: 0 <= k < |events| ==> GoodEvent(events[k])
    requires BuiltInTimeThroughout(s, events, curve)
    requires i < |RunEvents(s, events, curve).dealt| && RunEvents(s, events, curve).dealt[i].target >= 0
    ensures var t := RunEvents(s, events, curve);
            && (t.phase == Running && t.ticks != [] ==>
                  && |t.participants| == |t.dealt|
                  && if t.dealt[i].target <= t.currentMultiplier then CashedOutAtTarget(t.dealt[i], t.participants[i])
                     else t.participants[i] == t.dealt[i])
            && (t.phase == Over ==>
                  && t.ticks != [] && |t.participants| == |t.dealt|
                  && if t.dealt[i].target <= t.ticks[|t.ticks| - 1]
                     then CashedOutAtTarget(t.dealt[i], t.participants[i])
                     else LostStake(t.dealt[i], t.participants[i]))
  {
    var t := RunEvents(s, events, curve);
    CrashIsOneSettlement(s, events, curve);
    RunKeepsPhase(s, events, curve);
    if t.phase == Over {
      SettledOutcome(t.dealt, t.ticks[|t.ticks| - 1], i);
    } else if t.phase == Running && t.ticks != [] {
      TicksOutcome(t.dealt, t.ticks, t.currentMultiplier, i);
    }
  }

  /** When phases end: waiting after 15 seconds, a run when the curve reaches the crash point,
      which was drawn at its start, and the pause after a crash after 3.2 seconds. */
  lemma PhasesEndOnTime(s: Live, dt: nat, draw: int, curve: int -> int)
    requires s.crashPoint.Some? <==> s.phase != Waiting
    ensures var t := Happen(s, Tick(dt, draw), curve);
            var elapsed := s.clock + dt - s.phaseStartedAt;
            && t.clock == s.clock + dt
            && (t.phase == s.phase ==> t.phaseStartedAt == s.phaseStartedAt && t.crashPoint == s.crashPoint)
            && (t.phase != s.phase ==> t.phaseStartedAt == t.clock)
            && match s.phase
               case Waiting =>
                 && (t.phase == Running <==> elapsed >= 15_000) && (t.phase != Running ==> t.phase == Waiting)
                 && (t.phase == Running ==> t.crashPoint == Some(draw) && t.currentMultiplier == 100)
                 && t.countdownMs == if elapsed < 15_000 then 15_000 - elapsed else 0
               case Running =>
                 && (t.phase == Over <==> curve(elapsed) >= s.crashPoint.value)
                 && (t.phase != Over ==> t.phase == Running && t.currentMultiplier == curve(elapsed))
                 && (t.phase == Over ==> t.currentMultiplier == s.crashPoint.value)
               case Over =>
                 && (t.phase == Waiting <==> elapsed >= 3_200) && (t.phase != Waiting ==> t.phase == Over)
                 && (t.phase == Waiting ==>
                       && t.roundId == s.roundId + 1 && t.countdownMs == 15_000 && t.currentMultiplier == 100
                       && t.roundId in t.pending)
  {
  }

  /** The participants a snapshot shows. */
  function Shown(s: Live): (shown: seq<Participant>)
  {
    Visible(s.participants, s.clock - s.phaseStartedAt, s.phase)
  }

  /** Everybody once the round runs; while waiting those who have joined by now. */
  lemma ShownHaveJoined(s: Live)
    ensures forall p :: p in Shown(s) <==>
              p in s.participants && (s.phase == Waiting ==> p.joinOffset <= s.clock - s.phaseStartedAt)
  {
    VisibleOnceJoined(s.participants, s.clock - s.phaseStartedAt);
  }

  lemma PotByThen(ps: seq<Participant>, earlier: int, later: int)
    requires Joining(ps) && earlier <= later
    ensures Pot(Visible(ps, earlier, Waiting)) <= Pot(Visible(ps, later, Waiting))
    ensures later >= WAIT_MS ==> Visible(ps, later, Waiting) == ps
  {
    PotGrows(ps, earlier, later);
    if later >= WAIT_MS {
      AllJoined(ps, later);
    }
  }

  ghost predicate AllOf(ps: seq<Participant>, round: int)
  {
    forall p :: p in ps ==> p.round == round
  }

  lemma SettleKeepsRounds(ps: seq<Participant>, multiplier: int, round: int)
    requires AllOf(ps, round)
    ensures AllOf(Settle(ps, multiplier), round)
  {
  }

  lemma {:induction false} TicksKeepRounds(ps: seq<Participant>, ticks: seq<int>, round: int)
    requires forall p :: p in ps ==> p.round == round
    ensures forall i :: 0 <= i < |ps| ==> CashOutTicks(ps, ticks)[i].round == round
  {
    if ticks != [] {
      TicksKeepRounds(ps, ticks[..|ticks| - 1], round);
    }
  }

  // ----- Whole rounds -----

  /** Rounds and phases in the order they are passed through. */
  function Position(s: Live): (position: int)
  {
    3 * s.roundId + match s.phase case Waiting => 0 case Running => 1 case Over => 2
  }

  lemma HappenMovesOn(s: Live, e: Event, curve: int -> int)
    ensures Position(s) <= Position(Happen(s, e, curve)) <= Position(s) + 1
    ensures s.roundId <= Happen(s, e, curve).roundId
  {
  }

  lemma {:induction false} RunMovesOn(s: Live, events: seq<Event>, curve: int -> int)
    ensures Position(s) <= Position(RunEvents(s, events, curve)) <= Position(s) + |events|
    ensures s.roundId <= RunEvents(s, events, curve).roundId
    decreases |events|
  {
    if events != [] {
      HappenMovesOn(s, events[0], curve);
      RunMovesOn(Happen(s, events[0], curve), events[1..], curve);
    }
  }

  predicate Crashes(s: Live, e: Event, curve: int -> int)
  {
    s.phase == Running && Happen(s, e, curve).phase == Over
  }

  /** The crash points of a run, newest first. */
  function CrashLog(s: Live, events: seq<Event>, curve: int -> int): (points: seq<int>)
    decreases |events|
  {
    if events == [] then []
    else
      CrashLog(Happen(s, events[0], curve), events[1..], curve)
      + if Crashes(s, events[0], curve) then [s.crashPoint.GetOr(0)] else []
  }

  function Newest(points: seq<int>): (h: seq<int>)
    ensures |h| <= HISTORY_LIMIT
  {
    if |points| <= HISTORY_LIMIT then points else points[..HISTORY_LIMIT]
  }

  lemma NewestOfNewest(later: seq<int>, points: seq<int>, history: seq<int>)
    ensures Newest(later + Newest(points + history)) == Newest((later + points) + history)
  {
    assert (later + points) + history == later + (points + history);
  }

  lemma CrashPushes(s: Live, e: Event, curve: int -> int)
    requires |s.roundHistory| <= HISTORY_LIMIT
    ensures Happen(s, e, curve).roundHistory
         == Newest((if Crashes(s, e, curve) then [s.crashPoint.GetOr(0)] else []) + s.roundHistory)
  {
    assert [] + s.roundHistory == s.roundHistory;
  }

  /** After any run the history holds the newest crash points, at most 16, newest first. */
  lemma {:induction false} HistoryIsNewest(s: Live, events: seq<Event>, curve: int -> int)
    requires |s.roundHistory| <= HISTORY_LIMIT
    ensures RunEvents(s, events, curve).roundHistory == Newest(CrashLog(s, events, curve) + s.roundHistory)
    ensures |RunEvents(s, events, curve).roundHistory| <= 16
    ensures |CrashLog(s, events, curve) + s.roundHistory| <= 16 ==>
              RunEvents(s, events, curve).roundHistory == CrashLog(s, events, curve) + s.roundHistory
    decreases |events|
  {
    if events == [] {
      assert [] + s.roundHistory == s.roundHistory;
    } else {
      var e, next := events[0], Happen(s, events[0], curve);
      CrashPushes(s, e, curve);
      HistoryIsNewest(next, events[1..], curve);
      NewestOfNewest(CrashLog(next, events[1..], curve),
                     if Crashes(s, e, curve) then [s.crashPoint.GetOr(0)] else [], s.roundHistory);
    }
  }

  // ----- The pot -----

  /** Nothing that happens on the table changes a stake or a join. */
  ghost predicate SameStakes(ps: seq<Participant>, qs: seq<Participant>)
  {
    |ps| == |qs| && forall i :: 0 <= i < |ps| ==> ps[i].stake == qs[i].stake && ps[i].joinOffset == qs[i].joinOffset
  }

  lemma {:induction false} SamePot(ps: seq<Participant>, qs: seq<Participant>)
    requires SameStakes(ps, qs)
    ensures Pot(ps) == Pot(qs)
  {
    if ps != [] {
      SamePot(ps[..|ps| - 1], qs[..|qs| - 1]);
    }
  }

  lemma StillJoining(ps: seq<Participant>, qs: seq<Participant>)
    requires SameStakes(ps, qs) && Joining(ps)
    ensures Joining(qs)
  {
    forall q | q in qs ensures q.stake >= 0 && 0 <= q.joinOffset <= WAIT_MS {
      var i :| 0 <= i < |qs| && qs[i] == q;
      assert ps[i] in ps;
    }
  }

  lemma StepKeepsStakes(s: Live, e: Event, curve: int -> int)
    requires s.pending == {}
    ensures SameStakes(s.participants, Happen(s, e, curve).participants)
  {
  }

  lemma PotStepInRound(s: Live, e: Event, curve: int -> int)
    requires s.pending == {} && Joining(s.participants) && Happen(s, e, curve).roundId == s.roundId
    ensures var t := Happen(s, e, curve);
            && t.pending == {} && Joining(t.participants)
            && Pot(t.participants) == Pot(s.participants) && Pot(Shown(s)) <= Pot(Shown(t))
  {
    var t := Happen(s, e, curve);
    StepKeepsStakes(s, e, curve);
    SamePot(s.participants, t.participants);
    StillJoining(s.participants, t.participants);
    if s.phase == Waiting && e.Tick? {
      PotByThen(s.participants, s.clock - s.phaseStartedAt, s.clock + e.dt - s.phaseStartedAt);
    }
  }

  /** Once a round is built, the pot it shows never falls until the next round, and from the
      moment it runs it is the pot of everybody. */
  lemma {:induction false} PotGrowsInRound(s: Live, events: seq<Event>, curve: int -> int)
    requires s.pending == {} && Joining(s.participants)
    requires RunEvents(s, events, curve).roundId == s.roundId
    ensures var t := RunEvents(s, events, curve);
            && Pot(Shown(s)) <= Pot(Shown(t)) && Pot(t.participants) == Pot(s.participants)
            && (t.phase != Waiting ==> Pot(Shown(t)) == Pot(s.participants))
    decreases |events|
  {
    if events != [] {
      var next := Happen(s, events[0], curve);
      HappenMovesOn(s, events[0], curve);
      RunMovesOn(next, events[1..], curve);
      PotStepInRound(s, events[0], curve);
      PotGrowsInRound(next, events[1..], curve);
    }
  }

  // ----- Whose participants are on the table -----

  /** The round whose participants are on the table after an event. */
  function NextOwner(s: Live, e: Event, owner: int): (round: int)
  {
    if e.BuildDone? && e.round in s.pending then e.round else owner
  }

  /** The round whose build finished last in a run; `owner` if none did. */
  function LastBuilt(s: Live, events: seq<Event>, curve: int -> int, owner: int): (round: int)
    decreases |events|
  {
    if events == [] then owner
    else LastBuilt(Happen(s, events[0], curve), events[1..], curve, NextOwner(s, events[0], owner))
  }

  /** Rounds are built once, and none ahead of time. */
  ghost predicate Owned(s: Live, owner: int)
  {
    && AllOf(s.participants, owner) && owner <= s.roundId && owner !in s.pending
    && forall r :: r in s.pending ==> r <= s.roundId
  }

  lemma CashOutKeepsRounds(ps: seq<Participant>, multiplier: int, round: int)
    requires AllOf(ps, round)
    ensures AllOf(CashOutDue(ps, multiplier), round)
  {
    var qs := CashOutDue(ps, multiplier);
    forall q | q in qs ensures q.round == round {
      var i :| 0 <= i < |qs| && qs[i] == q;
      assert ps[i] in ps;
    }
  }

  lemma HappenKeepsOwned(s: Live, e: Event, curve: int -> int, owner: int)
    requires GoodEvent(e) && Owned(s, owner)
    ensures Owned(Happen(s, e, curve), NextOwner(s, e, owner))
  {
    if e.Tick? && s.phase == Running {
      var m := curve(s.clock + e.dt - s.phaseStartedAt);
      CashOutKeepsRounds(s.participants, m, owner);
      SettleKeepsRounds(CashOutDue(s.participants, m), s.crashPoint.GetOr(0), owner);
    }
  }

  lemma {:induction false} RunKeepsOwned(s: Live, events: seq<Event>, curve: int -> int, owner: int)
    requires Owned(s, owner) && forall i :: 0 <= i < |events| ==> GoodEvent(events[i])
    ensures Owned(RunEvents(s, events, curve), LastBuilt(s, events, curve, owner))
    decreases |events|
  {
    if events != [] {
      assert GoodEvent(events[0]);
      HappenKeepsOwned(s, events[0], curve, owner);
      assert forall i :: 0 <= i < |events[1..]| ==> events[1..][i] == events[i + 1];
      RunKeepsOwned(Happen(s, events[0], curve), events[1..], curve, NextOwner(s, events[0], owner));
    }
  }

  /** With no assumption on timing: the table holds the participants of the round whose build
      finished last. So a table that is not empty belongs to the current round if and only if
      the current round's build was the last to finish; while that build is pending, every
      participant is of an earlier round. */
  lemma TableIsLastBuilt(s: Live, events: seq<Event>, curve: int -> int)
    requires Booted(s) && forall i :: 0 <= i < |events| ==> GoodEvent(events[i])
    ensures var t, last := RunEvents(s, events, curve), LastBuilt(s, events, curve, s.roundId);
            && AllOf(t.participants, last)
            && (t.participants != [] ==> (AllOf(t.participants, t.roundId) <==> last == t.roundId))
            && (t.roundId in t.pending ==> forall p :: p in t.participants ==> p.round < t.roundId)
  {
    RunKeepsOwned(s, events, curve, s.roundId);
    var t := RunEvents(s, events, curve);
    if t.participants != [] {
      assert t.participants[0] in t.participants;
    }
  }

  /** Only the newest round is ever still being built. */
  ghost predicate OneBuildThroughout(s: Live, events: seq<Event>, curve: int -> int)
    decreases |events|
  {
    s.pending <= {s.roundId} && (events != [] ==> OneBuildThroughout(Happen(s, events[0], curve), events[1..], curve))
  }

  lemma {:induction false} LastBuiltInOrder(s: Live, events: seq<Event>, curve: int -> int, owner: int)
    requires OneBuildThroughout(s, events, curve) && (s.pending == {} ==> owner == s.roundId)
    ensures var t := RunEvents(s, events, curve);
            t.pending <= {t.roundId} && (t.pending == {} ==> LastBuilt(s, events, curve, owner) == t.roundId)
    decreases |events|
  {
    if events != [] {
      LastBuiltInOrder(Happen(s, events[0], curve), events[1..], curve, NextOwner(s, events[0], owner));
    }
  }

  /** When builds finish in order, the table belongs to the current round exactly from the
      moment that round is built. */
  lemma TableIsCurrentOnceBuilt(s: Live, events: seq<Event>, curve: int -> int)
    requires Booted(s) && forall i :: 0 <= i < |events| ==> GoodEvent(events[i])
    requires OneBuildThroughout(s, events, curve)
    ensures var t := RunEvents(s, events, curve);
            t.participants != [] ==> (AllOf(t.participants, t.roundId) <==> t.roundId !in t.pending)
  {
    TableIsLastBuilt(s, events, curve);
    LastBuiltInOrder(s, events, curve, s.roundId);
    var t := RunEvents(s, events, curve);
    if t.roundId !in t.pending {
      assert t.pending == {};
    } else if t.participants != [] {
      assert t.participants[0] in t.participants;
    }
  }

  /** A build that finishes late replaces the table of a newer round that is already built. */
  lemma LateBuildReplacesTable(s: Live, round: int, built: seq<Participant>, curve: int -> int)
    requires GoodBuild(round, built) && built != [] && round in s.pending && round < s.roundId
    ensures var t := Happen(s, BuildDone(round, built), curve);
            && t.roundId == s.roundId && t.phase == s.phase
            && AllOf(t.participants, round) && !AllOf(t.participants, t.roundId)
  {
    assert built[0] in built;
  }

  /** Such runs exist: when the build of a round outlasts its wait, the round runs with the
      settled participants of the round before. */
  lemma LateBuild(s: Live, curve: int -> int)
    requires Growth(curve) && Booted(s) && s.participants != []
    ensures var crashed := Happen(Happen(s, Tick(WAIT_MS, 100), curve), Tick(0, 100), curve);
            var late := Happen(Happen(crashed, Tick(RESET_MS, 100), curve), Tick(WAIT_MS, 100), curve);
            && late.phase == Running && late.roundId == s.roundId + 1 && late.participants != []
            && AllOf(late.participants, s.roundId)
  {
    var running := Happen(s, Tick(WAIT_MS, 100), curve);
    var crashed := Happen(running, Tick(0, 100), curve);
    CashOutKeepsRounds(s.participants, curve(0), s.roundId);
    SettleKeepsRounds(CashOutDue(s.participants, curve(0)), 100, s.roundId);
    assert crashed.phase == Over && crashed.participants == Settle(CashOutDue(s.participants, curve(0)), 100);
    var waiting := Happen(crashed, Tick(RESET_MS, 100), curve);
    assert waiting.phase == Waiting && waiting.participants == crashed.participants;
  }

  // ----- The service -----

  class CrashLiveService {
    const curve: int -> int
    var phase: Phase
    var roundId: int
    var phaseStartedAt: int
    var currentMultiplier: int
    var countdownMs: int
    var crashPoint: Option<int>
    var participants: seq<Participant>
    var roundHistory: seq<int>
    ghost var clock: int
    ghost var pending: set<int>
    ghost var dealt: seq<Participant>
    ghost var ticks: seq<int>

    ghost function State(): Live
      reads this
    {
      Live(clock, phase, roundId, phaseStartedAt, currentMultiplier, countdownMs, crashPoint, participants,
           roundHistory, pending, dealt, ticks)
    }

    /** `await this.startWaitingRound(1)` at bootstrap. */
    constructor (curve: int -> int, now: int, history: seq<int>, built: seq<Participant>)
      requires |history| <= HISTORY_LIMIT && GoodBuild(1, built)
      ensures this.curve == curve && Booted(State())
      ensures roundId == 1 && participants == built && roundHistory == history && clock == now
    {
      this.curve := curve;
      phase, roundId, phaseStartedAt, clock := Waiting, 1, now, now;
      currentMultiplier, countdownMs, crashPoint := 100, WAIT_MS, None;
      participants, roundHistory := built, history;
      pending, dealt, ticks := {}, [], [];
    }

    /** `tick` up to its `await`: a new round is left waiting for its participants. */
    method TickTimer(now: int, draw: int)
      requires now >= clock
      modifies this
      ensures State() == TickEffect(old(State()), now - old(clock), draw, curve)
    {
      if phase == Waiting {
        TickWaiting(now, draw);
      } else if phase == Running {
        TickRunning(now, draw);
      } else {
        TickOver(now, draw);
      }
    }

    method TickWaiting(now: int, draw: int)
      requires now >= clock && phase == Waiting
      modifies this
      ensures State() == TickEffect(old(State()), now - old(clock), draw, curve)
    {
      var elapsedMs := now - phaseStartedAt;
      clock := now;
      countdownMs := if WAIT_MS - elapsedMs > 0 then WAIT_MS - elapsedMs else 0;
      if countdownMs <= 0 {
        BeginRunning(now, draw);
      }
    }

    method BeginRunning(now: int, draw: int)
      requires now == clock
      modifies this`phase, this`phaseStartedAt, this`currentMultiplier, this`crashPoint, this`dealt, this`ticks
      ensures State() == StartRunning(old(State()), draw)
    {
      phase := Running;
      phaseStartedAt := now;
      currentMultiplier := 100;
      crashPoint := Some(draw);
      dealt, ticks := participants, [];
    }

    method TickRunning(now: int, draw: int)
      requires now >= clock && phase == Running
      modifies this
      ensures State() == TickEffect(old(State()), now - old(clock), draw, curve)
    {
      Climb(now, curve(now - phaseStartedAt));
      if crashPoint.Some? && currentMultiplier >= crashPoint.value {
        CrashRound(now, crashPoint.value);
      }
    }

    method Climb(now: int, multiplier: int)
      modifies this`clock, this`currentMultiplier, this`participants, this`ticks
      ensures State() == old(State()).(clock := now, currentMultiplier := multiplier,
                                       participants := CashOutDue(old(participants), multiplier),
                                       ticks := old(ticks) + [multiplier])
    {
      clock := now;
      currentMultiplier := multiplier;
      participants := CashOutDue(participants, multiplier);
      ticks := ticks + [multiplier];
    }

    method CrashRound(now: int, point: int)
      modifies this`currentMultiplier, this`participants, this`roundHistory, this`phase, this`phaseStartedAt
      ensures State() == old(State()).(currentMultiplier := point,
                                       participants := Settle(old(participants), point),
                                       roundHistory := Push(point, old(roundHistory)),
                                       phase := Over, phaseStartedAt := now)
    {
      currentMultiplier := point;
      participants := Settle(participants, point);
      roundHistory := Push(point, roundHistory);
      phase := Over;
      phaseStartedAt := now;
    }

    method TickOver(now: int, draw: int)
      requires now >= clock && phase == Over
      modifies this
      ensures State() == TickEffect(old(State()), now - old(clock), draw, curve)
    {
      var elapsedMs := now - phaseStartedAt;
      clock := now;
      if elapsedMs >= RESET_MS {
        StartWaitingRound(roundId + 1, now);
      }
    }

    /** `startWaitingRound` up to its `await`. */
    method StartWaitingRound(nextRoundId: int, now: int)
      requires nextRoundId == roundId + 1 && now == clock
      modifies this`roundId, this`phase, this`phaseStartedAt, this`countdownMs, this`currentMultiplier,
               this`crashPoint, this`pending
      ensures State() == StartWaiting(old(State()))
    {
      roundId := nextRoundId;
      phase := Waiting;
      phaseStartedAt := now;
      countdownMs := WAIT_MS;
      currentMultiplier := 100;
      crashPoint := None;
      pending := pending + {nextRoundId};
    }

    /** `this.participants = await this.buildRoundParticipants(round)` resuming: the table goes
        to that round whatever phase and round have been reached since. */
    method FinishBuild(round: int, built: seq<Participant>)
      requires round in pending
      modifies this`participants, this`pending
      ensures State() == Happen(old(State()), BuildDone(round, built), curve)
      ensures Owned(old(State()), roundId) && GoodBuild(round, built) ==> Owned(State(), round)
      ensures GoodBuild(round, built) && built != [] ==> (AllOf(participants, roundId) <==> round == roundId)
    {
      participants := built;
      pending := pending - {round};
      assert built != [] ==> built[0] in built;
    }

    /** `getSnapshot`: the participants shown and the pot. */
    method GetSnapshot(now: int) returns (shown: seq<Participant>, pot: int)
      ensures shown == Visible(participants, now - phaseStartedAt, phase)
      ensures pot == Pot(shown)
    {
      shown := Visible(participants, now - phaseStartedAt, phase);
      pot := 0;
      for i := 0 to |shown|
        invariant pot == Sum(shown[..i], StakeOf)
      {
        assert shown[..i + 1][..i] == shown[..i];
        pot := pot + shown[i].stake;
      }
      assert shown[..|shown|] == shown;
    }
  }
}
