/** Participants of a live Crash round: repeated cash-outs while the multiplier climbs, and
    the one-shot settlement (src/modules/crashLive/crash-live.logic.ts). */
module CrashParticipants {
  import opened Money
  import opened Sequences

  datatype Status = Active | CashedOut | Crashed

  datatype Phase = Waiting | Running | Over

  /** Stake, payout and profit in cents, target in hundredths; `round` is the round id that
      is part of the participant's id. */
  datatype Participant = Participant(
    round: int,
    stake: int,
    target: int,
    joinOffset: int,
    status: Status,
    cashoutMultiplier: Option<int>,
    payout: int,
    profit: int)

  /** `roundBotMoney` of num/den cents: negative amounts become 0. */
  function RoundBotMoney(num: int, den: int): (cents: int)
    requires den > 0
  {
    var r := RoundHalfUp(num, den);
    if r < 0 then 0 else r
  }

  function Payout(p: Participant): (cents: int)
  {
    RoundBotMoney(p.stake * p.target, 100)
  }

  function Paid(p: Participant): (q: Participant)
  {
    p.(status := CashedOut, cashoutMultiplier := Some(p.target), payout := Payout(p),
       profit := RoundBotMoney(Payout(p) - p.stake, 1))
  }

  function CashOutIfDue(p: Participant, multiplier: int): (q: Participant)
  {
    if p.status != Active || p.target > multiplier then p else Paid(p)
  }

  function SettleOne(p: Participant, multiplier: int): (q: Participant)
  {
    if p.status != Active then p
    else if p.target <= multiplier then Paid(p)
    else p.(status := Crashed, payout := 0, profit := -p.stake)
  }

  /** `cashOutDueParticipants` */
  function CashOutDue(ps: seq<Participant>, multiplier: int): (qs: seq<Participant>)
    ensures |qs| == |ps|
  {
    seq(|ps|, i requires 0 <= i < |ps| => CashOutIfDue(ps[i], multiplier))
  }

  /** `settleCrashParticipants` */
  function Settle(ps: seq<Participant>, multiplier: int): (qs: seq<Participant>)
    ensures |qs| == |ps|
  {
    seq(|ps|, i requires 0 <= i < |ps| => SettleOne(ps[i], multiplier))
  }

  /** The cash-outs of a whole round, one call per tick. */
  function CashOutTicks(ps: seq<Participant>, ticks: seq<int>): (qs: seq<Participant>)
    ensures |qs| == |ps|
  {
    if ticks == [] then ps
    else CashOutDue(CashOutTicks(ps, ticks[..|ticks| - 1]), ticks[|ticks| - 1])
  }

  // ----- Ticking refines settling once -----

  lemma {:induction false} TicksSettle(ps: seq<Participant>, ticks: seq<int>, final: int, high: int)
    requires forall t :: t in ticks ==> t <= high
    requires final == high || (final <= high && high in ticks)
    ensures Settle(CashOutTicks(ps, ticks), final) == Settle(ps, high)
  {
    if ticks != [] {
      var n := |ticks| - 1;
      var before, t := ticks[..n], ticks[n];
      var earlier := CashOutTicks(ps, before);
      var larger := if final < t then t else final;
      assert t in ticks;
      assert forall k :: k in ticks <==> k in before || k == t;
      assert Settle(CashOutDue(earlier, t), final) == Settle(earlier, larger);
      TicksSettle(ps, before, larger, high);
    }
  }

  /** For any tick schedule whose last multiplier is the highest and reaches the crash point,
      cashing out tick by tick and settling at the crash point gives what one settlement of
      the initial list at that last multiplier gives. */
  lemma TickingRefinesSettling(ps: seq<Participant>, ticks: seq<int>, crashPoint: int)
    requires ticks != [] && forall t :: t in ticks ==> t <= ticks[|ticks| - 1]
    requires crashPoint <= ticks[|ticks| - 1]
    ensures Settle(CashOutTicks(ps, ticks), crashPoint) == Settle(ps, ticks[|ticks| - 1])
  {
    TicksSettle(ps, ticks, crashPoint, ticks[|ticks| - 1]);
  }

  /** Settling at the crashing tick's multiplier instead of the crash point makes a difference
      exactly when some open target lies between the two. */
  lemma TickMatters(ps: seq<Participant>, crashPoint: int, last: int)
    requires crashPoint <= last
    ensures Settle(ps, last) == Settle(ps, crashPoint)
       <==> forall p :: p in ps && p.status == Active ==> !(crashPoint < p.target <= last)
  {
    if Settle(ps, last) == Settle(ps, crashPoint) {
      forall p | p in ps && p.status == Active ensures !(crashPoint < p.target <= last) {
        var i :| 0 <= i < |ps| && ps[i] == p;
        assert Settle(ps, last)[i] == Settle(ps, crashPoint)[i];
      }
    } else {
      var i :| 0 <= i < |ps| && Settle(ps, last)[i] != Settle(ps, crashPoint)[i];
      assert ps[i] in ps;
    }
  }

  // ----- Totals -----

  function StakeOf(p: Participant): int { p.stake }
  function PayoutOf(p: Participant): int { p.payout }
  function ProfitOf(p: Participant): int { p.profit }

  ghost predicate Fresh(p: Participant)
  {
    p.status == Active && p.stake >= 0 && p.payout == 0 && p.profit == 0
  }

  /** Once a round of fresh participants is settled, total profit is total payout minus total
      stake if and only if nobody cashed out for less than the stake: profits are clamped at
      zero. Targets of at least 1.00 suffice. */
  lemma {:induction false} ProfitAddsUp(ps: seq<Participant>, multiplier: int)
    requires forall p :: p in ps ==> Fresh(p)
    ensures var qs := Settle(ps, multiplier);
            && Sum(qs, ProfitOf) >= Sum(qs, PayoutOf) - Sum(qs, StakeOf)
            && Sum(qs, StakeOf) == Sum(ps, StakeOf)
            && (Sum(qs, ProfitOf) == Sum(qs, PayoutOf) - Sum(qs, StakeOf)
                <==> forall p :: p in ps && p.target <= multiplier ==> Payout(p) >= p.stake)
    ensures forall p :: p in ps && p.target >= 100 ==> Payout(p) >= p.stake
  {
    if ps != [] {
      var n := |ps| - 1;
      var front, p := ps[..n], ps[n];
      assert p in ps && forall q :: q in ps <==> q in front || q == p;
      ProfitAddsUp(front, multiplier);
      assert Settle(ps, multiplier)[..n] == Settle(front, multiplier);
      OneProfit(p, multiplier);
    }
  }

  lemma OneProfit(p: Participant, multiplier: int)
    requires Fresh(p)
    ensures var q := SettleOne(p, multiplier);
            && q.profit >= q.payout - q.stake && q.stake == p.stake
            && (q.profit == q.payout - q.stake <==> (p.target <= multiplier ==> Payout(p) >= p.stake))
    ensures p.target >= 100 ==> Payout(p) >= p.stake
  {
    RoundWhole(Payout(p) - p.stake, 1);
    if p.target >= 100 {
      RoundWhole(p.stake, 100);
      RoundMonotone(p.stake * 100, 100, p.stake * p.target, 100);
    }
  }

  // ----- What each participant gets -----

  /** A participant that cashed out at its own target: stake times target to the nearest cent. */
  ghost predicate CashedOutAtTarget(p: Participant, q: Participant)
  {
    && q == p.(status := CashedOut, cashoutMultiplier := Some(p.target), payout := q.payout, profit := q.profit)
    && -50 <= 100 * q.payout - p.stake * p.target <= 50
    && q.profit == if q.payout > p.stake then q.payout - p.stake else 0
  }

  ghost predicate LostStake(p: Participant, q: Participant)
  {
    q == p.(status := Crashed, payout := 0, profit := -p.stake)
  }

  lemma PaidAtTarget(p: Participant)
    requires p.stake >= 0 && p.target >= 0
    ensures CashedOutAtTarget(p, Paid(p))
  {
    assert p.stake * p.target >= 0;
    RoundWhole(Payout(p) - p.stake, 1);
  }

  /** A settlement pays exactly the open participants whose target is reached; the others lose
      their stake. */
  lemma SettledOutcome(ps: seq<Participant>, multiplier: int, i: nat)
    requires i < |ps| && Fresh(ps[i]) && ps[i].target >= 0
    ensures var q := Settle(ps, multiplier)[i];
            if ps[i].target <= multiplier then CashedOutAtTarget(ps[i], q) else LostStake(ps[i], q)
  {
    PaidAtTarget(ps[i]);
  }

  /** After any ticks exactly the participants whose target the highest one reached have cashed
      out; the others are as they were. */
  lemma {:induction false} TicksOutcome(ps: seq<Participant>, ticks: seq<int>, high: int, i: nat)
    requires i < |ps| && Fresh(ps[i]) && ps[i].target >= 0
    requires ticks != [] && high in ticks && forall t :: t in ticks ==> t <= high
    ensures var q := CashOutTicks(ps, ticks)[i];
            if ps[i].target <= high then CashedOutAtTarget(ps[i], q) else q == ps[i]
  {
    PaidAtTarget(ps[i]);
    TicksPay(ps, ticks, i, high);
  }

  lemma {:induction false} TicksPay(ps: seq<Participant>, ticks: seq<int>, i: nat, due: int)
    requires i < |ps| && Fresh(ps[i])
    ensures CashOutTicks(ps, ticks)[i] == ps[i] || CashOutTicks(ps, ticks)[i] == Paid(ps[i])
    ensures due in ticks && ps[i].target <= due ==> CashOutTicks(ps, ticks)[i] == Paid(ps[i])
    ensures (forall t :: t in ticks ==> t < ps[i].target) ==> CashOutTicks(ps, ticks)[i] == ps[i]
  {
    if ticks != [] {
      var n := |ticks| - 1;
      TicksPay(ps, ticks[..n], i, due);
      assert ticks[n] in ticks && forall t :: t in ticks <==> t in ticks[..n] || t == ticks[n];
    }
  }

  // ----- Joining -----

  const WAIT_MS := 15000

  function Clamp(value: int, min: int, max: int): int
  {
    var v := if value < min then min else value;
    if v > max then max else v
  }

  /** `scheduleCrashParticipantJoins` for the 15 s wait: anchor plus jitter, whatever the
      random numbers make of it, clamped between 600 ms and waitMs - 700. */
  function ScheduleJoins(ps: seq<Participant>, raw: seq<int>): (qs: seq<Participant>)
    requires |raw| == |ps|
    ensures |qs| == |ps|
  {
    seq(|ps|, i requires 0 <= i < |ps| => ps[i].(joinOffset := Clamp(raw[i], 600, WAIT_MS - 700)))
  }

  /** `getVisibleCrashParticipants` */
  function Visible(ps: seq<Participant>, elapsed: int, phase: Phase): (qs: seq<Participant>)
  {
    if phase != Waiting then ps
    else if ps == [] then []
    else
      var rest := Visible(ps[..|ps| - 1], elapsed, phase);
      if ps[|ps| - 1].joinOffset <= elapsed then rest + [ps[|ps| - 1]] else rest
  }

  function Pot(ps: seq<Participant>): int
  {
    Sum(ps, StakeOf)
  }

  ghost predicate Joining(ps: seq<Participant>)
  {
    forall p :: p in ps ==> p.stake >= 0 && 0 <= p.joinOffset <= WAIT_MS
  }

  lemma SchedulesInsideWait(ps: seq<Participant>, raw: seq<int>)
    requires |raw| == |ps| && forall p :: p in ps ==> p.stake >= 0
    ensures Joining(ScheduleJoins(ps, raw))
    ensures forall i :: 0 <= i < |ps| ==>
              var q := ScheduleJoins(ps, raw)[i];
              && q == ps[i].(joinOffset := q.joinOffset) && 600 <= q.joinOffset <= 14_300
              && (q.joinOffset < raw[i] ==> q.joinOffset == 14_300)
              && (q.joinOffset > raw[i] ==> q.joinOffset == 600)
  {
  }

  /** While waiting exactly those whose offset has passed are shown. */
  lemma {:induction false} VisibleOnceJoined(ps: seq<Participant>, elapsed: int)
    ensures forall p :: p in Visible(ps, elapsed, Waiting) <==> p in ps && p.joinOffset <= elapsed
  {
    if ps != [] {
      var n := |ps| - 1;
      VisibleOnceJoined(ps[..n], elapsed);
      assert forall p :: p in ps <==> p in ps[..n] || p == ps[n];
      var rest := Visible(ps[..n], elapsed, Waiting);
      assert forall p :: p in rest + [ps[n]] <==> p in rest || p == ps[n];
    }
  }

  lemma PotStep(ps: seq<Participant>, elapsed: int)
    requires ps != []
    ensures var n := |ps| - 1;
            Pot(Visible(ps, elapsed, Waiting))
            == Pot(Visible(ps[..n], elapsed, Waiting)) + if ps[n].joinOffset <= elapsed then ps[n].stake else 0
  {
  }

  /** While waiting the pot only grows. */
  lemma {:induction false} PotGrows(ps: seq<Participant>, earlier: int, later: int)
    requires Joining(ps) && earlier <= later
    ensures Pot(Visible(ps, earlier, Waiting)) <= Pot(Visible(ps, later, Waiting))
  {
    if ps != [] {
      var n := |ps| - 1;
      assert ps[n] in ps && forall q :: q in ps[..n] ==> q in ps;
      PotGrows(ps[..n], earlier, later);
      PotStep(ps, earlier);
      PotStep(ps, later);
    }
  }

  /** At the end of the wait everybody has joined, so nothing changes when running starts. */
  lemma {:induction false} AllJoined(ps: seq<Participant>, elapsed: int)
    requires Joining(ps) && elapsed >= WAIT_MS
    ensures Visible(ps, elapsed, Waiting) == ps == Visible(ps, elapsed, Running)
  {
    if ps != [] {
      var n := |ps| - 1;
      assert ps[n] in ps && forall q :: q in ps[..n] ==> q in ps;
      AllJoined(ps[..n], elapsed);
      assert ps[n].joinOffset <= elapsed;
      assert Visible(ps, elapsed, Waiting) == ps[..n] + [ps[n]];
      assert ps[..n] + [ps[n]] == ps;
    }
  }
}
