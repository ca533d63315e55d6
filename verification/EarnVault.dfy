/** Earn Vault positions: money moved into plans, rewards and early exits
    (src/modules/earnVault/earn-vault.service.ts, src/modules/earnVault/earn-vault.logic.ts).
    Times are in milliseconds. */
module EarnVault {
  import opened Money
  import opened Sequences

  datatype Plan = Plan(id: string, durationDays: int, ratePercent: int, minAmount: int, maxAmount: int)

  const PLANS: seq<Plan> := [
    Plan("flexible", 0, 4, 100, 25000),
    Plan("starter", 7, 7, 500, 50000),
    Plan("growth", 14, 11, 1000, 75000),
    Plan("diamond", 30, 18, 2500, 100000)
  ]

  const ACTIVE_LIMIT := 25
  const MS_PER_DAY := 24 * 60 * 60 * 1000
  const MS_PER_YEAR := 365 * MS_PER_DAY

  datatype Status = Active | Claimed | Cancelled

  datatype Position = Position(
    status: Status,
    amount: int,
    reward: int,
    ratePercent: int,
    durationDays: int,
    startsAt: int,
    endsAt: int)

  function FindPlan(plans: seq<Plan>, id: string): (p: Option<Plan>)
    ensures p.Some? ==> p.value in plans && p.value.id == id
  {
    if plans == [] then None else if plans[0].id == id then Some(plans[0]) else FindPlan(plans[1..], id)
  }

  // ----- Rewards and maturity -----

  /** `calculateEarnVaultReward` */
  function FixedReward(amount: int, ratePercent: int, durationDays: int): (cents: int)
  {
    if durationDays <= 0 then 0 else RoundHalfUp(amount * ratePercent * durationDays, 36500)
  }

  /** `calculateEarnVaultAccruedReward` */
  function AccruedReward(amount: int, ratePercent: int, startsAt: int, now: int): (cents: int)
  {
    RoundHalfUp(amount * ratePercent * (if now > startsAt then now - startsAt else 0), 100 * MS_PER_YEAR)
  }

  function EndDate(start: int, durationDays: int): (end: int)
  {
    start + (if durationDays > 0 then durationDays else 0) * MS_PER_DAY
  }

  predicate Flexible(p: Position) { p.durationDays == 0 }

  predicate Mature(p: Position, now: int) { Flexible(p) || now >= p.endsAt }

  /** `getPositionRewardAmount` */
  function RewardNow(p: Position, now: int): (cents: int)
  {
    if Flexible(p) && p.status == Active then AccruedReward(p.amount, p.ratePercent, p.startsAt, now) else p.reward
  }

  /** The two flags of a position's DTO. */
  predicate CanClaim(p: Position, now: int) { p.status == Active && Mature(p, now) }
  predicate CanUnstake(p: Position, now: int) { p.status == Active && !Flexible(p) && !CanClaim(p, now) }

  /** A fixed plan pays what the accrual formula gives at its end date. */
  lemma FixedIsAccruedAtEnd(amount: int, ratePercent: int, durationDays: int, start: int)
    ensures FixedReward(amount, ratePercent, durationDays)
         == AccruedReward(amount, ratePercent, start, EndDate(start, durationDays))
  {
  }

  // ----- The effect of each call -----

  datatype Vault = Vault(balance: int, positions: seq<Position>)

  /** A requested amount counts ten-thousandths of a unit, so that amounts with more than two
      decimals can be refused. */
  datatype Op =
    | Create(planId: string, requested: int, now: int)
    | Claim(id: nat, now: int)
    | Unstake(id: nat, now: int)

  datatype Reply = Refused | Done(newBalance: int)

  function CountActive(positions: seq<Position>): (n: int)
  {
    Sum(positions, IsActive)
  }

  function IsActive(p: Position): int { if p.status == Active then 1 else 0 }
  function ActiveAmount(p: Position): int { if p.status == Active then p.amount else 0 }
  function ClaimedReward(p: Position): int { if p.status == Claimed then p.reward else 0 }

  /** Rewards of active positions that cannot be claimed yet, and of those that can. */
  function PendingAt(now: int): (reward: Position -> int)
  {
    (p: Position) => if p.status == Active && !Mature(p, now) then RewardNow(p, now) else 0
  }

  function ReadyAt(now: int): (reward: Position -> int)
  {
    (p: Position) => if p.status == Active && Mature(p, now) then RewardNow(p, now) else 0
  }

  function NewPosition(plan: Plan, amount: int, now: int): (p: Position)
  {
    Position(Active, amount, FixedReward(amount, plan.ratePercent, plan.durationDays), plan.ratePercent,
             plan.durationDays, now, EndDate(now, plan.durationDays))
  }

  function CreateEffect(v: Vault, planId: string, requested: int, now: int): (r: (Vault, Reply))
  {
    match FindPlan(PLANS, planId)
    case None => (v, Refused)
    case Some(plan) =>
      var amount := requested / 100;
      if requested <= 0 || requested % 100 != 0 || amount < plan.minAmount || amount > plan.maxAmount
         || v.balance < amount || CountActive(v.positions) >= ACTIVE_LIMIT
      then (v, Refused)
      else (Vault(v.balance - amount, v.positions + [NewPosition(plan, amount, now)]), Done(v.balance - amount))
  }

  /** Claiming is possible exactly when the DTO says so; it returns amount and reward. */
  function ClaimEffect(v: Vault, id: nat, now: int): (r: (Vault, Reply))
  {
    if id >= |v.positions| || !CanClaim(v.positions[id], now) then (v, Refused)
    else
      var p := v.positions[id];
      var balance := v.balance + p.amount + RewardNow(p, now);
      (Vault(balance, v.positions[id := p.(status := Claimed, reward := RewardNow(p, now))]), Done(balance))
  }

  /** Unstaking returns the amount alone. */
  function UnstakeEffect(v: Vault, id: nat, now: int): (r: (Vault, Reply))
  {
    if id >= |v.positions| || !CanUnstake(v.positions[id], now) then (v, Refused)
    else
      var p := v.positions[id];
      (Vault(v.balance + p.amount, v.positions[id := p.(status := Cancelled)]), Done(v.balance + p.amount))
  }

  function Perform(v: Vault, op: Op): (r: (Vault, Reply))
  {
    match op
    case Create(planId, requested, now) => CreateEffect(v, planId, requested, now)
    case Claim(id, now) => ClaimEffect(v, id, now)
    case Unstake(id, now) => UnstakeEffect(v, id, now)
  }

  function RunOps(v: Vault, ops: seq<Op>): (end: Vault)
    decreases |ops|
  {
    if ops == [] then v else RunOps(Perform(v, ops[0]).0, ops[1..])
  }

  // ----- What every run keeps -----

  /** Balance plus vault balance minus claimed rewards, as the summary reports them. */
  function NetWorth(v: Vault): (cents: int)
  {
    v.balance + Sum(v.positions, ActiveAmount) - Sum(v.positions, ClaimedReward)
  }

  ghost predicate SoundPosition(p: Position)
  {
    && p.amount > 0 && p.reward >= 0 && p.ratePercent >= 0 && p.durationDays >= 0
    && p.endsAt == EndDate(p.startsAt, p.durationDays)
    && (p.status != Claimed || !Flexible(p) ==> p.reward == FixedReward(p.amount, p.ratePercent, p.durationDays))
  }

  ghost predicate Sound(v: Vault)
  {
    && v.balance >= 0
    && CountActive(v.positions) <= ACTIVE_LIMIT
    && forall i :: 0 <= i < |v.positions| ==> SoundPosition(v.positions[i])
  }

  /** Positions are never removed, and once they leave `active` they never change. */
  ghost predicate OnlyActiveChange(before: Vault, after: Vault)
  {
    && |before.positions| <= |after.positions|
    && forall i :: 0 <= i < |before.positions| && before.positions[i].status != Active ==>
         after.positions[i] == before.positions[i]
  }

  lemma RewardsNonNegative(amount: int, ratePercent: int, durationDays: int, startsAt: int, now: int)
    requires amount >= 0 && ratePercent >= 0
    ensures FixedReward(amount, ratePercent, durationDays) >= 0
    ensures AccruedReward(amount, ratePercent, startsAt, now) >= 0
  {
  }

  lemma StoreKeeps(v: Vault, id: nat, p: Position, balance: int)
    requires Sound(v) && id < |v.positions| && v.positions[id].status == Active && p.status != Active
    requires SoundPosition(p) && p.amount == v.positions[id].amount
    requires balance == v.balance + p.amount + ClaimedReward(p)
    ensures var after := Vault(balance, v.positions[id := p]);
            Sound(after) && NetWorth(after) == NetWorth(v)
  {
    SumUpdate(v.positions, id, p, IsActive);
    SumUpdate(v.positions, id, p, ActiveAmount);
    SumUpdate(v.positions, id, p, ClaimedReward);
  }

  lemma PlanBounds(planId: string)
    ensures var plan := FindPlan(PLANS, planId);
            plan.Some? ==> plan.value.minAmount > 0 && plan.value.ratePercent > 0 && plan.value.durationDays >= 0
  {
  }

  lemma CreateKeeps(v: Vault, planId: string, requested: int, now: int)
    requires Sound(v)
    ensures var after := CreateEffect(v, planId, requested, now).0;
            Sound(after) && NetWorth(after) == NetWorth(v)
  {
    var after := CreateEffect(v, planId, requested, now).0;
    PlanBounds(planId);
    if after != v {
      var plan := FindPlan(PLANS, planId).value;
      var p := NewPosition(plan, requested / 100, now);
      RewardsNonNegative(p.amount, plan.ratePercent, plan.durationDays, now, now);
      SumAppend(v.positions, p, IsActive);
      SumAppend(v.positions, p, ActiveAmount);
      SumAppend(v.positions, p, ClaimedReward);
    }
  }

  lemma PerformKeeps(v: Vault, op: Op)
    requires Sound(v)
    ensures var after := Perform(v, op).0;
            Sound(after) && NetWorth(after) == NetWorth(v) && OnlyActiveChange(v, after)
  {
    match op {
      case Create(planId, requested, now) => CreateKeeps(v, planId, requested, now);
      case Claim(id, now) =>
        if id < |v.positions| && CanClaim(v.positions[id], now) {
          var p := v.positions[id];
          RewardsNonNegative(p.amount, p.ratePercent, p.durationDays, p.startsAt, now);
          var q := p.(status := Claimed, reward := RewardNow(p, now));
          StoreKeeps(v, id, q, v.balance + p.amount + RewardNow(p, now));
        }
      case Unstake(id, now) =>
        if id < |v.positions| && CanUnstake(v.positions[id], now) {
          var p := v.positions[id];
          StoreKeeps(v, id, p.(status := Cancelled), v.balance + p.amount);
        }
    }
  }

  /** Over any run of create, claim and unstake: what the summary reports as available plus
      vault balance minus claimed reward is constant, the balance stays non-negative, at most
      25 positions are active, and each position leaves `active` at most once. */
  lemma {:induction false} NetWorthIsConstant(v: Vault, ops: seq<Op>)
    requires Sound(v)
    ensures var end := RunOps(v, ops);
            Sound(end) && NetWorth(end) == NetWorth(v) && OnlyActiveChange(v, end)
    decreases |ops|
  {
    if ops != [] {
      PerformKeeps(v, ops[0]);
      NetWorthIsConstant(Perform(v, ops[0]).0, ops[1..]);
    }
  }

  /** For an active position exactly one of the two flags is set, and they predict which call
      succeeds at that instant; a fixed plan then pays the interest accrued up to its end. */
  lemma FlagsPredict(v: Vault, id: nat, now: int)
    requires Sound(v) && id < |v.positions|
    ensures var p := v.positions[id];
            && !(CanClaim(p, now) && CanUnstake(p, now))
            && (p.status == Active <==> CanClaim(p, now) || CanUnstake(p, now))
            && (CanClaim(p, now) <==> ClaimEffect(v, id, now).1.Done?)
            && (CanUnstake(p, now) <==> UnstakeEffect(v, id, now).1.Done?)
            && (CanClaim(p, now) ==>
                  ClaimEffect(v, id, now).0.balance - v.balance - p.amount
                  == AccruedReward(p.amount, p.ratePercent, p.startsAt, if Flexible(p) then now else p.endsAt))
  {
    var p := v.positions[id];
    FixedIsAccruedAtEnd(p.amount, p.ratePercent, p.durationDays, p.startsAt);
  }

  // ----- What each call takes, pays and refuses -----

  /** A flexible position, or one whose days have passed since its start. */
  predicate Ended(p: Position, now: int)
  {
    p.durationDays == 0 || now >= p.startsAt + p.durationDays * 86_400_000
  }

  /** A position can be claimed from its end on, and unstaked exactly until then. */
  lemma ClaimableFromEnd(v: Vault, id: nat, now: int)
    requires Sound(v) && id < |v.positions|
    ensures var p := v.positions[id];
            && (ClaimEffect(v, id, now).1.Done? <==> p.status == Active && Ended(p, now))
            && (UnstakeEffect(v, id, now).1.Done? <==> p.status == Active && !Ended(p, now))
  {
    assert SoundPosition(v.positions[id]);
  }

  /** The summary's two reward lines: what a claim of the position would add at this instant, and
      what an early exit would forgo. */
  lemma SummaryForetells(v: Vault, id: nat, now: int)
    requires Sound(v) && id < |v.positions|
    ensures var p, claim, exit := v.positions[id], ClaimEffect(v, id, now), UnstakeEffect(v, id, now);
            && ReadyAt(now)(p) == (if claim.1.Done? then claim.0.balance - v.balance - p.amount else 0)
            && PendingAt(now)(p) == (if exit.1.Done? then p.reward else 0)
  {
    ClaimableFromEnd(v, id, now);
  }

  /** Interest of `rate` percent a year on an amount, for its days, or for the time passed if
      there are none; to the nearest cent. */
  ghost predicate InterestDue(amount: int, rate: int, days: int, start: int, now: int, reward: int)
  {
    if days == 0 then
      var passed := if now > start then now - start else 0;
      var year := 365 * 86_400_000;
      -year * 100 <= 2 * (100 * year * reward - amount * rate * passed) <= 100 * year
    else -36_500 <= 2 * (36_500 * reward - amount * rate * days) <= 36_500
  }

  lemma RoundError(num: int, den: int)
    requires den > 0
    ensures -1 * den <= 2 * (den * RoundHalfUp(num, den) - num) <= den
  {
  }

  /** A claim pays amount and interest, an early exit the amount alone. */
  lemma ClaimPays(v: Vault, id: nat, now: int)
    requires Sound(v) && id < |v.positions|
    ensures var p, r := v.positions[id], ClaimEffect(v, id, now);
            r.1.Done? ==>
              var reward := r.0.balance - v.balance - p.amount;
              && r.1 == Done(r.0.balance)
              && InterestDue(p.amount, p.ratePercent, p.durationDays, p.startsAt, now, reward)
              && r.0.positions == v.positions[id := p.(status := Claimed, reward := reward)]
    ensures var p, r := v.positions[id], UnstakeEffect(v, id, now);
            r.1.Done? ==>
              && r.1 == Done(r.0.balance) && r.0.balance == v.balance + p.amount
              && r.0.positions == v.positions[id := p.(status := Cancelled)]
  {
    var p := v.positions[id];
    assert SoundPosition(p);
    if p.durationDays == 0 {
      RoundError(p.amount * p.ratePercent * (if now > p.startsAt then now - p.startsAt else 0), 100 * MS_PER_YEAR);
    } else {
      RoundError(p.amount * p.ratePercent * p.durationDays, 36500);
    }
  }

  /** The plans on offer, by id: days, yearly rate, and the amounts they take. */
  predicate Offer(planId: string, days: int, rate: int, least: int, most: int)
  {
    || (planId, days, rate, least, most) == ("flexible", 0, 4, 1_00, 250_00)
    || (planId, days, rate, least, most) == ("starter", 7, 7, 5_00, 500_00)
    || (planId, days, rate, least, most) == ("growth", 14, 11, 10_00, 750_00)
    || (planId, days, rate, least, most) == ("diamond", 30, 18, 25_00, 1000_00)
  }

  lemma FindsOffer(planId: string, days: int, rate: int, least: int, most: int)
    ensures Offer(planId, days, rate, least, most)
       <==> FindPlan(PLANS, planId) == Some(Plan(planId, days, rate, least, most))
  {
  }

  ghost function ActiveIds(positions: seq<Position>): (ids: set<nat>)
  {
    set i: nat | i < |positions| && positions[i].status == Active
  }

  lemma {:induction false} CountsActive(positions: seq<Position>)
    ensures CountActive(positions) == |ActiveIds(positions)|
  {
    if positions != [] {
      var n := |positions| - 1;
      CountsActive(positions[..n]);
      assert ActiveIds(positions)
          == ActiveIds(positions[..n]) + if positions[n].status == Active then {n} else {};
    } else {
      assert ActiveIds(positions) == {};
    }
  }

  /** A position is opened exactly for a plan on offer, a whole number of cents within its
      limits and the balance, and fewer than 25 active positions. */
  lemma CreateTakes(v: Vault, planId: string, requested: int, now: int)
    ensures var r, n := CreateEffect(v, planId, requested, now), |v.positions|;
            && (r.1.Done? <==>
                  exists days, rate, least, most ::
                    && Offer(planId, days, rate, least, most)
                    && requested % 100 == 0 && least * 100 <= requested <= most * 100
                    && requested <= v.balance * 100 && |ActiveIds(v.positions)| < 25)
            && (!r.1.Done? ==> r == (v, Refused))
            && (r.1.Done? ==>
                  && r.1 == Done(r.0.balance) && r.0.balance * 100 == v.balance * 100 - requested
                  && |r.0.positions| == n + 1 && r.0.positions[..n] == v.positions
                  && var p := r.0.positions[n];
                     && p.status == Active && p.amount * 100 == requested && p.startsAt == now
                     && exists least, most :: Offer(planId, p.durationDays, p.ratePercent, least, most))
  {
    CountsActive(v.positions);
    var found := FindPlan(PLANS, planId);
    if found.Some? {
      var plan := found.value;
      FindsOffer(planId, plan.durationDays, plan.ratePercent, plan.minAmount, plan.maxAmount);
    } else if exists days, rate, least, most :: Offer(planId, days, rate, least, most) {
      var days, rate, least, most :| Offer(planId, days, rate, least, most);
      FindsOffer(planId, days, rate, least, most);
      assert false;
    }
  }

  predicate Touches(op: Op, id: nat)
  {
    (op.Claim? || op.Unstake?) && op.id == id
  }

  lemma {:induction false} OthersLeavePosition(v: Vault, ops: seq<Op>, id: nat)
    requires id < |v.positions| && forall i :: 0 <= i < |ops| ==> !Touches(ops[i], id)
    ensures id < |RunOps(v, ops).positions| && RunOps(v, ops).positions[id] == v.positions[id]
    decreases |ops|
  {
    if ops != [] {
      assert !Touches(ops[0], id);
      assert forall i :: 0 <= i < |ops[1..]| ==> ops[1..][i] == ops[i + 1];
      OthersLeavePosition(Perform(v, ops[0]).0, ops[1..], id);
    }
  }

  /** An active position of an amount, a rate, days and a start. */
  ghost predicate Holds(v: Vault, id: nat, amount: int, rate: int, days: int, start: int)
  {
    && Sound(v) && id < |v.positions|
    && var p := v.positions[id];
       && p.status == Active && p.amount == amount && p.ratePercent == rate && p.durationDays == days
       && p.startsAt == start
  }

  /** It is claimable from its days on, for what was put in and its interest. */
  ghost predicate PaysOnTime(v: Vault, id: nat, amount: int, rate: int, days: int, start: int, now: int)
  {
    var claim := ClaimEffect(v, id, now);
    && (claim.1.Done? <==> days == 0 || now >= start + days * 86_400_000)
    && (claim.1.Done? ==> InterestDue(amount, rate, days, start, now, claim.0.balance - v.balance - amount))
  }

  lemma HeldPaysOnTime(v: Vault, id: nat, amount: int, rate: int, days: int, start: int, now: int)
    requires Holds(v, id, amount, rate, days, start)
    ensures PaysOnTime(v, id, amount, rate, days, start, now)
  {
    ClaimableFromEnd(v, id, now);
    ClaimPays(v, id, now);
  }

  lemma CreatedAsOffered(v: Vault, planId: string, days: int, rate: int, least: int, most: int, requested: int,
                         start: int)
    requires Sound(v) && Offer(planId, days, rate, least, most)
    requires CreateEffect(v, planId, requested, start).1.Done?
    ensures Holds(CreateEffect(v, planId, requested, start).0, |v.positions|, requested / 100, rate, days, start)
  {
    FindsOffer(planId, days, rate, least, most);
    PerformKeeps(v, Create(planId, requested, start));
  }

  lemma OthersLeaveHeld(v: Vault, ops: seq<Op>, id: nat, amount: int, rate: int, days: int, start: int)
    requires Holds(v, id, amount, rate, days, start) && forall i :: 0 <= i < |ops| ==> !Touches(ops[i], id)
    ensures Holds(RunOps(v, ops), id, amount, rate, days, start)
  {
    OthersLeavePosition(v, ops, id);
    NetWorthIsConstant(v, ops);
  }

  /** A round trip: whatever other positions do meanwhile, what was put into a plan on offer can
      be claimed from the plan's days on, with the plan's interest. */
  lemma SavingsReturn(v: Vault, planId: string, days: int, rate: int, least: int, most: int, requested: int,
                      start: int, ops: seq<Op>, now: int)
    requires Sound(v) && Offer(planId, days, rate, least, most)
    requires CreateEffect(v, planId, requested, start).1.Done?
    requires forall i :: 0 <= i < |ops| ==> !Touches(ops[i], |v.positions|)
    ensures PaysOnTime(RunOps(CreateEffect(v, planId, requested, start).0, ops), |v.positions|, requested / 100, rate,
                       days, start, now)
  {
    var begun := CreateEffect(v, planId, requested, start).0;
    CreatedAsOffered(v, planId, days, rate, least, most, requested, start);
    OthersLeaveHeld(begun, ops, |v.positions|, requested / 100, rate, days, start);
    HeldPaysOnTime(RunOps(begun, ops), |v.positions|, requested / 100, rate, days, start, now);
  }

  // ----- The service -----

  class EarnVaultService {
    var balance: int
    var positions: seq<Position>

    constructor (balance: int)
      requires balance >= 0
      ensures State() == Vault(balance, []) && Sound(State())
    {
      this.balance, positions := balance, [];
    }

    ghost function State(): Vault
      reads this
    {
      Vault(balance, positions)
    }

    method CountActivePositions() returns (count: int)
      ensures count == CountActive(positions)
    {
      count := 0;
      for i := 0 to |positions|
        invariant count == Sum(positions[..i], IsActive)
      {
        assert positions[..i + 1][..i] == positions[..i];
        count := count + if positions[i].status == Active then 1 else 0;
      }
      assert positions[..|positions|] == positions;
    }

    /** `getSummary`: the money lines of the summary. */
    method GetSummary(now: int) returns (available: int, vaultBalance: int, pending: int, ready: int, claimed: int)
      ensures available + vaultBalance - claimed == NetWorth(State())
      ensures available == balance && vaultBalance == Sum(positions, ActiveAmount)
              && claimed == Sum(positions, ClaimedReward)
      ensures pending == Sum(positions, PendingAt(now))
      ensures ready == Sum(positions, ReadyAt(now))
    {
      available, vaultBalance, pending, ready, claimed := balance, 0, 0, 0, 0;
      for i := 0 to |positions|
        invariant vaultBalance == Sum(positions[..i], ActiveAmount)
        invariant claimed == Sum(positions[..i], ClaimedReward)
        invariant pending == Sum(positions[..i], PendingAt(now))
        invariant ready == Sum(positions[..i], ReadyAt(now))
      {
        assert positions[..i + 1][..i] == positions[..i];
        var p := positions[i];
        vaultBalance := vaultBalance + ActiveAmount(p);
        claimed := claimed + ClaimedReward(p);
        pending := pending + PendingAt(now)(p);
        ready := ready + ReadyAt(now)(p);
      }
      assert positions[..|positions|] == positions;
    }

    method CreatePosition(planId: string, requested: int, now: int) returns (reply: Reply)
      modifies this
      ensures (State(), reply) == Perform(old(State()), Create(planId, requested, now))
    {
      var found := FindPlan(PLANS, planId);
      if found.None? || requested <= 0 || requested % 100 != 0 {
        return Refused;
      }
      var plan, amount := found.value, requested / 100;
      if amount < plan.minAmount || amount > plan.maxAmount || balance < amount {
        return Refused;
      }
      var activePositionCount := CountActivePositions();
      if activePositionCount >= ACTIVE_LIMIT {
        return Refused;
      }
      var position := NewPosition(plan, amount, now);
      balance := balance - amount;
      positions := positions + [position];
      reply := Done(balance);
    }

    method ClaimPosition(id: nat, now: int) returns (reply: Reply)
      modifies this
      ensures (State(), reply) == Perform(old(State()), Claim(id, now))
      ensures Sound(old(State())) && id < |old(positions)| ==>
                var p := old(positions)[id];
                reply.Done? <==> p.status == Active && Ended(p, now)
    {
      if id >= |positions| || positions[id].status != Active {
        return Refused;
      }
      var position := positions[id];
      if !Flexible(position) && !Mature(position, now) {
        return Refused;
      }
      var rewardAmount := RewardNow(position, now);
      balance := balance + position.amount + rewardAmount;
      positions := positions[id := position.(status := Claimed, reward := rewardAmount)];
      reply := Done(balance);
    }

    method UnstakePosition(id: nat, now: int) returns (reply: Reply)
      modifies this
      ensures (State(), reply) == Perform(old(State()), Unstake(id, now))
      ensures Sound(old(State())) && id < |old(positions)| ==>
                var p := old(positions)[id];
                reply.Done? <==> p.status == Active && !Ended(p, now)
    {
      if id >= |positions| || positions[id].status != Active {
        return Refused;
      }
      var position := positions[id];
      if Flexible(position) || Mature(position, now) {
        return Refused;
      }
      balance := balance + position.amount;
      positions := positions[id := position.(status := Cancelled)];
      reply := Done(balance);
    }
  }
}
