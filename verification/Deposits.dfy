/** Skinsback webhooks: crediting a deposit, its VIP bonus and the referring partner
    (src/modules/payments/skinsback.service.ts, src/modules/payments/skinsback.logic.ts,
    src/modules/partners/partner.service.ts).

    A webhook is one transaction under the deposit's row lock, so it is one step. */
module Deposits {
  import opened Money
  import opened Sequences

  datatype DepositStatus = WaitingStatus | Success | Error | Cancelled

  /** Order and transaction ids are None where the source holds an empty string or null. */
  datatype Deposit = Deposit(
    userId: nat,
    orderId: Option<nat>,
    externalId: Option<nat>,
    amount: int,
    bonus: int,
    status: DepositStatus,
    credited: bool)

  datatype User = User(balance: int, depositAmount: int, vipXp: int, parent: Option<nat>)

  datatype Profile = Profile(level: int, total: int)

  /** A row of partner_levels. */
  datatype Level = Level(level: int, threshold: int)

  /** One crediting of a deposit; `partner` is whoever was credited for the referral. */
  datatype Credit = Credit(deposit: nat, userId: nat, amount: int, bonus: int, partner: Option<nat>, postback: bool)

  /** Deposit ids are positions. `credits` records, in order, every crediting done. */
  datatype Bank = Bank(
    deposits: seq<Deposit>,
    users: map<nat, User>,
    profiles: map<nat, Profile>,
    credits: seq<Credit>)

  // ----- Reading the payload -----

  datatype RawStatus = RawSuccess | RawFail | HoldReturned | RawPending | InHold | HoldApproved | Other

  /** Amounts of a payload count thousandths of a unit; an unusable number counts as 0. */
  datatype Payload = Payload(orderId: Option<nat>, transactionId: Option<nat>, status: RawStatus, userAmount: int,
                             amount: int)

  /** `mapSkinsbackStatus` */
  function MapStatus(status: RawStatus): DepositStatus
  {
    match status
    case RawSuccess => Success
    case RawFail => Cancelled
    case HoldReturned => Cancelled
    case RawPending => WaitingStatus
    case InHold => WaitingStatus
    case HoldApproved => WaitingStatus
    case Other => Error
  }

  /** `getSkinsbackCreditAmount`, in cents: a positive user_amount wins over amount. */
  function CreditAmount(p: Payload): (cents: int)
    ensures cents >= 0
    ensures p.userAmount > 0 ==> -5 <= 10 * cents - p.userAmount <= 5
    ensures p.userAmount <= 0 < p.amount ==> -5 <= 10 * cents - p.amount <= 5
    ensures p.userAmount <= 0 && p.amount <= 0 ==> cents == 0
  {
    if p.userAmount > 0 then RoundHalfUp(p.userAmount, 10)
    else RoundHalfUp(if p.amount > 0 then p.amount else 0, 10)
  }

  // ----- VIP bonus -----

  datatype VipTier = VipTier(threshold: int, bonusRate: int, bonusCap: int, minAmount: int)

  const VIP_TIERS: seq<VipTier> := [
    VipTier(0, 3, 1000, 1000), VipTier(500, 7, 3500, 2000),
    VipTier(5000, 12, 12500, 5000), VipTier(15000, 15, 25000, 10000)
  ]

  function TierForXp(tiers: seq<VipTier>, xp: int, current: VipTier): (t: VipTier)
    ensures t == current || t in tiers
  {
    if tiers == [] then current
    else TierForXp(tiers[1..], xp, if xp >= tiers[0].threshold then tiers[0] else current)
  }

  /** A share in hundredths of a cent, rounded to cents and capped. */
  function Capped(share: int, cap: int): (cents: int)
  {
    if share < cap * 100 then RoundHalfUp(share, 100) else cap
  }

  function TierBonus(rate: int, cap: int, least: int, amount: int): (cents: int)
  {
    if rate <= 0 || amount < least || amount <= 0 then 0 else Capped(amount * rate, cap)
  }

  lemma TierBonusNonNegative(rate: int, cap: int, least: int, amount: int)
    requires cap >= 0
    ensures TierBonus(rate, cap, least, amount) >= 0
  {
    if rate > 0 && amount > 0 {
      assert amount * rate > 0;
    }
  }

  /** `calculateVipDepositBonus` */
  function DepositBonus(vipXp: int, amount: int): (cents: int)
    ensures cents >= 0
  {
    var tier := TierForXp(VIP_TIERS, if vipXp > 0 then vipXp else 0, VIP_TIERS[0]);
    assert forall t :: t in VIP_TIERS ==> t.bonusCap > 0;
    TierBonusNonNegative(tier.bonusRate, tier.bonusCap, tier.minAmount, amount);
    TierBonus(tier.bonusRate, tier.bonusCap, tier.minAmount, amount)
  }

  /** Below `least` nothing, else the rate in percent to the nearest cent, up to the cap. */
  ghost predicate BonusOf(bonus: int, amount: int, rate: int, cap: int, least: int)
  {
    if amount < least then bonus == 0
    else if amount * rate >= cap * 100 then bonus == cap
    else bonus <= cap && -50 <= 100 * bonus - amount * rate <= 50
  }

  /** The tier an experience falls in: its rate, its cap and the least deposit it rewards. */
  predicate TierTerms(vipXp: int, rate: int, cap: int, least: int)
  {
    (rate, cap, least) == if vipXp < 500 then (3, 10_00, 10_00) else if vipXp < 5_000 then (7, 35_00, 20_00)
                          else if vipXp < 15_000 then (12, 125_00, 50_00) else (15, 250_00, 100_00)
  }

  lemma TierFound(vipXp: int, rate: int, cap: int, least: int)
    requires TierTerms(vipXp, rate, cap, least)
    ensures var tier := TierForXp(VIP_TIERS, if vipXp > 0 then vipXp else 0, VIP_TIERS[0]);
            (tier.bonusRate, tier.bonusCap, tier.minAmount) == (rate, cap, least)
  {
    var tiers, xp := VIP_TIERS, if vipXp > 0 then vipXp else 0;
    assert tiers[1..] == [tiers[1], tiers[2], tiers[3]];
    assert tiers[1..][1..] == [tiers[2], tiers[3]] && tiers[1..][1..][1..] == [tiers[3]];
    var second := if xp >= 500 then tiers[1] else tiers[0];
    var third := if xp >= 5_000 then tiers[2] else second;
    assert TierForXp(tiers, xp, tiers[0]) == TierForXp([tiers[1], tiers[2], tiers[3]], xp, tiers[0]);
    assert TierForXp([tiers[1], tiers[2], tiers[3]], xp, tiers[0]) == TierForXp([tiers[2], tiers[3]], xp, second);
    assert TierForXp([tiers[2], tiers[3]], xp, second) == TierForXp([tiers[3]], xp, third);
  }

  lemma TierBonusBounds(rate: int, cap: int, least: int, amount: int)
    requires 0 < rate && 0 < cap && 0 < least && 50 <= least * rate
    ensures BonusOf(TierBonus(rate, cap, least, amount), amount, rate, cap, least)
    ensures amount >= least <==> TierBonus(rate, cap, least, amount) > 0
  {
    if amount >= least {
      MulOrder(rate, least, amount);
      assert rate * least == least * rate && rate * amount == amount * rate;
    }
  }

  /** The bonus of a deposit, by the experience of its user. */
  lemma BonusByTier(vipXp: int, amount: int, rate: int, cap: int, least: int)
    requires TierTerms(vipXp, rate, cap, least)
    ensures BonusOf(DepositBonus(vipXp, amount), amount, rate, cap, least)
    ensures amount >= least <==> DepositBonus(vipXp, amount) > 0
  {
    TierFound(vipXp, rate, cap, least);
    TierBonusBounds(rate, cap, least, amount);
  }

  lemma CappedGrows(share: int, more: int, cap: int, higher: int)
    requires share <= more && cap <= higher
    ensures Capped(share, cap) <= Capped(more, higher)
  {
    RoundMonotone(share, 100, more, 100);
  }

  /** The terms of a tier. */
  datatype Terms = Terms(rate: int, cap: int, least: int)

  /** More experience means a smaller bonus exactly for a deposit below the least amount of the
      higher tier but not of the lower one. */
  lemma BonusFallsIff(vipXp: int, more: int, amount: int, low: Terms, high: Terms)
    requires vipXp <= more
    requires TierTerms(vipXp, low.rate, low.cap, low.least) && TierTerms(more, high.rate, high.cap, high.least)
    ensures DepositBonus(more, amount) < DepositBonus(vipXp, amount) <==> low.least <= amount < high.least
  {
    TierFound(vipXp, low.rate, low.cap, low.least);
    TierFound(more, high.rate, high.cap, high.least);
    TierBonusBounds(low.rate, low.cap, low.least, amount);
    TierBonusBounds(high.rate, high.cap, high.least, amount);
    if amount >= high.least {
      MulOrder(amount, low.rate, high.rate);
      CappedGrows(amount * low.rate, amount * high.rate, low.cap, high.cap);
    }
  }

  // ----- Partner levels -----

  const BRONZE := 1

  /** The scan of `recomputeLevel`: stop at the first threshold not reached. */
  function LevelFor(levels: seq<Level>, total: int, current: int): (level: int)
  {
    if levels == [] || total < levels[0].threshold then current
    else LevelFor(levels[1..], total, levels[0].level)
  }

  ghost predicate Ascending(levels: seq<Level>)
  {
    forall i, j :: 0 <= i < j < |levels| ==>
      levels[i].threshold <= levels[j].threshold && levels[i].level < levels[j].level
  }

  /** With ascending thresholds the scan finds the highest level reached, or keeps the
      starting one when none is. */
  lemma {:induction false} LevelIsHighestReached(levels: seq<Level>, total: int, current: int)
    requires Ascending(levels)
    ensures forall k :: 0 <= k < |levels| && levels[k].threshold <= total ==>
              levels[k].level <= LevelFor(levels, total, current)
    ensures LevelFor(levels, total, current) == current
            || exists k :: 0 <= k < |levels| && levels[k].threshold <= total
                           && levels[k].level == LevelFor(levels, total, current)
    ensures LevelFor(levels, total, current) == current
            || (levels != [] && levels[0].level <= LevelFor(levels, total, current))
  {
    if levels != [] && total >= levels[0].threshold {
      var rest := levels[1..];
      assert forall k :: 0 <= k < |rest| ==> rest[k] == levels[k + 1];
      LevelIsHighestReached(rest, total, levels[0].level);
      assert levels[0].level <= LevelFor(rest, total, levels[0].level);
      if LevelFor(rest, total, levels[0].level) != levels[0].level {
        var k :| 0 <= k < |rest| && rest[k].threshold <= total
                 && rest[k].level == LevelFor(rest, total, levels[0].level);
        assert levels[k + 1].threshold <= total;
      }
    }
  }

  /** The highest level a total reaches, bronze if it reaches none. */
  ghost predicate HighestReached(levels: seq<Level>, total: int, level: int)
  {
    && (forall k :: 0 <= k < |levels| && levels[k].threshold <= total ==> levels[k].level <= level)
    && (level == BRONZE || exists k :: 0 <= k < |levels| && levels[k].threshold <= total && levels[k].level == level)
  }

  /** The levels in the order of the query. */
  ghost predicate InOrder(levels: seq<Level>)
  {
    && (forall i :: 0 <= i < |levels| ==> levels[i].level >= BRONZE)
    && (forall i, j :: 0 <= i < j < |levels| ==> levels[i].level < levels[j].level)
  }

  ghost predicate ThresholdsAscend(levels: seq<Level>)
  {
    forall i, j :: 0 <= i < j < |levels| ==> levels[i].threshold <= levels[j].threshold
  }

  lemma {:induction false} ScanStopsBefore(levels: seq<Level>, total: int, current: int, i: nat)
    requires InOrder(levels) && i < |levels| && total < levels[i].threshold && current <= levels[i].level
    ensures LevelFor(levels, total, current) <= levels[i].level
    decreases i
  {
    if i > 0 && total >= levels[0].threshold {
      assert forall k :: 0 <= k < |levels[1..]| ==> levels[1..][k] == levels[k + 1];
      ScanStopsBefore(levels[1..], total, levels[0].level, i - 1);
    }
  }

  /** The scan stores the highest level reached for every total if and only if thresholds never
      decrease from one level to the next. */
  lemma LevelServesExactly(levels: seq<Level>)
    requires InOrder(levels)
    ensures (forall total :: HighestReached(levels, total, LevelFor(levels, total, BRONZE)))
       <==> ThresholdsAscend(levels)
  {
    if ThresholdsAscend(levels) {
      forall total ensures HighestReached(levels, total, LevelFor(levels, total, BRONZE)) {
        LevelIsHighestReached(levels, total, BRONZE);
      }
    } else {
      var i, j :| 0 <= i < j < |levels| && levels[i].threshold > levels[j].threshold;
      ScanStopsBefore(levels, levels[j].threshold, BRONZE, i);
      assert !HighestReached(levels, levels[j].threshold, LevelFor(levels, levels[j].threshold, BRONZE));
    }
  }

  // ----- The effect of a webhook -----

  datatype Reply =
    | BadRequest
    | NotFound
    | Handled(creditedFlag: bool, status: DepositStatus)

  /** The deposit carries the payload's order id or, without one, its transaction id. */
  predicate Carries(d: Deposit, p: Payload)
  {
    if p.orderId.Some? then d.orderId == p.orderId else d.externalId == p.transactionId
  }

  /** The query of the webhook: the first row that carries the payload's id. */
  function FindDeposit(deposits: seq<Deposit>, p: Payload): (id: Option<nat>)
    ensures id.Some? ==>
              && id.value < |deposits| && Carries(deposits[id.value], p)
              && forall i :: 0 <= i < id.value ==> !Carries(deposits[i], p)
    ensures id.None? ==> forall i :: 0 <= i < |deposits| ==> !Carries(deposits[i], p)
  {
    if deposits == [] then None
    else
      var n := |deposits| - 1;
      match FindDeposit(deposits[..n], p)
      case Some(id) => Some(id)
      case None => if Carries(deposits[n], p) then Some(n) else None
  }

  /** `recordReferralDeposit`: the partner credited, if any. */
  function ReferralPartner(userId: nat, user: User, amount: int): (partner: Option<nat>)
  {
    if user.parent == None || user.parent == Some(userId) || amount <= 0 then None else user.parent
  }

  function AddReferral(profiles: map<nat, Profile>, levels: seq<Level>, partner: Option<nat>,
                       amount: int): (after: map<nat, Profile>)
  {
    match partner
    case None => profiles
    case Some(p) =>
      var total := amount + if p in profiles then profiles[p].total else 0;
      profiles[p := Profile(LevelFor(levels, total, BRONZE), total)]
  }

  /** What the webhook writes on the deposit whatever its status. */
  function Touched(d: Deposit, p: Payload): (t: Deposit)
  {
    d.(externalId := if p.transactionId.Some? then p.transactionId else d.externalId,
       orderId := if p.orderId.Some? then p.orderId else d.orderId,
       amount := if CreditAmount(p) > 0 then CreditAmount(p) else d.amount)
  }

  /** Crediting: user balance and deposit total, partner total and level, the postback. */
  function CreditEffect(b: Bank, levels: seq<Level>, id: nat, d: Deposit, amount: int): (after: Bank)
    requires id < |b.deposits| && d.userId in b.users
  {
    var user := b.users[d.userId];
    var bonus := DepositBonus(user.vipXp, amount);
    var partner := ReferralPartner(d.userId, user, amount);
    Bank(b.deposits[id := d.(status := Success, bonus := bonus, credited := true)],
         b.users[d.userId := user.(balance := user.balance + amount + bonus,
                                   depositAmount := user.depositAmount + amount)],
         AddReferral(b.profiles, levels, partner, amount),
         b.credits + [Credit(id, d.userId, amount, bonus, partner, partner.Some? && user.depositAmount <= 0)])
  }

  function WebhookEffect(b: Bank, levels: seq<Level>, p: Payload): (r: (Bank, Reply))
  {
    if p.orderId.None? && p.transactionId.None? then (b, BadRequest)
    else
      match FindDeposit(b.deposits, p)
      case None => (b, NotFound)
      case Some(id) =>
        var d := b.deposits[id];
        if p.transactionId.Some? && d.externalId.Some? && d.externalId != p.transactionId then (b, BadRequest)
        else
          var touched, amount := Touched(d, p), CreditAmount(p);
          if p.status == RawSuccess && amount > 0 && !d.credited then
            if d.userId !in b.users then (b, NotFound)
            else (CreditEffect(b, levels, id, touched, amount), Handled(true, Success))
          else
            var status :=
              if p.status != RawSuccess then MapStatus(p.status)
              else if amount <= 0 then Error
              else Success;
            (b.(deposits := b.deposits[id := touched.(status := status)]),
             Handled(p.status == RawSuccess && !d.credited, status))
  }

  datatype Op = CreateDeposit(userId: nat, orderId: nat, externalId: Option<nat>) | Webhook(payload: Payload)

  function Perform(b: Bank, levels: seq<Level>, op: Op): (after: Bank)
  {
    match op
    case CreateDeposit(userId, orderId, externalId) =>
      b.(deposits := b.deposits + [Deposit(userId, Some(orderId), externalId, 0, 0, WaitingStatus, false)])
    case Webhook(p) => WebhookEffect(b, levels, p).0
  }

  function RunOps(b: Bank, levels: seq<Level>, ops: seq<Op>): (end: Bank)
    decreases |ops|
  {
    if ops == [] then b else RunOps(Perform(b, levels, ops[0]), levels, ops[1..])
  }

  // ----- What every run keeps -----

  function CreditedTo(userId: nat): (f: Credit -> int)
  {
    (c: Credit) => if c.userId == userId then c.amount + c.bonus else 0
  }

  function DepositedBy(userId: nat): (f: Credit -> int)
  {
    (c: Credit) => if c.userId == userId then c.amount else 0
  }

  function ReferredTo(partner: nat): (f: Credit -> int)
  {
    (c: Credit) => if c.partner == Some(partner) then c.amount else 0
  }

  function TotalOf(profiles: map<nat, Profile>, partner: nat): int
  {
    if partner in profiles then profiles[partner].total else 0
  }

  ghost predicate UserBalanced(b0: Bank, b: Bank, u: nat)
    requires u in b0.users && u in b.users
  {
    && b.users[u].parent == b0.users[u].parent
    && b.users[u].balance == b0.users[u].balance + Sum(b.credits, CreditedTo(u))
    && b.users[u].depositAmount == b0.users[u].depositAmount + Sum(b.credits, DepositedBy(u))
  }

  ghost predicate PartnerBalanced(b0: Bank, b: Bank, p: nat)
  {
    TotalOf(b.profiles, p) == TotalOf(b0.profiles, p) + Sum(b.credits, ReferredTo(p))
  }

  /** A partner that was credited stands at the level its total scans to. */
  ghost predicate LevelStored(profiles: map<nat, Profile>, levels: seq<Level>, partner: Option<nat>)
  {
    partner.Some? ==>
      && partner.value in profiles
      && profiles[partner.value].level == LevelFor(levels, profiles[partner.value].total, BRONZE)
  }

  ghost predicate LevelsStored(b: Bank, levels: seq<Level>)
  {
    forall k :: 0 <= k < |b.credits| ==> LevelStored(b.profiles, levels, b.credits[k].partner)
  }

  /** The books of b, opened at b0: every change of a balance, a deposit total or a partner
      total is accounted for by the credits recorded since. */
  ghost predicate Balanced(b0: Bank, b: Bank, levels: seq<Level>)
  {
    && b.users.Keys == b0.users.Keys
    && (forall u :: u in b0.users && u in b.users ==> UserBalanced(b0, b, u))
    && (forall p :: PartnerBalanced(b0, b, p))
    && LevelsStored(b, levels)
  }

  ghost predicate CreditValid(b: Bank, c: Credit)
  {
    && c.deposit < |b.deposits| && b.deposits[c.deposit].credited && b.deposits[c.deposit].userId == c.userId
    && c.userId in b.users && c.amount > 0 && c.bonus >= 0
    && b.deposits[c.deposit].bonus == c.bonus
    && c.partner == ReferralPartner(c.userId, b.users[c.userId], c.amount)
    && (c.postback ==> c.partner.Some?)
  }

  ghost predicate CreditsValid(b: Bank)
  {
    forall k :: 0 <= k < |b.credits| ==> CreditValid(b, b.credits[k])
  }

  ghost predicate OneCreditEach(credits: seq<Credit>)
  {
    forall j, k :: 0 <= j < k < |credits| ==> credits[j].deposit != credits[k].deposit
  }

  ghost predicate Recorded(credits: seq<Credit>, i: nat)
  {
    exists k :: 0 <= k < |credits| && credits[k].deposit == i
  }

  ghost predicate CreditedRecorded(b: Bank)
  {
    forall i :: 0 <= i < |b.deposits| && b.deposits[i].credited ==> Recorded(b.credits, i)
  }

  ghost predicate PostbackOnFirst(credits: seq<Credit>)
  {
    forall j, k :: 0 <= j < k < |credits| && credits[j].userId == credits[k].userId ==> !credits[k].postback
  }

  /** Each deposit is credited at most once, `credited_at` says whether it was, and a user's
      first-deposit postback can only go with that user's first credit. */
  ghost predicate ExactlyOnce(b: Bank)
  {
    CreditsValid(b) && OneCreditEach(b.credits) && CreditedRecorded(b) && PostbackOnFirst(b.credits)
  }

  ghost predicate Opening(b0: Bank)
  {
    && b0.credits == []
    && (forall i :: 0 <= i < |b0.deposits| ==> !b0.deposits[i].credited)
    && (forall u :: u in b0.users ==> b0.users[u].depositAmount >= 0)
  }

  /** Deposits are never removed, `credited_at` is never cleared, and the user stays. */
  ghost predicate CreditSticks(before: Bank, after: Bank)
  {
    && |before.deposits| <= |after.deposits| && before.credits <= after.credits
    && forall i :: 0 <= i < |before.deposits| ==>
         && after.deposits[i].userId == before.deposits[i].userId
         && (before.deposits[i].credited ==>
               after.deposits[i].credited && after.deposits[i].bonus == before.deposits[i].bonus)
  }

  lemma {:induction false} SumsOverCredits(credits: seq<Credit>, userId: nat)
    requires forall k :: 0 <= k < |credits| ==> credits[k].amount > 0
    ensures Sum(credits, DepositedBy(userId)) >= 0
    ensures (exists k :: 0 <= k < |credits| && credits[k].userId == userId) ==> Sum(credits, DepositedBy(userId)) > 0
  {
    if credits != [] {
      SumsOverCredits(credits[..|credits| - 1], userId);
    }
  }

  lemma CreditKeepsUsers(b0: Bank, b: Bank, levels: seq<Level>, id: nat, d: Deposit, amount: int, u: nat)
    requires id < |b.deposits| && d.userId in b.users && u in b0.users && u in b.users
    requires UserBalanced(b0, b, u)
    ensures UserBalanced(b0, CreditEffect(b, levels, id, d, amount), u)
  {
  }

  lemma CreditKeepsPartners(b0: Bank, b: Bank, levels: seq<Level>, id: nat, d: Deposit, amount: int, p: nat)
    requires id < |b.deposits| && d.userId in b.users && PartnerBalanced(b0, b, p)
    ensures PartnerBalanced(b0, CreditEffect(b, levels, id, d, amount), p)
  {
  }

  lemma CreditKeepsLevels(b: Bank, levels: seq<Level>, id: nat, d: Deposit, amount: int)
    requires LevelsStored(b, levels) && id < |b.deposits| && d.userId in b.users
    ensures LevelsStored(CreditEffect(b, levels, id, d, amount), levels)
  {
  }

  lemma CreditKeepsBalanced(b0: Bank, b: Bank, levels: seq<Level>, id: nat, d: Deposit, amount: int)
    requires Balanced(b0, b, levels) && id < |b.deposits| && d.userId in b.users
    ensures Balanced(b0, CreditEffect(b, levels, id, d, amount), levels)
  {
    var after := CreditEffect(b, levels, id, d, amount);
    assert after.users.Keys == b.users.Keys;
    forall u | u in b0.users && u in b.users ensures UserBalanced(b0, after, u) {
      CreditKeepsUsers(b0, b, levels, id, d, amount, u);
    }
    forall p ensures PartnerBalanced(b0, after, p) {
      CreditKeepsPartners(b0, b, levels, id, d, amount, p);
    }
    CreditKeepsLevels(b, levels, id, d, amount);
  }

  lemma CreditKeepsValid(b: Bank, levels: seq<Level>, id: nat, d: Deposit, amount: int)
    requires CreditsValid(b) && OneCreditEach(b.credits) && CreditedRecorded(b)
    requires id < |b.deposits| && !b.deposits[id].credited
    requires d.userId == b.deposits[id].userId && d.userId in b.users && amount > 0
    ensures var after := CreditEffect(b, levels, id, d, amount);
            CreditsValid(after) && OneCreditEach(after.credits) && CreditedRecorded(after)
  {
    var after, n := CreditEffect(b, levels, id, d, amount), |b.credits|;
    forall k | 0 <= k < |after.credits| ensures CreditValid(after, after.credits[k]) {
      if k < n {
        assert CreditValid(b, b.credits[k]);
      }
    }
    assert forall k :: 0 <= k < n ==> CreditValid(b, b.credits[k]) && b.credits[k].deposit != id;
    forall i | 0 <= i < |after.deposits| && after.deposits[i].credited ensures Recorded(after.credits, i) {
      if i == id {
        assert after.credits[n].deposit == i;
      } else {
        assert Recorded(b.credits, i);
        var k :| 0 <= k < n && b.credits[k].deposit == i;
        assert after.credits[k].deposit == i;
      }
    }
  }

  lemma CreditKeepsPostback(b0: Bank, b: Bank, levels: seq<Level>, id: nat, d: Deposit, amount: int)
    requires Opening(b0) && Balanced(b0, b, levels) && CreditsValid(b) && PostbackOnFirst(b.credits)
    requires id < |b.deposits| && d.userId in b.users
    ensures PostbackOnFirst(CreditEffect(b, levels, id, d, amount).credits)
  {
    assert forall k :: 0 <= k < |b.credits| ==> CreditValid(b, b.credits[k]);
    SumsOverCredits(b.credits, d.userId);
    assert UserBalanced(b0, b, d.userId);
  }

  lemma CreditKeepsExactlyOnce(b0: Bank, b: Bank, levels: seq<Level>, id: nat, d: Deposit, amount: int)
    requires Opening(b0) && Balanced(b0, b, levels) && ExactlyOnce(b)
    requires id < |b.deposits| && !b.deposits[id].credited
    requires d.userId == b.deposits[id].userId && d.userId in b.users && amount > 0
    ensures ExactlyOnce(CreditEffect(b, levels, id, d, amount))
  {
    CreditKeepsValid(b, levels, id, d, amount);
    CreditKeepsPostback(b0, b, levels, id, d, amount);
  }

  /** Writing a deposit without crediting it changes neither set of books. */
  lemma DepositsKeep(b0: Bank, b: Bank, levels: seq<Level>, deposits: seq<Deposit>)
    requires Balanced(b0, b, levels) && ExactlyOnce(b)
    requires |b.deposits| <= |deposits|
    requires forall i :: 0 <= i < |b.deposits| ==>
               && deposits[i].userId == b.deposits[i].userId
               && deposits[i].credited == b.deposits[i].credited
               && deposits[i].bonus == b.deposits[i].bonus
    requires forall i :: |b.deposits| <= i < |deposits| ==> !deposits[i].credited
    ensures Balanced(b0, b.(deposits := deposits), levels) && ExactlyOnce(b.(deposits := deposits))
  {
    var after := b.(deposits := deposits);
    forall k | 0 <= k < |after.credits| ensures CreditValid(after, after.credits[k]) {
      assert CreditValid(b, b.credits[k]);
    }
    forall u | u in b0.users && u in b.users ensures UserBalanced(b0, after, u) {
      assert UserBalanced(b0, b, u);
    }
    forall p ensures PartnerBalanced(b0, after, p) {
      assert PartnerBalanced(b0, b, p);
    }
  }

  lemma WebhookKeeps(b0: Bank, b: Bank, levels: seq<Level>, p: Payload)
    requires Opening(b0) && Balanced(b0, b, levels) && ExactlyOnce(b)
    ensures var after := WebhookEffect(b, levels, p).0; Balanced(b0, after, levels) && ExactlyOnce(after)
  {
    var after := WebhookEffect(b, levels, p).0;
    if after.credits != b.credits {
      var id := FindDeposit(b.deposits, p).value;
      var touched := Touched(b.deposits[id], p);
      CreditKeepsBalanced(b0, b, levels, id, touched, CreditAmount(p));
      CreditKeepsExactlyOnce(b0, b, levels, id, touched, CreditAmount(p));
    } else {
      assert after == b.(deposits := after.deposits);
      DepositsKeep(b0, b, levels, after.deposits);
    }
  }

  lemma WebhookSticks(b: Bank, levels: seq<Level>, p: Payload)
    ensures CreditSticks(b, WebhookEffect(b, levels, p).0)
  {
  }

  lemma PerformKeeps(b0: Bank, b: Bank, levels: seq<Level>, op: Op)
    requires Opening(b0) && Balanced(b0, b, levels) && ExactlyOnce(b)
    ensures var after := Perform(b, levels, op);
            Balanced(b0, after, levels) && ExactlyOnce(after) && CreditSticks(b, after)
  {
    match op {
      case CreateDeposit(_, _, _) => DepositsKeep(b0, b, levels, Perform(b, levels, op).deposits);
      case Webhook(p) =>
        WebhookKeeps(b0, b, levels, p);
        WebhookSticks(b, levels, p);
    }
  }

  /** For any sequence of new deposits and webhooks, in any order, with repeats and changed
      amounts: every deposit is credited at most once and stays credited, and user balances,
      user deposit totals and partner totals move by exactly the recorded credits. */
  lemma {:induction false} CreditedExactlyOnce(b0: Bank, b: Bank, levels: seq<Level>, ops: seq<Op>)
    requires Opening(b0) && Balanced(b0, b, levels) && ExactlyOnce(b)
    ensures var end := RunOps(b, levels, ops);
            Balanced(b0, end, levels) && ExactlyOnce(end) && CreditSticks(b, end)
    decreases |ops|
  {
    if ops != [] {
      PerformKeeps(b0, b, levels, ops[0]);
      CreditedExactlyOnce(b0, Perform(b, levels, ops[0]), levels, ops[1..]);
    }
  }

  /** Opening the books: the run starts balanced. */
  lemma OpeningIsBalanced(b0: Bank, levels: seq<Level>)
    requires Opening(b0)
    ensures Balanced(b0, b0, levels) && ExactlyOnce(b0)
  {
  }

  /** A partner who was ever credited stands at the highest level the total reaches. */
  lemma PartnerLevelIsHighest(b0: Bank, levels: seq<Level>, ops: seq<Op>, k: nat)
    requires Opening(b0) && Ascending(levels)
    requires k < |RunOps(b0, levels, ops).credits| && RunOps(b0, levels, ops).credits[k].partner.Some?
    ensures var end := RunOps(b0, levels, ops);
            var p := end.credits[k].partner.value;
            && p in end.profiles
            && (forall i :: 0 <= i < |levels| && levels[i].threshold <= end.profiles[p].total ==>
                  levels[i].level <= end.profiles[p].level)
            && (end.profiles[p].level == BRONZE
                || exists i :: 0 <= i < |levels| && levels[i].threshold <= end.profiles[p].total
                               && levels[i].level == end.profiles[p].level)
  {
    OpeningIsBalanced(b0, levels);
    CreditedExactlyOnce(b0, b0, levels, ops);
    var end := RunOps(b0, levels, ops);
    assert LevelStored(end.profiles, levels, end.credits[k].partner);
    LevelIsHighestReached(levels, end.profiles[end.credits[k].partner.value].total, BRONZE);
  }

  // ----- What the code does not keep -----

  /** Status is last-webhook-wins: it depends on the latest accepted payload alone, even for
      a deposit already credited, and so does a positive amount. */
  lemma LastWebhookWins(b: Bank, levels: seq<Level>, p: Payload)
    requires WebhookEffect(b, levels, p).1.Handled?
    ensures var id := FindDeposit(b.deposits, p).value;
            var d := WebhookEffect(b, levels, p).0.deposits[id];
            && d.status == StatusBy(p)
            && d.amount == (if CreditAmount(p) > 0 then CreditAmount(p) else b.deposits[id].amount)
            && d.externalId == (if p.transactionId.Some? then p.transactionId else b.deposits[id].externalId)
            && d.orderId == b.deposits[id].orderId && d.userId == b.deposits[id].userId
  {
  }

  /** A deposit bound to a transaction keeps to it for good: webhooks of another one are refused. */
  lemma {:induction false} TransactionBinds(b: Bank, levels: seq<Level>, ops: seq<Op>, id: nat)
    requires id < |b.deposits| && b.deposits[id].externalId.Some?
    ensures var end := RunOps(b, levels, ops);
            id < |end.deposits| && end.deposits[id].externalId == b.deposits[id].externalId
    decreases |ops|
  {
    if ops != [] {
      TransactionBinds(Perform(b, levels, ops[0]), levels, ops[1..], id);
    }
  }

  /** From request to balance: the success of a new order credits its user amount and bonus. */
  lemma NewDepositIsCredited(b: Bank, levels: seq<Level>, user: nat, order: nat, p: Payload)
    requires user in b.users && forall i :: 0 <= i < |b.deposits| ==> b.deposits[i].orderId != Some(order)
    requires p.orderId == Some(order) && p.status == RawSuccess && CreditAmount(p) > 0
    ensures var created := Perform(b, levels, CreateDeposit(user, order, None));
            var r := WebhookEffect(created, levels, p);
            && created.users == b.users && r.1 == Handled(true, Success) && user in r.0.users
            && r.0.users[user].balance
               == b.users[user].balance + CreditAmount(p) + DepositBonus(b.users[user].vipXp, CreditAmount(p))
  {
    var created := Perform(b, levels, CreateDeposit(user, order, None));
    CreditedIffDue(created, levels, p, |b.deposits|);
    assert FindDeposit(created.deposits, p) == Some(|b.deposits|);
  }

  /** The status a payload stands for. */
  function StatusBy(p: Payload): (status: DepositStatus)
    ensures status == Success <==> p.status == RawSuccess && CreditAmount(p) > 0
    ensures status == Cancelled <==> p.status == RawFail || p.status == HoldReturned
    ensures status == WaitingStatus <==> p.status == RawPending || p.status == InHold || p.status == HoldApproved
  {
    if p.status != RawSuccess then MapStatus(p.status) else if CreditAmount(p) > 0 then Success else Error
  }

  /** A webhook is accepted and finds deposit id. */
  predicate Hits(b: Bank, levels: seq<Level>, op: Op, id: nat)
  {
    && op.Webhook? && WebhookEffect(b, levels, op.payload).1.Handled?
    && FindDeposit(b.deposits, op.payload) == Some(id)
  }

  /** The last accepted webhook of a run that found deposit id. */
  function LastHit(b: Bank, levels: seq<Level>, ops: seq<Op>, id: nat): (p: Option<Payload>)
    decreases |ops|
  {
    if ops == [] then None
    else
      var later := LastHit(Perform(b, levels, ops[0]), levels, ops[1..], id);
      if later.Some? then later else if Hits(b, levels, ops[0], id) then Some(ops[0].payload) else None
  }

  lemma HitSetsStatus(b: Bank, levels: seq<Level>, op: Op, id: nat)
    requires id < |b.deposits|
    ensures var after := Perform(b, levels, op);
            && id < |after.deposits|
            && after.deposits[id].status
               == if Hits(b, levels, op, id) then StatusBy(op.payload) else b.deposits[id].status
  {
  }

  /** After any run a deposit has the status of the last accepted webhook that found it: it
      reads Success exactly when that one reported success with a usable amount, whether or
      not the deposit was ever credited. */
  lemma {:induction false} LastWebhookDecides(b: Bank, levels: seq<Level>, ops: seq<Op>, id: nat)
    requires id < |b.deposits|
    ensures var end, last := RunOps(b, levels, ops), LastHit(b, levels, ops, id);
            && id < |end.deposits|
            && end.deposits[id].status == (if last.Some? then StatusBy(last.value) else b.deposits[id].status)
            && (last.Some? ==> (end.deposits[id].status == Success
                                <==> last.value.status == RawSuccess && CreditAmount(last.value) > 0))
    decreases |ops|
  {
    if ops != [] {
      HitSetsStatus(b, levels, ops[0], id);
      LastWebhookDecides(Perform(b, levels, ops[0]), levels, ops[1..], id);
    }
  }

  /** So a credited deposit can end up waiting, showing an amount that was never credited. */
  lemma CreditedYetWaiting()
    ensures var b := Bank([Deposit(7, Some(1), None, 0, 0, WaitingStatus, false)], map[7 := User(0, 0, 0, None)],
                          map[], []);
            var paid := WebhookEffect(b, [], Payload(Some(1), None, RawSuccess, 5000, 0)).0;
            var end := WebhookEffect(paid, [], Payload(Some(1), None, RawPending, 9000, 0)).0;
            && end.users[7].balance == 500 && end.deposits[0].credited
            && end.deposits[0].status == WaitingStatus && end.deposits[0].amount == 900
  {
    var deposits := [Deposit(7, Some(1), None, 0, 0, WaitingStatus, false)];
    RoundUnique(5000, 10, 500);
    RoundUnique(9000, 10, 900);
    var p := Payload(Some(1), None, RawSuccess, 5000, 0);
    assert FindDeposit(deposits, p) == Some(0);
    var after := deposits[0 := Deposit(7, Some(1), None, 500, 0, Success, true)];
    assert FindDeposit(after, Payload(Some(1), None, RawPending, 9000, 0)) == Some(0);
  }

  /** The reply claims a credit exactly when one was made or the amount was unusable. */
  lemma CreditedFlag(b: Bank, levels: seq<Level>, p: Payload)
    requires WebhookEffect(b, levels, p).1.Handled?
    ensures var r := WebhookEffect(b, levels, p);
            var wasCredited := b.deposits[FindDeposit(b.deposits, p).value].credited;
            r.1.creditedFlag <==>
              |r.0.credits| > |b.credits| || (p.status == RawSuccess && CreditAmount(p) <= 0 && !wasCredited)
  {
  }

  // ----- One webhook -----

  /** A payload that is a success for this deposit, not credited before. */
  predicate Due(d: Deposit, p: Payload)
  {
    p.status == RawSuccess && CreditAmount(p) > 0 && !d.credited
  }

  /** Its transaction id contradicts the one stored. */
  predicate Contradicts(d: Deposit, p: Payload)
  {
    p.transactionId.Some? && d.externalId.Some? && d.externalId != p.transactionId
  }

  /** How each webhook is answered; a refused one changes nothing. */
  lemma WebhookReplies(b: Bank, levels: seq<Level>, p: Payload)
    ensures var r := WebhookEffect(b, levels, p);
            && (p.orderId.None? && p.transactionId.None? ==> r == (b, BadRequest))
            && ((p.orderId.Some? || p.transactionId.Some?)
                && (forall i :: 0 <= i < |b.deposits| ==>
                      if p.orderId.Some? then b.deposits[i].orderId != p.orderId
                      else b.deposits[i].externalId != p.transactionId) ==>
                  r == (b, NotFound))
            && (r.1 == BadRequest || r.1 == NotFound ==> r.0 == b)
  {
  }

  /** A credit goes to the deposit that carries the payload's id and was not credited before,
      and to its user: that balance, deposit total, and deposit change, and the total of the
      user's parent, and nothing else does. */
  lemma CreditGoesToOwner(b: Bank, levels: seq<Level>, p: Payload)
    requires WebhookEffect(b, levels, p).0.credits != b.credits
    ensures var after := WebhookEffect(b, levels, p).0;
            && |after.credits| == |b.credits| + 1 && after.credits[..|b.credits|] == b.credits
            && var c := after.credits[|b.credits|];
               && c.deposit < |b.deposits|
               && var d := b.deposits[c.deposit];
                  && (p.orderId.Some? ==> d.orderId == p.orderId)
                  && (p.orderId.None? ==> p.transactionId.Some? && d.externalId == p.transactionId)
                  && !d.credited && p.status == RawSuccess && c.amount == CreditAmount(p) > 0
                  && c.userId == d.userId && d.userId in b.users
                  && CreditedUser(b.users[d.userId], after.users, b.users, d.userId, c)
                  && CreditedParent(b.users[d.userId].parent, after.profiles, b.profiles, c)
  {
  }

  /** The user got amount and bonus; nobody else's row changed. */
  ghost predicate CreditedUser(user: User, after: map<nat, User>, before: map<nat, User>, id: nat, c: Credit)
  {
    && after.Keys == before.Keys && id in after
    && after[id] == user.(balance := user.balance + c.amount + c.bonus,
                          depositAmount := user.depositAmount + c.amount)
    && c.bonus == DepositBonus(user.vipXp, c.amount)
    && (forall u :: u in before && u != id ==> after[u] == before[u])
    && (c.postback <==> user.parent.Some? && user.parent != Some(id) && user.depositAmount <= 0)
  }

  /** A parent other than the user has the amount added to its total; no other profile changed. */
  ghost predicate CreditedParent(parent: Option<nat>, after: map<nat, Profile>, before: map<nat, Profile>, c: Credit)
  {
    if parent.Some? && parent != Some(c.userId) then
      && parent.value in after && after.Keys == before.Keys + {parent.value}
      && after[parent.value].total == TotalOf(before, parent.value) + c.amount
      && forall q :: q in before && q != parent.value ==> after[q] == before[q]
    else after == before
  }

  /** A credit is made exactly when the first deposit that carries the id is due, is not
      contradicted, and its user exists. */
  lemma CreditedIffDue(b: Bank, levels: seq<Level>, p: Payload, id: nat)
    requires p.orderId.Some? || p.transactionId.Some?
    requires id < |b.deposits| && Carries(b.deposits[id], p)
    requires forall i :: 0 <= i < id ==> !Carries(b.deposits[i], p)
    ensures var r, d := WebhookEffect(b, levels, p), b.deposits[id];
            && (r.0.credits != b.credits <==> Due(d, p) && !Contradicts(d, p) && d.userId in b.users)
            && (r.1 == BadRequest <==> Contradicts(d, p))
            && (r.1 == NotFound <==> !Contradicts(d, p) && Due(d, p) && d.userId !in b.users)
  {
    assert FindDeposit(b.deposits, p) == Some(id);
  }

  lemma StillFound(deposits: seq<Deposit>, p: Payload, id: nat, d: Deposit)
    requires FindDeposit(deposits, p) == Some(id) && Carries(d, p)
    ensures FindDeposit(deposits[id := d], p) == Some(id)
  {
    var after := deposits[id := d];
    assert Carries(after[id], p);
    assert forall i :: 0 <= i < id ==> after[i] == deposits[i];
  }

  /** Webhooks are retried: the same payload again is accepted again, with the same status, and
      changes nothing. */
  lemma RetryChangesNothing(b: Bank, levels: seq<Level>, p: Payload)
    requires WebhookEffect(b, levels, p).1.Handled?
    ensures var once := WebhookEffect(b, levels, p);
            var twice := WebhookEffect(once.0, levels, p);
            twice.0 == once.0 && twice.1.Handled? && twice.1.status == once.1.status
  {
    var once := WebhookEffect(b, levels, p).0;
    var id := FindDeposit(b.deposits, p).value;
    assert once.deposits == b.deposits[id := once.deposits[id]];
    StillFound(b.deposits, p, id, once.deposits[id]);
    assert Touched(once.deposits[id], p) == once.deposits[id];
    assert once.deposits[id := once.deposits[id]] == once.deposits;
  }

  // ----- The service -----

  class SkinsbackService {
    const levels: seq<Level>
    var deposits: seq<Deposit>
    var users: map<nat, User>
    var profiles: map<nat, Profile>
    ghost var credits: seq<Credit>

    ghost function State(): Bank
      reads this
    {
      Bank(deposits, users, profiles, credits)
    }

    constructor (levels: seq<Level>, users: map<nat, User>, profiles: map<nat, Profile>)
      requires forall u :: u in users ==> users[u].depositAmount >= 0
      ensures this.levels == levels && State() == Bank([], users, profiles, []) && Opening(State())
    {
      this.levels, this.users, this.profiles := levels, users, profiles;
      deposits, credits := [], [];
    }

    /** `recomputeLevel` */
    method RecomputeLevel(partner: nat) returns (level: int)
      modifies this`profiles
      ensures partner !in old(profiles) ==> level == BRONZE && profiles == old(profiles)
      ensures partner in old(profiles) ==>
                && level == LevelFor(levels, old(profiles)[partner].total, BRONZE)
                && profiles == old(profiles)[partner := Profile(level, old(profiles)[partner].total)]
    {
      if partner !in profiles {
        return BRONZE;
      }
      var profile := profiles[partner];
      level := BRONZE;
      var i := 0;
      while i < |levels| && profile.total >= levels[i].threshold
        invariant i <= |levels|
        invariant LevelFor(levels[i..], profile.total, level) == LevelFor(levels, profile.total, BRONZE)
      {
        level := levels[i].level;
        i := i + 1;
      }
      if profile.level != level {
        profiles := profiles[partner := profile.(level := level)];
      } else {
        assert profiles == profiles[partner := Profile(level, profile.total)];
      }
    }

    /** `recordReferralDeposit`: whether a first-deposit postback is produced. */
    method RecordReferralDeposit(userId: nat, user: User, amount: int, firstDeposit: bool) returns (postback: bool)
      modifies this`profiles
      ensures var partner := ReferralPartner(userId, user, amount);
              && profiles == AddReferral(old(profiles), levels, partner, amount)
              && postback == (partner.Some? && firstDeposit)
    {
      if user.parent.None? || user.parent.value == userId || amount <= 0 {
        return false;
      }
      var partner := user.parent.value;
      if partner in profiles {
        profiles := profiles[partner := profiles[partner].(total := profiles[partner].total + amount)];
      } else {
        profiles := profiles[partner := Profile(BRONZE, amount)];
      }
      var _ := RecomputeLevel(partner);
      postback := firstDeposit;
    }

    method HandleWebhook(p: Payload) returns (reply: Reply, postback: bool)
      modifies this
      ensures (State(), reply) == WebhookEffect(old(State()), levels, p)
      ensures postback == (|credits| > |old(credits)| && credits[|credits| - 1].postback)
    {
      postback := false;
      if p.orderId.None? && p.transactionId.None? {
        return BadRequest, false;
      }
      var found := FindDeposit(deposits, p);
      if found.None? {
        return NotFound, false;
      }
      var id := found.value;
      var deposit := deposits[id];
      if p.transactionId.Some? && deposit.externalId.Some? && deposit.externalId != p.transactionId {
        return BadRequest, false;
      }
      var wasCredited, creditAmount := deposit.credited, CreditAmount(p);
      if p.transactionId.Some? { deposit := deposit.(externalId := p.transactionId); }
      if p.orderId.Some? { deposit := deposit.(orderId := p.orderId); }
      if creditAmount > 0 { deposit := deposit.(amount := creditAmount); }
      assert deposit == Touched(deposits[id], p);
      if p.status == RawSuccess {
        if creditAmount <= 0 {
          deposit := deposit.(status := Error);
        } else if !wasCredited {
          if deposit.userId !in users {
            return NotFound, false;
          }
          postback := CreditUser(id, deposit, creditAmount);
          return Handled(true, Success), postback;
        } else {
          deposit := deposit.(status := Success);
        }
      } else {
        deposit := deposit.(status := MapStatus(p.status));
      }
      deposits := deposits[id := deposit];
      reply := Handled(p.status == RawSuccess && !wasCredited, deposit.status);
    }

    method CreditUser(id: nat, deposit: Deposit, creditAmount: int) returns (postback: bool)
      requires id < |deposits| && deposit.userId in users
      modifies this
      ensures State() == CreditEffect(old(State()), levels, id, deposit, creditAmount)
      ensures postback == credits[|credits| - 1].postback
    {
      var user := users[deposit.userId];
      var previousDepositAmount := user.depositAmount;
      var bonusAmount := DepositBonus(user.vipXp, creditAmount);
      deposits := deposits[id := deposit.(bonus := bonusAmount, status := Success, credited := true)];
      users := users[deposit.userId := user.(balance := user.balance + creditAmount + bonusAmount,
                                             depositAmount := user.depositAmount + creditAmount)];
      postback := RecordReferralDeposit(deposit.userId, user, creditAmount, previousDepositAmount <= 0);
      credits := credits + [Credit(id, deposit.userId, creditAmount, bonusAmount,
                                   ReferralPartner(deposit.userId, user, creditAmount), postback)];
    }
  }
}
