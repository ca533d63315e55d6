/** Points, levels and challenges of the clicker game
    (src/modules/clickerUser/clicker-user.service.ts,
    src/modules/clickerChallenges/clicker-challenges.service.ts).

    Each grant, claim and progress update is one transaction, so it is one step. The state
    is one player's. */
module ClickerProgress {
  /** A tier of the level catalogue; level id 0 stands for no level yet. */
  datatype Level = Level(id: int, required: int)

  datatype Profile = Profile(points: int, total: int, level: int)

  datatype Status = InProgress | Completed | Claimed

  datatype Progress = Progress(progress: int, target: int, status: Status)

  datatype Player = Player(profile: Profile, challenges: map<nat, Progress>)

  datatype Reply = Ok | BadRequest | Conflict

  datatype Op =
    | Grant(delta: int)
    | WheelReward(amount: int)
    | Track(challenge: nat, target: int, count: int)
    | Claim(challenge: nat, reward: int)

  function Max(a: int, b: int): int
  {
    if a < b then b else a
  }

  function Min(a: int, b: int): int
  {
    if a < b then a else b
  }

  // ----- Levels -----

  /** The scan of `grantPoints`, `grantWheelRewardPoints` and `claimReward`: skip tiers below
      the current one, stop at the first one not reached. */
  function Scan(levels: seq<Level>, total: int, current: int, next: int): (level: int)
  {
    if levels == [] then next
    else if levels[0].id < current then Scan(levels[1..], total, current, next)
    else if total >= levels[0].required then Scan(levels[1..], total, current, levels[0].id)
    else next
  }

  /** The highest tier a total reaches, looking at every tier. */
  function Tier(levels: seq<Level>, total: int): (level: int)
    ensures level >= 0
  {
    if levels == [] then 0
    else Max(if total >= levels[0].required then levels[0].id else 0, Tier(levels[1..], total))
  }

  /** The catalogue is sorted by id. */
  ghost predicate AscendingIds(levels: seq<Level>)
  {
    && (forall i :: 0 <= i < |levels| ==> levels[i].id > 0)
    && (forall i, j :: 0 <= i < j < |levels| ==> levels[i].id < levels[j].id)
  }

  /** From the current level on, thresholds never decrease. */
  ghost predicate SortedFrom(levels: seq<Level>, current: int)
  {
    forall i, j :: 0 <= i < j < |levels| && levels[i].id >= current ==> levels[i].required <= levels[j].required
  }

  lemma {:induction false} NoneReached(levels: seq<Level>, total: int)
    requires forall i :: 0 <= i < |levels| ==> total < levels[i].required
    ensures Tier(levels, total) == 0
  {
    if levels != [] {
      NoneReached(levels[1..], total);
    }
  }

  lemma {:induction false} ScanFindsTier(levels: seq<Level>, total: int, current: int, next: int)
    requires AscendingIds(levels) && SortedFrom(levels, current) && 0 <= current <= next
    requires forall i :: 0 <= i < |levels| && levels[i].id >= current ==> levels[i].id >= next
    ensures Scan(levels, total, current, next) == Max(next, Tier(levels, total))
  {
    if levels != [] {
      var first, rest := levels[0], levels[1..];
      assert forall i :: 0 <= i < |rest| ==> rest[i] == levels[i + 1];
      if first.id < current {
        ScanFindsTier(rest, total, current, next);
      } else if total >= first.required {
        ScanFindsTier(rest, total, current, first.id);
      } else {
        NoneReached(levels, total);
      }
    }
  }

  /** An unreached tier from the current level on stops the scan. */
  lemma {:induction false} ScanStopsBy(levels: seq<Level>, total: int, current: int, next: int, i: nat)
    requires AscendingIds(levels) && i < |levels| && levels[i].id >= current && total < levels[i].required
    requires next <= levels[i].id
    ensures Scan(levels, total, current, next) <= levels[i].id
    decreases i
  {
    if i > 0 && (levels[0].id < current || total >= levels[0].required) {
      var rest := levels[1..];
      assert forall k :: 0 <= k < |rest| ==> rest[k] == levels[k + 1];
      ScanStopsBy(rest, total, current, if levels[0].id < current then next else levels[0].id, i - 1);
    }
  }

  lemma {:induction false} TierAtLeast(levels: seq<Level>, total: int, j: nat)
    requires j < |levels| && total >= levels[j].required
    ensures Tier(levels, total) >= levels[j].id
    decreases j
  {
    if j > 0 {
      TierAtLeast(levels[1..], total, j - 1);
    }
  }

  /** The scan misses the tier of some total for every pair of thresholds in the wrong order. */
  lemma InvertedPairMissed(levels: seq<Level>, current: int, i: nat, j: nat)
    requires AscendingIds(levels) && current >= 0 && i < j < |levels|
    requires levels[i].id >= current && levels[i].required > levels[j].required
    ensures var total := levels[j].required;
            Scan(levels, total, current, current) < levels[j].id <= Tier(levels, total)
  {
    ScanStopsBy(levels, levels[j].required, current, current, i);
    TierAtLeast(levels, levels[j].required, j);
  }

  /** For a catalogue sorted by id and a current level, the scan gives the higher of that level
      and the highest tier reached for every total if and only if thresholds never decrease
      from the current level on. */
  lemma ScanServesExactly(levels: seq<Level>, current: int)
    requires AscendingIds(levels) && current >= 0
    ensures (forall total :: Scan(levels, total, current, current) == Max(current, Tier(levels, total)))
       <==> SortedFrom(levels, current)
  {
    if SortedFrom(levels, current) {
      forall total ensures Scan(levels, total, current, current) == Max(current, Tier(levels, total)) {
        ScanFindsTier(levels, total, current, current);
      }
    } else {
      var i, j :| 0 <= i < j < |levels| && levels[i].id >= current && levels[i].required > levels[j].required;
      InvertedPairMissed(levels, current, i, j);
      var total := levels[j].required;
      assert Scan(levels, total, current, current) != Max(current, Tier(levels, total));
    }
  }

  lemma {:induction false} TierGrows(levels: seq<Level>, total: int, more: int)
    requires total <= more
    ensures Tier(levels, total) <= Tier(levels, more)
  {
    if levels != [] {
      TierGrows(levels[1..], total, more);
    }
  }

  /** No ordering of the catalogue, however wrong, can demote a player. */
  lemma {:induction false} ScanNeverDemotes(levels: seq<Level>, total: int, current: int, next: int)
    requires current <= next
    ensures current <= Scan(levels, total, current, next)
  {
    if levels != [] {
      ScanNeverDemotes(levels[1..], total, current, if levels[0].id < current then next else levels[0].id);
    }
  }

  /** With thresholds out of order the scan can miss a tier the total has reached. */
  lemma UnorderedCatalogueMissesTier()
    ensures var levels := [Level(1, 100), Level(2, 50)];
            Scan(levels, 60, 0, 0) == 0 && Tier(levels, 60) == 2
  {
  }

  // ----- Operations -----

  /** Points move by delta but not below 0; only gains count towards the lifetime total. */
  function Reward(p: Profile, levels: seq<Level>, delta: int): (after: Profile)
  {
    var total := p.total + Max(0, delta);
    Profile(Max(0, p.points + delta), total, Scan(levels, total, p.level, p.level))
  }

  /** `incrementProgress`: the step one event makes. */
  function Increment(target: int, count: int): (n: int)
    ensures n >= 1
  {
    Min(Max(1, target), Max(1, count))
  }

  function Tracked(challenges: map<nat, Progress>, c: nat, target: int, count: int): (after: Progress)
  {
    var n := Increment(target, count);
    if c !in challenges then Progress(n, Max(1, target), if n >= Max(1, target) then Completed else InProgress)
    else
      var row := challenges[c];
      if row.status == Claimed then row
      else
        var progress := Min(row.target, row.progress + n);
        Progress(progress, row.target, if progress >= row.target then Completed else row.status)
  }

  function Perform(s: Player, levels: seq<Level>, op: Op): (r: (Player, Reply))
  {
    match op
    case Grant(delta) =>
      if delta == 0 then (s, BadRequest) else (s.(profile := Reward(s.profile, levels, delta)), Ok)
    case WheelReward(amount) =>
      if amount <= 0 then (s, BadRequest) else (s.(profile := Reward(s.profile, levels, amount)), Ok)
    case Track(c, target, count) =>
      (s.(challenges := s.challenges[c := Tracked(s.challenges, c, target, count)]), Ok)
    case Claim(c, reward) =>
      if c !in s.challenges then (s, BadRequest)
      else if s.challenges[c].status == Claimed then (s, Conflict)
      else if s.challenges[c].status != Completed || s.challenges[c].progress < s.challenges[c].target then
        (s, BadRequest)
      else
        (Player(Reward(s.profile, levels, Max(0, reward)), s.challenges[c := s.challenges[c].(status := Claimed)]), Ok)
  }

  function RunOps(s: Player, levels: seq<Level>, ops: seq<Op>): (end: Player)
    decreases |ops|
  {
    if ops == [] then s else RunOps(Perform(s, levels, ops[0]).0, levels, ops[1..])
  }

  // ----- Levels over whole runs -----

  ghost predicate Solvent(s: Player)
  {
    s.profile.points >= 0 && s.profile.total >= 0 && s.profile.level >= 0
  }

  lemma ProfileStep(s: Player, levels: seq<Level>, op: Op)
    requires Solvent(s)
    ensures var after := Perform(s, levels, op).0;
            && Solvent(after) && after.profile.level >= s.profile.level && after.profile.total >= s.profile.total
            && (after.profile == s.profile
                || after.profile.level == Scan(levels, after.profile.total, s.profile.level, s.profile.level))
  {
    ScanNeverDemotes(levels, Perform(s, levels, op).0.profile.total, s.profile.level, s.profile.level);
  }

  /** Whatever the catalogue, no run makes points negative or takes a level or lifetime total back. */
  lemma {:induction false} NeverDemoted(s: Player, levels: seq<Level>, ops: seq<Op>)
    requires Solvent(s)
    ensures var end := RunOps(s, levels, ops);
            Solvent(end) && end.profile.level >= s.profile.level && end.profile.total >= s.profile.total
    decreases |ops|
  {
    if ops != [] {
      ProfileStep(s, levels, ops[0]);
      NeverDemoted(Perform(s, levels, ops[0]).0, levels, ops[1..]);
    }
  }

  /** For a catalogue sorted by id whose thresholds never decrease from the starting level on,
      the level after any run that touched the profile is the starting level or the tier of the
      lifetime total, whichever is higher. */
  lemma {:induction false} LevelIsTierOfTotal(s: Player, levels: seq<Level>, ops: seq<Op>)
    requires Solvent(s) && AscendingIds(levels) && SortedFrom(levels, s.profile.level)
    ensures var end := RunOps(s, levels, ops).profile;
            end == s.profile || end.level == Max(s.profile.level, Tier(levels, end.total))
    decreases |ops|
  {
    if ops != [] {
      var next := Perform(s, levels, ops[0]).0;
      var end := RunOps(s, levels, ops);
      ProfileStep(s, levels, ops[0]);
      ScanFindsTier(levels, next.profile.total, s.profile.level, s.profile.level);
      NeverDemoted(next, levels, ops[1..]);
      TierGrows(levels, next.profile.total, end.profile.total);
      LevelIsTierOfTotal(next, levels, ops[1..]);
    }
  }

  // ----- Points over whole runs -----

  /** A claim pays exactly when its row is completed; a claimed row is a conflict. */
  lemma ClaimAcceptedIff(s: Player, levels: seq<Level>, c: nat, reward: int)
    requires ChallengesValid(s)
    ensures var r := Perform(s, levels, Claim(c, reward));
            && (r.1 == Ok <==> c in s.challenges && s.challenges[c].status == Completed)
            && (r.1 == Conflict <==> c in s.challenges && s.challenges[c].status == Claimed)
            && (r.1 != Ok ==> r.0 == s)
            && (r.1 == Ok ==> r.0.challenges == s.challenges[c := s.challenges[c].(status := Claimed)])
  {
  }

  /** The points an operation moves: any grant but zero, a positive wheel reward, and the reward
      of a challenge completed and not claimed. */
  function Gain(s: Player, op: Op): (points: int)
  {
    match op
    case Grant(delta) => delta
    case WheelReward(amount) => if amount > 0 then amount else 0
    case Track(_, _, _) => 0
    case Claim(c, reward) =>
      if c in s.challenges && s.challenges[c].status == Completed && reward > 0 then reward else 0
  }

  function Gains(s: Player, levels: seq<Level>, ops: seq<Op>): (points: int)
    decreases |ops|
  {
    if ops == [] then 0 else Gain(s, ops[0]) + Gains(Perform(s, levels, ops[0]).0, levels, ops[1..])
  }

  function PositiveGains(s: Player, levels: seq<Level>, ops: seq<Op>): (points: int)
    decreases |ops|
  {
    if ops == [] then 0
    else Max(0, Gain(s, ops[0])) + PositiveGains(Perform(s, levels, ops[0]).0, levels, ops[1..])
  }

  /** What grants took beyond the points there were: those are let off. */
  function LetOff(s: Player, levels: seq<Level>, ops: seq<Op>): (points: int)
    ensures points >= 0
    decreases |ops|
  {
    if ops == [] then 0
    else
      Max(0, -(s.profile.points + Gain(s, ops[0]))) + LetOff(Perform(s, levels, ops[0]).0, levels, ops[1..])
  }

  lemma PointsStep(s: Player, levels: seq<Level>, op: Op)
    requires Solvent(s) && ChallengesValid(s)
    ensures var after := Perform(s, levels, op).0.profile;
            && after.total == s.profile.total + Max(0, Gain(s, op))
            && after.points == s.profile.points + Gain(s, op) + Max(0, -(s.profile.points + Gain(s, op)))
  {
    if op.Claim? {
      ClaimAcceptedIff(s, levels, op.challenge, op.reward);
    }
  }

  /** Over any run points are what was gained and lost, plus what losses were let off; the
      lifetime total is what was gained. */
  lemma {:induction false} PointsAddUp(s: Player, levels: seq<Level>, ops: seq<Op>)
    requires Solvent(s) && ChallengesValid(s)
    ensures var end := RunOps(s, levels, ops).profile;
            && end.points == s.profile.points + Gains(s, levels, ops) + LetOff(s, levels, ops)
            && end.total == s.profile.total + PositiveGains(s, levels, ops)
    decreases |ops|
  {
    if ops != [] {
      PointsStep(s, levels, ops[0]);
      ProfileStep(s, levels, ops[0]);
      PerformKeepsChallenges(s, levels, ops[0]);
      PointsAddUp(Perform(s, levels, ops[0]).0, levels, ops[1..]);
    }
  }

  // ----- Challenges over whole runs -----

  /** The steps of every event of a challenge in a run. */
  function Steps(ops: seq<Op>, c: nat): (sum: int)
    ensures sum >= 0
  {
    if ops == [] then 0
    else
      (if ops[0].Track? && ops[0].challenge == c then Increment(ops[0].target, ops[0].count) else 0)
      + Steps(ops[1..], c)
  }

  /** The same events at their full size. */
  function Counts(ops: seq<Op>, c: nat): (sum: int)
    ensures sum >= 0
  {
    if ops == [] then 0
    else (if ops[0].Track? && ops[0].challenge == c then Max(1, ops[0].count) else 0) + Counts(ops[1..], c)
  }

  predicate InStep(row: Progress)
  {
    && 1 <= row.progress <= row.target
    && (row.status == InProgress ==> row.progress < row.target)
    && (row.status != InProgress ==> row.progress == row.target)
  }

  ghost predicate ChallengesValid(s: Player)
  {
    forall c :: c in s.challenges ==> InStep(s.challenges[c])
  }

  lemma PerformKeepsChallenges(s: Player, levels: seq<Level>, op: Op)
    requires ChallengesValid(s)
    ensures ChallengesValid(Perform(s, levels, op).0)
  {
  }

  lemma ClaimedIsFrozen(s: Player, levels: seq<Level>, op: Op, c: nat)
    requires c in s.challenges && s.challenges[c].status == Claimed
    ensures var after := Perform(s, levels, op).0; c in after.challenges && after.challenges[c] == s.challenges[c]
  {
  }

  lemma {:induction false} ClaimedStaysFrozen(s: Player, levels: seq<Level>, ops: seq<Op>, c: nat)
    requires c in s.challenges && s.challenges[c].status == Claimed
    ensures var end := RunOps(s, levels, ops); c in end.challenges && end.challenges[c] == s.challenges[c]
    decreases |ops|
  {
    if ops != [] {
      ClaimedIsFrozen(s, levels, ops[0], c);
      ClaimedStaysFrozen(Perform(s, levels, ops[0]).0, levels, ops[1..], c);
    }
  }

  lemma RowStep(s: Player, levels: seq<Level>, op: Op, c: nat)
    requires ChallengesValid(s) && c in s.challenges && s.challenges[c].status != Claimed
    ensures var after := Perform(s, levels, op).0;
            && c in after.challenges
            && (after.challenges[c].status != Claimed ==>
                  && after.challenges[c].target == s.challenges[c].target
                  && after.challenges[c].progress
                     == Min(s.challenges[c].target, s.challenges[c].progress + Steps([op], c)))
  {
  }

  lemma {:induction false} RowFolds(s: Player, levels: seq<Level>, ops: seq<Op>, c: nat)
    requires ChallengesValid(s) && c in s.challenges && s.challenges[c].status != Claimed
    ensures var end := RunOps(s, levels, ops);
            && c in end.challenges && ChallengesValid(end)
            && (end.challenges[c].status != Claimed ==>
                  && end.challenges[c].target == s.challenges[c].target
                  && end.challenges[c].progress
                     == Min(s.challenges[c].target, s.challenges[c].progress + Steps(ops, c)))
    decreases |ops|
  {
    if ops != [] {
      var next := Perform(s, levels, ops[0]).0;
      RowStep(s, levels, ops[0], c);
      PerformKeepsChallenges(s, levels, ops[0]);
      assert Steps(ops, c) == Steps([ops[0]], c) + Steps(ops[1..], c);
      if next.challenges[c].status == Claimed {
        ClaimedStaysFrozen(next, levels, ops[1..], c);
        ValidThroughout(next, levels, ops[1..]);
      } else {
        RowFolds(next, levels, ops[1..], c);
      }
    }
  }

  lemma {:induction false} ValidThroughout(s: Player, levels: seq<Level>, ops: seq<Op>)
    requires ChallengesValid(s)
    ensures ChallengesValid(RunOps(s, levels, ops))
    decreases |ops|
  {
    if ops != [] {
      PerformKeepsChallenges(s, levels, ops[0]);
      ValidThroughout(Perform(s, levels, ops[0]).0, levels, ops[1..]);
    }
  }

  /** Event i is the first of challenge c; the row keeps its target. */
  ghost predicate Starts(ops: seq<Op>, c: nat, i: nat)
    requires i < |ops|
  {
    && ops[i].Track? && ops[i].challenge == c
    && forall j :: 0 <= j < i ==> !(ops[j].Track? && ops[j].challenge == c)
  }

  /** Until it is claimed, progress is the sum of its steps capped at the target of its
      first event, and it is completed exactly when that sum reaches the target. */
  lemma {:induction false} ProgressIsSum(s: Player, levels: seq<Level>, ops: seq<Op>, c: nat, i: nat)
    requires ChallengesValid(s) && c !in s.challenges && i < |ops| && Starts(ops, c, i)
    ensures var end := RunOps(s, levels, ops); var target := Max(1, ops[i].target);
            && c in end.challenges
            && (end.challenges[c].status != Claimed ==>
                  && end.challenges[c].target == target
                  && end.challenges[c].progress == Min(target, Steps(ops, c))
                  && (end.challenges[c].status == Completed <==> Steps(ops, c) >= target))
    decreases i
  {
    var next := Perform(s, levels, ops[0]).0;
    PerformKeepsChallenges(s, levels, ops[0]);
    if i == 0 {
      RowFolds(next, levels, ops[1..], c);
    } else {
      assert ops[1..][i - 1] == ops[i];
      assert Starts(ops[1..], c, i - 1);
      ProgressIsSum(next, levels, ops[1..], c, i - 1);
    }
  }

  /** Capping each step loses nothing when every event names the same target. */
  lemma {:induction false} StepsReachCounts(ops: seq<Op>, c: nat, target: int)
    requires forall i :: 0 <= i < |ops| && ops[i].Track? && ops[i].challenge == c ==> ops[i].target == target
    ensures Min(Max(1, target), Steps(ops, c)) == Min(Max(1, target), Counts(ops, c))
    decreases |ops|
  {
    if ops != [] {
      assert forall i :: 0 <= i < |ops[1..]| ==> ops[1..][i] == ops[i + 1];
      StepsReachCounts(ops[1..], c, target);
    }
  }

  /** With a fixed target, progress before the claim is the total count capped at the target,
      whatever the order of the events. */
  lemma FixedTargetProgress(s: Player, levels: seq<Level>, ops: seq<Op>, c: nat, i: nat)
    requires ChallengesValid(s) && c !in s.challenges && i < |ops| && Starts(ops, c, i)
    requires forall k :: 0 <= k < |ops| && ops[k].Track? && ops[k].challenge == c ==> ops[k].target == ops[i].target
    ensures var end := RunOps(s, levels, ops); var target := Max(1, ops[i].target);
            && c in end.challenges
            && (end.challenges[c].status != Claimed ==>
                  && end.challenges[c].progress == Min(target, Counts(ops, c))
                  && (end.challenges[c].status == Completed <==> Counts(ops, c) >= target))
  {
    ProgressIsSum(s, levels, ops, c, i);
    StepsReachCounts(ops, c, ops[i].target);
  }

  // ----- Rewards are paid once -----

  /** Successful claims of a challenge in a run. */
  function Payments(s: Player, levels: seq<Level>, ops: seq<Op>, c: nat): (n: nat)
    decreases |ops|
  {
    if ops == [] then 0
    else
      (if ops[0].Claim? && ops[0].challenge == c && Perform(s, levels, ops[0]).1 == Ok then 1 else 0)
      + Payments(Perform(s, levels, ops[0]).0, levels, ops[1..], c)
  }

  function ClaimedCount(s: Player, c: nat): nat
  {
    if c in s.challenges && s.challenges[c].status == Claimed then 1 else 0
  }

  /** The reward is paid exactly when the row becomes claimed, so at most once in any run. */
  lemma {:induction false} PaidOnce(s: Player, levels: seq<Level>, ops: seq<Op>, c: nat)
    ensures ClaimedCount(s, c) + Payments(s, levels, ops, c) == ClaimedCount(RunOps(s, levels, ops), c) <= 1
    decreases |ops|
  {
    if ops != [] {
      PaidOnce(Perform(s, levels, ops[0]).0, levels, ops[1..], c);
    }
  }

  // ----- The services -----

  class ClickerService {
    const levels: seq<Level>
    var points: int
    var totalPoints: int
    var level: int
    var challenges: map<nat, Progress>

    ghost function State(): Player
      reads this
    {
      Player(Profile(points, totalPoints, level), challenges)
    }

    constructor (levels: seq<Level>)
      ensures this.levels == levels && State() == Player(Profile(0, 0, 0), map[])
      ensures Solvent(State()) && ChallengesValid(State())
    {
      this.levels := levels;
      points, totalPoints, level, challenges := 0, 0, 0, map[];
    }

    method GrantPoints(delta: int) returns (reply: Reply)
      modifies this
      ensures (State(), reply) == Perform(old(State()), levels, Grant(delta))
    {
      if delta == 0 {
        return BadRequest;
      }
      Reanchor(delta);
      reply := Ok;
    }

    method GrantWheelRewardPoints(amount: int) returns (reply: Reply)
      modifies this
      ensures (State(), reply) == Perform(old(State()), levels, WheelReward(amount))
    {
      if amount <= 0 {
        return BadRequest;
      }
      Reanchor(amount);
      reply := Ok;
    }

    /** The transaction the two grants and the claim share. */
    method Reanchor(delta: int)
      modifies this`points, this`totalPoints, this`level
      ensures State().profile == Reward(old(State()).profile, levels, delta)
    {
      points := if points + delta > 0 then points + delta else 0;
      totalPoints := totalPoints + if delta > 0 then delta else 0;
      var next, i := level, 0;
      var scanning := true;
      while i < |levels| && scanning
        invariant i <= |levels|
        invariant Scan(levels, totalPoints, level, level)
                  == if scanning then Scan(levels[i..], totalPoints, level, next) else next
      {
        if levels[i].id >= level {
          if totalPoints >= levels[i].required {
            next := levels[i].id;
          } else {
            scanning := false;
          }
        }
        i := i + 1;
      }
      level := next;
    }

    method IncrementProgress(challenge: nat, target: int, count: int)
      modifies this`challenges
      ensures State() == Perform(old(State()), levels, Track(challenge, target, count)).0
    {
      var rowTarget := if target > 1 then target else 1;
      var wanted := if count > 1 then count else 1;
      var increment := if wanted < rowTarget then wanted else rowTarget;
      if challenge !in challenges {
        var status := if increment >= rowTarget then Completed else InProgress;
        challenges := challenges[challenge := Progress(increment, rowTarget, status)];
      } else if challenges[challenge].status != Claimed {
        var row := challenges[challenge];
        var progress := if row.progress + increment < row.target then row.progress + increment else row.target;
        var status := if progress >= row.target then Completed else row.status;
        challenges := challenges[challenge := Progress(progress, row.target, status)];
      } else {
        assert challenges == challenges[challenge := challenges[challenge]];
      }
    }

    method ClaimReward(challenge: nat, pointsReward: int) returns (reply: Reply)
      modifies this
      ensures (State(), reply) == Perform(old(State()), levels, Claim(challenge, pointsReward))
    {
      if challenge !in challenges {
        return BadRequest;
      }
      var row := challenges[challenge];
      if row.status == Claimed {
        return Conflict;
      }
      if row.status != Completed || row.progress < row.target {
        return BadRequest;
      }
      Reanchor(if pointsReward > 0 then pointsReward else 0);
      challenges := challenges[challenge := row.(status := Claimed)];
      reply := Ok;
    }
  }
}
