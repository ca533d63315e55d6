/** Giveaways: joining, bot pacing and drawing a winner
    (src/modules/giveaways/giveaways.service.ts, src/modules/giveaways/giveaways.logic.ts).

    Each transaction under a giveaway's row lock is one step. A maintenance job decides on a
    bot from what it read and adds it in a later step, so other steps come between. */
module Giveaways {
  import opened Money
  import opened Sequences

  datatype Status = Active | Completed | Cancelled

  datatype Tier = Tier(minBots: nat, maxBots: nat)

  /** A random number as the source draws them. */
  type Unit = r: real | 0.0 <= r < 1.0

  /** `word` is the 32-bit hash of the giveaway's id; tier is None for an unknown type. */
  datatype Giveaway = Giveaway(
    participants: seq<nat>,
    count: nat,
    start: int,
    end: int,
    required: int,
    tier: Option<Tier>,
    word: nat,
    status: Status,
    winner: Option<nat>)

  /** A row of user_inventory created for a winner. */
  datatype Prize = Prize(giveaway: nat, user: nat)

  /** A maintenance job's decision to add a bot, taken at `now`. */
  datatype Job = Job(giveaway: nat, bot: nat, now: int)

  /** `bots` are the ids of the bot profiles. */
  datatype World = World(giveaways: seq<Giveaway>, prizes: seq<Prize>, jobs: seq<Job>, bots: seq<nat>)

  // ----- Pure rules -----

  /** `Array.from(new Set(...))` */
  function Unique(xs: seq<nat>): (ys: seq<nat>)
    ensures Distinct(ys)
    ensures forall x :: x in ys <==> x in xs
    ensures Distinct(xs) ==> ys == xs
  {
    if xs == [] then []
    else
      var n := |xs| - 1;
      var front := Unique(xs[..n]);
      assert xs == xs[..n] + [xs[n]];
      if xs[n] in front then front else front + [xs[n]]
  }

  /** An element of a list at a random position. */
  function Pick(xs: seq<nat>, r: Unit): (x: Option<nat>)
    ensures xs == [] <==> x == None
    ensures x.Some? ==> x.value in xs
  {
    if xs == [] then None
    else
      var index := (r * |xs| as real).Floor;
      assert 0.0 <= r * |xs| as real;
      Some(xs[if index < |xs| - 1 then index else |xs| - 1])
  }

  /** A random number from i / n to (i + 1) / n. */
  predicate At(r: Unit, n: nat, i: nat)
  {
    i as real <= r * n as real < i as real + 1.0
  }

  /** Each position is picked on an equal stretch of the random numbers. */
  lemma PickAt(xs: seq<nat>, r: Unit, i: nat)
    requires i < |xs| && At(r, |xs|, i)
    ensures Pick(xs, r) == Some(xs[i])
  {
    var scaled := r * |xs| as real;
    assert scaled.Floor == i;
  }

  /** One turn of the loop of `hashToUnit`, on 32-bit words. */
  function Mix(hash: bv32, code: bv32): (next: bv32)
  {
    (hash ^ code) * 16777619
  }

  const OFFSET_BASIS: bv32 := 2166136261

  /** The hash of a string, given the codes of its characters. */
  function Hash(codes: seq<bv32>): (hash: bv32)
  {
    if codes == [] then OFFSET_BASIS else Mix(Hash(codes[..|codes| - 1]), codes[|codes| - 1])
  }

  /** `hashToUnit`, before the division by 0xffffffff. */
  method HashToWord(codes: seq<bv32>) returns (word: nat)
    ensures word == Hash(codes) as nat < 0x1_0000_0000
  {
    var hash := OFFSET_BASIS;
    for i := 0 to |codes|
      invariant hash == Hash(codes[..i])
    {
      assert codes[..i + 1][..i] == codes[..i];
      hash := Mix(hash, codes[i]);
    }
    assert codes[..|codes|] == codes;
    word := hash as nat;
  }

  /** Two published test vectors of FNV-1a: the empty string and "a". */
  lemma HashVectors()
    ensures Hash([]) == 0x811c_9dc5 && Hash([97]) == 0xe40c_292c
  {
    assert [97][..0] == [];
    assert Mix(0x811c_9dc5, 97) == 0xe40c_292c;
  }

  function BotTarget(word: nat, tier: Tier): (target: nat)
  {
    if tier.maxBots <= tier.minBots then tier.minBots
    else tier.minBots + word * (tier.maxBots - tier.minBots + 1) / 0xffff_ffff
  }

  lemma ScaledShare(word: nat, span: nat, limit: nat)
    requires word <= limit && span > 0 && limit > 0
    ensures 0 <= word * span / limit <= span
    ensures word * span / limit == span <==> word == limit
  {
    var q := word * span / limit;
    DivisionBounds(word * span, limit);
    assert word * span >= 0;
    MulOrder(limit, -1, q);
    MulOrder(limit, q, span);
    MulOrder(limit, span, q + 1);
    MulOrder(span, word, limit);
  }

  /** The target lies in the tier's range for every word but the largest. */
  lemma BotTargetRange(word: nat, tier: Tier)
    requires word < 0x1_0000_0000 && tier.minBots < tier.maxBots
    ensures tier.minBots <= BotTarget(word, tier) <= tier.maxBots + 1
    ensures BotTarget(word, tier) == tier.maxBots + 1 <==> word == 0xffff_ffff
  {
    ScaledShare(word, tier.maxBots - tier.minBots + 1, 0xffff_ffff);
  }

  /** A tier's range is shared out evenly: each target above the least takes the same stretch of
      words. */
  lemma BotTargetShare(word: nat, tier: Tier, extra: nat)
    requires tier.minBots < tier.maxBots
    ensures BotTarget(word, tier) == tier.minBots + extra
       <==> extra * 0xffff_ffff <= word * (tier.maxBots - tier.minBots + 1) < (extra + 1) * 0xffff_ffff
    ensures BotTarget(word, Tier(tier.minBots, tier.minBots)) == tier.minBots
  {
    var share := word * (tier.maxBots - tier.minBots + 1);
    DivisionBounds(share, 0xffff_ffff);
  }

  function Elapsed(elapsed: int, duration: int): (e: int)
    requires duration > 0
    ensures 0 <= e <= duration
  {
    if elapsed <= 0 then 0 else if elapsed < duration then elapsed else duration
  }

  function Ceil(num: int, den: int): int
    requires den > 0
  {
    (num + den - 1) / den
  }

  lemma PartBounds(r: real, d: real)
    requires 0.0 <= r < 1.0 && d > 0.0
    ensures 0.0 <= r * d < d
  {
    assert (1.0 - r) * d > 0.0;
    assert (1.0 - r) * d == d - r * d;
  }

  /** A random part of d. */
  function PartOf(r: Unit, d: int): (part: real)
    requires d > 0
    ensures 0.0 <= part < d as real
  {
    PartBounds(r, d as real);
    r * d as real
  }

  /** The whole part of expected / duration, and one more with a chance equal to the fraction:
      `part` is a random part of the duration. */
  function AllowedBots(expected: nat, duration: int, part: real): (bots: nat)
    requires duration > 0
  {
    expected / duration + if part < (expected % duration) as real then 1 else 0
  }

  /** `shouldJoinGiveawayBot`: the whole part of the elapsed share of the target, and one
      more with a chance equal to the fraction. */
  predicate ShouldJoin(botCount: nat, target: nat, elapsed: int, duration: int, r: Unit)
    requires duration > 0
  {
    && elapsed > 0 && botCount < target
    && botCount < AllowedBots(Elapsed(elapsed, duration) * target, duration, PartOf(r, duration))
  }

  lemma AllowedIff(b: nat, expected: nat, d: int, part: real)
    requires d > 0 && 0.0 <= part < d as real
    ensures b < AllowedBots(expected, d, part) <==> (b * d) as real + part < expected as real
  {
    var w, rest := expected / d, expected % d;
    assert expected == d * w + rest;
    if b < w {
      MulOrder(d, b + 1, w);
      assert d * (b + 1) == b * d + d;
    } else if b > w {
      MulOrder(d, w + 1, b);
      assert d * (w + 1) == d * w + d && d * b == b * d;
    }
  }

  lemma JoinsIffPart(botCount: nat, target: nat, elapsed: int, duration: int, expected: nat, part: real)
    requires duration > 0 && 0.0 <= part < duration as real && expected <= target * duration
    requires elapsed <= 0 ==> expected == 0
    ensures elapsed > 0 && botCount < target && botCount < AllowedBots(expected, duration, part)
       <==> (botCount * duration) as real + part < expected as real
  {
    AllowedIff(botCount, expected, duration, part);
    if botCount >= target {
      MulOrder(duration, target, botCount);
      assert duration * target == target * duration && duration * botCount == botCount * duration;
    }
    assert botCount * duration >= 0;
  }

  lemma JoinsIffBelow(botCount: nat, target: nat, elapsed: int, duration: int, r: Unit)
    requires duration > 0
    ensures ShouldJoin(botCount, target, elapsed, duration, r)
       <==> (botCount * duration) as real + PartOf(r, duration) < (Elapsed(elapsed, duration) * target) as real
  {
    SharesOfTarget(elapsed, duration, target);
    JoinsIffPart(botCount, target, elapsed, duration, Elapsed(elapsed, duration) * target, PartOf(r, duration));
  }

  /** The bots, plus a random part of one, lie below the elapsed share of the target. */
  predicate Behind(botCount: nat, target: nat, elapsed: int, duration: int, r: Unit)
  {
    (botCount * duration) as real + r * duration as real < (elapsed * target) as real
  }

  /** A bot joins exactly while the bots are behind. */
  lemma JoinsIffBehind(botCount: nat, target: nat, elapsed: int, duration: int, r: Unit)
    requires duration > 0
    ensures ShouldJoin(botCount, target, elapsed, duration, r)
       <==> Behind(botCount, target, Elapsed(elapsed, duration), duration, r)
  {
    JoinsIffBelow(botCount, target, elapsed, duration, r);
  }

  lemma SharesOfTarget(elapsed: int, duration: int, target: nat)
    requires duration > 0
    ensures var expected := Elapsed(elapsed, duration) * target;
            && 0 <= expected <= target * duration
            && (elapsed <= 0 ==> expected == 0)
  {
    MulOrderWeak(target, Elapsed(elapsed, duration), duration);
  }

  lemma MulOrderWeak(b: nat, x: nat, y: int)
    requires x <= y
    ensures 0 <= x * b <= b * y
  {
  }

  /** What it means to round up. */
  lemma CeilIff(num: int, den: int, q: int)
    requires den > 0
    ensures q < Ceil(num, den) <==> q * den < num
  {
    var c := Ceil(num, den);
    DivisionBounds(num + den - 1, den);
    MulOrder(den, q, c);
    MulOrder(den, q + 1, c);
    MulOrder(den, q + 1, c + 1);
    assert den * (q + 1) == q * den + den && den * (c + 1) == den * c + den;
  }

  /** A bot only joins while the bots stay within the elapsed share of the target. */
  lemma JoinWithinPace(botCount: nat, target: nat, elapsed: int, duration: int, r: Unit)
    requires duration > 0 && ShouldJoin(botCount, target, elapsed, duration, r)
    ensures botCount + 1 <= Ceil(Elapsed(elapsed, duration) * target, duration)
    ensures botCount + 1 <= target
  {
    MulOrderWeak(target, 0, Elapsed(elapsed, duration));
    AllowedCeil(botCount, Elapsed(elapsed, duration) * target, duration, PartOf(r, duration));
  }

  lemma AllowedCeil(b: nat, expected: nat, d: int, part: real)
    requires d > 0 && 0.0 <= part && b < AllowedBots(expected, d, part)
    ensures b + 1 <= Ceil(expected, d)
  {
    DivisionBounds(expected, d);
    CeilIff(expected, d, b);
    MulOrder(d, b, expected / d);
  }

  lemma CeilMonotone(a: int, b: int, den: int)
    requires den > 0 && a <= b
    ensures Ceil(a, den) <= Ceil(b, den)
  {
    CeilIff(a, den, Ceil(a, den) - 1);
    CeilIff(b, den, Ceil(a, den) - 1);
  }

  // ----- Steps -----

  datatype Reply = Ok | NotFound | BadRequest

  datatype Event =
    | Create(start: int, end: int, required: int, tier: Option<Tier>, word: nat)
    | Cancel(giveaway: nat, now: int)
    | Participate(giveaway: nat, user: nat, known: bool, deposit: int, now: int)
    | Decide(giveaway: nat, now: int, r: Unit, choice: Unit)
    | AddBot(job: nat)
    | Finalize(now: int, draw: nat -> Unit)

  predicate Running(g: Giveaway, now: int)
  {
    g.status == Active && g.start <= now < g.end
  }

  predicate Expired(g: Giveaway, now: int)
  {
    g.status == Active && g.end <= now
  }

  function WithParticipant(g: Giveaway, user: nat): (after: Giveaway)
  {
    var participants := Unique(g.participants) + [user];
    g.(participants := participants, count := |participants|)
  }

  /** Checks of `participate`, in order. */
  function JoinReply(w: World, i: nat, user: nat, known: bool, deposit: int, now: int): (reply: Reply)
  {
    if i >= |w.giveaways| then NotFound
    else if !Running(w.giveaways[i], now) || user in w.giveaways[i].participants then BadRequest
    else if !known then NotFound
    else if deposit < w.giveaways[i].required then BadRequest
    else Ok
  }

  function IsBot(bots: seq<nat>): (p: nat -> bool)
  {
    (id: nat) => id in bots
  }

  function BotCount(participants: seq<nat>, bots: seq<nat>): (n: nat)
  {
    |Filter(participants, IsBot(bots))|
  }

  function IsFree(participants: seq<nat>): (p: nat -> bool)
  {
    (id: nat) => id !in participants
  }

  function Duration(g: Giveaway): (d: int)
    ensures d >= 1
  {
    if g.end - g.start > 1 then g.end - g.start else 1
  }

  /** The bot a maintenance job chooses for a giveaway, if any. */
  function Decision(g: Giveaway, bots: seq<nat>, now: int, r: Unit, choice: Unit): (bot: Option<nat>)
  {
    if !Running(g, now) || g.tier.None? then None
    else
      var ids := Unique(g.participants);
      if !ShouldJoin(BotCount(ids, bots), BotTarget(g.word, g.tier.value), now - g.start, Duration(g), r) then None
      else
        var bot := Pick(Filter(bots, IsFree(ids)), choice);
        if bot == Some(0) then None else bot
  }

  /** `addBotParticipant` */
  function BotAdded(g: Giveaway, bots: seq<nat>, job: Job): (after: Giveaway)
  {
    if !Running(g, job.now) || g.tier.None? || job.bot in g.participants
       || BotCount(Unique(g.participants), bots) >= BotTarget(g.word, g.tier.value)
    then g
    else WithParticipant(g, job.bot)
  }

  /** The winner a draw picks; a winner id of 0 counts as none. */
  function Winner(participants: seq<nat>, r: Unit): (winner: Option<nat>)
  {
    var id := Pick(Unique(participants), r);
    if id == Some(0) then None else id
  }

  function Finalized(g: Giveaway, r: Unit): (after: Giveaway)
  {
    var ids, winner := Unique(g.participants), Winner(g.participants, r);
    g.(participants := ids, count := |ids|, winner := winner, status := if winner.Some? then Completed else Cancelled)
  }

  function FinalizeOne(w: World, i: nat, now: int, r: Unit): (after: World)
    requires i < |w.giveaways|
  {
    var g := w.giveaways[i];
    if !Expired(g, now) then w
    else
      w.(giveaways := w.giveaways[i := Finalized(g, r)],
         prizes := w.prizes + if Finalized(g, r).winner.Some? then [Prize(i, Finalized(g, r).winner.value)] else [])
  }

  /** Finalising the giveaways from i on. */
  function FinalizeFrom(w: World, i: nat, now: int, draw: nat -> Unit): (after: World)
    ensures |after.giveaways| == |w.giveaways| && after.jobs == w.jobs && after.bots == w.bots
    decreases |w.giveaways| - i
  {
    if i >= |w.giveaways| then w else FinalizeFrom(FinalizeOne(w, i, now, draw(i)), i + 1, now, draw)
  }

  function Happen(w: World, e: Event): (after: World)
  {
    match e
    case Create(start, end, required, tier, word) =>
      w.(giveaways := w.giveaways + [Giveaway([], 0, start, end, required, tier, word, Active, None)])
    case Cancel(i, now) =>
      if i < |w.giveaways| && Running(w.giveaways[i], now)
      then w.(giveaways := w.giveaways[i := w.giveaways[i].(status := Cancelled, end := now)])
      else w
    case Participate(i, user, known, deposit, now) =>
      if JoinReply(w, i, user, known, deposit, now) == Ok
      then w.(giveaways := w.giveaways[i := WithParticipant(w.giveaways[i], user)])
      else w
    case Decide(i, now, r, choice) =>
      if i >= |w.giveaways| then w
      else
        var bot := Decision(w.giveaways[i], w.bots, now, r, choice);
        if bot.Some? then w.(jobs := w.jobs + [Job(i, bot.value, now)]) else w
    case AddBot(j) =>
      if j >= |w.jobs| then w
      else
        var job, jobs := w.jobs[j], w.jobs[..j] + w.jobs[j + 1..];
        if job.giveaway >= |w.giveaways| then w.(jobs := jobs)
        else w.(jobs := jobs,
                giveaways := w.giveaways[job.giveaway := BotAdded(w.giveaways[job.giveaway], w.bots, job)])
    case Finalize(now, draw) => FinalizeFrom(w, 0, now, draw)
  }

  function RunEvents(w: World, events: seq<Event>): (end: World)
    decreases |events|
  {
    if events == [] then w else RunEvents(Happen(w, events[0]), events[1..])
  }

  // ----- Participants, winners and prizes -----

  ghost predicate GiveawayValid(g: Giveaway)
  {
    && Distinct(g.participants) && g.count == |g.participants|
    && (g.winner.Some? <==> g.status == Completed)
    && (g.winner.Some? ==> g.winner.value in g.participants && g.winner.value != 0)
  }

  ghost predicate GiveawaysValid(w: World)
  {
    forall i :: 0 <= i < |w.giveaways| ==> GiveawayValid(w.giveaways[i])
  }

  /** A prize row goes to the winner of its giveaway. */
  ghost predicate PrizesValid(w: World)
  {
    && (forall k :: 0 <= k < |w.prizes| ==>
          w.prizes[k].giveaway < |w.giveaways| && w.giveaways[w.prizes[k].giveaway].winner == Some(w.prizes[k].user))
    && (forall j, k | 0 <= j < k < |w.prizes| :: w.prizes[j].giveaway != w.prizes[k].giveaway)
  }

  ghost predicate Awarded(w: World, i: nat)
  {
    exists k :: 0 <= k < |w.prizes| && w.prizes[k].giveaway == i
  }

  ghost predicate AllAwarded(w: World)
  {
    forall i :: 0 <= i < |w.giveaways| && w.giveaways[i].winner.Some? ==> Awarded(w, i)
  }

  /** Participants are distinct and counted, a winner is one of them, and each completed
      giveaway has exactly one prize row, its winner's. */
  ghost predicate Sound(w: World)
  {
    GiveawaysValid(w) && PrizesValid(w) && AllAwarded(w)
  }

  lemma FinalizedValid(g: Giveaway, r: Unit)
    requires GiveawayValid(g)
    ensures GiveawayValid(Finalized(g, r)) && Finalized(g, r).status != Active
  {
  }

  /** Changing an active giveaway without giving it a winner concerns no prize. */
  lemma UpdateKeepsSound(w: World, i: nat, g: Giveaway)
    requires Sound(w) && i < |w.giveaways|
    requires GiveawayValid(g) && g.winner == w.giveaways[i].winner
    ensures Sound(w.(giveaways := w.giveaways[i := g]))
  {
  }

  lemma FinalizeOneKeepsSound(w: World, i: nat, now: int, r: Unit)
    requires Sound(w) && i < |w.giveaways|
    ensures Sound(FinalizeOne(w, i, now, r)) && !Expired(FinalizeOne(w, i, now, r).giveaways[i], now)
  {
    var after := FinalizeOne(w, i, now, r);
    if Expired(w.giveaways[i], now) {
      assert GiveawayValid(w.giveaways[i]);
      FinalizedValid(w.giveaways[i], r);
      forall k | 0 <= k < |after.giveaways| && after.giveaways[k].winner.Some? ensures Awarded(after, k) {
        if k == i {
          assert after.prizes[|w.prizes|].giveaway == i;
        } else {
          assert Awarded(w, k);
          var p :| 0 <= p < |w.prizes| && w.prizes[p].giveaway == k;
          assert after.prizes[p].giveaway == k;
        }
      }
    }
  }

  lemma {:induction false} FinalizeKeepsSound(w: World, i: nat, now: int, draw: nat -> Unit)
    requires Sound(w)
    ensures Sound(FinalizeFrom(w, i, now, draw))
    decreases |w.giveaways| - i
  {
    if i < |w.giveaways| {
      FinalizeOneKeepsSound(w, i, now, draw(i));
      FinalizeKeepsSound(FinalizeOne(w, i, now, draw(i)), i + 1, now, draw);
    }
  }

  lemma WithParticipantValid(g: Giveaway, user: nat)
    requires GiveawayValid(g) && user !in g.participants
    ensures GiveawayValid(WithParticipant(g, user))
    ensures WithParticipant(g, user).participants == g.participants + [user]
  {
  }

  lemma HappenKeepsSound(w: World, e: Event)
    requires Sound(w)
    ensures Sound(Happen(w, e))
  {
    match e {
      case Create(_, _, _, _, _) =>
        forall i | 0 <= i < |w.giveaways| && w.giveaways[i].winner.Some? ensures Awarded(Happen(w, e), i) {
          assert Awarded(w, i);
        }
      case Cancel(i, now) =>
        if i < |w.giveaways| && Running(w.giveaways[i], now) {
          assert GiveawayValid(w.giveaways[i]);
          UpdateKeepsSound(w, i, w.giveaways[i].(status := Cancelled, end := now));
        }
      case Participate(i, user, known, deposit, now) =>
        if JoinReply(w, i, user, known, deposit, now) == Ok {
          WithParticipantValid(w.giveaways[i], user);
          UpdateKeepsSound(w, i, WithParticipant(w.giveaways[i], user));
        }
      case Decide(_, _, _, _) => JobsKeepSound(w, Happen(w, e).jobs);
      case AddBot(j) => AddBotKeepsSound(w, j);
      case Finalize(now, draw) => FinalizeKeepsSound(w, 0, now, draw);
    }
  }

  lemma JobsKeepSound(w: World, jobs: seq<Job>)
    requires Sound(w)
    ensures Sound(w.(jobs := jobs))
  {
  }

  lemma AddBotKeepsSound(w: World, j: nat)
    requires Sound(w)
    ensures Sound(Happen(w, AddBot(j)))
  {
    if j < |w.jobs| {
      var job := w.jobs[j];
      JobsKeepSound(w, w.jobs[..j] + w.jobs[j + 1..]);
      if job.giveaway < |w.giveaways| {
        var g := w.giveaways[job.giveaway];
        assert GiveawayValid(g);
        if BotAdded(g, w.bots, job) != g {
          WithParticipantValid(g, job.bot);
        }
        UpdateKeepsSound(w.(jobs := w.jobs[..j] + w.jobs[j + 1..]), job.giveaway, BotAdded(g, w.bots, job));
      }
    }
  }

  /** Over any run of joins, bot jobs, cancellations and finalisations. */
  lemma {:induction false} RunKeepsSound(w: World, events: seq<Event>)
    requires Sound(w)
    ensures Sound(RunEvents(w, events))
    decreases |events|
  {
    if events != [] {
      HappenKeepsSound(w, events[0]);
      RunKeepsSound(Happen(w, events[0]), events[1..]);
    }
  }

  lemma FinalizeNext(w: World, i: nat, now: int, draw: nat -> Unit)
    requires i < |w.giveaways|
    ensures FinalizeFrom(w, i, now, draw) == FinalizeFrom(FinalizeOne(w, i, now, draw(i)), i + 1, now, draw)
  {
  }

  lemma FinalizeOneEffect(w: World, i: nat, now: int, r: Unit, k: nat)
    requires i < |w.giveaways| && k < |w.giveaways|
    ensures FinalizeOne(w, i, now, r).giveaways[k]
         == if k == i && Expired(w.giveaways[k], now) then Finalized(w.giveaways[k], r) else w.giveaways[k]
    ensures !Expired(Finalized(w.giveaways[k], r), now)
  {
  }

  /** A finalisation settles each expired giveaway and touches no other. */
  lemma {:induction false} FinalizeEffect(w: World, i: nat, now: int, draw: nat -> Unit, k: nat)
    requires k < |w.giveaways|
    ensures FinalizeFrom(w, i, now, draw).giveaways[k]
         == if i <= k && Expired(w.giveaways[k], now) then Finalized(w.giveaways[k], draw(k)) else w.giveaways[k]
    decreases |w.giveaways| - i
  {
    if i < |w.giveaways| {
      FinalizeOneEffect(w, i, now, draw(i), k);
      FinalizeEffect(FinalizeOne(w, i, now, draw(i)), i + 1, now, draw, k);
    }
  }

  /** After a finalisation no expired giveaway is left active; it is completed unless it had
      no participant or the draw named id 0. */
  lemma FinalizeSettles(w: World, now: int, draw: nat -> Unit, k: nat)
    requires Sound(w) && k < |w.giveaways|
    ensures var before, after := w.giveaways[k], FinalizeFrom(w, 0, now, draw).giveaways[k];
            && (after.status == Active ==> now < after.end)
            && (!(before.status == Active && before.end <= now) ==> after == before)
            && (before.status == Active && before.end <= now ==>
                  && after.participants == before.participants
                  && (after.status == Completed <==> Pick(before.participants, draw(k)) !in {None, Some(0)}))
  {
    assert GiveawayValid(w.giveaways[k]);
    FinalizeEffect(w, 0, now, draw, k);
  }

  lemma FinishedStaysOneStep(w: World, e: Event, k: nat)
    requires k < |w.giveaways| && w.giveaways[k].status != Active
    ensures k < |Happen(w, e).giveaways| && Happen(w, e).giveaways[k] == w.giveaways[k]
  {
    if e.Finalize? {
      FinalizeEffect(w, 0, e.now, e.draw, k);
    }
  }

  /** A finished giveaway never changes again, so it is finalised and awarded once. */
  lemma {:induction false} FinishedStays(w: World, events: seq<Event>, k: nat)
    requires k < |w.giveaways| && w.giveaways[k].status != Active
    ensures k < |RunEvents(w, events).giveaways| && RunEvents(w, events).giveaways[k] == w.giveaways[k]
    decreases |events|
  {
    if events != [] {
      FinishedStaysOneStep(w, events[0], k);
      FinishedStays(Happen(w, events[0]), events[1..], k);
    }
  }

  // ----- Bots -----

  function Bots(g: Giveaway, bots: seq<nat>): nat
  {
    BotCount(g.participants, bots)
  }

  lemma CountAppend(participants: seq<nat>, id: nat, bots: seq<nat>)
    ensures BotCount(participants + [id], bots) == BotCount(participants, bots) + if id in bots then 1 else 0
  {
    FilterConcat(participants, [id], IsBot(bots));
    assert Filter([id], IsBot(bots)) == if id in bots then [id] else [];
  }

  /** Bots that joined by `now` may not exceed the elapsed share of the target, rounded up. */
  function PaceLimit(g: Giveaway, now: int): int
    requires g.tier.Some?
  {
    Ceil(Elapsed(now - g.start, Duration(g)) * BotTarget(g.word, g.tier.value), Duration(g))
  }

  lemma PaceGrows(g: Giveaway, now: int, later: int)
    requires g.tier.Some? && now <= later
    ensures 0 <= PaceLimit(g, now) <= PaceLimit(g, later)
  {
    var target := BotTarget(g.word, g.tier.value);
    var d, a, b := Duration(g), Elapsed(now - g.start, Duration(g)), Elapsed(later - g.start, Duration(g));
    assert a * target <= b * target;
    CeilMonotone(a * target, b * target, d);
    CeilMonotone(0, a * target, d);
  }

  lemma PaceWithinTarget(g: Giveaway, now: int)
    requires g.tier.Some?
    ensures PaceLimit(g, now) <= BotTarget(g.word, g.tier.value)
  {
    var target, d, e := BotTarget(g.word, g.tier.value), Duration(g), Elapsed(now - g.start, Duration(g));
    assert e * target <= d * target;
    CeilIff(e * target, d, target);
  }

  ghost predicate OnPace(g: Giveaway, bots: seq<nat>, now: int)
  {
    g.tier.Some? && g.status != Cancelled ==> Bots(g, bots) <= PaceLimit(g, now)
  }

  /** Adding a bot keeps the pace of the time the decision was taken at exactly when there is
      still room then: the check `addBotParticipant` does not repeat. */
  lemma AdditionKeepsPace(g: Giveaway, bots: seq<nat>, job: Job)
    requires GiveawayValid(g) && job.bot in bots && BotAdded(g, bots, job) != g
    ensures OnPace(BotAdded(g, bots, job), bots, job.now) <==> Bots(g, bots) < PaceLimit(g, job.now)
  {
    WithParticipantValid(g, job.bot);
    CountAppend(g.participants, job.bot, bots);
  }

  // ----- Who gets in -----

  /** A user joins exactly under these conditions, at the end of the list; else nothing changes. */
  lemma ParticipateJoins(w: World, i: nat, user: nat, known: bool, deposit: int, now: int)
    requires Sound(w)
    ensures var after := Happen(w, Participate(i, user, known, deposit, now));
            var joins := && i < |w.giveaways| && w.giveaways[i].status == Active
                         && w.giveaways[i].start <= now < w.giveaways[i].end
                         && user !in w.giveaways[i].participants && known && deposit >= w.giveaways[i].required;
            && (JoinReply(w, i, user, known, deposit, now) == Ok <==> joins)
            && if joins then
                 var g := w.giveaways[i];
                 after == w.(giveaways := w.giveaways[i := g.(participants := g.participants + [user],
                                                              count := |g.participants| + 1)])
               else after == w
  {
    if i < |w.giveaways| {
      assert GiveawayValid(w.giveaways[i]);
    }
  }

  /** A running giveaway can be cancelled, and then stays so: nobody ever wins it. */
  lemma CancelledForGood(w: World, i: nat, now: int, events: seq<Event>)
    requires i < |w.giveaways| && w.giveaways[i].status == Active && w.giveaways[i].start <= now < w.giveaways[i].end
    ensures var end := RunEvents(Happen(w, Cancel(i, now)), events);
            && i < |end.giveaways|
            && end.giveaways[i] == w.giveaways[i].(status := Cancelled, end := now)
  {
    FinishedStays(Happen(w, Cancel(i, now)), events, i);
  }

  /** Bots are the participants with a bot profile. */
  lemma {:induction false} BotCountMeaning(participants: seq<nat>, bots: seq<nat>)
    requires Distinct(participants)
    ensures BotCount(participants, bots) == |Elements(participants) * Elements(bots)|
  {
    if participants == [] {
      assert Elements(participants) == {};
    } else {
      var n := |participants| - 1;
      var rest, id := participants[..n], participants[n];
      assert participants == rest + [id];
      CountAppend(rest, id, bots);
      BotCountMeaning(rest, bots);
      assert Elements(participants) * Elements(bots)
          == Elements(rest) * Elements(bots) + if id in bots then {id} else {};
    }
  }

  ghost predicate HasFreeBot(g: Giveaway, bots: seq<nat>)
  {
    exists bot :: bot in bots && bot !in g.participants
  }

  lemma LagIff(g: Giveaway, bots: seq<nat>, now: int, r: Unit)
    requires g.tier.Some? && g.start <= now < g.end
    ensures ShouldJoin(Bots(g, bots), BotTarget(g.word, g.tier.value), now - g.start, Duration(g), r)
       <==> Behind(Bots(g, bots), BotTarget(g.word, g.tier.value), now - g.start, g.end - g.start, r)
  {
    assert Duration(g) == g.end - g.start && Elapsed(now - g.start, Duration(g)) == now - g.start;
    JoinsIffBehind(Bots(g, bots), BotTarget(g.word, g.tier.value), now - g.start, Duration(g), r);
  }

  /** A job decides on a bot exactly while the giveaway runs, its bots lag behind the elapsed
      share of the target, and some bot has not joined; it names such a bot. */
  lemma DecisionIff(g: Giveaway, bots: seq<nat>, now: int, r: Unit, choice: Unit)
    requires GiveawayValid(g) && 0 !in bots
    ensures var decision := Decision(g, bots, now, r, choice);
            && (decision.Some? <==>
                  && g.status == Active && g.start <= now < g.end && g.tier.Some? && HasFreeBot(g, bots)
                  && Behind(Bots(g, bots), BotTarget(g.word, g.tier.value), now - g.start, g.end - g.start, r))
            && (decision.Some? ==> decision.value in bots && decision.value !in g.participants)
  {
    if g.status == Active && g.start <= now < g.end && g.tier.Some? {
      LagIff(g, bots, now, r);
      var free := Filter(bots, IsFree(g.participants));
      assert HasFreeBot(g, bots) <==> free != [] by {
        if free != [] {
          assert free[0] in free;
        }
      }
    }
  }

  /** A decision is carried out exactly if the giveaway was running, the bot has not joined
      meanwhile, and the target leaves room; it then joins at the end of the list. */
  lemma AddedIff(g: Giveaway, bots: seq<nat>, job: Job)
    requires GiveawayValid(g)
    ensures var after := BotAdded(g, bots, job);
            if g.status == Active && g.start <= job.now < g.end && g.tier.Some? && job.bot !in g.participants
               && Bots(g, bots) < BotTarget(g.word, g.tier.value)
            then after == g.(participants := g.participants + [job.bot], count := |g.participants| + 1)
            else after == g
  {
  }

  /** What one maintenance job decides for each giveaway, as it first reads them. */
  function Decisions(w: World, now: int, r: nat -> Unit, choice: nat -> Unit): (ds: seq<Option<nat>>)
    ensures |ds| == |w.giveaways|
  {
    seq(|w.giveaways|, i requires 0 <= i < |w.giveaways| => Decision(w.giveaways[i], w.bots, now, r(i), choice(i)))
  }

  function JobFor(i: nat, decision: Option<nat>, now: int): (jobs: seq<Job>)
  {
    if decision.Some? then [Job(i, decision.value, now)] else []
  }

  /** The first n decisions as jobs. */
  function JobsOf(ds: seq<Option<nat>>, n: nat, now: int): (jobs: seq<Job>)
    requires n <= |ds|
  {
    if n == 0 then [] else JobsOf(ds, n - 1, now) + JobFor(n - 1, ds[n - 1], now)
  }

  lemma {:induction false} JobsOfEach(ds: seq<Option<nat>>, n: nat, now: int, job: Job)
    requires n <= |ds|
    ensures job in JobsOf(ds, n, now) <==> job.giveaway < n && job.now == now && ds[job.giveaway] == Some(job.bot)
  {
    if n > 0 {
      JobsOfEach(ds, n - 1, now, job);
    }
  }

  lemma DecideAdds(w: World, i: nat, now: int, r: Unit, choice: Unit)
    requires i < |w.giveaways|
    ensures Happen(w, Decide(i, now, r, choice))
         == w.(jobs := w.jobs + JobFor(i, Decision(w.giveaways[i], w.bots, now, r, choice), now))
  {
    assert w.jobs + [] == w.jobs;
  }

  /** The steps of a job: it decides for one giveaway after the other. */
  function DecideEach(n: nat, now: int, r: nat -> Unit, choice: nat -> Unit): (events: seq<Event>)
  {
    seq(n, i requires 0 <= i < n => Decide(i, now, r(i), choice(i)))
  }

  /** The worlds a job passes through. */
  function DecidedStates(w: World, ds: seq<Option<nat>>, now: int): (states: seq<World>)
  {
    seq(|ds| + 1, n requires 0 <= n <= |ds| => w.(jobs := w.jobs + JobsOf(ds, n, now)))
  }

  ghost predicate Follows(states: seq<World>, events: seq<Event>)
  {
    |states| == |events| + 1 && forall n :: 0 <= n < |events| ==> LeadsTo(states[n], events[n], states[n + 1])
  }

  ghost predicate LeadsTo(w: World, e: Event, after: World)
  {
    Happen(w, e) == after
  }

  lemma {:induction false} RunAppend(w: World, events: seq<Event>, e: Event)
    ensures RunEvents(w, events + [e]) == Happen(RunEvents(w, events), e)
    decreases |events|
  {
    if events == [] {
      assert events + [e] == [e];
    } else {
      assert (events + [e])[1..] == events[1..] + [e];
      RunAppend(Happen(w, events[0]), events[1..], e);
    }
  }

  lemma {:induction false} RunFollows(states: seq<World>, events: seq<Event>, n: nat)
    requires Follows(states, events) && n <= |events|
    ensures RunEvents(states[0], events[..n]) == states[n]
  {
    if n > 0 {
      RunFollows(states, events, n - 1);
      RunAppend(states[0], events[..n - 1], events[n - 1]);
      assert events[..n] == events[..n - 1] + [events[n - 1]];
      assert LeadsTo(states[n - 1], events[n - 1], states[n]);
    }
  }

  lemma DecideLeads(w: World, ds: seq<Option<nat>>, n: nat, now: int, r: nat -> Unit, choice: nat -> Unit)
    requires n < |w.giveaways| && ds == Decisions(w, now, r, choice)
    ensures LeadsTo(w.(jobs := w.jobs + JobsOf(ds, n, now)), Decide(n, now, r(n), choice(n)),
                    w.(jobs := w.jobs + JobsOf(ds, n + 1, now)))
  {
    DecideAdds(w.(jobs := w.jobs + JobsOf(ds, n, now)), n, now, r(n), choice(n));
    assert JobsOf(ds, n + 1, now) == JobsOf(ds, n, now) + JobFor(n, ds[n], now);
  }

  lemma JobFollows(w: World, now: int, r: nat -> Unit, choice: nat -> Unit)
    ensures Follows(DecidedStates(w, Decisions(w, now, r, choice), now), DecideEach(|w.giveaways|, now, r, choice))
  {
    var ds := Decisions(w, now, r, choice);
    var states, events := DecidedStates(w, ds, now), DecideEach(|ds|, now, r, choice);
    forall n | 0 <= n < |ds| ensures LeadsTo(states[n], events[n], states[n + 1]) {
      DecideLeads(w, ds, n, now, r, choice);
    }
  }

  /** A maintenance job, one decision after the other, adds its decisions for the giveaways as
      it first read them. */
  lemma JobIsItsSteps(w: World, now: int, r: nat -> Unit, choice: nat -> Unit)
    ensures RunEvents(w, DecideEach(|w.giveaways|, now, r, choice))
         == w.(jobs := w.jobs + JobsOf(Decisions(w, now, r, choice), |w.giveaways|, now))
  {
    var states, events := DecidedStates(w, Decisions(w, now, r, choice), now),
                          DecideEach(|w.giveaways|, now, r, choice);
    JobFollows(w, now, r, choice);
    RunFollows(states, events, |events|);
    assert events[..|events|] == events && w.jobs + [] == w.jobs;
  }

  /** A job's decisions are one for each giveaway it finds a bot for. */
  lemma JobDecidesForEach(w: World, now: int, r: nat -> Unit, choice: nat -> Unit, job: Job)
    ensures job in JobsOf(Decisions(w, now, r, choice), |w.giveaways|, now) <==>
              && job.giveaway < |w.giveaways| && job.now == now
              && Decision(w.giveaways[job.giveaway], w.bots, now, r(job.giveaway), choice(job.giveaway))
                 == Some(job.bot)
  {
    JobsOfEach(Decisions(w, now, r, choice), |w.giveaways|, now, job);
  }

  lemma WinnerAt(participants: seq<nat>, r: Unit, i: nat)
    requires Distinct(participants) && i < |participants| && At(r, |participants|, i)
    ensures Winner(participants, r) == if participants[i] == 0 then None else Some(participants[i])
  {
    PickAt(participants, r, i);
  }

  /** The draw is even: of n participants, the one at position i wins for the random numbers
      from i / n to (i + 1) / n. */
  lemma DrawIsEven(w: World, now: int, draw: nat -> Unit, k: nat, i: nat)
    requires Sound(w) && k < |w.giveaways| && w.giveaways[k].status == Active && w.giveaways[k].end <= now
    requires i < |w.giveaways[k].participants| && At(draw(k), |w.giveaways[k].participants|, i)
    ensures var id := w.giveaways[k].participants[i];
            FinalizeFrom(w, 0, now, draw).giveaways[k].winner == if id == 0 then None else Some(id)
  {
    assert GiveawayValid(w.giveaways[k]);
    WinnerAt(w.giveaways[k].participants, draw(k), i);
    FinalizeEffect(w, 0, now, draw, k);
  }

  // ----- Any number of jobs at once -----

  function ForGiveaway(i: nat): (p: Job -> bool)
  {
    (job: Job) => job.giveaway == i
  }

  /** Decisions for a giveaway that are waiting to be carried out. */
  function Pending(jobs: seq<Job>, i: nat): (n: nat)
  {
    |Filter(jobs, ForGiveaway(i))|
  }

  lemma PendingAppend(jobs: seq<Job>, job: Job, i: nat)
    ensures Pending(jobs + [job], i) == Pending(jobs, i) + if job.giveaway == i then 1 else 0
  {
    FilterConcat(jobs, [job], ForGiveaway(i));
    assert Filter([job], ForGiveaway(i)) == if job.giveaway == i then [job] else [];
  }

  lemma PendingRemove(jobs: seq<Job>, j: nat, i: nat)
    requires j < |jobs|
    ensures Pending(jobs[..j] + jobs[j + 1..], i) == Pending(jobs, i) - if jobs[j].giveaway == i then 1 else 0
  {
    assert jobs == jobs[..j] + [jobs[j]] + jobs[j + 1..];
    PendingAppend(jobs[..j], jobs[j], i);
    FilterConcat(jobs[..j], jobs[j + 1..], ForGiveaway(i));
    FilterConcat(jobs[..j] + [jobs[j]], jobs[j + 1..], ForGiveaway(i));
  }

  /** Decisions are about giveaways that exist. */
  ghost predicate JobsPlaced(w: World)
  {
    forall j :: 0 <= j < |w.jobs| ==> w.jobs[j].giveaway < |w.giveaways|
  }

  lemma NothingPending(w: World, i: nat)
    requires JobsPlaced(w) && i >= |w.giveaways|
    ensures Pending(w.jobs, i) == 0
  {
    FilterNone(w.jobs, ForGiveaway(i));
  }

  /** Bots and pending bots exceed the pace by at most `slack`. */
  ghost predicate Within(g: Giveaway, pending: nat, bots: seq<nat>, now: int, slack: nat)
  {
    g.tier.Some? && g.status != Cancelled ==> Bots(g, bots) + pending <= PaceLimit(g, now) + slack
  }

  ghost predicate WithinAt(w: World, i: nat, now: int, slack: nat)
  {
    i < |w.giveaways| ==> Within(w.giveaways[i], Pending(w.jobs, i), w.bots, now, slack)
  }

  /** Users who join are no bots, and decisions are taken by `now`. */
  ghost predicate Admissible(e: Event, bots: seq<nat>, now: int)
  {
    (e.Participate? ==> e.user !in bots) && (e.Decide? ==> e.now <= now)
  }

  /** A job decides on a bot for giveaway i while another decision for it is pending. */
  predicate Overlaps(w: World, e: Event, i: nat)
  {
    && e.Decide? && e.giveaway == i < |w.giveaways|
    && Decision(w.giveaways[i], w.bots, e.now, e.r, e.choice).Some? && Pending(w.jobs, i) > 0
  }

  function OverlapCount(w: World, events: seq<Event>, i: nat): (n: nat)
    decreases |events|
  {
    if events == [] then 0
    else (if Overlaps(w, events[0], i) then 1 else 0) + OverlapCount(Happen(w, events[0]), events[1..], i)
  }

  lemma HappenKeepsPlaced(w: World, e: Event)
    requires JobsPlaced(w)
    ensures JobsPlaced(Happen(w, e)) && Happen(w, e).bots == w.bots
  {
  }

  lemma JoinKeepsWithin(w: World, i: nat, user: nat, k: nat, now: int, slack: nat)
    requires Sound(w) && WithinAt(w, k, now, slack) && user !in w.bots
    requires i < |w.giveaways| && user !in w.giveaways[i].participants
    ensures WithinAt(w.(giveaways := w.giveaways[i := WithParticipant(w.giveaways[i], user)]), k, now, slack)
  {
    assert GiveawayValid(w.giveaways[i]);
    WithParticipantValid(w.giveaways[i], user);
    CountAppend(w.giveaways[i].participants, user, w.bots);
  }

  lemma DecisionWithinPace(g: Giveaway, bots: seq<nat>, now: int, r: Unit, choice: Unit)
    requires GiveawayValid(g)
    ensures Decision(g, bots, now, r, choice).Some? ==> g.tier.Some? && Bots(g, bots) + 1 <= PaceLimit(g, now)
  {
    if Decision(g, bots, now, r, choice).Some? {
      JoinWithinPace(Bots(g, bots), BotTarget(g.word, g.tier.value), now - g.start, Duration(g), r);
    }
  }

  lemma DecideKeepsWithin(w: World, e: Event, k: nat, now: int, slack: nat)
    requires Sound(w) && WithinAt(w, k, now, slack) && e.Decide? && e.now <= now
    ensures WithinAt(Happen(w, e), k, now, slack + if Overlaps(w, e, k) then 1 else 0)
  {
    var after := Happen(w, e);
    if after.jobs != w.jobs {
      var g := w.giveaways[e.giveaway];
      assert GiveawayValid(g);
      DecisionWithinPace(g, w.bots, e.now, e.r, e.choice);
      PaceGrows(g, e.now, now);
      PendingAppend(w.jobs, after.jobs[|w.jobs|], k);
    }
  }

  lemma BotAddedCount(g: Giveaway, bots: seq<nat>, job: Job)
    requires GiveawayValid(g)
    ensures Bots(BotAdded(g, bots, job), bots) <= Bots(g, bots) + 1
    ensures BotAdded(g, bots, job)
            == g.(participants := BotAdded(g, bots, job).participants, count := BotAdded(g, bots, job).count)
  {
    if BotAdded(g, bots, job) != g {
      WithParticipantValid(g, job.bot);
      CountAppend(g.participants, job.bot, bots);
    }
  }

  /** Carrying out a decision turns a pending bot into a bot, or drops it. */
  lemma BotAddedWithin(g: Giveaway, bots: seq<nat>, job: Job, pending: nat, now: int, slack: nat)
    requires GiveawayValid(g) && pending > 0 && Within(g, pending, bots, now, slack)
    ensures Within(BotAdded(g, bots, job), pending - 1, bots, now, slack)
  {
    BotAddedCount(g, bots, job);
  }

  lemma AddBotKeepsWithin(w: World, j: nat, k: nat, now: int, slack: nat)
    requires Sound(w) && JobsPlaced(w) && WithinAt(w, k, now, slack) && j < |w.jobs|
    ensures WithinAt(Happen(w, AddBot(j)), k, now, slack)
  {
    var job := w.jobs[j];
    PendingRemove(w.jobs, j, k);
    if k == job.giveaway {
      assert GiveawayValid(w.giveaways[k]);
      BotAddedWithin(w.giveaways[k], w.bots, job, Pending(w.jobs, k), now, slack);
    }
  }

  lemma FinalizedWithin(g: Giveaway, r: Unit, pending: nat, bots: seq<nat>, now: int, slack: nat)
    requires GiveawayValid(g) && g.status == Active && Within(g, pending, bots, now, slack)
    ensures Within(Finalized(g, r), pending, bots, now, slack)
  {
    assert Finalized(g, r).participants == g.participants;
  }

  lemma FinalizeKeepsWithin(w: World, at: int, draw: nat -> Unit, k: nat, now: int, slack: nat)
    requires Sound(w) && WithinAt(w, k, now, slack)
    ensures WithinAt(FinalizeFrom(w, 0, at, draw), k, now, slack)
  {
    if k < |w.giveaways| {
      assert GiveawayValid(w.giveaways[k]);
      FinalizeEffect(w, 0, at, draw, k);
      if Expired(w.giveaways[k], at) {
        FinalizedWithin(w.giveaways[k], draw(k), Pending(w.jobs, k), w.bots, now, slack);
      }
    }
  }

  lemma CreateKeepsWithin(w: World, e: Event, k: nat, now: int, slack: nat)
    requires JobsPlaced(w) && WithinAt(w, k, now, slack) && (e.Create? || e.Cancel?)
    ensures WithinAt(Happen(w, e), k, now, slack)
  {
    var after := Happen(w, e);
    if |w.giveaways| <= k < |after.giveaways| && after.giveaways[k].tier.Some? {
      NothingPending(w, k);
      PaceGrows(after.giveaways[k], now, now);
    }
  }

  lemma HappenKeepsWithin(w: World, e: Event, k: nat, now: int, slack: nat)
    requires Sound(w) && JobsPlaced(w) && WithinAt(w, k, now, slack) && Admissible(e, w.bots, now)
    ensures WithinAt(Happen(w, e), k, now, slack + if Overlaps(w, e, k) then 1 else 0)
  {
    match e {
      case Participate(i, user, known, deposit, at) =>
        if JoinReply(w, i, user, known, deposit, at) == Ok {
          JoinKeepsWithin(w, i, user, k, now, slack);
        }
      case Decide(_, _, _, _) => DecideKeepsWithin(w, e, k, now, slack);
      case AddBot(j) =>
        if j < |w.jobs| {
          AddBotKeepsWithin(w, j, k, now, slack);
        }
      case Finalize(at, draw) => FinalizeKeepsWithin(w, at, draw, k, now, slack);
      case _ => CreateKeepsWithin(w, e, k, now, slack);
    }
  }

  /** However many jobs run at once: the bots of a giveaway, with those still pending, exceed
      the elapsed share of the target, rounded up, by at most the number of decisions taken
      while another one for that giveaway was pending. */
  lemma {:induction false} OvershootIsOverlaps(w: World, events: seq<Event>, k: nat, now: int, slack: nat)
    requires Sound(w) && JobsPlaced(w) && WithinAt(w, k, now, slack)
    requires forall i :: 0 <= i < |events| ==> Admissible(events[i], w.bots, now)
    ensures WithinAt(RunEvents(w, events), k, now, slack + OverlapCount(w, events, k))
    decreases |events|
  {
    if events != [] {
      var e := events[0];
      assert Admissible(e, w.bots, now);
      HappenKeepsWithin(w, e, k, now, slack);
      HappenKeepsPlaced(w, e);
      HappenKeepsSound(w, e);
      assert forall i :: 0 <= i < |events[1..]| ==> events[1..][i] == events[i + 1];
      OvershootIsOverlaps(Happen(w, e), events[1..], k, now, slack + if Overlaps(w, e, k) then 1 else 0);
    }
  }

  // ----- One job at a time -----

  /** One maintenance job at a time leaves at most one decision per giveaway. */
  ghost predicate OneJobEach(w: World)
  {
    forall j, k | 0 <= j < k < |w.jobs| :: w.jobs[j].giveaway != w.jobs[k].giveaway
  }

  ghost predicate OneJobThroughout(w: World, events: seq<Event>)
    decreases |events|
  {
    OneJobEach(w) && (events != [] ==> OneJobThroughout(Happen(w, events[0]), events[1..]))
  }

  lemma OverlapMakesTwo(w: World, e: Event, k: nat)
    requires Overlaps(w, e, k)
    ensures !OneJobEach(Happen(w, e))
  {
    var job := Filter(w.jobs, ForGiveaway(k))[0];
    assert job in w.jobs && job.giveaway == k;
    var j :| 0 <= j < |w.jobs| && w.jobs[j] == job;
    var after := Happen(w, e);
    assert after.jobs[j].giveaway == after.jobs[|w.jobs|].giveaway;
  }

  lemma {:induction false} OneJobNeverOverlaps(w: World, events: seq<Event>, k: nat)
    requires OneJobThroughout(w, events)
    ensures OverlapCount(w, events, k) == 0
    decreases |events|
  {
    if events != [] {
      if Overlaps(w, events[0], k) {
        OverlapMakesTwo(w, events[0], k);
      }
      OneJobNeverOverlaps(Happen(w, events[0]), events[1..], k);
    }
  }

  /** With one maintenance job at a time, the bots of a giveaway never run ahead of the
      elapsed share of the target, whatever users and finalisations do in between. */
  lemma BotsKeepPace(w: World, events: seq<Event>, k: nat, now: int)
    requires Sound(w) && JobsPlaced(w) && WithinAt(w, k, now, 0) && OneJobThroughout(w, events)
    requires forall i :: 0 <= i < |events| ==> Admissible(events[i], w.bots, now)
    ensures WithinAt(RunEvents(w, events), k, now, 0)
  {
    OvershootIsOverlaps(w, events, k, now, 0);
    OneJobNeverOverlaps(w, events, k);
  }

  // ----- The target holds without that condition -----

  ghost predicate WithinTarget(g: Giveaway, bots: seq<nat>)
  {
    g.tier.Some? ==> Bots(g, bots) <= BotTarget(g.word, g.tier.value)
  }

  ghost predicate AllWithinTarget(w: World)
  {
    forall i :: 0 <= i < |w.giveaways| ==> WithinTarget(w.giveaways[i], w.bots)
  }

  lemma BotAddedWithinTarget(g: Giveaway, bots: seq<nat>, job: Job)
    requires GiveawayValid(g) && WithinTarget(g, bots)
    ensures WithinTarget(BotAdded(g, bots, job), bots)
  {
    if BotAdded(g, bots, job) != g {
      WithParticipantValid(g, job.bot);
      CountAppend(g.participants, job.bot, bots);
    }
  }

  lemma FinalizeKeepsTarget(w: World, e: Event)
    requires Sound(w) && AllWithinTarget(w) && e.Finalize?
    ensures AllWithinTarget(Happen(w, e)) && Happen(w, e).bots == w.bots
  {
    var after := Happen(w, e);
    forall k | 0 <= k < |after.giveaways| ensures WithinTarget(after.giveaways[k], w.bots) {
      assert GiveawayValid(w.giveaways[k]) && WithinTarget(w.giveaways[k], w.bots);
      FinalizeEffect(w, 0, e.now, e.draw, k);
    }
  }

  lemma HappenKeepsTarget(w: World, e: Event)
    requires Sound(w) && AllWithinTarget(w) && (e.Participate? ==> e.user !in w.bots)
    ensures AllWithinTarget(Happen(w, e)) && Happen(w, e).bots == w.bots
  {
    if e.Finalize? {
      FinalizeKeepsTarget(w, e);
    } else if e.AddBot? && e.job < |w.jobs| && w.jobs[e.job].giveaway < |w.giveaways| {
      var g := w.giveaways[w.jobs[e.job].giveaway];
      assert GiveawayValid(g) && WithinTarget(g, w.bots);
      BotAddedWithinTarget(g, w.bots, w.jobs[e.job]);
    } else if e.Participate? && e.giveaway < |w.giveaways| {
      assert GiveawayValid(w.giveaways[e.giveaway]);
      CountAppend(w.giveaways[e.giveaway].participants, e.user, w.bots);
    }
  }

  /** However many jobs run at once, bots never exceed the target. */
  lemma {:induction false} BotsWithinTarget(w: World, events: seq<Event>)
    requires Sound(w) && AllWithinTarget(w)
    requires forall i :: 0 <= i < |events| && events[i].Participate? ==> events[i].user !in w.bots
    ensures AllWithinTarget(RunEvents(w, events))
    decreases |events|
  {
    if events != [] {
      HappenKeepsTarget(w, events[0]);
      HappenKeepsSound(w, events[0]);
      assert forall i :: 0 <= i < |events[1..]| ==> events[1..][i] == events[i + 1];
      BotsWithinTarget(Happen(w, events[0]), events[1..]);
    }
  }

  /** A giveaway of 100 ms with a target of 10 bots, none of which has joined. */
  predicate Example(g: Giveaway)
  {
    && g.status == Active && g.tier == Some(Tier(10, 10)) && g.start == 0 && g.end == 100
    && g.participants == []
  }

  lemma ExampleDecisions(g: Giveaway, bots: seq<nat>, r: Unit)
    requires Example(g) && bots == [1, 2]
    ensures Decision(g, bots, 10, r, 0.0) == Some(1) && Decision(g, bots, 10, r, 0.5) == Some(2)
  {
    assert BotCount([], bots) == 0;
    assert Filter(bots, IsFree([])) == [1, 2];
  }

  lemma AddedOutright(g: Giveaway, bots: seq<nat>, job: Job)
    requires Running(g, job.now) && g.tier.Some? && Distinct(g.participants) && job.bot !in g.participants
    requires Bots(g, bots) < BotTarget(g.word, g.tier.value)
    ensures BotAdded(g, bots, job) == WithParticipant(g, job.bot)
    ensures WithParticipant(g, job.bot).participants == g.participants + [job.bot]
  {
  }

  lemma ExamplePace(g: Giveaway)
    requires Example(g)
    ensures BotTarget(g.word, g.tier.value) == 10 && PaceLimit(g, 10) == 1
  {
  }

  lemma FirstJobAdds(w: World, g: Giveaway, job: Job, rest: seq<Job>)
    requires w.giveaways == [g] && w.jobs == [job] + rest && job.giveaway == 0
    ensures Happen(w, AddBot(0)) == w.(jobs := rest, giveaways := [BotAdded(g, w.bots, job)])
  {
  }

  /** The giveaway after both bots are added. */
  function BothAdded(g: Giveaway, bots: seq<nat>): (after: Giveaway)
  {
    BotAdded(BotAdded(g, bots, Job(0, 1, 10)), bots, Job(0, 2, 10))
  }

  lemma FirstAdded(g: Giveaway, bots: seq<nat>)
    requires Example(g) && 1 in bots
    ensures BotAdded(g, bots, Job(0, 1, 10)) == WithParticipant(g, 1)
    ensures WithParticipant(g, 1).participants == [1] && Bots(WithParticipant(g, 1), bots) == 1
  {
    CountAppend([], 1, bots);
    assert [] + [1] == [1];
    ExamplePace(g);
    AddedOutright(g, bots, Job(0, 1, 10));
  }

  lemma SecondAdded(g: Giveaway, bots: seq<nat>)
    requires Example(g) && 1 in bots && 2 in bots
    ensures Bots(BothAdded(g, bots), bots) == 2
  {
    FirstAdded(g, bots);
    ExamplePace(g);
    AddedOutright(WithParticipant(g, 1), bots, Job(0, 2, 10));
    CountAppend([1], 2, bots);
  }

  /** Two jobs at once can run ahead: both see no bot where one is due, and both add one. */
  lemma OverlappingJobs(w: World, g: Giveaway, r: Unit)
    requires Example(g) && w.bots == [1, 2] && w.giveaways == [g] && w.jobs == [Job(0, 1, 10), Job(0, 2, 10)]
    ensures Decision(g, w.bots, 10, r, 0.0) == Some(1) && Decision(g, w.bots, 10, r, 0.5) == Some(2)
    ensures Happen(Happen(w, AddBot(0)), AddBot(0)).giveaways == [BothAdded(g, w.bots)]
    ensures Bots(BothAdded(g, w.bots), w.bots) == 2 && PaceLimit(g, 10) == 1
  {
    ExampleDecisions(g, w.bots, r);
    ExamplePace(g);
    SecondAdded(g, w.bots);
    FirstJobAdds(w, g, Job(0, 1, 10), [Job(0, 2, 10)]);
    var once := BotAdded(g, w.bots, Job(0, 1, 10));
    FirstJobAdds(w.(jobs := [Job(0, 2, 10)], giveaways := [once]), once, Job(0, 2, 10), []);
  }

  // ----- The service -----

  class GiveawaysService {
    const bots: seq<nat>
    var giveaways: seq<Giveaway>
    var prizes: seq<Prize>
    var jobs: seq<Job>

    ghost function State(): World
      reads this
    {
      World(giveaways, prizes, jobs, bots)
    }

    constructor (bots: seq<nat>)
      ensures this.bots == bots && State() == World([], [], [], bots)
      ensures Sound(State()) && JobsPlaced(State()) && OneJobEach(State()) && AllWithinTarget(State())
    {
      this.bots, giveaways, prizes, jobs := bots, [], [], [];
    }

    /** The prizes awarded are the rows added. */
    method FinalizeExpiredGiveaways(now: int, draw: nat -> Unit) returns (awards: seq<Prize>)
      modifies this`giveaways, this`prizes
      ensures State() == FinalizeFrom(old(State()), 0, now, draw)
      ensures prizes == old(prizes) + awards
    {
      awards := [];
      ghost var end, at := FinalizeFrom(State(), 0, now, draw), State();
      for i := 0 to |giveaways|
        invariant at == State() && |at.giveaways| == |end.giveaways| && FinalizeFrom(at, i, now, draw) == end
        invariant prizes == old(prizes) + awards
      {
        FinalizeNext(at, i, now, draw);
        var award := FinalizeGiveaway(i, now, draw(i));
        at, awards := FinalizeOne(at, i, now, draw(i)), awards + award;
      }
    }

    /** One turn of the loop of `finalizeExpiredGiveaways`. */
    method FinalizeGiveaway(i: nat, now: int, r: Unit) returns (award: seq<Prize>)
      requires i < |giveaways|
      modifies this`giveaways, this`prizes
      ensures State() == FinalizeOne(old(State()), i, now, r)
      ensures prizes == old(prizes) + award
    {
      award := [];
      var giveaway := giveaways[i];
      if giveaway.status == Active && giveaway.end <= now {
        var participantIds := Unique(giveaway.participants);
        giveaway := giveaway.(participants := participantIds, count := |participantIds|);
        var winnerUserId := Pick(participantIds, r);
        if winnerUserId.None? || winnerUserId.value == 0 {
          giveaway := giveaway.(status := Cancelled, winner := None);
        } else {
          giveaway := giveaway.(status := Completed, winner := winnerUserId);
          award := [Prize(i, winnerUserId.value)];
        }
        giveaways, prizes := giveaways[i := giveaway], prizes + award;
      }
    }

    method Participate(giveaway: nat, user: nat, known: bool, deposit: int, now: int, draw: nat -> Unit)
      returns (reply: Reply)
      modifies this`giveaways, this`prizes
      ensures var ready := FinalizeFrom(old(State()), 0, now, draw);
              && reply == JoinReply(ready, giveaway, user, known, deposit, now)
              && State() == Happen(ready, Event.Participate(giveaway, user, known, deposit, now))
    {
      var _ := FinalizeExpiredGiveaways(now, draw);
      if giveaway >= |giveaways| {
        return NotFound;
      }
      var g := giveaways[giveaway];
      if g.status != Active || now < g.start || now >= g.end {
        return BadRequest;
      }
      var participantIds := Unique(g.participants);
      if user in participantIds {
        return BadRequest;
      }
      if !known {
        return NotFound;
      }
      if deposit < g.required {
        return BadRequest;
      }
      giveaways := giveaways[giveaway := g.(participants := participantIds + [user], count := |participantIds| + 1)];
      reply := Ok;
    }

    /** The decisions of one maintenance job, all taken from the giveaways as it first read
        them; carrying them out is left to `AddBotParticipant`. */
    method DecideBots(now: int, r: nat -> Unit, choice: nat -> Unit)
      modifies this`jobs
      ensures jobs == old(jobs) + JobsOf(Decisions(old(State()), now, r, choice), |giveaways|, now)
      ensures State() == RunEvents(old(State()), DecideEach(|giveaways|, now, r, choice))
    {
      ghost var ds := Decisions(State(), now, r, choice);
      for i := 0 to |giveaways|
        invariant jobs == old(jobs) + JobsOf(ds, i, now)
      {
        var bot := Decision(giveaways[i], bots, now, r(i), choice(i));
        assert bot == ds[i];
        jobs := jobs + JobFor(i, bot, now);
      }
      JobIsItsSteps(old(State()), now, r, choice);
    }

    method AddBotParticipant(job: nat) returns (didJoin: bool)
      requires job < |jobs|
      modifies this`giveaways, this`jobs
      ensures State() == Happen(old(State()), AddBot(job))
      ensures var id := old(jobs[job].giveaway);
              if didJoin
              then id < |giveaways| && giveaways[id] == WithParticipant(old(giveaways)[id], old(jobs[job].bot))
              else giveaways == old(giveaways)
    {
      var addition := jobs[job];
      jobs := jobs[..job] + jobs[job + 1..];
      if addition.giveaway >= |giveaways| {
        return false;
      }
      var g := giveaways[addition.giveaway];
      var participantIds := Unique(g.participants);
      didJoin := false;
      if Running(g, addition.now) && g.tier.Some? && addition.bot !in participantIds
         && BotCount(participantIds, bots) < BotTarget(g.word, g.tier.value) {
        g := g.(participants := participantIds + [addition.bot], count := |participantIds| + 1);
        giveaways := giveaways[addition.giveaway := g];
        didJoin := true;
      }
      assert giveaways[addition.giveaway] == BotAdded(old(giveaways)[addition.giveaway], bots, addition);
    }
  }
}
