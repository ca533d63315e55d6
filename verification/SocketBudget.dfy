/** The per-user websocket budget (src/modules/clickerUser/clicker-user.gateway.ts). */
module SocketBudget {
  import opened Sequences

  const WINDOW := 1000
  const MAX_PACKETS := 40
  const MAX_BYTES := 32768

  datatype Budget = Budget(windowStart: int, packets: nat, bytes: nat)

  /** A packet of `size` bytes on a socket of `user` that lives until `expiresAt`. */
  datatype Packet = Packet(user: nat, now: int, expiresAt: int, size: nat)

  datatype Verdict = Expired | TooMany | Accepted

  type Budgets = map<nat, Budget>

  // ----- One packet -----

  /** The budget a packet arriving now is charged to. */
  function Current(budgets: Budgets, user: nat, now: int): (b: Budget)
  {
    if user in budgets && now - budgets[user].windowStart < WINDOW then budgets[user] else Budget(now, 0, 0)
  }

  function Charged(b: Budget, p: Packet): (c: Budget)
  {
    Budget(b.windowStart, b.packets + 1, b.bytes + p.size)
  }

  predicate Exceeded(b: Budget)
  {
    b.packets > MAX_PACKETS || b.bytes > MAX_BYTES
  }

  function Guard(budgets: Budgets, p: Packet): (r: (Budgets, Verdict))
  {
    if p.expiresAt <= p.now then (budgets, Expired)
    else
      var b := Charged(Current(budgets, p.user, p.now), p);
      (budgets[p.user := b], if Exceeded(b) then TooMany else Accepted)
  }

  // ----- What runs accept -----

  /** The two budgets are proved by one argument: packets weigh 1 each or their size. */
  datatype Kind = Packets | Bytes

  function Limit(kind: Kind): nat
  {
    if kind.Packets? then MAX_PACKETS else MAX_BYTES
  }

  function Weight(kind: Kind, p: Packet): nat
  {
    if kind.Packets? then 1 else p.size
  }

  function Used(kind: Kind, b: Budget): nat
  {
    if kind.Packets? then b.packets else b.bytes
  }

  /** What a limit leaves of a budget. */
  function Left(kind: Kind, b: Budget): (left: nat)
  {
    if Used(kind, b) > Limit(kind) then 0 else Limit(kind) - Used(kind, b)
  }

  /** A choice of packets, by user and by time or by the window they are charged to. */
  datatype Scope = Interval(from: int, to: int) | Window(start: int)

  predicate Counts(scope: Scope, budgets: Budgets, user: nat, p: Packet)
  {
    p.user == user && Guard(budgets, p).1 == Accepted &&
    match scope
    case Interval(from, to) => from <= p.now < to
    case Window(start) => Current(budgets, user, p.now).windowStart == start
  }

  /** Weight of the accepted packets of a user in a scope, over a whole run. */
  function AcceptedWeight(budgets: Budgets, packets: seq<Packet>, user: nat, scope: Scope, kind: Kind): (weight: nat)
    decreases |packets|
  {
    if packets == [] then 0
    else
      (if Counts(scope, budgets, user, packets[0]) then Weight(kind, packets[0]) else 0)
      + AcceptedWeight(Guard(budgets, packets[0]).0, packets[1..], user, scope, kind)
  }

  /** The clock never goes back, from `now` on. */
  ghost predicate Clocked(now: int, packets: seq<Packet>)
    decreases |packets|
  {
    packets != [] ==> now <= packets[0].now && Clocked(packets[0].now, packets[1..])
  }

  ghost predicate StartedBy(budgets: Budgets, user: nat, now: int)
  {
    user in budgets ==> budgets[user].windowStart <= now
  }

  /** What the window starting at `start` can still accept. */
  function WindowLeft(budgets: Budgets, user: nat, start: int, kind: Kind): nat
  {
    if user !in budgets || budgets[user].windowStart < start then Limit(kind)
    else if budgets[user].windowStart == start then Left(kind, budgets[user])
    else 0
  }

  lemma WindowStep(budgets: Budgets, p: Packet, user: nat, start: int, kind: Kind)
    requires StartedBy(budgets, user, p.now)
    ensures var w := if Counts(Window(start), budgets, user, p) then Weight(kind, p) else 0;
            w + WindowLeft(Guard(budgets, p).0, user, start, kind) <= WindowLeft(budgets, user, start, kind)
  {
  }

  /** No window accepts more than its limits, over any packets of any users. */
  lemma {:induction false} WindowBudget(budgets: Budgets, packets: seq<Packet>, user: nat, start: int, now: int,
                                        kind: Kind)
    requires Clocked(now, packets) && StartedBy(budgets, user, now)
    ensures AcceptedWeight(budgets, packets, user, Window(start), kind)
            <= WindowLeft(budgets, user, start, kind) <= Limit(kind)
    decreases |packets|
  {
    if packets != [] {
      WindowStep(budgets, packets[0], user, start, kind);
      WindowBudget(Guard(budgets, packets[0]).0, packets[1..], user, start, packets[0].now, kind);
    }
  }

  /** What can still be accepted between `from` and `from + WINDOW`, once `from` is reached:
      a window that started earlier may be followed by one more, any other is the last. */
  function IntervalLeft(budgets: Budgets, user: nat, from: int, kind: Kind): nat
  {
    if user !in budgets then Limit(kind)
    else if budgets[user].windowStart < from then Left(kind, budgets[user]) + Limit(kind)
    else if budgets[user].windowStart < from + WINDOW then Left(kind, budgets[user])
    else 0
  }

  lemma IntervalStep(budgets: Budgets, p: Packet, user: nat, from: int, kind: Kind)
    requires StartedBy(budgets, user, p.now) && from <= p.now
    ensures var w := if Counts(Interval(from, from + WINDOW), budgets, user, p) then Weight(kind, p) else 0;
            p.now < from + WINDOW ==>
              w + IntervalLeft(Guard(budgets, p).0, user, from, kind) <= IntervalLeft(budgets, user, from, kind)
  {
  }

  lemma {:induction false} NothingAfter(budgets: Budgets, packets: seq<Packet>, user: nat, from: int, to: int,
                                        now: int, kind: Kind)
    requires Clocked(now, packets) && to <= now
    ensures AcceptedWeight(budgets, packets, user, Interval(from, to), kind) == 0
    decreases |packets|
  {
    if packets != [] {
      NothingAfter(Guard(budgets, packets[0]).0, packets[1..], user, from, to, packets[0].now, kind);
    }
  }

  lemma {:induction false} InsideInterval(budgets: Budgets, packets: seq<Packet>, user: nat, from: int, now: int,
                                          kind: Kind)
    requires Clocked(now, packets) && StartedBy(budgets, user, now) && from <= now
    ensures AcceptedWeight(budgets, packets, user, Interval(from, from + WINDOW), kind)
            <= IntervalLeft(budgets, user, from, kind)
    decreases |packets|
  {
    if packets != [] {
      var p := packets[0];
      if p.now < from + WINDOW {
        IntervalStep(budgets, p, user, from, kind);
        InsideInterval(Guard(budgets, p).0, packets[1..], user, from, p.now, kind);
      } else {
        NothingAfter(Guard(budgets, p).0, packets[1..], user, from, from + WINDOW, p.now, kind);
      }
    }
  }

  /** Any stretch of 1000 ms accepts at most 80 packets and 64 KiB of one user. */
  lemma {:induction false} IntervalBudget(budgets: Budgets, packets: seq<Packet>, user: nat, from: int, now: int,
                                          kind: Kind)
    requires Clocked(now, packets) && StartedBy(budgets, user, now)
    ensures AcceptedWeight(budgets, packets, user, Interval(from, from + WINDOW), kind) <= 2 * Limit(kind)
    decreases |packets|
  {
    if packets != [] {
      if packets[0].now < from {
        IntervalBudget(Guard(budgets, packets[0]).0, packets[1..], user, from, packets[0].now, kind);
      } else {
        InsideInterval(budgets, packets, user, from, packets[0].now, kind);
      }
    }
  }

  /** A budget exists because a packet was charged to it. */
  ghost predicate OnceCharged(budgets: Budgets, user: nat)
  {
    user in budgets ==> budgets[user].packets >= 1
  }

  /** The packet bound exactly: 79 in any 1000 ms, since a window is opened by a packet of its
      own. `WindowEdgeBurst` reaches it. */
  lemma {:induction false} IntervalPackets(budgets: Budgets, packets: seq<Packet>, user: nat, from: int, now: int)
    requires Clocked(now, packets) && StartedBy(budgets, user, now) && OnceCharged(budgets, user)
    ensures AcceptedWeight(budgets, packets, user, Interval(from, from + WINDOW), Packets) <= 2 * MAX_PACKETS - 1
    decreases |packets|
  {
    if packets != [] {
      if packets[0].now < from {
        IntervalPackets(Guard(budgets, packets[0]).0, packets[1..], user, from, packets[0].now);
      } else {
        InsideInterval(budgets, packets, user, from, packets[0].now, Packets);
      }
    }
  }

  /** A window that has rejected a packet accepts nothing more: rejected packets count too. */
  lemma {:induction false} RejectionLasts(budgets: Budgets, packets: seq<Packet>, user: nat, scope: Scope, kind: Kind)
    requires user in budgets && Exceeded(budgets[user])
    requires forall i :: 0 <= i < |packets| ==> packets[i].now < budgets[user].windowStart + WINDOW
    ensures AcceptedWeight(budgets, packets, user, scope, kind) == 0
    decreases |packets|
  {
    if packets != [] {
      var after := Guard(budgets, packets[0]).0;
      assert forall i :: 0 <= i < |packets[1..]| ==> packets[1..][i] == packets[i + 1];
      RejectionLasts(after, packets[1..], user, scope, kind);
    }
  }

  // ----- Exactly which packets are accepted -----

  function GuardAll(budgets: Budgets, packets: seq<Packet>): (after: Budgets)
  {
    if packets == [] then budgets
    else Guard(GuardAll(budgets, packets[..|packets| - 1]), packets[|packets| - 1]).0
  }

  function SizeOf(p: Packet): int { p.size }

  /** Packets of one user on live sockets, all within a second of `start`. */
  ghost predicate OneSecond(packets: seq<Packet>, user: nat, start: int)
  {
    && packets != [] && packets[0].now == start
    && forall i :: 0 <= i < |packets| ==>
         && packets[i].user == user && packets[i].expiresAt > packets[i].now
         && start <= packets[i].now < start + 1000
  }

  /** No window of the user is under way. */
  predicate Idle(budgets: Budgets, user: nat, start: int)
  {
    user !in budgets || start - budgets[user].windowStart >= 1000
  }

  lemma {:induction false} ChargedSoFar(budgets: Budgets, packets: seq<Packet>, user: nat, start: int, k: nat)
    requires OneSecond(packets, user, start) && Idle(budgets, user, start) && 0 < k <= |packets|
    ensures var after := GuardAll(budgets, packets[..k]);
            && user in after && after[user].windowStart == start && after[user].packets == k
            && after[user].bytes == Sum(packets[..k], SizeOf)
  {
    assert packets[..k][..k - 1] == packets[..k - 1] && packets[..k][k - 1] == packets[k - 1];
    assert GuardAll(budgets, packets[..k]) == Guard(GuardAll(budgets, packets[..k - 1]), packets[k - 1]).0;
    if k > 1 {
      ChargedSoFar(budgets, packets, user, start, k - 1);
    } else {
      assert packets[..0] == [] && Sum(packets[..0], SizeOf) == 0;
    }
  }

  /** In a window a packet is accepted if and only if it is among the first 40 and the sizes up
      to it do not exceed 32 KiB. */
  lemma WindowIsExact(budgets: Budgets, packets: seq<Packet>, user: nat, start: int, k: nat)
    requires OneSecond(packets, user, start) && Idle(budgets, user, start) && k < |packets|
    ensures Guard(GuardAll(budgets, packets[..k]), packets[k]).1
         == if k < 40 && Sum(packets[..k + 1], SizeOf) <= 32 * 1024 then Accepted else TooMany
  {
    ChargedSoFar(budgets, packets, user, start, k + 1);
    assert packets[..k + 1][..k] == packets[..k] && packets[..k + 1][k] == packets[k];
  }

  /** On an expired socket nothing is accepted and nothing charged. */
  lemma ExpiredIsNotCharged(budgets: Budgets, p: Packet)
    ensures Guard(budgets, p).1 == Expired <==> p.expiresAt <= p.now
    ensures p.expiresAt <= p.now ==> Guard(budgets, p).0 == budgets
  {
  }

  // ----- Users do not disturb each other -----

  function FromUser(user: nat): (f: Packet -> bool)
  {
    (p: Packet) => p.user == user
  }

  predicate SameBudget(a: Budgets, b: Budgets, user: nat)
  {
    (user in a <==> user in b) && (user in a ==> a[user] == b[user])
  }

  lemma FilterFirst(packets: seq<Packet>, user: nat)
    requires packets != []
    ensures Filter(packets, FromUser(user))
         == if packets[0].user == user then [packets[0]] + Filter(packets[1..], FromUser(user))
           else Filter(packets[1..], FromUser(user))
  {
  }

  lemma GuardKeepsSame(a: Budgets, b: Budgets, p: Packet, user: nat, scope: Scope)
    requires SameBudget(a, b, user)
    ensures p.user == user ==>
              SameBudget(Guard(a, p).0, Guard(b, p).0, user) && Counts(scope, a, user, p) == Counts(scope, b, user, p)
    ensures p.user != user ==> SameBudget(Guard(a, p).0, b, user) && !Counts(scope, a, user, p)
  {
  }

  /** A user's accepted packets are those of that user's packets alone. */
  lemma {:induction false} UsersAreIsolated(a: Budgets, b: Budgets, packets: seq<Packet>, user: nat, scope: Scope,
                                            kind: Kind)
    requires SameBudget(a, b, user)
    ensures AcceptedWeight(a, packets, user, scope, kind)
            == AcceptedWeight(b, Filter(packets, FromUser(user)), user, scope, kind)
    decreases |packets|
  {
    if packets != [] {
      var p, rest := packets[0], packets[1..];
      FilterFirst(packets, user);
      GuardKeepsSame(a, b, p, user, scope);
      if p.user == user {
        assert Filter(packets, FromUser(user))[1..] == Filter(rest, FromUser(user));
        UsersAreIsolated(Guard(a, p).0, Guard(b, p).0, rest, user, scope, kind);
      } else {
        UsersAreIsolated(Guard(a, p).0, b, rest, user, scope, kind);
      }
    }
  }

  // ----- The bound for an interval is nearly reached -----

  function Burst(p: Packet, n: nat): (packets: seq<Packet>)
  {
    seq(n, i requires 0 <= i < n => p)
  }

  lemma BurstFirst(budgets: Budgets, p: Packet, n: nat, rest: seq<Packet>, scope: Scope, b: Budget)
    requires n > 0 && p.expiresAt > p.now && p.size == 0 && scope.Interval? && scope.from <= p.now < scope.to
    requires b == Current(budgets, p.user, p.now) && b.packets < MAX_PACKETS && b.bytes == 0 && b.windowStart <= p.now
    ensures var next := budgets[p.user := Charged(b, p)];
            && Current(next, p.user, p.now) == Charged(b, p)
            && AcceptedWeight(budgets, Burst(p, n) + rest, p.user, scope, Packets)
               == 1 + AcceptedWeight(next, Burst(p, n - 1) + rest, p.user, scope, Packets)
  {
    assert (Burst(p, n) + rest)[1..] == Burst(p, n - 1) + rest;
  }

  lemma {:induction false} BurstAccepted(budgets: Budgets, p: Packet, n: nat, rest: seq<Packet>, scope: Scope,
                                         b: Budget)
    requires p.expiresAt > p.now && p.size == 0 && scope.Interval? && scope.from <= p.now < scope.to
    requires b == Current(budgets, p.user, p.now) && b.packets + n <= MAX_PACKETS && b.bytes == 0
             && b.windowStart <= p.now
    ensures var after := if n == 0 then budgets else budgets[p.user := Budget(b.windowStart, b.packets + n, 0)];
            AcceptedWeight(budgets, Burst(p, n) + rest, p.user, scope, Packets)
            == n + AcceptedWeight(after, rest, p.user, scope, Packets)
    decreases n
  {
    if n == 0 {
      assert Burst(p, n) + rest == rest;
    } else {
      var next := budgets[p.user := Charged(b, p)];
      BurstFirst(budgets, p, n, rest, scope, b);
      BurstAccepted(next, p, n - 1, rest, scope, Charged(b, p));
      var full := Budget(b.windowStart, b.packets + n, 0);
      assert next[p.user := full] == budgets[p.user := full];
    }
  }

  /** One packet at 0, 39 at 999 and 40 at 1000 are all accepted: 79 within two milliseconds. */
  lemma WindowEdgeBurst(user: nat)
    ensures var late, next := Packet(user, 999, 9999, 0), Packet(user, 1000, 9999, 0);
            var packets := [Packet(user, 0, 9999, 0)] + (Burst(late, 39) + (Burst(next, 40) + []));
            AcceptedWeight(map[], packets, user, Interval(999, 1001), Packets) == 79
  {
    var first, late, next := Packet(user, 0, 9999, 0), Packet(user, 999, 9999, 0), Packet(user, 1000, 9999, 0);
    var scope := Interval(999, 1001);
    var start := Guard(map[], first).0;
    var rest := Burst(late, 39) + (Burst(next, 40) + []);
    assert ([first] + rest)[1..] == rest;
    BurstAccepted(start, late, 39, Burst(next, 40) + [], scope, Budget(0, 1, 0));
    BurstAccepted(start[user := Budget(0, 40, 0)], next, 40, [], scope, Budget(1000, 0, 0));
  }

  // ----- The gateway -----

  class ClickerUserGateway {
    var userSocketBudget: map<nat, Budget>

    constructor ()
      ensures userSocketBudget == map[]
    {
      userSocketBudget := map[];
    }

    method GuardSocketEvent(p: Packet) returns (verdict: Verdict)
      modifies this
      ensures (userSocketBudget, verdict) == Guard(old(userSocketBudget), p)
    {
      if p.expiresAt <= p.now {
        return Expired;
      }
      var budget := if p.user in userSocketBudget then userSocketBudget[p.user] else Budget(p.now, 0, 0);
      if p.now - budget.windowStart >= WINDOW {
        budget := Budget(p.now, 0, 0);
      }
      budget := budget.(packets := budget.packets + 1, bytes := budget.bytes + p.size);
      userSocketBudget := userSocketBudget[p.user := budget];
      verdict := if budget.packets > MAX_PACKETS || budget.bytes > MAX_BYTES then TooMany else Accepted;
    }
  }
}
