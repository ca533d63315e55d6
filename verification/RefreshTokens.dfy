/** Refresh-token rotation and reuse response (src/modules/auth/auth.service.ts).

    Calls run one at a time; `RefreshRaces` lets them overlap. A token's jti and the id of its row
    are one number, handed out in issuing order; signature checking is the flag `verified` of each
    call. */
module RefreshTokens {
  import opened Sequences

  const REFRESH_TOKEN_TTL := 604_800_000

  /** A row of user_refresh_tokens: `used` and `revoked` stand for the two timestamps. */
  datatype Row = Row(user: nat, expiresAt: int, used: bool, revoked: bool)

  datatype Token = Token(sub: nat, jti: nat, verified: bool)

  /** `allowed` holds the accounts that exist and are not blocked. `root` is history: the
      login each issued token descends from. */
  datatype Store = Store(rows: map<nat, Row>, issued: nat, allowed: set<nat>, root: map<nat, nat>)

  datatype Op =
    | Login(user: nat)
    | Refresh(token: Token)
    | Logout(token: Token)
    | RevokeAll(user: nat)
    | RevokeSession(user: nat, id: nat)
    | RevokeOthers(user: nat, current: nat)
    | Cleanup(user: nat)
    | SetAllowed(user: nat, isAllowed: bool)

  datatype Reply = Issued(jti: nat) | Refused | Done

  /** An operation at the time it runs. */
  datatype Call = Call(now: int, op: Op)

  // ----- Effects -----

  function Revoke(rows: map<nat, Row>, ids: set<nat>): (after: map<nat, Row>)
  {
    map j | j in rows :: if j in ids then rows[j].(revoked := true) else rows[j]
  }

  /** After "revoke other sessions" only the current row of the user can be unrevoked. */
  lemma OthersRevoked(rows: map<nat, Row>, user: nat, current: nat)
    ensures RowsOf(Revoke(rows, RowsOf(rows, user) - {current}), user) == RowsOf(rows, user) * {current}
  {
  }

  /** The loop of `revokeOtherSessions`, with `todo` still to visit. */
  ghost predicate RevokedExcept(before: map<nat, Row>, rows: map<nat, Row>, others: set<nat>, todo: set<nat>,
                                count: nat)
  {
    rows == Revoke(before, others - todo) && count == |others - todo|
  }

  lemma RevokeOneMore(before: map<nat, Row>, rows: map<nat, Row>, others: set<nat>, todo: set<nat>, count: nat, id: nat)
    requires RevokedExcept(before, rows, others, todo, count) && others <= before.Keys && id in todo
    ensures id in others ==>
              && id in rows
              && RevokedExcept(before, rows[id := rows[id].(revoked := true)], others, todo - {id}, count + 1)
    ensures id !in others ==> RevokedExcept(before, rows, others, todo - {id}, count)
  {
    if id in others {
      assert others - (todo - {id}) == (others - todo) + {id};
    } else {
      assert others - (todo - {id}) == others - todo;
    }
  }

  function RowsOf(rows: map<nat, Row>, user: nat): (ids: set<nat>)
  {
    set j | j in rows && rows[j].user == user && !rows[j].revoked
  }

  function Find(s: Store, token: Token): (found: bool)
  {
    token.jti in RowsOf(s.rows, token.sub)
  }

  /** `signAndStorePair` without its clean-up; root is the login the new token descends from. */
  function AddRow(s: Store, user: nat, now: int, root: nat): (after: Store)
  {
    Store(s.rows[s.issued := Row(user, now + REFRESH_TOKEN_TTL, false, false)], s.issued + 1, s.allowed,
          s.root[s.issued := root])
  }

  function RootOf(s: Store, jti: nat): nat
  {
    if jti in s.root then s.root[jti] else jti
  }

  function RefreshEffect(s: Store, token: Token, now: int): (r: (Store, Reply))
  {
    if !token.verified || !Find(s, token) then (s, Refused)
    else
      var row := s.rows[token.jti];
      if row.used then (s.(rows := Revoke(s.rows, RowsOf(s.rows, token.sub))), Refused)
      else if row.expiresAt <= now then (s, Refused)
      else
        var consumed := s.(rows := s.rows[token.jti := row.(used := true)]);
        if token.sub !in s.allowed then (consumed, Refused)
        else (AddRow(consumed, token.sub, now, RootOf(s, token.jti)), Issued(s.issued))
  }

  function Perform(s: Store, call: Call): (r: (Store, Reply))
  {
    match call.op
    case Login(user) =>
      if user !in s.allowed then (s, Refused)
      else (AddRow(s, user, call.now, s.issued), Issued(s.issued))
    case Refresh(token) => RefreshEffect(s, token, call.now)
    case Logout(token) =>
      (if token.verified && Find(s, token) then s.(rows := Revoke(s.rows, {token.jti})) else s, Done)
    case RevokeAll(user) => (s.(rows := Revoke(s.rows, RowsOf(s.rows, user))), Done)
    case RevokeSession(user, id) =>
      if id !in s.rows || s.rows[id].user != user then (s, Refused)
      else (s.(rows := Revoke(s.rows, {id})), Done)
    case RevokeOthers(user, current) => (s.(rows := Revoke(s.rows, RowsOf(s.rows, user) - {current})), Done)
    case Cleanup(user) =>
      (s.(rows := map j | j in s.rows && !(s.rows[j].user == user && s.rows[j].expiresAt <= call.now) :: s.rows[j]),
       Done)
    case SetAllowed(user, isAllowed) =>
      (s.(allowed := if isAllowed then s.allowed + {user} else s.allowed - {user}), Done)
  }

  function After(s: Store, calls: seq<Call>): (end: Store)
    decreases |calls|
  {
    if calls == [] then s else After(Perform(s, calls[0]).0, calls[1..])
  }

  // ----- What a token can still do -----

  /** A row that no call has consumed or revoked. */
  predicate Unspent(s: Store, jti: nat)
  {
    jti in s.rows && !s.rows[jti].used && !s.rows[jti].revoked
  }

  predicate Live(s: Store, jti: nat, now: int)
  {
    Unspent(s, jti) && s.rows[jti].expiresAt > now
  }

  /** Issued once, of no use any more. */
  predicate Dead(s: Store, jti: nat)
  {
    jti < s.issued && !Unspent(s, jti)
  }

  /** Every row was issued, and each login has at most one unspent descendant. */
  ghost predicate Sound(s: Store)
  {
    && (forall j :: j in s.rows ==> j < s.issued)
    && (forall j: nat :: j in s.root <==> j < s.issued)
    && (forall j :: j in s.root ==> s.root[j] <= j)
    && (forall j: nat, k: nat :: Unspent(s, j) && Unspent(s, k) && RootOf(s, j) == RootOf(s, k) ==> j == k)
  }

  lemma RefreshKeepsSound(s: Store, token: Token, now: int)
    requires Sound(s)
    ensures Sound(RefreshEffect(s, token, now).0)
  {
    var after := RefreshEffect(s, token, now).0;
    forall j: nat, k: nat | Unspent(after, j) && Unspent(after, k) && RootOf(after, j) == RootOf(after, k)
      ensures j == k
    {
      assert j < s.issued ==> Unspent(s, j) && RootOf(s, j) == RootOf(after, j);
      assert k < s.issued ==> Unspent(s, k) && RootOf(s, k) == RootOf(after, k);
    }
  }

  lemma PerformKeepsSound(s: Store, call: Call)
    requires Sound(s)
    ensures Sound(Perform(s, call).0)
  {
    var after := Perform(s, call).0;
    if call.op.Refresh? {
      RefreshKeepsSound(s, call.op.token, call.now);
    } else {
      forall j: nat, k: nat | Unspent(after, j) && Unspent(after, k) && RootOf(after, j) == RootOf(after, k)
        ensures j == k
      {
        assert j < s.issued ==> Unspent(s, j) && RootOf(s, j) == RootOf(after, j);
        assert k < s.issued ==> Unspent(s, k) && RootOf(s, k) == RootOf(after, k);
      }
    }
  }

  /** In every run each login has at most one unspent token: rotation never forks. */
  lemma {:induction false} OneTokenPerLogin(s: Store, calls: seq<Call>)
    requires Sound(s)
    ensures Sound(After(s, calls))
    decreases |calls|
  {
    if calls != [] {
      PerformKeepsSound(s, calls[0]);
      OneTokenPerLogin(Perform(s, calls[0]).0, calls[1..]);
    }
  }

  // ----- One refresh -----

  /** A refresh succeeds exactly when the token is verified, its row live and its own, and
      the account allowed; it then consumes that row, adds one, and touches no other. */
  lemma RefreshRotates(s: Store, token: Token, now: int)
    requires Sound(s)
    ensures var r := RefreshEffect(s, token, now);
            && (r.1.Issued? <==>
                  && token.verified && token.sub in s.allowed
                  && Live(s, token.jti, now) && s.rows[token.jti].user == token.sub)
            && (r.1.Issued? ==>
                  && r.1.jti !in s.rows
                  && r.0.rows == s.rows[token.jti := s.rows[token.jti].(used := true)]
                                 [r.1.jti := Row(token.sub, now + REFRESH_TOKEN_TTL, false, false)])
  {
  }

  /** A blocked account still loses the token it presented. */
  lemma BlockedRefreshConsumes(s: Store, token: Token, now: int)
    requires token.verified && Live(s, token.jti, now) && s.rows[token.jti].user == token.sub && token.sub !in s.allowed
    ensures var r := RefreshEffect(s, token, now);
            r.1 == Refused && r.0.rows == s.rows[token.jti := s.rows[token.jti].(used := true)]
  {
  }

  // ----- Whole runs -----

  lemma DeadStaysOneStep(s: Store, call: Call, jti: nat)
    requires Dead(s, jti)
    ensures Dead(Perform(s, call).0, jti)
  {
  }

  /** Dead tokens stay dead: no call revives a consumed, revoked or deleted row. */
  lemma {:induction false} DeadStays(s: Store, calls: seq<Call>, jti: nat)
    requires Dead(s, jti)
    ensures Dead(After(s, calls), jti)
    decreases |calls|
  {
    if calls != [] {
      DeadStaysOneStep(s, calls[0], jti);
      DeadStays(Perform(s, calls[0]).0, calls[1..], jti);
    }
  }

  /** No token succeeds twice, whatever runs before, between and after. */
  lemma NoTokenTwice(s: Store, first: Token, now: int, between: seq<Call>, second: Token, later: int)
    requires Sound(s) && first.jti == second.jti
    requires RefreshEffect(s, first, now).1.Issued?
    ensures RefreshEffect(After(RefreshEffect(s, first, now).0, between), second, later).1 == Refused
  {
    DeadStays(RefreshEffect(s, first, now).0, between, first.jti);
  }

  /** Presenting a consumed, unrevoked token spends every token of its user... */
  lemma ReuseRevokesAll(s: Store, token: Token, now: int)
    requires Sound(s) && token.verified && Find(s, token) && s.rows[token.jti].used
    ensures var r := RefreshEffect(s, token, now);
            && r.1 == Refused
            && (forall j :: j in s.rows && s.rows[j].user == token.sub ==> Dead(r.0, j))
            && (forall j :: j in s.rows && s.rows[j].user != token.sub ==> j in r.0.rows && r.0.rows[j] == s.rows[j])
  {
  }

  /** Tokens keep their user, and new ones descend from their user's tokens or logins. */
  ghost predicate Lineage(s: Store, from: nat, user: nat)
  {
    forall j :: j in s.rows && s.rows[j].user == user && Unspent(s, j) ==> j in s.root && s.root[j] >= from
  }

  lemma RefreshKeepsLineage(s: Store, token: Token, now: int, from: nat, user: nat)
    requires Sound(s) && Lineage(s, from, user) && from <= s.issued
    ensures Lineage(RefreshEffect(s, token, now).0, from, user)
  {
  }

  lemma LineageOneStep(s: Store, call: Call, from: nat, user: nat)
    requires Sound(s) && Lineage(s, from, user) && from <= s.issued
    ensures Lineage(Perform(s, call).0, from, user)
  {
    if call.op.Refresh? {
      RefreshKeepsLineage(s, call.op.token, call.now, from, user);
    } else {
      var after := Perform(s, call).0;
      forall j | j in after.rows && after.rows[j].user == user && Unspent(after, j)
        ensures j in after.root && after.root[j] >= from
      {
        assert j in s.rows ==> Unspent(s, j) && s.rows[j].user == user;
      }
    }
  }

  lemma IssuedGrows(s: Store, call: Call)
    ensures s.issued <= Perform(s, call).0.issued
  {
  }

  lemma {:induction false} LineageStays(s: Store, calls: seq<Call>, from: nat, user: nat)
    requires Sound(s) && Lineage(s, from, user) && from <= s.issued
    ensures Lineage(After(s, calls), from, user)
    decreases |calls|
  {
    if calls != [] {
      LineageOneStep(s, calls[0], from, user);
      IssuedGrows(s, calls[0]);
      PerformKeepsSound(s, calls[0]);
      LineageStays(Perform(s, calls[0]).0, calls[1..], from, user);
    }
  }

  /** ... so that, for the rest of the run, only tokens descending from a later login work. */
  lemma ReuseEndsAllSessions(s: Store, token: Token, now: int, calls: seq<Call>, later: Token, time: int)
    requires Sound(s) && token.verified && Find(s, token) && s.rows[token.jti].used && later.sub == token.sub
    ensures var end := After(RefreshEffect(s, token, now).0, calls);
            RefreshEffect(end, later, time).1.Issued? ==> RootOf(end, later.jti) >= s.issued
  {
    var revoked := RefreshEffect(s, token, now).0;
    ReuseRevokesAll(s, token, now);
    RefreshKeepsSound(s, token, now);
    LineageStays(revoked, calls, s.issued, token.sub);
    OneTokenPerLogin(revoked, calls);
    RefreshRotates(After(revoked, calls), later, time);
  }

  /** No unspent token of the user is left. */
  ghost predicate AllSpent(s: Store, user: nat)
  {
    forall j :: j in s.rows && s.rows[j].user == user ==> !Unspent(s, j)
  }

  /** The response only sees unrevoked rows: presenting a consumed token ends the sessions of
      its user if and only if its row was not revoked before, or there was none to end. */
  lemma ReuseNoticedIffUnrevoked(s: Store, token: Token, now: int)
    requires token.verified && token.jti in s.rows && s.rows[token.jti].user == token.sub && s.rows[token.jti].used
    ensures AllSpent(RefreshEffect(s, token, now).0, token.sub)
       <==> !s.rows[token.jti].revoked || AllSpent(s, token.sub)
  {
  }

  /** A token whose row is revoked changes nothing. */
  lemma RevokedReuseIsSilent(s: Store, token: Token, now: int)
    requires token.jti in s.rows && s.rows[token.jti].revoked
    ensures RefreshEffect(s, token, now) == (s, Refused)
  {
  }

  /** Such runs exist: once "revoke other sessions" has revoked a consumed row, presenting that
      token again leaves the current session live. */
  lemma SilentReuse()
    ensures var token := Token(7, 0, true);
            var calls := [Call(0, Login(7)), Call(1, Refresh(token)), Call(2, RevokeOthers(7, 1))];
            var s := After(Store(map[], 0, {7}, map[]), calls);
            RefreshEffect(s, token, 3) == (s, Refused) && s.rows[0].used && Live(s, 1, 3)
  {
    var token := Token(7, 0, true);
    var s0 := Store(map[], 0, {7}, map[]);
    var s1 := Perform(s0, Call(0, Login(7))).0;
    var s2 := Perform(s1, Call(1, Refresh(token))).0;
    var s3 := Perform(s2, Call(2, RevokeOthers(7, 1))).0;
    var calls := [Call(0, Login(7)), Call(1, Refresh(token)), Call(2, RevokeOthers(7, 1))];
    assert calls[1..] == [Call(1, Refresh(token)), Call(2, RevokeOthers(7, 1))];
    assert calls[1..][1..] == [Call(2, RevokeOthers(7, 1))];
    assert After(s2, [Call(2, RevokeOthers(7, 1))]) == s3 by {
      assert [Call(2, RevokeOthers(7, 1))][1..] == [];
    }
    assert After(s0, calls) == s3;
  }

  // ----- What each call does -----

  /** A token works for seven days: a login of an allowed account hands out a token that
      refreshes until then, and any other login nothing. */
  lemma LoginLastsSevenDays(s: Store, user: nat, now: int, later: int)
    requires Sound(s)
    ensures var r := Perform(s, Call(now, Login(user)));
            && (r.1.Issued? <==> user in s.allowed)
            && (!r.1.Issued? ==> r == (s, Refused))
            && (r.1.Issued? ==>
                  && (forall j :: j in s.rows ==> j != r.1.jti && j in r.0.rows && r.0.rows[j] == s.rows[j])
                  && r.0.rows.Keys == s.rows.Keys + {r.1.jti} && RootOf(r.0, r.1.jti) == r.1.jti
                  && (RefreshEffect(r.0, Token(user, r.1.jti, true), later).1.Issued?
                      <==> later < now + 7 * 24 * 3600 * 1000))
  {
  }

  /** Only one row changed, and it is spent. */
  ghost predicate OnlySpends(before: Store, after: Store, jti: nat)
  {
    && after == before.(rows := after.rows) && after.rows.Keys == before.rows.Keys && !Unspent(after, jti)
    && forall j :: j in before.rows && j != jti ==> after.rows[j] == before.rows[j]
  }

  /** A logout spends the presented token if it is verified and its user's own, and does
      nothing else. */
  lemma LogoutSpends(s: Store, token: Token, now: int)
    ensures var r, own := Perform(s, Call(now, Logout(token))),
                          token.verified && token.jti in s.rows && s.rows[token.jti].user == token.sub;
            && r.1 == Done
            && if own then OnlySpends(s, r.0, token.jti) else r.0 == s
  {
  }

  /** Revoking a session works exactly on a row of the user, and spends that row alone. */
  lemma RevokeSessionSpends(s: Store, user: nat, id: nat, now: int)
    ensures var r := Perform(s, Call(now, RevokeSession(user, id)));
            && (r.1 == Done <==> id in s.rows && s.rows[id].user == user)
            && if r.1 == Done then OnlySpends(s, r.0, id) else r == (s, Refused)
  {
  }

  /** A clean-up removes exactly the user's expired rows, so it ends nobody's session. */
  lemma CleanupDropsExpired(s: Store, user: nat, now: int, u: nat, later: int)
    ensures var after := Perform(s, Call(now, Cleanup(user))).0;
            && after == s.(rows := after.rows)
            && (forall j :: j in after.rows <==> j in s.rows && !(s.rows[j].user == user && s.rows[j].expiresAt <= now))
            && (forall j :: j in after.rows ==> after.rows[j] == s.rows[j])
            && (later >= now ==> ActiveSessions(after, u, later) == ActiveSessions(s, u, later))
  {
  }

  /** Revoking all or all other sessions leaves the user no unspent row, but for the current
      one, and touches nobody else's. */
  lemma RevokeOthersSpends(s: Store, user: nat, current: nat, now: int)
    ensures var all := Perform(s, Call(now, RevokeAll(user))).0;
            && all == s.(rows := all.rows) && all.rows.Keys == s.rows.Keys
            && (forall j :: j in s.rows && s.rows[j].user == user ==> !Unspent(all, j))
            && (forall j :: j in s.rows && s.rows[j].user != user ==> all.rows[j] == s.rows[j])
    ensures var others := Perform(s, Call(now, RevokeOthers(user, current))).0;
            && others == s.(rows := others.rows) && others.rows.Keys == s.rows.Keys
            && (forall j :: j in s.rows && s.rows[j].user == user && j != current ==> !Unspent(others, j))
            && (forall j :: j in s.rows && (s.rows[j].user != user || j == current) ==> others.rows[j] == s.rows[j])
  {
  }

  // ----- The session list -----

  function ActiveSessions(s: Store, user: nat, now: int): (ids: set<nat>)
  {
    set j | j in RowsOf(s.rows, user) && s.rows[j].expiresAt > now && !s.rows[j].used
  }

  /** The list shows exactly the rows whose token would refresh now. */
  lemma SessionsAreRefreshable(s: Store, user: nat, now: int, jti: nat)
    requires Sound(s) && user in s.allowed
    ensures jti in ActiveSessions(s, user, now) <==> RefreshEffect(s, Token(user, jti, true), now).1.Issued?
  {
  }

  function Roots(s: Store, ids: set<nat>): (roots: set<nat>)
  {
    set j | j in ids :: RootOf(s, j)
  }

  lemma {:induction false} RootsSize(s: Store, ids: set<nat>)
    requires Sound(s) && forall j :: j in ids ==> Unspent(s, j)
    ensures |Roots(s, ids)| == |ids|
  {
    if ids != {} {
      var j := Member(ids);
      RootsSize(s, ids - {j});
      assert RootOf(s, j) !in Roots(s, ids - {j});
      assert Roots(s, ids) == Roots(s, ids - {j}) + {RootOf(s, j)};
    }
  }

  /** A user never has more sessions than logins: the listed rows have distinct logins. */
  lemma SessionsHaveDistinctLogins(s: Store, calls: seq<Call>, user: nat, now: int)
    requires Sound(s)
    ensures var end := After(s, calls);
            |Roots(end, ActiveSessions(end, user, now))| == |ActiveSessions(end, user, now)|
  {
    OneTokenPerLogin(s, calls);
    RootsSize(After(s, calls), ActiveSessions(After(s, calls), user, now));
  }

  // ----- The service -----

  class AuthService {
    var rows: map<nat, Row>
    var issued: nat
    var allowed: set<nat>
    ghost var root: map<nat, nat>

    ghost function State(): Store
      reads this
    {
      Store(rows, issued, allowed, root)
    }

    constructor (allowed: set<nat>)
      ensures State() == Store(map[], 0, allowed, map[]) && Sound(State())
    {
      this.allowed := allowed;
      rows, issued, root := map[], 0, map[];
    }

    method Login(user: nat, now: int) returns (reply: Reply)
      modifies this
      ensures (State(), reply) == Perform(old(State()), Call(now, Op.Login(user)))
    {
      if user !in allowed {
        return Refused;
      }
      var jti := SignAndStorePair(user, now, issued);
      reply := Issued(jti);
    }

    method RefreshToken(token: Token, now: int) returns (reply: Reply)
      modifies this
      ensures (State(), reply) == RefreshEffect(old(State()), token, now)
    {
      if !token.verified || token.jti !in rows || rows[token.jti].user != token.sub || rows[token.jti].revoked {
        return Refused;
      }
      var row := rows[token.jti];
      if row.used {
        RevokeAllForUser(token.sub);
        return Refused;
      }
      if row.expiresAt <= now {
        return Refused;
      }
      rows := rows[token.jti := row.(used := true)];
      if token.sub !in allowed {
        return Refused;
      }
      var jti := SignAndStorePair(token.sub, now, RootOf(State(), token.jti));
      reply := Issued(jti);
    }

    method Logout(token: Token, ghost now: int)
      modifies this`rows
      ensures State() == Perform(old(State()), Call(now, Op.Logout(token))).0
    {
      if token.verified && token.jti in rows && rows[token.jti].user == token.sub && !rows[token.jti].revoked {
        rows := rows[token.jti := rows[token.jti].(revoked := true)];
        assert rows == Revoke(old(rows), {token.jti});
      }
    }

    method RevokeAllForUser(user: nat)
      modifies this`rows
      ensures rows == Revoke(old(rows), RowsOf(old(rows), user))
      ensures AllSpent(State(), user)
      ensures rows.Keys == old(rows).Keys
      ensures forall j :: j in rows && rows[j].user != user ==> rows[j] == old(rows)[j]
    {
      rows := map j | j in rows ::
        if rows[j].user == user && !rows[j].revoked then rows[j].(revoked := true) else rows[j];
    }

    method RevokeSession(user: nat, id: nat, ghost now: int) returns (reply: Reply)
      modifies this`rows
      ensures (State(), reply) == Perform(old(State()), Call(now, Op.RevokeSession(user, id)))
    {
      if id !in rows || rows[id].user != user {
        return Refused;
      }
      if !rows[id].revoked {
        rows := rows[id := rows[id].(revoked := true)];
      }
      assert rows == Revoke(old(rows), {id});
      reply := Done;
    }

    method RevokeOtherSessions(user: nat, current: nat) returns (revokedCount: nat)
      modifies this`rows
      ensures rows == Revoke(old(rows), RowsOf(old(rows), user) - {current})
      ensures revokedCount == |RowsOf(old(rows), user) - {current}|
    {
      var todo := RowsOf(rows, user);
      ghost var others := todo - {current};
      revokedCount := 0;
      assert others - todo == {};
      while todo != {}
        invariant todo - {current} <= others <= old(rows).Keys && current !in others
        invariant RevokedExcept(old(rows), rows, others, todo, revokedCount)
        decreases |todo|
      {
        ghost var some := Member(todo);
        var id :| id in todo;
        RevokeOneMore(old(rows), rows, others, todo, revokedCount, id);
        if id != current {
          rows := rows[id := rows[id].(revoked := true)];
          revokedCount := revokedCount + 1;
        }
        todo := todo - {id};
      }
      assert others - todo == others;
    }

    /** Every listed id, and no other, would refresh now. */
    method ListActiveSessions(user: nat, now: int) returns (ids: set<nat>)
      ensures ids == ActiveSessions(State(), user, now)
      ensures Sound(State()) && user in allowed ==>
                forall j: nat :: j in ids <==> RefreshEffect(State(), Token(user, j, true), now).1.Issued?
    {
      ids := set j | j in rows && rows[j].user == user && !rows[j].revoked && rows[j].expiresAt > now && !rows[j].used;
    }

    method SignAndStorePair(user: nat, now: int, ghost from: nat) returns (jti: nat)
      modifies this`rows, this`issued, this`root
      ensures State() == AddRow(old(State()), user, now, from) && jti == old(issued)
      ensures Sound(old(State())) ==> jti !in old(rows) && jti !in old(root) && Unspent(State(), jti)
    {
      jti := issued;
      rows := rows[jti := Row(user, now + REFRESH_TOKEN_TTL, false, false)];
      issued, root := issued + 1, root[issued := from];
    }

    /** The clean-up `signAndStorePair` starts and does not await: the user's expired rows go,
        all others stay, and nobody loses a session, now or later. */
    method DeleteExpired(user: nat, now: int)
      modifies this`rows
      ensures State() == Perform(old(State()), Call(now, Cleanup(user))).0
      ensures forall j :: j in old(rows) ==>
                (j !in rows <==> old(rows)[j].user == user && old(rows)[j].expiresAt <= now)
      ensures rows.Keys <= old(rows).Keys && forall j :: j in rows ==> rows[j] == old(rows)[j]
      ensures forall u, t :: t >= now ==> ActiveSessions(State(), u, t) == ActiveSessions(old(State()), u, t)
    {
      rows := map j | j in rows && !(rows[j].user == user && rows[j].expiresAt <= now) :: rows[j];
    }
  }
}
