/** Refresh calls that overlap (src/modules/auth/auth.service.ts).

    `refreshToken`, `logout` and the revoke operations read a row and later save it back as
    they read it, changed in one field, without a lock. One step here is one statement. */
module RefreshRaces {
  import opened RefreshTokens
  import opened Sequences

  /** Where a call stands. `row` is the row as it was read. */
  datatype Phase =
    | Rotating(token: Token, row: Row)      // about to save the row as used
    | Issuing(token: Token)                 // consumed; about to add a new row
    | Revoking(id: nat, row: Row)           // about to save the row as revoked
    | Responding(user: nat)                 // saw a consumed token; about to revoke all
    | Finished(reply: Reply)

  datatype Race = Race(store: Store, calls: seq<Phase>)

  /** `Other` is an operation that is one statement: a login, a bulk revocation, a clean-up, a
      block. The others begin a call, and `Proceed` carries call c one statement further. */
  datatype Step =
    | Other(call: Call)
    | BeginRefresh(token: Token, now: int)
    | BeginRevoke(id: nat)
    | Proceed(c: nat, now: int)

  predicate OneStatement(op: Op)
  {
    op.Login? || op.RevokeAll? || op.Cleanup? || op.SetAllowed?
  }

  /** `refreshToken` up to its first write. */
  function Begin(s: Store, token: Token, now: int): (phase: Phase)
  {
    if !token.verified || !Find(s, token) then Finished(Refused)
    else
      var row := s.rows[token.jti];
      if row.used then Responding(token.sub)
      else if row.expiresAt <= now then Finished(Refused)
      else Rotating(token, row)
  }

  function Save(s: Store, id: nat, row: Row): (after: Store)
  {
    s.(rows := s.rows[id := row])
  }

  function ProceedEffect(s: Store, phase: Phase, now: int): (r: (Store, Phase))
  {
    match phase
    case Rotating(token, row) => (Save(s, token.jti, row.(used := true)), Issuing(token))
    case Issuing(token) =>
      if token.sub !in s.allowed then (s, Finished(Refused))
      else (AddRow(s, token.sub, now, RootOf(s, token.jti)), Finished(Reply.Issued(s.issued)))
    case Revoking(id, row) => (Save(s, id, row.(revoked := true)), Finished(Done))
    case Responding(user) => (s.(rows := Revoke(s.rows, RowsOf(s.rows, user))), Finished(Refused))
    case Finished(_) => (s, phase)
  }

  function Happen(r: Race, step: Step): (after: Race)
  {
    match step
    case Other(call) => if OneStatement(call.op) then r.(store := Perform(r.store, call).0) else r
    case BeginRefresh(token, now) => r.(calls := r.calls + [Begin(r.store, token, now)])
    case BeginRevoke(id) =>
      if id in r.store.rows && !r.store.rows[id].revoked
      then r.(calls := r.calls + [Revoking(id, r.store.rows[id])])
      else r
    case Proceed(c, now) =>
      if c >= |r.calls| then r
      else
        var (store, phase) := ProceedEffect(r.store, r.calls[c], now);
        Race(store, r.calls[c := phase])
  }

  function RunSteps(r: Race, steps: seq<Step>): (end: Race)
    decreases |steps|
  {
    if steps == [] then r else RunSteps(Happen(r, steps[0]), steps[1..])
  }

  /** Step by step, without overlap, a refresh does what `RefreshEffect` says. */
  lemma AloneIsAtomic(s: Store, calls: seq<Phase>, token: Token, now: int)
    ensures var n := |calls|;
            var first := Happen(Race(s, calls), BeginRefresh(token, now));
            var end := Happen(Happen(first, Proceed(n, now)), Proceed(n, now));
            && end.store == RefreshEffect(s, token, now).0
            && end.calls == calls + [Finished(RefreshEffect(s, token, now).1)]
  {
    var n := |calls|;
    var first := Happen(Race(s, calls), BeginRefresh(token, now));
    var second := Happen(first, Proceed(n, now));
    var end := Happen(second, Proceed(n, now));
    assert first.calls == calls + [Begin(s, token, now)];
    assert second.calls == calls + [ProceedEffect(s, Begin(s, token, now), now).1];
    assert end.calls == calls + [ProceedEffect(second.store, second.calls[n], now).1];
  }

  /** Logins, bulk revocations, clean-ups and blocks happen at once, as `Perform` says. */
  lemma OtherIsOneStatement(r: Race, call: Call)
    requires call.op.Login? || call.op.RevokeAll? || call.op.Cleanup? || call.op.SetAllowed?
    ensures Happen(r, Other(call)) == Race(Perform(r.store, call).0, r.calls)
  {
  }

  /** Step by step, without overlap, a revocation does what `RevokeSession` says. */
  lemma RevokeAloneIsAtomic(s: Store, calls: seq<Phase>, user: nat, id: nat, now: int)
    requires id in s.rows && s.rows[id].user == user && !s.rows[id].revoked
    ensures var n := |calls|;
            var end := Happen(Happen(Race(s, calls), BeginRevoke(id)), Proceed(n, now));
            && end.store == Perform(s, Call(now, RevokeSession(user, id))).0
            && end.calls == calls + [Finished(Done)]
  {
    var first := Happen(Race(s, calls), BeginRevoke(id));
    assert first.calls == calls + [Revoking(id, s.rows[id])];
    assert Save(s, id, s.rows[id].(revoked := true)).rows == Revoke(s.rows, {id});
  }

  // ----- Spent stays spent -----

  /** Rows and calls are about tokens that were issued. */
  ghost predicate Placed(r: Race)
  {
    && (forall j :: j in r.store.rows ==> j < r.store.issued)
    && (forall c :: 0 <= c < |r.calls| ==> PhasePlaced(r.calls[c], r.store.issued))
  }

  predicate PhasePlaced(phase: Phase, issued: nat)
  {
    match phase
    case Rotating(token, _) => token.jti < issued
    case Issuing(token) => token.jti < issued
    case Revoking(id, _) => id < issued
    case _ => true
  }

  lemma HappenKeepsPlaced(r: Race, step: Step)
    requires Placed(r)
    ensures Placed(Happen(r, step)) && r.store.issued <= Happen(r, step).store.issued
  {
  }

  /** Every save of a stale row leaves it consumed or revoked, so even calls that overlap
      never revive a spent token. */
  lemma DeadStaysInRaces(r: Race, step: Step, jti: nat)
    requires Placed(r) && Dead(r.store, jti)
    ensures Dead(Happen(r, step).store, jti)
  {
  }

  // ----- When a token succeeds twice -----

  predicate RotatingOn(phase: Phase, jti: nat)
  {
    phase.Rotating? && phase.token.jti == jti
  }

  /** A refresh call consumes the token: it saves its row as used. */
  predicate Consumes(r: Race, step: Step, jti: nat)
  {
    step.Proceed? && step.c < |r.calls| && RotatingOn(r.calls[step.c], jti)
  }

  function Consumptions(r: Race, steps: seq<Step>, jti: nat): (n: nat)
    decreases |steps|
  {
    if steps == [] then 0
    else (if Consumes(r, steps[0], jti) then 1 else 0) + Consumptions(Happen(r, steps[0]), steps[1..], jti)
  }

  /** The calls that read the token's row before another call consumed it and have yet to
      consume it themselves. */
  function Overtaken(r: Race, step: Step, jti: nat, overtaken: set<nat>): (after: set<nat>)
  {
    if Consumes(r, step, jti) then overtaken + set c: nat | c < |r.calls| && RotatingOn(r.calls[c], jti)
    else overtaken
  }

  /** No refresh call reads the token's row before another one consumes it and consumes it
      after. */
  ghost predicate NoneOvertaken(r: Race, steps: seq<Step>, jti: nat, overtaken: set<nat>)
    decreases |steps|
  {
    steps != [] ==>
      && !(Consumes(r, steps[0], jti) && steps[0].c in overtaken)
      && NoneOvertaken(Happen(r, steps[0]), steps[1..], jti, Overtaken(r, steps[0], jti, overtaken))
  }

  /** Every call about to consume the token was overtaken. */
  ghost predicate AllOvertaken(r: Race, jti: nat, overtaken: set<nat>)
  {
    forall c :: 0 <= c < |r.calls| && RotatingOn(r.calls[c], jti) ==> c in overtaken
  }

  lemma DeadIsNotFound(r: Race, step: Step, jti: nat, overtaken: set<nat>)
    requires Placed(r) && Dead(r.store, jti) && AllOvertaken(r, jti, overtaken)
    ensures AllOvertaken(Happen(r, step), jti, Overtaken(r, step, jti, overtaken))
  {
  }

  lemma {:induction false} DeadNotConsumedAgain(r: Race, steps: seq<Step>, jti: nat, overtaken: set<nat>)
    requires Placed(r) && Dead(r.store, jti) && AllOvertaken(r, jti, overtaken)
    ensures Consumptions(r, steps, jti) == 0 <==> NoneOvertaken(r, steps, jti, overtaken)
    decreases |steps|
  {
    if steps != [] {
      HappenKeepsPlaced(r, steps[0]);
      DeadStaysInRaces(r, steps[0], jti);
      DeadIsNotFound(r, steps[0], jti, overtaken);
      DeadNotConsumedAgain(Happen(r, steps[0]), steps[1..], jti, Overtaken(r, steps[0], jti, overtaken));
    }
  }

  lemma FirstConsumption(r: Race, step: Step, jti: nat)
    requires Placed(r) && Consumes(r, step, jti)
    ensures Dead(Happen(r, step).store, jti)
    ensures AllOvertaken(Happen(r, step), jti, Overtaken(r, step, jti, {}))
  {
  }

  /** In any interleaving a token is consumed at most once if and only if no refresh call of it
      reads its row before another one's consumption and consumes it after. */
  lemma {:induction false} ConsumedOnceIffNoneOvertaken(r: Race, steps: seq<Step>, jti: nat)
    requires Placed(r)
    ensures Consumptions(r, steps, jti) <= 1 <==> NoneOvertaken(r, steps, jti, {})
    decreases |steps|
  {
    if steps != [] {
      HappenKeepsPlaced(r, steps[0]);
      if Consumes(r, steps[0], jti) {
        FirstConsumption(r, steps[0], jti);
        DeadNotConsumedAgain(Happen(r, steps[0]), steps[1..], jti, Overtaken(r, steps[0], jti, {}));
      } else {
        ConsumedOnceIffNoneOvertaken(Happen(r, steps[0]), steps[1..], jti);
      }
    }
  }

  predicate IssuingOn(phase: Phase, jti: nat)
  {
    phase.Issuing? && phase.token.jti == jti
  }

  /** A refresh of the token succeeds. */
  predicate Succeeds(r: Race, step: Step, jti: nat)
  {
    && step.Proceed? && step.c < |r.calls| && IssuingOn(r.calls[step.c], jti)
    && r.calls[step.c].token.sub in r.store.allowed
  }

  function Successes(r: Race, steps: seq<Step>, jti: nat): (n: nat)
    decreases |steps|
  {
    if steps == [] then 0
    else (if Succeeds(r, steps[0], jti) then 1 else 0) + Successes(Happen(r, steps[0]), steps[1..], jti)
  }

  function CountIssuing(jti: nat): (f: Phase -> int)
  {
    (phase: Phase) => if IssuingOn(phase, jti) then 1 else 0
  }

  lemma PhaseCounts(s: Store, phase: Phase, now: int, jti: nat)
    ensures (if IssuingOn(phase, jti) && phase.token.sub in s.allowed then 1 else 0)
          + CountIssuing(jti)(ProceedEffect(s, phase, now).1)
         <= (if RotatingOn(phase, jti) then 1 else 0) + CountIssuing(jti)(phase)
  {
  }

  lemma ProceedCounts(r: Race, c: nat, now: int, jti: nat)
    requires c < |r.calls|
    ensures (if Succeeds(r, Proceed(c, now), jti) then 1 else 0)
          + Sum(Happen(r, Proceed(c, now)).calls, CountIssuing(jti))
         <= (if Consumes(r, Proceed(c, now), jti) then 1 else 0) + Sum(r.calls, CountIssuing(jti))
  {
    var next := ProceedEffect(r.store, r.calls[c], now).1;
    PhaseCounts(r.store, r.calls[c], now, jti);
    SumUpdate(r.calls, c, next, CountIssuing(jti));
    assert Happen(r, Proceed(c, now)).calls == r.calls[c := next];
  }

  lemma StepCounts(r: Race, step: Step, jti: nat)
    ensures (if Succeeds(r, step, jti) then 1 else 0) + Sum(Happen(r, step).calls, CountIssuing(jti))
         <= (if Consumes(r, step, jti) then 1 else 0) + Sum(r.calls, CountIssuing(jti))
  {
    match step {
      case Other(_) => assert Happen(r, step).calls == r.calls;
      case BeginRefresh(token, now) => SumAppend(r.calls, Begin(r.store, token, now), CountIssuing(jti));
      case BeginRevoke(id) =>
        if id in r.store.rows {
          SumAppend(r.calls, Revoking(id, r.store.rows[id]), CountIssuing(jti));
        }
      case Proceed(c, now) =>
        if c < |r.calls| {
          ProceedCounts(r, c, now, jti);
        }
    }
  }

  lemma {:induction false} SuccessNeedsConsumption(r: Race, steps: seq<Step>, jti: nat)
    ensures Successes(r, steps, jti) <= Consumptions(r, steps, jti) + Sum(r.calls, CountIssuing(jti))
    decreases |steps|
  {
    if steps == [] {
      IssuingNonNegative(r.calls, jti);
    } else {
      StepCounts(r, steps[0], jti);
      SuccessNeedsConsumption(Happen(r, steps[0]), steps[1..], jti);
    }
  }

  lemma {:induction false} IssuingNonNegative(calls: seq<Phase>, jti: nat)
    ensures Sum(calls, CountIssuing(jti)) >= 0
  {
    if calls != [] {
      IssuingNonNegative(calls[..|calls| - 1], jti);
    }
  }

  /** So with no call overtaken, no token succeeds twice. */
  lemma OneSuccessIfNoneOvertaken(r: Race, steps: seq<Step>, jti: nat)
    requires Placed(r) && r.calls == [] && NoneOvertaken(r, steps, jti, {})
    ensures Successes(r, steps, jti) <= 1
  {
    ConsumedOnceIffNoneOvertaken(r, steps, jti);
    SuccessNeedsConsumption(r, steps, jti);
  }

  // ----- When a login forks -----

  /** What can still become a live token: a row that is unspent or about to be consumed by a
      call not overtaken, or a call about to issue. */
  datatype Holder = OfRow(jti: nat) | OfCall(c: nat)

  /** `overtaken` gives, for each token, the calls that were overtaken on it. */
  ghost predicate Holds(r: Race, h: Holder, overtaken: nat -> set<nat>)
  {
    match h
    case OfRow(jti) =>
      || Unspent(r.store, jti)
      || exists c: nat :: c < |r.calls| && RotatingOn(r.calls[c], jti) && c !in overtaken(jti)
    case OfCall(c) => c < |r.calls| && r.calls[c].Issuing?
  }

  function JtiOf(r: Race, h: Holder): (jti: nat)
  {
    match h
    case OfRow(jti) => jti
    case OfCall(c) => if c < |r.calls| && r.calls[c].Issuing? then r.calls[c].token.jti else 0
  }

  function Root(r: Race, h: Holder): nat
  {
    RootOf(r.store, JtiOf(r, h))
  }

  ghost predicate OneHolder(r: Race, overtaken: nat -> set<nat>)
  {
    && Placed(r)
    && (forall j: nat :: j in r.store.root <==> j < r.store.issued)
    && (forall j :: j in r.store.root ==> r.store.root[j] <= j)
    && (forall h, k :: Holds(r, h, overtaken) && Holds(r, k, overtaken) && Root(r, h) == Root(r, k) ==> h == k)
  }

  function Next(r: Race, step: Step, overtaken: nat -> set<nat>): (after: nat -> set<nat>)
  {
    (jti: nat) => Overtaken(r, step, jti, overtaken(jti))
  }

  /** The holder that a holder after the step comes from. */
  function Origin(r: Race, step: Step, h: Holder): (k: Holder)
  {
    if step.Proceed? && h == OfCall(step.c) then OfRow(JtiOf(Happen(r, step), h))
    else if step.Proceed? && h == OfRow(r.store.issued) then OfCall(step.c)
    else h
  }

  /** A step makes no holder out of nothing, except that a login starts a new root. */
  ghost predicate FromSomewhere(r: Race, step: Step, h: Holder, overtaken: nat -> set<nat>)
  {
    var root := Root(Happen(r, step), h);
    || (Holds(r, Origin(r, step, h), overtaken) && Root(r, Origin(r, step, h)) == root)
    || (step.Other? && h == OfRow(r.store.issued) && root == r.store.issued)
  }

  predicate Consuming(r: Race, step: Step)
  {
    step.Proceed? && step.c < |r.calls| && r.calls[step.c].Rotating?
  }

  predicate IssuingNow(r: Race, step: Step)
  {
    step.Proceed? && step.c < |r.calls| && r.calls[step.c].Issuing?
  }

  /** A consumption makes a row's holder an issuing call. */
  lemma ConsumedHasOrigin(r: Race, step: Step, h: Holder, overtaken: nat -> set<nat>)
    requires OneHolder(r, overtaken) && Holds(Happen(r, step), h, Next(r, step, overtaken))
    requires Consuming(r, step) && step.c !in overtaken(r.calls[step.c].token.jti)
    ensures FromSomewhere(r, step, h, overtaken)
  {
    assert Consumes(r, step, r.calls[step.c].token.jti);
  }

  /** Issuing makes the call's holder the new row. */
  lemma IssuedHasOrigin(r: Race, step: Step, h: Holder, overtaken: nat -> set<nat>)
    requires OneHolder(r, overtaken) && Holds(Happen(r, step), h, Next(r, step, overtaken))
    requires IssuingNow(r, step)
    ensures FromSomewhere(r, step, h, overtaken)
  {
  }

  /** An operation of one statement makes no unspent row but that of a login. */
  lemma StatementHasOrigin(r: Race, call: Call, h: Holder, overtaken: nat -> set<nat>)
    requires OneHolder(r, overtaken) && Holds(Happen(r, Other(call)), h, Next(r, Other(call), overtaken))
    ensures FromSomewhere(r, Other(call), h, overtaken)
  {
    var after := Happen(r, Other(call));
    assert after.calls == r.calls;
    assert forall jti: nat :: Unspent(after.store, jti) ==> Unspent(r.store, jti) || jti == r.store.issued;
  }

  /** The other steps leave unspent rows unspent and start no issuing call; a call that begins
      to rotate has read an unspent row. */
  lemma OtherHasOrigin(r: Race, step: Step, h: Holder, overtaken: nat -> set<nat>)
    requires OneHolder(r, overtaken) && Holds(Happen(r, step), h, Next(r, step, overtaken))
    requires !step.Other? && !Consuming(r, step) && !IssuingNow(r, step)
    ensures FromSomewhere(r, step, h, overtaken)
  {
    var after, next := Happen(r, step), Next(r, step, overtaken);
    assert after.store.issued == r.store.issued && after.store.root == r.store.root;
    match h {
      case OfRow(jti) =>
        if Unspent(after.store, jti) {
          assert Unspent(r.store, jti);
        } else {
          var c: nat :| c < |after.calls| && RotatingOn(after.calls[c], jti) && c !in next(jti);
          assert c < |r.calls| && RotatingOn(r.calls[c], jti);
        }
      case OfCall(c) =>
        assert c < |r.calls| && r.calls[c] == after.calls[c];
    }
  }

  lemma HolderHasOrigin(r: Race, step: Step, h: Holder, overtaken: nat -> set<nat>)
    requires OneHolder(r, overtaken) && Holds(Happen(r, step), h, Next(r, step, overtaken))
    requires forall jti :: !(Consumes(r, step, jti) && step.c in overtaken(jti))
    ensures FromSomewhere(r, step, h, overtaken)
  {
    if Consuming(r, step) {
      assert Consumes(r, step, r.calls[step.c].token.jti);
      ConsumedHasOrigin(r, step, h, overtaken);
    } else if IssuingNow(r, step) {
      IssuedHasOrigin(r, step, h, overtaken);
    } else if step.Other? {
      StatementHasOrigin(r, step.call, h, overtaken);
    } else {
      OtherHasOrigin(r, step, h, overtaken);
    }
  }

  lemma StepKeepsOneHolder(r: Race, step: Step, overtaken: nat -> set<nat>)
    requires OneHolder(r, overtaken)
    requires forall jti :: !(Consumes(r, step, jti) && step.c in overtaken(jti))
    ensures OneHolder(Happen(r, step), Next(r, step, overtaken))
  {
    var after, next := Happen(r, step), Next(r, step, overtaken);
    HappenKeepsPlaced(r, step);
    forall h, k | Holds(after, h, next) && Holds(after, k, next) && Root(after, h) == Root(after, k)
      ensures h == k
    {
      HolderHasOrigin(r, step, h, overtaken);
      HolderHasOrigin(r, step, k, overtaken);
      if Origin(r, step, h) == Origin(r, step, k) {
        OriginIsOwn(r, step, h, k, overtaken);
      }
    }
  }

  /** A call that has just consumed a row leaves no other holder of it. */
  lemma ConsumedRowIsLeft(r: Race, step: Step, overtaken: nat -> set<nat>)
    requires Placed(r) && step.Proceed? && Holds(Happen(r, step), OfCall(step.c), Next(r, step, overtaken))
    ensures !Holds(Happen(r, step), OfRow(JtiOf(Happen(r, step), OfCall(step.c))), Next(r, step, overtaken))
  {
    var jti := JtiOf(Happen(r, step), OfCall(step.c));
    assert RotatingOn(r.calls[step.c], jti) && Consumes(r, step, jti);
    FirstConsumption(r, step, jti);
  }

  /** Two holders never come from one: what a step makes of a holder replaces it. */
  lemma OriginIsOwn(r: Race, step: Step, h: Holder, k: Holder, overtaken: nat -> set<nat>)
    requires Placed(r) && Origin(r, step, h) == Origin(r, step, k)
    requires Holds(Happen(r, step), h, Next(r, step, overtaken))
    requires Holds(Happen(r, step), k, Next(r, step, overtaken))
    ensures h == k
  {
    if step.Proceed? && (h == OfCall(step.c) || k == OfCall(step.c)) {
      ConsumedRowIsLeft(r, step, overtaken);
    }
  }

  lemma {:induction false} OneUnspentPerLogin(r: Race, steps: seq<Step>, overtaken: nat -> set<nat>)
    requires OneHolder(r, overtaken) && forall jti: nat :: NoneOvertaken(r, steps, jti, overtaken(jti))
    ensures forall j: nat, k: nat :: var s := RunSteps(r, steps).store;
              Unspent(s, j) && Unspent(s, k) && RootOf(s, j) == RootOf(s, k) ==> j == k
    decreases |steps|
  {
    if steps == [] {
      forall j: nat, k: nat | Unspent(r.store, j) && Unspent(r.store, k) && RootOf(r.store, j) == RootOf(r.store, k)
        ensures j == k
      {
        assert Holds(r, OfRow(j), overtaken) && Holds(r, OfRow(k), overtaken);
      }
    } else {
      forall jti: nat
        ensures !(Consumes(r, steps[0], jti) && steps[0].c in overtaken(jti))
        ensures NoneOvertaken(Happen(r, steps[0]), steps[1..], jti, Next(r, steps[0], overtaken)(jti))
      {
        assert NoneOvertaken(r, steps, jti, overtaken(jti));
      }
      StepKeepsOneHolder(r, steps[0], overtaken);
      OneUnspentPerLogin(Happen(r, steps[0]), steps[1..], Next(r, steps[0], overtaken));
    }
  }

  /** Calls that find the rows sound and run from there start with one holder a login. */
  lemma SoundHasOneHolder(s: Store)
    requires Sound(s)
    ensures OneHolder(Race(s, []), (_: nat) => {})
  {
    forall h, k | Holds(Race(s, []), h, (_: nat) => {}) && Holds(Race(s, []), k, (_: nat) => {})
      && Root(Race(s, []), h) == Root(Race(s, []), k)
      ensures h == k
    {
      assert Unspent(s, h.jti) && Unspent(s, k.jti);
    }
  }

  /** In any interleaving in which no call is overtaken, rotation never forks a login. */
  lemma NoForkIfNoneOvertaken(s: Store, steps: seq<Step>, j: nat, k: nat)
    requires Sound(s) && forall jti: nat :: NoneOvertaken(Race(s, []), steps, jti, {})
    ensures var end := RunSteps(Race(s, []), steps).store;
            Unspent(end, j) && Unspent(end, k) && RootOf(end, j) == RootOf(end, k) ==> j == k
  {
    SoundHasOneHolder(s);
    OneUnspentPerLogin(Race(s, []), steps, (_: nat) => {});
  }

  /** Two overlapping refreshes of one token both succeed: one login, two live tokens. */
  lemma OverlappingRefreshes()
    ensures var token := Token(7, 0, true);
            var start := Race(Store(map[0 := Row(7, 100, false, false)], 1, {7}, map[0 := 0]), []);
            var steps := [BeginRefresh(token, 1), BeginRefresh(token, 1), Proceed(0, 1), Proceed(1, 1),
                          Proceed(0, 1), Proceed(1, 1)];
            var end := RunSteps(start, steps);
            && end.calls == [Finished(Reply.Issued(1)), Finished(Reply.Issued(2))]
            && Live(end.store, 1, 1) && Live(end.store, 2, 1) && RootOf(end.store, 1) == RootOf(end.store, 2) == 0
  {
    var token := Token(7, 0, true);
    var row := Row(7, 100, false, false);
    var s0 := Race(Store(map[0 := row], 1, {7}, map[0 := 0]), []);
    var s1 := Happen(Happen(s0, BeginRefresh(token, 1)), BeginRefresh(token, 1));
    assert s1 == Race(s0.store, [Rotating(token, row), Rotating(token, row)]);
    var used := s0.store.(rows := map[0 := row.(used := true)]);
    var s2 := Happen(Happen(s1, Proceed(0, 1)), Proceed(1, 1));
    assert s2 == Race(used, [Issuing(token), Issuing(token)]);
    var steps := [BeginRefresh(token, 1), BeginRefresh(token, 1), Proceed(0, 1), Proceed(1, 1),
                  Proceed(0, 1), Proceed(1, 1)];
    assert steps[1..][1..] == [Proceed(0, 1), Proceed(1, 1), Proceed(0, 1), Proceed(1, 1)];
    assert RunSteps(s0, steps) == RunSteps(s1, steps[1..][1..]);
    assert steps[1..][1..][1..][1..] == [Proceed(0, 1), Proceed(1, 1)];
    assert RunSteps(s1, steps[1..][1..]) == RunSteps(s2, [Proceed(0, 1), Proceed(1, 1)]);
  }
}
