/** Opening cases of a limited supply (src/modules/cases/case.service.ts,
    src/modules/clickerCase/clicker-cases.service.ts, src/modules/users/users.service.ts).

    Opens interleave: one step is one database statement or transaction of one open. The
    decrement of the supply is conditional and atomic. The charge is not: it reads the
    balance without a row lock and writes back what it computed, over whatever the other
    games, deposits and sales have written in between. */
module LimitedCopies {
  import opened Sequences

  const MIN_COUNT := 1
  const MAX_COUNT := 5

  datatype Stage =
    | Checked
    | Reserved
    | Charging(snapshot: int)
    | Dropping(dropped: nat)
    | Finished
    | Broken(dropped: nat)
    | Refused
    | Restoring
    | Rejected
    | Leaked

  /** `limited` is the flag the open read when it validated the case. */
  datatype Opening = Opening(user: nat, count: nat, free: bool, limited: bool, stage: Stage)

  datatype Shop = Shop(price: nat, remaining: int, available: bool, isLimited: bool, balances: map<nat, int>,
                       opens: seq<Opening>)

  /** `ok` says whether the statement or foreign call of that step succeeds. `Adjust` is any
      other write of a balance, under its row lock: a stake, a win, a deposit, a sale. */
  datatype Event =
    | Start(user: nat, count: int, free: bool)
    | Advance(open: nat, ok: bool)
    | SetFlags(available: bool, isLimited: bool)
    | Adjust(user: nat, delta: int)

  function Cost(s: Shop, o: Opening): (cost: int)
    ensures cost >= 0
  {
    assert s.price * o.count >= 0;
    s.price * o.count
  }

  /** Where a failed charge leaves an open. */
  function AfterFailure(o: Opening): Stage
  {
    if o.limited then Restoring else Rejected
  }

  /** `reserveLimitedCopies` finds a row to update. */
  predicate CanReserve(s: Shop, o: Opening)
  {
    s.isLimited && s.available && s.remaining >= o.count
  }

  function NextStage(s: Shop, o: Opening, ok: bool): (stage: Stage)
  {
    match o.stage
    case Checked => if !o.limited || CanReserve(s, o) then Reserved else Refused
    case Reserved =>
      if o.free then Dropping(0)
      else if !ok || o.user !in s.balances || s.balances[o.user] < Cost(s, o) then AfterFailure(o)
      else Charging(s.balances[o.user])
    case Charging(_) => if ok then Dropping(0) else AfterFailure(o)
    case Restoring => if ok then Rejected else Leaked
    case Dropping(k) => if !ok then Broken(k) else if k + 1 >= o.count then Finished else Dropping(k + 1)
    case _ => o.stage
  }

  function NextRemaining(s: Shop, o: Opening, ok: bool): (remaining: int)
  {
    if o.stage.Checked? && o.limited && CanReserve(s, o) then s.remaining - o.count
    else if o.stage.Restoring? && ok then s.remaining + o.count
    else s.remaining
  }

  function NextBalances(s: Shop, o: Opening, ok: bool): (balances: map<nat, int>)
  {
    if o.stage.Charging? && ok then s.balances[o.user := o.stage.snapshot - Cost(s, o)] else s.balances
  }

  function Step(s: Shop, i: nat, ok: bool): (after: Shop)
    requires i < |s.opens|
  {
    var o := s.opens[i];
    s.(remaining := NextRemaining(s, o, ok), balances := NextBalances(s, o, ok),
       opens := s.opens[i := o.(stage := NextStage(s, o, ok))])
  }

  /** The open a request starts. */
  function Started(s: Shop, user: nat, count: nat, free: bool): (o: Opening)
  {
    Opening(user, count, free, s.isLimited, Checked)
  }

  function Happen(s: Shop, e: Event): (after: Shop)
  {
    match e
    case Start(user, count, free) =>
      if s.available && MIN_COUNT <= count <= MAX_COUNT
      then s.(opens := s.opens + [Started(s, user, count, free)])
      else s
    case Advance(i, ok) => if i < |s.opens| then Step(s, i, ok) else s
    case SetFlags(available, isLimited) => s.(available := available, isLimited := isLimited)
    case Adjust(user, delta) =>
      if user in s.balances && s.balances[user] + delta >= 0
      then s.(balances := s.balances[user := s.balances[user] + delta])
      else s
  }

  function RunEvents(s: Shop, events: seq<Event>): (end: Shop)
    decreases |events|
  {
    if events == [] then s else RunEvents(Happen(s, events[0]), events[1..])
  }

  // ----- Where the copies are -----

  predicate Sold(o: Opening)
  {
    o.stage.Dropping? || o.stage.Finished? || o.stage.Broken?
  }

  function InFlight(): (f: Opening -> int)
  {
    (o: Opening) => if o.limited && (o.stage.Reserved? || o.stage.Charging? || o.stage.Restoring?) then o.count else 0
  }

  function SoldCopies(): (f: Opening -> int)
  {
    (o: Opening) => if o.limited && Sold(o) then o.count else 0
  }

  function LeakedCopies(): (f: Opening -> int)
  {
    (o: Opening) => if o.limited && o.stage.Leaked? then o.count else 0
  }

  /** Skins handed out by limited opens. */
  function Drops(): (f: Opening -> int)
  {
    (o: Opening) =>
      if !o.limited then 0
      else
        match o.stage
        case Dropping(k) => k
        case Broken(k) => k
        case Finished => o.count
        case _ => 0
  }

  ghost predicate OpeningValid(o: Opening)
  {
    && MIN_COUNT <= o.count <= MAX_COUNT
    && (o.stage.Dropping? ==> o.stage.dropped < o.count)
    && (o.stage.Broken? ==> o.stage.dropped < o.count)
    && (o.stage.Charging? ==> !o.free)
    && (o.stage.Restoring? || o.stage.Leaked? ==> o.limited)
  }

  /** Every copy is on the shelf, held by an open that may still fail, sold, or lost by a
      restore that failed. */
  ghost predicate Stocked(s: Shop, supply: int)
  {
    && s.remaining >= 0
    && s.remaining + Sum(s.opens, InFlight()) + Sum(s.opens, SoldCopies()) + Sum(s.opens, LeakedCopies()) == supply
  }

  ghost predicate OpensValid(s: Shop)
  {
    forall i :: 0 <= i < |s.opens| ==> OpeningValid(s.opens[i])
  }

  lemma StageMovesCopies(s: Shop, o: Opening, ok: bool)
    requires OpeningValid(o) && s.remaining >= 0
    ensures var after, remaining := o.(stage := NextStage(s, o, ok)), NextRemaining(s, o, ok);
            && remaining >= 0 && OpeningValid(after)
            && remaining + InFlight()(after) + SoldCopies()(after) + LeakedCopies()(after)
               == s.remaining + InFlight()(o) + SoldCopies()(o) + LeakedCopies()(o)
  {
  }

  lemma StepKeepsStocked(s: Shop, i: nat, ok: bool, supply: int)
    requires i < |s.opens| && OpensValid(s) && Stocked(s, supply)
    ensures Stocked(Step(s, i, ok), supply)
  {
    var o := s.opens[i];
    var next := o.(stage := NextStage(s, o, ok));
    StageMovesCopies(s, o, ok);
    SumUpdate(s.opens, i, next, InFlight());
    SumUpdate(s.opens, i, next, SoldCopies());
    SumUpdate(s.opens, i, next, LeakedCopies());
  }

  lemma StartKeepsStocked(s: Shop, o: Opening, supply: int)
    requires Stocked(s, supply) && o.stage.Checked?
    ensures Stocked(s.(opens := s.opens + [o]), supply)
  {
    SumAppend(s.opens, o, InFlight());
    SumAppend(s.opens, o, SoldCopies());
    SumAppend(s.opens, o, LeakedCopies());
  }

  lemma HappenKeepsStocked(s: Shop, e: Event, supply: int)
    requires OpensValid(s) && Stocked(s, supply)
    ensures Stocked(Happen(s, e), supply)
  {
    match e {
      case Start(user, count, free) =>
        if count >= 0 {
          StartKeepsStocked(s, Started(s, user, count, free), supply);
        }
      case Advance(i, ok) =>
        if i < |s.opens| {
          StepKeepsStocked(s, i, ok, supply);
        }
      case SetFlags(_, _) =>
      case Adjust(_, _) =>
    }
  }

  lemma HappenKeepsValid(s: Shop, e: Event)
    requires OpensValid(s)
    ensures OpensValid(Happen(s, e))
  {
    var after := Happen(s, e);
    forall i | 0 <= i < |after.opens| ensures OpeningValid(after.opens[i]) {
      assert i < |s.opens| ==> OpeningValid(s.opens[i]);
    }
  }

  /** Under any interleaving the supply is conserved and never goes below zero. */
  lemma {:induction false} SupplyConserved(s: Shop, events: seq<Event>, supply: int)
    requires OpensValid(s) && Stocked(s, supply)
    ensures OpensValid(RunEvents(s, events)) && Stocked(RunEvents(s, events), supply)
    decreases |events|
  {
    if events != [] {
      HappenKeepsStocked(s, events[0], supply);
      HappenKeepsValid(s, events[0]);
      SupplyConserved(Happen(s, events[0]), events[1..], supply);
    }
  }

  lemma {:induction false} DropsWithinCopies(opens: seq<Opening>)
    requires forall i :: 0 <= i < |opens| ==> OpeningValid(opens[i])
    ensures 0 <= Sum(opens, Drops()) <= Sum(opens, SoldCopies())
    ensures Sum(opens, InFlight()) >= 0 && Sum(opens, LeakedCopies()) >= 0
  {
    if opens != [] {
      DropsWithinCopies(opens[..|opens| - 1]);
    }
  }

  /** However opens interleave and fail, no more skins drop than the supply allows. */
  lemma NeverOversold(s: Shop, events: seq<Event>)
    requires s.opens == [] && s.remaining >= 0
    ensures var end := RunEvents(s, events);
            0 <= Sum(end.opens, Drops()) <= Sum(end.opens, SoldCopies()) <= s.remaining - end.remaining
  {
    SupplyConserved(s, events, s.remaining);
    DropsWithinCopies(RunEvents(s, events).opens);
  }

  // ----- The money -----

  /** What the sold opens of a user cost. */
  function Spent(price: nat, user: nat): (f: Opening -> int)
  {
    (o: Opening) => if o.user == user && !o.free && Sold(o) then price * o.count else 0
  }

  ghost predicate Affordable(s: Shop, o: Opening)
  {
    o.stage.Charging? ==> o.user in s.balances && o.stage.snapshot >= Cost(s, o)
  }

  ghost predicate Solvent(s: Shop)
  {
    && (forall u :: u in s.balances ==> s.balances[u] >= 0)
    && (forall i :: 0 <= i < |s.opens| ==> Affordable(s, s.opens[i]))
  }

  lemma HappenKeepsSolvent(s: Shop, e: Event)
    requires Solvent(s)
    ensures Solvent(Happen(s, e))
  {
  }

  /** No charge ever drives a balance below zero. */
  lemma {:induction false} BalancesStayNonNegative(s: Shop, events: seq<Event>)
    requires Solvent(s)
    ensures Solvent(RunEvents(s, events))
    decreases |events|
  {
    if events != [] {
      HappenKeepsSolvent(s, events[0]);
      BalancesStayNonNegative(Happen(s, events[0]), events[1..]);
    }
  }

  predicate ChargingFor(o: Opening, user: nat)
  {
    o.user == user && o.stage.Charging?
  }

  /** An open turns into a sale only by being free or by a charge that succeeded and was
      covered by the balance it read. */
  lemma SoldOnlyAfterCharge(s: Shop, i: nat, ok: bool)
    requires i < |s.opens| && Affordable(s, s.opens[i])
    requires !Sold(s.opens[i]) && Sold(Step(s, i, ok).opens[i])
    ensures var o, after := s.opens[i], Step(s, i, ok);
            || (o.free && o.stage.Reserved? && after.balances == s.balances)
            || (ok && o.stage.Charging? && o.user in s.balances
                && after.balances == s.balances[o.user := o.stage.snapshot - Cost(s, o)]
                   && o.stage.snapshot >= Cost(s, o))
  {
  }

  // ----- One open on its own -----

  /** `n` successful steps of open i, one after the other. */
  function Through(s: Shop, i: nat, n: nat): (after: Shop)
    requires i < |s.opens|
    ensures |after.opens| == |s.opens|
    decreases n
  {
    if n == 0 then s else Through(Step(s, i, true), i, n - 1)
  }

  /** Open i stands at a stage; the shelf and the balances are as given, the rest as before. */
  predicate StandsAt(s: Shop, before: Shop, i: nat, stage: Stage, remaining: int, balances: map<nat, int>)
  {
    && i < |before.opens|
    && s == before.(remaining := remaining, balances := balances,
                    opens := before.opens[i := before.opens[i].(stage := stage)])
  }

  lemma {:induction false} DropsAll(s: Shop, i: nat, k: nat, n: nat)
    requires i < |s.opens| && s.opens[i].stage == Dropping(k) && k < s.opens[i].count <= k + n
    ensures StandsAt(Through(s, i, n), s, i, Finished, s.remaining, s.balances)
    decreases n
  {
    var next := Step(s, i, true);
    if k + 1 < s.opens[i].count {
      DropsAll(next, i, k + 1, n - 1);
    } else {
      StaysPut(next, i, n - 1);
    }
  }

  lemma {:induction false} StaysPut(s: Shop, i: nat, n: nat)
    requires i < |s.opens|
    requires s.opens[i].stage in {Finished, Refused, Rejected}
    ensures Through(s, i, n) == s
    decreases n
  {
    if n > 0 {
      assert s.opens[i := s.opens[i]] == s.opens;
      StaysPut(Step(s, i, true), i, n - 1);
    }
  }

  /** From the reservation on: a free open drops its skins, a paid one charges first, and one
      that cannot pay puts its copies back. */
  lemma ReservedThrough(s: Shop, i: nat, n: nat)
    requires i < |s.opens| && OpeningValid(s.opens[i]) && s.opens[i].stage.Reserved? && n >= 7
    ensures var o, cost := s.opens[i], s.price * s.opens[i].count;
            if o.free then StandsAt(Through(s, i, n), s, i, Finished, s.remaining, s.balances)
            else if o.user in s.balances && s.balances[o.user] >= cost then
              StandsAt(Through(s, i, n), s, i, Finished, s.remaining, s.balances[o.user := s.balances[o.user] - cost])
            else
              StandsAt(Through(s, i, n), s, i, Rejected, s.remaining + (if o.limited then o.count else 0), s.balances)
  {
    var o, next := s.opens[i], Step(s, i, true);
    if o.free {
      DropsAll(next, i, 0, n - 1);
    } else if o.user in s.balances && s.balances[o.user] >= Cost(s, o) {
      DropsAll(Step(next, i, true), i, 0, n - 2);
    } else if o.limited {
      assert next.opens[i].stage == Restoring;
      StaysPut(Step(next, i, true), i, n - 2);
    } else {
      StaysPut(next, i, n - 1);
    }
  }

  /** The open of a request that is let in, before its first step. */
  function Opened(s: Shop, user: nat, count: nat, free: bool): (after: Shop)
    ensures |after.opens| == |s.opens| + 1
  {
    s.(opens := s.opens + [Opening(user, count, free, s.isLimited, Checked)])
  }

  /** A request is let in exactly for 1 to 5 opens of a case on sale. Run by itself, its open
      drops all its skins for the full price, or for nothing if it is free, exactly when the
      shelf holds its copies and the balance its price; else balance and shelf end as they
      were. */
  lemma SoloOpen(s: Shop, user: nat, count: nat, free: bool)
    ensures var started := Happen(s, Start(user, count, free));
            if s.available && 1 <= count <= 5 then started == Opened(s, user, count, free) else started == s
    ensures s.available && 1 <= count <= 5 ==>
              var started, i, cost := Opened(s, user, count, free), |s.opens|, if free then 0 else s.price * count;
              var end, left := Through(started, i, 8), if s.isLimited then s.remaining - count else s.remaining;
              if s.isLimited && s.remaining < count then StandsAt(end, started, i, Refused, s.remaining, s.balances)
              else if free then StandsAt(end, started, i, Finished, left, s.balances)
              else if user in s.balances && s.balances[user] >= cost then
                StandsAt(end, started, i, Finished, left, s.balances[user := s.balances[user] - cost])
              else StandsAt(end, started, i, Rejected, s.remaining, s.balances)
  {
    if s.available && 1 <= count <= 5 {
      var started, i := Opened(s, user, count, free), |s.opens|;
      var next := Step(started, i, true);
      if s.isLimited && s.remaining < count {
        StaysPut(next, i, 7);
      } else {
        ReservedThrough(next, i, 7);
      }
    }
  }

  /** A case taken off sale lets nobody in and gives out no more limited copies. */
  lemma OffSale(s: Shop, isLimited: bool, user: nat, count: int, free: bool, i: nat, ok: bool)
    ensures var off := Happen(s, SetFlags(false, isLimited));
            && off == s.(available := false, isLimited := isLimited) && Happen(off, Start(user, count, free)) == off
            && (i < |s.opens| && s.opens[i].stage.Checked? && s.opens[i].limited ==>
                  StandsAt(Step(off, i, ok), off, i, Refused, s.remaining, s.balances))
  {
  }

  /** A charge that fails takes nothing, and a restore that works puts the copies back. */
  lemma FailedChargeRestores(s: Shop, i: nat)
    requires i < |s.opens| && s.opens[i].stage.Charging? && s.opens[i].limited
    ensures var restored := Step(Step(s, i, false), i, true);
            StandsAt(restored, s, i, Rejected, s.remaining + s.opens[i].count, s.balances)
  {
  }

  // ----- What a user pays, however charges overlap -----

  function TotalSpent(s: Shop, user: nat): (cents: int)
  {
    Sum(s.opens, Spent(s.price, user))
  }

  /** The charge of an open of the user reads the balance. */
  predicate Reads(s: Shop, e: Event, user: nat)
  {
    && e.Advance? && e.open < |s.opens| && s.opens[e.open].user == user && s.opens[e.open].stage.Reserved?
    && NextStage(s, s.opens[e.open], e.ok).Charging?
  }

  /** The charge of an open of the user writes the balance back. */
  predicate Writes(s: Shop, e: Event, user: nat)
  {
    e.Advance? && e.open < |s.opens| && e.ok && ChargingFor(s.opens[e.open], user)
  }

  lemma StageSpends(s: Shop, o: Opening, ok: bool, user: nat)
    requires OpeningValid(o) && user in s.balances
    ensures var after, balances := o.(stage := NextStage(s, o, ok)), NextBalances(s, o, ok);
            && user in balances
            && if ok && ChargingFor(o, user) then
                 && balances[user] == o.stage.snapshot - Cost(s, o) && !ChargingFor(after, user)
                 && Spent(s.price, user)(after) == Spent(s.price, user)(o) + Cost(s, o)
               else
                 && balances[user] == s.balances[user] && Spent(s.price, user)(after) == Spent(s.price, user)(o)
                 && (ChargingFor(after, user) ==> o.stage.Reserved? && after.stage.snapshot == s.balances[user])
  {
  }

  /** What an event other than a charge adds to a user's balance. */
  function Adjustment(s: Shop, e: Event, user: nat): (cents: int)
  {
    if e.Adjust? && e.user == user && user in s.balances && s.balances[user] + e.delta >= 0 then e.delta else 0
  }

  /** What one event does to a user's money: a charge writes what it computed from the balance
      it read, any other write adds to the present balance. */
  lemma HappenSpends(s: Shop, e: Event, user: nat)
    requires OpensValid(s) && user in s.balances
    ensures var after := Happen(s, e);
            && user in after.balances
            && (Writes(s, e, user) ==>
                  && after.balances[user] == s.opens[e.open].stage.snapshot - Cost(s, s.opens[e.open])
                  && TotalSpent(after, user) == TotalSpent(s, user) + Cost(s, s.opens[e.open]))
            && (!Writes(s, e, user) ==>
                  && after.balances[user] == s.balances[user] + Adjustment(s, e, user)
                  && TotalSpent(after, user) == TotalSpent(s, user))
  {
    if e.Advance? && e.open < |s.opens| {
      var o := s.opens[e.open];
      assert OpeningValid(o);
      StageSpends(s, o, e.ok, user);
      SumUpdate(s.opens, e.open, o.(stage := NextStage(s, o, e.ok)), Spent(s.price, user));
    } else if e.Start? && e.count >= 0 {
      SumAppend(s.opens, Started(s, e.user, e.count, e.free), Spent(s.price, user));
    }
  }

  lemma HappenCharging(s: Shop, e: Event, user: nat, j: nat)
    requires OpensValid(s) && user in s.balances
    requires j < |Happen(s, e).opens| && ChargingFor(Happen(s, e).opens[j], user)
    ensures var o := Happen(s, e).opens[j];
            if Reads(s, e, user) && j == e.open then o.stage.snapshot == s.balances[user]
            else j < |s.opens| && s.opens[j] == o && !(Writes(s, e, user) && j == e.open)
  {
    if e.Advance? && e.open == j && j < |s.opens| {
      assert OpeningValid(s.opens[j]);
      StageSpends(s, s.opens[j], e.ok, user);
    }
  }

  // ----- Every cent accounted for -----

  function Adjustments(s: Shop, events: seq<Event>, user: nat): (cents: int)
    decreases |events|
  {
    if events == [] then 0
    else Adjustment(s, events[0], user) + Adjustments(Happen(s, events[0]), events[1..], user)
  }

  /** What an event does to the user's balance, whoever writes it. */
  function Change(s: Shop, e: Event, user: nat): (cents: int)
  {
    var after := Happen(s, e);
    if user in s.balances && user in after.balances then after.balances[user] - s.balances[user] else 0
  }

  /** For each open, the net of what has been written to the user's balance since it read. */
  function NextDrift(s: Shop, e: Event, user: nat, drift: nat -> int): (after: nat -> int)
  {
    if Reads(s, e, user) then (i: nat) => if i == e.open then 0 else drift(i)
    else (i: nat) => drift(i) + Change(s, e, user)
  }

  /** Over the successful charges of a run, the net of what was written to the user's balance
      between the charge's read and its own write: what its write undoes. */
  function Overwritten(s: Shop, events: seq<Event>, user: nat, drift: nat -> int): (cents: int)
    decreases |events|
  {
    if events == [] then 0
    else
      (if Writes(s, events[0], user) then drift(events[0].open) else 0)
      + Overwritten(Happen(s, events[0]), events[1..], user, NextDrift(s, events[0], user, drift))
  }

  ghost predicate DriftMatches(s: Shop, user: nat, drift: nat -> int)
    requires user in s.balances
  {
    forall j :: 0 <= j < |s.opens| && ChargingFor(s.opens[j], user) ==>
      drift(j) == s.balances[user] - s.opens[j].stage.snapshot
  }

  lemma HappenDrifts(s: Shop, e: Event, user: nat, drift: nat -> int)
    requires OpensValid(s) && user in s.balances && DriftMatches(s, user, drift)
    ensures user in Happen(s, e).balances && DriftMatches(Happen(s, e), user, NextDrift(s, e, user, drift))
  {
    var after, next := Happen(s, e), NextDrift(s, e, user, drift);
    HappenSpends(s, e, user);
    forall j | 0 <= j < |after.opens| && ChargingFor(after.opens[j], user)
      ensures next(j) == after.balances[user] - after.opens[j].stage.snapshot
    {
      HappenCharging(s, e, user, j);
    }
  }

  lemma {:induction false} BooksBalance(s: Shop, events: seq<Event>, user: nat, drift: nat -> int)
    requires OpensValid(s) && user in s.balances && DriftMatches(s, user, drift)
    ensures var end := RunEvents(s, events);
            && user in end.balances
            && end.balances[user] + TotalSpent(end, user) + Overwritten(s, events, user, drift)
               == s.balances[user] + TotalSpent(s, user) + Adjustments(s, events, user)
    decreases |events|
  {
    if events != [] {
      var e := events[0];
      HappenSpends(s, e, user);
      HappenDrifts(s, e, user, drift);
      HappenKeepsValid(s, e);
      BooksBalance(Happen(s, e), events[1..], user, NextDrift(s, e, user, drift));
    }
  }

  function NoDrift(): (drift: nat -> int)
  {
    (i: nat) => 0
  }

  /** For every interleaving of opens with any other writes of the balance: it ends at the
      initial balance plus those writes, minus the price of every sold open that was not free,
      minus what the charges overwrote. So nothing is lost or gained if and only if what they
      overwrote nets to nothing: a lost credit and a lost charge can cancel. */
  lemma EveryCentAccountedFor(s: Shop, events: seq<Event>, user: nat)
    requires s.opens == [] && user in s.balances
    ensures var end, lost := RunEvents(s, events), Overwritten(s, events, user, NoDrift());
            var due := s.balances[user] + Adjustments(s, events, user) - TotalSpent(end, user);
            user in end.balances && end.balances[user] == due - lost && (end.balances[user] == due <==> lost == 0)
  {
    BooksBalance(s, events, user, NoDrift());
  }

  /** One case of 100 opened while a win of 1000 is paid: the charge writes the win away. */
  lemma LostWin()
    ensures var events := [Start(7, 1, false), Advance(0, true), Advance(0, true), Adjust(7, 1000), Advance(0, true)];
            var start := Shop(100, 10, true, true, map[7 := 500], []);
            var end := RunEvents(start, events);
            end.balances == map[7 := 400] && TotalSpent(end, 7) == 100
  {
    var s0 := Shop(100, 10, true, true, map[7 := 500], []);
    var first := [Start(7, 1, false), Advance(0, true), Advance(0, true)];
    var second := [Adjust(7, 1000), Advance(0, true)];
    var o := Opening(7, 1, false, true, Charging(500));
    var s1 := Shop(100, 9, true, true, map[7 := 500], [o]);
    RunConcat(s0, first, second);
    assert RunEvents(s0, first) == s1;
    var sold := o.(stage := Dropping(0));
    assert RunEvents(s1, second) == Shop(100, 9, true, true, map[7 := 400], [sold]);
    SumAppend([], sold, Spent(100, 7));
    assert [] + [sold] == [sold];
  }

  // ----- Opens alone -----

  /** Nothing but opens writes the user's balance. */
  ghost predicate OpensAlone(events: seq<Event>, user: nat)
  {
    forall i :: 0 <= i < |events| ==> !(events[i].Adjust? && events[i].user == user)
  }

  lemma OpensAloneRest(events: seq<Event>, user: nat)
    requires OpensAlone(events, user) && events != []
    ensures !(events[0].Adjust? && events[0].user == user) && OpensAlone(events[1..], user)
  {
    assert forall i :: 0 <= i < |events[1..]| ==> events[1..][i] == events[i + 1];
  }

  /** Balance and sales cover the deposit, and would if any charge under way succeeded now. */
  ghost predicate Covered(s: Shop, user: nat, deposit: int)
  {
    && user in s.balances
    && s.balances[user] + TotalSpent(s, user) >= deposit
    && forall j :: 0 <= j < |s.opens| && ChargingFor(s.opens[j], user) ==>
         s.opens[j].stage.snapshot + TotalSpent(s, user) >= deposit
  }

  lemma HappenKeepsCovered(s: Shop, e: Event, user: nat, deposit: int)
    requires !(e.Adjust? && e.user == user) && OpensValid(s) && Covered(s, user, deposit)
    ensures Covered(Happen(s, e), user, deposit)
  {
    var after := Happen(s, e);
    HappenSpends(s, e, user);
    forall j | 0 <= j < |after.opens| && ChargingFor(after.opens[j], user)
      ensures after.opens[j].stage.snapshot + TotalSpent(after, user) >= deposit
    {
      HappenCharging(s, e, user, j);
    }
  }

  /** Under any interleaving of opens alone a user is never charged more than the price of what
      was sold: overlapping charges overwrite only each other. */
  lemma {:induction false} NeverOvercharged(s: Shop, events: seq<Event>, user: nat, deposit: int)
    requires OpensAlone(events, user) && OpensValid(s) && Covered(s, user, deposit)
    ensures Covered(RunEvents(s, events), user, deposit)
    decreases |events|
  {
    if events != [] {
      OpensAloneRest(events, user);
      HappenKeepsCovered(s, events[0], user, deposit);
      HappenKeepsValid(s, events[0]);
      NeverOvercharged(Happen(s, events[0]), events[1..], user, deposit);
    }
  }

  // ----- When the user pays exactly -----

  /** The opens of the user that another charge has overtaken: it wrote the balance after
      they read it. */
  function Overtaken(s: Shop, e: Event, user: nat, overtaken: set<nat>): (after: set<nat>)
  {
    if Reads(s, e, user) then overtaken - {e.open}
    else if Writes(s, e, user) then overtaken + set j: nat | j < |s.opens| && ChargingFor(s.opens[j], user)
    else overtaken
  }

  /** No charge of the user succeeds between another one's read and its own write. */
  ghost predicate NoneOvertaken(s: Shop, events: seq<Event>, user: nat, overtaken: set<nat>)
    decreases |events|
  {
    events != [] ==>
      && !(Writes(s, events[0], user) && events[0].open in overtaken)
      && NoneOvertaken(Happen(s, events[0]), events[1..], user, Overtaken(s, events[0], user, overtaken))
  }

  /** The user has paid for exactly what was sold. A charge under way would keep it so, unless
      it was overtaken: then it would take too little. */
  ghost predicate Exact(s: Shop, user: nat, deposit: int, overtaken: set<nat>)
  {
    && user in s.balances
    && s.balances[user] + TotalSpent(s, user) == deposit
    && forall j :: 0 <= j < |s.opens| && ChargingFor(s.opens[j], user) ==>
         if j in overtaken then s.opens[j].stage.snapshot + TotalSpent(s, user) > deposit
         else s.opens[j].stage.snapshot == s.balances[user]
  }

  /** The user has paid too little, and no charge under way will make up for it. */
  ghost predicate Short(s: Shop, user: nat, deposit: int)
  {
    && user in s.balances
    && s.balances[user] + TotalSpent(s, user) > deposit
    && forall j :: 0 <= j < |s.opens| && ChargingFor(s.opens[j], user) ==>
         s.opens[j].stage.snapshot + TotalSpent(s, user) > deposit
  }

  lemma HappenKeepsShort(s: Shop, e: Event, user: nat, deposit: int)
    requires !(e.Adjust? && e.user == user) && OpensValid(s) && Short(s, user, deposit)
    ensures Short(Happen(s, e), user, deposit)
  {
    var after := Happen(s, e);
    HappenSpends(s, e, user);
    forall j | 0 <= j < |after.opens| && ChargingFor(after.opens[j], user)
      ensures after.opens[j].stage.snapshot + TotalSpent(after, user) > deposit
    {
      HappenCharging(s, e, user, j);
    }
  }

  lemma CostPositive(s: Shop, o: Opening)
    requires s.price > 0 && OpeningValid(o)
    ensures Cost(s, o) > 0
  {
    assert s.price * o.count >= o.count;
  }

  /** A write by an open that was not overtaken keeps the books exact; all other events do. */
  lemma HappenKeepsExact(s: Shop, e: Event, user: nat, deposit: int, overtaken: set<nat>)
    requires !(e.Adjust? && e.user == user) && OpensValid(s) && s.price > 0 && Exact(s, user, deposit, overtaken)
    requires !(Writes(s, e, user) && e.open in overtaken)
    ensures Exact(Happen(s, e), user, deposit, Overtaken(s, e, user, overtaken))
  {
    var after := Happen(s, e);
    HappenSpends(s, e, user);
    if Writes(s, e, user) {
      CostPositive(s, s.opens[e.open]);
    }
    forall j | 0 <= j < |after.opens| && ChargingFor(after.opens[j], user)
      ensures if j in Overtaken(s, e, user, overtaken)
              then after.opens[j].stage.snapshot + TotalSpent(after, user) > deposit
              else after.opens[j].stage.snapshot == after.balances[user]
    {
      HappenCharging(s, e, user, j);
    }
  }

  /** A write by an overtaken open leaves the user short for good. */
  lemma OvertakenFallsShort(s: Shop, e: Event, user: nat, deposit: int, overtaken: set<nat>)
    requires !(e.Adjust? && e.user == user) && OpensValid(s) && s.price > 0 && Exact(s, user, deposit, overtaken)
    requires Writes(s, e, user) && e.open in overtaken
    ensures Short(Happen(s, e), user, deposit)
  {
    var after := Happen(s, e);
    HappenSpends(s, e, user);
    CostPositive(s, s.opens[e.open]);
    forall j | 0 <= j < |after.opens| && ChargingFor(after.opens[j], user)
      ensures after.opens[j].stage.snapshot + TotalSpent(after, user) > deposit
    {
      HappenCharging(s, e, user, j);
    }
  }

  lemma {:induction false} ShortForGood(s: Shop, events: seq<Event>, user: nat, deposit: int)
    requires OpensAlone(events, user) && OpensValid(s) && Short(s, user, deposit)
    ensures Short(RunEvents(s, events), user, deposit)
    decreases |events|
  {
    if events != [] {
      OpensAloneRest(events, user);
      HappenKeepsShort(s, events[0], user, deposit);
      HappenKeepsValid(s, events[0]);
      ShortForGood(Happen(s, events[0]), events[1..], user, deposit);
    }
  }

  lemma {:induction false} ExactWhileNoneOvertaken(s: Shop, events: seq<Event>, user: nat, deposit: int,
                                                   overtaken: set<nat>)
    requires OpensAlone(events, user) && OpensValid(s) && s.price > 0 && Exact(s, user, deposit, overtaken)
    ensures var end := RunEvents(s, events);
            user in end.balances
            && (end.balances[user] + TotalSpent(end, user) == deposit <==> NoneOvertaken(s, events, user, overtaken))
    decreases |events|
  {
    if events != [] {
      OpensAloneRest(events, user);
      var e := events[0];
      HappenKeepsValid(s, e);
      if Writes(s, e, user) && e.open in overtaken {
        OvertakenFallsShort(s, e, user, deposit, overtaken);
        ShortForGood(Happen(s, e), events[1..], user, deposit);
      } else {
        HappenKeepsExact(s, e, user, deposit, overtaken);
        ExactWhileNoneOvertaken(Happen(s, e), events[1..], user, deposit, Overtaken(s, e, user, overtaken));
      }
    }
  }

  lemma {:induction false} NothingCostsNothing(s: Shop, events: seq<Event>, user: nat, deposit: int)
    requires OpensAlone(events, user) && OpensValid(s) && s.price == 0 && Exact(s, user, deposit, {})
    ensures Exact(RunEvents(s, events), user, deposit, {})
    decreases |events|
  {
    if events != [] {
      OpensAloneRest(events, user);
      var e, after := events[0], Happen(s, events[0]);
      HappenKeepsValid(s, e);
      HappenSpends(s, e, user);
      forall j | 0 <= j < |after.opens| && ChargingFor(after.opens[j], user)
        ensures after.opens[j].stage.snapshot == after.balances[user]
      {
        HappenCharging(s, e, user, j);
      }
      NothingCostsNothing(after, events[1..], user, deposit);
    }
  }

  /** From an idle shop, for any interleaving of opens alone: the balance has fallen by exactly
      the price of every sold open that was not free if and only if the case costs nothing or no
      charge of the user succeeded between another one's read and its own write. */
  lemma ChargesAreExact(s: Shop, events: seq<Event>, user: nat)
    requires s.opens == [] && user in s.balances && OpensAlone(events, user)
    ensures var end := RunEvents(s, events);
            user in end.balances
            && (end.balances[user] == s.balances[user] - TotalSpent(end, user)
                <==> s.price == 0 || NoneOvertaken(s, events, user, {}))
  {
    if s.price == 0 {
      NothingCostsNothing(s, events, user, s.balances[user]);
    } else {
      ExactWhileNoneOvertaken(s, events, user, s.balances[user], {});
    }
  }

  /** Two opens of the user are not inside their charges together. */
  ghost predicate OneCharge(opens: seq<Opening>, user: nat)
  {
    forall i, j | 0 <= i < j < |opens| :: !(ChargingFor(opens[i], user) && ChargingFor(opens[j], user))
  }

  ghost predicate OneChargeThroughout(s: Shop, events: seq<Event>, user: nat)
    decreases |events|
  {
    OneCharge(s.opens, user) && (events != [] ==> OneChargeThroughout(Happen(s, events[0]), events[1..], user))
  }

  /** The user paid for exactly what was sold, and a charge under way read the present balance. */
  ghost predicate PaidFor(s: Shop, user: nat, deposit: int)
  {
    Exact(s, user, deposit, {})
  }

  lemma HappenKeepsPaidFor(s: Shop, e: Event, user: nat, deposit: int)
    requires !(e.Adjust? && e.user == user) && OpensValid(s) && OneCharge(s.opens, user) && PaidFor(s, user, deposit)
    ensures PaidFor(Happen(s, e), user, deposit)
  {
    var after := Happen(s, e);
    HappenSpends(s, e, user);
    forall j | 0 <= j < |after.opens| && ChargingFor(after.opens[j], user)
      ensures after.opens[j].stage.snapshot == after.balances[user]
    {
      HappenCharging(s, e, user, j);
    }
  }

  /** In particular, while one charge of a user runs at a time and nothing else writes the
      balance, it falls by exactly the price of every sold open that was not free, whatever
      other users do. */
  lemma {:induction false} SoldMeansPaid(s: Shop, events: seq<Event>, user: nat, deposit: int)
    requires OpensAlone(events, user) && OpensValid(s)
    requires OneChargeThroughout(s, events, user) && PaidFor(s, user, deposit)
    ensures PaidFor(RunEvents(s, events), user, deposit)
    decreases |events|
  {
    if events != [] {
      OpensAloneRest(events, user);
      HappenKeepsPaidFor(s, events[0], user, deposit);
      HappenKeepsValid(s, events[0]);
      SoldMeansPaid(Happen(s, events[0]), events[1..], user, deposit);
    }
  }

  /** Overlapping charges of one user: two opens are sold and one price is taken. */
  lemma OverlappingCharges()
    ensures var events := [Start(7, 1, false), Start(7, 1, false), Advance(0, true), Advance(1, true),
                           Advance(0, true), Advance(1, true), Advance(0, true), Advance(1, true)];
            var end := RunEvents(Shop(100, 10, true, true, map[7 := 500], []), events);
            end.balances[7] == 400 && end.remaining == 8 && |end.opens| == 2 && Sold(end.opens[0]) && Sold(end.opens[1])
  {
    var s0 := Shop(100, 10, true, true, map[7 := 500], []);
    var first := [Start(7, 1, false), Start(7, 1, false), Advance(0, true), Advance(1, true)];
    var second := [Advance(0, true), Advance(1, true), Advance(0, true), Advance(1, true)];
    var o := Opening(7, 1, false, true, Reserved);
    var s1 := Shop(100, 8, true, true, map[7 := 500], [o, o]);
    var sold := o.(stage := Dropping(0));
    RunConcat(s0, first, second);
    assert RunEvents(s0, first) == s1;
    assert RunEvents(s1, second) == Shop(100, 8, true, true, map[7 := 400], [sold, sold]);
  }

  lemma {:induction false} RunConcat(s: Shop, first: seq<Event>, second: seq<Event>)
    ensures RunEvents(s, first + second) == RunEvents(RunEvents(s, first), second)
    decreases |first|
  {
    if first == [] {
      assert first + second == second;
    } else {
      assert (first + second)[1..] == first[1..] + second;
      RunConcat(Happen(s, first[0]), first[1..], second);
    }
  }
}
