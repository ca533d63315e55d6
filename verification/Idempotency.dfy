/** The idempotency protocol as a state machine: concurrent callers of one key share a
    Redis entry that expires (src/core/idempotency/idempotency.service.ts).

    Every `await` on Redis or on the handler is a separate step, so callers interleave
    freely. A retry by the same client is a new caller. */
module Idempotency {
  import opened Sequences

  /** `EX` times, in milliseconds. */
  const PROCESSING_TTL := 60 * 1000
  const RESULT_TTL := 24 * 60 * 60 * 1000

  datatype Entry<V> = Processing | Done(result: V)

  datatype Stored<V> = Stored(entry: Entry<V>, expiresAt: int)

  /** Where a call of `run` stands. */
  datatype Phase<V> =
    | Running                     // owns the key, handler in progress
    | Publishing(result: V)       // handler returned, result not yet written
    | Deleting                    // handler or write failed, key not yet deleted
    | Refused                     // `SET NX` found an entry; about to read it
    | Returned(value: V)
    | Conflict
    | Threw

  /** What became of one execution of the handler. `Unrecorded`: it succeeded, but writing
      its result failed. */
  datatype Outcome<V> = Pending(caller: nat) | Succeeded(result: V, publishedAt: int) | Failed | Unrecorded

  datatype Run<V> = Run(startedAt: int, outcome: Outcome<V>)

  /** `runs` lists the executions of the handler in starting order, `answers` the values
      handed to callers with the run they came from. */
  datatype State<V> = State(
    now: int,
    key: Option<Stored<V>>,
    callers: map<nat, Phase<V>>,
    runs: seq<Run<V>>,
    answers: seq<Answer<V>>)

  datatype Answer<V> = Answer(value: V, at: int, run: nat)

  datatype Step<V> =
    | Tick(ms: nat)
    | Begin(c: nat)
    | HandlerReturns(c: nat, v: V)
    | HandlerThrows(c: nat)
    | Publish(c: nat)
    | PublishFails(c: nat)
    | Delete(c: nat)
    | DeleteFails(c: nat)
    | Read(c: nat)

  ghost predicate InPhase<V>(s: State<V>, c: nat, p: Phase<V>)
  {
    c in s.callers && s.callers[c] == p
  }

  /** An entry is visible until it expires. */
  predicate Live<V>(s: State<V>)
  {
    s.key.Some? && s.now < s.key.value.expiresAt
  }

  function Last<V>(s: State<V>): (i: nat)
  {
    if s.runs == [] then 0 else |s.runs| - 1
  }

  function Settle<V>(s: State<V>, outcome: Outcome<V>): (runs: seq<Run<V>>)
  {
    if s.runs == [] then [] else s.runs[Last(s) := s.runs[Last(s)].(outcome := outcome)]
  }

  /** One step; a step that is not enabled changes nothing. */
  function Apply<V(==)>(s: State<V>, step: Step<V>): (next: State<V>)
  {
    match step
    case Tick(ms) => s.(now := s.now + ms)
    case Begin(c) =>
      if c in s.callers then s
      else if Live(s) then s.(callers := s.callers[c := Refused])
      else s.(key := Some(Stored(Processing, s.now + PROCESSING_TTL)),
              callers := s.callers[c := Running],
              runs := s.runs + [Run(s.now, Pending(c))])
    case HandlerReturns(c, v) =>
      if !(c in s.callers && s.callers[c] == Running) then s
      else s.(callers := s.callers[c := Publishing(v)])
    case HandlerThrows(c) =>
      if !(c in s.callers && s.callers[c] == Running) then s
      else s.(callers := s.callers[c := Deleting], runs := Settle(s, Failed))
    case Publish(c) =>
      if !(c in s.callers && s.callers[c].Publishing?) then s
      else
        var v := s.callers[c].result;
        s.(key := Some(Stored(Done(v), s.now + RESULT_TTL)),
           callers := s.callers[c := Returned(v)],
           runs := Settle(s, Succeeded(v, s.now)),
           answers := s.answers + [Answer(v, s.now, Last(s))])
    case PublishFails(c) =>
      if !(c in s.callers && s.callers[c].Publishing?) then s
      else s.(callers := s.callers[c := Deleting], runs := Settle(s, Unrecorded))
    case Delete(c) =>
      if !(c in s.callers && s.callers[c] == Deleting) then s
      else s.(key := None, callers := s.callers[c := Threw])
    case DeleteFails(c) =>
      if !(c in s.callers && s.callers[c] == Deleting) then s
      else s.(callers := s.callers[c := Threw])
    case Read(c) =>
      if !(c in s.callers && s.callers[c] == Refused) then s
      else if Live(s) && s.key.value.entry.Done? then
        var v := s.key.value.entry.result;
        s.(callers := s.callers[c := Returned(v)], answers := s.answers + [Answer(v, s.now, Last(s))])
      else s.(callers := s.callers[c := Conflict])
  }

  function Execute<V(==)>(s: State<V>, steps: seq<Step<V>>): (end: State<V>)
    decreases |steps|
  {
    if steps == [] then s else Execute(Apply(s, steps[0]), steps[1..])
  }

  function Initial<V>(now: int): State<V>
  {
    State(now, None, map[], [], [])
  }

  // ----- The timing assumption -----

  predicate InProgress<V>(p: Phase<V>)
  {
    p.Running? || p.Publishing? || p.Deleting?
  }

  /** Nobody who took the key has held it for the whole processing TTL. */
  ghost predicate Timely<V>(s: State<V>)
  {
    forall c :: c in s.callers && InProgress(s.callers[c]) && s.runs != [] ==>
      s.now < s.runs[Last(s)].startedAt + PROCESSING_TTL
  }

  ghost predicate TimelyThroughout<V>(s: State<V>, steps: seq<Step<V>>)
    decreases |steps|
  {
    Timely(s) && (steps != [] ==> TimelyThroughout(Apply(s, steps[0]), steps[1..]))
  }

  // ----- What the protocol keeps -----

  /** When the handler may be executed again after run r. */
  ghost predicate MayRetry<V>(r: Run<V>, at: int)
  {
    match r.outcome
    case Pending(_) => false
    case Succeeded(_, publishedAt) => publishedAt + RESULT_TTL <= at
    case Failed => true
    case Unrecorded => true
  }

  ghost predicate History<V>(s: State<V>)
  {
    && (forall i :: 0 <= i < |s.runs| ==> s.runs[i].startedAt <= s.now)
    && (forall i :: 0 <= i < |s.runs| && s.runs[i].outcome.Succeeded? ==>
          s.runs[i].startedAt <= s.runs[i].outcome.publishedAt <= s.now)
    && (forall i, j :: 0 <= i < j < |s.runs| ==> MayRetry(s.runs[i], s.runs[j].startedAt))
  }

  /** Every value handed out is the result of a run that had succeeded and not expired. */
  ghost predicate AnswersAreResults<V>(s: State<V>)
  {
    forall k :: 0 <= k < |s.answers| ==>
      var r := s.answers[k];
      && r.run < |s.runs| && s.runs[r.run].outcome.Succeeded?
      && r.value == s.runs[r.run].outcome.result
      && s.runs[r.run].outcome.publishedAt <= r.at < s.runs[r.run].outcome.publishedAt + RESULT_TTL
  }

  /** A caller in progress is the only one, is executing the last run, and holds the key. */
  ghost predicate OneInProgress<V>(s: State<V>)
  {
    && (forall c :: c in s.callers && InProgress(s.callers[c]) ==>
          && s.runs != []
          && s.key == Some(Stored(Processing, s.runs[Last(s)].startedAt + PROCESSING_TTL))
          && (if s.callers[c].Deleting?
              then s.runs[Last(s)].outcome == Failed || s.runs[Last(s)].outcome == Unrecorded
              else s.runs[Last(s)].outcome == Pending(c)))
    && (forall c, d | c in s.callers && d in s.callers ::
          InProgress(s.callers[c]) && InProgress(s.callers[d]) ==> c == d)
  }

  ghost predicate KeyMatchesLastRun<V>(s: State<V>)
  {
    && (s.runs != [] && s.runs[Last(s)].outcome.Pending? ==>
          var c := s.runs[Last(s)].outcome.caller;
          c in s.callers && (s.callers[c].Running? || s.callers[c].Publishing?))
    && (s.runs != [] && s.runs[Last(s)].outcome.Succeeded? ==>
          var o := s.runs[Last(s)].outcome;
          s.key == Some(Stored(Done(o.result), o.publishedAt + RESULT_TTL)))
    && (s.key.Some? && s.key.value.entry.Done? ==> s.runs != [] && s.runs[Last(s)].outcome.Succeeded?)
  }

  ghost predicate Safe<V>(s: State<V>)
  {
    History(s) && AnswersAreResults(s) && OneInProgress(s) && KeyMatchesLastRun(s)
  }

  lemma BeginKeepsSafe<V>(s: State<V>, c: nat)
    requires Safe(s) && Timely(s)
    ensures Safe(Apply(s, Begin(c)))
  {
    if c !in s.callers && !Live(s) {
      var next := Apply(s, Begin(c));
      assert forall d :: d in s.callers ==> !InProgress(s.callers[d]);
      forall i | 0 <= i < |s.runs| ensures MayRetry(s.runs[i], s.now) {
        if i < Last(s) {
          assert MayRetry(s.runs[i], s.runs[Last(s)].startedAt);
        }
      }
      assert History(next);
    }
  }

  lemma SettleKeepsHistory<V>(s: State<V>, c: nat, outcome: Outcome<V>)
    requires Safe(s) && c in s.callers && (s.callers[c].Running? || s.callers[c].Publishing?)
    requires outcome.Failed? || outcome.Unrecorded? || (outcome.Succeeded? && outcome.publishedAt == s.now)
    ensures var runs := Settle(s, outcome);
            && |runs| == |s.runs| > 0
            && runs[Last(s)] == Run(s.runs[Last(s)].startedAt, outcome)
            && History(s.(runs := runs)) && AnswersAreResults(s.(runs := runs))
  {
  }

  lemma HandlerReturnsKeepsSafe<V>(s: State<V>, c: nat, v: V)
    requires Safe(s)
    ensures Safe(Apply(s, HandlerReturns(c, v)))
  {
  }

  lemma HandlerThrowsKeepsSafe<V>(s: State<V>, c: nat)
    requires Safe(s)
    ensures Safe(Apply(s, HandlerThrows(c)))
  {
    if c in s.callers && s.callers[c] == Running {
      SettleKeepsHistory(s, c, Failed);
    }
  }

  lemma PublishKeepsSafe<V>(s: State<V>, c: nat)
    requires Safe(s)
    ensures Safe(Apply(s, Publish(c)))
  {
    if c in s.callers && s.callers[c].Publishing? {
      SettleKeepsHistory(s, c, Succeeded(s.callers[c].result, s.now));
    }
  }

  lemma PublishFailsKeepsSafe<V>(s: State<V>, c: nat)
    requires Safe(s)
    ensures Safe(Apply(s, PublishFails(c)))
  {
    if c in s.callers && s.callers[c].Publishing? {
      SettleKeepsHistory(s, c, Unrecorded);
    }
  }

  lemma DeleteKeepsSafe<V>(s: State<V>, c: nat)
    requires Safe(s)
    ensures Safe(Apply(s, Delete(c)))
  {
  }

  lemma DeleteFailsKeepsSafe<V>(s: State<V>, c: nat)
    requires Safe(s)
    ensures Safe(Apply(s, DeleteFails(c)))
  {
  }

  lemma ReadKeepsSafe<V>(s: State<V>, c: nat)
    requires Safe(s)
    ensures Safe(Apply(s, Read(c)))
  {
  }

  lemma StepKeepsSafe<V>(s: State<V>, step: Step<V>)
    requires Safe(s) && Timely(s)
    ensures Safe(Apply(s, step))
  {
    match step {
      case Tick(ms) =>
      case Begin(c) => BeginKeepsSafe(s, c);
      case HandlerReturns(c, v) => HandlerReturnsKeepsSafe(s, c, v);
      case HandlerThrows(c) => HandlerThrowsKeepsSafe(s, c);
      case Publish(c) => PublishKeepsSafe(s, c);
      case PublishFails(c) => PublishFailsKeepsSafe(s, c);
      case Delete(c) => DeleteKeepsSafe(s, c);
      case DeleteFails(c) => DeleteFailsKeepsSafe(s, c);
      case Read(c) => ReadKeepsSafe(s, c);
    }
  }

  /** Whatever the callers and the clock do, as long as nobody holds the key for the whole
      processing TTL, every state of the run is safe. */
  lemma {:induction false} ExecuteKeepsSafe<V>(s: State<V>, steps: seq<Step<V>>)
    requires Safe(s) && TimelyThroughout(s, steps)
    ensures Safe(Execute(s, steps))
    decreases |steps|
  {
    if steps != [] {
      StepKeepsSafe(s, steps[0]);
      ExecuteKeepsSafe(Apply(s, steps[0]), steps[1..]);
    }
  }

  /** At most one handler runs at a time. */
  ghost predicate OneHandler<V>(s: State<V>)
  {
    forall c, d | InPhase(s, c, Running) && InPhase(s, d, Running) :: c == d
  }

  /** A run that succeeded is followed by another only once its stored result has expired. */
  ghost predicate SuccessHolds<V>(s: State<V>)
  {
    forall i, j :: 0 <= i < j < |s.runs| && s.runs[i].outcome.Succeeded? ==>
      s.runs[i].outcome.publishedAt + RESULT_TTL <= s.runs[j].startedAt
  }

  /** An answer is the result of a success, given before any later run started. */
  ghost predicate InForce<V>(s: State<V>, r: Answer<V>)
  {
    && r.run < |s.runs| && s.runs[r.run].outcome.Succeeded? && s.runs[r.run].outcome.result == r.value
    && forall j :: r.run < j < |s.runs| ==> r.at < s.runs[j].startedAt
  }

  ghost predicate AnswersInForce<V>(s: State<V>)
  {
    forall k :: 0 <= k < |s.answers| ==> InForce(s, s.answers[k])
  }

  lemma SafeHasOneHandler<V>(s: State<V>)
    requires Safe(s)
    ensures OneHandler(s)
  {
  }

  lemma SafeSuccessHolds<V>(s: State<V>)
    requires Safe(s)
    ensures SuccessHolds(s)
  {
    forall i, j | 0 <= i < j < |s.runs| && s.runs[i].outcome.Succeeded?
      ensures s.runs[i].outcome.publishedAt + RESULT_TTL <= s.runs[j].startedAt
    {
      assert MayRetry(s.runs[i], s.runs[j].startedAt);
    }
  }

  lemma SafeAnswerInForce<V>(s: State<V>, k: nat)
    requires Safe(s) && k < |s.answers|
    ensures InForce(s, s.answers[k])
  {
    var r := s.answers[k];
    forall j | r.run < j < |s.runs| ensures r.at < s.runs[j].startedAt {
      assert MayRetry(s.runs[r.run], s.runs[j].startedAt);
    }
  }

  lemma SafeAnswersInForce<V>(s: State<V>)
    requires Safe(s)
    ensures AnswersInForce(s)
  {
    forall k | 0 <= k < |s.answers| ensures InForce(s, s.answers[k]) {
      SafeAnswerInForce(s, k);
    }
  }

  /** The promise of the service, for every interleaving on one key: at most one handler runs
      at a time; a run that succeeded is followed by another only once its stored result has
      expired; and whoever gets a value gets the result of a success that is still current,
      so that no later run had started. */
  lemma AtMostOnce<V>(now: int, steps: seq<Step<V>>)
    requires TimelyThroughout(Initial<V>(now), steps)
    ensures var s := Execute(Initial<V>(now), steps);
            OneHandler(s) && SuccessHolds(s) && AnswersInForce(s)
  {
    var s := Execute(Initial<V>(now), steps);
    assert OneHandler(s) by {
      ExecuteKeepsSafe(Initial<V>(now), steps);
      SafeHasOneHandler(s);
    }
    assert SuccessHolds(s) by {
      ExecuteKeepsSafe(Initial<V>(now), steps);
      SafeSuccessHolds(s);
    }
    assert AnswersInForce(s) by {
      ExecuteKeepsSafe(Initial<V>(now), steps);
      SafeAnswersInForce(s);
    }
  }

  ghost predicate WritesSucceed<V>(steps: seq<Step<V>>)
  {
    forall i :: 0 <= i < |steps| ==> !steps[i].PublishFails?
  }

  ghost predicate NoneUnrecorded<V>(s: State<V>)
  {
    forall i :: 0 <= i < |s.runs| ==> !s.runs[i].outcome.Unrecorded?
  }

  lemma {:induction false} NothingUnrecorded<V>(s: State<V>, steps: seq<Step<V>>)
    requires WritesSucceed(steps) && NoneUnrecorded(s)
    ensures NoneUnrecorded(Execute(s, steps))
    decreases |steps|
  {
    if steps != [] {
      assert !steps[0].PublishFails?;
      var next := Apply(s, steps[0]);
      assert NoneUnrecorded(next);
      assert forall i :: 0 <= i < |steps[1..]| ==> steps[1..][i] == steps[i + 1];
      NothingUnrecorded(next, steps[1..]);
    }
  }

  /** When results can be written, only failed runs are executed again before expiry. */
  lemma OnlyFailuresRerun<V>(now: int, steps: seq<Step<V>>, i: nat, j: nat)
    requires TimelyThroughout(Initial<V>(now), steps) && WritesSucceed(steps)
    requires i < j < |Execute(Initial<V>(now), steps).runs|
    ensures var runs := Execute(Initial<V>(now), steps).runs;
            runs[i].outcome == Failed
            || (runs[i].outcome.Succeeded? && runs[i].outcome.publishedAt + RESULT_TTL <= runs[j].startedAt)
  {
    ExecuteKeepsSafe(Initial<V>(now), steps);
    NothingUnrecorded(Initial<V>(now), steps);
    var runs := Execute(Initial<V>(now), steps).runs;
    assert MayRetry(runs[i], runs[j].startedAt);
  }

  // ----- What a later caller meets -----

  /** While a call holds the key nobody else starts, and from 60 seconds on somebody can. */
  lemma HeldForAMinute<V>(s: State<V>, c: nat, ms: nat, d: nat)
    requires s.key.None? || s.key.value.expiresAt <= s.now
    requires c !in s.callers && d !in s.callers && c != d
    ensures var t := Apply(Apply(Apply(s, Begin(c)), Tick(ms)), Begin(d));
            && InPhase(t, c, Running)
            && if ms < 60_000 then InPhase(Apply(t, Read(d)), d, Conflict) else InPhase(t, d, Running)
  {
  }

  predicate StepOf<V>(step: Step<V>, c: nat)
  {
    match step
    case Tick(_) => false
    case Begin(d) => c == d
    case HandlerReturns(d, _) => c == d
    case HandlerThrows(d) => c == d
    case Publish(d) => c == d
    case PublishFails(d) => c == d
    case Delete(d) => c == d
    case DeleteFails(d) => c == d
    case Read(d) => c == d
  }

  ghost predicate NoneOf<V>(steps: seq<Step<V>>, c: nat)
  {
    forall i :: 0 <= i < |steps| ==> !StepOf(steps[i], c)
  }

  /** A call moves by its own steps alone. */
  lemma {:induction false} OthersLeaveCall<V>(s: State<V>, steps: seq<Step<V>>, c: nat, p: Phase<V>)
    requires InPhase(s, c, p) && NoneOf(steps, c)
    ensures InPhase(Execute(s, steps), c, p)
    decreases |steps|
  {
    if steps != [] {
      assert !StepOf(steps[0], c);
      assert forall i :: 0 <= i < |steps[1..]| ==> steps[1..][i] == steps[i + 1];
      OthersLeaveCall(Apply(s, steps[0]), steps[1..], c, p);
    }
  }

  /** A handler that throws frees the key, whatever other calls do before the delete: the next
      new caller runs. */
  lemma FailureFreesKey<V>(s: State<V>, c: nat, between: seq<Step<V>>, d: nat)
    requires InPhase(s, c, Running) && NoneOf(between, c)
    requires d !in Execute(Apply(s, HandlerThrows(c)), between).callers
    ensures var deleted := Apply(Execute(Apply(s, HandlerThrows(c)), between), Delete(c));
            InPhase(deleted, c, Threw) && InPhase(Apply(deleted, Begin(d)), d, Running)
  {
    OthersLeaveCall(Apply(s, HandlerThrows(c)), between, c, Deleting);
  }

  /** So does a result that cannot be written. */
  lemma WriteFailureFreesKey<V>(s: State<V>, c: nat, v: V, between: seq<Step<V>>, d: nat)
    requires InPhase(s, c, Publishing(v)) && NoneOf(between, c)
    requires d !in Execute(Apply(s, PublishFails(c)), between).callers
    ensures var deleted := Apply(Execute(Apply(s, PublishFails(c)), between), Delete(c));
            InPhase(deleted, c, Threw) && InPhase(Apply(deleted, Begin(d)), d, Running)
  {
    OthersLeaveCall(Apply(s, PublishFails(c)), between, c, Deleting);
  }

  /** If the delete fails as well, callers meet a conflict until 60 seconds after the start. */
  lemma FailedDeleteBlocks<V>(s: State<V>, c: nat, ms: nat, d: nat)
    requires Safe(s) && InPhase(s, c, Running) && d !in s.callers
    ensures var t := Apply(Apply(Apply(Apply(s, HandlerThrows(c)), DeleteFails(c)), Tick(ms)), Begin(d));
            && InPhase(t, c, Threw)
            && if s.now + ms < s.runs[|s.runs| - 1].startedAt + 60_000
               then InPhase(Apply(t, Read(d)), d, Conflict) else InPhase(t, d, Running)
  {
  }

  lemma {:induction false} ClockGrows<V>(s: State<V>, steps: seq<Step<V>>)
    ensures s.now <= Execute(s, steps).now
    decreases |steps|
  {
    if steps != [] {
      ClockGrows(Apply(s, steps[0]), steps[1..]);
    }
  }

  /** A stored result nobody is about to touch. */
  ghost predicate Settled<V>(s: State<V>, v: V, expiresAt: int)
  {
    s.key == Some(Stored(Done(v), expiresAt)) && forall c :: c in s.callers ==> !InProgress(s.callers[c])
  }

  lemma {:induction false} ResultStays<V>(s: State<V>, steps: seq<Step<V>>, v: V, expiresAt: int)
    requires Settled(s, v, expiresAt) && Execute(s, steps).now < expiresAt
    ensures Settled(Execute(s, steps), v, expiresAt)
    decreases |steps|
  {
    if steps != [] {
      ClockGrows(s, steps);
      ResultStays(Apply(s, steps[0]), steps[1..], v, expiresAt);
    }
  }

  /** A published result answers its call and, for 24 hours, every later one, whatever other
      calls do meanwhile. */
  lemma ResultAnswersForADay<V>(s: State<V>, c: nat, v: V, later: seq<Step<V>>, d: nat)
    requires Safe(s) && InPhase(s, c, Publishing(v))
    requires Execute(Apply(s, Publish(c)), later).now < s.now + 86_400_000
    requires d !in Execute(Apply(s, Publish(c)), later).callers
    ensures var t := Execute(Apply(s, Publish(c)), later);
            InPhase(Apply(s, Publish(c)), c, Returned(v)) && InPhase(Apply(Apply(t, Begin(d)), Read(d)), d, Returned(v))
  {
    ResultStays(Apply(s, Publish(c)), later, v, s.now + RESULT_TTL);
  }

  /** What a handler returns is what its call publishes and answers; after 24 hours without
      another call the handler runs again. */
  lemma ResultExpires<V>(s: State<V>, c: nat, v: V, ms: nat, d: nat)
    requires InPhase(s, c, Running) && d !in s.callers
    ensures var published := Apply(Apply(s, HandlerReturns(c, v)), Publish(c));
            var t := Apply(Apply(published, Tick(ms)), Begin(d));
            InPhase(t, c, Returned(v)) && (InPhase(t, d, Running) <==> ms >= 86_400_000)
  {
  }

  // ----- When a handler outlives the processing TTL -----

  /** A second handler starts exactly when a new caller arrives while somebody is running and
      the entry is not visible any more. */
  lemma OverlapIffExpired<V>(s: State<V>, running: nat, c: nat)
    requires InPhase(s, running, Running) && c !in s.callers
    ensures var t := Apply(s, Begin(c));
            InPhase(t, running, Running) && (InPhase(t, c, Running) <==> !Live(s))
  {
  }

  /** The overrun owner's delete does not ask whose entry it is: it frees the key under the
      second owner, so that a third handler can start beside it. */
  lemma OverrunDeleteFreesKey<V>(s: State<V>, overrun: nat, second: nat, third: nat)
    requires InPhase(s, overrun, Deleting) && InPhase(s, second, Running) && third !in s.callers
    ensures var t := Apply(Apply(s, Delete(overrun)), Begin(third));
            InPhase(t, second, Running) && InPhase(t, third, Running)
  {
  }

  /** Its publish puts its own result over the second owner's entry: callers refused from then
      on are answered with that result while the second handler still runs. */
  lemma OverrunPublishAnswers<V>(s: State<V>, overrun: nat, second: nat, caller: nat, v: V)
    requires InPhase(s, overrun, Publishing(v)) && InPhase(s, second, Running) && caller !in s.callers
    ensures var t := Apply(Apply(Apply(s, Publish(overrun)), Begin(caller)), Read(caller));
            InPhase(t, second, Running) && InPhase(t, caller, Returned(v))
  {
  }

  /** Such runs exist: a handler that outlives the TTL can meet a second one. */
  lemma SlowHandlersOverlap()
    ensures var s := Execute(Initial<int>(0), [Begin(0), Tick(PROCESSING_TTL), Begin(1)]);
            InPhase(s, 0, Running) && InPhase(s, 1, Running)
  {
    var s0 := Initial<int>(0);
    var s1 := Apply(s0, Begin(0));
    var s2 := Apply(s1, Tick(PROCESSING_TTL));
    var s3 := Apply(s2, Begin(1));
    var steps := [Begin(0), Tick(PROCESSING_TTL), Begin(1)];
    assert steps[1..] == [Tick(PROCESSING_TTL), Begin(1)] && steps[1..][1..] == [Begin(1)];
    assert Execute(s2, [Begin(1)]) == s3 by {
      assert [Step<int>.Begin(1)][1..] == [];
    }
    assert Execute(s0, steps) == s3;
  }
}
