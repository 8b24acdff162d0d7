/** The phase and the authentication lease of one connection, which together decide whether it is available. */
module Leases {
  import opened Basics

  type Time = int

  datatype Phase = AwaitHello | Active | Draining | Closed

  /**
   `entered` says that the handshake has stored the active phase, `leased` that the first lease was
   asked for, and `drained` that the drain announcement was attempted: each happens at most once.
   `announcing` says that the announcement is being queued, after the phase was found active.
   */
  datatype Standing = Standing(
    phase: Phase,
    entered: bool,
    leased: bool,
    drained: bool,
    announcing: bool,
    bootstrapped: bool,
    deadline: Option<Time>,
    generation: nat,
    expired: bool)

  function NewStanding(): Standing {
    Standing(AwaitHello, false, false, false, false, false, None, 0, false)
  }

  predicate LeaseOver(s: Standing, now: Time) {
    s.expired || (s.deadline.Some? && s.deadline.value <= now)
  }

  predicate IsAvailable(s: Standing, now: Time) {
    s.bootstrapped && s.phase == Active && !LeaseOver(s, now)
  }

  function Install(s: Standing, expiresAt: Time): Standing {
    s.(generation := s.generation + 1, expired := false, deadline := Some(expiresAt))
  }

  function ActivateInitialLease(s: Standing, expiresAt: Time, now: Time): Standing {
    if expiresAt <= now then s.(expired := true, leased := true)
    else Install(s, expiresAt).(bootstrapped := true, leased := true)
  }

  /** A new token is accepted only in place of the lease it was checked against, and only while that lease lasts. */
  predicate Replaceable(s: Standing, previous: Option<Time>, expiresAt: Time, now: Time) {
    !s.expired && s.deadline == previous && s.deadline.Some? && s.deadline.value > now && expiresAt > now
  }

  function ReplaceLease(s: Standing, previous: Option<Time>, expiresAt: Time, now: Time): Standing {
    if Replaceable(s, previous, expiresAt, now) then Install(s, expiresAt) else s
  }

  /** The timer of one lease; it means nothing once another lease was installed or the timers were stopped. */
  function ExpireLease(s: Standing, generation: nat): Standing {
    if generation != s.generation then s else s.(expired := true)
  }

  // ---------- runs ----------

  datatype Deed =
    | Enter
    | FirstLease(expiresAt: Time)
    | Renew(previous: Option<Time>, expiresAt: Time)
    | Timer(generation: nat)
    | StopLease
    | Close
    | BeginDrain
    | FinishDrain(queued: bool)

  predicate CanDo(s: Standing, deed: Deed) {
    match deed
    case Enter => !s.entered && !s.bootstrapped
    case FirstLease(_) => s.entered && !s.leased
    case BeginDrain => !s.drained
    case FinishDrain(_) => s.announcing
    case _ => true
  }

  function Done(s: Standing, deed: Deed, now: Time): Standing
    requires CanDo(s, deed)
  {
    match deed
    case Enter => s.(phase := Active, entered := true)
    case FirstLease(expiresAt) => ActivateInitialLease(s, expiresAt, now)
    case Renew(previous, expiresAt) => ReplaceLease(s, previous, expiresAt, now)
    case Timer(generation) => ExpireLease(s, generation)
    case StopLease => s.(generation := s.generation + 1)
    case Close => s.(phase := Closed)
    case BeginDrain => s.(drained := true, announcing := s.phase == Active)
    case FinishDrain(queued) => s.(announcing := false, phase := if queued && s.phase == Active then Draining else s.phase)
  }

  /** A connection and the reading of the clock at its last step. */
  datatype Moment = Moment(standing: Standing, now: Time)

  ghost predicate StandingSteps(a: Moment, b: Moment) {
    exists deed :: CanDo(a.standing, deed) && b.standing == Done(a.standing, deed, b.now)
  }

  ghost predicate StandingStepsTo(ms: seq<Moment>, i: int)
    requires 0 < i < |ms|
  {
    StandingSteps(ms[i - 1], ms[i]) && ms[i - 1].now <= ms[i].now
  }

  ghost predicate StandingRun(ms: seq<Moment>) {
    ms != [] && ms[0].standing == NewStanding() && forall i :: 0 < i < |ms| ==> StandingStepsTo(ms, i)
  }

  predicate StandingInv(s: Standing) {
    && (s.bootstrapped ==> s.entered && s.leased)
    && (s.bootstrapped && !s.expired ==> s.deadline.Some?)
  }

  /** Unavailable for good: bootstrapped, and out of phase or past the lease. */
  predicate Lost(s: Standing, now: Time) {
    s.bootstrapped && !IsAvailable(s, now)
  }

  lemma StepStaysLost(s: Standing, deed: Deed, before: Time, now: Time)
    requires StandingInv(s) && CanDo(s, deed) && before <= now
    ensures StandingInv(Done(s, deed, now))
    ensures Lost(s, before) ==> Lost(Done(s, deed, now), now)
  {
  }

  lemma {:induction false} RunKeepsStanding(ms: seq<Moment>, i: int)
    requires StandingRun(ms) && 0 <= i < |ms|
    ensures StandingInv(ms[i].standing)
    decreases i
  {
    if i > 0 {
      RunKeepsStanding(ms, i - 1);
      assert StandingStepsTo(ms, i);
      var deed :| CanDo(ms[i - 1].standing, deed) && ms[i].standing == Done(ms[i - 1].standing, deed, ms[i].now);
      StepStaysLost(ms[i - 1].standing, deed, ms[i - 1].now, ms[i].now);
    }
  }

  /** A bootstrapped connection that is once unavailable is unavailable at every later reading. */
  lemma UnavailableForGood(ms: seq<Moment>, i: int, j: int, later: Time)
    requires StandingRun(ms) && 0 <= i <= j < |ms| && ms[j].now <= later
    requires Lost(ms[i].standing, ms[i].now)
    ensures !IsAvailable(ms[j].standing, later)
  {
    StaysLost(ms, i, j);
  }

  lemma {:induction false} StaysLost(ms: seq<Moment>, i: int, j: int)
    requires StandingRun(ms) && 0 <= i <= j < |ms| && Lost(ms[i].standing, ms[i].now)
    ensures Lost(ms[j].standing, ms[j].now)
    decreases j
  {
    if i < j {
      StaysLost(ms, i, j - 1);
      RunKeepsStanding(ms, j - 1);
      assert StandingStepsTo(ms, j);
      var deed :| CanDo(ms[j - 1].standing, deed) && ms[j].standing == Done(ms[j - 1].standing, deed, ms[j].now);
      StepStaysLost(ms[j - 1].standing, deed, ms[j - 1].now, ms[j].now);
    }
  }

  /**
   This rests on the clock. A lease past its deadline at one reading is renewed by a later call exactly when
   that call names the lease and reads the clock before the deadline, that is before the first reading; and
   then the connection is available again until the new deadline.
   */
  lemma OnlyABackwardClockRevives(s: Standing, previous: Option<Time>, expiresAt: Time, before: Time, now: Time, later: Time)
    requires s.bootstrapped && s.phase == Active && LeaseOver(s, before) && before <= later
    ensures IsAvailable(ReplaceLease(s, previous, expiresAt, now), later)
            <==> !s.expired && previous == s.deadline && now < s.deadline.value && now < expiresAt && later < expiresAt
    ensures IsAvailable(ReplaceLease(s, previous, expiresAt, now), later) ==> now < before
  {
  }

  // ---------- timers ----------

  lemma {:induction false} GenerationsGrow(ms: seq<Moment>, i: int, j: int)
    requires StandingRun(ms) && 0 <= i <= j < |ms|
    ensures ms[i].standing.generation <= ms[j].standing.generation
    decreases j
  {
    if i < j {
      GenerationsGrow(ms, i, j - 1);
      assert StandingStepsTo(ms, j);
    }
  }

  /** The timer of a lease that was replaced, or whose connection was stopped, never expires a later lease. */
  lemma StaleTimerDoesNothing(ms: seq<Moment>, i: int, k: int, j: int)
    requires StandingRun(ms) && 0 <= i < k <= j < |ms|
    requires ms[k].standing.generation > ms[i].standing.generation
    ensures ExpireLease(ms[j].standing, ms[i].standing.generation) == ms[j].standing
  {
    GenerationsGrow(ms, k, j);
  }

  // ---------- what a lease gives ----------

  /**
   A renewal that names the lease in force, both running and ahead of the clock, replaces it: the connection is
   available exactly until the new deadline, the timer of the old lease means nothing any more, and its own ends it.
   Any other renewal changes nothing.
   */
  lemma RenewalGives(s: Standing, previous: Option<Time>, expiresAt: Time, now: Time, later: Time)
    requires s.bootstrapped && s.phase == Active
    ensures var s' := ReplaceLease(s, previous, expiresAt, now);
            if !LeaseOver(s, now) && s.deadline.Some? && previous == s.deadline && now < expiresAt
            then
              && (IsAvailable(s', later) <==> later < expiresAt)
              && (forall g: nat :: g <= s.generation ==> ExpireLease(s', g) == s')
              && !IsAvailable(ExpireLease(s', s'.generation), later)
            else s' == s
  {
  }

  lemma StepKeepsDeadline(s: Standing, deed: Deed, now: Time)
    requires CanDo(s, deed)
    ensures var s' := Done(s, deed, now);
            && s.generation <= s'.generation
            && (s'.generation == s.generation ==> s'.deadline == s.deadline && (s.expired ==> s'.expired)
                                                  && (s.bootstrapped ==> s'.bootstrapped))
  {
  }

  /** A deadline belongs to its generation: only another lease brings another one. */
  lemma {:induction false} DeadlineIsItsLease(ms: seq<Moment>, i: int, j: int)
    requires StandingRun(ms) && 0 <= i <= j < |ms| && ms[j].standing.generation == ms[i].standing.generation
    ensures ms[j].standing.deadline == ms[i].standing.deadline && (ms[i].standing.expired ==> ms[j].standing.expired)
    ensures ms[i].standing.bootstrapped ==> ms[j].standing.bootstrapped
    decreases j
  {
    if i < j {
      assert StandingStepsTo(ms, j);
      var deed :| CanDo(ms[j - 1].standing, deed) && ms[j].standing == Done(ms[j - 1].standing, deed, ms[j].now);
      GenerationsGrow(ms, i, j - 1);
      StepKeepsDeadline(ms[j - 1].standing, deed, ms[j].now);
      DeadlineIsItsLease(ms, i, j - 1);
    }
  }

  /**
   Over every run: a lease that bootstrapped the connection or was renewed in time makes it available until that
   lease's deadline, as long as the connection is in its active phase, the lease is the one in force, and its own
   timer has not fired.
   */
  lemma LeaseHoldsToItsDeadline(ms: seq<Moment>, i: int, j: int, later: Time)
    requires StandingRun(ms) && 0 <= i <= j < |ms| && ms[j].standing.generation == ms[i].standing.generation
    requires ms[i].standing.bootstrapped && ms[i].standing.deadline.Some?
    ensures IsAvailable(ms[j].standing, later)
            <==> ms[j].standing.phase == Active && !ms[j].standing.expired && later < ms[i].standing.deadline.value
  {
    DeadlineIsItsLease(ms, i, j);
  }

  /** A lease expires early only by its own timer: while it is in force, nothing else marks it. */
  lemma OnlyItsTimerExpires(s: Standing, deed: Deed, now: Time)
    requires StandingInv(s) && CanDo(s, deed) && s.bootstrapped && !s.expired
    ensures Done(s, deed, now).expired <==> deed == Timer(s.generation)
  {
  }

  /** Closing ends the service of a connection, and so does a drain announcement once it is queued; one that is refused ends nothing. */
  lemma WhatEndsService(s: Standing, now: Time, later: Time)
    ensures !IsAvailable(Done(s, Close, now), later)
    ensures s.announcing ==> !IsAvailable(Done(s, FinishDrain(true), now), later)
    ensures s.announcing ==> (IsAvailable(Done(s, FinishDrain(false), now), later) <==> IsAvailable(s, later))
    ensures !s.drained ==> (IsAvailable(Done(s, BeginDrain, now), later) <==> IsAvailable(s, later))
  {
  }
}
