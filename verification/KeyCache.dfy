/**
 The public-key cache: single flight, rate limited, fail closed. A call enters the lock to decide
 what to do, may wait for or perform a fetch outside of it, and comes back with the result.
 */
module KeyCache {
  import opened Basics

  /** Clock readings in nanoseconds. */
  type Time = int

  const SECOND: int := 1_000_000_000

  /** How long after the start of a fetch the next one waits unless it succeeds. */
  const RETRY_DELAY: int := SECOND

  /** How long after a forced fetch the next one waits while the keys are fresh. */
  const UNKNOWN_KEY_DELAY: int := 10 * SECOND

  /** A moment that may never have been set. */
  predicate Before(now: Time, moment: Option<Time>) {
    moment.Some? && now < moment.value
  }

  /** `round` counts the fetches begun, so that a waiting call knows which one it waits for. */
  datatype Cache = Cache(
    keys: seq<int>,
    etag: Option<int>,
    expiresAt: Option<Time>,
    refreshing: bool,
    round: nat,
    nextFetch: Option<Time>,
    nextUnknownRefresh: Option<Time>,
    failed: bool)

  /** What the endpoint answers: a failure, a 304, or a non-empty key set, each success with a lifetime. */
  datatype Fetched = Failure | NotModified(ttl: int) | Fresh(keys: seq<int>, etag: int, ttl: int)

  predicate FetchedOK(f: Fetched) {
    match f
    case Failure => true
    case NotModified(ttl) => ttl >= SECOND
    case Fresh(keys, _, ttl) => keys != [] && ttl >= SECOND
  }

  datatype Decision = Serve(keys: seq<int>) | Refuse | Wait(round: nat) | Fetch

  function NewCache(): Cache {
    Cache([], None, None, false, 0, None, None, false)
  }

  predicate IsFresh(c: Cache, now: Time) {
    c.keys != [] && Before(now, c.expiresAt)
  }

  /** A forced refresh for an unknown key ID looks once before it loads. */
  predicate ServedAtOnce(c: Cache, now: Time) {
    IsFresh(c, now) && !c.refreshing && Before(now, c.nextUnknownRefresh)
  }

  /** The first critical section of a load. */
  function Decide(c: Cache, force: bool, now: Time): Decision {
    if !force && IsFresh(c, now) then Serve(c.keys)
    else if force && c.refreshing then Wait(c.round)
    else if force && IsFresh(c, now) && Before(now, c.nextUnknownRefresh) then Serve(c.keys)
    else if c.refreshing then Wait(c.round)
    else if Before(now, c.nextFetch) then (if IsFresh(c, now) && force then Serve(c.keys) else Refuse)
    else Fetch
  }

  function Begun(c: Cache, force: bool, now: Time): Cache {
    c.(refreshing := true, round := c.round + 1, nextFetch := Some(now + RETRY_DELAY),
       nextUnknownRefresh := if force then Some(now + UNKNOWN_KEY_DELAY) else c.nextUnknownRefresh)
  }

  predicate Succeeds(c: Cache, f: Fetched) {
    match f
    case Failure => false
    case NotModified(_) => c.keys != []
    case Fresh(_, _, _) => true
  }

  /** The second critical section; a success brings new keys or renews the old ones, a failure changes no key. */
  function Completed(c: Cache, f: Fetched, now: Time): Cache {
    if !Succeeds(c, f) then c.(refreshing := false, failed := true)
    else
      var kept := if f.Fresh? then c.(keys := f.keys, etag := Some(f.etag)) else c;
      kept.(expiresAt := Some(now + f.ttl), failed := false, nextFetch := None, refreshing := false)
  }

  /** The answer of a call that fetched; `then` is the second reading of the clock. */
  function Answer(c: Cache, c': Cache, force: bool, f: Fetched, later: Time): Decision {
    if Succeeds(c, f) || (force && IsFresh(c', later)) then Serve(c'.keys) else Refuse
  }

  // ---------- calls running side by side ----------

  datatype Call = Looking(force: bool) | Waiting(round: nat) | Fetching(force: bool) | Over

  /** The start of a fetch; `early` if the keys were still fresh, which takes a forced refresh. */
  datatype Start = Start(time: Time, early: bool, forced: bool)

  /** A fetch that has come back, and the reading with which its result was stored. */
  datatype Done = Done(fetched: Fetched, time: Time)

  /** Keys handed out without error, with a reading during the call, the expiry they had then, and how many fetches had come back. */
  datatype Handout = Handout(keys: seq<int>, reading: Time, expiry: Option<Time>, seen: nat)

  /** The cache, the calls, and the history of the fetches and of what was handed out. */
  datatype System = System(cache: Cache, calls: seq<Call>, last: Time, starts: seq<Start>, done: seq<Done>, handouts: seq<Handout>)

  datatype Act =
    | NewCall(force: bool)
    | Peek(call: nat)
    | Look(call: nat)
    | Wake(call: nat)
    | GiveUp(call: nat)
    | Finish(call: nat, fetched: Fetched, later: Time)

  predicate CanAct(s: System, act: Act, now: Time) {
    match act
    case NewCall(_) => true
    case Peek(i) => i < |s.calls| && s.calls[i] == Looking(true)
    case Look(i) => i < |s.calls| && s.calls[i].Looking?
    case Wake(i) => i < |s.calls| && s.calls[i].Waiting? && !(s.cache.refreshing && s.cache.round == s.calls[i].round)
    case GiveUp(i) => i < |s.calls| && s.calls[i].Waiting?
    case Finish(i, f, later) => i < |s.calls| && s.calls[i].Fetching? && FetchedOK(f) && later >= now
  }

  function HandOut(s: System, keys: seq<int>, reading: Time, expiry: Option<Time>): System {
    s.(handouts := s.handouts + [Handout(keys, reading, expiry, |s.done|)])
  }

  function Looked(s: System, i: nat, now: Time): System
    requires i < |s.calls| && s.calls[i].Looking?
  {
    var force := s.calls[i].force;
    match Decide(s.cache, force, now)
    case Serve(keys) => HandOut(s.(calls := s.calls[i := Over], last := now), keys, now, s.cache.expiresAt)
    case Refuse => s.(calls := s.calls[i := Over], last := now)
    case Wait(round) => s.(calls := s.calls[i := Waiting(round)], last := now)
    case Fetch => s.(cache := Begun(s.cache, force, now), calls := s.calls[i := Fetching(force)], last := now,
                     starts := s.starts + [Start(now, IsFresh(s.cache, now), force)])
  }

  function Finished(s: System, i: nat, f: Fetched, now: Time, later: Time): System
    requires i < |s.calls| && s.calls[i].Fetching?
  {
    var c' := Completed(s.cache, f, now);
    var s' := s.(cache := c', calls := s.calls[i := Over], last := later, done := s.done + [Done(f, now)]);
    match Answer(s.cache, c', s.calls[i].force, f, later)
    case Serve(keys) => HandOut(s', keys, if Succeeds(s.cache, f) then now else later, c'.expiresAt)
    case _ => s'
  }

  function Acted(s: System, act: Act, now: Time): System
    requires CanAct(s, act, now)
  {
    match act
    case NewCall(force) => s.(calls := s.calls + [Looking(force)], last := now)
    case Peek(i) =>
      if ServedAtOnce(s.cache, now)
      then HandOut(s.(calls := s.calls[i := Over], last := now), s.cache.keys, now, s.cache.expiresAt)
      else s.(last := now)
    case Look(i) => Looked(s, i, now)
    case Wake(i) => s.(calls := s.calls[i := Looking(false)], last := now)
    case GiveUp(i) => s.(calls := s.calls[i := Over], last := now)
    case Finish(i, f, later) => Finished(s, i, f, now, later)
  }

  ghost predicate CacheSteps(s: System, s': System) {
    exists act, now :: now >= s.last && CanAct(s, act, now) && s' == Acted(s, act, now)
  }

  ghost predicate CacheStepsTo(ss: seq<System>, i: int)
    requires 0 < i < |ss|
  {
    CacheSteps(ss[i - 1], ss[i])
  }

  /** A run under a clock that does not run backwards in the order in which the lock is taken. */
  ghost predicate CacheRun(ss: seq<System>) {
    && ss != [] && (exists t :: ss[0] == System(NewCache(), [], t, [], [], []))
    && forall i :: 0 < i < |ss| ==> CacheStepsTo(ss, i)
  }

  // ---------- invariants ----------

  function InFlight(calls: seq<Call>): nat {
    if calls == [] then 0 else InFlight(calls[..|calls| - 1]) + if calls[|calls| - 1].Fetching? then 1 else 0
  }

  lemma {:induction false} InFlightUpdate(calls: seq<Call>, i: nat, call: Call)
    requires i < |calls|
    ensures InFlight(calls[i := call]) == InFlight(calls) - (if calls[i].Fetching? then 1 else 0) + if call.Fetching? then 1 else 0
  {
    var last := |calls| - 1;
    if i == last {
      assert calls[i := call][..last] == calls[..last];
    } else {
      InFlightUpdate(calls[..last], i, call);
      assert calls[i := call][..last] == calls[..last][i := call];
    }
  }

  lemma {:induction false} SomeoneFetches(calls: seq<Call>, i: nat)
    requires i < |calls| && calls[i].Fetching?
    ensures InFlight(calls) >= 1
  {
    if i < |calls| - 1 {
      SomeoneFetches(calls[..|calls| - 1], i);
    }
  }

  /** What the last start left behind: a retry delay, or keys that outlive its first second. */
  ghost predicate Paced(c: Cache, starts: seq<Start>) {
    starts != [] ==>
      var s := starts[|starts| - 1].time;
      || c.nextFetch == Some(s + RETRY_DELAY)
      || (!c.refreshing && c.nextFetch == None && c.keys != [] && c.expiresAt.Some? && c.expiresAt.value >= s + SECOND)
  }

  /** Only an early start may follow another by less than a second, and early starts are ten seconds apart. */
  predicate Spaced(a: Start, b: Start) {
    && (!b.early ==> b.time >= a.time + SECOND)
    && (a.early && b.early ==> b.time >= a.time + UNKNOWN_KEY_DELAY)
  }

  ghost predicate AllSpaced(starts: seq<Start>) {
    forall i, j :: 0 <= i < j < |starts| ==> Spaced(starts[i], starts[j])
  }

  ghost predicate StartsKnown(s: System) {
    forall i :: 0 <= i < |s.starts| ==>
      && s.starts[i].time <= s.last
      && (s.starts[i].early ==> s.cache.nextUnknownRefresh.Some? && s.starts[i].time + UNKNOWN_KEY_DELAY <= s.cache.nextUnknownRefresh.value)
      && s.starts[i].time <= s.starts[|s.starts| - 1].time
  }

  ghost predicate HandoutsOK(handouts: seq<Handout>) {
    forall i :: 0 <= i < |handouts| ==> handouts[i].keys != [] && Before(handouts[i].reading, handouts[i].expiry)
  }

  ghost predicate SystemInv(s: System) {
    && InFlight(s.calls) == (if s.cache.refreshing then 1 else 0)
    && (s.cache.refreshing ==> s.starts != [] && s.cache.nextFetch == Some(s.starts[|s.starts| - 1].time + RETRY_DELAY))
    && (s.starts == [] ==> s.cache.nextFetch == None && s.cache.keys == [])
    && (s.cache.nextUnknownRefresh.Some? ==> s.cache.nextUnknownRefresh.value <= s.last + UNKNOWN_KEY_DELAY)
    && Paced(s.cache, s.starts)
    && AllSpaced(s.starts)
    && StartsKnown(s)
    && HandoutsOK(s.handouts)
  }

  /** A fetch that may begin is far enough from every earlier one. */
  lemma FetchIsSpaced(s: System, force: bool, now: Time)
    requires SystemInv(s) && now >= s.last && Decide(s.cache, force, now) == Fetch
    ensures AllSpaced(s.starts + [Start(now, IsFresh(s.cache, now), force)])
    ensures IsFresh(s.cache, now) ==> force
  {
    var next := Start(now, IsFresh(s.cache, now), force);
    forall i | 0 <= i < |s.starts| ensures Spaced(s.starts[i], next) {
      assert s.starts[i].time <= s.starts[|s.starts| - 1].time;
    }
    var starts := s.starts + [next];
    forall i, j | 0 <= i < j < |starts| ensures Spaced(starts[i], starts[j]) {
      if j < |s.starts| {
        assert Spaced(s.starts[i], s.starts[j]);
      }
    }
  }

  lemma LookKeeps(s: System, i: nat, now: Time)
    requires SystemInv(s) && now >= s.last && i < |s.calls| && s.calls[i].Looking?
    ensures SystemInv(Looked(s, i, now))
  {
    var force := s.calls[i].force;
    InFlightUpdate(s.calls, i, Over);
    InFlightUpdate(s.calls, i, Waiting(s.cache.round));
    InFlightUpdate(s.calls, i, Fetching(force));
    if Decide(s.cache, force, now) == Fetch {
      FetchIsSpaced(s, force, now);
    }
  }

  lemma FinishKeeps(s: System, i: nat, f: Fetched, now: Time, later: Time)
    requires SystemInv(s) && now >= s.last && CanAct(s, Finish(i, f, later), now)
    ensures SystemInv(Finished(s, i, f, now, later))
  {
    InFlightUpdate(s.calls, i, Over);
    SomeoneFetches(s.calls, i);
  }

  lemma ActKeeps(s: System, act: Act, now: Time)
    requires SystemInv(s) && now >= s.last && CanAct(s, act, now)
    ensures SystemInv(Acted(s, act, now))
  {
    match act
    case NewCall(force) => assert (s.calls + [Looking(force)])[..|s.calls|] == s.calls;
    case Peek(i) => InFlightUpdate(s.calls, i, Over);
    case Look(i) => LookKeeps(s, i, now);
    case Wake(i) => InFlightUpdate(s.calls, i, Looking(false));
    case GiveUp(i) => InFlightUpdate(s.calls, i, Over);
    case Finish(i, f, later) => FinishKeeps(s, i, f, now, later);
  }

  lemma {:induction false} RunKeepsSystem(ss: seq<System>, i: int)
    requires CacheRun(ss) && 0 <= i < |ss|
    ensures SystemInv(ss[i])
    decreases i
  {
    if i > 0 {
      RunKeepsSystem(ss, i - 1);
      assert CacheStepsTo(ss, i);
      var act, now :| now >= ss[i - 1].last && CanAct(ss[i - 1], act, now) && ss[i] == Acted(ss[i - 1], act, now);
      ActKeeps(ss[i - 1], act, now);
    }
  }

  // ---------- what a run guarantees ----------

  /** At most one fetch is in flight, and exactly one while the cache says it is refreshing. */
  lemma SingleFlight(ss: seq<System>, i: int)
    requires CacheRun(ss) && 0 <= i < |ss|
    ensures InFlight(ss[i].calls) == if ss[i].cache.refreshing then 1 else 0
  {
    RunKeepsSystem(ss, i);
  }

  /** Keys handed out without error were unexpired at a reading of the clock during the call. */
  lemma FailsClosed(ss: seq<System>, i: int, k: int)
    requires CacheRun(ss) && 0 <= i < |ss| && 0 <= k < |ss[i].handouts|
    ensures ss[i].handouts[k].keys != [] && Before(ss[i].handouts[k].reading, ss[i].handouts[k].expiry)
  {
    RunKeepsSystem(ss, i);
  }

  function StartsBetween(starts: seq<Start>, early: bool, from: Time, to: Time): nat {
    if starts == [] then 0
    else
      var last := starts[|starts| - 1];
      StartsBetween(starts[..|starts| - 1], early, from, to) + if last.early == early && from <= last.time <= to then 1 else 0
  }

  function AllStartsBetween(starts: seq<Start>, from: Time, to: Time): nat {
    if starts == [] then 0
    else
      var last := starts[|starts| - 1];
      AllStartsBetween(starts[..|starts| - 1], from, to) + if from <= last.time <= to then 1 else 0
  }

  lemma {:induction false} BothKinds(starts: seq<Start>, from: Time, to: Time)
    ensures AllStartsBetween(starts, from, to) == StartsBetween(starts, true, from, to) + StartsBetween(starts, false, from, to)
  {
    if starts != [] {
      BothKinds(starts[..|starts| - 1], from, to);
    }
  }

  ghost predicate Apart(starts: seq<Start>, early: bool, gap: int) {
    forall i, j :: 0 <= i < j < |starts| && starts[i].early == early && starts[j].early == early ==> starts[j].time >= starts[i].time + gap
  }

  /** Starts before a moment that are a gap away from it are all counted up to the gap before it. */
  lemma {:induction false} CountedEarlier(starts: seq<Start>, early: bool, from: Time, to: Time, bound: Time)
    requires forall i :: 0 <= i < |starts| && starts[i].early == early ==> starts[i].time <= bound
    ensures StartsBetween(starts, early, from, to) <= StartsBetween(starts, early, from, bound)
  {
    if starts != [] {
      var last := |starts| - 1;
      forall i | 0 <= i < last && starts[..last][i].early == early ensures starts[..last][i].time <= bound {
        assert starts[..last][i] == starts[i];
      }
      CountedEarlier(starts[..last], early, from, to, bound);
      assert starts[last].early == early ==> starts[last].time <= bound;
    }
  }

  /** `n` gaps laid end to end. */
  function Gaps(n: nat, gap: int): int {
    if n == 0 then 0 else Gaps(n - 1, gap) + gap
  }

  /** Starts of one kind that are a gap apart: between the first and the last in an interval lie all the gaps but one. */
  lemma {:induction false} GapsBound(starts: seq<Start>, early: bool, gap: int, from: Time, to: Time)
    requires Apart(starts, early, gap) && gap > 0
    ensures StartsBetween(starts, early, from, to) > 0 ==> Gaps(StartsBetween(starts, early, from, to) - 1, gap) <= to - from
    decreases |starts|
  {
    if starts != [] {
      var last := starts[|starts| - 1];
      var before := starts[..|starts| - 1];
      assert Apart(before, early, gap);
      if last.early == early && from <= last.time <= to {
        forall i | 0 <= i < |before| && before[i].early == early ensures before[i].time <= last.time - gap {
          assert before[i] == starts[i];
        }
        CountedEarlier(before, early, from, to, last.time - gap);
        GapsBound(before, early, gap, from, last.time - gap);
        MoreGaps(StartsBetween(before, early, from, to), StartsBetween(before, early, from, last.time - gap), gap);
      } else {
        GapsBound(before, early, gap, from, to);
      }
    }
  }

  lemma {:induction false} MoreGaps(n: nat, m: nat, gap: int)
    requires n <= m && gap > 0
    ensures Gaps(n, gap) <= Gaps(m, gap)
    ensures 0 < n ==> Gaps(n - 1, gap) <= Gaps(m - 1, gap)
  {
    if n < m {
      MoreGaps(n, m - 1, gap);
    }
  }

  lemma {:induction false} GapsOfSeconds(n: nat)
    ensures Gaps(n, SECOND) == n * SECOND && Gaps(n, UNKNOWN_KEY_DELAY) == n * UNKNOWN_KEY_DELAY
  {
    if n > 0 {
      GapsOfSeconds(n - 1);
    }
  }

  /** In any interval fewer fetches start than its seconds and its tens of seconds allow. */
  lemma FetchesAreBounded(ss: seq<System>, i: int, from: Time, to: Time)
    requires CacheRun(ss) && 0 <= i < |ss| && from <= to
    ensures AllStartsBetween(ss[i].starts, from, to) <= ((to - from) / SECOND + 1) + ((to - from) / UNKNOWN_KEY_DELAY + 1)
  {
    RunKeepsSystem(ss, i);
    var starts := ss[i].starts;
    forall a, b | 0 <= a < b < |starts| ensures Spaced(starts[a], starts[b]) {
    }
    BothKinds(starts, from, to);
    GapsBound(starts, false, SECOND, from, to);
    GapsBound(starts, true, UNKNOWN_KEY_DELAY, from, to);
    var ordinary, early := StartsBetween(starts, false, from, to), StartsBetween(starts, true, from, to);
    GapsOfSeconds(if ordinary > 0 then ordinary - 1 else 0);
    GapsOfSeconds(if early > 0 then early - 1 else 0);
  }

  // ---------- which keys, until when ----------

  /** The keys of the latest key set that came back. */
  function LatestKeys(done: seq<Done>): seq<int> {
    if done == [] then []
    else if done[|done| - 1].fetched.Fresh? then done[|done| - 1].fetched.keys
    else LatestKeys(done[..|done| - 1])
  }

  /** Its entity tag, with which the next fetch asks whether the keys have changed. */
  function LatestTag(done: seq<Done>): Option<int> {
    if done == [] then None
    else if done[|done| - 1].fetched.Fresh? then Some(done[|done| - 1].fetched.etag)
    else LatestTag(done[..|done| - 1])
  }

  /** A fetch succeeds with a key set, or by confirming one that came back earlier. */
  predicate Succeeded(done: seq<Done>)
    requires done != []
  {
    match done[|done| - 1].fetched
    case Failure => false
    case NotModified(_) => LatestKeys(done[..|done| - 1]) != []
    case Fresh(_, _, _) => true
  }

  /** The latest success, of either kind, decides how long the keys last. */
  function LatestExpiry(done: seq<Done>): Option<Time> {
    if done == [] then None
    else if Succeeded(done) then Some(done[|done| - 1].time + done[|done| - 1].fetched.ttl)
    else LatestExpiry(done[..|done| - 1])
  }

  predicate FreshAt(done: seq<Done>, now: Time) {
    LatestKeys(done) != [] && Before(now, LatestExpiry(done))
  }

  function LastForced(starts: seq<Start>): Option<Time> {
    if starts == [] then None
    else if starts[|starts| - 1].forced then Some(starts[|starts| - 1].time)
    else LastForced(starts[..|starts| - 1])
  }

  ghost predicate HandedOutThen(done: seq<Done>, out: Handout) {
    out.seen <= |done| && out.keys == LatestKeys(done[..out.seen]) && out.expiry == LatestExpiry(done[..out.seen])
  }

  /** The cache is what the history makes it. */
  ghost predicate Historic(s: System) {
    && s.cache.keys == LatestKeys(s.done) && s.cache.etag == LatestTag(s.done) && s.cache.expiresAt == LatestExpiry(s.done)
    && (s.cache.failed <==> s.done != [] && !Succeeded(s.done))
    && |s.starts| == |s.done| + (if s.cache.refreshing then 1 else 0)
    && s.cache.round == |s.starts|
    && s.cache.nextUnknownRefresh == (match LastForced(s.starts) case Some(t) => Some(t + UNKNOWN_KEY_DELAY) case None => None)
    && (!s.cache.refreshing ==>
         s.cache.nextFetch == if s.done == [] || Succeeded(s.done) then None else Some(s.starts[|s.starts| - 1].time + RETRY_DELAY))
    && forall k :: 0 <= k < |s.handouts| ==> HandedOutThen(s.done, s.handouts[k])
  }

  lemma StartOneMore(starts: seq<Start>, next: Start)
    ensures LastForced(starts + [next]) == if next.forced then Some(next.time) else LastForced(starts)
  {
    assert (starts + [next])[..|starts|] == starts;
  }

  lemma DoneOneMore(done: seq<Done>, d: Done)
    ensures var done' := done + [d];
            && LatestKeys(done') == (if d.fetched.Fresh? then d.fetched.keys else LatestKeys(done))
            && LatestTag(done') == (if d.fetched.Fresh? then Some(d.fetched.etag) else LatestTag(done))
            && (Succeeded(done') <==> d.fetched.Fresh? || (d.fetched.NotModified? && LatestKeys(done) != []))
            && LatestExpiry(done') == (if Succeeded(done') then Some(d.time + d.fetched.ttl) else LatestExpiry(done))
  {
    assert (done + [d])[..|done|] == done;
  }

  lemma HandoutsStay(s: System, s': System, out: seq<Handout>)
    requires forall k :: 0 <= k < |s.handouts| ==> HandedOutThen(s.done, s.handouts[k])
    requires s.done <= s'.done && s'.handouts == s.handouts + out
    requires forall k :: 0 <= k < |out| ==> HandedOutThen(s'.done, out[k])
    ensures forall k :: 0 <= k < |s'.handouts| ==> HandedOutThen(s'.done, s'.handouts[k])
  {
    forall k | 0 <= k < |s.handouts| ensures HandedOutThen(s'.done, s'.handouts[k]) {
      assert HandedOutThen(s.done, s.handouts[k]);
      assert s'.done[..s.handouts[k].seen] == s.done[..s.handouts[k].seen];
    }
  }

  lemma LookIsHistoric(s: System, i: nat, now: Time)
    requires Historic(s) && i < |s.calls| && s.calls[i].Looking?
    ensures Historic(Looked(s, i, now))
  {
    var force := s.calls[i].force;
    StartOneMore(s.starts, Start(now, IsFresh(s.cache, now), force));
    assert s.done[..|s.done|] == s.done;
    match Decide(s.cache, force, now)
    case Serve(keys) => HandoutsStay(s, Looked(s, i, now), [Handout(keys, now, s.cache.expiresAt, |s.done|)]);
    case _ =>
  }

  lemma FinishIsHistoric(s: System, i: nat, f: Fetched, now: Time, later: Time)
    requires Historic(s) && i < |s.calls| && s.calls[i].Fetching? && s.cache.refreshing
    requires s.cache.nextFetch == Some(s.starts[|s.starts| - 1].time + RETRY_DELAY)
    ensures Historic(Finished(s, i, f, now, later))
  {
    DoneOneMore(s.done, Done(f, now));
    var s' := Finished(s, i, f, now, later);
    var c' := Completed(s.cache, f, now);
    assert s'.done[..|s'.done|] == s'.done;
    match Answer(s.cache, c', s.calls[i].force, f, later)
    case Serve(keys) => HandoutsStay(s, s', [Handout(keys, if Succeeds(s.cache, f) then now else later, c'.expiresAt, |s'.done|)]);
    case _ => HandoutsStay(s, s', []);
  }

  lemma ActIsHistoric(s: System, act: Act, now: Time)
    requires SystemInv(s) && Historic(s) && CanAct(s, act, now)
    ensures Historic(Acted(s, act, now))
  {
    match act
    case Peek(i) =>
      assert s.done[..|s.done|] == s.done;
      if ServedAtOnce(s.cache, now) {
        HandoutsStay(s, Acted(s, act, now), [Handout(s.cache.keys, now, s.cache.expiresAt, |s.done|)]);
      }
    case Look(i) => LookIsHistoric(s, i, now);
    case Finish(i, f, later) =>
      SomeoneFetches(s.calls, i);
      FinishIsHistoric(s, i, f, now, later);
    case _ =>
  }

  lemma {:induction false} RunIsHistoric(ss: seq<System>, i: int)
    requires CacheRun(ss) && 0 <= i < |ss|
    ensures Historic(ss[i])
    decreases i
  {
    if i > 0 {
      RunIsHistoric(ss, i - 1);
      RunKeepsSystem(ss, i - 1);
      assert CacheStepsTo(ss, i);
      var act, now :| now >= ss[i - 1].last && CanAct(ss[i - 1], act, now) && ss[i] == Acted(ss[i - 1], act, now);
      ActIsHistoric(ss[i - 1], act, now);
    }
  }

  /**
   Over every run, the keys and the tag are those of the latest key set that came back, and they last for the
   lifetime of the latest success: a 304 renews the lifetime alone, a failure nothing.
   */
  lemma LatestKeysAreKept(ss: seq<System>, i: int)
    requires CacheRun(ss) && 0 <= i < |ss|
    ensures ss[i].cache.keys == LatestKeys(ss[i].done) && ss[i].cache.etag == LatestTag(ss[i].done)
    ensures ss[i].cache.expiresAt == LatestExpiry(ss[i].done)
  {
    RunIsHistoric(ss, i);
  }

  /** Whoever is handed keys is handed those of the latest key set that had come back then, unexpired. */
  lemma LatestKeysAreServed(ss: seq<System>, i: int, k: int)
    requires CacheRun(ss) && 0 <= i < |ss| && 0 <= k < |ss[i].handouts|
    ensures var out := ss[i].handouts[k];
            && out.seen <= |ss[i].done|
            && out.keys == LatestKeys(ss[i].done[..out.seen]) != []
            && out.expiry == LatestExpiry(ss[i].done[..out.seen])
            && Before(out.reading, out.expiry)
  {
    RunIsHistoric(ss, i);
    FailsClosed(ss, i, k);
    assert HandedOutThen(ss[i].done, ss[i].handouts[k]);
  }

  /** The last fetch did not succeed, and began less than a second ago. */
  predicate Cooling(s: System, now: Time) {
    s.done != [] && s.starts != [] && !Succeeded(s.done) && now < s.starts[|s.starts| - 1].time + SECOND
  }

  /** A forced fetch began less than ten seconds ago. */
  predicate ForcedLately(s: System, now: Time) {
    LastForced(s.starts).Some? && now < LastForced(s.starts).value + 10 * SECOND
  }

  /**
   Over every run, what a call decides. It is served while the keys are fresh, unless it is forced and a fetch is
   under way or allowed; it waits for a fetch under way; it is refused right after a failure; and otherwise it fetches.
   */
  lemma DecisionIs(ss: seq<System>, i: int, force: bool, now: Time)
    requires CacheRun(ss) && 0 <= i < |ss|
    ensures var s := ss[i];
            var busy := InFlight(s.calls) > 0;
            Decide(s.cache, force, now)
            == if FreshAt(s.done, now) && (!force || (!busy && (ForcedLately(s, now) || Cooling(s, now)))) then Serve(LatestKeys(s.done))
               else if busy then Wait(|s.starts|)
               else if Cooling(s, now) then Refuse
               else Fetch
    ensures ServedAtOnce(ss[i].cache, now) <==> FreshAt(ss[i].done, now) && InFlight(ss[i].calls) == 0 && ForcedLately(ss[i], now)
  {
    RunIsHistoric(ss, i);
    SingleFlight(ss, i);
  }
}
