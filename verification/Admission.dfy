/** Connection admission: leases per source address, and attempts per source in windows of one minute. */
module Admission {
  import opened Basics

  type Address = int
  /** Clock readings in nanoseconds. */
  type Time = int

  const WINDOW: int := 60_000_000_000

  datatype Source = Source(start: Time, attempts: int, active: int)

  datatype Gate = Gate(sources: map<Address, Source>, active: int)

  datatype Caps = Caps(tracked: int, perMinute: int, perSource: int, total: int)

  datatype Verdict = Admitted | TooFast | Full

  // ---------- the controller ----------

  predicate Stale(s: Source, now: Time) {
    s.active == 0 && now >= s.start + WINDOW
  }

  ghost function Pruned(sources: map<Address, Source>, now: Time): map<Address, Source> {
    map a | a in sources && !Stale(sources[a], now) :: sources[a]
  }

  /** The record of a known source; a new source gets one if there is room, after pruning if need be. */
  ghost function Tracked(g: Gate, a: Address, now: Time, caps: Caps): Option<Gate> {
    if a in g.sources then Some(g)
    else
      var pruned := if |g.sources| >= caps.tracked then Pruned(g.sources, now) else g.sources;
      if |pruned| >= caps.tracked then None else Some(g.(sources := pruned[a := Source(now, 0, 0)]))
  }

  function Windowed(s: Source, now: Time): Source {
    if now < s.start || now >= s.start + WINDOW then s.(start := now, attempts := 0) else s
  }

  ghost function Acquire(g: Gate, a: Address, now: Time, caps: Caps): (Gate, Verdict) {
    match Tracked(g, a, now, caps)
    case None => (if a !in g.sources && |g.sources| >= caps.tracked then g.(sources := Pruned(g.sources, now)) else g, Full)
    case Some(t) =>
      var s := Windowed(t.sources[a], now);
      if s.attempts >= caps.perMinute then (t.(sources := t.sources[a := s]), TooFast)
      else
        var tried := s.(attempts := s.attempts + 1);
        if tried.active >= caps.perSource || t.active >= caps.total then (t.(sources := t.sources[a := tried]), Full)
        else (Gate(t.sources[a := tried.(active := tried.active + 1)], t.active + 1), Admitted)
  }

  function Release(g: Gate, a: Address, now: Time): Gate {
    if a !in g.sources || g.sources[a].active <= 0 || g.active <= 0 then g
    else
      var s := g.sources[a].(active := g.sources[a].active - 1);
      Gate(if Stale(s, now) then g.sources - {a} else g.sources[a := s], g.active - 1)
  }

  // ---------- runs ----------

  /** An attempt that passed the rate check, and the window it was counted in. */
  datatype Pass = Pass(source: Address, time: Time, window: nat)

  /** The controller, the leases that are out, and the history of windows and passes. */
  datatype Door = Door(
    gate: Gate,
    leases: map<nat, Address>,
    issued: nat,
    last: Time,
    windows: map<Address, seq<Time>>,
    passes: seq<Pass>)

  datatype Knock =
    | Arrival(a: Address)
    | Departure(lease: nat)

  function WindowsOf(d: Door, a: Address): seq<Time> {
    if a in d.windows then d.windows[a] else []
  }

  /** A window begins when the record of the source is new or starts over. */
  predicate Begins(g: Gate, a: Address, now: Time) {
    a !in g.sources || now < g.sources[a].start || now >= g.sources[a].start + WINDOW
  }

  ghost function Enter(d: Door, a: Address, now: Time, caps: Caps): Door {
    var (g, verdict) := Acquire(d.gate, a, now, caps);
    var known := WindowsOf(d, a);
    var windows := if a in g.sources && Begins(d.gate, a, now) then known + [now] else known;
    var passed := verdict == Admitted || (verdict == Full && a in g.sources);
    Door(g,
         if verdict == Admitted then d.leases[d.issued := a] else d.leases,
         if verdict == Admitted then d.issued + 1 else d.issued,
         now,
         d.windows[a := windows],
         if passed && windows != [] then d.passes + [Pass(a, now, |windows| - 1)] else d.passes)
  }

  ghost function Leave(d: Door, lease: nat, now: Time): Door {
    if lease !in d.leases then d.(last := now)
    else d.(gate := Release(d.gate, d.leases[lease], now), leases := d.leases - {lease}, last := now)
  }

  ghost function Knocked(d: Door, k: Knock, now: Time, caps: Caps): Door {
    match k
    case Arrival(a) => Enter(d, a, now, caps)
    case Departure(lease) => Leave(d, lease, now)
  }

  /**
   What is known of the readings in the order in which the lock is taken. The clock is read before the
   lock is taken, so `AnyClock` is what the code gives; under `Timely` no window of a source begins less than
   a minute after its last one; under `Steady` readings do not decrease.
   */
  datatype Pace = AnyClock | Timely | Steady

  predicate StartsInTime(d: Door, k: Knock, now: Time) {
    k.Arrival? && Begins(d.gate, k.a, now) && WindowsOf(d, k.a) != [] ==>
      now >= WindowsOf(d, k.a)[|WindowsOf(d, k.a)| - 1] + WINDOW
  }

  predicate Allowed(pace: Pace, d: Door, k: Knock, now: Time) {
    match pace
    case AnyClock => true
    case Timely => StartsInTime(d, k, now)
    case Steady => now >= d.last
  }

  ghost predicate DoorSteps(d: Door, d': Door, caps: Caps, pace: Pace) {
    exists k, now :: Allowed(pace, d, k, now) && d' == Knocked(d, k, now, caps)
  }

  ghost predicate DoorStepsTo(ds: seq<Door>, caps: Caps, pace: Pace, i: int)
    requires 0 < i < |ds|
  {
    DoorSteps(ds[i - 1], ds[i], caps, pace)
  }

  function NewDoor(now: Time): Door {
    Door(Gate(map[], 0), map[], 0, now, map[], [])
  }

  ghost predicate DoorRun(ds: seq<Door>, caps: Caps, pace: Pace) {
    && ds != [] && (exists t :: ds[0] == NewDoor(t))
    && caps.tracked >= 0 && caps.perMinute >= 0 && caps.perSource >= 0 && caps.total >= 0
    && forall i :: 0 < i < |ds| ==> DoorStepsTo(ds, caps, pace, i)
  }

  // ---------- leases ----------

  function LeasesOf(leases: map<nat, Address>, a: Address): set<nat> {
    set id | id in leases && leases[id] == a
  }

  function ActiveOf(g: Gate, a: Address): int {
    if a in g.sources then g.sources[a].active else 0
  }

  /** Counters are exactly the leases that are out ... */
  ghost predicate Counted(g: Gate, leases: map<nat, Address>) {
    g.active == |leases| && forall a :: ActiveOf(g, a) == |LeasesOf(leases, a)|
  }

  predicate SourceOK(s: Source, caps: Caps) {
    0 <= s.active <= caps.perSource && 0 <= s.attempts <= caps.perMinute
  }

  /** ... and every limit holds. */
  ghost predicate Bounded(g: Gate, caps: Caps) {
    && g.active <= caps.total && |g.sources| <= caps.tracked
    && forall a :: a in g.sources ==> SourceOK(g.sources[a], caps)
  }

  ghost predicate LeasesInv(d: Door, caps: Caps) {
    Counted(d.gate, d.leases) && Bounded(d.gate, caps) && forall id :: id in d.leases ==> id < d.issued
  }

  lemma LeaseAdded(leases: map<nat, Address>, id: nat, a: Address)
    requires id !in leases
    ensures |leases[id := a]| == |leases| + 1
    ensures |LeasesOf(leases[id := a], a)| == |LeasesOf(leases, a)| + 1
    ensures forall b :: b != a ==> LeasesOf(leases[id := a], b) == LeasesOf(leases, b)
  {
    var more := leases[id := a];
    assert more.Keys == leases.Keys + {id};
    assert LeasesOf(more, a) == LeasesOf(leases, a) + {id};
    forall b | b != a ensures LeasesOf(more, b) == LeasesOf(leases, b) {
    }
  }

  lemma LeaseRemoved(leases: map<nat, Address>, id: nat)
    requires id in leases
    ensures |leases - {id}| == |leases| - 1
    ensures |LeasesOf(leases - {id}, leases[id])| == |LeasesOf(leases, leases[id])| - 1
    ensures forall b :: b != leases[id] ==> LeasesOf(leases - {id}, b) == LeasesOf(leases, b)
    ensures |LeasesOf(leases, leases[id])| > 0
  {
    assert (leases - {id}).Keys == leases.Keys - {id};
    assert LeasesOf(leases - {id}, leases[id]) == LeasesOf(leases, leases[id]) - {id};
  }

  /** Pruning never drops a source with a lease, nor one whose window is still running. */
  lemma PruningSpares(sources: map<Address, Source>, now: Time)
    ensures Pruned(sources, now).Keys <= sources.Keys && |Pruned(sources, now)| <= |sources|
    ensures forall a :: a in sources && (sources[a].active != 0 || now < sources[a].start + WINDOW) ==>
              a in Pruned(sources, now) && Pruned(sources, now)[a] == sources[a]
  {
    SubsetSize(Pruned(sources, now).Keys, sources.Keys);
  }

  lemma PrunedKeeps(g: Gate, now: Time, leases: map<nat, Address>, caps: Caps)
    requires Counted(g, leases) && Bounded(g, caps)
    ensures var g' := g.(sources := Pruned(g.sources, now)); Counted(g', leases) && Bounded(g', caps)
  {
    PruningSpares(g.sources, now);
    var g' := g.(sources := Pruned(g.sources, now));
    forall a ensures ActiveOf(g', a) == |LeasesOf(leases, a)| {
      assert ActiveOf(g, a) == |LeasesOf(leases, a)|;
    }
  }

  lemma FreshSourceKeeps(g: Gate, a: Address, now: Time, leases: map<nat, Address>, caps: Caps)
    requires Counted(g, leases) && Bounded(g, caps) && a !in g.sources && |g.sources| < caps.tracked
    requires caps.perSource >= 0 && caps.perMinute >= 0
    ensures var g' := g.(sources := g.sources[a := Source(now, 0, 0)]); Counted(g', leases) && Bounded(g', caps)
  {
    var g' := g.(sources := g.sources[a := Source(now, 0, 0)]);
    assert g'.sources.Keys == g.sources.Keys + {a};
    forall b ensures ActiveOf(g', b) == |LeasesOf(leases, b)| {
      assert ActiveOf(g, b) == |LeasesOf(leases, b)|;
    }
  }

  lemma TrackedKeeps(g: Gate, a: Address, now: Time, leases: map<nat, Address>, caps: Caps)
    requires Counted(g, leases) && Bounded(g, caps) && caps.perSource >= 0 && caps.perMinute >= 0
    ensures Tracked(g, a, now, caps).Some? ==>
              Counted(Tracked(g, a, now, caps).value, leases) && Bounded(Tracked(g, a, now, caps).value, caps) && a in Tracked(g, a, now, caps).value.sources
  {
    if a !in g.sources {
      PrunedKeeps(g, now, leases, caps);
      var pruned := if |g.sources| >= caps.tracked then g.(sources := Pruned(g.sources, now)) else g;
      if |pruned.sources| < caps.tracked {
        FreshSourceKeeps(pruned, a, now, leases, caps);
      }
    }
  }

  /** Rewriting the record of a tracked source keeps the counts if it keeps the number of its leases. */
  lemma RecordKeeps(g: Gate, a: Address, s: Source, leases: map<nat, Address>, caps: Caps)
    requires Counted(g, leases) && Bounded(g, caps) && a in g.sources
    requires s.active == g.sources[a].active && SourceOK(s, caps)
    ensures var g' := g.(sources := g.sources[a := s]); Counted(g', leases) && Bounded(g', caps)
  {
    var g' := g.(sources := g.sources[a := s]);
    assert g'.sources.Keys == g.sources.Keys;
    forall b ensures ActiveOf(g', b) == |LeasesOf(leases, b)| {
      assert ActiveOf(g, b) == |LeasesOf(leases, b)|;
    }
  }

  lemma AdmittedKeeps(g: Gate, a: Address, id: nat, leases: map<nat, Address>, caps: Caps)
    requires Counted(g, leases) && Bounded(g, caps) && a in g.sources && id !in leases
    requires g.sources[a].active < caps.perSource && g.active < caps.total
    ensures var g' := Gate(g.sources[a := g.sources[a].(active := g.sources[a].active + 1)], g.active + 1);
            Counted(g', leases[id := a]) && Bounded(g', caps)
  {
    LeaseAdded(leases, id, a);
    var g' := Gate(g.sources[a := g.sources[a].(active := g.sources[a].active + 1)], g.active + 1);
    assert g'.sources.Keys == g.sources.Keys;
    forall b ensures ActiveOf(g', b) == |LeasesOf(leases[id := a], b)| {
      assert ActiveOf(g, b) == |LeasesOf(leases, b)|;
    }
  }

  lemma EnterKeepsLeases(d: Door, a: Address, now: Time, caps: Caps)
    requires LeasesInv(d, caps) && caps.perSource >= 0 && caps.perMinute >= 0
    ensures LeasesInv(Enter(d, a, now, caps), caps)
  {
    TrackedKeeps(d.gate, a, now, d.leases, caps);
    PrunedKeeps(d.gate, now, d.leases, caps);
    if Tracked(d.gate, a, now, caps).Some? {
      var t := Tracked(d.gate, a, now, caps).value;
      var s := Windowed(t.sources[a], now);
      RecordKeeps(t, a, s, d.leases, caps);
      if s.attempts < caps.perMinute {
        var tried := s.(attempts := s.attempts + 1);
        RecordKeeps(t, a, tried, d.leases, caps);
        var g := t.(sources := t.sources[a := tried]);
        if tried.active < caps.perSource && t.active < caps.total {
          AdmittedKeeps(g, a, d.issued, d.leases, caps);
          assert g.sources[a := tried.(active := tried.active + 1)] == t.sources[a := tried.(active := tried.active + 1)];
        }
      }
    }
  }

  lemma LeaveKeepsLeases(d: Door, lease: nat, now: Time, caps: Caps)
    requires LeasesInv(d, caps)
    ensures LeasesInv(Leave(d, lease, now), caps)
  {
    if lease in d.leases {
      var a := d.leases[lease];
      LeaseRemoved(d.leases, lease);
      assert ActiveOf(d.gate, a) == |LeasesOf(d.leases, a)|;
      var g := Release(d.gate, a, now);
      SubsetSize(g.sources.Keys, d.gate.sources.Keys);
      forall b ensures ActiveOf(g, b) == |LeasesOf(d.leases - {lease}, b)| {
        assert ActiveOf(d.gate, b) == |LeasesOf(d.leases, b)|;
      }
    }
  }
}
