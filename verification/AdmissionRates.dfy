/** How many attempts of a source pass the rate check in less than a minute, and which clock readings keep that within bounds. */
module AdmissionRates {
  import opened Basics
  import opened Admission

  // ---------- passes ----------

  predicate IsHit(p: Pass, a: Address, from: Time, to: Time) {
    p.source == a && from <= p.time <= to
  }

  /** Attempts of a source that passed the rate check in one of its windows. */
  function PassesIn(passes: seq<Pass>, a: Address, window: nat): nat {
    if passes == [] then 0
    else
      var last := passes[|passes| - 1];
      PassesIn(passes[..|passes| - 1], a, window) + if last.source == a && last.window == window then 1 else 0
  }

  /** Attempts of a source that passed the rate check at a time in the closed interval. */
  function PassesBetween(passes: seq<Pass>, a: Address, from: Time, to: Time): nat {
    if passes == [] then 0
    else
      PassesBetween(passes[..|passes| - 1], a, from, to) + if IsHit(passes[|passes| - 1], a, from, to) then 1 else 0
  }

  /** Those in the interval that were counted in one window ... */
  function PassesDuring(passes: seq<Pass>, a: Address, window: nat, from: Time, to: Time): nat {
    if passes == [] then 0
    else
      var last := passes[|passes| - 1];
      PassesDuring(passes[..|passes| - 1], a, window, from, to) + if IsHit(last, a, from, to) && last.window == window then 1 else 0
  }

  /** ... or in one of the first windows. */
  function PassesBelow(passes: seq<Pass>, a: Address, windows: nat, from: Time, to: Time): nat {
    if passes == [] then 0
    else
      var last := passes[|passes| - 1];
      PassesBelow(passes[..|passes| - 1], a, windows, from, to) + if IsHit(last, a, from, to) && last.window < windows then 1 else 0
  }

  lemma OneMorePass(passes: seq<Pass>, p: Pass, a: Address, window: nat)
    ensures PassesIn(passes + [p], a, window) == PassesIn(passes, a, window) + if p.source == a && p.window == window then 1 else 0
  {
    assert (passes + [p])[..|passes + [p]| - 1] == passes;
  }

  lemma OneMoreDuring(passes: seq<Pass>, p: Pass, a: Address, window: nat, from: Time, to: Time)
    ensures PassesDuring(passes + [p], a, window, from, to)
            == PassesDuring(passes, a, window, from, to) + if IsHit(p, a, from, to) && p.window == window then 1 else 0
  {
    assert (passes + [p])[..|passes + [p]| - 1] == passes;
  }

  lemma OneMoreBetween(passes: seq<Pass>, p: Pass, a: Address, from: Time, to: Time)
    ensures PassesBetween(passes + [p], a, from, to) == PassesBetween(passes, a, from, to) + if IsHit(p, a, from, to) then 1 else 0
  {
    assert (passes + [p])[..|passes + [p]| - 1] == passes;
  }

  // ---------- what every run keeps, whatever the clock does ----------

  /** The record of a source is that of the last window it began. */
  ghost predicate RecordOK(d: Door, a: Address) {
    var ws := WindowsOf(d, a);
    a in d.gate.sources ==>
      ws != [] && d.gate.sources[a].start == ws[|ws| - 1] && d.gate.sources[a].attempts == PassesIn(d.passes, a, |ws| - 1)
  }

  predicate PassOK(d: Door, p: Pass) {
    var ws := WindowsOf(d, p.source);
    p.window < |ws| && ws[p.window] <= p.time < ws[p.window] + WINDOW
  }

  ghost predicate PassesOK(d: Door) {
    forall i :: 0 <= i < |d.passes| ==> PassOK(d, d.passes[i])
  }

  /** Every window begins with an attempt that passes. */
  ghost predicate Opened(d: Door, a: Address) {
    forall k: nat :: k < |WindowsOf(d, a)| ==> PassesDuring(d.passes, a, k, WindowsOf(d, a)[k], WindowsOf(d, a)[k]) >= 1
  }

  ghost predicate RateInv(d: Door, caps: Caps) {
    && (forall a :: RecordOK(d, a))
    && PassesOK(d)
    && (forall a, k: nat :: PassesIn(d.passes, a, k) <= caps.perMinute)
    && (caps.perMinute >= 1 ==> forall a :: Opened(d, a))
  }

  lemma {:induction false} NoPassYet(d: Door, passes: seq<Pass>, a: Address, k: nat)
    requires forall i :: 0 <= i < |passes| ==> PassOK(d, passes[i])
    requires k >= |WindowsOf(d, a)|
    ensures PassesIn(passes, a, k) == 0
  {
    if passes != [] {
      NoPassYet(d, passes[..|passes| - 1], a, k);
      assert PassOK(d, passes[|passes| - 1]);
    }
  }

  /** The record of an arriving source: its window is the last one begun, its attempts are counted in it. */
  lemma AcquiredRecord(g: Gate, a: Address, now: Time, caps: Caps)
    ensures var (g', verdict) := Acquire(g, a, now, caps);
            && (a in g.sources ==> a in g'.sources)
            && (a in g'.sources ==>
              var passed := verdict == Admitted || verdict == Full;
              var attempts := if Begins(g, a, now) then 0 else g.sources[a].attempts;
              && g'.sources[a].start == (if Begins(g, a, now) then now else g.sources[a].start)
              && g'.sources[a].attempts == attempts + (if passed then 1 else 0)
              && (passed <==> attempts < caps.perMinute))
  {
  }

  predicate PassesRate(d: Door, a: Address, now: Time, caps: Caps) {
    (if Begins(d.gate, a, now) then 0 else d.gate.sources[a].attempts) < caps.perMinute
  }

  /** An arrival as it appears in the history of its source. */
  lemma EnteredHistory(d: Door, a: Address, now: Time, caps: Caps)
    requires RecordOK(d, a)
    ensures var d' := Enter(d, a, now, caps);
            var known := WindowsOf(d, a);
            && d'.last == now && d'.gate == Acquire(d.gate, a, now, caps).0
            && (a !in d'.gate.sources ==> a !in d.gate.sources && WindowsOf(d', a) == known && d'.passes == d.passes)
            && (a in d'.gate.sources ==>
              var ws := if Begins(d.gate, a, now) then known + [now] else known;
              && WindowsOf(d', a) == ws != []
              && d'.passes == if PassesRate(d, a, now, caps) then d.passes + [Pass(a, now, |ws| - 1)] else d.passes)
  {
    AcquiredRecord(d.gate, a, now, caps);
  }

  /** The source gets a new window, and nothing was counted in it yet. */
  lemma BegunRecord(d: Door, a: Address, now: Time, caps: Caps)
    requires RecordOK(d, a) && PassesOK(d)
    requires a in Enter(d, a, now, caps).gate.sources && Begins(d.gate, a, now)
    ensures RecordOK(Enter(d, a, now, caps), a)
  {
    AcquiredRecord(d.gate, a, now, caps);
    EnteredHistory(d, a, now, caps);
    var ws := WindowsOf(d, a);
    NoPassYet(d, d.passes, a, |ws|);
    OneMorePass(d.passes, Pass(a, now, |ws|), a, |ws|);
  }

  /** The source goes on in its running window, one attempt more. */
  lemma RunningRecord(d: Door, a: Address, now: Time, caps: Caps)
    requires RecordOK(d, a)
    requires a in Enter(d, a, now, caps).gate.sources && !Begins(d.gate, a, now)
    ensures RecordOK(Enter(d, a, now, caps), a)
  {
    AcquiredRecord(d.gate, a, now, caps);
    EnteredHistory(d, a, now, caps);
    var ws := WindowsOf(d, a);
    OneMorePass(d.passes, Pass(a, now, |ws| - 1), a, |ws| - 1);
  }

  lemma ArrivedRecord(d: Door, a: Address, now: Time, caps: Caps)
    requires RecordOK(d, a) && PassesOK(d)
    ensures RecordOK(Enter(d, a, now, caps), a)
  {
    if a in Enter(d, a, now, caps).gate.sources {
      if Begins(d.gate, a, now) {
        BegunRecord(d, a, now, caps);
      } else {
        RunningRecord(d, a, now, caps);
      }
    }
  }

  lemma EnteredOthers(d: Door, a: Address, now: Time, caps: Caps, b: Address)
    requires b != a
    ensures var d' := Enter(d, a, now, caps);
            && WindowsOf(d', b) == WindowsOf(d, b)
            && (b in d'.gate.sources ==> b in d.gate.sources && d'.gate.sources[b] == d.gate.sources[b])
  {
  }

  lemma EnteredPasses(d: Door, a: Address, now: Time, caps: Caps, b: Address, k: nat)
    requires b != a && RecordOK(d, a)
    ensures PassesIn(Enter(d, a, now, caps).passes, b, k) == PassesIn(d.passes, b, k)
  {
    EnteredHistory(d, a, now, caps);
    var ws := WindowsOf(Enter(d, a, now, caps), a);
    if ws != [] {
      OneMorePass(d.passes, Pass(a, now, |ws| - 1), b, k);
    }
  }

  /** Other sources are at most pruned. */
  lemma OthersRecords(d: Door, a: Address, now: Time, caps: Caps, b: Address)
    requires RecordOK(d, a) && RecordOK(d, b) && b != a
    ensures RecordOK(Enter(d, a, now, caps), b)
  {
    EnteredOthers(d, a, now, caps, b);
    if WindowsOf(d, b) != [] {
      EnteredPasses(d, a, now, caps, b, |WindowsOf(d, b)| - 1);
    }
  }

  lemma ArrivedPasses(d: Door, a: Address, now: Time, caps: Caps)
    requires RecordOK(d, a) && PassesOK(d)
    ensures PassesOK(Enter(d, a, now, caps))
  {
    EnteredHistory(d, a, now, caps);
    var d' := Enter(d, a, now, caps);
    forall i | 0 <= i < |d'.passes| ensures PassOK(d', d'.passes[i]) {
      if i < |d.passes| {
        assert PassOK(d, d.passes[i]);
      }
    }
  }

  lemma ArrivedCounts(d: Door, a: Address, now: Time, caps: Caps, b: Address, k: nat)
    requires RecordOK(d, a) && PassesOK(d) && PassesIn(d.passes, b, k) <= caps.perMinute
    ensures PassesIn(Enter(d, a, now, caps).passes, b, k) <= caps.perMinute
  {
    if b != a {
      EnteredPasses(d, a, now, caps, b, k);
    } else {
      SelfCounts(d, a, now, caps, k);
    }
  }

  lemma SelfCounts(d: Door, a: Address, now: Time, caps: Caps, k: nat)
    requires RecordOK(d, a) && PassesOK(d) && PassesIn(d.passes, a, k) <= caps.perMinute
    ensures PassesIn(Enter(d, a, now, caps).passes, a, k) <= caps.perMinute
  {
    EnteredHistory(d, a, now, caps);
    var ws := WindowsOf(Enter(d, a, now, caps), a);
    if ws != [] {
      OneMorePass(d.passes, Pass(a, now, |ws| - 1), a, k);
      if Begins(d.gate, a, now) && k == |ws| - 1 {
        NoPassYet(d, d.passes, a, |WindowsOf(d, a)|);
      }
    }
  }

  /** What was counted before is still counted, and a new window is opened by a pass. */
  lemma ArrivedOpened(d: Door, a: Address, now: Time, caps: Caps, b: Address)
    requires RecordOK(d, a) && Opened(d, b) && caps.perMinute >= 1
    ensures Opened(Enter(d, a, now, caps), b)
  {
    EnteredHistory(d, a, now, caps);
    var d' := Enter(d, a, now, caps);
    var ws := WindowsOf(d', b);
    if b != a {
      EnteredOthers(d, a, now, caps, b);
    }
    forall k: nat | k < |ws| ensures PassesDuring(d'.passes, b, k, ws[k], ws[k]) >= 1 {
      if d'.passes != d.passes {
        OneMoreDuring(d.passes, d'.passes[|d.passes|], b, k, ws[k], ws[k]);
      }
      if k < |WindowsOf(d, b)| {
        assert PassesDuring(d.passes, b, k, WindowsOf(d, b)[k], WindowsOf(d, b)[k]) >= 1;
      }
    }
  }

  lemma EnterKeepsRate(d: Door, a: Address, now: Time, caps: Caps)
    requires RateInv(d, caps)
    ensures RateInv(Enter(d, a, now, caps), caps)
  {
    var d' := Enter(d, a, now, caps);
    assert RecordOK(d, a);
    forall b ensures RecordOK(d', b) {
      if b == a {
        ArrivedRecord(d, a, now, caps);
      } else {
        assert RecordOK(d, b);
        OthersRecords(d, a, now, caps, b);
      }
    }
    ArrivedPasses(d, a, now, caps);
    forall b, k: nat ensures PassesIn(d'.passes, b, k) <= caps.perMinute {
      ArrivedCounts(d, a, now, caps, b, k);
    }
    forall b | caps.perMinute >= 1 ensures Opened(d', b) {
      ArrivedOpened(d, a, now, caps, b);
    }
  }

  lemma LeaveKeepsRate(d: Door, lease: nat, now: Time, caps: Caps)
    requires RateInv(d, caps)
    ensures RateInv(Leave(d, lease, now), caps)
  {
    var d' := Leave(d, lease, now);
    forall a ensures RecordOK(d', a) {
      assert RecordOK(d, a);
    }
    forall i | 0 <= i < |d'.passes| ensures PassOK(d', d'.passes[i]) {
      assert PassOK(d, d.passes[i]);
    }
    forall a | caps.perMinute >= 1 ensures Opened(d', a) {
      assert Opened(d, a) && WindowsOf(d', a) == WindowsOf(d, a);
    }
  }

  lemma KnockKeepsRate(d: Door, k: Knock, now: Time, caps: Caps)
    requires RateInv(d, caps)
    ensures RateInv(Knocked(d, k, now, caps), caps)
  {
    match k
    case Arrival(a) => EnterKeepsRate(d, a, now, caps);
    case Departure(lease) => LeaveKeepsRate(d, lease, now, caps);
  }

  lemma NewDoorRate(now: Time, caps: Caps)
    requires caps.perMinute >= 0
    ensures RateInv(NewDoor(now), caps)
  {
  }

  lemma {:induction false} RunKeepsRate(ds: seq<Door>, caps: Caps, pace: Pace, i: int)
    requires DoorRun(ds, caps, pace) && 0 <= i < |ds|
    ensures RateInv(ds[i], caps)
    decreases i
  {
    if i == 0 {
      NewDoorRate(ds[0].last, caps);
    } else {
      RunKeepsRate(ds, caps, pace, i - 1);
      assert DoorStepsTo(ds, caps, pace, i);
      var k, now :| Allowed(pace, ds[i - 1], k, now) && ds[i] == Knocked(ds[i - 1], k, now, caps);
      KnockKeepsRate(ds[i - 1], k, now, caps);
    }
  }

  // ---------- the most that windows have room for ----------

  /**
   What a window that begins at `start` lets pass in an interval: everything if it begins in there; if it
   only reaches in, everything but the attempt it begins with.
   */
  function Room(start: Time, from: Time, to: Time, perMinute: int): int {
    if from <= start <= to then perMinute
    else if from - WINDOW < start < from && perMinute > 0 then perMinute - 1
    else 0
  }

  function Capacity(ws: seq<Time>, from: Time, to: Time, perMinute: int): int {
    if ws == [] then 0
    else Capacity(ws[..|ws| - 1], from, to, perMinute) + Room(ws[|ws| - 1], from, to, perMinute)
  }

  lemma {:induction false} DuringIsPart(passes: seq<Pass>, a: Address, k: nat, from: Time, to: Time)
    ensures PassesDuring(passes, a, k, from, to) <= PassesIn(passes, a, k)
  {
    if passes != [] {
      DuringIsPart(passes[..|passes| - 1], a, k, from, to);
    }
  }

  /** What passed before the interval did not pass in it. */
  lemma {:induction false} BeforeIsApart(passes: seq<Pass>, a: Address, k: nat, start: Time, from: Time, to: Time)
    requires start < from
    ensures PassesDuring(passes, a, k, start, start) + PassesDuring(passes, a, k, from, to) <= PassesIn(passes, a, k)
  {
    if passes != [] {
      BeforeIsApart(passes[..|passes| - 1], a, k, start, from, to);
    }
  }

  lemma {:induction false} OutOfReach(d: Door, passes: seq<Pass>, a: Address, k: nat, from: Time, to: Time)
    requires forall i :: 0 <= i < |passes| ==> PassOK(d, passes[i])
    requires k < |WindowsOf(d, a)| && (WindowsOf(d, a)[k] > to || WindowsOf(d, a)[k] + WINDOW <= from)
    ensures PassesDuring(passes, a, k, from, to) == 0
  {
    if passes != [] {
      OutOfReach(d, passes[..|passes| - 1], a, k, from, to);
      assert PassOK(d, passes[|passes| - 1]);
    }
  }

  lemma DuringFits(d: Door, caps: Caps, a: Address, k: nat, from: Time, to: Time)
    requires RateInv(d, caps) && k < |WindowsOf(d, a)| && caps.perMinute >= 0 && from <= to
    ensures PassesDuring(d.passes, a, k, from, to) <= Room(WindowsOf(d, a)[k], from, to, caps.perMinute)
  {
    var start := WindowsOf(d, a)[k];
    DuringIsPart(d.passes, a, k, from, to);
    assert PassesIn(d.passes, a, k) <= caps.perMinute;
    if start > to || start + WINDOW <= from {
      OutOfReach(d, d.passes, a, k, from, to);
    } else if start < from && caps.perMinute > 0 {
      BeforeIsApart(d.passes, a, k, start, from, to);
      assert Opened(d, a);
    }
  }

  lemma {:induction false} BelowOneMore(passes: seq<Pass>, a: Address, n: nat, from: Time, to: Time)
    ensures PassesBelow(passes, a, n + 1, from, to) == PassesBelow(passes, a, n, from, to) + PassesDuring(passes, a, n, from, to)
  {
    if passes != [] {
      BelowOneMore(passes[..|passes| - 1], a, n, from, to);
    }
  }

  lemma {:induction false} BelowNone(passes: seq<Pass>, a: Address, from: Time, to: Time)
    ensures PassesBelow(passes, a, 0, from, to) == 0
  {
    if passes != [] {
      BelowNone(passes[..|passes| - 1], a, from, to);
    }
  }

  lemma {:induction false} BelowAll(d: Door, passes: seq<Pass>, a: Address, from: Time, to: Time)
    requires forall i :: 0 <= i < |passes| ==> PassOK(d, passes[i])
    ensures PassesBelow(passes, a, |WindowsOf(d, a)|, from, to) == PassesBetween(passes, a, from, to)
  {
    if passes != [] {
      BelowAll(d, passes[..|passes| - 1], a, from, to);
      assert PassOK(d, passes[|passes| - 1]);
    }
  }

  lemma {:induction false} BelowFits(d: Door, caps: Caps, a: Address, n: nat, from: Time, to: Time)
    requires RateInv(d, caps) && n <= |WindowsOf(d, a)| && caps.perMinute >= 0 && from <= to
    ensures PassesBelow(d.passes, a, n, from, to) <= Capacity(WindowsOf(d, a)[..n], from, to, caps.perMinute)
  {
    if n == 0 {
      BelowNone(d.passes, a, from, to);
    } else {
      BelowFits(d, caps, a, n - 1, from, to);
      BelowOneMore(d.passes, a, n - 1, from, to);
      DuringFits(d, caps, a, n - 1, from, to);
      var ws := WindowsOf(d, a);
      assert ws[..n][..n - 1] == ws[..n - 1];
    }
  }

  /** Over every run, whatever the clock does, no more attempts of a source pass than its windows have room for. */
  lemma PassesFitTheWindows(ds: seq<Door>, caps: Caps, pace: Pace, i: int, a: Address, from: Time, to: Time)
    requires DoorRun(ds, caps, pace) && 0 <= i < |ds| && from <= to
    ensures PassesBetween(ds[i].passes, a, from, to) <= Capacity(WindowsOf(ds[i], a), from, to, caps.perMinute)
  {
    RunKeepsRate(ds, caps, pace, i);
    var ws := WindowsOf(ds[i], a);
    BelowAll(ds[i], ds[i].passes, a, from, to);
    BelowFits(ds[i], caps, a, |ws|, from, to);
    assert ws[..|ws|] == ws;
  }

  // ---------- a run that fills its windows ----------

  /** The limits the configuration admits are all positive. */
  predicate Configured(caps: Caps) {
    caps.tracked >= 1 && caps.perMinute >= 1 && caps.perSource >= 1 && caps.total >= 1
  }

  ghost predicate Runs(ds: seq<Door>, caps: Caps) {
    DoorRun(ds, caps, AnyClock)
  }

  function Last(ds: seq<Door>): Door
    requires ds != []
  {
    ds[|ds| - 1]
  }

  lemma OneMoreDoor(ds: seq<Door>, caps: Caps, k: Knock, now: Time, d: Door)
    requires Runs(ds, caps) && d == Knocked(Last(ds), k, now, caps)
    ensures Runs(ds + [d], caps) && Last(ds + [d]) == d
  {
    var all := ds + [d];
    forall i | 0 < i < |all| ensures DoorStepsTo(all, caps, AnyClock, i) {
      if i < |ds| {
        assert DoorStepsTo(ds, caps, AnyClock, i);
      } else {
        assert Allowed(AnyClock, all[i - 1], k, now) && all[i] == Knocked(all[i - 1], k, now, caps);
      }
    }
  }

  /** No source is known and no lease is out. */
  predicate Vacant(d: Door) {
    d.gate == Gate(map[], 0) && d.leases == map[]
  }

  /** One source is known, with one lease. */
  predicate Busy(d: Door, a: Address, start: Time, attempts: int, lease: nat) {
    && d.gate == Gate(map[a := Source(start, attempts, 1)], 1) && d.leases == map[lease := a] && lease < d.issued
    && WindowsOf(d, a) != []
  }

  lemma FirstOfWindow(d: Door, a: Address, start: Time, caps: Caps)
    requires Configured(caps) && Vacant(d)
    ensures var d' := Enter(d, a, start, caps);
            && Busy(d', a, start, 1, d.issued) && WindowsOf(d', a) == WindowsOf(d, a) + [start]
            && d'.passes == d.passes + [Pass(a, start, |WindowsOf(d, a)|)]
  {
    assert Tracked(d.gate, a, start, caps) == Some(Gate(map[a := Source(start, 0, 0)], 0));
    assert map[a := Source(start, 0, 0)][a := Source(start, 1, 1)] == map[a := Source(start, 1, 1)];
    assert Acquire(d.gate, a, start, caps) == (Gate(map[a := Source(start, 1, 1)], 1), Admitted);
  }

  /** A further attempt at an admitted source: it passes; if it is admitted too, it leaves at once. */
  lemma OneMoreAttempt(ds: seq<Door>, caps: Caps, a: Address, start: Time, attempts: int, lease: nat, now: Time) returns (ds': seq<Door>)
    requires Configured(caps) && Runs(ds, caps) && Busy(Last(ds), a, start, attempts, lease)
    requires start <= now < start + WINDOW && attempts < caps.perMinute
    ensures Runs(ds', caps) && Busy(Last(ds'), a, start, attempts + 1, lease)
    ensures WindowsOf(Last(ds'), a) == WindowsOf(Last(ds), a)
    ensures Last(ds').passes == Last(ds).passes + [Pass(a, now, |WindowsOf(Last(ds), a)| - 1)]
  {
    var d := Last(ds);
    var d' := Enter(d, a, now, caps);
    AnotherArrival(d, a, start, attempts, lease, now, caps);
    OneMoreDoor(ds, caps, Arrival(a), now, d');
    ds' := ds + [d'];
    if caps.perSource > 1 && caps.total > 1 {
      var d'' := Leave(d', d.issued, now);
      AnotherDeparture(d', a, start, attempts + 1, lease, d.issued, now);
      OneMoreDoor(ds', caps, Departure(d.issued), now, d'');
      ds' := ds' + [d''];
    }
  }

  lemma AnotherArrival(d: Door, a: Address, start: Time, attempts: int, lease: nat, now: Time, caps: Caps)
    requires Configured(caps) && Busy(d, a, start, attempts, lease) && start <= now < start + WINDOW && attempts < caps.perMinute
    ensures var d' := Enter(d, a, now, caps);
            && WindowsOf(d', a) == WindowsOf(d, a) && d'.passes == d.passes + [Pass(a, now, |WindowsOf(d, a)| - 1)]
            && if caps.perSource > 1 && caps.total > 1
               then d'.gate == Gate(map[a := Source(start, attempts + 1, 2)], 2) && d'.leases == map[lease := a][d.issued := a]
               else Busy(d', a, start, attempts + 1, lease)
  {
    var n := if caps.perSource > 1 && caps.total > 1 then 2 else 1;
    assert d.gate.sources[a := Source(start, attempts + 1, n)] == map[a := Source(start, attempts + 1, n)];
  }

  lemma AnotherDeparture(d: Door, a: Address, start: Time, attempts: int, lease: nat, another: nat, now: Time)
    requires d.gate == Gate(map[a := Source(start, attempts, 2)], 2) && d.leases == map[lease := a][another := a] && lease < another
    requires WindowsOf(d, a) != [] && lease < d.issued
    ensures var d' := Leave(d, another, now);
            Busy(d', a, start, attempts, lease) && WindowsOf(d', a) == WindowsOf(d, a) && d'.passes == d.passes
  {
    assert d.gate.sources[a := Source(start, attempts, 1)] == map[a := Source(start, attempts, 1)];
    assert d.leases - {another} == map[lease := a];
  }

  lemma {:induction false} MoreAttempts(ds: seq<Door>, caps: Caps, a: Address, start: Time, lease: nat, now: Time, more: nat,
                                        from: Time, to: Time) returns (ds': seq<Door>)
    requires Configured(caps) && Runs(ds, caps) && Busy(Last(ds), a, start, 1, lease)
    requires start <= now < start + WINDOW && more < caps.perMinute && from <= now <= to
    ensures Runs(ds', caps) && Busy(Last(ds'), a, start, 1 + more, lease)
    ensures WindowsOf(Last(ds'), a) == WindowsOf(Last(ds), a)
    ensures PassesBetween(Last(ds').passes, a, from, to) == PassesBetween(Last(ds).passes, a, from, to) + more
  {
    ds' := ds;
    if more > 0 {
      var before := MoreAttempts(ds, caps, a, start, lease, now, more - 1, from, to);
      ds' := OneMoreAttempt(before, caps, a, start, more, lease, now);
      OneMoreBetween(Last(before).passes, Pass(a, now, |WindowsOf(Last(before), a)| - 1), a, from, to);
    }
  }

  /** The last lease is given back a minute after the window began, and the source is forgotten. */
  lemma WindowEnds(d: Door, a: Address, start: Time, attempts: int, lease: nat)
    requires Busy(d, a, start, attempts, lease)
    ensures var d' := Leave(d, lease, start + WINDOW);
            Vacant(d') && WindowsOf(d', a) == WindowsOf(d, a) && d'.passes == d.passes
  {
    assert d.gate.sources - {a} == map[];
    assert d.leases - {lease} == map[];
  }

  /** One window of a source, from its first attempt until it is forgotten, as full as it can be in the interval. */
  lemma FullWindow(ds: seq<Door>, caps: Caps, a: Address, start: Time, from: Time, to: Time) returns (ds': seq<Door>)
    requires Configured(caps) && Runs(ds, caps) && Vacant(Last(ds)) && from <= to
    ensures Runs(ds', caps) && Vacant(Last(ds')) && WindowsOf(Last(ds'), a) == WindowsOf(Last(ds), a) + [start]
    ensures PassesBetween(Last(ds').passes, a, from, to)
            == PassesBetween(Last(ds).passes, a, from, to) + Room(start, from, to, caps.perMinute)
  {
    var d := Last(ds);
    FirstOfWindow(d, a, start, caps);
    OneMoreDoor(ds, caps, Arrival(a), start, Enter(d, a, start, caps));
    OneMoreBetween(d.passes, Pass(a, start, |WindowsOf(d, a)|), a, from, to);
    ds' := ds + [Enter(d, a, start, caps)];
    var attempts := 1;
    if from - WINDOW < start <= to {
      ds' := MoreAttempts(ds', caps, a, start, d.issued, if start < from then from else start, caps.perMinute - 1, from, to);
      attempts := caps.perMinute;
    }
    var full := Last(ds');
    WindowEnds(full, a, start, attempts, d.issued);
    OneMoreDoor(ds', caps, Departure(d.issued), start + WINDOW, Leave(full, d.issued, start + WINDOW));
    ds' := ds' + [Leave(full, d.issued, start + WINDOW)];
  }

  lemma {:induction false} FullWindows(ws: seq<Time>, a: Address, caps: Caps, from: Time, to: Time) returns (ds: seq<Door>)
    requires Configured(caps) && from <= to
    ensures Runs(ds, caps) && Vacant(Last(ds)) && WindowsOf(Last(ds), a) == ws
    ensures PassesBetween(Last(ds).passes, a, from, to) == Capacity(ws, from, to, caps.perMinute)
  {
    if ws == [] {
      ds := [NewDoor(0)];
    } else {
      var before := FullWindows(ws[..|ws| - 1], a, caps, from, to);
      ds := FullWindow(before, caps, a, ws[|ws| - 1], from, to);
      assert ws[..|ws| - 1] + [ws[|ws| - 1]] == ws;
    }
  }

  /**
   That room is used up: whenever the windows of a source begin, in whatever order, and whatever the limits
   are, some run begins its windows just then and passes as many attempts as they have room for.
   */
  lemma WindowsCanBeFull(ws: seq<Time>, a: Address, caps: Caps, from: Time, to: Time)
    requires Configured(caps) && from <= to
    ensures exists ds :: DoorRun(ds, caps, AnyClock) && WindowsOf(Last(ds), a) == ws
                         && PassesBetween(Last(ds).passes, a, from, to) == Capacity(ws, from, to, caps.perMinute)
  {
    var ds := FullWindows(ws, a, caps, from, to);
    assert DoorRun(ds, caps, AnyClock);
  }

  // ---------- which windows keep the rate ----------

  /** Three windows that together let more than twice the limit pass in less than a minute. */
  predicate Crowded(x: Time, y: Time, z: Time, perMinute: int) {
    && x <= y <= z && z - x <= 2 * WINDOW - 2
    && (perMinute >= 3 || (perMinute == 2 && z - y < WINDOW) || z - x < WINDOW)
  }

  predicate Three(ws: seq<Time>, i: nat, j: nat, k: nat) {
    i < |ws| && j < |ws| && k < |ws| && i != j && j != k && i != k
  }

  ghost predicate Crowds(ws: seq<Time>, perMinute: int) {
    exists i: nat, j: nat, k: nat :: Three(ws, i, j, k) && Crowded(ws[i], ws[j], ws[k], perMinute)
  }

  function RoomAt(ws: seq<Time>, at: set<nat>, from: Time, to: Time, perMinute: int): int {
    if ws == [] then 0
    else RoomAt(ws[..|ws| - 1], at, from, to, perMinute)
         + if |ws| - 1 in at then Room(ws[|ws| - 1], from, to, perMinute) else 0
  }

  lemma {:induction false} RoomAtIsPart(ws: seq<Time>, at: set<nat>, from: Time, to: Time, perMinute: int)
    requires perMinute >= 1
    ensures RoomAt(ws, at, from, to, perMinute) <= Capacity(ws, from, to, perMinute)
  {
    if ws != [] {
      RoomAtIsPart(ws[..|ws| - 1], at, from, to, perMinute);
    }
  }

  lemma {:induction false} RoomOfOneMore(ws: seq<Time>, at: set<nat>, i: nat, from: Time, to: Time, perMinute: int)
    requires i < |ws| && i !in at
    ensures RoomAt(ws, at + {i}, from, to, perMinute) == RoomAt(ws, at, from, to, perMinute) + Room(ws[i], from, to, perMinute)
  {
    var before := ws[..|ws| - 1];
    if i < |before| {
      RoomOfOneMore(before, at, i, from, to, perMinute);
    } else {
      RoomElsewhere(before, at, i, from, to, perMinute);
    }
  }

  lemma {:induction false} RoomElsewhere(ws: seq<Time>, at: set<nat>, i: nat, from: Time, to: Time, perMinute: int)
    requires i >= |ws|
    ensures RoomAt(ws, at + {i}, from, to, perMinute) == RoomAt(ws, at, from, to, perMinute)
  {
    if ws != [] {
      RoomElsewhere(ws[..|ws| - 1], at, i, from, to, perMinute);
    }
  }

  lemma {:induction false} RoomNowhere(ws: seq<Time>, from: Time, to: Time, perMinute: int)
    ensures RoomAt(ws, {}, from, to, perMinute) == 0
  {
    if ws != [] {
      RoomNowhere(ws[..|ws| - 1], from, to, perMinute);
    }
  }

  lemma RoomOfThree(ws: seq<Time>, i: nat, j: nat, k: nat, from: Time, to: Time, perMinute: int)
    requires perMinute >= 1 && Three(ws, i, j, k)
    ensures Room(ws[i], from, to, perMinute) + Room(ws[j], from, to, perMinute) + Room(ws[k], from, to, perMinute)
            <= Capacity(ws, from, to, perMinute)
  {
    RoomNowhere(ws, from, to, perMinute);
    RoomOfOneMore(ws, {}, i, from, to, perMinute);
    RoomOfOneMore(ws, {} + {i}, j, from, to, perMinute);
    RoomOfOneMore(ws, {} + {i} + {j}, k, from, to, perMinute);
    RoomAtIsPart(ws, {} + {i} + {j} + {k}, from, to, perMinute);
  }

  /** A crowd exceeds twice the limit in the last minute before its last window begins. */
  lemma CrowdExceeds(ws: seq<Time>, perMinute: int) returns (from: Time, to: Time)
    requires perMinute >= 1 && Crowds(ws, perMinute)
    ensures from <= to < from + WINDOW && Capacity(ws, from, to, perMinute) > 2 * perMinute
  {
    var i: nat, j: nat, k: nat :| Three(ws, i, j, k) && Crowded(ws[i], ws[j], ws[k], perMinute);
    from, to := ws[k] - WINDOW + 1, ws[k];
    RoomOfThree(ws, i, j, k, from, to, perMinute);
  }

  function BeginningIn(ws: seq<Time>, from: Time, to: Time): set<nat> {
    set k: nat | k < |ws| && from <= ws[k] <= to
  }

  function ReachingIn(ws: seq<Time>, from: Time): set<nat> {
    set k: nat | k < |ws| && from - WINDOW < ws[k] < from
  }

  lemma OneMoreBeginning(ws: seq<Time>, start: Time, from: Time, to: Time)
    ensures BeginningIn(ws + [start], from, to) == BeginningIn(ws, from, to) + (if from <= start <= to then {|ws|} else {})
  {
    var more := ws + [start];
    assert forall k: nat :: k < |ws| ==> more[k] == ws[k];
    assert more[|ws|] == start;
  }

  lemma OneMoreReaching(ws: seq<Time>, start: Time, from: Time)
    ensures ReachingIn(ws + [start], from) == ReachingIn(ws, from) + (if from - WINDOW < start < from then {|ws|} else {})
  {
    var more := ws + [start];
    assert forall k: nat :: k < |ws| ==> more[k] == ws[k];
    assert more[|ws|] == start;
  }

  lemma {:induction false} CapacityCounts(ws: seq<Time>, from: Time, to: Time, perMinute: int)
    requires from <= to && perMinute >= 1
    ensures Capacity(ws, from, to, perMinute)
            == perMinute * |BeginningIn(ws, from, to)| + (perMinute - 1) * |ReachingIn(ws, from)|
  {
    if ws != [] {
      var before, start := ws[..|ws| - 1], ws[|ws| - 1];
      CapacityCounts(before, from, to, perMinute);
      assert before + [start] == ws;
      OneMoreBeginning(before, start, from, to);
      OneMoreReaching(before, start, from);
      Distributes(perMinute, |BeginningIn(before, from, to)|);
      Distributes(perMinute - 1, |ReachingIn(before, from)|);
    }
  }

  lemma Distributes(m: int, n: int)
    ensures m * (n + 1) == m * n + m
  {
  }

  lemma TwoOf(s: set<nat>) returns (i: nat, j: nat)
    requires |s| >= 2
    ensures i in s && j in s && i != j
  {
    i :| i in s;
    assert |s - {i}| >= 1;
    j :| j in s - {i};
  }

  lemma ThreeOf(s: set<nat>) returns (i: nat, j: nat, k: nat)
    requires |s| >= 3
    ensures i in s && j in s && k in s && i != j && j != k && i != k
  {
    i :| i in s;
    assert |s - {i}| >= 2;
    j, k := TwoOf(s - {i});
  }

  /** Three windows within less than a minute are a crowd, in whatever order they were begun. */
  lemma NearThree(ws: seq<Time>, i: nat, j: nat, k: nat, low: Time, perMinute: int)
    requires Three(ws, i, j, k) && low <= ws[i] < low + WINDOW && low <= ws[j] < low + WINDOW && low <= ws[k] < low + WINDOW
    ensures Crowds(ws, perMinute)
  {
    var x, y, z := i, j, k;
    if ws[y] < ws[x] {
      x, y := y, x;
    }
    if ws[z] < ws[y] {
      y, z := z, y;
    }
    if ws[y] < ws[x] {
      x, y := y, x;
    }
    assert Three(ws, x, y, z) && Crowded(ws[x], ws[y], ws[z], perMinute);
  }

  /** One window that reaches in, and two that begin in the interval. */
  lemma ReachingThree(ws: seq<Time>, i: nat, j: nat, k: nat, from: Time, to: Time, perMinute: int)
    requires Three(ws, i, j, k) && from <= to < from + WINDOW && perMinute >= 2
    requires from - WINDOW < ws[i] < from && from <= ws[j] <= to && from <= ws[k] <= to
    ensures Crowds(ws, perMinute)
  {
    if ws[j] <= ws[k] {
      assert Three(ws, i, j, k) && Crowded(ws[i], ws[j], ws[k], perMinute);
    } else {
      assert Three(ws, i, k, j) && Crowded(ws[i], ws[k], ws[j], perMinute);
    }
  }

  lemma BeginningOne(ws: seq<Time>, i: nat, j: nat, k: nat, from: Time, to: Time, perMinute: int)
    requires Three(ws, i, j, k) && from <= to < from + WINDOW && perMinute >= 3
    requires from - WINDOW < ws[i] < from && from - WINDOW < ws[j] < from && from <= ws[k] <= to
    ensures Crowds(ws, perMinute)
  {
    if ws[i] <= ws[j] {
      assert Three(ws, i, j, k) && Crowded(ws[i], ws[j], ws[k], perMinute);
    } else {
      assert Three(ws, j, i, k) && Crowded(ws[j], ws[i], ws[k], perMinute);
    }
  }

  lemma FewAreEnough(perMinute: int, beginning: nat, reaching: nat)
    requires perMinute >= 1 && beginning <= 2 && reaching <= 2
    requires perMinute * beginning + (perMinute - 1) * reaching > 2 * perMinute
    ensures (beginning == 2 && reaching >= 1 && perMinute >= 2) || (beginning == 1 && reaching == 2 && perMinute >= 3)
  {
    if reaching == 0 {
    } else if reaching == 1 {
    } else {
      assert reaching == 2;
    }
    if beginning == 0 {
    } else if beginning == 1 {
    } else {
      assert beginning == 2;
    }
  }

  /** Only a crowd has room for more than twice the limit. */
  lemma ExceedingIsCrowd(ws: seq<Time>, from: Time, to: Time, perMinute: int)
    requires perMinute >= 1 && from <= to < from + WINDOW && Capacity(ws, from, to, perMinute) > 2 * perMinute
    ensures Crowds(ws, perMinute)
  {
    CapacityCounts(ws, from, to, perMinute);
    var beginning, reaching := BeginningIn(ws, from, to), ReachingIn(ws, from);
    if |beginning| >= 3 {
      var i, j, k := ThreeOf(beginning);
      NearThree(ws, i, j, k, from, perMinute);
    } else if |reaching| >= 3 {
      var i, j, k := ThreeOf(reaching);
      NearThree(ws, i, j, k, from - WINDOW + 1, perMinute);
    } else {
      FewAreEnough(perMinute, |beginning|, |reaching|);
      if |beginning| == 2 {
        var j, k := TwoOf(beginning);
        var i :| i in reaching;
        ReachingThree(ws, i, j, k, from, to, perMinute);
      } else {
        var i, j := TwoOf(reaching);
        var k :| k in beginning;
        BeginningOne(ws, i, j, k, from, to, perMinute);
      }
    }
  }

  /** The history of a source is good if it passes at most twice its limit in every interval shorter than a minute. */
  ghost predicate WithinRate(passes: seq<Pass>, a: Address, perMinute: int) {
    forall from, to :: to - from < WINDOW ==> PassesBetween(passes, a, from, to) <= 2 * perMinute
  }

  lemma {:induction false} NothingPassesNever(passes: seq<Pass>, a: Address, from: Time, to: Time)
    requires to < from
    ensures PassesBetween(passes, a, from, to) == 0
  {
    if passes != [] {
      NothingPassesNever(passes[..|passes| - 1], a, from, to);
    }
  }

  /** Where nothing may pass, nothing does. */
  lemma {:induction false} NoRoom(ws: seq<Time>, from: Time, to: Time)
    ensures Capacity(ws, from, to, 0) == 0
  {
    if ws != [] {
      NoRoom(ws[..|ws| - 1], from, to);
    }
  }

  /** Whatever the clock does: a source stays within its rate while no three of its windows are a crowd. */
  lemma UncrowdedStaysWithinRate(ds: seq<Door>, caps: Caps, pace: Pace, i: int, a: Address)
    requires DoorRun(ds, caps, pace) && 0 <= i < |ds| && !Crowds(WindowsOf(ds[i], a), caps.perMinute)
    ensures WithinRate(ds[i].passes, a, caps.perMinute)
  {
    var ws := WindowsOf(ds[i], a);
    forall from, to | to - from < WINDOW ensures PassesBetween(ds[i].passes, a, from, to) <= 2 * caps.perMinute {
      if from > to {
        NothingPassesNever(ds[i].passes, a, from, to);
      } else {
        PassesFitTheWindows(ds, caps, pace, i, a, from, to);
        if caps.perMinute == 0 {
          NoRoom(ws, from, to);
        } else if Capacity(ws, from, to, caps.perMinute) > 2 * caps.perMinute {
          ExceedingIsCrowd(ws, from, to, caps.perMinute);
        }
      }
    }
  }

  /** Every run in which the windows of a source begin at these readings keeps the source within its rate. */
  ghost predicate KeepTheRate(ws: seq<Time>, a: Address, caps: Caps) {
    forall ds :: DoorRun(ds, caps, AnyClock) && WindowsOf(Last(ds), a) == ws ==> WithinRate(Last(ds).passes, a, caps.perMinute)
  }

  /**
   The exact condition on the readings: whatever readings begin the windows of a source, and in whatever
   order, the rate is kept in every run that begins its windows so if and only if no three of them are a crowd.
   */
  lemma RateIsKeptIffUncrowded(ws: seq<Time>, a: Address, caps: Caps)
    requires Configured(caps)
    ensures KeepTheRate(ws, a, caps) <==> !Crowds(ws, caps.perMinute)
  {
    if Crowds(ws, caps.perMinute) {
      var from, to := CrowdExceeds(ws, caps.perMinute);
      var ds := FullWindows(ws, a, caps, from, to);
      assert DoorRun(ds, caps, AnyClock) && !WithinRate(Last(ds).passes, a, caps.perMinute);
    } else {
      forall ds | DoorRun(ds, caps, AnyClock) && WindowsOf(Last(ds), a) == ws ensures WithinRate(Last(ds).passes, a, caps.perMinute) {
        UncrowdedStaysWithinRate(ds, caps, AnyClock, |ds| - 1, a);
      }
    }
  }

  // ---------- readings that begin every window in time ----------

  ghost predicate Spaced(ws: seq<Time>) {
    forall k :: 0 <= k < |ws| - 1 ==> ws[k] + WINDOW <= ws[k + 1]
  }

  lemma {:induction false} SpacedApart(ws: seq<Time>, i: nat, j: nat)
    requires Spaced(ws) && i < j < |ws|
    ensures ws[i] + (if j == i + 1 then WINDOW else 2 * WINDOW) <= ws[j]
  {
    if i + 1 < j {
      SpacedApart(ws, i, j - 1);
    }
  }

  lemma SpacedIsUncrowded(ws: seq<Time>, perMinute: int)
    requires Spaced(ws)
    ensures !Crowds(ws, perMinute)
  {
    forall i: nat, j: nat, k: nat | Three(ws, i, j, k) ensures !Crowded(ws[i], ws[j], ws[k], perMinute) {
      if i < j { SpacedApart(ws, i, j); } else { SpacedApart(ws, j, i); }
      if j < k { SpacedApart(ws, j, k); } else { SpacedApart(ws, k, j); }
      if i < k { SpacedApart(ws, i, k); } else { SpacedApart(ws, k, i); }
    }
  }

  lemma KnockKeepsSpaced(d: Door, k: Knock, now: Time, caps: Caps, a: Address)
    requires StartsInTime(d, k, now) && Spaced(WindowsOf(d, a))
    ensures Spaced(WindowsOf(Knocked(d, k, now, caps), a))
  {
    var ws := WindowsOf(d, a);
    if k.Arrival? && k.a != a {
      EnteredOthers(d, k.a, now, caps, a);
    } else {
      var ws' := WindowsOf(Knocked(d, k, now, caps), a);
      assert ws' == ws || ws' == ws + [now];
    }
  }

  lemma {:induction false} TimelyIsSpaced(ds: seq<Door>, caps: Caps, i: int, a: Address)
    requires DoorRun(ds, caps, Timely) && 0 <= i < |ds|
    ensures Spaced(WindowsOf(ds[i], a))
    decreases i
  {
    if i > 0 {
      TimelyIsSpaced(ds, caps, i - 1, a);
      assert DoorStepsTo(ds, caps, Timely, i);
      var k, now :| Allowed(Timely, ds[i - 1], k, now) && ds[i] == Knocked(ds[i - 1], k, now, caps);
      KnockKeepsSpaced(ds[i - 1], k, now, caps, a);
    }
  }

  /**
   In less than a minute a source passes at most twice its attempts per minute, whatever is pruned
   meanwhile, if no window of a source begins less than a minute after its last one.
   */
  lemma RateIsBounded(ds: seq<Door>, caps: Caps, i: int, a: Address, from: Time, to: Time)
    requires DoorRun(ds, caps, Timely) && 0 <= i < |ds| && to - from < WINDOW
    ensures PassesBetween(ds[i].passes, a, from, to) <= 2 * caps.perMinute
  {
    TimelyIsSpaced(ds, caps, i, a);
    SpacedIsUncrowded(WindowsOf(ds[i], a), caps.perMinute);
    UncrowdedStaysWithinRate(ds, caps, Timely, i, a);
  }

  /** While no window has begun after the last reading, and a source without a record is a minute past its last window. */
  ghost predicate UpToDate(d: Door) {
    forall a :: WindowsOf(d, a) != [] ==>
      var last := WindowsOf(d, a)[|WindowsOf(d, a)| - 1];
      last <= d.last && (a !in d.gate.sources ==> last + WINDOW <= d.last)
  }

  lemma SteadyStep(d: Door, k: Knock, now: Time, caps: Caps)
    requires RateInv(d, caps) && UpToDate(d) && now >= d.last
    ensures StartsInTime(d, k, now)
    ensures UpToDate(Knocked(d, k, now, caps))
  {
    match k
    case Arrival(a) =>
      assert RecordOK(d, a);
      SteadyArrival(d, a, now, caps);
    case Departure(lease) => SteadyDeparture(d, lease, now);
  }

  lemma SteadyDeparture(d: Door, lease: nat, now: Time)
    requires UpToDate(d) && now >= d.last && forall a :: RecordOK(d, a)
    ensures UpToDate(Leave(d, lease, now))
  {
    var d' := Leave(d, lease, now);
    forall b | WindowsOf(d', b) != []
      ensures var last := WindowsOf(d', b)[|WindowsOf(d', b)| - 1];
              last <= now && (b !in d'.gate.sources ==> last + WINDOW <= now)
    {
      assert RecordOK(d, b) && WindowsOf(d', b) == WindowsOf(d, b);
    }
  }

  /** What an arrival does to the record of another source: nothing, or it was stale and is pruned. */
  lemma OthersPruned(g: Gate, a: Address, now: Time, caps: Caps, b: Address)
    requires b != a && b in g.sources && b !in Acquire(g, a, now, caps).0.sources
    ensures Stale(g.sources[b], now)
  {
  }

  lemma SteadyOther(d: Door, a: Address, now: Time, caps: Caps, b: Address)
    requires RecordOK(d, b) && UpToDate(d) && now >= d.last && b != a && WindowsOf(Enter(d, a, now, caps), b) != []
    ensures var ws := WindowsOf(Enter(d, a, now, caps), b);
            ws[|ws| - 1] <= now && (b !in Enter(d, a, now, caps).gate.sources ==> ws[|ws| - 1] + WINDOW <= now)
  {
    assert WindowsOf(Enter(d, a, now, caps), b) == WindowsOf(d, b);
    if b in d.gate.sources && b !in Enter(d, a, now, caps).gate.sources {
      OthersPruned(d.gate, a, now, caps, b);
    }
  }

  lemma SteadySelf(d: Door, a: Address, now: Time, caps: Caps)
    requires RecordOK(d, a) && UpToDate(d) && now >= d.last && WindowsOf(Enter(d, a, now, caps), a) != []
    ensures var ws := WindowsOf(Enter(d, a, now, caps), a);
            ws[|ws| - 1] <= now && (a !in Enter(d, a, now, caps).gate.sources ==> ws[|ws| - 1] + WINDOW <= now)
  {
    EnteredHistory(d, a, now, caps);
    AcquiredRecord(d.gate, a, now, caps);
  }

  lemma SteadyArrival(d: Door, a: Address, now: Time, caps: Caps)
    requires RateInv(d, caps) && UpToDate(d) && now >= d.last
    ensures UpToDate(Enter(d, a, now, caps))
  {
    var d' := Enter(d, a, now, caps);
    assert d'.last == now;
    forall b | WindowsOf(d', b) != []
      ensures var last := WindowsOf(d', b)[|WindowsOf(d', b)| - 1];
              last <= now && (b !in d'.gate.sources ==> last + WINDOW <= now)
    {
      assert RecordOK(d, a);
      if b == a {
        SteadySelf(d, a, now, caps);
      } else {
        assert RecordOK(d, b);
        SteadyOther(d, a, now, caps, b);
      }
    }
  }

  lemma {:induction false} SteadyRunsAre(ds: seq<Door>, caps: Caps, i: int)
    requires DoorRun(ds, caps, Steady) && 0 <= i < |ds|
    ensures UpToDate(ds[i]) && RateInv(ds[i], caps)
    ensures i > 0 ==> DoorStepsTo(ds, caps, Timely, i)
    decreases i
  {
    if i == 0 {
      NewDoorRate(ds[0].last, caps);
    } else {
      SteadyRunsAre(ds, caps, i - 1);
      assert DoorStepsTo(ds, caps, Steady, i);
      var k, now :| Allowed(Steady, ds[i - 1], k, now) && ds[i] == Knocked(ds[i - 1], k, now, caps);
      SteadyStep(ds[i - 1], k, now, caps);
      KnockKeepsRate(ds[i - 1], k, now, caps);
      assert Allowed(Timely, ds[i - 1], k, now);
    }
  }

  /** Readings that do not decrease begin every window in time. */
  lemma SteadyRunsAreTimely(ds: seq<Door>, caps: Caps)
    requires DoorRun(ds, caps, Steady)
    ensures DoorRun(ds, caps, Timely)
  {
    forall i | 0 < i < |ds| ensures DoorStepsTo(ds, caps, Timely, i) {
      SteadyRunsAre(ds, caps, i);
    }
  }

  // ---------- readings out of order ----------

  /** Three attempts read the clock at 8, 9 and 10, and take the lock in the other order; one a minute is allowed. */
  ghost function OutOfOrderRun(): seq<Door> {
    var caps := Caps(1, 1, 3, 3);
    var first := Enter(NewDoor(0), 7, 10, caps);
    var second := Enter(first, 7, 9, caps);
    [NewDoor(0), first, second, Enter(second, 7, 8, caps)]
  }

  lemma OutOfOrderRecord(d: Door, start: Time, now: Time)
    requires d.gate.active < 3 && d.gate.sources == map[7 := Source(start, 1, d.gate.active)] && now < start
    ensures var d' := Enter(d, 7, now, Caps(1, 1, 3, 3));
            && d'.gate == Gate(map[7 := Source(now, 1, d.gate.active + 1)], d.gate.active + 1)
            && d'.passes == d.passes + [Pass(7, now, |WindowsOf(d, 7)|)]
  {
    assert d.gate.sources[7 := Source(now, 1, d.gate.active + 1)] == map[7 := Source(now, 1, d.gate.active + 1)];
  }

  lemma OutOfOrderSteps()
    ensures DoorRun(OutOfOrderRun(), Caps(1, 1, 3, 3), AnyClock)
  {
    var ds := OutOfOrderRun();
    var caps := Caps(1, 1, 3, 3);
    assert DoorStepsTo(ds, caps, AnyClock, 1) by {
      assert ds[1] == Knocked(ds[0], Arrival(7), 10, caps) && Allowed(AnyClock, ds[0], Arrival(7), 10);
    }
    assert DoorStepsTo(ds, caps, AnyClock, 2) by {
      assert ds[2] == Knocked(ds[1], Arrival(7), 9, caps) && Allowed(AnyClock, ds[1], Arrival(7), 9);
    }
    assert DoorStepsTo(ds, caps, AnyClock, 3) by {
      assert ds[3] == Knocked(ds[2], Arrival(7), 8, caps) && Allowed(AnyClock, ds[2], Arrival(7), 8);
    }
  }

  lemma FirstRecord()
    ensures var d' := Enter(NewDoor(0), 7, 10, Caps(1, 1, 3, 3));
            d'.gate == Gate(map[7 := Source(10, 1, 1)], 1) && d'.passes == [Pass(7, 10, 0)]
  {
  }

  /** All three pass, and three exceed twice the limit: readings out of order defeat the bound. */
  lemma OutOfOrderDefeatsTheRate()
    ensures DoorRun(OutOfOrderRun(), Caps(1, 1, 3, 3), AnyClock)
    ensures PassesBetween(OutOfOrderRun()[3].passes, 7, 8, 10) == 3 > 2 * Caps(1, 1, 3, 3).perMinute
  {
    var ds := OutOfOrderRun();
    OutOfOrderSteps();
    FirstRecord();
    OutOfOrderRecord(ds[1], 10, 9);
    OutOfOrderRecord(ds[2], 9, 8);
    OneMoreBetween([], Pass(7, 10, 0), 7, 8, 10);
    OneMoreBetween(ds[1].passes, Pass(7, 9, |WindowsOf(ds[1], 7)|), 7, 8, 10);
    OneMoreBetween(ds[2].passes, Pass(7, 8, |WindowsOf(ds[2], 7)|), 7, 8, 10);
    assert [] + [Pass(7, 10, 0)] == [Pass(7, 10, 0)];
  }
}
