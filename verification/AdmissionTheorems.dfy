/** What holds of admission over every run, whatever the clock does: leases are counted exactly. */
module AdmissionTheorems {
  import opened Basics
  import opened Admission

  lemma KnockKeepsLeases(d: Door, k: Knock, now: Time, caps: Caps)
    requires LeasesInv(d, caps) && caps.perSource >= 0 && caps.perMinute >= 0
    ensures LeasesInv(Knocked(d, k, now, caps), caps)
  {
    match k
    case Arrival(a) => EnterKeepsLeases(d, a, now, caps);
    case Departure(lease) => LeaveKeepsLeases(d, lease, now, caps);
  }

  /** Whatever the clock does. */
  lemma {:induction false} RunKeepsLeases(ds: seq<Door>, caps: Caps, pace: Pace, i: int)
    requires DoorRun(ds, caps, pace) && 0 <= i < |ds|
    ensures LeasesInv(ds[i], caps)
    decreases i
  {
    if i == 0 {
      forall a ensures LeasesOf(ds[0].leases, a) == {} {
      }
    } else {
      RunKeepsLeases(ds, caps, pace, i - 1);
      assert DoorStepsTo(ds, caps, pace, i);
      var k, now :| Allowed(pace, ds[i - 1], k, now) && ds[i] == Knocked(ds[i - 1], k, now, caps);
      KnockKeepsLeases(ds[i - 1], k, now, caps);
    }
  }

  /** Counters equal the leases that are out, in total and per source, within every limit, whatever the clock does. */
  lemma LeasesAreExact(ds: seq<Door>, caps: Caps, pace: Pace, i: int, a: Address)
    requires DoorRun(ds, caps, pace) && 0 <= i < |ds|
    ensures ds[i].gate.active == |ds[i].leases| <= caps.total
    ensures ActiveOf(ds[i].gate, a) == |LeasesOf(ds[i].leases, a)| <= (if a in ds[i].gate.sources then caps.perSource else 0)
    ensures |ds[i].gate.sources| <= caps.tracked
  {
    RunKeepsLeases(ds, caps, pace, i);
  }

  /** A lease that is out can always be given back: the guards of a release never stop it. */
  lemma ReleaseAlwaysCounts(ds: seq<Door>, caps: Caps, pace: Pace, i: int, lease: nat)
    requires DoorRun(ds, caps, pace) && 0 <= i < |ds| && lease in ds[i].leases
    ensures var a := ds[i].leases[lease];
            a in ds[i].gate.sources && ds[i].gate.sources[a].active > 0 && ds[i].gate.active > 0
  {
    RunKeepsLeases(ds, caps, pace, i);
    LeaseRemoved(ds[i].leases, lease);
    var a := ds[i].leases[lease];
    assert ActiveOf(ds[i].gate, a) == |LeasesOf(ds[i].leases, a)|;
  }

  ghost function SumActive(sources: map<Address, Source>, keys: set<Address>): int
    requires keys <= sources.Keys
  {
    if keys == {} then 0 else Inhabited(keys); var a :| a in keys; sources[a].active + SumActive(sources, keys - {a})
  }

  lemma {:induction false} SumActiveSplits(sources: map<Address, Source>, keys: set<Address>, a: Address)
    requires keys <= sources.Keys && a in keys
    ensures SumActive(sources, keys) == sources[a].active + SumActive(sources, keys - {a})
    decreases keys
  {
    Inhabited(keys);
    var b :| b in keys && SumActive(sources, keys) == sources[b].active + SumActive(sources, keys - {b});
    if b != a {
      SumActiveSplits(sources, keys - {b}, a);
      SumActiveSplits(sources, keys - {a}, b);
      assert keys - {b} - {a} == keys - {a} - {b};
    }
  }

  function LeasesAmong(leases: map<nat, Address>, keys: set<Address>): set<nat> {
    set id | id in leases && leases[id] in keys
  }

  lemma {:induction false} SumIsLeases(g: Gate, leases: map<nat, Address>, keys: set<Address>)
    requires Counted(g, leases) && keys <= g.sources.Keys
    ensures SumActive(g.sources, keys) == |LeasesAmong(leases, keys)|
    decreases keys
  {
    if keys == {} {
      assert LeasesAmong(leases, keys) == {};
    } else {
      Inhabited(keys);
      var a :| a in keys;
      SumActiveSplits(g.sources, keys, a);
      SumIsLeases(g, leases, keys - {a});
      var rest := LeasesAmong(leases, keys - {a});
      assert LeasesAmong(leases, keys) == rest + LeasesOf(leases, a);
      UnionSize(rest, LeasesOf(leases, a));
      assert ActiveOf(g, a) == |LeasesOf(leases, a)|;
    }
  }

  /** The number of active connections is the sum of those of the sources. */
  lemma ActiveIsTheSum(ds: seq<Door>, caps: Caps, pace: Pace, i: int)
    requires DoorRun(ds, caps, pace) && 0 <= i < |ds|
    ensures ds[i].gate.active == SumActive(ds[i].gate.sources, ds[i].gate.sources.Keys)
  {
    RunKeepsLeases(ds, caps, pace, i);
    var g, leases := ds[i].gate, ds[i].leases;
    SumIsLeases(g, leases, g.sources.Keys);
    forall id | id in leases ensures leases[id] in g.sources.Keys {
      LeaseRemoved(leases, id);
      assert ActiveOf(g, leases[id]) == |LeasesOf(leases, leases[id])|;
    }
    assert LeasesAmong(leases, g.sources.Keys) == leases.Keys;
  }
}
