/** What an arriving connection is answered, in the terms of the leases, the windows and the passes before it. */
module AdmissionAnswers {
  import opened Basics
  import opened Admission
  import opened AdmissionTheorems
  import opened AdmissionRates

  /** Nobody from the source is connected, and the last of its windows is over. */
  ghost predicate Forgettable(d: Door, a: Address, now: Time) {
    LeasesOf(d.leases, a) == {} && WindowsOf(d, a) != [] && now >= WindowsOf(d, a)[|WindowsOf(d, a)| - 1] + WINDOW
  }

  /** The source has a record, or there is room for one, if need be by forgetting another. */
  ghost predicate HasRoom(d: Door, a: Address, now: Time, caps: Caps) {
    || a in d.gate.sources
    || |d.gate.sources| < caps.tracked
    || (caps.tracked > 0 && exists b :: b in d.gate.sources && Forgettable(d, b, now))
  }

  /** Attempts of the source that have passed in the window that runs now; none if the source is new or its window is not the one of `now`. */
  function Used(d: Door, a: Address, now: Time): nat {
    var ws := WindowsOf(d, a);
    if a in d.gate.sources && ws != [] && ws[|ws| - 1] <= now < ws[|ws| - 1] + WINDOW then PassesIn(d.passes, a, |ws| - 1) else 0
  }

  lemma StaleIffForgettable(d: Door, b: Address, now: Time, caps: Caps)
    requires LeasesInv(d, caps) && RecordOK(d, b) && b in d.gate.sources
    ensures Stale(d.gate.sources[b], now) <==> Forgettable(d, b, now)
  {
    assert ActiveOf(d.gate, b) == |LeasesOf(d.leases, b)|;
  }

  lemma PrunesSome(sources: map<Address, Source>, now: Time)
    ensures |Pruned(sources, now)| < |sources| <==> exists b :: b in sources && Stale(sources[b], now)
  {
    var pruned := Pruned(sources, now);
    SubsetSize(pruned.Keys, sources.Keys);
    if exists b :: b in sources && Stale(sources[b], now) {
      var b :| b in sources && Stale(sources[b], now);
      SubsetSize(pruned.Keys, sources.Keys - {b});
    } else {
      forall b | b in sources ensures b in pruned.Keys {
        assert !Stale(sources[b], now);
      }
      assert pruned.Keys == sources.Keys;
    }
  }

  lemma RoomIffTracked(d: Door, a: Address, now: Time, caps: Caps)
    requires LeasesInv(d, caps) && (forall b :: RecordOK(d, b)) && caps.tracked >= 0
    ensures Tracked(d.gate, a, now, caps).Some? <==> HasRoom(d, a, now, caps)
  {
    PrunesSome(d.gate.sources, now);
    forall b | b in d.gate.sources ensures Stale(d.gate.sources[b], now) <==> Forgettable(d, b, now) {
      StaleIffForgettable(d, b, now, caps);
    }
  }

  lemma LeasesAreCounted(d: Door, a: Address, caps: Caps)
    requires LeasesInv(d, caps)
    ensures d.gate.active == |d.leases| && ActiveOf(d.gate, a) == |LeasesOf(d.leases, a)|
  {
  }

  /**
   Over every run, whatever the clock does: an attempt is turned away for its rate exactly if its source has used up
   the running window, and admitted exactly if it has not, the source can be tracked, and neither the source nor the
   relay has all the connections it may have.
   */
  lemma ArrivalIsAnswered(ds: seq<Door>, caps: Caps, pace: Pace, i: int, a: Address, now: Time)
    requires DoorRun(ds, caps, pace) && 0 <= i < |ds|
    ensures var d := ds[i];
            Acquire(d.gate, a, now, caps).1
            == if !HasRoom(d, a, now, caps) then Full
               else if Used(d, a, now) >= caps.perMinute then TooFast
               else if |LeasesOf(d.leases, a)| >= caps.perSource || |d.leases| >= caps.total then Full
               else Admitted
  {
    RunKeepsLeases(ds, caps, pace, i);
    RunKeepsRate(ds, caps, pace, i);
    RoomIffTracked(ds[i], a, now, caps);
    LeasesAreCounted(ds[i], a, caps);
    assert RecordOK(ds[i], a);
  }

  /** An attempt uses up one pass of its window whenever it is not too fast, even if it is then turned away. */
  lemma PassesAreUsed(ds: seq<Door>, caps: Caps, pace: Pace, i: int, a: Address, now: Time)
    requires DoorRun(ds, caps, pace) && 0 <= i < |ds| && HasRoom(ds[i], a, now, caps)
    ensures var d := ds[i];
            Used(Enter(d, a, now, caps), a, now) == Used(d, a, now) + if Used(d, a, now) < caps.perMinute then 1 else 0
  {
    RunKeepsLeases(ds, caps, pace, i);
    RunKeepsRate(ds, caps, pace, i);
    RoomIffTracked(ds[i], a, now, caps);
    var d := ds[i];
    assert RecordOK(d, a);
    ArrivedRecord(d, a, now, caps);
    AcquiredRecord(d.gate, a, now, caps);
    EnteredHistory(d, a, now, caps);
  }

  /** Over every run, a connection that leaves takes the record of its source with it exactly if it is the last and the window is over. */
  lemma DepartureForgetsIff(ds: seq<Door>, caps: Caps, pace: Pace, i: int, lease: nat, now: Time)
    requires DoorRun(ds, caps, pace) && 0 <= i < |ds| && lease in ds[i].leases
    ensures var d, a := ds[i], ds[i].leases[lease];
            a !in Leave(d, lease, now).gate.sources
            <==> LeasesOf(d.leases, a) == {lease} && WindowsOf(d, a) != [] && now >= WindowsOf(d, a)[|WindowsOf(d, a)| - 1] + WINDOW
  {
    RunKeepsLeases(ds, caps, pace, i);
    RunKeepsRate(ds, caps, pace, i);
    ReleaseAlwaysCounts(ds, caps, pace, i, lease);
    var d, a := ds[i], ds[i].leases[lease];
    assert RecordOK(d, a);
    LeasesAreCounted(d, a, caps);
    assert LeasesOf(d.leases, a) == {lease} + (LeasesOf(d.leases, a) - {lease});
  }
}
