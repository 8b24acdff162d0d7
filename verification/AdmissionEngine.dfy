/** The admission controller as the relay keeps it: a map of records and a counter, updated in place. */
module AdmissionEngine {
  import opened Basics
  import opened Admission
  import opened AdmissionRates

  class AdmissionController {
    const caps: Caps
    var sources: map<Address, Source>
    var activeConnections: int

    function View(): Gate
      reads this
    {
      Gate(sources, activeConnections)
    }

    constructor (caps: Caps)
      ensures View() == Gate(map[], 0) && this.caps == caps
    {
      this.caps, sources, activeConnections := caps, map[], 0;
    }

    method PruneSources(now: Time)
      modifies `sources
      ensures sources == Pruned(old(sources), now)
    {
      var todo := sources.Keys;
      ghost var before := sources;
      while todo != {}
        invariant todo <= before.Keys
        invariant sources == map a | a in before && (a in todo || !Stale(before[a], now)) :: before[a]
        decreases todo
      {
        Inhabited(todo);
        var a :| a in todo;
        todo := todo - {a};
        if Stale(sources[a], now) {
          sources := sources - {a};
        }
      }
    }

    /** Find the record of a source, or make one, pruning only when there is no room. */
    method Track(a: Address, now: Time) returns (tracked: bool)
      modifies `sources
      ensures tracked <==> Tracked(old(View()), a, now, caps).Some?
      ensures tracked ==> View() == Tracked(old(View()), a, now, caps).value && a in sources
      ensures !tracked ==> View() == Gate(Pruned(old(sources), now), activeConnections) && a !in old(sources) && |old(sources)| >= caps.tracked
    {
      if a !in sources {
        if |sources| >= caps.tracked {
          PruneSources(now);
        }
        if |sources| >= caps.tracked {
          return false;
        }
        sources := sources[a := Source(now, 0, 0)];
      }
      return true;
    }

    method AcquireConnection(a: Address, now: Time) returns (verdict: Verdict)
      modifies `sources, `activeConnections
      ensures View() == Acquire(old(View()), a, now, caps).0
      ensures verdict == Acquire(old(View()), a, now, caps).1
    {
      ghost var before := View();
      var tracked := Track(a, now);
      if !tracked {
        assert Acquire(before, a, now, caps) == (View(), Full);
        assert before == old(View());
        return Full;
      }
      var current := sources[a];
      if now < current.start || now >= current.start + WINDOW {
        current := current.(start := now, attempts := 0);
      }
      sources := sources[a := current];
      if current.attempts >= caps.perMinute {
        return TooFast;
      }
      current := current.(attempts := current.attempts + 1);
      sources := sources[a := current];
      if current.active >= caps.perSource || activeConnections >= caps.total {
        return Full;
      }
      sources := sources[a := current.(active := current.active + 1)];
      activeConnections := activeConnections + 1;
      return Admitted;
    }

    method ReleaseConnection(a: Address, now: Time)
      modifies `sources, `activeConnections
      ensures View() == Release(old(View()), a, now)
    {
      if a !in sources || sources[a].active <= 0 || activeConnections <= 0 {
        return;
      }
      var current := sources[a].(active := sources[a].active - 1);
      sources := sources[a := current];
      activeConnections := activeConnections - 1;
      if current.active == 0 && now >= current.start + WINDOW {
        sources := sources - {a};
      }
    }
  }

  /** What a connection holds; however often it is released, the controller hears of it once. */
  class ConnectionLease {
    const controller: AdmissionController
    const source: Address
    var done: bool

    constructor (controller: AdmissionController, source: Address)
      ensures !done && this.controller == controller && this.source == source
    {
      this.controller, this.source, done := controller, source, false;
    }

    method Give(now: Time)
      modifies this, controller
      ensures done
      ensures controller.View() == if old(done) then old(controller.View()) else Release(old(controller.View()), source, now)
    {
      if done {
        return;
      }
      done := true;
      controller.ReleaseConnection(source, now);
    }
  }
}
