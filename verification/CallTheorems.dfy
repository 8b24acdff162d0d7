/** What holds of the calls of a home over every run. */
module CallTheorems {
  import opened Basics
  import opened HomeModel
  import opened Calls
  import opened CallTables
  import opened CallBooks

  ghost predicate RouterInv(r: Router, bounds: Bounds) {
    TableInv(r, bounds) && Books(r, bounds)
  }

  lemma LiveIsArmed(r: Router, n: nat, bounds: Bounds)
    requires TableInv(r, bounds) && n < |r.routes|
    ensures Known(r, n) && (!r.routes[n].terminal ==> r.routes[n].accepted)
  {
    assert Armed(r.routes[n]);
  }

  lemma LoggedKeeps(r: Router, r': Router, bounds: Bounds)
    requires TableInv(r, bounds)
    requires r' == r.(log := r'.log, expiring := r'.expiring, warned := r'.warned, cut := r'.cut)
    ensures TableInv(r', bounds)
  {
  }

  lemma TakenCallKeeps(r: Router, s: Session, q: Request, calleeID: int, bounds: Bounds)
    requires RouterInv(r, bounds) && s in r.tables && q.target.Some? && q.target.value in r.tables
    requires q.taken && 0 <= q.credit <= bounds.credit
    requires var route := Opened(s, q, calleeID, true);
             Enters(r, route, bounds) && NextInLine(r, route) && Attended(route, r.roles, r.present)
    ensures RouterInv(Placed(r, s, q, calleeID).0, bounds)
  {
    if q.remaining && q.routable {
      var route := Opened(s, q, calleeID, true);
      var n := |r.routes|;
      RegisterKeeps(r, route, bounds);
      PlaceBooks(r, route, r.routes + [route], bounds);
      var placed := ToCallee(Register(r, route), n, Dispatch(calleeID, q.credit));
      LoggedKeeps(Register(r, route), placed, bounds);
      SameBooks(r.(routes := placed.routes, log := placed.log), placed, bounds);
      AcceptBooks(placed, n, bounds);
      LoggedKeeps(placed, ToCaller(placed, n, Accepted(q.callerID)), bounds);
    }
  }

  lemma UntakenCallKeeps(r: Router, s: Session, q: Request, calleeID: int, bounds: Bounds)
    requires RouterInv(r, bounds) && s in r.tables && q.target.Some? && q.target.value in r.tables
    requires !q.taken && 0 <= q.credit <= bounds.credit
    requires var route := Opened(s, q, calleeID, false); Enters(r, route, bounds) && NextInLine(r, route)
    ensures RouterInv(Placed(r, s, q, calleeID).0, bounds)
  {
    if q.remaining && q.routable {
      var route := Opened(s, q, calleeID, false);
      var n := |r.routes|;
      var over := route.(terminal := true, timer := false);
      RegisterThenRemove(r, route, bounds);
      EndedRouteKeeps(r, over, bounds);
      PlaceBooks(r, over, r.routes + [over], bounds);
      var r' := Placed(r, s, q, calleeID).0;
      assert r' == r.(routes := r.routes + [over], log := r.log + [Sent(route.callee, Dispatch(calleeID, q.credit), n)]);
      LoggedKeeps(r.(routes := r.routes + [over]), r', bounds);
    }
  }

  lemma StartCallKeeps(r: Router, s: Session, q: Request, calleeID: int, bounds: Bounds)
    requires RouterInv(r, bounds) && CallEnabled(r, s, Calling(q, calleeID), bounds)
    ensures RouterInv(StartCall(r, s, q, calleeID, bounds).0, bounds)
  {
    if !Guarded(r, s, q.guard) && q.callerID !in r.tables[s].calls && |r.tables[s].calls| < bounds.inflight
       && q.target.Some? && |r.tables[q.target.value].calls| < bounds.inflight
    {
      var callee := q.target.value;
      AllocatesFresh(r.tables[callee], calleeID);
      AllocatedKeeps(r, callee, calleeID, bounds);
      var r1 := Allocated(r, callee, calleeID);
      assert Books(r1, bounds) by {
        forall n: nat | n < |r1.routes| ensures RouteBooks(r1, n, bounds) {
          assert RouteBooks(r, n, bounds);
        }
      }
      if q.taken {
        TakenCallKeeps(r1, s, q, calleeID, bounds);
      } else {
        UntakenCallKeeps(r1, s, q, calleeID, bounds);
      }
    }
  }

  lemma EndKeeps(r: Router, n: nat, f: CallFrame, bounds: Bounds)
    requires RouterInv(r, bounds) && Known(r, n) && !r.routes[n].terminal && f.id == r.routes[n].callerID
    requires f.Final? || f.Rejected? || (f.Failure? && f.code == OUTCOME_UNKNOWN)
    ensures RouterInv(ToCaller(RemoveRoute(r, n), n, f), bounds)
  {
    LiveIsArmed(r, n, bounds);
    EndBooks(r, n, f, bounds);
    RemoveKeeps(r, n, bounds);
    LoggedKeeps(RemoveRoute(r, n), ToCaller(RemoveRoute(r, n), n, f), bounds);
  }

  lemma CancelledKeeps(r: Router, n: nat, code: int, bounds: Bounds)
    requires RouterInv(r, bounds) && Known(r, n)
    ensures RouterInv(ToCallee(r, n, Cancel(r.routes[n].calleeID, code)), bounds)
  {
    CancelBooks(r, n, code, bounds);
    LoggedKeeps(r, ToCallee(r, n, Cancel(r.routes[n].calleeID, code)), bounds);
  }

  lemma ResultKeeps(r: Router, s: Session, id: int, final: bool, guard: Outcome, routable: bool, taken: bool, bounds: Bounds)
    requires RouterInv(r, bounds) && s in r.tables && s in r.roles
    ensures RouterInv(ForwardResult(r, s, id, final, guard, routable, taken).0, bounds)
  {
    if !Guarded(r, s, guard) && Serves(r, s, id) {
      var n := r.tables[s].calls[id];
      var route := r.routes[n];
      if final {
        EndKeeps(r, n, Final(route.callerID), bounds);
      } else if route.credit != 0 {
        var spent := route.(credit := route.credit - 1);
        ChunkBooks(r, n, bounds);
        CreditKeeps(r, n, spent, bounds);
        LoggedKeeps(r.(routes := r.routes[n := spent]), ToCaller(r.(routes := r.routes[n := spent]), n, Chunk(route.callerID)), bounds);
      }
    }
  }

  lemma GrantTables(r: Router, n: nat, additional: int, bounds: Bounds)
    requires TableInv(r, bounds) && Known(r, n)
    ensures TableInv(Granted(r, n, additional), bounds)
  {
    var route := r.routes[n].(credit := r.routes[n].credit + additional);
    var r1 := r.(routes := r.routes[n := route]);
    CreditKeeps(r, n, route, bounds);
    var granted := Granted(r, n, additional);
    assert granted == r1.(log := granted.log);
    LoggedKeeps(r1, granted, bounds);
  }

  lemma GrantKeeps(r: Router, n: nat, additional: int, bounds: Bounds)
    requires RouterInv(r, bounds) && Known(r, n) && additional >= 0 && r.routes[n].credit + additional <= bounds.credit
    ensures RouterInv(Granted(r, n, additional), bounds)
  {
    GrantBooks(r, n, additional, bounds);
    GrantTables(r, n, additional, bounds);
  }

  lemma CreditGrants(r: Router, s: Session, id: int, additional: int, guard: Outcome, taken: bool, bounds: Bounds)
    requires s in r.tables && s in r.roles && !Guarded(r, s, guard) && Originates(r, s, id)
    ensures var n := r.tables[s].calls[id];
            CreditCall(r, s, id, additional, guard, taken, bounds).0
            == if r.routes[n].credit + additional > bounds.credit then r else Granted(r, n, additional)
  {
  }

  lemma CreditCallKeeps(r: Router, s: Session, id: int, additional: int, guard: Outcome, taken: bool, bounds: Bounds)
    requires RouterInv(r, bounds) && s in r.tables && s in r.roles && additional >= 0
    ensures RouterInv(CreditCall(r, s, id, additional, guard, taken, bounds).0, bounds)
  {
    if !Guarded(r, s, guard) && Originates(r, s, id) {
      var n := r.tables[s].calls[id];
      CreditGrants(r, s, id, additional, guard, taken, bounds);
      if r.routes[n].credit + additional <= bounds.credit {
        GrantKeeps(r, n, additional, bounds);
      }
    }
  }

  lemma CancelCallKeeps(r: Router, s: Session, id: int, reason: int, guard: Outcome, answered: bool, bounds: Bounds)
    requires RouterInv(r, bounds) && s in r.tables && s in r.roles
    ensures RouterInv(CancelCall(r, s, id, reason, guard, answered).0, bounds)
  {
    if !Guarded(r, s, guard) && Originates(r, s, id) {
      var n := r.tables[s].calls[id];
      LiveIsArmed(r, n, bounds);
      CancelledKeeps(r, n, reason, bounds);
      EndKeeps(ToCallee(r, n, Cancel(r.routes[n].calleeID, reason)), n, Failure(id, OUTCOME_UNKNOWN), bounds);
    }
  }

  lemma ExpireKeeps(r: Router, n: nat, bounds: Bounds)
    requires RouterInv(r, bounds) && Known(r, n) && r.routes[n].accepted
    ensures RouterInv(ExpireCall(r, n), bounds)
  {
    ExpireBooks(r, n, bounds);
    RemoveKeeps(r, n, bounds);
    if !r.routes[n].terminal {
      LoggedKeeps(RemoveRoute(r, n), ExpireCall(r, n), bounds);
    }
  }

  lemma WarnKeeps(r: Router, n: nat, bounds: Bounds)
    requires RouterInv(r, bounds) && Known(r, n)
    ensures RouterInv(WarnCallee(r, n), bounds)
  {
    var warned := r.(warned := r.warned + {n});
    LoggedKeeps(r, warned, bounds);
    SameBooks(r, warned, bounds);
    CancelledKeeps(warned, n, DEADLINE_EXCEEDED, bounds);
  }

  lemma TellKeeps(r: Router, n: nat, bounds: Bounds)
    requires RouterInv(r, bounds) && Known(r, n) && n in r.expiring
    ensures RouterInv(TellCaller(r, n), bounds)
  {
    TellBooks(r, n, bounds);
    LoggedKeeps(r, TellCaller(r, n), bounds);
  }

  lemma TerminateOneBooks(r: Router, s: Session, n: nat, bounds: Bounds)
    requires RouterInv(r, bounds) && Known(r, n)
    ensures Books(TerminateOne(r, s, n), bounds)
  {
    LiveIsArmed(r, n, bounds);
    var route := r.routes[n];
    if !route.terminal && route.caller == s {
      CutBooks(r, n, bounds);
      var cut := RemoveRoute(r, n).(cut := r.cut + {n});
      CancelBooks(cut, n, OUTCOME_UNKNOWN, bounds);
      assert TerminateOne(r, s, n) == ToCallee(cut, n, Cancel(route.calleeID, OUTCOME_UNKNOWN));
    } else if !route.terminal {
      EndBooks(r, n, Failure(route.callerID, OUTCOME_UNKNOWN), bounds);
    }
  }

  lemma {:induction false} TerminateBooks(r: Router, s: Session, order: seq<nat>, bounds: Bounds)
    requires RouterInv(r, bounds) && AllKnown(r, order)
    ensures Books(Terminate(r, s, order), bounds)
  {
    if order != [] {
      var before := order[..|order| - 1];
      TerminateBooks(r, s, before, bounds);
      TerminateKeeps(r, s, before, bounds);
      TerminateOneBooks(Terminate(r, s, before), s, order[|order| - 1], bounds);
    }
  }

  lemma SameBooks(r: Router, r': Router, bounds: Bounds)
    requires Books(r, bounds)
    requires r'.routes == r.routes && r'.log == r.log && r'.expiring == r.expiring && r'.cut == r.cut
    ensures Books(r', bounds)
  {
    forall n: nat | n < |r'.routes| ensures RouteBooks(r', n, bounds) {
      assert RouteBooks(r, n, bounds);
    }
  }

  lemma DepartingKeeps(r: Router, s: Session, order: seq<nat>, bounds: Bounds)
    requires RouterInv(r, bounds) && CallEnabled(r, s, Departing(order), bounds)
    ensures RouterInv(Depart(r, s, order), bounds)
  {
    DepartKeeps(r, s, order, bounds);
    TerminateBooks(r, s, order, bounds);
    SameBooks(Terminate(r, s, order), Depart(r, s, order), bounds);
  }

  /** Every step of the router keeps both tables of every route and all of its accounts. */
  lemma CallStepKeeps(r: Router, s: Session, l: CallLabel, bounds: Bounds)
    requires RouterInv(r, bounds) && CallEnabled(r, s, l, bounds) && bounds.inflight >= 0
    ensures RouterInv(CallStep(r, s, l, bounds), bounds)
  {
    match l
    case Arriving(role) => ArriveKeeps(r, s, role, bounds); SameBooks(r, Arrive(r, s, role), bounds);
    case Departing(order) => DepartingKeeps(r, s, order, bounds);
    case Calling(q, calleeID) => StartCallKeeps(r, s, q, calleeID, bounds);
    case Resulting(id, final, guard, routable, taken) => ResultKeeps(r, s, id, final, guard, routable, taken, bounds);
    case Failing(id, guard, routable, taken) =>
      if !Guarded(r, s, guard) && Serves(r, s, id) && routable {
        EndKeeps(r, r.tables[s].calls[id], Rejected(r.routes[r.tables[s].calls[id]].callerID), bounds);
      }
    case Cancelling(id, reason, guard, answered) => CancelCallKeeps(r, s, id, reason, guard, answered, bounds);
    case Crediting(id, additional, guard, taken) => CreditCallKeeps(r, s, id, additional, guard, taken, bounds);
    case Expiring(n) => ExpireKeeps(r, n, bounds);
    case Warning(n) => WarnKeeps(r, n, bounds);
    case Telling(n) => TellKeeps(r, n, bounds);
  }

  // ---------- runs ----------

  lemma StartRouter(bounds: Bounds)
    ensures RouterInv(NewRouter(), bounds)
  {
  }

  lemma {:induction false} RunKeepsRouter(rs: seq<Router>, bounds: Bounds, i: int)
    requires CallRun(rs, bounds) && 0 <= i < |rs|
    ensures RouterInv(rs[i], bounds)
    decreases i
  {
    if i == 0 {
      StartRouter(bounds);
    } else {
      RunKeepsRouter(rs, bounds, i - 1);
      assert CallStepsTo(rs, bounds, i);
      var s, l :| CallEnabled(rs[i - 1], s, l, bounds) && rs[i] == CallStep(rs[i - 1], s, l, bounds);
      CallStepKeeps(rs[i - 1], s, l, bounds);
    }
  }

  /**
   Exactly one end: an accepted route that is over has told its caller once, or its deadline is
   about to, or it was cut by its caller's own departure; a live one has a timer and has told nothing.
   */
  lemma ExactlyOneEnd(rs: seq<Router>, bounds: Bounds, i: int, n: nat)
    requires CallRun(rs, bounds) && 0 <= i < |rs| && n < |rs[i].routes|
    ensures var r := rs[i];
            var route := r.routes[n];
            && (!route.terminal ==> route.accepted && route.timer && Total(Ends, r.log, n) == 0 && n !in r.expiring && n !in r.cut)
            && (route.terminal ==> !route.timer)
            && (route.terminal && route.accepted ==>
              || (Total(Ends, r.log, n) == 1 && n !in r.expiring && n !in r.cut)
              || (Total(Ends, r.log, n) == 0 && (n in r.expiring <==> n !in r.cut)))
            && (route.terminal && !route.accepted ==> Total(Ends, r.log, n) == 0)
  {
    RunKeepsRouter(rs, bounds, i);
    LiveIsArmed(rs[i], n, bounds);
    assert Armed(rs[i].routes[n]) && RouteBooks(rs[i], n, bounds);
    NoNegativeEnds(rs[i].log, n);
  }

  /** Every frame goes to the right end under that end's own ID, and the relay itself ends calls only with OUTCOME_UNKNOWN. */
  lemma FramesAreFaithful(rs: seq<Router>, bounds: Bounds, i: int, k: int)
    requires CallRun(rs, bounds) && 0 <= i < |rs| && 0 <= k < |rs[i].log|
    ensures Faithful(rs[i].routes, rs[i].log[k])
  {
    RunKeepsRouter(rs, bounds, i);
  }

  lemma CreditIsConserved(rs: seq<Router>, bounds: Bounds, i: int, n: nat)
    requires CallRun(rs, bounds) && 0 <= i < |rs| && n < |rs[i].routes|
    ensures 0 <= rs[i].routes[n].credit <= bounds.credit
    ensures rs[i].routes[n].credit == Total(Told, rs[i].log, n) - Total(Used, rs[i].log, n)
  {
    RunKeepsRouter(rs, bounds, i);
    assert RouteBooks(rs[i], n, bounds);
  }

  /** Live routes and table entries correspond one to one at either end, and tables stay small. */
  lemma TablesCorrespond(rs: seq<Router>, bounds: Bounds, i: int)
    requires CallRun(rs, bounds) && 0 <= i < |rs|
    ensures Entries(rs[i].routes, rs[i].tables) && LivePlaced(rs[i].routes, rs[i].tables) && SizesOK(rs[i].tables, bounds)
    ensures forall n: nat, m: nat :: n < |rs[i].routes| && m < |rs[i].routes| && n != m && !rs[i].routes[n].terminal && !rs[i].routes[m].terminal ==>
      && (rs[i].routes[n].caller, rs[i].routes[n].callerID) != (rs[i].routes[m].caller, rs[i].routes[m].callerID)
      && (rs[i].routes[n].callee, rs[i].routes[n].calleeID) != (rs[i].routes[m].callee, rs[i].routes[m].calleeID)
  {
    RunKeepsRouter(rs, bounds, i);
    var r := rs[i];
    forall n: nat, m: nat | n < |r.routes| && m < |r.routes| && n != m && !r.routes[n].terminal && !r.routes[m].terminal
      ensures (r.routes[n].caller, r.routes[n].callerID) != (r.routes[m].caller, r.routes[m].callerID)
      ensures (r.routes[n].callee, r.routes[n].calleeID) != (r.routes[m].callee, r.routes[m].calleeID)
    {
      assert InBothTables(r.tables, r.routes[n], n) && InBothTables(r.tables, r.routes[m], m);
    }
  }

  /** Until the callee's counter goes round, a result can only match the one route ever given its ID. */
  lemma LateResultMatchesNoOther(rs: seq<Router>, bounds: Bounds, i: int, s: Session, id: int, m: nat)
    requires CallRun(rs, bounds) && 0 <= i < |rs|
    requires Serves(rs[i], s, id) && !rs[i].tables[s].wrapped
    requires m < |rs[i].routes| && rs[i].routes[m].callee == s && rs[i].routes[m].calleeID == id
    ensures m == rs[i].tables[s].calls[id]
  {
    RunKeepsRouter(rs, bounds, i);
    assert Numbered(rs[i].routes, s, rs[i].tables[s]);
  }

  // ---------- the end is final ----------

  /** Route `n` keeps its ends; once over it stays over, and sends no further chunk. */
  ghost predicate Onward(r: Router, r': Router, n: nat) {
    n < |r.routes| ==>
      && n < |r'.routes|
      && r'.routes[n] == r.routes[n].(credit := r'.routes[n].credit, terminal := r'.routes[n].terminal, timer := r'.routes[n].timer)
      && (r.routes[n].terminal ==> r'.routes[n].terminal && Total(Used, r'.log, n) == Total(Used, r.log, n))
  }

  lemma TerminateOneOnward(r: Router, s: Session, m: nat, n: nat)
    requires Known(r, m)
    ensures Onward(r, TerminateOne(r, s, m), n)
  {
    TalliesOneMore(r.log, Sent(r.routes[m].callee, Cancel(r.routes[m].calleeID, OUTCOME_UNKNOWN), m), n);
    TalliesOneMore(r.log, Sent(r.routes[m].caller, Failure(r.routes[m].callerID, OUTCOME_UNKNOWN), m), n);
  }

  lemma {:induction false} TerminateOnward(r: Router, s: Session, order: seq<nat>, n: nat)
    requires AllKnown(r, order)
    ensures Onward(r, Terminate(r, s, order), n)
  {
    if order != [] {
      TerminateOnward(r, s, order[..|order| - 1], n);
      TerminateOneOnward(Terminate(r, s, order[..|order| - 1]), s, order[|order| - 1], n);
    }
  }

  lemma PlacedOnward(r: Router, s: Session, q: Request, calleeID: int, n: nat)
    requires s in r.tables && q.target.Some? && q.target.value in r.tables
    ensures Onward(r, Placed(r, s, q, calleeID).0, n)
  {
    var m := |r.routes|;
    var dispatched := r.log + [Sent(q.target.value, Dispatch(calleeID, q.credit), m)];
    TalliesOneMore(r.log, Sent(q.target.value, Dispatch(calleeID, q.credit), m), n);
    TalliesOneMore(dispatched, Sent(s, Accepted(q.callerID), m), n);
  }

  lemma ResultOnward(r: Router, s: Session, id: int, final: bool, guard: Outcome, routable: bool, taken: bool, n: nat)
    requires s in r.tables && s in r.roles
    ensures Onward(r, ForwardResult(r, s, id, final, guard, routable, taken).0, n)
  {
    if Serves(r, s, id) {
      var m := r.tables[s].calls[id];
      TalliesOneMore(r.log, Sent(r.routes[m].caller, Final(r.routes[m].callerID), m), n);
      TalliesOneMore(r.log, Sent(r.routes[m].caller, Chunk(r.routes[m].callerID), m), n);
    }
  }

  lemma ErrorOnward(r: Router, s: Session, id: int, guard: Outcome, routable: bool, taken: bool, n: nat)
    requires s in r.tables && s in r.roles
    ensures Onward(r, ForwardError(r, s, id, guard, routable, taken).0, n)
  {
    if Serves(r, s, id) {
      var m := r.tables[s].calls[id];
      TalliesOneMore(r.log, Sent(r.routes[m].caller, Rejected(r.routes[m].callerID), m), n);
    }
  }

  lemma CancelOnward(r: Router, s: Session, id: int, reason: int, guard: Outcome, answered: bool, n: nat)
    requires s in r.tables && s in r.roles
    ensures Onward(r, CancelCall(r, s, id, reason, guard, answered).0, n)
  {
    if Originates(r, s, id) {
      var m := r.tables[s].calls[id];
      var e := Sent(r.routes[m].callee, Cancel(r.routes[m].calleeID, reason), m);
      TalliesOneMore(r.log, e, n);
      TalliesOneMore(r.log + [e], Sent(s, Failure(id, OUTCOME_UNKNOWN), m), n);
      TalliesOneMore(r.log, Sent(s, Failure(id, CANCELLED), m), n);
    }
  }

  lemma CreditOnward(r: Router, s: Session, id: int, additional: int, guard: Outcome, taken: bool, bounds: Bounds, n: nat)
    requires s in r.tables && s in r.roles
    ensures Onward(r, CreditCall(r, s, id, additional, guard, taken, bounds).0, n)
  {
    if Originates(r, s, id) {
      var m := r.tables[s].calls[id];
      TalliesOneMore(r.log, Sent(r.routes[m].callee, Grant(r.routes[m].calleeID, additional), m), n);
    }
  }

  lemma ExpiryOnward(r: Router, m: nat, n: nat)
    requires Known(r, m)
    ensures Onward(r, WarnCallee(r, m), n) && Onward(r, TellCaller(r, m), n)
  {
    var route := r.routes[m];
    TalliesOneMore(r.log, Sent(route.callee, Cancel(route.calleeID, DEADLINE_EXCEEDED), m), n);
    TalliesOneMore(r.log, Sent(route.caller, Failure(route.callerID, OUTCOME_UNKNOWN), m), n);
    TalliesOneMore(r.log, Sent(route.caller, Failure(route.callerID, DEADLINE_EXCEEDED), m), n);
  }

  lemma CallOnward(r: Router, s: Session, q: Request, calleeID: int, bounds: Bounds, n: nat)
    requires s in r.tables && s in r.roles && (q.target.Some? ==> q.target.value in r.tables)
    ensures Onward(r, StartCall(r, s, q, calleeID, bounds).0, n)
  {
    if q.target.Some? {
      var r1 := Allocated(r, q.target.value, calleeID);
      PlacedOnward(r1, s, q, calleeID, n);
      assert r1.routes == r.routes && r1.log == r.log;
    }
  }

  lemma StepOnward(r: Router, s: Session, l: CallLabel, bounds: Bounds, n: nat)
    requires CallEnabled(r, s, l, bounds)
    ensures Onward(r, CallStep(r, s, l, bounds), n)
  {
    match l
    case Arriving(role) =>
    case Departing(order) => TerminateOnward(r, s, order, n);
    case Calling(q, calleeID) => CallOnward(r, s, q, calleeID, bounds, n);
    case Resulting(id, final, guard, routable, taken) => ResultOnward(r, s, id, final, guard, routable, taken, n);
    case Failing(id, guard, routable, taken) => ErrorOnward(r, s, id, guard, routable, taken, n);
    case Cancelling(id, reason, guard, answered) => CancelOnward(r, s, id, reason, guard, answered, n);
    case Crediting(id, additional, guard, taken) => CreditOnward(r, s, id, additional, guard, taken, bounds, n);
    case Expiring(m) =>
    case Warning(m) => ExpiryOnward(r, m, n);
    case Telling(m) => ExpiryOnward(r, m, n);
  }

  /** Along a run a route keeps its ends, its end is final, and no chunk of it follows the end. */
  lemma {:induction false} NoChunkAfterTheEnd(rs: seq<Router>, bounds: Bounds, i: int, j: int, n: nat)
    requires CallRun(rs, bounds) && 0 <= i <= j < |rs| && n < |rs[i].routes|
    ensures Onward(rs[i], rs[j], n)
    decreases j
  {
    if i < j {
      NoChunkAfterTheEnd(rs, bounds, i, j - 1, n);
      assert CallStepsTo(rs, bounds, j);
      var s, l :| CallEnabled(rs[j - 1], s, l, bounds) && rs[j] == CallStep(rs[j - 1], s, l, bounds);
      StepOnward(rs[j - 1], s, l, bounds, n);
    }
  }

  // ---------- a self-call overfills its table ----------

  /** No table holds more calls than the limit. */
  ghost predicate WithinLimit(r: Router, bounds: Bounds) {
    forall s :: s in r.tables ==> |r.tables[s].calls| <= bounds.inflight
  }

  /** A connection with room for one more call calls itself: the call enters its table twice. */
  predicate Overfills(r: Router, s: Session, q: Request, calleeID: int, bounds: Bounds)
    requires s in r.tables && s in r.roles
  {
    && q.target == Some(s) && !Guarded(r, s, q.guard)
    && q.callerID !in r.tables[s].calls && |r.tables[s].calls| == bounds.inflight - 1
    && q.remaining && q.routable && q.taken && q.callerID != calleeID
  }

  lemma PlacedSizes(r: Router, s: Session, q: Request, calleeID: int, t: Session)
    requires s in r.tables && q.target.Some? && q.target.value in r.tables && t in r.tables
    requires q.callerID !in r.tables[s].calls && calleeID !in r.tables[q.target.value].calls
    ensures var r' := Placed(r, s, q, calleeID).0;
            t in r'.tables &&
            |r'.tables[t].calls| ==
            if !(q.remaining && q.routable && q.taken) then |r.tables[t].calls|
            else |r.tables[t].calls| + (if t == s || t == q.target.value then 1 else 0)
                 + (if t == s && s == q.target.value && q.callerID != calleeID then 1 else 0)
  {
    if q.remaining && q.routable && !q.taken {
      EnterThenLeave(r.tables, Opened(s, q, calleeID, false), |r.routes|);
    }
  }

  /** An accepted call takes some table over the limit exactly when it is a self-call with one entry to spare. */
  lemma OverLimitIffSelfCall(r: Router, s: Session, q: Request, calleeID: int, bounds: Bounds)
    requires s in r.tables && s in r.roles && WithinLimit(r, bounds)
    requires q.target.Some? ==> q.target.value in r.tables && calleeID !in r.tables[q.target.value].calls
    ensures !WithinLimit(StartCall(r, s, q, calleeID, bounds).0, bounds) <==> Overfills(r, s, q, calleeID, bounds)
    ensures Overfills(r, s, q, calleeID, bounds) ==>
              var r' := StartCall(r, s, q, calleeID, bounds).0; s in r'.tables && |r'.tables[s].calls| == bounds.inflight + 1
  {
    if !Guarded(r, s, q.guard) && q.callerID !in r.tables[s].calls && |r.tables[s].calls| < bounds.inflight
       && q.target.Some? && |r.tables[q.target.value].calls| < bounds.inflight
    {
      var r1 := Allocated(r, q.target.value, calleeID);
      forall t | t in r.tables
        ensures t in Placed(r1, s, q, calleeID).0.tables
        ensures |Placed(r1, s, q, calleeID).0.tables[t].calls| <= bounds.inflight
                || (t == s && Overfills(r, s, q, calleeID, bounds))
      {
        PlacedSizes(r1, s, q, calleeID, t);
      }
      PlacedSizes(r1, s, q, calleeID, s);
    }
  }

  predicate SelfCall(s: Session, l: CallLabel) {
    l.Calling? && l.q.target == Some(s)
  }

  ghost predicate Narrower(r: Router, r': Router) {
    r'.tables.Keys == r.tables.Keys && forall t :: t in r.tables ==> |r'.tables[t].calls| <= |r.tables[t].calls|
  }

  lemma RemoveNarrows(r: Router, n: nat)
    requires Known(r, n)
    ensures Narrower(r, RemoveRoute(r, n))
  {
    if !r.routes[n].terminal {
      var route := r.routes[n];
      var left := Left(r.tables, route.caller, route.callerID);
      FewerEntries(r.tables[route.caller].calls, route.callerID);
      FewerEntries(left[route.callee].calls, route.calleeID);
    }
  }

  lemma TerminateOneNarrows(r: Router, s: Session, n: nat)
    requires Known(r, n)
    ensures Narrower(r, TerminateOne(r, s, n))
  {
    RemoveNarrows(r, n);
  }

  lemma NarrowerTransitive(a: Router, b: Router, c: Router)
    requires Narrower(a, b) && Narrower(b, c)
    ensures Narrower(a, c)
  {
  }

  lemma {:induction false} TerminateNarrows(r: Router, s: Session, order: seq<nat>)
    requires AllKnown(r, order)
    ensures Narrower(r, Terminate(r, s, order))
  {
    if order != [] {
      var mid := Terminate(r, s, order[..|order| - 1]);
      TerminateNarrows(r, s, order[..|order| - 1]);
      TerminateOneNarrows(mid, s, order[|order| - 1]);
      NarrowerTransitive(r, mid, TerminateOne(mid, s, order[|order| - 1]));
    }
  }

  lemma StepStaysWithin(r: Router, s: Session, l: CallLabel, bounds: Bounds)
    requires CallEnabled(r, s, l, bounds) && bounds.inflight >= 0
    requires WithinLimit(r, bounds) && !SelfCall(s, l)
    ensures WithinLimit(CallStep(r, s, l, bounds), bounds)
  {
    match l
    case Departing(order) => TerminateNarrows(r, s, order);
    case Calling(q, calleeID) =>
      if q.target.Some? {
        AllocatesFresh(r.tables[q.target.value], calleeID);
      }
      OverLimitIffSelfCall(r, s, q, calleeID, bounds);
    case Resulting(id, _, _, _, _) => if Serves(r, s, id) { RemoveNarrows(r, r.tables[s].calls[id]); }
    case Failing(id, _, _, _) => if Serves(r, s, id) { RemoveNarrows(r, r.tables[s].calls[id]); }
    case Cancelling(id, reason, _, _) =>
      if Originates(r, s, id) {
        var n := r.tables[s].calls[id];
        RemoveNarrows(r, n);
        RemoveNarrows(ToCallee(r, n, Cancel(r.routes[n].calleeID, reason)), n);
      }
    case Expiring(n) => RemoveNarrows(r, n);
    case _ =>
  }

  ghost predicate OutwardSteps(r: Router, r': Router, bounds: Bounds) {
    exists s, l :: CallEnabled(r, s, l, bounds) && !SelfCall(s, l) && r' == CallStep(r, s, l, bounds)
  }

  ghost predicate OutwardStepsTo(rs: seq<Router>, bounds: Bounds, i: int)
    requires 0 < i < |rs|
  {
    OutwardSteps(rs[i - 1], rs[i], bounds)
  }

  /** A run in which no connection calls itself. */
  ghost predicate OutwardRun(rs: seq<Router>, bounds: Bounds) {
    && rs != [] && rs[0] == NewRouter() && bounds.inflight >= 0
    && (forall i :: 0 < i < |rs| ==> OutwardStepsTo(rs, bounds, i))
  }

  /** Without self-calls every table stays within the limit. */
  lemma {:induction false} OutwardRunsStayWithin(rs: seq<Router>, bounds: Bounds, i: int)
    requires OutwardRun(rs, bounds) && 0 <= i < |rs|
    ensures WithinLimit(rs[i], bounds)
    decreases i
  {
    if i > 0 {
      OutwardRunsStayWithin(rs, bounds, i - 1);
      assert OutwardStepsTo(rs, bounds, i);
      var s, l :| CallEnabled(rs[i - 1], s, l, bounds) && !SelfCall(s, l) && rs[i] == CallStep(rs[i - 1], s, l, bounds);
      StepStaysWithin(rs[i - 1], s, l, bounds);
    }
  }

  /** With a limit of one: a coordinator arrives and calls itself. */
  function OverfullRun(): seq<Router> {
    var q := Request(7, 0, Ok, Some(0), Ok, true, true, true, true);
    var r := Arrive(NewRouter(), 0, Coordinator);
    [NewRouter(), r, StartCall(r, 0, q, 1, Bounds(1, 0)).0]
  }

  lemma OverfullRunSteps()
    ensures CallStepsTo(OverfullRun(), Bounds(1, 0), 1) && CallStepsTo(OverfullRun(), Bounds(1, 0), 2)
  {
    var bounds := Bounds(1, 0);
    var q := Request(7, 0, Ok, Some(0), Ok, true, true, true, true);
    var rs := OverfullRun();
    assert Cyclic(0, 1) == 1;
    assert Allocates(rs[1].tables[0], 1);
    assert CallEnabled(rs[0], 0, Arriving(Coordinator), bounds) && rs[1] == CallStep(rs[0], 0, Arriving(Coordinator), bounds);
    assert CallEnabled(rs[1], 0, Calling(q, 1), bounds) && rs[2] == CallStep(rs[1], 0, Calling(q, 1), bounds);
  }

  /** So one more entry than the limit is reached from the start. */
  lemma OverfullTableIsReachable()
    ensures CallRun(OverfullRun(), Bounds(1, 0))
    ensures var rs := OverfullRun(); 0 in rs[2].tables && |rs[2].tables[0].calls| == Bounds(1, 0).inflight + 1
  {
    OverfullRunSteps();
    var q := Request(7, 0, Ok, Some(0), Ok, true, true, true, true);
    OverLimitIffSelfCall(OverfullRun()[1], 0, q, 1, Bounds(1, 0));
  }
}
