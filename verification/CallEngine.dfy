/** The call router as the relay keeps it: tables, routes and counters updated in place under the home lock. */
module CallEngine {
  import opened Basics
  import opened HomeModel
  import opened Calls
  import opened CallTables
  import opened CallBooks
  import opened CallTheorems

  /** Going round visits every ID once before it returns to the first. */
  lemma CyclicDiffers(next: int, j: nat, k: nat)
    requires 0 <= next <= LAST_CALL_ID && 1 <= j < k <= LAST_CALL_ID
    ensures Cyclic(next, j) != Cyclic(next, k)
  {
  }

  lemma CyclicStep(next: int, k: nat)
    requires 0 <= next <= LAST_CALL_ID
    ensures var last := if k == 0 then next else Cyclic(next, k);
            Cyclic(next, k + 1) == if last + 1 > LAST_CALL_ID then 1 else last + 1
  {
  }

  class CallRouter {
    const bounds: Bounds

    var routes: seq<Route>
    var tables: map<Session, Table>
    var roles: map<Session, Role>
    var present: set<Session>
    var expiring: set<nat>
    var warned: set<nat>
    ghost var cut: set<nat>
    var log: seq<Sent>

    ghost function View(): Router
      reads this
    {
      Router(routes, tables, roles, present, expiring, warned, cut, log)
    }

    ghost predicate Valid()
      reads this
    {
      RouterInv(View(), bounds) && 0 <= bounds.inflight < LAST_CALL_ID - 1 && bounds.credit >= 0
    }

    constructor (bounds: Bounds)
      requires 0 <= bounds.inflight < LAST_CALL_ID - 1 && bounds.credit >= 0
      ensures Valid() && View() == NewRouter() && this.bounds == bounds
    {
      this.bounds := bounds;
      routes, tables, roles, present := [], map[], map[], {};
      expiring, warned, cut, log := {}, {}, {}, [];
      new;
      StartRouter(bounds);
    }

    /** Count on from the last ID, go round at the end, and skip the IDs in use. */
    method AllocateCalleeCallID(callee: Session) returns (id: int)
      requires callee in tables && 0 <= tables[callee].next <= LAST_CALL_ID
      requires |tables[callee].calls| < LAST_CALL_ID
      modifies `tables
      ensures Allocates(old(tables)[callee], id)
      ensures View() == Allocated(old(View()), callee, id)
    {
      var table := tables[callee];
      id := table.next;
      ghost var k: nat := 0;
      ghost var visited: set<int> := {};
      while true
        invariant 0 <= k <= LAST_CALL_ID && 0 <= id <= LAST_CALL_ID
        invariant id == if k == 0 then table.next else Cyclic(table.next, k)
        invariant visited <= table.calls.Keys && |visited| == k
        invariant forall j :: 1 <= j <= k ==> Cyclic(table.next, j) in table.calls
        invariant forall i :: i in visited ==> exists j :: 1 <= j <= k && i == Cyclic(table.next, j)
        invariant tables == old(tables)
        decreases LAST_CALL_ID - k
      {
        SubsetSize(visited, table.calls.Keys);
        CyclicStep(table.next, k);
        id := id + 1;
        if id <= 0 || id > LAST_CALL_ID {
          id := 1;
        }
        if id !in table.calls {
          assert id == Cyclic(table.next, k + 1);
          break;
        }
        forall j | 1 <= j <= k ensures Cyclic(table.next, j) != id {
          CyclicDiffers(table.next, j, k + 1);
        }
        assert id !in visited;
        visited := visited + {id};
        k := k + 1;
      }
      tables := tables[callee := table.(next := id, wrapped := table.wrapped || id <= table.next)];
    }

    /** End a route once: flag it, stop its timer, and take it out of both tables. */
    method Remove(n: nat)
      requires Known(View(), n)
      modifies `routes, `tables
      ensures View() == RemoveRoute(old(View()), n)
    {
      var route := routes[n];
      if route.terminal {
        return;
      }
      routes := routes[n := route.(terminal := true, timer := false)];
      tables := tables[route.caller := tables[route.caller].(calls := tables[route.caller].calls - {route.callerID})];
      tables := tables[route.callee := tables[route.callee].(calls := tables[route.callee].calls - {route.calleeID})];
    }

    method Hand(to: Session, frame: CallFrame, n: nat)
      modifies `log
      ensures View() == Send(old(View()), to, frame, n)
    {
      log := log + [Sent(to, frame, n)];
    }

    method Arrive(s: Session, role: Role)
      requires Valid() && s !in tables
      modifies this
      ensures Valid() && View() == Calls.Arrive(old(View()), s, role)
    {
      ghost var before := View();
      tables, roles, present := tables[s := Table(map[], 0, false)], roles[s := role], present + {s};
      CallStepKeeps(before, s, Arriving(role), bounds);
    }

    // ---------- starting a call ----------

    /** Insert the route, dispatch it, and take it back if the callee's queue refuses. */
    method Place(s: Session, q: Request, calleeID: int) returns (outcome: Outcome)
      requires s in tables && q.target.Some? && q.target.value in tables
      modifies `routes, `tables, `log
      ensures (View(), outcome) == Placed(old(View()), s, q, calleeID)
    {
      if !q.remaining {
        return Refused(DEADLINE_EXCEEDED, false);
      }
      if !q.routable {
        return Refused(LIMIT_EXCEEDED, false);
      }
      var callee, n := q.target.value, |routes|;
      routes := routes + [Route(s, callee, q.callerID, calleeID, q.credit, q.taken, false, q.taken)];
      tables := tables[s := tables[s].(calls := tables[s].calls[q.callerID := n])];
      tables := tables[callee := tables[callee].(calls := tables[callee].calls[calleeID := n])];
      Hand(callee, Dispatch(calleeID, q.credit), n);
      if !q.taken {
        Remove(n);
        return Refused(UNAVAILABLE, true);
      }
      Hand(s, Accepted(q.callerID), n);
      outcome := if q.answered then Ok else Refused(SLOW_CONSUMER, true);
    }

    method TryCall(s: Session, q: Request) returns (calleeID: int, outcome: Outcome)
      requires s in tables && s in roles && (q.target.Some? ==> q.target.value in tables)
      requires forall t :: t in tables ==> 0 <= tables[t].next <= LAST_CALL_ID
      requires bounds.inflight < LAST_CALL_ID
      modifies `routes, `tables, `log
      ensures (View(), outcome) == Calls.StartCall(old(View()), s, q, calleeID, bounds)
      ensures calleeID != 0 ==> q.target.Some? && Allocates(old(tables)[q.target.value], calleeID)
      ensures calleeID == 0 ==> View() == old(View())
    {
      calleeID := 0;
      if roles[s].Coordinator? && q.guard != Ok {
        return calleeID, q.guard;
      }
      if q.callerID in tables[s].calls {
        return calleeID, Refused(DUPLICATE_REQUEST, false);
      }
      if |tables[s].calls| >= bounds.inflight {
        return calleeID, Refused(LIMIT_EXCEEDED, false);
      }
      if q.target.None? {
        return calleeID, q.refusal;
      }
      if |tables[q.target.value].calls| >= bounds.inflight {
        return calleeID, Refused(LIMIT_EXCEEDED, false);
      }
      calleeID := AllocateCalleeCallID(q.target.value);
      outcome := Place(s, q, calleeID);
    }

    lemma CountersInRange()
      requires Valid()
      ensures forall t :: t in tables ==> 0 <= tables[t].next <= LAST_CALL_ID
    {
      forall t | t in tables ensures 0 <= tables[t].next <= LAST_CALL_ID {
        assert Numbered(routes, t, tables[t]);
      }
    }

    method StartCall(s: Session, q: Request) returns (calleeID: int, outcome: Outcome)
      requires Valid() && GuardOK(View(), s, q.guard) && Callable(View(), q) && 0 <= q.credit <= bounds.credit
      modifies this
      ensures Valid()
      ensures (View(), outcome) == Calls.StartCall(old(View()), s, q, calleeID, bounds)
      ensures calleeID != 0 ==> q.target.Some? && Allocates(old(tables)[q.target.value], calleeID)
    {
      ghost var before := View();
      CountersInRange();
      calleeID, outcome := TryCall(s, q);
      if calleeID != 0 {
        CallStepKeeps(before, s, Calling(q, calleeID), bounds);
      }
    }

    // ---------- results, errors, cancellation, credit ----------

    method PassResult(s: Session, id: int, final: bool, guard: Outcome, routable: bool, taken: bool) returns (outcome: Outcome)
      requires s in tables && s in roles
      modifies `routes, `tables, `log
      ensures (View(), outcome) == Calls.ForwardResult(old(View()), s, id, final, guard, routable, taken)
    {
      if roles[s].Coordinator? && guard != Ok {
        return guard;
      }
      if !Serves(Snapshot(), s, id) {
        return Unserved(Snapshot(), s, id);
      }
      var n := tables[s].calls[id];
      var route := routes[n];
      if !final && route.credit == 0 {
        return Refused(LIMIT_EXCEEDED, false);
      }
      if !routable {
        return Refused(LIMIT_EXCEEDED, false);
      }
      if final {
        Remove(n);
        Hand(route.caller, Final(route.callerID), n);
      } else {
        routes := routes[n := route.(credit := route.credit - 1)];
        Hand(route.caller, Chunk(route.callerID), n);
      }
      outcome := if taken then Ok else Refused(UNAVAILABLE, true);
    }

    /** The tables and routes as a value, for the guards that only look them up. */
    function Snapshot(): (r: Router)
      reads this
      ensures r.routes == routes && r.tables == tables
    {
      Router(routes, tables, roles, present, expiring, warned, {}, log)
    }

    method ForwardResult(s: Session, id: int, final: bool, guard: Outcome, routable: bool, taken: bool) returns (outcome: Outcome)
      requires Valid() && GuardOK(View(), s, guard)
      modifies this
      ensures Valid()
      ensures (View(), outcome) == Calls.ForwardResult(old(View()), s, id, final, guard, routable, taken)
    {
      ghost var before := View();
      outcome := PassResult(s, id, final, guard, routable, taken);
      CallStepKeeps(before, s, Resulting(id, final, guard, routable, taken), bounds);
    }

    method PassError(s: Session, id: int, guard: Outcome, routable: bool, taken: bool) returns (outcome: Outcome)
      requires s in tables && s in roles
      modifies `routes, `tables, `log
      ensures (View(), outcome) == Calls.ForwardError(old(View()), s, id, guard, routable, taken)
    {
      if roles[s].Coordinator? && guard != Ok {
        return guard;
      }
      if !Serves(Snapshot(), s, id) {
        return Unserved(Snapshot(), s, id);
      }
      if !routable {
        return Refused(LIMIT_EXCEEDED, false);
      }
      var n := tables[s].calls[id];
      var route := routes[n];
      Remove(n);
      Hand(route.caller, Rejected(route.callerID), n);
      outcome := if taken then Ok else Refused(UNAVAILABLE, true);
    }

    method ForwardError(s: Session, id: int, guard: Outcome, routable: bool, taken: bool) returns (outcome: Outcome)
      requires Valid() && GuardOK(View(), s, guard)
      modifies this
      ensures Valid()
      ensures (View(), outcome) == Calls.ForwardError(old(View()), s, id, guard, routable, taken)
    {
      ghost var before := View();
      outcome := PassError(s, id, guard, routable, taken);
      CallStepKeeps(before, s, Failing(id, guard, routable, taken), bounds);
    }

    method Withdraw(s: Session, id: int, reason: int, guard: Outcome, answered: bool) returns (outcome: Outcome)
      requires s in tables && s in roles
      modifies `routes, `tables, `log
      ensures (View(), outcome) == Calls.CancelCall(old(View()), s, id, reason, guard, answered)
    {
      if roles[s].Coordinator? && guard != Ok {
        return guard;
      }
      if !Originates(Snapshot(), s, id) {
        return Refused(NOT_DECLARED, false);
      }
      var n := tables[s].calls[id];
      var route := routes[n];
      outcome := if answered then Ok else Refused(SLOW_CONSUMER, true);
      if !route.accepted {
        Remove(n);
        Hand(s, Failure(id, CANCELLED), n);
        return;
      }
      Hand(route.callee, Cancel(route.calleeID, reason), n);
      Remove(n);
      Hand(s, Failure(id, OUTCOME_UNKNOWN), n);
    }

    method CancelCall(s: Session, id: int, reason: int, guard: Outcome, answered: bool) returns (outcome: Outcome)
      requires Valid() && GuardOK(View(), s, guard)
      modifies this
      ensures Valid()
      ensures (View(), outcome) == Calls.CancelCall(old(View()), s, id, reason, guard, answered)
    {
      ghost var before := View();
      outcome := Withdraw(s, id, reason, guard, answered);
      CallStepKeeps(before, s, Cancelling(id, reason, guard, answered), bounds);
    }

    method AddCredit(s: Session, id: int, additional: int, guard: Outcome, taken: bool) returns (outcome: Outcome)
      requires s in tables && s in roles
      modifies `routes, `log
      ensures (View(), outcome) == Calls.CreditCall(old(View()), s, id, additional, guard, taken, bounds)
    {
      if roles[s].Coordinator? && guard != Ok {
        return guard;
      }
      if !Originates(Snapshot(), s, id) {
        return Refused(NOT_DECLARED, false);
      }
      var n := tables[s].calls[id];
      var route := routes[n];
      if route.credit + additional > bounds.credit {
        return Refused(LIMIT_EXCEEDED, false);
      }
      routes := routes[n := route.(credit := route.credit + additional)];
      Hand(route.callee, Grant(route.calleeID, additional), n);
      outcome := if taken then Ok else Refused(UNAVAILABLE, true);
    }

    method CreditCall(s: Session, id: int, additional: int, guard: Outcome, taken: bool) returns (outcome: Outcome)
      requires Valid() && GuardOK(View(), s, guard) && additional >= 0
      modifies this
      ensures Valid()
      ensures (View(), outcome) == Calls.CreditCall(old(View()), s, id, additional, guard, taken, bounds)
    {
      ghost var before := View();
      outcome := AddCredit(s, id, additional, guard, taken);
      CallStepKeeps(before, s, Crediting(id, additional, guard, taken), bounds);
    }

    // ---------- deadlines and departures ----------

    method ExpireCall(n: nat)
      requires Valid() && Known(View(), n) && routes[n].accepted
      modifies this
      ensures Valid() && View() == Calls.ExpireCall(old(View()), n)
    {
      ghost var before := View();
      if !routes[n].terminal {
        Remove(n);
        expiring := expiring + {n};
      }
      CallStepKeeps(before, 0, Expiring(n), bounds);
    }

    /** What follows happens after the lock was released: other connections may run before either end is told. */
    method WarnCallee(n: nat)
      requires Valid() && Known(View(), n) && n in expiring && n !in warned
      modifies this
      ensures Valid() && View() == Calls.WarnCallee(old(View()), n)
    {
      ghost var before := View();
      var route := routes[n];
      warned := warned + {n};
      if route.accepted {
        Hand(route.callee, Cancel(route.calleeID, DEADLINE_EXCEEDED), n);
      }
      CallStepKeeps(before, 0, Warning(n), bounds);
    }

    method TellCaller(n: nat)
      requires Valid() && Known(View(), n) && n in expiring && n in warned
      modifies this
      ensures Valid() && View() == Calls.TellCaller(old(View()), n)
    {
      ghost var before := View();
      var route := routes[n];
      expiring := expiring - {n};
      if route.accepted {
        Hand(route.caller, Failure(route.callerID, OUTCOME_UNKNOWN), n);
      } else {
        Hand(route.caller, Failure(route.callerID, DEADLINE_EXCEEDED), n);
      }
      CallStepKeeps(before, 0, Telling(n), bounds);
    }

    method EndOne(s: Session, n: nat)
      requires Known(View(), n)
      modifies `routes, `tables, `cut, `log
      ensures View() == TerminateOne(old(View()), s, n)
    {
      var route := routes[n];
      if route.terminal {
        return;
      }
      Remove(n);
      if route.caller == s {
        cut := cut + {n};
        Hand(route.callee, Cancel(route.calleeID, OUTCOME_UNKNOWN), n);
      } else {
        Hand(route.caller, Failure(route.callerID, OUTCOME_UNKNOWN), n);
      }
    }

    /** Visit the table of a connection in some order; a route met a second time is over already. */
    method TerminateCalls(s: Session) returns (ghost order: seq<nat>)
      requires s in tables && EndsKnown(routes, tables) && Entries(routes, tables)
      modifies `routes, `tables, `cut, `log
      ensures AllKnown(old(View()), order)
      ensures Covers(order, old(tables)[s].calls)
      ensures View() == Terminate(old(View()), s, order)
    {
      var calls := tables[s].calls;
      var todo := calls.Keys;
      ghost var before := View();
      order := [];
      while todo != {}
        invariant todo <= calls.Keys
        invariant AllKnown(before, order)
        invariant forall i :: 0 <= i < |order| ==> exists id :: id in calls && calls[id] == order[i]
        invariant forall id :: id in calls && id !in todo ==> calls[id] in order
        invariant View() == Terminate(before, s, order)
        decreases todo
      {
        Inhabited(todo);
        var id :| id in todo;
        var n := calls[id];
        assert Entry(before.routes, s, id, n);
        todo := todo - {id};
        EndOne(s, n);
        assert (order + [n])[..|order|] == order;
        order := order + [n];
      }
    }

    method LeaveHome(s: Session) returns (ghost order: seq<nat>)
      requires s in tables && EndsKnown(routes, tables) && Entries(routes, tables)
      modifies `routes, `tables, `cut, `log, `present
      ensures AllKnown(old(View()), order)
      ensures Covers(order, old(tables)[s].calls)
      ensures View() == Calls.Depart(old(View()), s, order)
    {
      order := TerminateCalls(s);
      present := present - {s};
    }

    method Depart(s: Session) returns (ghost order: seq<nat>)
      requires Valid() && s in tables
      modifies this
      ensures Valid()
      ensures AllKnown(old(View()), order) && Covers(order, old(tables)[s].calls)
      ensures View() == Calls.Depart(old(View()), s, order)
    {
      ghost var before := View();
      order := LeaveHome(s);
      CallStepKeeps(before, s, Departing(order), bounds);
    }
  }
}
