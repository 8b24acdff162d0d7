/**
 The call router of one home as a state machine. Every function is one critical section under the
 home lock; the deadline of a call takes three, because its frames go out one by one after the lock is
 released. What the home decides of a call, its guard and its target, comes with the step; `HomeCalls` joins the two.
 A route is known by its number, and stays in `routes` after its end.
 */
module Calls {
  import opened Basics
  import opened HomeModel

  /** The last of the IDs the relay gives out; then it starts again at 1. */
  const LAST_CALL_ID := 9_007_199_254_740_991

  datatype Route = Route(caller: Session, callee: Session, callerID: int, calleeID: int,
                         credit: int, accepted: bool, terminal: bool, timer: bool)

  /** What a connection keeps: its live routes by its own IDs, and the last ID it was given. */
  datatype Table = Table(calls: map<int, nat>, next: int, wrapped: bool)

  datatype CallFrame =
    | Dispatch(id: int, credit: int)
    | Accepted(id: int)
    | Chunk(id: int)
    | Final(id: int)
    | Rejected(id: int)
    | Failure(id: int, code: int)
    | Cancel(id: int, code: int)
    | Grant(id: int, amount: int)

  /** A frame handed to the queue of a connection for a route. */
  datatype Sent = Sent(to: Session, frame: CallFrame, route: nat)

  /**
   `expiring` remembers the routes ended by their deadline whose caller has not been told, `warned` those of
   them whose callee has, and `cut` the routes ended by the departure of their caller.
   */
  datatype Router = Router(
    routes: seq<Route>,
    tables: map<Session, Table>,
    roles: map<Session, Role>,
    present: set<Session>,
    expiring: set<nat>,
    warned: set<nat>,
    cut: set<nat>,
    log: seq<Sent>)

  datatype Bounds = Bounds(inflight: int, credit: int)

  function NewRouter(): Router {
    Router([], map[], map[], {}, {}, {}, {}, [])
  }

  // ---------- tables ----------

  function Entered(tables: map<Session, Table>, s: Session, id: int, n: nat): map<Session, Table>
    requires s in tables
  {
    tables[s := tables[s].(calls := tables[s].calls[id := n])]
  }

  function Left(tables: map<Session, Table>, s: Session, id: int): map<Session, Table>
    requires s in tables
  {
    tables[s := tables[s].(calls := tables[s].calls - {id})]
  }

  predicate Known(r: Router, n: nat) {
    n < |r.routes| && r.routes[n].caller in r.tables && r.routes[n].callee in r.tables
  }

  /** A new route enters the table of its caller, then that of its callee. */
  function Register(r: Router, route: Route): Router
    requires route.caller in r.tables && route.callee in r.tables
  {
    var n := |r.routes|;
    r.(routes := r.routes + [route],
       tables := Entered(Entered(r.tables, route.caller, route.callerID, n), route.callee, route.calleeID, n))
  }

  function RemoveRoute(r: Router, n: nat): Router
    requires Known(r, n)
  {
    var route := r.routes[n];
    if route.terminal then r
    else r.(routes := r.routes[n := route.(terminal := true, timer := false)],
            tables := Left(Left(r.tables, route.caller, route.callerID), route.callee, route.calleeID))
  }

  function Send(r: Router, to: Session, frame: CallFrame, n: nat): Router {
    r.(log := r.log + [Sent(to, frame, n)])
  }

  function ToCaller(r: Router, n: nat, frame: CallFrame): Router
    requires Known(r, n)
  {
    Send(r, r.routes[n].caller, frame, n)
  }

  function ToCallee(r: Router, n: nat, frame: CallFrame): Router
    requires Known(r, n)
  {
    Send(r, r.routes[n].callee, frame, n)
  }

  // ---------- allocation ----------

  /** The `k`th ID after `next`, going round. */
  function Cyclic(next: int, k: nat): int {
    (next + k - 1) % LAST_CALL_ID + 1
  }

  /** The first ID after `next`, going round, that the callee does not use. */
  ghost predicate Allocates(table: Table, id: int) {
    exists k: nat :: 1 <= k <= LAST_CALL_ID && id == Cyclic(table.next, k) && id !in table.calls
                     && forall j :: 1 <= j < k ==> Cyclic(table.next, j) in table.calls
  }

  // ---------- handlers ----------

  /**
   A CALL as the router sees it. `guard` is what the check of an acting coordinator answers, and
   `target` the connection the call resolves to, or `refusal` if it resolves to none. The last four
   say whether the deadline lies ahead, the dispatch encodes, and both queues take their frames.
   */
  datatype Request = Request(callerID: int, credit: int, guard: Outcome, target: Option<Session>, refusal: Outcome,
                             remaining: bool, routable: bool, taken: bool, answered: bool)

  predicate Guarded(r: Router, s: Session, guard: Outcome)
    requires s in r.roles
  {
    r.roles[s].Coordinator? && guard != Ok
  }

  function Allocated(r: Router, callee: Session, id: int): Router
    requires callee in r.tables
  {
    var table := r.tables[callee];
    r.(tables := r.tables[callee := table.(next := id, wrapped := table.wrapped || id <= table.next)])
  }

  function Opened(s: Session, q: Request, calleeID: int, accepted: bool): Route
    requires q.target.Some?
  {
    Route(s, q.target.value, q.callerID, calleeID, q.credit, accepted, false, accepted)
  }

  function Placed(r: Router, s: Session, q: Request, calleeID: int): (Router, Outcome)
    requires s in r.tables && q.target.Some? && q.target.value in r.tables
  {
    var n := |r.routes|;
    if !q.remaining then (r, Refused(DEADLINE_EXCEEDED, false))
    else if !q.routable then (r, Refused(LIMIT_EXCEEDED, false))
    else
      var placed := ToCallee(Register(r, Opened(s, q, calleeID, q.taken)), n, Dispatch(calleeID, q.credit));
      if !q.taken then (RemoveRoute(placed, n), Refused(UNAVAILABLE, true))
      else (ToCaller(placed, n, Accepted(q.callerID)), if q.answered then Ok else Refused(SLOW_CONSUMER, true))
  }

  function StartCall(r: Router, s: Session, q: Request, calleeID: int, bounds: Bounds): (Router, Outcome)
    requires s in r.tables && s in r.roles && (q.target.Some? ==> q.target.value in r.tables)
  {
    if Guarded(r, s, q.guard) then (r, q.guard)
    else if q.callerID in r.tables[s].calls then (r, Refused(DUPLICATE_REQUEST, false))
    else if |r.tables[s].calls| >= bounds.inflight then (r, Refused(LIMIT_EXCEEDED, false))
    else if q.target.None? then (r, q.refusal)
    else if |r.tables[q.target.value].calls| >= bounds.inflight then (r, Refused(LIMIT_EXCEEDED, false))
    else Placed(Allocated(r, q.target.value, calleeID), s, q, calleeID)
  }

  /** The callee's own live route with this ID. */
  predicate Serves(r: Router, s: Session, id: int) {
    && s in r.tables && id in r.tables[s].calls
    && var n := r.tables[s].calls[id];
       Known(r, n) && r.routes[n].callee == s && r.routes[n].calleeID == id && !r.routes[n].terminal
  }

  /** The caller's own live route with this ID. */
  predicate Originates(r: Router, s: Session, id: int) {
    && s in r.tables && id in r.tables[s].calls
    && var n := r.tables[s].calls[id];
       Known(r, n) && r.routes[n].caller == s && r.routes[n].callerID == id && !r.routes[n].terminal
  }

  /** Results and errors of a route that has ended are dropped in silence. */
  function Unserved(r: Router, s: Session, id: int): Outcome
    requires s in r.tables
  {
    if id !in r.tables[s].calls && id <= r.tables[s].next then Ok else Refused(NOT_DECLARED, false)
  }

  function ForwardResult(r: Router, s: Session, id: int, final: bool, guard: Outcome, routable: bool, taken: bool): (Router, Outcome)
    requires s in r.tables && s in r.roles
  {
    if Guarded(r, s, guard) then (r, guard)
    else if !Serves(r, s, id) then (r, Unserved(r, s, id))
    else
      var n := r.tables[s].calls[id];
      var route := r.routes[n];
      if !final && route.credit == 0 then (r, Refused(LIMIT_EXCEEDED, false))
      else if !routable then (r, Refused(LIMIT_EXCEEDED, false))
      else
        var sent := if final then ToCaller(RemoveRoute(r, n), n, Final(route.callerID))
                    else ToCaller(r.(routes := r.routes[n := route.(credit := route.credit - 1)]), n, Chunk(route.callerID));
        (sent, if taken then Ok else Refused(UNAVAILABLE, true))
  }

  function ForwardError(r: Router, s: Session, id: int, guard: Outcome, routable: bool, taken: bool): (Router, Outcome)
    requires s in r.tables && s in r.roles
  {
    if Guarded(r, s, guard) then (r, guard)
    else if !Serves(r, s, id) then (r, Unserved(r, s, id))
    else
      var n := r.tables[s].calls[id];
      if !routable then (r, Refused(LIMIT_EXCEEDED, false))
      else (ToCaller(RemoveRoute(r, n), n, Rejected(r.routes[n].callerID)), if taken then Ok else Refused(UNAVAILABLE, true))
  }

  function CancelCall(r: Router, s: Session, id: int, reason: int, guard: Outcome, answered: bool): (Router, Outcome)
    requires s in r.tables && s in r.roles
  {
    if Guarded(r, s, guard) then (r, guard)
    else if !Originates(r, s, id) then (r, Refused(NOT_DECLARED, false))
    else
      var n := r.tables[s].calls[id];
      var route := r.routes[n];
      var outcome := if answered then Ok else Refused(SLOW_CONSUMER, true);
      if !route.accepted then (ToCaller(RemoveRoute(r, n), n, Failure(id, CANCELLED)), outcome)
      else (ToCaller(RemoveRoute(ToCallee(r, n, Cancel(route.calleeID, reason)), n), n, Failure(id, OUTCOME_UNKNOWN)), outcome)
  }

  function CreditCall(r: Router, s: Session, id: int, additional: int, guard: Outcome, taken: bool, bounds: Bounds): (Router, Outcome)
    requires s in r.tables && s in r.roles
  {
    if Guarded(r, s, guard) then (r, guard)
    else if !Originates(r, s, id) then (r, Refused(NOT_DECLARED, false))
    else
      var n := r.tables[s].calls[id];
      var route := r.routes[n];
      if route.credit + additional > bounds.credit then (r, Refused(LIMIT_EXCEEDED, false))
      else (ToCallee(r.(routes := r.routes[n := route.(credit := route.credit + additional)]), n, Grant(route.calleeID, additional)),
            if taken then Ok else Refused(UNAVAILABLE, true))
  }

  /** The deadline of a route passes: it leaves the tables under the lock ... */
  function ExpireCall(r: Router, n: nat): Router
    requires Known(r, n)
  {
    if r.routes[n].terminal then r else RemoveRoute(r, n).(expiring := r.expiring + {n})
  }

  /** ... and once the lock is released its callee is told, ... */
  function WarnCallee(r: Router, n: nat): Router
    requires Known(r, n)
  {
    var route := r.routes[n];
    var warned := r.(warned := r.warned + {n});
    if route.accepted then ToCallee(warned, n, Cancel(route.calleeID, DEADLINE_EXCEEDED)) else warned
  }

  /** ... and then its caller. */
  function TellCaller(r: Router, n: nat): Router
    requires Known(r, n)
  {
    var route := r.routes[n];
    var told := r.(expiring := r.expiring - {n});
    ToCaller(told, n, Failure(route.callerID, if route.accepted then OUTCOME_UNKNOWN else DEADLINE_EXCEEDED))
  }

  function TerminateOne(r: Router, s: Session, n: nat): Router
    requires Known(r, n)
  {
    var route := r.routes[n];
    if route.terminal then r
    else if route.caller == s then ToCallee(RemoveRoute(r, n), n, Cancel(route.calleeID, OUTCOME_UNKNOWN)).(cut := r.cut + {n})
    else ToCaller(RemoveRoute(r, n), n, Failure(route.callerID, OUTCOME_UNKNOWN))
  }

  predicate AllKnown(r: Router, order: seq<nat>) {
    forall i :: 0 <= i < |order| ==> Known(r, order[i])
  }

  /** Every route of a departing connection ends; `order` is the order in which its table is visited. */
  function Terminate(r: Router, s: Session, order: seq<nat>): (r': Router)
    requires AllKnown(r, order)
    ensures r'.tables.Keys == r.tables.Keys && |r'.routes| == |r.routes|
    ensures forall n :: Known(r, n) ==> Known(r', n)
  {
    if order == [] then r else TerminateOne(Terminate(r, s, order[..|order| - 1]), s, order[|order| - 1])
  }

  /** The visit meets exactly the routes of the table. */
  ghost predicate Covers(order: seq<nat>, calls: map<int, nat>) {
    && (forall i :: 0 <= i < |order| ==> exists id :: id in calls && calls[id] == order[i])
    && (forall id :: id in calls ==> calls[id] in order)
  }

  /** A connection detaches, or another one takes over its coordinator slot. */
  function Depart(r: Router, s: Session, order: seq<nat>): Router
    requires AllKnown(r, order)
  {
    Terminate(r, s, order).(present := r.present - {s})
  }

  function Arrive(r: Router, s: Session, role: Role): Router {
    r.(tables := r.tables[s := Table(map[], 0, false)], roles := r.roles[s := role], present := r.present + {s})
  }

  // ---------- runs ----------

  datatype CallLabel =
    | Arriving(role: Role)
    | Departing(order: seq<nat>)
    | Calling(q: Request, calleeID: int)
    | Resulting(id: int, final: bool, guard: Outcome, routable: bool, taken: bool)
    | Failing(id: int, guard: Outcome, routable: bool, taken: bool)
    | Cancelling(id: int, reason: int, guard: Outcome, answered: bool)
    | Crediting(id: int, additional: int, guard: Outcome, taken: bool)
    | Expiring(n: nat)
    | Warning(n: nat)
    | Telling(n: nat)

  /** A connection acts as a coordinator only while it is the one of its slot. */
  predicate GuardOK(r: Router, s: Session, guard: Outcome) {
    s in r.tables && s in r.roles && (r.roles[s].Coordinator? && guard == Ok ==> s in r.present)
  }

  /** A call resolves to a coordinator or a user that is present, or is refused. */
  predicate Callable(r: Router, q: Request) {
    if q.target.Some?
    then q.target.value in r.present && q.target.value in r.tables && q.target.value in r.roles && !r.roles[q.target.value].Cli?
    else q.refusal != Ok
  }

  /** A step is about a connection and a route that exist. */
  predicate CallApplies(r: Router, s: Session, l: CallLabel) {
    match l
    case Arriving(_) => true
    case Departing(order) => AllKnown(r, order)
    case Calling(q, _) => s in r.tables && s in r.roles && (q.target.Some? ==> q.target.value in r.tables)
    case Expiring(n) => Known(r, n)
    case Warning(n) => Known(r, n)
    case Telling(n) => Known(r, n)
    case _ => s in r.tables && s in r.roles
  }

  /** What the codec, the deadline timers and the home guarantee of a step. */
  ghost predicate CallEnabled(r: Router, s: Session, l: CallLabel, bounds: Bounds) {
    match l
    case Arriving(role) => s !in r.tables
    case Departing(order) => s in r.tables && AllKnown(r, order) && Covers(order, r.tables[s].calls)
    case Calling(q, calleeID) =>
      && GuardOK(r, s, q.guard) && Callable(r, q) && 0 <= q.credit <= bounds.credit
      && (q.target.Some? ==> Allocates(r.tables[q.target.value], calleeID))
    case Resulting(_, _, guard, _, _) => GuardOK(r, s, guard)
    case Failing(_, guard, _, _) => GuardOK(r, s, guard)
    case Cancelling(_, _, guard, _) => GuardOK(r, s, guard)
    case Crediting(_, additional, guard, _) => GuardOK(r, s, guard) && additional >= 0
    case Expiring(n) => Known(r, n) && r.routes[n].accepted
    case Warning(n) => Known(r, n) && n in r.expiring && n !in r.warned
    case Telling(n) => Known(r, n) && n in r.expiring && n in r.warned
  }

  function CallStep(r: Router, s: Session, l: CallLabel, bounds: Bounds): Router
    requires CallApplies(r, s, l)
  {
    match l
    case Arriving(role) => Arrive(r, s, role)
    case Departing(order) => Depart(r, s, order)
    case Calling(q, calleeID) => StartCall(r, s, q, calleeID, bounds).0
    case Resulting(id, final, guard, routable, taken) => ForwardResult(r, s, id, final, guard, routable, taken).0
    case Failing(id, guard, routable, taken) => ForwardError(r, s, id, guard, routable, taken).0
    case Cancelling(id, reason, guard, answered) => CancelCall(r, s, id, reason, guard, answered).0
    case Crediting(id, additional, guard, taken) => CreditCall(r, s, id, additional, guard, taken, bounds).0
    case Expiring(n) => ExpireCall(r, n)
    case Warning(n) => WarnCallee(r, n)
    case Telling(n) => TellCaller(r, n)
  }

  ghost predicate CallSteps(r: Router, r': Router, bounds: Bounds) {
    exists s, l :: CallEnabled(r, s, l, bounds) && r' == CallStep(r, s, l, bounds)
  }

  ghost predicate CallStepsTo(rs: seq<Router>, bounds: Bounds, i: int)
    requires 0 < i < |rs|
  {
    CallSteps(rs[i - 1], rs[i], bounds)
  }

  ghost predicate CallRun(rs: seq<Router>, bounds: Bounds) {
    && rs != [] && rs[0] == NewRouter()
    && 0 <= bounds.inflight < LAST_CALL_ID - 1 && bounds.credit >= 0
    && (forall i :: 0 < i < |rs| ==> CallStepsTo(rs, bounds, i))
  }
}
