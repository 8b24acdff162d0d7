/** The two tables of every live route, and what each handler does to them. */
module CallTables {
  import opened Basics
  import opened HomeModel
  import opened Calls

  /** An entry leads to a live route of the connection, under the connection's own ID. */
  predicate Entry(routes: seq<Route>, s: Session, id: int, n: nat) {
    && n < |routes| && !routes[n].terminal
    && ((routes[n].caller == s && routes[n].callerID == id) || (routes[n].callee == s && routes[n].calleeID == id))
  }

  ghost predicate Entries(routes: seq<Route>, tables: map<Session, Table>) {
    forall s, id :: s in tables && id in tables[s].calls ==> Entry(routes, s, id, tables[s].calls[id])
  }

  predicate Places(tables: map<Session, Table>, s: Session, id: int, n: nat) {
    s in tables && id in tables[s].calls && tables[s].calls[id] == n
  }

  /** A live route sits in both tables. */
  predicate InBothTables(tables: map<Session, Table>, route: Route, n: nat) {
    Places(tables, route.caller, route.callerID, n) && Places(tables, route.callee, route.calleeID, n)
  }

  ghost predicate LivePlaced(routes: seq<Route>, tables: map<Session, Table>) {
    forall n: nat :: n < |routes| && !routes[n].terminal ==> InBothTables(tables, routes[n], n)
  }

  ghost predicate EndsKnown(routes: seq<Route>, tables: map<Session, Table>) {
    forall n: nat :: n < |routes| ==> routes[n].caller in tables && routes[n].callee in tables
  }

  /** Outside a critical section a live route is accepted and has its deadline timer, and one that is over has none. */
  predicate Armed(route: Route) {
    if route.terminal then !route.timer else route.accepted && route.timer
  }

  ghost predicate AllArmed(routes: seq<Route>) {
    forall n: nat :: n < |routes| ==> Armed(routes[n])
  }

  /** Live routes lead to callees that are present, from coordinators that are present. */
  predicate Attended(route: Route, roles: map<Session, Role>, present: set<Session>) {
    !route.terminal ==> route.callee in present && (route.caller in roles && roles[route.caller].Coordinator? ==> route.caller in present)
  }

  ghost predicate AllAttended(routes: seq<Route>, roles: map<Session, Role>, present: set<Session>) {
    forall n: nat :: n < |routes| ==> Attended(routes[n], roles, present)
  }

  /** Until its counter goes round, a connection is given ever larger IDs. */
  predicate Numbered(routes: seq<Route>, s: Session, table: Table) {
    && 0 <= table.next <= LAST_CALL_ID
    && (!table.wrapped ==>
      && (forall n: nat :: n < |routes| && routes[n].callee == s ==> 1 <= routes[n].calleeID <= table.next)
      && (forall n: nat, m: nat :: n < m < |routes| && routes[n].callee == s && routes[m].callee == s ==> routes[n].calleeID < routes[m].calleeID))
  }

  ghost predicate AllNumbered(routes: seq<Route>, tables: map<Session, Table>) {
    forall s :: s in tables ==> Numbered(routes, s, tables[s])
  }

  ghost predicate SizesOK(tables: map<Session, Table>, bounds: Bounds) {
    forall s :: s in tables ==> |tables[s].calls| <= bounds.inflight + 1
  }

  ghost predicate TableInv(r: Router, bounds: Bounds) {
    && r.tables.Keys == r.roles.Keys && r.present <= r.tables.Keys
    && Entries(r.routes, r.tables)
    && LivePlaced(r.routes, r.tables)
    && EndsKnown(r.routes, r.tables)
    && AllArmed(r.routes)
    && AllAttended(r.routes, r.roles, r.present)
    && AllNumbered(r.routes, r.tables)
    && SizesOK(r.tables, bounds)
  }

  // ---------- leaving the tables ----------

  lemma FewerEntries<V>(m: map<int, V>, id: int)
    ensures |m - {id}| <= |m|
  {
    SubsetSize((m - {id}).Keys, m.Keys);
  }

  lemma LeftSizes(tables: map<Session, Table>, s: Session, id: int, bounds: Bounds)
    requires s in tables && SizesOK(tables, bounds)
    ensures SizesOK(Left(tables, s, id), bounds)
  {
    FewerEntries(tables[s].calls, id);
  }

  /** A table without the entries of one route still leads only to live ones, and to all the others. */
  lemma RemovedEntries(r: Router, n: nat)
    requires Known(r, n) && !r.routes[n].terminal
    requires Entries(r.routes, r.tables) && LivePlaced(r.routes, r.tables)
    ensures var r' := RemoveRoute(r, n); Entries(r'.routes, r'.tables) && LivePlaced(r'.routes, r'.tables)
  {
    var r' := RemoveRoute(r, n);
    var route := r.routes[n];
    forall s, id | s in r'.tables && id in r'.tables[s].calls ensures Entry(r'.routes, s, id, r'.tables[s].calls[id]) {
      assert id in r.tables[s].calls && Entry(r.routes, s, id, r.tables[s].calls[id]);
      assert !(s == route.caller && id == route.callerID) && !(s == route.callee && id == route.calleeID);
    }
    forall m: nat | m < |r'.routes| && !r'.routes[m].terminal ensures InBothTables(r'.tables, r'.routes[m], m) {
      assert InBothTables(r.tables, r.routes[m], m) && InBothTables(r.tables, route, n);
    }
  }

  /** Statements about a route that mention neither its credit nor its flags. */
  ghost predicate SameEnds(routes: seq<Route>, routes': seq<Route>) {
    && |routes'| == |routes|
    && forall n: nat :: n < |routes| ==>
      && routes'[n].caller == routes[n].caller && routes'[n].callee == routes[n].callee
      && routes'[n].callerID == routes[n].callerID && routes'[n].calleeID == routes[n].calleeID
      && (routes[n].terminal ==> routes'[n].terminal)
  }

  ghost predicate SameCounters(tables: map<Session, Table>, tables': map<Session, Table>) {
    && tables'.Keys == tables.Keys
    && forall s :: s in tables ==> tables'[s].next == tables[s].next && tables'[s].wrapped == tables[s].wrapped
  }

  lemma NumbersStay(routes: seq<Route>, tables: map<Session, Table>, routes': seq<Route>, tables': map<Session, Table>)
    requires AllNumbered(routes, tables) && SameEnds(routes, routes') && SameCounters(tables, tables')
    ensures AllNumbered(routes', tables')
  {
    forall s | s in tables' ensures Numbered(routes', s, tables'[s]) {
      assert Numbered(routes, s, tables[s]);
    }
  }

  lemma RemoveKeeps(r: Router, n: nat, bounds: Bounds)
    requires TableInv(r, bounds) && Known(r, n)
    ensures TableInv(RemoveRoute(r, n), bounds)
  {
    var r' := RemoveRoute(r, n);
    if !r.routes[n].terminal {
      var route := r.routes[n];
      RemovedEntries(r, n);
      LeftSizes(r.tables, route.caller, route.callerID, bounds);
      LeftSizes(Left(r.tables, route.caller, route.callerID), route.callee, route.calleeID, bounds);
      NumbersStay(r.routes, r.tables, r'.routes, r'.tables);
    }
  }

  lemma CreditStaysEntered(routes: seq<Route>, tables: map<Session, Table>, n: nat, route: Route)
    requires n < |routes| && route == routes[n].(credit := route.credit)
    requires Entries(routes, tables)
    ensures Entries(routes[n := route], tables)
  {
    forall s, id | s in tables && id in tables[s].calls ensures Entry(routes[n := route], s, id, tables[s].calls[id]) {
      assert Entry(routes, s, id, tables[s].calls[id]);
    }
  }

  lemma CreditStaysPlaced(routes: seq<Route>, tables: map<Session, Table>, n: nat, route: Route)
    requires n < |routes| && route == routes[n].(credit := route.credit)
    requires LivePlaced(routes, tables)
    ensures LivePlaced(routes[n := route], tables)
  {
    var routes' := routes[n := route];
    forall m: nat | m < |routes'| && !routes'[m].terminal ensures InBothTables(tables, routes'[m], m) {
      assert !routes[m].terminal && InBothTables(tables, routes[m], m);
      assert routes'[m].callerID == routes[m].callerID && routes'[m].caller == routes[m].caller;
    }
  }

  lemma CreditStaysAttended(r: Router, n: nat, route: Route)
    requires n < |r.routes| && route == r.routes[n].(credit := route.credit)
    requires AllArmed(r.routes) && AllAttended(r.routes, r.roles, r.present) && EndsKnown(r.routes, r.tables)
    ensures var routes' := r.routes[n := route];
            AllArmed(routes') && AllAttended(routes', r.roles, r.present) && EndsKnown(routes', r.tables)
  {
    var routes' := r.routes[n := route];
    forall m: nat | m < |routes'| ensures Armed(routes'[m]) && Attended(routes'[m], r.roles, r.present) {
      assert Armed(r.routes[m]) && Attended(r.routes[m], r.roles, r.present);
    }
  }

  lemma CreditKeeps(r: Router, n: nat, route: Route, bounds: Bounds)
    requires TableInv(r, bounds) && n < |r.routes| && route == r.routes[n].(credit := route.credit)
    ensures TableInv(r.(routes := r.routes[n := route]), bounds)
  {
    CreditStaysEntered(r.routes, r.tables, n, route);
    CreditStaysPlaced(r.routes, r.tables, n, route);
    CreditStaysAttended(r, n, route);
    NumbersStay(r.routes, r.tables, r.routes[n := route], r.tables);
  }

  // ---------- entering the tables ----------

  lemma AllocatesFresh(table: Table, id: int)
    requires Allocates(table, id)
    ensures 1 <= id <= LAST_CALL_ID && id !in table.calls
  {
  }

  /** Until its counter goes round, a connection is given an ID above all it was given before. */
  lemma AllocatedNumbers(routes: seq<Route>, tables: map<Session, Table>, callee: Session, id: int)
    requires AllNumbered(routes, tables) && callee in tables && 1 <= id <= LAST_CALL_ID
    ensures var table := tables[callee];
            var table' := table.(next := id, wrapped := table.wrapped || id <= table.next);
            && AllNumbered(routes, tables[callee := table'])
            && (!table'.wrapped ==> forall n: nat :: n < |routes| && routes[n].callee == callee ==> routes[n].calleeID < id)
  {
    assert Numbered(routes, callee, tables[callee]);
    var table' := tables[callee].(next := id, wrapped := tables[callee].wrapped || id <= tables[callee].next);
    assert Numbered(routes, callee, table');
    var tables' := tables[callee := table'];
    forall s | s in tables' ensures Numbered(routes, s, tables'[s]) {
      assert s != callee ==> Numbered(routes, s, tables[s]);
    }
  }

  lemma AllocatedKeeps(r: Router, callee: Session, id: int, bounds: Bounds)
    requires TableInv(r, bounds) && callee in r.tables && 1 <= id <= LAST_CALL_ID
    ensures TableInv(Allocated(r, callee, id), bounds)
    ensures !Allocated(r, callee, id).tables[callee].wrapped ==>
              forall n: nat :: n < |r.routes| && r.routes[n].callee == callee ==> r.routes[n].calleeID < id
  {
    AllocatedNumbers(r.routes, r.tables, callee, id);
    SameCallsKeep(r.routes, r.tables, Allocated(r, callee, id).tables);
  }

  lemma SameCallsKeep(routes: seq<Route>, tables: map<Session, Table>, tables': map<Session, Table>)
    requires Entries(routes, tables) && LivePlaced(routes, tables)
    requires tables'.Keys == tables.Keys && forall s :: s in tables ==> tables'[s].calls == tables[s].calls
    ensures Entries(routes, tables') && LivePlaced(routes, tables')
  {
    forall n: nat | n < |routes| && !routes[n].terminal ensures InBothTables(tables', routes[n], n) {
      assert InBothTables(tables, routes[n], n);
    }
  }

  /** The route may enter both tables: its IDs are free there, and neither table is full. */
  predicate Enters(r: Router, route: Route, bounds: Bounds) {
    && route.caller in r.tables && route.callee in r.tables
    && route.callerID !in r.tables[route.caller].calls && route.calleeID !in r.tables[route.callee].calls
    && |r.tables[route.caller].calls| < bounds.inflight && |r.tables[route.callee].calls| < bounds.inflight
  }

  ghost predicate NextInLine(r: Router, route: Route)
    requires route.callee in r.tables
  {
    var table := r.tables[route.callee];
    !table.wrapped ==>
      && 1 <= route.calleeID <= table.next
      && forall n: nat :: n < |r.routes| && r.routes[n].callee == route.callee ==> r.routes[n].calleeID < route.calleeID
  }

  lemma RegisteredEntries(r: Router, route: Route, bounds: Bounds)
    requires Entries(r.routes, r.tables) && LivePlaced(r.routes, r.tables)
    requires Enters(r, route, bounds) && !route.terminal
    ensures var r' := Register(r, route); Entries(r'.routes, r'.tables) && LivePlaced(r'.routes, r'.tables)
  {
    var r' := Register(r, route);
    var n := |r.routes|;
    forall s, id | s in r'.tables && id in r'.tables[s].calls ensures Entry(r'.routes, s, id, r'.tables[s].calls[id]) {
      if r'.tables[s].calls[id] != n {
        assert id in r.tables[s].calls && Entry(r.routes, s, id, r.tables[s].calls[id]);
      }
    }
    forall m: nat | m < |r'.routes| && !r'.routes[m].terminal ensures InBothTables(r'.tables, r'.routes[m], m) {
      if m < n {
        assert InBothTables(r.tables, r.routes[m], m);
        assert r'.routes[m] == r.routes[m];
      }
    }
  }

  lemma RegisteredSizes(r: Router, route: Route, bounds: Bounds)
    requires SizesOK(r.tables, bounds) && Enters(r, route, bounds)
    ensures SizesOK(Register(r, route).tables, bounds)
  {
  }

  lemma RegisteredNumbers(r: Router, route: Route)
    requires AllNumbered(r.routes, r.tables) && route.caller in r.tables && route.callee in r.tables
    requires NextInLine(r, route)
    ensures var r' := Register(r, route); AllNumbered(r'.routes, r'.tables)
  {
    var r' := Register(r, route);
    forall s | s in r'.tables ensures Numbered(r'.routes, s, r'.tables[s]) {
      assert Numbered(r.routes, s, r.tables[s]);
      assert r'.tables[s].next == r.tables[s].next && r'.tables[s].wrapped == r.tables[s].wrapped;
    }
  }

  lemma RegisterKeeps(r: Router, route: Route, bounds: Bounds)
    requires TableInv(r, bounds) && Enters(r, route, bounds) && NextInLine(r, route)
    requires !route.terminal && Armed(route) && Attended(route, r.roles, r.present)
    ensures TableInv(Register(r, route), bounds)
  {
    RegisteredEntries(r, route, bounds);
    RegisteredSizes(r, route, bounds);
    RegisteredNumbers(r, route);
  }

  lemma EnterThenLeave(tables: map<Session, Table>, route: Route, n: nat)
    requires route.caller in tables && route.callee in tables
    requires route.callerID !in tables[route.caller].calls && route.calleeID !in tables[route.callee].calls
    ensures Left(Left(Entered(Entered(tables, route.caller, route.callerID, n), route.callee, route.calleeID, n),
                      route.caller, route.callerID), route.callee, route.calleeID) == tables
  {
    var entered := Entered(Entered(tables, route.caller, route.callerID, n), route.callee, route.calleeID, n);
    var left := Left(Left(entered, route.caller, route.callerID), route.callee, route.calleeID);
    assert left[route.caller].calls == tables[route.caller].calls;
    assert left[route.callee].calls == tables[route.callee].calls;
  }

  /** A route whose dispatch was not taken leaves the tables as they were. */
  lemma RegisterThenRemove(r: Router, route: Route, bounds: Bounds)
    requires Enters(r, route, bounds) && !route.terminal
    ensures var placed := Register(r, route);
            RemoveRoute(placed, |r.routes|) == r.(routes := r.routes + [route.(terminal := true, timer := false)])
  {
    EnterThenLeave(r.tables, route, |r.routes|);
  }

  lemma MoreRoutesPlaced(routes: seq<Route>, tables: map<Session, Table>, route: Route)
    requires Entries(routes, tables) && LivePlaced(routes, tables) && route.terminal
    ensures Entries(routes + [route], tables) && LivePlaced(routes + [route], tables)
  {
    forall n: nat | n < |routes + [route]| && !(routes + [route])[n].terminal ensures InBothTables(tables, (routes + [route])[n], n) {
      assert InBothTables(tables, routes[n], n);
    }
  }

  lemma MoreRoutesNumbered(r: Router, route: Route)
    requires AllNumbered(r.routes, r.tables) && route.callee in r.tables && NextInLine(r, route)
    ensures AllNumbered(r.routes + [route], r.tables)
  {
    forall s | s in r.tables ensures Numbered(r.routes + [route], s, r.tables[s]) {
      assert Numbered(r.routes, s, r.tables[s]);
    }
  }

  lemma EndedRouteKeeps(r: Router, route: Route, bounds: Bounds)
    requires TableInv(r, bounds) && route.terminal && !route.timer
    requires route.caller in r.tables && route.callee in r.tables && NextInLine(r, route)
    ensures TableInv(r.(routes := r.routes + [route]), bounds)
  {
    MoreRoutesPlaced(r.routes, r.tables, route);
    MoreRoutesNumbered(r, route);
  }

  // ---------- arriving and departing ----------

  lemma ArriveKeepsPlaces(r: Router, s: Session, role: Role)
    requires Entries(r.routes, r.tables) && LivePlaced(r.routes, r.tables) && s !in r.tables
    ensures var r' := Arrive(r, s, role); Entries(r'.routes, r'.tables) && LivePlaced(r'.routes, r'.tables)
  {
    var r' := Arrive(r, s, role);
    forall t, id | t in r'.tables && id in r'.tables[t].calls ensures Entry(r'.routes, t, id, r'.tables[t].calls[id]) {
      assert id in r.tables[t].calls;
    }
    forall n: nat | n < |r'.routes| && !r'.routes[n].terminal ensures InBothTables(r'.tables, r'.routes[n], n) {
      assert InBothTables(r.tables, r.routes[n], n);
    }
  }

  lemma ArriveKeepsNumbers(r: Router, s: Session, role: Role)
    requires AllNumbered(r.routes, r.tables) && EndsKnown(r.routes, r.tables) && s !in r.tables
    ensures var r' := Arrive(r, s, role); AllNumbered(r'.routes, r'.tables) && EndsKnown(r'.routes, r'.tables)
  {
    var r' := Arrive(r, s, role);
    forall t | t in r'.tables ensures Numbered(r'.routes, t, r'.tables[t]) {
      if t != s {
        assert Numbered(r.routes, t, r.tables[t]);
      }
    }
  }

  lemma ArriveKeepsAttendance(r: Router, s: Session, role: Role)
    requires AllAttended(r.routes, r.roles, r.present) && EndsKnown(r.routes, r.tables) && r.tables.Keys == r.roles.Keys && s !in r.tables
    ensures var r' := Arrive(r, s, role); AllAttended(r'.routes, r'.roles, r'.present)
  {
    var r' := Arrive(r, s, role);
    forall n: nat | n < |r'.routes| ensures Attended(r'.routes[n], r'.roles, r'.present) {
      assert Attended(r.routes[n], r.roles, r.present);
    }
  }

  lemma ArriveKeeps(r: Router, s: Session, role: Role, bounds: Bounds)
    requires TableInv(r, bounds) && s !in r.tables && bounds.inflight >= 0
    ensures TableInv(Arrive(r, s, role), bounds)
  {
    ArriveKeepsPlaces(r, s, role);
    ArriveKeepsNumbers(r, s, role);
    ArriveKeepsAttendance(r, s, role);
  }

  lemma TerminateOneKeeps(r: Router, s: Session, n: nat, bounds: Bounds)
    requires TableInv(r, bounds) && Known(r, n)
    ensures var r' := TerminateOne(r, s, n);
            && TableInv(r', bounds) && r'.roles == r.roles && r'.present == r.present
            && SameEnds(r.routes, r'.routes) && r'.routes[n].terminal
  {
    RemoveKeeps(r, n, bounds);
    var r' := TerminateOne(r, s, n);
    assert r' == RemoveRoute(r, n).(log := r'.log, cut := r'.cut);
  }

  lemma SameEndsTransitive(a: seq<Route>, b: seq<Route>, c: seq<Route>)
    requires SameEnds(a, b) && SameEnds(b, c)
    ensures SameEnds(a, c)
  {
  }

  ghost predicate Ended(r: Router, order: seq<nat>) {
    forall i :: 0 <= i < |order| ==> order[i] < |r.routes| && r.routes[order[i]].terminal
  }

  lemma {:induction false} TerminateKeeps(r: Router, s: Session, order: seq<nat>, bounds: Bounds)
    requires TableInv(r, bounds) && AllKnown(r, order)
    ensures TableInv(Terminate(r, s, order), bounds)
    ensures Terminate(r, s, order).roles == r.roles && Terminate(r, s, order).present == r.present
  {
    if order != [] {
      TerminateKeeps(r, s, order[..|order| - 1], bounds);
      TerminateOneKeeps(Terminate(r, s, order[..|order| - 1]), s, order[|order| - 1], bounds);
    }
  }

  lemma TerminateOneEnds(r: Router, s: Session, n: nat)
    requires Known(r, n)
    ensures SameEnds(r.routes, TerminateOne(r, s, n).routes) && TerminateOne(r, s, n).routes[n].terminal
  {
  }

  lemma {:induction false} TerminateEnds(r: Router, s: Session, order: seq<nat>)
    requires AllKnown(r, order)
    ensures SameEnds(r.routes, Terminate(r, s, order).routes) && Ended(Terminate(r, s, order), order)
  {
    if order != [] {
      var before := order[..|order| - 1];
      var last := order[|order| - 1];
      TerminateEnds(r, s, before);
      var mid := Terminate(r, s, before);
      TerminateOneEnds(mid, s, last);
      var r' := TerminateOne(mid, s, last);
      SameEndsTransitive(r.routes, mid.routes, r'.routes);
      StillEnded(mid, r', before);
      assert order == before + [last];
      EndedOneMore(r', before, last);
    }
  }

  lemma StillEnded(r: Router, r': Router, order: seq<nat>)
    requires Ended(r, order) && SameEnds(r.routes, r'.routes)
    ensures Ended(r', order)
  {
  }

  lemma EndedOneMore(r: Router, order: seq<nat>, n: nat)
    requires Ended(r, order) && n < |r.routes| && r.routes[n].terminal
    ensures Ended(r, order + [n])
  {
  }

  lemma DepartKeeps(r: Router, s: Session, order: seq<nat>, bounds: Bounds)
    requires TableInv(r, bounds) && s in r.tables && AllKnown(r, order)
    requires Covers(order, r.tables[s].calls)
    ensures TableInv(Depart(r, s, order), bounds)
    ensures forall n: nat :: n < |r.routes| && (r.routes[n].caller == s || r.routes[n].callee == s) ==> Depart(r, s, order).routes[n].terminal
  {
    TerminateKeeps(r, s, order, bounds);
    TerminateEnds(r, s, order);
    var r' := Terminate(r, s, order);
    forall n: nat | n < |r.routes| && (r.routes[n].caller == s || r.routes[n].callee == s) ensures r'.routes[n].terminal {
      if !r.routes[n].terminal {
        assert InBothTables(r.tables, r.routes[n], n);
        assert n in order;
        var i :| 0 <= i < |order| && order[i] == n;
      }
    }
    forall n: nat | n < |r'.routes| ensures Attended(r'.routes[n], r.roles, r.present - {s}) {
      assert Attended(r'.routes[n], r.roles, r.present);
    }
  }
}
