/** The whole conversation of a route: what each end of a call is told, from its dispatch to its end. */
module CallConversations {
  import opened Basics
  import opened HomeModel
  import opened Calls
  import opened CallTables
  import opened CallBooks
  import opened CallTheorems

  /** The frames of one route, in the order in which they were handed over. */
  function Talk(log: seq<Sent>, n: nat): seq<Sent> {
    if log == [] then []
    else Talk(log[..|log| - 1], n) + if log[|log| - 1].route == n then [log[|log| - 1]] else []
  }

  lemma TalkOneMore(log: seq<Sent>, e: Sent, n: nat)
    ensures Talk(log + [e], n) == Talk(log, n) + if e.route == n then [e] else []
  {
    assert (log + [e])[..|log + [e]| - 1] == log;
  }

  lemma {:induction false} NoTalkYet(routes: seq<Route>, log: seq<Sent>, n: nat)
    requires AllFaithful(routes, log) && n >= |routes|
    ensures Talk(log, n) == []
  {
    if log != [] {
      assert Faithful(routes, log[|log| - 1]);
      NoTalkYet(routes, log[..|log| - 1], n);
    }
  }

  function Up(route: Route, n: nat, frame: CallFrame): Sent {
    Sent(route.caller, frame, n)
  }

  function Down(route: Route, n: nat, frame: CallFrame): Sent {
    Sent(route.callee, frame, n)
  }

  predicate IsCaller(route: Route, s: Session, id: int) {
    route.caller == s && route.callerID == id
  }

  predicate IsCallee(route: Route, s: Session, id: int) {
    route.callee == s && route.calleeID == id
  }

  predicate Live(r: Router, n: nat) {
    n < |r.routes| && !r.routes[n].terminal
  }

  // ---------- one step ----------

  /** What the departure of one end tells the other. */
  function LastWord(route: Route, s: Session, n: nat): Sent {
    if route.caller == s then Down(route, n, Cancel(route.calleeID, OUTCOME_UNKNOWN))
    else Up(route, n, Failure(route.callerID, OUTCOME_UNKNOWN))
  }

  /** What a step tells the two ends of a live route, read off the route and the step alone. */
  function Says(r: Router, s: Session, l: CallLabel, bounds: Bounds, n: nat): seq<Sent>
    requires CallApplies(r, s, l) && n < |r.routes|
  {
    var route := r.routes[n];
    match l
    case Resulting(id, final, guard, routable, _) =>
      if !IsCallee(route, s, id) || Guarded(r, s, guard) || !routable then []
      else if final then [Up(route, n, Final(route.callerID))]
      else if route.credit > 0 then [Up(route, n, Chunk(route.callerID))]
      else []
    case Failing(id, guard, routable, _) =>
      if IsCallee(route, s, id) && !Guarded(r, s, guard) && routable then [Up(route, n, Rejected(route.callerID))] else []
    case Cancelling(id, reason, guard, _) =>
      if IsCaller(route, s, id) && !Guarded(r, s, guard)
      then [Down(route, n, Cancel(route.calleeID, reason)), Up(route, n, Failure(route.callerID, OUTCOME_UNKNOWN))] else []
    case Crediting(id, additional, guard, _) =>
      if IsCaller(route, s, id) && !Guarded(r, s, guard) && route.credit + additional <= bounds.credit
      then [Down(route, n, Grant(route.calleeID, additional))] else []
    case Departing(_) =>
      if route.caller == s || route.callee == s then [LastWord(route, s, n)] else []
    case _ => []
  }

  /** The step ends the route: it says a last word, or the deadline passes in silence. */
  predicate Ends(r: Router, s: Session, l: CallLabel, bounds: Bounds, n: nat)
    requires CallApplies(r, s, l) && n < |r.routes|
  {
    || l == Expiring(n)
    || (Says(r, s, l, bounds, n) != [] && (l.Failing? || l.Cancelling? || l.Departing? || (l.Resulting? && l.final)))
  }

  /** What a step does to the credit of a live route: a chunk uses one, a grant adds its amount. */
  function CreditAfter(r: Router, s: Session, l: CallLabel, bounds: Bounds, n: nat): int
    requires CallApplies(r, s, l) && n < |r.routes|
  {
    r.routes[n].credit
    + if Says(r, s, l, bounds, n) == [] then 0 else if l.Resulting? && !l.final then -1 else if l.Crediting? then l.additional else 0
  }

  /** The step does to a live route what is said above. */
  ghost predicate AsSaid(r: Router, r': Router, s: Session, l: CallLabel, bounds: Bounds, n: nat)
    requires CallApplies(r, s, l) && n < |r.routes|
  {
    && n < |r'.routes|
    && Talk(r'.log, n) == Talk(r.log, n) + Says(r, s, l, bounds, n)
    && (r'.routes[n].terminal <==> Ends(r, s, l, bounds, n))
    && r'.routes[n].credit == CreditAfter(r, s, l, bounds, n)
  }

  /** The entry of a callee under its ID leads to the live route it serves under that ID, and to no other ... */
  lemma ServesIff(r: Router, s: Session, id: int, n: nat)
    requires LivePlaced(r.routes, r.tables) && EndsKnown(r.routes, r.tables) && Live(r, n)
    ensures IsCallee(r.routes[n], s, id) <==> Serves(r, s, id) && r.tables[s].calls[id] == n
  {
    assert InBothTables(r.tables, r.routes[n], n);
  }

  /** ... and so does that of a caller. */
  lemma OriginatesIff(r: Router, s: Session, id: int, n: nat)
    requires LivePlaced(r.routes, r.tables) && EndsKnown(r.routes, r.tables) && Live(r, n)
    ensures IsCaller(r.routes[n], s, id) <==> Originates(r, s, id) && r.tables[s].calls[id] == n
  {
    assert InBothTables(r.tables, r.routes[n], n);
  }

  lemma ResultStep(r: Router, s: Session, l: CallLabel, bounds: Bounds)
    requires l.Resulting? && CallApplies(r, s, l)
    ensures var r' := CallStep(r, s, l, bounds);
            if Guarded(r, s, l.guard) || !Serves(r, s, l.id) || !l.routable then r' == r
            else
              var m := r.tables[s].calls[l.id];
              var route := r.routes[m];
              if l.final then r'.routes == r.routes[m := route.(terminal := true, timer := false)] && r'.log == r.log + [Up(route, m, Final(route.callerID))]
              else if route.credit == 0 then r' == r
              else r'.routes == r.routes[m := route.(credit := route.credit - 1)] && r'.log == r.log + [Up(route, m, Chunk(route.callerID))]
  {
  }

  lemma ResultSays(r: Router, s: Session, l: CallLabel, bounds: Bounds, n: nat)
    requires LivePlaced(r.routes, r.tables) && EndsKnown(r.routes, r.tables) && Live(r, n) && r.routes[n].credit >= 0
    requires l.Resulting? && CallApplies(r, s, l)
    ensures AsSaid(r, CallStep(r, s, l, bounds), s, l, bounds, n)
  {
    ServesIff(r, s, l.id, n);
    ResultStep(r, s, l, bounds);
    if Serves(r, s, l.id) {
      var m := r.tables[s].calls[l.id];
      TalkOneMore(r.log, Up(r.routes[m], m, if l.final then Final(r.routes[m].callerID) else Chunk(r.routes[m].callerID)), n);
    }
  }

  lemma ErrorSays(r: Router, s: Session, l: CallLabel, bounds: Bounds, n: nat)
    requires LivePlaced(r.routes, r.tables) && EndsKnown(r.routes, r.tables) && Live(r, n)
    requires l.Failing? && CallApplies(r, s, l)
    ensures AsSaid(r, CallStep(r, s, l, bounds), s, l, bounds, n)
  {
    ServesIff(r, s, l.id, n);
    if Serves(r, s, l.id) {
      var m := r.tables[s].calls[l.id];
      TalkOneMore(r.log, Up(r.routes[m], m, Rejected(r.routes[m].callerID)), n);
    }
  }

  lemma CancelStep(r: Router, s: Session, l: CallLabel, bounds: Bounds)
    requires l.Cancelling? && CallApplies(r, s, l) && AllArmed(r.routes)
    ensures var r' := CallStep(r, s, l, bounds);
            if Guarded(r, s, l.guard) || !Originates(r, s, l.id) then r' == r
            else
              var m := r.tables[s].calls[l.id];
              var route := r.routes[m];
              && r'.routes == r.routes[m := route.(terminal := true, timer := false)]
              && r'.log == r.log + [Down(route, m, Cancel(route.calleeID, l.reason))] + [Up(route, m, Failure(route.callerID, OUTCOME_UNKNOWN))]
  {
    if Originates(r, s, l.id) {
      assert Armed(r.routes[r.tables[s].calls[l.id]]);
    }
  }

  lemma CancelSays(r: Router, s: Session, l: CallLabel, bounds: Bounds, n: nat)
    requires LivePlaced(r.routes, r.tables) && EndsKnown(r.routes, r.tables) && AllArmed(r.routes) && Live(r, n)
    requires l.Cancelling? && CallApplies(r, s, l)
    ensures AsSaid(r, CallStep(r, s, l, bounds), s, l, bounds, n)
  {
    OriginatesIff(r, s, l.id, n);
    CancelStep(r, s, l, bounds);
    if Originates(r, s, l.id) {
      var m := r.tables[s].calls[l.id];
      var e := Down(r.routes[m], m, Cancel(r.routes[m].calleeID, l.reason));
      TalkOneMore(r.log, e, n);
      TalkOneMore(r.log + [e], Up(r.routes[m], m, Failure(r.routes[m].callerID, OUTCOME_UNKNOWN)), n);
    }
  }

  lemma CreditStep(r: Router, s: Session, l: CallLabel, bounds: Bounds)
    requires l.Crediting? && CallApplies(r, s, l)
    ensures var r' := CallStep(r, s, l, bounds);
            if Guarded(r, s, l.guard) || !Originates(r, s, l.id) then r' == r
            else
              var m := r.tables[s].calls[l.id];
              var route := r.routes[m];
              if route.credit + l.additional > bounds.credit then r' == r
              else && r'.routes == r.routes[m := route.(credit := route.credit + l.additional)]
                   && r'.log == r.log + [Down(route, m, Grant(route.calleeID, l.additional))]
  {
  }

  lemma CreditSays(r: Router, s: Session, l: CallLabel, bounds: Bounds, n: nat)
    requires LivePlaced(r.routes, r.tables) && EndsKnown(r.routes, r.tables) && Live(r, n)
    requires l.Crediting? && CallApplies(r, s, l)
    ensures AsSaid(r, CallStep(r, s, l, bounds), s, l, bounds, n)
  {
    OriginatesIff(r, s, l.id, n);
    CreditStep(r, s, l, bounds);
    if Originates(r, s, l.id) {
      var m := r.tables[s].calls[l.id];
      TalkOneMore(r.log, Down(r.routes[m], m, Grant(r.routes[m].calleeID, l.additional)), n);
    }
  }

  // ---------- departures ----------

  lemma TerminateOneSays(r: Router, s: Session, m: nat, n: nat)
    requires Known(r, m) && n < |r.routes|
    ensures var r' := TerminateOne(r, s, m);
            var route := r.routes[n];
            && r'.routes[n] == (if m == n && Live(r, n) then route.(terminal := true, timer := false) else route)
            && Talk(r'.log, n) == Talk(r.log, n) + if m == n && Live(r, n) then [LastWord(route, s, n)] else []
  {
    TalkOneMore(r.log, LastWord(r.routes[m], s, m), n);
  }

  /** A visit ends each live route it meets once, however often it meets it, and leaves the others alone. */
  lemma {:induction false} TerminateSays(r: Router, s: Session, order: seq<nat>, n: nat)
    requires AllKnown(r, order) && Live(r, n)
    ensures var r' := Terminate(r, s, order);
            var route := r.routes[n];
            && r'.routes[n] == (if n in order then route.(terminal := true, timer := false) else route)
            && Talk(r'.log, n) == Talk(r.log, n) + if n in order then [LastWord(route, s, n)] else []
  {
    if order != [] {
      var before := order[..|order| - 1];
      TerminateSays(r, s, before, n);
      TerminateOneSays(Terminate(r, s, before), s, order[|order| - 1], n);
      assert n in order <==> n in before || n == order[|order| - 1];
    }
  }

  /** The table of a connection has exactly the live routes it is an end of. */
  lemma VisitedIffEnd(r: Router, s: Session, order: seq<nat>, n: nat)
    requires Entries(r.routes, r.tables) && LivePlaced(r.routes, r.tables)
    requires s in r.tables && Calls.Covers(order, r.tables[s].calls) && Live(r, n)
    ensures n in order <==> r.routes[n].caller == s || r.routes[n].callee == s
  {
    assert InBothTables(r.tables, r.routes[n], n);
    if n in order {
      var i :| 0 <= i < |order| && order[i] == n;
      var id :| id in r.tables[s].calls && r.tables[s].calls[id] == order[i];
      assert Entry(r.routes, s, id, n);
    }
  }

  lemma DepartSays(r: Router, s: Session, l: CallLabel, bounds: Bounds, n: nat)
    requires Entries(r.routes, r.tables) && LivePlaced(r.routes, r.tables) && Live(r, n)
    requires l.Departing? && CallEnabled(r, s, l, bounds)
    ensures AsSaid(r, CallStep(r, s, l, bounds), s, l, bounds, n)
  {
    TerminateSays(r, s, l.order, n);
    VisitedIffEnd(r, s, l.order, n);
  }

  // ---------- new routes, and the steps of a deadline ----------

  /** A call says nothing of any other route; its own begins with the dispatch, and is accepted if its callee takes that. */
  lemma CallSays(r: Router, s: Session, q: Request, calleeID: int, bounds: Bounds, n: nat)
    requires CallApplies(r, s, Calling(q, calleeID)) && AllFaithful(r.routes, r.log)
    ensures var r' := StartCall(r, s, q, calleeID, bounds).0;
            && |r.routes| <= |r'.routes| <= |r.routes| + 1
            && (n < |r.routes| ==> r'.routes[n] == r.routes[n] && Talk(r'.log, n) == Talk(r.log, n))
            && (|r.routes| == n < |r'.routes| ==>
                 var route := r'.routes[n];
                 && route.terminal == !route.accepted
                 && Talk(r'.log, n) == [Down(route, n, Dispatch(route.calleeID, route.credit))]
                                       + if route.accepted then [Up(route, n, Accepted(route.callerID))] else [])
  {
    if q.target.Some? {
      var m := |r.routes|;
      var e := Sent(q.target.value, Dispatch(calleeID, q.credit), m);
      NoTalkYet(r.routes, r.log, m);
      TalkOneMore(r.log, e, n);
      TalkOneMore(r.log + [e], Sent(s, Accepted(q.callerID), m), n);
      PlacedRoutes(Allocated(r, q.target.value, calleeID), s, q, calleeID);
    }
  }

  lemma PlacedRoutes(r: Router, s: Session, q: Request, calleeID: int)
    requires s in r.tables && q.target.Some? && q.target.value in r.tables
    ensures var r' := Placed(r, s, q, calleeID).0;
            var n := |r.routes|;
            var e := Sent(q.target.value, Dispatch(calleeID, q.credit), n);
            var route := Opened(s, q, calleeID, q.taken);
            if !q.remaining || !q.routable then r' == r
            else if q.taken then r'.routes == r.routes + [route] && r'.log == r.log + [e] + [Sent(s, Accepted(q.callerID), n)]
            else r'.routes == r.routes + [route.(terminal := true, timer := false)] && r'.log == r.log + [e]
  {
  }

  lemma TimerSays(r: Router, s: Session, l: CallLabel, bounds: Bounds, n: nat)
    requires Live(r, n) && CallEnabled(r, s, l, bounds) && (l.Arriving? || l.Expiring? || l.Warning? || l.Telling?)
    requires forall m :: m in r.expiring ==> m < |r.routes| && r.routes[m].terminal
    ensures AsSaid(r, CallStep(r, s, l, bounds), s, l, bounds, n)
  {
    match l
    case Warning(m) => TalkOneMore(r.log, Down(r.routes[m], m, Cancel(r.routes[m].calleeID, DEADLINE_EXCEEDED)), n);
    case Telling(m) =>
      TalkOneMore(r.log, Up(r.routes[m], m, Failure(r.routes[m].callerID, OUTCOME_UNKNOWN)), n);
      TalkOneMore(r.log, Up(r.routes[m], m, Failure(r.routes[m].callerID, DEADLINE_EXCEEDED)), n);
    case _ =>
  }

  lemma ExpiringAreOver(r: Router, bounds: Bounds, m: nat)
    requires RouterInv(r, bounds) && m in r.expiring
    ensures m < |r.routes| && r.routes[m].terminal && r.routes[m].accepted
  {
    assert RouteBooks(r, m, bounds);
    NoNegativeEnds(r.log, m);
  }

  /**
   What every step does to every live route: whom it tells what, whether it ends the route, and what it does to
   the credit. A result or an error ends or continues exactly the route whose callee sends it under its own ID,
   a cancel or a grant concerns exactly the route of its caller, a departure ends exactly the routes of whoever
   departs, and a deadline its own route; a result beyond the credit and a grant beyond the bound do nothing.
   */
  lemma StepSays(r: Router, s: Session, l: CallLabel, bounds: Bounds, n: nat)
    requires RouterInv(r, bounds) && CallEnabled(r, s, l, bounds) && Live(r, n)
    ensures AsSaid(r, CallStep(r, s, l, bounds), s, l, bounds, n)
  {
    match l
    case Calling(q, calleeID) => CallSays(r, s, q, calleeID, bounds, n);
    case Resulting(_, _, _, _, _) => assert RouteBooks(r, n, bounds); ResultSays(r, s, l, bounds, n);
    case Failing(_, _, _, _) => ErrorSays(r, s, l, bounds, n);
    case Cancelling(_, _, _, _) => CancelSays(r, s, l, bounds, n);
    case Crediting(_, _, _, _) => CreditSays(r, s, l, bounds, n);
    case Departing(_) => DepartSays(r, s, l, bounds, n);
    case _ =>
      forall m | m in r.expiring ensures m < |r.routes| && r.routes[m].terminal {
        ExpiringAreOver(r, bounds, m);
      }
      TimerSays(r, s, l, bounds, n);
  }

  // ---------- routes that are over ----------

  /** What a step says of a route that has ended: only its deadline still speaks, first to the callee, then to the caller. */
  function Afterwards(r: Router, l: CallLabel, n: nat): seq<Sent>
    requires n < |r.routes|
  {
    var route := r.routes[n];
    if l == Warning(n) && route.accepted then [Down(route, n, Cancel(route.calleeID, DEADLINE_EXCEEDED))]
    else if l == Telling(n) then [Up(route, n, Failure(route.callerID, if route.accepted then OUTCOME_UNKNOWN else DEADLINE_EXCEEDED))]
    else []
  }

  lemma {:induction false} TerminateSilent(r: Router, s: Session, order: seq<nat>, n: nat)
    requires AllKnown(r, order)
    ensures var r' := Terminate(r, s, order);
            && r'.expiring == r.expiring && r'.warned == r.warned
            && (n < |r.routes| && r.routes[n].terminal ==> r'.routes[n] == r.routes[n] && Talk(r'.log, n) == Talk(r.log, n))
  {
    if order != [] {
      var before := order[..|order| - 1];
      TerminateSilent(r, s, before, n);
      if n < |r.routes| {
        TerminateOneSays(Terminate(r, s, before), s, order[|order| - 1], n);
      }
    }
  }

  lemma FramesOver(r: Router, s: Session, l: CallLabel, bounds: Bounds, n: nat)
    requires AllArmed(r.routes) && n < |r.routes| && r.routes[n].terminal && CallApplies(r, s, l)
    requires l.Resulting? || l.Failing? || l.Cancelling? || l.Crediting?
    ensures Talk(CallStep(r, s, l, bounds).log, n) == Talk(r.log, n)
  {
    if l.Cancelling? {
      CancelStep(r, s, l, bounds);
    }
    if s in r.tables && l.id in r.tables[s].calls && r.tables[s].calls[l.id] < |r.routes| {
      var m := r.tables[s].calls[l.id];
      var route := r.routes[m];
      if l.Resulting? {
        ResultStep(r, s, l, bounds);
        TalkOneMore(r.log, Up(route, m, if l.final then Final(route.callerID) else Chunk(route.callerID)), n);
      } else if l.Failing? {
        TalkOneMore(r.log, Up(route, m, Rejected(route.callerID)), n);
      } else if l.Crediting? {
        CreditStep(r, s, l, bounds);
        TalkOneMore(r.log, Down(route, m, Grant(route.calleeID, l.additional)), n);
      } else {
        var e := Down(route, m, Cancel(route.calleeID, l.reason));
        TalkOneMore(r.log, e, n);
        TalkOneMore(r.log + [e], Up(route, m, Failure(route.callerID, OUTCOME_UNKNOWN)), n);
      }
    }
  }

  lemma TimersOver(r: Router, s: Session, l: CallLabel, bounds: Bounds, n: nat)
    requires n < |r.routes| && r.routes[n].terminal && CallApplies(r, s, l)
    requires l.Arriving? || l.Expiring? || l.Warning? || l.Telling?
    ensures Talk(CallStep(r, s, l, bounds).log, n) == Talk(r.log, n) + Afterwards(r, l, n)
  {
    match l
    case Warning(m) => TalkOneMore(r.log, Down(r.routes[m], m, Cancel(r.routes[m].calleeID, DEADLINE_EXCEEDED)), n);
    case Telling(m) =>
      var route := r.routes[m];
      TalkOneMore(r.log, Up(route, m, Failure(route.callerID, if route.accepted then OUTCOME_UNKNOWN else DEADLINE_EXCEEDED)), n);
    case _ =>
  }

  lemma OverSays(r: Router, s: Session, l: CallLabel, bounds: Bounds, n: nat)
    requires RouterInv(r, bounds) && CallEnabled(r, s, l, bounds) && n < |r.routes| && r.routes[n].terminal
    ensures Talk(CallStep(r, s, l, bounds).log, n) == Talk(r.log, n) + Afterwards(r, l, n)
  {
    match l
    case Calling(q, calleeID) => CallSays(r, s, q, calleeID, bounds, n);
    case Departing(order) => TerminateSilent(r, s, order, n);
    case Resulting(_, _, _, _, _) => FramesOver(r, s, l, bounds, n);
    case Failing(_, _, _, _) => FramesOver(r, s, l, bounds, n);
    case Cancelling(_, _, _, _) => FramesOver(r, s, l, bounds, n);
    case Crediting(_, _, _, _) => FramesOver(r, s, l, bounds, n);
    case _ => TimersOver(r, s, l, bounds, n);
  }

  /** Only the steps of a deadline touch its marks. */
  lemma Marks(r: Router, s: Session, l: CallLabel, bounds: Bounds, n: nat)
    requires CallEnabled(r, s, l, bounds)
    ensures var r' := CallStep(r, s, l, bounds);
            && (n in r'.expiring <==> (n in r.expiring && l != Telling(n)) || (l == Expiring(n) && !r.routes[n].terminal))
            && (n in r'.warned <==> n in r.warned || l == Warning(n))
  {
    match l
    case Departing(order) => TerminateSilent(r, s, order, n);
    case Calling(q, _) => if q.target.Some? { PlacedRoutes(Allocated(r, q.target.value, l.calleeID), s, q, l.calleeID); }
    case _ =>
  }

  lemma OnlyCallsAdd(r: Router, s: Session, l: CallLabel, bounds: Bounds)
    requires CallEnabled(r, s, l, bounds) && !l.Calling?
    ensures |CallStep(r, s, l, bounds).routes| == |r.routes|
  {
  }

  // ---------- runs ----------

  predicate StreamFrame(route: Route, n: nat, e: Sent) {
    e == Up(route, n, Chunk(route.callerID)) || (e.frame.Grant? && e == Down(route, n, Grant(route.calleeID, e.frame.amount)))
  }

  /** Dispatched to the callee, accepted to the caller, and from then on chunks and grants only. */
  ghost predicate Underway(route: Route, n: nat, t: seq<Sent>) {
    && |t| >= 2
    && t[0].frame.Dispatch? && t[0] == Down(route, n, Dispatch(route.calleeID, t[0].frame.credit))
    && t[1] == Up(route, n, Accepted(route.callerID))
    && forall k :: 2 <= k < |t| ==> StreamFrame(route, n, t[k])
  }

  lemma UnderwayOn(r: Router, r': Router, s: Session, l: CallLabel, bounds: Bounds, n: nat)
    requires RouterInv(r, bounds) && CallEnabled(r, s, l, bounds) && r' == CallStep(r, s, l, bounds) && Live(r, n) && Live(r', n)
    requires Underway(r.routes[n], n, Talk(r.log, n)) && Onward(r, r', n)
    ensures Underway(r'.routes[n], n, Talk(r'.log, n))
  {
    StepSays(r, s, l, bounds, n);
    var says := Says(r, s, l, bounds, n);
    assert forall k :: 0 <= k < |says| ==> StreamFrame(r.routes[n], n, says[k]);
    UnderwayByNames(r.routes[n], r'.routes[n], n, Talk(r'.log, n), s, l);
  }

  lemma {:induction false} LiveTalk(rs: seq<Router>, bounds: Bounds, i: int, n: nat)
    requires CallRun(rs, bounds) && 0 <= i < |rs| && Live(rs[i], n)
    ensures Underway(rs[i].routes[n], n, Talk(rs[i].log, n))
    decreases i
  {
    if i > 0 {
      assert CallStepsTo(rs, bounds, i);
      var s, l :| CallEnabled(rs[i - 1], s, l, bounds) && rs[i] == CallStep(rs[i - 1], s, l, bounds);
      RunKeepsRouter(rs, bounds, i - 1);
      if n < |rs[i - 1].routes| {
        StepOnward(rs[i - 1], s, l, bounds, n);
        LiveTalk(rs, bounds, i - 1, n);
        UnderwayOn(rs[i - 1], rs[i], s, l, bounds, n);
      } else if l.Calling? {
        CallSays(rs[i - 1], s, l.q, l.calleeID, bounds, n);
      } else {
        OnlyCallsAdd(rs[i - 1], s, l, bounds);
      }
    }
  }

  /** Step `j` of the run, by `s` with label `l`, ends route `n`. */
  ghost predicate EndsAt(rs: seq<Router>, bounds: Bounds, j: int, n: nat, s: Session, l: CallLabel) {
    && 0 < j < |rs| && CallEnabled(rs[j - 1], s, l, bounds) && rs[j] == CallStep(rs[j - 1], s, l, bounds)
    && Live(rs[j - 1], n) && n < |rs[j].routes| && rs[j].routes[n].terminal
  }

  lemma {:induction false} WarnedAreOver(rs: seq<Router>, bounds: Bounds, i: int, n: nat)
    requires CallRun(rs, bounds) && 0 <= i < |rs| && n in rs[i].warned
    ensures n < |rs[i].routes| && rs[i].routes[n].terminal
    decreases i
  {
    if i > 0 {
      assert CallStepsTo(rs, bounds, i);
      var s, l :| CallEnabled(rs[i - 1], s, l, bounds) && rs[i] == CallStep(rs[i - 1], s, l, bounds);
      RunKeepsRouter(rs, bounds, i - 1);
      Marks(rs[i - 1], s, l, bounds, n);
      if n in rs[i - 1].warned {
        WarnedAreOver(rs, bounds, i - 1, n);
      } else {
        ExpiringAreOver(rs[i - 1], bounds, n);
      }
      StepOnward(rs[i - 1], s, l, bounds, n);
    }
  }

  /** What is said last of a route that the step of `s` ended; the two last words of a deadline come one by one. */
  function Closing(route: Route, n: nat, s: Session, l: CallLabel, warned: bool, expiring: bool): seq<Sent> {
    match l
    case Resulting(_, _, _, _, _) => [Up(route, n, Final(route.callerID))]
    case Failing(_, _, _, _) => [Up(route, n, Rejected(route.callerID))]
    case Cancelling(_, reason, _, _) => [Down(route, n, Cancel(route.calleeID, reason)), Up(route, n, Failure(route.callerID, OUTCOME_UNKNOWN))]
    case Departing(_) =>
      if s == route.caller then [Down(route, n, Cancel(route.calleeID, OUTCOME_UNKNOWN))] else [Up(route, n, Failure(route.callerID, OUTCOME_UNKNOWN))]
    case _ =>
      (if warned then [Down(route, n, Cancel(route.calleeID, DEADLINE_EXCEEDED))] else [])
      + (if expiring then [] else [Up(route, n, Failure(route.callerID, OUTCOME_UNKNOWN))])
  }

  /** Who or what ended the route, and what has been said of it since. */
  ghost predicate Closed(r: Router, n: nat, before: seq<Sent>, s: Session, l: CallLabel)
    requires n < |r.routes|
  {
    var route := r.routes[n];
    && route.terminal && route.accepted
    && Talk(r.log, n) == before + Closing(route, n, s, l, n in r.warned, n in r.expiring)
    && (if l.Expiring? then n !in r.expiring ==> n in r.warned else n !in r.warned && n !in r.expiring)
  }

  /** It is the result, the error, the cancel, the departure or the deadline of the route itself that ends it. */
  predicate EndOf(route: Route, n: nat, s: Session, l: CallLabel) {
    match l
    case Resulting(id, final, _, _, _) => IsCallee(route, s, id) && final
    case Failing(id, _, _, _) => IsCallee(route, s, id)
    case Cancelling(id, _, _, _) => IsCaller(route, s, id)
    case Departing(_) => s == route.caller || s == route.callee
    case Expiring(m) => m == n
    case _ => false
  }

  ghost predicate SameEnd(route: Route, route': Route) {
    && route'.caller == route.caller && route'.callee == route.callee
    && route'.callerID == route.callerID && route'.calleeID == route.calleeID && route'.accepted == route.accepted
  }

  lemma UnderwayByNames(route: Route, route': Route, n: nat, t: seq<Sent>, s: Session, l: CallLabel)
    requires SameEnd(route, route')
    ensures Underway(route, n, t) ==> Underway(route', n, t)
    ensures EndOf(route, n, s, l) ==> EndOf(route', n, s, l)
  {
    if Underway(route, n, t) {
      forall k | 2 <= k < |t| ensures StreamFrame(route', n, t[k]) {
        assert StreamFrame(route, n, t[k]);
      }
    }
  }

  lemma ClosesNow(rs: seq<Router>, bounds: Bounds, j: int, n: nat, s: Session, l: CallLabel)
    requires CallRun(rs, bounds) && EndsAt(rs, bounds, j, n, s, l)
    ensures Underway(rs[j].routes[n], n, Talk(rs[j - 1].log, n)) && EndOf(rs[j].routes[n], n, s, l)
    ensures Closed(rs[j], n, Talk(rs[j - 1].log, n), s, l)
  {
    RunKeepsRouter(rs, bounds, j - 1);
    LiveTalk(rs, bounds, j - 1, n);
    StepOnward(rs[j - 1], s, l, bounds, n);
    UnderwayByNames(rs[j - 1].routes[n], rs[j].routes[n], n, Talk(rs[j - 1].log, n), s, l);
    LiveIsArmed(rs[j - 1], n, bounds);
    StepSays(rs[j - 1], s, l, bounds, n);
    Marks(rs[j - 1], s, l, bounds, n);
    LiveIsUnmarked(rs, bounds, j - 1, n);
  }

  lemma LiveIsUnmarked(rs: seq<Router>, bounds: Bounds, i: int, n: nat)
    requires CallRun(rs, bounds) && 0 <= i < |rs| && Live(rs[i], n)
    ensures n !in rs[i].warned && n !in rs[i].expiring
  {
    RunKeepsRouter(rs, bounds, i);
    if n in rs[i].expiring {
      ExpiringAreOver(rs[i], bounds, n);
    }
    if n in rs[i].warned {
      WarnedAreOver(rs, bounds, i, n);
    }
  }

  /** The last words so far and the next one are the last words then. */
  lemma ClosingGrows(r: Router, route': Route, n: nat, s: Session, l: CallLabel, k: CallLabel)
    requires n < |r.routes| && r.routes[n].accepted && SameEnd(r.routes[n], route')
    requires k == Warning(n) ==> n in r.expiring && n !in r.warned
    requires k == Telling(n) ==> n in r.expiring && n in r.warned
    requires if l.Expiring? then n !in r.expiring ==> n in r.warned else n !in r.warned && n !in r.expiring
    ensures Closing(r.routes[n], n, s, l, n in r.warned, n in r.expiring) + Afterwards(r, k, n)
            == Closing(route', n, s, l, n in r.warned || k == Warning(n), n in r.expiring && k != Telling(n))
  {
  }

  lemma StaysClosed(r: Router, r': Router, bounds: Bounds, n: nat, before: seq<Sent>, s: Session, l: CallLabel, t: Session, k: CallLabel)
    requires RouterInv(r, bounds) && CallEnabled(r, t, k, bounds) && r' == CallStep(r, t, k, bounds)
    requires n < |r.routes| && Closed(r, n, before, s, l)
    ensures n < |r'.routes| && SameEnd(r.routes[n], r'.routes[n])
    ensures Closed(r', n, before, s, l)
  {
    StepOnward(r, t, k, bounds, n);
    OverSays(r, t, k, bounds, n);
    Marks(r, t, k, bounds, n);
    ClosingGrows(r, r'.routes[n], n, s, l, k);
  }

  /**
   The whole conversation, over every run: a route that is over was dispatched and accepted, carried chunks and
   grants, and was ended by one step about the route itself; what has been said since is what that step makes
   due. A cancel tells the callee its reason, a deadline and a departing caller tell it their codes, and a callee
   that answers or departs is told nothing.
   */
  lemma {:induction false} ConversationIsComplete(rs: seq<Router>, bounds: Bounds, j: int, i: int, n: nat, s: Session, l: CallLabel)
    requires CallRun(rs, bounds) && EndsAt(rs, bounds, j, n, s, l) && j <= i < |rs|
    ensures n < |rs[i].routes| && EndOf(rs[i].routes[n], n, s, l)
    ensures Underway(rs[i].routes[n], n, Talk(rs[j - 1].log, n))
    ensures Closed(rs[i], n, Talk(rs[j - 1].log, n), s, l)
    decreases i
  {
    if i == j {
      ClosesNow(rs, bounds, j, n, s, l);
    } else {
      ConversationIsComplete(rs, bounds, j, i - 1, n, s, l);
      assert CallStepsTo(rs, bounds, i);
      var t, k :| CallEnabled(rs[i - 1], t, k, bounds) && rs[i] == CallStep(rs[i - 1], t, k, bounds);
      RunKeepsRouter(rs, bounds, i - 1);
      StaysClosed(rs[i - 1], rs[i], bounds, n, Talk(rs[j - 1].log, n), s, l, t, k);
      UnderwayByNames(rs[i - 1].routes[n], rs[i].routes[n], n, Talk(rs[j - 1].log, n), s, l);
    }
  }

  lemma EndedNowOrBefore(rs: seq<Router>, bounds: Bounds, i: int, n: nat, s: Session, l: CallLabel)
    requires CallRun(rs, bounds) && 0 < i < |rs| && n < |rs[i].routes| && rs[i].routes[n].terminal && rs[i].routes[n].accepted
    requires CallEnabled(rs[i - 1], s, l, bounds) && rs[i] == CallStep(rs[i - 1], s, l, bounds)
    ensures n < |rs[i - 1].routes| && rs[i - 1].routes[n].accepted
    ensures rs[i - 1].routes[n].terminal || EndsAt(rs, bounds, i, n, s, l)
  {
    RunKeepsRouter(rs, bounds, i - 1);
    StepOnward(rs[i - 1], s, l, bounds, n);
    if l.Calling? {
      CallSays(rs[i - 1], s, l.q, l.calleeID, bounds, n);
    } else {
      OnlyCallsAdd(rs[i - 1], s, l, bounds);
    }
  }

  /** Every accepted route that is over was ended by some step. */
  lemma {:induction false} EndedBySome(rs: seq<Router>, bounds: Bounds, i: int, n: nat)
    requires CallRun(rs, bounds) && 0 <= i < |rs| && n < |rs[i].routes| && rs[i].routes[n].terminal && rs[i].routes[n].accepted
    ensures exists j, s, l :: j <= i && EndsAt(rs, bounds, j, n, s, l)
    decreases i
  {
    assert i > 0 && CallStepsTo(rs, bounds, i);
    var s, l :| CallEnabled(rs[i - 1], s, l, bounds) && rs[i] == CallStep(rs[i - 1], s, l, bounds);
    EndedNowOrBefore(rs, bounds, i, n, s, l);
    if rs[i - 1].routes[n].terminal {
      EndedBySome(rs, bounds, i - 1, n);
    }
  }

  // ---------- what the callee is told of an end ----------

  function Cancels(t: seq<Sent>): seq<Sent> {
    if t == [] then [] else Cancels(t[..|t| - 1]) + if t[|t| - 1].frame.Cancel? then [t[|t| - 1]] else []
  }

  lemma {:induction false} CancelsAppend(t: seq<Sent>, u: seq<Sent>)
    ensures Cancels(t + u) == Cancels(t) + Cancels(u)
  {
    if u == [] {
      assert t + u == t;
    } else {
      CancelsAppend(t, u[..|u| - 1]);
      assert (t + u)[..|t + u| - 1] == t + u[..|u| - 1];
    }
  }

  lemma {:induction false} NoneUnderway(t: seq<Sent>)
    requires forall k :: 0 <= k < |t| ==> !t[k].frame.Cancel?
    ensures Cancels(t) == []
  {
    if t != [] {
      NoneUnderway(t[..|t| - 1]);
    }
  }

  /** The codes with which the callee is told that a call is over: one, or none if it ended the call itself or is about to be told. */
  function CalleeIsTold(route: Route, s: Session, l: CallLabel, warned: bool): seq<int> {
    match l
    case Cancelling(_, reason, _, _) => [reason]
    case Departing(_) => if s == route.caller then [OUTCOME_UNKNOWN] else []
    case Expiring(_) => if warned then [DEADLINE_EXCEEDED] else []
    case _ => []
  }

  /**
   Over every run, the callee of a route that is over has been sent exactly one CALL_CANCEL under its own ID, with
   the reason of the cancel, or with the code of the deadline or of the departure of the caller; none if the route
   ended with its own answer or departure; and none yet while the deadline has passed and its warning is due.
   */
  lemma CalleeLearnsOfTheEnd(rs: seq<Router>, bounds: Bounds, j: int, i: int, n: nat, s: Session, l: CallLabel)
    requires CallRun(rs, bounds) && EndsAt(rs, bounds, j, n, s, l) && j <= i < |rs|
    ensures n < |rs[i].routes|
    ensures var r := rs[i];
            var route := r.routes[n];
            var told := CalleeIsTold(route, s, l, n in r.warned);
            && Cancels(Talk(r.log, n)) == (if told == [] then [] else [Sent(route.callee, Cancel(route.calleeID, told[0]), n)])
            && (l.Expiring? && n !in r.warned ==> n in r.expiring)
  {
    ConversationIsComplete(rs, bounds, j, i, n, s, l);
    var r := rs[i];
    var before := Talk(rs[j - 1].log, n);
    var closing := Closing(r.routes[n], n, s, l, n in r.warned, n in r.expiring);
    NoneUnderway(before);
    CancelsAppend(before, closing);
    ClosingCancels(r.routes[n], n, s, l, n in r.warned, n in r.expiring);
  }

  lemma CancelsOfTwo(a: Sent, b: Sent)
    ensures Cancels([a]) == if a.frame.Cancel? then [a] else []
    ensures !b.frame.Cancel? ==> Cancels([a, b]) == Cancels([a]) && Cancels([b]) == []
  {
    assert [a][..0] == [] && [b][..0] == [] && [a, b][..1] == [a];
  }

  lemma ClosingCancels(route: Route, n: nat, s: Session, l: CallLabel, warned: bool, expiring: bool)
    requires EndOf(route, n, s, l)
    ensures var told := CalleeIsTold(route, s, l, warned);
            Cancels(Closing(route, n, s, l, warned, expiring)) == if told == [] then [] else [Sent(route.callee, Cancel(route.calleeID, told[0]), n)]
  {
    var failed := Up(route, n, Failure(route.callerID, OUTCOME_UNKNOWN));
    match l
    case Resulting(_, _, _, _, _) => CancelsOfTwo(Up(route, n, Final(route.callerID)), failed);
    case Failing(_, _, _, _) => CancelsOfTwo(Up(route, n, Rejected(route.callerID)), failed);
    case Cancelling(_, reason, _, _) => CancelsOfTwo(Down(route, n, Cancel(route.calleeID, reason)), failed);
    case Departing(_) => CancelsOfTwo(Down(route, n, Cancel(route.calleeID, OUTCOME_UNKNOWN)), failed);
    case Expiring(_) => CancelsOfTwo(Down(route, n, Cancel(route.calleeID, DEADLINE_EXCEEDED)), failed);
  }

  /** A live route has sent its callee no CALL_CANCEL. */
  lemma LiveCalleeIsNotCancelled(rs: seq<Router>, bounds: Bounds, i: int, n: nat)
    requires CallRun(rs, bounds) && 0 <= i < |rs| && Live(rs[i], n)
    ensures Cancels(Talk(rs[i].log, n)) == []
  {
    LiveTalk(rs, bounds, i, n);
    NoneUnderway(Talk(rs[i].log, n));
  }
}
