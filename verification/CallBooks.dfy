/** The accounts of every route: its credit, its single end, and what its frames may say. */
module CallBooks {
  import opened Basics
  import opened HomeModel
  import opened Calls
  import opened CallTables

  /** What the log is searched for: credit told to the callee, chunks it used, and ends told to the caller. */
  datatype Tally = Told | Used | Ends

  function Weight(t: Tally, f: CallFrame): int {
    match t
    case Told => (match f case Dispatch(_, credit) => credit case Grant(_, amount) => amount case _ => 0)
    case Used => if f.Chunk? then 1 else 0
    case Ends => if f.Final? || f.Rejected? || f.Failure? then 1 else 0
  }

  function Total(t: Tally, log: seq<Sent>, n: nat): int {
    if log == [] then 0
    else Total(t, log[..|log| - 1], n) + if log[|log| - 1].route == n then Weight(t, log[|log| - 1].frame) else 0
  }

  lemma TotalOneMore(t: Tally, log: seq<Sent>, e: Sent, n: nat)
    ensures Total(t, log + [e], n) == Total(t, log, n) + if e.route == n then Weight(t, e.frame) else 0
  {
    assert (log + [e])[..|log + [e]| - 1] == log;
  }

  predicate CallerSide(f: CallFrame) {
    f.Accepted? || f.Chunk? || f.Final? || f.Rejected? || f.Failure?
  }

  /** A frame goes to the right end of its route under that end's own ID, and the relay only fails calls with OUTCOME_UNKNOWN. */
  predicate Faithful(routes: seq<Route>, e: Sent) {
    && e.route < |routes|
    && (if CallerSide(e.frame) then e.to == routes[e.route].caller && e.frame.id == routes[e.route].callerID
        else e.to == routes[e.route].callee && e.frame.id == routes[e.route].calleeID)
    && (e.frame.Failure? ==> e.frame.code == OUTCOME_UNKNOWN)
  }

  ghost predicate AllFaithful(routes: seq<Route>, log: seq<Sent>) {
    forall i :: 0 <= i < |log| ==> Faithful(routes, log[i])
  }

  /** A route's credit is what its callee was told less what it used, and never exceeds the bound. */
  ghost predicate Credited(route: Route, log: seq<Sent>, n: nat, bounds: Bounds) {
    && 0 <= route.credit <= bounds.credit
    && route.credit == Total(Told, log, n) - Total(Used, log, n)
  }

  /** An accepted route that has ended has told its caller once, or is about to, or its caller left. */
  ghost predicate EndedOnce(route: Route, r: Router, n: nat) {
    Total(Ends, r.log, n) + (if n in r.expiring then 1 else 0) + (if n in r.cut then 1 else 0)
    == if route.terminal && route.accepted then 1 else 0
  }

  ghost predicate RouteBooks(r: Router, n: nat, bounds: Bounds)
    requires n < |r.routes|
  {
    Credited(r.routes[n], r.log, n, bounds) && EndedOnce(r.routes[n], r, n)
  }

  ghost predicate Books(r: Router, bounds: Bounds) {
    && AllFaithful(r.routes, r.log)
    && (forall n: nat :: n < |r.routes| ==> RouteBooks(r, n, bounds))
    && (forall n :: n in r.expiring ==> n < |r.routes|)
    && (forall n :: n in r.cut ==> n < |r.routes|)
  }

  lemma {:induction false} NothingYet(t: Tally, routes: seq<Route>, log: seq<Sent>, n: nat)
    requires AllFaithful(routes, log) && n >= |routes|
    ensures Total(t, log, n) == 0
  {
    if log != [] {
      NothingYet(t, routes, log[..|log| - 1], n);
    }
  }

  ghost predicate SameNames(routes: seq<Route>, routes': seq<Route>) {
    && |routes| <= |routes'|
    && forall n: nat :: n < |routes| ==>
      && routes'[n].caller == routes[n].caller && routes'[n].callee == routes[n].callee
      && routes'[n].callerID == routes[n].callerID && routes'[n].calleeID == routes[n].calleeID
  }

  lemma FaithfulStays(routes: seq<Route>, routes': seq<Route>, log: seq<Sent>)
    requires AllFaithful(routes, log) && SameNames(routes, routes')
    ensures AllFaithful(routes', log)
  {
    forall i | 0 <= i < |log| ensures Faithful(routes', log[i]) {
      assert Faithful(routes, log[i]);
    }
  }

  /** Frames of one route say nothing about another. */
  ghost predicate OnlyAbout(log: seq<Sent>, log': seq<Sent>, n: nat) {
    && |log| <= |log'| && log'[..|log|] == log
    && forall i :: |log| <= i < |log'| ==> log'[i].route == n
  }

  lemma {:induction false} OthersTotals(t: Tally, log: seq<Sent>, log': seq<Sent>, n: nat, m: nat)
    requires OnlyAbout(log, log', n) && m != n
    ensures Total(t, log', m) == Total(t, log, m)
    decreases |log'|
  {
    if |log'| > |log| {
      var before := log'[..|log'| - 1];
      assert before[..|log|] == log;
      OthersTotals(t, log, before, n, m);
    } else {
      assert log' == log;
    }
  }

  /** A step about one existing route keeps the books if it keeps those of that route. */
  lemma BooksByRoute(r: Router, r': Router, n: nat, bounds: Bounds)
    requires Books(r, bounds) && n < |r.routes|
    requires |r'.routes| == |r.routes| && SameNames(r.routes, r'.routes)
    requires forall m: nat :: m < |r.routes| && m != n ==> r'.routes[m] == r.routes[m]
    requires OnlyAbout(r.log, r'.log, n)
    requires forall m :: m != n ==> (m in r'.expiring <==> m in r.expiring) && (m in r'.cut <==> m in r.cut)
    requires AllFaithful(r'.routes, r'.log) && RouteBooks(r', n, bounds)
    ensures Books(r', bounds)
  {
    forall m: nat | m < |r'.routes| ensures RouteBooks(r', m, bounds) {
      if m != n {
        assert RouteBooks(r, m, bounds);
        OthersTotals(Told, r.log, r'.log, n, m);
        OthersTotals(Used, r.log, r'.log, n, m);
        OthersTotals(Ends, r.log, r'.log, n, m);
      }
    }
  }

  lemma TalliesOneMore(log: seq<Sent>, e: Sent, n: nat)
    ensures Total(Told, log + [e], n) == Total(Told, log, n) + if e.route == n then Weight(Told, e.frame) else 0
    ensures Total(Used, log + [e], n) == Total(Used, log, n) + if e.route == n then Weight(Used, e.frame) else 0
    ensures Total(Ends, log + [e], n) == Total(Ends, log, n) + if e.route == n then Weight(Ends, e.frame) else 0
  {
    TotalOneMore(Told, log, e, n);
    TotalOneMore(Used, log, e, n);
    TotalOneMore(Ends, log, e, n);
  }

  /** One more frame about route `n`, from a state whose books differ at most at `n`. */
  lemma FaithfulSend(routes: seq<Route>, routes': seq<Route>, log: seq<Sent>, e: Sent)
    requires AllFaithful(routes, log) && SameNames(routes, routes') && Faithful(routes', e)
    ensures AllFaithful(routes', log + [e]) && OnlyAbout(log, log + [e], e.route)
  {
    FaithfulStays(routes, routes', log);
  }

  /** A live, accepted route ends with one frame to its caller. */
  lemma EndBooks(r: Router, n: nat, f: CallFrame, bounds: Bounds)
    requires Books(r, bounds) && Known(r, n) && !r.routes[n].terminal && r.routes[n].accepted
    requires f.Final? || f.Rejected? || (f.Failure? && f.code == OUTCOME_UNKNOWN)
    requires f.id == r.routes[n].callerID
    ensures Books(ToCaller(RemoveRoute(r, n), n, f), bounds)
  {
    var r' := ToCaller(RemoveRoute(r, n), n, f);
    var e := Sent(r.routes[n].caller, f, n);
    assert RouteBooks(r, n, bounds);
    FaithfulSend(r.routes, r'.routes, r.log, e);
    TalliesOneMore(r.log, e, n);
    BooksByRoute(r, r', n, bounds);
  }

  /** A frame to the callee that neither grants credit nor ends the route. */
  lemma CancelBooks(r: Router, n: nat, code: int, bounds: Bounds)
    requires Books(r, bounds) && Known(r, n)
    ensures Books(ToCallee(r, n, Cancel(r.routes[n].calleeID, code)), bounds)
  {
    var e := Sent(r.routes[n].callee, Cancel(r.routes[n].calleeID, code), n);
    var r' := ToCallee(r, n, Cancel(r.routes[n].calleeID, code));
    assert RouteBooks(r, n, bounds);
    FaithfulSend(r.routes, r'.routes, r.log, e);
    TalliesOneMore(r.log, e, n);
    BooksByRoute(r, r', n, bounds);
  }

  lemma ChunkBooks(r: Router, n: nat, bounds: Bounds)
    requires Books(r, bounds) && Known(r, n) && r.routes[n].credit != 0
    ensures var route := r.routes[n];
            Books(ToCaller(r.(routes := r.routes[n := route.(credit := route.credit - 1)]), n, Chunk(route.callerID)), bounds)
  {
    var route := r.routes[n];
    var r' := ToCaller(r.(routes := r.routes[n := route.(credit := route.credit - 1)]), n, Chunk(route.callerID));
    var e := Sent(route.caller, Chunk(route.callerID), n);
    assert RouteBooks(r, n, bounds);
    FaithfulSend(r.routes, r'.routes, r.log, e);
    TalliesOneMore(r.log, e, n);
    BooksByRoute(r, r', n, bounds);
  }

  function Granted(r: Router, n: nat, additional: int): Router
    requires Known(r, n)
  {
    var route := r.routes[n];
    ToCallee(r.(routes := r.routes[n := route.(credit := route.credit + additional)]), n, Grant(route.calleeID, additional))
  }

  lemma GrantBooks(r: Router, n: nat, additional: int, bounds: Bounds)
    requires Books(r, bounds) && Known(r, n) && additional >= 0 && r.routes[n].credit + additional <= bounds.credit
    ensures Books(Granted(r, n, additional), bounds)
  {
    var route := r.routes[n];
    var r' := Granted(r, n, additional);
    var e := Sent(route.callee, Grant(route.calleeID, additional), n);
    assert RouteBooks(r, n, bounds);
    FaithfulSend(r.routes, r'.routes, r.log, e);
    TalliesOneMore(r.log, e, n);
    BooksByRoute(r, r', n, bounds);
  }

  lemma ExpireBooks(r: Router, n: nat, bounds: Bounds)
    requires Books(r, bounds) && Known(r, n) && r.routes[n].accepted
    ensures Books(ExpireCall(r, n), bounds)
  {
    if !r.routes[n].terminal {
      var r' := ExpireCall(r, n);
      assert RouteBooks(r, n, bounds);
      NoNegativeEnds(r.log, n);
      FaithfulStays(r.routes, r'.routes, r.log);
      BooksByRoute(r, r', n, bounds);
    }
  }

  lemma CutBooks(r: Router, n: nat, bounds: Bounds)
    requires Books(r, bounds) && Known(r, n) && !r.routes[n].terminal && r.routes[n].accepted
    ensures Books(RemoveRoute(r, n).(cut := r.cut + {n}), bounds)
  {
    var r' := RemoveRoute(r, n).(cut := r.cut + {n});
    assert RouteBooks(r, n, bounds);
    NoNegativeEnds(r.log, n);
    FaithfulStays(r.routes, r'.routes, r.log);
    BooksByRoute(r, r', n, bounds);
  }

  lemma TellBooks(r: Router, n: nat, bounds: Bounds)
    requires Books(r, bounds) && Known(r, n) && n in r.expiring
    ensures Books(TellCaller(r, n), bounds)
  {
    var route := r.routes[n];
    assert RouteBooks(r, n, bounds);
    NoNegativeEnds(r.log, n);
    var r' := TellCaller(r, n);
    var e := Sent(route.caller, Failure(route.callerID, OUTCOME_UNKNOWN), n);
    FaithfulSend(r.routes, r'.routes, r.log, e);
    TalliesOneMore(r.log, e, n);
    BooksByRoute(r, r', n, bounds);
  }

  lemma {:induction false} NoNegativeEnds(log: seq<Sent>, n: nat)
    ensures Total(Ends, log, n) >= 0
  {
    if log != [] {
      NoNegativeEnds(log[..|log| - 1], n);
    }
  }

  /** A new route starts with the credit its dispatch tells; if the dispatch was not taken it is over at once. */
  lemma PlaceBooks(r: Router, route: Route, routes': seq<Route>, bounds: Bounds)
    requires Books(r, bounds) && routes' == r.routes + [route]
    requires 0 <= route.credit <= bounds.credit && route.terminal == !route.accepted
    ensures var n := |r.routes|;
            Books(r.(routes := routes', log := r.log + [Sent(route.callee, Dispatch(route.calleeID, route.credit), n)]), bounds)
  {
    var n := |r.routes|;
    var e := Sent(route.callee, Dispatch(route.calleeID, route.credit), n);
    var r' := r.(routes := routes', log := r.log + [e]);
    FaithfulSend(r.routes, routes', r.log, e);
    NothingYet(Told, r.routes, r.log, n);
    NothingYet(Used, r.routes, r.log, n);
    NothingYet(Ends, r.routes, r.log, n);
    forall m: nat | m < |routes'| ensures RouteBooks(r', m, bounds) {
      TalliesOneMore(r.log, e, m);
      if m < n {
        assert RouteBooks(r, m, bounds);
      }
    }
  }

  lemma AcceptBooks(r: Router, n: nat, bounds: Bounds)
    requires Books(r, bounds) && Known(r, n)
    ensures Books(ToCaller(r, n, Accepted(r.routes[n].callerID)), bounds)
  {
    var e := Sent(r.routes[n].caller, Accepted(r.routes[n].callerID), n);
    var r' := ToCaller(r, n, Accepted(r.routes[n].callerID));
    assert RouteBooks(r, n, bounds);
    FaithfulSend(r.routes, r'.routes, r.log, e);
    TalliesOneMore(r.log, e, n);
    BooksByRoute(r, r', n, bounds);
  }
}
