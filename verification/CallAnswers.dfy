/** Whom a call goes to, when it is placed, and how the frames of its two ends are answered. */
module CallAnswers {
  import opened Basics
  import opened Catalogs
  import opened HomeModel
  import opened Replicas
  import opened Invariants
  import opened Calls
  import opened CallTables
  import opened CallTheorems
  import opened CallConversations
  import opened Events
  import opened HomeCalls
  import opened HomeCallTheorems

  // ---------- targets ----------

  /** The active configuration of the slot declares the function of that ID. */
  predicate DeclaresFunction(c: Catalog, slot: string, id: int) {
    && id in c.functions.byID && c.functions.byID[id] != ""
    && slot in c.configs && c.functions.byID[id] in c.configs[slot].functions
  }

  lemma FunctionOwnerDeclares(c: Catalog, slot: string, id: int)
    requires OwnersInv(Function, c.functionOwners, c.configs)
    ensures DeclaresFunction(c, slot, id)
            <==> var name := NameOf(c.functions.byID, id); name != "" && name in c.functionOwners && c.functionOwners[name] == slot
  {
  }

  /** A user that no active slot lists may only ask to join. */
  predicate MayCall(h: Home, s: Session, id: int)
    requires s in h.peers
  {
    h.peers[s].role == User ==> Enrolled(h.catalog.configs, h.peers[s].user) || NameOf(h.catalog.functions.byID, id) == "miakapp.join"
  }

  /**
   Whom a call is meant for. By default it is the acting, available connection of the slot that declares the
   function; a coordinator may say so by name, and the declarer itself may call an available, enrolled user.
   */
  predicate IsCalled(h: Home, s: Session, id: int, target: Target, t: Session)
    requires s in h.peers && t in h.peers
  {
    && Available(h.peers[t])
    && match target
       case Default => Acting(h, t) && DeclaresFunction(h.catalog, h.peers[t].name, id)
       case ToCoordinator(name) =>
         && h.peers[s].role == Coordinator
         && Acting(h, t) && h.peers[t].name == name && DeclaresFunction(h.catalog, name, id)
       case ToUser(u) =>
         && h.peers[s].role == Coordinator && DeclaresFunction(h.catalog, h.peers[s].name, id)
         && u == t && t in h.users && Enrolled(h.catalog.configs, h.peers[t].user)
       case Malformed => false
  }

  /** A call goes exactly to whom it is meant for. */
  lemma CalleeIff(h: Home, s: Session, id: int, target: Target, t: Session)
    requires SlotsOK(h) && OwnersInv(Function, h.catalog.functionOwners, h.catalog.configs)
    requires s in h.peers && t in h.peers
    ensures Callee(h, s, id, target).0 == Some(t) <==> MayCall(h, s, id) && IsCalled(h, s, id, target, t)
  {
    var name := NameOf(h.catalog.functions.byID, id);
    if name in h.catalog.functionOwners {
      ReachableIffActing(h, h.catalog.functionOwners[name], t);
      FunctionOwnerDeclares(h.catalog, h.catalog.functionOwners[name], id);
    }
    FunctionOwnerDeclares(h.catalog, h.peers[s].name, id);
    FunctionOwnerDeclares(h.catalog, h.peers[t].name, id);
  }

  /** Calls with a wrong target, in the terms of who declares the function. */
  lemma TargetRefusals(h: Home, s: Session, id: int, owner: string)
    requires OwnersInv(Function, h.catalog.functionOwners, h.catalog.configs)
    requires s in h.peers && DeclaresFunction(h.catalog, owner, id) && MayCall(h, s, id)
    ensures h.peers[s].role != Coordinator ==>
              forall target: Target :: target.ToUser? || target.ToCoordinator? ==> Callee(h, s, id, target) == (None, Refused(WRONG_DIRECTION, false))
    ensures h.peers[s].role == Coordinator && h.peers[s].name != owner ==>
              forall u :: Callee(h, s, id, ToUser(u)) == (None, Refused(FORBIDDEN, false))
    ensures h.peers[s].role == Coordinator ==>
              forall name :: name != owner ==> Callee(h, s, id, ToCoordinator(name)) == (None, Refused(FORBIDDEN, false))
  {
    FunctionOwnerDeclares(h.catalog, owner, id);
  }

  lemma UncallableRefusals(h: Home, s: Session, id: int, target: Target)
    requires OwnersInv(Function, h.catalog.functionOwners, h.catalog.configs) && s in h.peers
    ensures (forall slot :: !DeclaresFunction(h.catalog, slot, id)) ==> Callee(h, s, id, target) == (None, Refused(NOT_DECLARED, false))
    ensures (exists slot :: DeclaresFunction(h.catalog, slot, id)) && !MayCall(h, s, id) ==>
              Callee(h, s, id, target) == (None, Refused(NOT_ENROLLED, false))
  {
    var name := NameOf(h.catalog.functions.byID, id);
    if name in h.catalog.functionOwners {
      FunctionOwnerDeclares(h.catalog, h.catalog.functionOwners[name], id);
    }
    if slot :| DeclaresFunction(h.catalog, slot, id) {
      FunctionOwnerDeclares(h.catalog, slot, id);
    }
  }

  // ---------- placement ----------

  /** The ID belongs to a live route of the connection, at whichever end. */
  ghost predicate InUse(r: Router, s: Session, id: int) {
    exists n: nat :: Live(r, n) && (IsCaller(r.routes[n], s, id) || IsCallee(r.routes[n], s, id))
  }

  lemma InUseIffEntered(r: Router, s: Session, id: int)
    requires Entries(r.routes, r.tables) && LivePlaced(r.routes, r.tables) && s in r.tables
    ensures id in r.tables[s].calls <==> InUse(r, s, id)
  {
    if id in r.tables[s].calls {
      assert Entry(r.routes, s, id, r.tables[s].calls[id]);
      assert Live(r, r.tables[s].calls[id]);
    }
    if n: nat :| Live(r, n) && (IsCaller(r.routes[n], s, id) || IsCallee(r.routes[n], s, id)) {
      assert InBothTables(r.tables, r.routes[n], n);
    }
  }

  /** Somebody the call is meant for is there, has room in its table, and takes the dispatch. */
  ghost predicate Ready(w: World, s: Session, c: CallFrom, bounds: Bounds, t: Session)
    requires s in w.home.peers
  {
    && t in w.home.peers && t in w.router.tables
    && IsCalled(w.home, s, c.functionID, c.target, t) && |w.router.tables[t].calls| < bounds.inflight && Accepts(w.home.peers[t])
  }

  ghost predicate MayPlace(w: World, s: Session, c: CallFrom, bounds: Bounds)
    requires s in w.home.peers && s in w.router.tables
  {
    && (w.home.peers[s].role == Coordinator ==> Acting(w.home, s))
    && !InUse(w.router, s, c.callerID) && |w.router.tables[s].calls| < bounds.inflight
    && c.remaining && c.routable && MayCall(w.home, s, c.functionID)
  }

  lemma PlacesIff(w: World, s: Session, c: CallFrom, bounds: Bounds)
    requires SlotsOK(w.home) && OwnersInv(Function, w.home.catalog.functionOwners, w.home.catalog.configs)
    requires Tied(w.home, w.router) && s in w.home.peers
    requires Entries(w.router.routes, w.router.tables) && LivePlaced(w.router.routes, w.router.tables)
    ensures PlacesCall(w.router, s, RequestOf(w, s, c), bounds)
            <==> MayPlace(w, s, c, bounds) && exists t :: Ready(w, s, c, bounds, t)
    ensures var target := RequestOf(w, s, c).target; PlacesCall(w.router, s, RequestOf(w, s, c), bounds) ==> Ready(w, s, c, bounds, target.value)
  {
    InUseIffEntered(w.router, s, c.callerID);
    GuardIsExact(w.home, s);
    var q := RequestOf(w, s, c);
    if q.target.Some? {
      CalleeIff(w.home, s, c.functionID, c.target, q.target.value);
      assert PlacesCall(w.router, s, q, bounds) ==> Ready(w, s, c, bounds, q.target.value);
    }
    if MayPlace(w, s, c, bounds) && exists t :: Ready(w, s, c, bounds, t) {
      var t :| Ready(w, s, c, bounds, t);
      CalleeIff(w.home, s, c.functionID, c.target, t);
    }
  }

  /** The next route is live exactly if the call may be placed and somebody is ready for it, and then it leads there. */
  ghost predicate PlacedIfReady(w: World, r': Router, s: Session, c: CallFrom, calleeID: int, bounds: Bounds)
    requires s in w.home.peers && s in w.router.tables
  {
    var n := |w.router.routes|;
    && (Live(r', n) <==> MayPlace(w, s, c, bounds) && exists t :: Ready(w, s, c, bounds, t))
    && (Live(r', n) ==>
         var route := r'.routes[n];
         && route.caller == s && route.callerID == c.callerID && route.calleeID == calleeID && route.credit == c.credit
         && Ready(w, s, c, bounds, route.callee))
  }

  lemma SentIsPlaced(w: World, s: Session, c: CallFrom, calleeID: int, bounds: Bounds)
    requires SlotsOK(w.home) && OwnersInv(Function, w.home.catalog.functionOwners, w.home.catalog.configs)
    requires Tied(w.home, w.router) && s in w.home.peers
    requires Entries(w.router.routes, w.router.tables) && LivePlaced(w.router.routes, w.router.tables)
    ensures PlacedIfReady(w, StartCall(w.router, s, RequestOf(w, s, c), calleeID, bounds).0, s, c, calleeID, bounds)
  {
    PlacesIff(w, s, c, bounds);
    CallPlaces(w.router, s, RequestOf(w, s, c), calleeID, bounds);
  }

  /**
   Over every run: a CALL is placed exactly if its sender may act, has neither used the ID nor all of its room, and
   somebody the call is meant for is there to take it, before the deadline. It then goes to that connection, with
   the credit of the frame and the ID the callee was given.
   */
  lemma CallIsPlacedIff(ws: seq<World>, env: Env, bounds: Bounds, i: int, s: Session, c: CallFrom, calleeID: int)
    requires WorldRun(ws, env, bounds) && 0 < i < |ws| && CanHappen(ws[i - 1], s, CallSent(c, calleeID), bounds)
    requires ws[i - 1].home.users <= ws[i - 1].home.peers.Keys && SameConnections(ws[i - 1])
    requires ws[i] == Happen(ws[i - 1], s, CallSent(c, calleeID), env, bounds)
    ensures PlacedIfReady(ws[i - 1], ws[i].router, s, c, calleeID, bounds)
  {
    CallFacts(ws, env, bounds, i - 1);
    SentHappens(ws[i - 1], s, c, calleeID, env, bounds);
    SentIsPlaced(ws[i - 1], s, c, calleeID, bounds);
  }

  lemma CallFacts(ws: seq<World>, env: Env, bounds: Bounds, i: int)
    requires WorldRun(ws, env, bounds) && 0 <= i < |ws|
    ensures SlotsOK(ws[i].home) && OwnersInv(Function, ws[i].home.catalog.functionOwners, ws[i].home.catalog.configs)
    ensures Tied(ws[i].home, ws[i].router)
    ensures Entries(ws[i].router.routes, ws[i].router.tables) && LivePlaced(ws[i].router.routes, ws[i].router.tables)
  {
    WorldFacts(ws, env, bounds, i);
  }

  lemma SentHappens(w: World, s: Session, c: CallFrom, calleeID: int, env: Env, bounds: Bounds)
    requires w.home.users <= w.home.peers.Keys && SameConnections(w) && CanHappen(w, s, CallSent(c, calleeID), bounds)
    ensures var q := RequestOf(w, s, c);
            && (q.target.Some? ==> q.target.value in w.router.tables)
            && Happen(w, s, CallSent(c, calleeID), env, bounds).router == StartCall(w.router, s, q, calleeID, bounds).0
  {
  }

  /** What a CALL is answered: the first of its obstacles, or Ok once its dispatch is taken and its sender takes the answer. */
  lemma CallIsAnswered(w: World, s: Session, c: CallFrom, calleeID: int, bounds: Bounds)
    requires SlotsOK(w.home) && OwnersInv(Function, w.home.catalog.functionOwners, w.home.catalog.configs)
    requires Tied(w.home, w.router) && s in w.home.peers
    requires Entries(w.router.routes, w.router.tables) && LivePlaced(w.router.routes, w.router.tables)
    ensures var outcome := StartCall(w.router, s, RequestOf(w, s, c), calleeID, bounds).1;
            && (outcome == Ok ==> MayPlace(w, s, c, bounds) && exists t :: Ready(w, s, c, bounds, t))
            && (w.home.peers[s].role == Coordinator && !Acting(w.home, s) ==> outcome == ActiveGuard(w.home, s) != Ok)
            && ((w.home.peers[s].role == Coordinator ==> Acting(w.home, s)) ==>
                 && (InUse(w.router, s, c.callerID) ==> outcome == Refused(DUPLICATE_REQUEST, false))
                 && (!InUse(w.router, s, c.callerID) && |w.router.tables[s].calls| >= bounds.inflight ==> outcome == Refused(LIMIT_EXCEEDED, false))
                 && (MayPlace(w, s, c, bounds) && (exists t :: Ready(w, s, c, bounds, t)) && outcome != Ok ==> outcome == Refused(SLOW_CONSUMER, true)))
  {
    PlacesIff(w, s, c, bounds);
    InUseIffEntered(w.router, s, c.callerID);
    GuardIsExact(w.home, s);
  }

  // ---------- answers to the frames of the two ends ----------

  /** Results and errors of a live route are forwarded, if they fit and, for a chunk, if credit is left. */
  lemma ResultAnswer(r: Router, s: Session, id: int, final: bool, guard: Outcome, routable: bool, taken: bool, n: nat)
    requires LivePlaced(r.routes, r.tables) && EndsKnown(r.routes, r.tables) && s in r.tables && s in r.roles
    requires !Guarded(r, s, guard) && Live(r, n) && IsCallee(r.routes[n], s, id)
    ensures ForwardResult(r, s, id, final, guard, routable, taken).1
            == if (final || r.routes[n].credit != 0) && routable then (if taken then Ok else Refused(UNAVAILABLE, true)) else Refused(LIMIT_EXCEEDED, false)
    ensures ForwardError(r, s, id, guard, routable, taken).1
            == if routable then (if taken then Ok else Refused(UNAVAILABLE, true)) else Refused(LIMIT_EXCEEDED, false)
  {
    ServesIff(r, s, id, n);
  }

  /** Over every run: what a callee says of a call that is over is dropped without an error, until its counter goes round. */
  lemma LateResultsAreSilent(rs: seq<Router>, bounds: Bounds, i: int, s: Session, id: int, n: nat,
                             final: bool, guard: Outcome, routable: bool, taken: bool)
    requires CallRun(rs, bounds) && 0 <= i < |rs| && s in rs[i].tables && s in rs[i].roles && !Guarded(rs[i], s, guard)
    requires n < |rs[i].routes| && rs[i].routes[n].terminal && IsCallee(rs[i].routes[n], s, id)
    requires !rs[i].tables[s].wrapped && !InUse(rs[i], s, id)
    ensures ForwardResult(rs[i], s, id, final, guard, routable, taken) == (rs[i], Ok)
    ensures ForwardError(rs[i], s, id, guard, routable, taken) == (rs[i], Ok)
  {
    RunKeepsRouter(rs, bounds, i);
    InUseIffEntered(rs[i], s, id);
    assert Numbered(rs[i].routes, s, rs[i].tables[s]);
  }

  /** An ID that is not that of a live route of the sender's is refused: to a callee if it was never given, to a caller in any case. */
  lemma UnknownIdsAreRefused(r: Router, s: Session, id: int, reason: int, additional: int, final: bool, guard: Outcome,
                             routable: bool, taken: bool, bounds: Bounds)
    requires s in r.tables && s in r.roles && !Guarded(r, s, guard)
    ensures (forall n: nat :: Live(r, n) ==> !IsCallee(r.routes[n], s, id)) && id > r.tables[s].next ==>
              && ForwardResult(r, s, id, final, guard, routable, taken) == (r, Refused(NOT_DECLARED, false))
              && ForwardError(r, s, id, guard, routable, taken) == (r, Refused(NOT_DECLARED, false))
    ensures (forall n: nat :: Live(r, n) ==> !IsCaller(r.routes[n], s, id)) ==>
              && CancelCall(r, s, id, reason, guard, taken) == (r, Refused(NOT_DECLARED, false))
              && CreditCall(r, s, id, additional, guard, taken, bounds) == (r, Refused(NOT_DECLARED, false))
  {
    if Serves(r, s, id) {
      assert Live(r, r.tables[s].calls[id]) && IsCallee(r.routes[r.tables[s].calls[id]], s, id);
    }
    if Originates(r, s, id) {
      assert Live(r, r.tables[s].calls[id]) && IsCaller(r.routes[r.tables[s].calls[id]], s, id);
    }
  }

  /** A caller may always cancel its live call, and grant it credit up to the bound. */
  lemma CallerAnswer(r: Router, s: Session, id: int, reason: int, additional: int, guard: Outcome, taken: bool, bounds: Bounds, n: nat)
    requires LivePlaced(r.routes, r.tables) && EndsKnown(r.routes, r.tables) && s in r.tables && s in r.roles
    requires !Guarded(r, s, guard) && Live(r, n) && IsCaller(r.routes[n], s, id)
    ensures CancelCall(r, s, id, reason, guard, taken).1 == if taken then Ok else Refused(SLOW_CONSUMER, true)
    ensures CreditCall(r, s, id, additional, guard, taken, bounds).1
            == if r.routes[n].credit + additional <= bounds.credit then (if taken then Ok else Refused(UNAVAILABLE, true)) else Refused(LIMIT_EXCEEDED, false)
  {
    OriginatesIff(r, s, id, n);
  }

  // ---------- from the router to the queues ----------

  function FramesTo(sent: seq<Sent>, t: Session): nat {
    if sent == [] then 0 else FramesTo(sent[..|sent| - 1], t) + if sent[|sent| - 1].to == t then 1 else 0
  }

  /** Every frame the router sends reaches the queue of its connection while there is room for all of them. */
  lemma {:induction false} FramesReachTheirQueues(h: Home, sent: seq<Sent>, t: Session)
    requires t in h.peers && h.peers[t].open && h.peers[t].room >= FramesTo(sent, t)
    ensures var p, p' := h.peers[t], HandOver(h, sent).peers[t];
            && p'.open && p'.live == p.live && p'.room == p.room - FramesTo(sent, t)
            && |p'.log| == |p.log| + FramesTo(sent, t)
  {
    if sent != [] {
      FramesReachTheirQueues(h, sent[..|sent| - 1], t);
    }
  }
}
