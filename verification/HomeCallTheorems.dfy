/** Over every run of a home with its calls: who may call, whom a call may reach, and what happens to those who are gone. */
module HomeCallTheorems {
  import opened Basics
  import opened Catalogs
  import opened Views
  import opened HomeModel
  import opened Replicas
  import opened Invariants
  import opened HomeTheorems
  import opened HomeHistory
  import opened Calls
  import opened CallTables
  import opened CallBooks
  import CallTheorems
  import opened Events
  import opened HomeCalls
  import opened HomeCallSteps

  ghost predicate WorldInv(w: World, env: Env, bounds: Bounds) {
    ReachableHome(w.home, env) && ReachableRouter(w.router, bounds) && Tied(w.home, w.router)
  }

  // ---------- what the home decides of a call is right ----------

  /** The connection of a slot is here, and is a coordinator. */
  lemma HolderIsHere(h: Home, name: string)
    requires SlotsOK(h) && name in h.slots && h.slots[name].connection.Some?
    ensures var c := h.slots[name].connection.value; c in h.peers && h.peers[c].role == Coordinator && IsHere(h, c)
  {
    assert Linked(name, h.slots[name], h.peers, h.connections);
  }

  /** A call resolves to a coordinator or a user that is here, or is refused. */
  lemma ResolvesToSomeoneHere(h: Home, s: Session, functionID: int, target: Target)
    requires Membership(h) && SlotsOK(h) && s in h.peers
    ensures var (callee, refusal) := Callee(h, s, functionID, target);
            if callee.Some? then IsHere(h, callee.value) && h.peers[callee.value].role != Cli else refusal != Ok
  {
    var callee := Callee(h, s, functionID, target).0;
    if callee.Some? {
      if target.ToUser? {
        assert callee.value in h.users;
      } else {
        var owner := if target.ToCoordinator? then target.name else h.catalog.functionOwners[NameOf(h.catalog.functions.byID, functionID)];
        HolderIsHere(h, owner);
      }
    }
  }

  /** Exactly the connection of a slot, ready and with declarations, passes the guard of a coordinator. */
  lemma GuardIsExact(h: Home, s: Session)
    requires s in h.peers
    ensures ActiveGuard(h, s) == Ok <==>
              Current(h, s) && h.slots[h.peers[s].name].ready && h.peers[s].name in h.catalog.configs
    ensures !Current(h, s) ==> ActiveGuard(h, s) == Refused(GENERATION_REPLACED, true)
  {
  }

  lemma GuardFits(h: Home, r: Router, s: Session)
    requires Tied(h, r) && s in h.peers
    ensures GuardOK(r, s, ActiveGuard(h, s))
  {
    GuardIsExact(h, s);
  }

  lemma TargetFits(w: World, s: Session, c: CallFrom)
    requires Membership(w.home) && SlotsOK(w.home) && Tied(w.home, w.router) && s in w.home.peers
    ensures Callable(w.router, RequestOf(w, s, c))
  {
    ResolvesToSomeoneHere(w.home, s, c.functionID, c.target);
  }

  /** So every frame and timer of a home with its calls is a step the router is proved for. */
  lemma FramesAreEnabled(w: World, s: Session, e: Happening, bounds: Bounds)
    requires Membership(w.home) && SlotsOK(w.home) && Tied(w.home, w.router)
    requires CanHappen(w, s, e, bounds) && (IsFrame(e) || IsTimer(e))
    ensures CallEnabled(w.router, s, RouterLabel(w, s, e), bounds)
  {
    if IsFrame(e) {
      GuardFits(w.home, w.router, s);
    }
    if e.CallSent? {
      TargetFits(w, s, e.call);
    }
  }

  // ---------- every step keeps home and router tied ----------

  lemma CallingStays(r: Router, s: Session, l: CallLabel, bounds: Bounds)
    requires CallApplies(r, s, l) && l.Calling?
    ensures var r' := CallStep(r, s, l, bounds);
            r'.present == r.present && r'.roles == r.roles && r'.tables.Keys == r.tables.Keys
  {
  }

  lemma AnswerStays(r: Router, s: Session, l: CallLabel, bounds: Bounds)
    requires CallApplies(r, s, l) && (l.Resulting? || l.Failing?)
    ensures var r' := CallStep(r, s, l, bounds);
            r'.present == r.present && r'.roles == r.roles && r'.tables.Keys == r.tables.Keys
  {
  }

  lemma FrameStays(r: Router, s: Session, l: CallLabel, bounds: Bounds)
    requires CallApplies(r, s, l) && !l.Arriving? && !l.Departing?
    ensures var r' := CallStep(r, s, l, bounds);
            r'.present == r.present && r'.roles == r.roles && r'.tables.Keys == r.tables.Keys
  {
    if l.Calling? {
      CallingStays(r, s, l, bounds);
    } else if l.Resulting? || l.Failing? {
      AnswerStays(r, s, l, bounds);
    }
  }

  lemma DepartStays(r: Router, s: Session, order: seq<nat>)
    requires AllKnown(r, order)
    ensures var r' := Depart(r, s, order);
            r'.present == r.present - {s} && r'.roles == r.roles && r'.tables.Keys == r.tables.Keys
  {
    TerminateStays(r, s, order);
  }

  lemma {:induction false} TerminateStays(r: Router, s: Session, order: seq<nat>)
    requires AllKnown(r, order)
    ensures var r' := Terminate(r, s, order); r'.present == r.present && r'.roles == r.roles
  {
    if order != [] {
      TerminateStays(r, s, order[..|order| - 1]);
    }
  }

  lemma TiedByPeople(h: Home, h': Home, r: Router, r': Router)
    requires Tied(h, r) && SamePeople(h, h') && SameHolders(h, h') && SameGenerations(h, h')
    requires r'.present == r.present && r'.roles == r.roles && r'.tables.Keys == r.tables.Keys
    ensures Tied(h', r')
  {
    forall s | s in h'.peers ensures r'.roles[s] == h'.peers[s].role && (s in r'.present <==> IsHere(h', s)) {
      SameHere(h, h', s);
    }
  }

  /** Frames and timers of calls touch queues, routes and tables only. */
  lemma FrameTied(w: World, s: Session, e: Happening, bounds: Bounds)
    requires Tied(w.home, w.router) && ((IsFrame(e) && s in w.home.peers) || IsTimer(e))
    requires CallApplies(w.router, s, RouterLabel(w, s, e))
    ensures var w' := CallWorld(w, s, e, bounds); Tied(w'.home, w'.router)
  {
    var r' := CallStep(w.router, s, RouterLabel(w, s, e), bounds);
    FrameStays(w.router, s, RouterLabel(w, s, e), bounds);
    HandOverPeople(w.home, Added(w.router, r'));
    TiedByPeople(w.home, HandOver(w.home, Added(w.router, r')), w.router, r');
  }

  lemma FrameKeeps(w: World, s: Session, e: Happening, env: Env, bounds: Bounds)
    requires EnvOK(env) && WorldInv(w, env, bounds) && CanHappen(w, s, e, bounds) && (IsFrame(e) || IsTimer(e))
    ensures CallApplies(w.router, s, RouterLabel(w, s, e))
    ensures WorldInv(CallWorld(w, s, e, bounds), env, bounds)
  {
    HomeReached(w.home, env);
    FramesAreEnabled(w, s, e, bounds);
    var l := RouterLabel(w, s, e);
    EnabledApplies(w.router, s, l, bounds);
    RouterSteps(w.router, s, l, bounds);
    var r' := CallStep(w.router, s, l, bounds);
    HandOverReached(w.home, Added(w.router, r'), env);
    FrameTied(w, s, e, bounds);
  }

  lemma AtHomeKeeps(w: World, s: Session, l: Label, env: Env, bounds: Bounds)
    requires EnvOK(env) && WorldInv(w, env, bounds) && Enabled(w.home, s, l) && !l.LAttach? && !l.LDetach?
    ensures w.home.users <= w.home.peers.Keys
    ensures WorldInv(w.(home := Step(w.home, s, l, env)), env, bounds)
  {
    HomeReached(w.home, env);
    HomeSteps(w.home, s, l, env);
    StepPeople(w.home, s, l, env);
    TiedByPeople(w.home, Step(w.home, s, l, env), w.router, w.router);
  }

  lemma EventTied(h: Home, r: Router, s: Session, id: int, target: Target, routable: bool)
    requires Tied(h, r) && s in h.peers
    ensures Tied(Publish(h, s, id, target, routable).0, r)
  {
    var recipients := Events.Route(h, s, id, target, routable).0;
    DeliveredPeople(h, recipients);
    TiedByPeople(h, Delivered(h, recipients), r, r);
  }

  lemma EventKeeps(w: World, s: Session, id: int, target: Target, routable: bool, env: Env, bounds: Bounds)
    requires EnvOK(env) && WorldInv(w, env, bounds) && s in w.home.peers && w.home.users <= w.home.peers.Keys
    ensures WorldInv(w.(home := Publish(w.home, s, id, target, routable).0), env, bounds)
  {
    RecipientsAreKnown(w.home, s, id, target, routable);
    DeliveredReached(w.home, Events.Route(w.home, s, id, target, routable).0, env);
    EventTied(w.home, w.router, s, id, target, routable);
  }

  // ---------- attaching ----------

  /** What an admitted newcomer changes: itself, membership, and the slot it takes. */
  ghost predicate Joined(h: Home, s: Session, p: Peer, h': Home) {
    && s !in h.peers && h'.peers.Keys == h.peers.Keys + {s}
    && h'.connections == h.connections + {s} && h'.users == (if p.role == User then h.users + {s} else h.users)
    && h'.peers[s].role == p.role && h'.peers[s].name == p.name
    && (forall t :: t in h.peers ==>
         h'.peers[t].role == h.peers[t].role && h'.peers[t].name == h.peers[t].name && h'.peers[t].generation == h.peers[t].generation)
    && (if p.role == Coordinator
        then h'.slots == h.slots[p.name := Slot(h'.peers[s].generation, Some(s), false, None)]
        else h'.slots == h.slots)
  }

  lemma AnnouncePeople(h: Home, f: Frame)
    ensures SamePeople(h, Announce(h, f)) && Announce(h, f).slots == h.slots
  {
  }

  lemma JoinedThen(h: Home, s: Session, p: Peer, h1: Home, h': Home)
    requires Joined(h, s, p, h1) && SamePeople(h1, h') && h'.slots == h1.slots
    ensures Joined(h, s, p, h')
  {
  }

  lemma UserJoined(h: Home, s: Session, p: Peer, p': Peer, h': Home)
    requires s !in h.peers && p.role == User && p'.role == p.role && p'.name == p.name
    requires h' == h.(peers := h.peers[s := p'], connections := h.connections + {s}, users := h.users + {s})
    ensures Joined(h, s, p, h')
  {
  }

  lemma UserJoins(h: Home, s: Session, p: Peer, leaseValid: bool, limits: Limits, enc: Frame -> bool)
    requires s !in h.peers && h.users <= h.peers.Keys && p.role == User
    ensures var h' := AttachUser(h, s, p, leaseValid, limits, enc).0; h' == h || Joined(h, s, p, h')
  {
    var frames := [Welcome] + RecoveryFrames(h.catalog, p.user);
    var p' := Bootstrapped(EnqueueAll(p.(lastStateRevision := h.catalog.revision), frames), leaseValid);
    var h1 := h.(peers := h.peers[s := p'], connections := h.connections + {s}, users := h.users + {s});
    EnqueueAllPeople(p.(lastStateRevision := h.catalog.revision), frames);
    UserJoined(h, s, p, p', h1);
    AnnouncePeople(h1, PresenceChange(s, p.user, 1));
    JoinedThen(h, s, p, h1, Announce(h1, PresenceChange(s, p.user, 1)));
  }

  lemma CoordinatorJoins(h: Home, s: Session, p: Peer, leaseValid: bool, limits: Limits)
    requires s !in h.peers && h.users <= h.peers.Keys && p.role == Coordinator
    ensures var h' := AttachCoordinator(h, s, p, leaseValid, limits).0; h' == h || Joined(h, s, p, h')
  {
    var generation := (if p.name in h.slots then h.slots[p.name].generation else 0) + 1;
    EnqueueAllPeople(p.(generation := generation), [Welcome, PresenceSnapshot(SessionsOf(h))]);
  }

  lemma SomeoneJoins(h: Home, s: Session, p: Peer, leaseValid: bool, limits: Limits, enc: Frame -> bool)
    requires s !in h.peers && h.users <= h.peers.Keys
    ensures var h' := Attach(h, s, p, leaseValid, limits, enc).0; h' == h || Joined(h, s, p, h')
  {
    match p.role
    case User => UserJoins(h, s, p, leaseValid, limits, enc);
    case Coordinator => CoordinatorJoins(h, s, p, leaseValid, limits);
    case Cli => EnqueueAllPeople(p, [Welcome]);
  }

  /** The newcomer is here, whoever it replaced is not, and nobody else is affected. */
  lemma JoinedHere(h: Home, s: Session, p: Peer, h': Home, t: Session)
    requires Membership(h) && SlotsOK(h) && Joined(h, s, p, h') && t in h'.peers
    ensures IsHere(h', t) <==> t == s || (t in h.peers && IsHere(h, t) && Replaced(h, p) != Some(t))
  {
    if t != s && Replaced(h, p) == Some(t) {
      HolderIsHere(h, p.name);
    }
  }

  lemma JoinTied(h: Home, s: Session, p: Peer, h': Home, r: Router, r1: Router, h1: Home)
    requires Membership(h) && SlotsOK(h) && Tied(h, r) && Joined(h, s, p, h')
    requires r1.roles == r.roles && r1.tables.Keys == r.tables.Keys
    requires r1.present == match Replaced(h, p) case Some(old') => r.present - {old'} case None => r.present
    requires SamePeople(h', h1) && h1.slots == h'.slots
    ensures Tied(h1, Arrive(r1, s, p.role))
  {
    var r2 := Arrive(r1, s, p.role);
    forall t | t in h1.peers ensures r2.roles[t] == h1.peers[t].role && (t in r2.present <==> IsHere(h1, t)) {
      JoinedHere(h, s, p, h', t);
      SameHere(h', h1, t);
    }
  }

  lemma ReplacedIsKnown(h: Home, p: Peer)
    requires SlotsOK(h) && Replaced(h, p).Some?
    ensures Replaced(h, p).value in h.peers && IsHere(h, Replaced(h, p).value)
  {
    HolderIsHere(h, p.name);
  }

  lemma RouterJoins(w: World, s: Session, p: Peer, leaseValid: bool, order: seq<nat>, env: Env, bounds: Bounds)
    requires WorldInv(w, env, bounds) && SlotsOK(w.home) && CanHappen(w, s, Joining(p, leaseValid, order), bounds)
    ensures AllKnown(w.router, order)
    ensures var r1 := match Replaced(w.home, p) case Some(old') => Depart(w.router, old', order) case None => w.router;
            && r1.roles == w.router.roles && r1.tables.Keys == w.router.tables.Keys
            && r1.present == (match Replaced(w.home, p) case Some(old') => w.router.present - {old'} case None => w.router.present)
            && ReachableRouter(Arrive(r1, s, p.role), bounds)
  {
    match Replaced(w.home, p) {
      case Some(old') =>
        ReplacedIsKnown(w.home, p);
        DepartStays(w.router, old', order);
        RouterSteps(w.router, old', Departing(order), bounds);
        RouterSteps(Depart(w.router, old', order), s, Arriving(p.role), bounds);
      case None => RouterSteps(w.router, s, Arriving(p.role), bounds);
    }
  }

  lemma JoinKeeps(w: World, s: Session, p: Peer, leaseValid: bool, order: seq<nat>, env: Env, bounds: Bounds)
    requires EnvOK(env) && WorldInv(w, env, bounds) && CanHappen(w, s, Joining(p, leaseValid, order), bounds)
    ensures w.home.users <= w.home.peers.Keys && AllKnown(w.router, order)
    ensures WorldInv(Join(w, s, p, leaseValid, order, env), env, bounds)
  {
    HomeReached(w.home, env);
    RouterJoins(w, s, p, leaseValid, order, env, bounds);
    var h' := Attach(w.home, s, p, leaseValid, env.limits, env.enc).0;
    if s in h'.peers {
      SomeoneJoins(w.home, s, p, leaseValid, env.limits, env.enc);
      HomeSteps(w.home, s, LAttach(p, leaseValid), env);
      HomeReached(h', env);
      var r1 := match Replaced(w.home, p) case Some(old') => Depart(w.router, old', order) case None => w.router;
      HandOverReached(h', Added(w.router, r1), env);
      HandOverPeople(h', Added(w.router, r1));
      JoinTied(w.home, s, p, h', w.router, r1, HandOver(h', Added(w.router, r1)));
    }
  }

  // ---------- detaching ----------

  lemma DetachPeople(h: Home, s: Session)
    requires s in h.peers && s in h.connections
    ensures var h' := Detach(h, s);
            && h'.peers.Keys == h.peers.Keys && h'.connections == h.connections - {s}
            && h'.users == (if h.peers[s].role == User then h.users - {s} else h.users)
            && forall t :: t in h.peers ==>
                 h'.peers[t].role == h.peers[t].role && h'.peers[t].name == h.peers[t].name && h'.peers[t].generation == h.peers[t].generation
  {
  }

  lemma DetachSlots(h: Home, s: Session)
    requires s in h.peers && s in h.connections
    ensures var h' := Detach(h, s);
            && (h.peers[s].role != Coordinator || !Current(h, s) ==> h'.slots == h.slots)
            && (h.peers[s].role == Coordinator && Current(h, s) ==>
                 var name := h.peers[s].name;
                 && h'.slots.Keys <= h.slots.Keys
                 && (name in h'.slots ==> h'.slots[name].connection.None?)
                 && (forall other :: other in h.slots && other != name ==> other in h'.slots && h'.slots[other] == h.slots[other]))
  {
  }

  /** Whoever detaches is no longer here, and everybody else is as before. */
  lemma DetachedHere(h: Home, s: Session, t: Session)
    requires s in h.peers && s in h.connections && t in h.peers
    ensures t in Detach(h, s).peers && (IsHere(Detach(h, s), t) <==> t != s && IsHere(h, t))
  {
    DetachPeople(h, s);
    DetachSlots(h, s);
  }

  lemma LeaveKeeps(w: World, s: Session, order: seq<nat>, env: Env, bounds: Bounds)
    requires EnvOK(env) && WorldInv(w, env, bounds) && CanHappen(w, s, Leaving(order), bounds)
    ensures WorldInv(Leave(w, s, order), env, bounds)
  {
    if s in w.home.connections {
      HomeReached(w.home, env);
      var r := Depart(w.router, s, order);
      DepartStays(w.router, s, order);
      RouterSteps(w.router, s, Departing(order), bounds);
      var h1 := HandOver(w.home, Added(w.router, r));
      HandOverReached(w.home, Added(w.router, r), env);
      HandOverPeople(w.home, Added(w.router, r));
      HomeSteps(h1, s, LDetach, env);
      LeaveTied(w.home, h1, s, w.router, r);
    }
  }

  lemma LeaveTied(h: Home, h1: Home, s: Session, r: Router, r': Router)
    requires Tied(h, r) && SamePeople(h, h1) && h1.slots == h.slots && s in h.peers && s in h.connections
    requires r'.present == r.present - {s} && r'.roles == r.roles && r'.tables.Keys == r.tables.Keys
    ensures Tied(Detach(h1, s), r')
  {
    var h' := Detach(h1, s);
    DetachPeople(h1, s);
    forall t | t in h'.peers ensures r'.roles[t] == h'.peers[t].role && (t in r'.present <==> IsHere(h', t)) {
      DetachedHere(h1, s, t);
      SameHere(h, h1, t);
    }
  }

  // ---------- runs ----------

  lemma FrameHappens(w: World, s: Session, e: Happening, env: Env, bounds: Bounds)
    requires EnvOK(env) && WorldInv(w, env, bounds) && CanHappen(w, s, e, bounds) && (IsFrame(e) || IsTimer(e))
    requires w.home.users <= w.home.peers.Keys && SameConnections(w)
    ensures WorldInv(Happen(w, s, e, env, bounds), env, bounds)
  {
    FrameKeeps(w, s, e, env, bounds);
  }

  lemma HappenKeeps(w: World, s: Session, e: Happening, env: Env, bounds: Bounds)
    requires EnvOK(env) && WorldInv(w, env, bounds) && CanHappen(w, s, e, bounds)
    ensures w.home.users <= w.home.peers.Keys && SameConnections(w)
    ensures WorldInv(Happen(w, s, e, env, bounds), env, bounds)
  {
    HomeReached(w.home, env);
    if IsFrame(e) || IsTimer(e) {
      FrameHappens(w, s, e, env, bounds);
      return;
    }
    match e
    case AtHome(l) => AtHomeKeeps(w, s, l, env, bounds);
    case Joining(p, leaseValid, order) => JoinKeeps(w, s, p, leaseValid, order, env, bounds);
    case Leaving(order) => LeaveKeeps(w, s, order, env, bounds);
    case EventSent(id, target, routable) => EventKeeps(w, s, id, target, routable, env, bounds);
  }

  /**
   In every run of a home with its calls, the home is one that a run of the home alone reaches, the router
   one that a run of the router alone reaches, and the router knows exactly who is here: the connections
   of the slots, the attached users and the attached CLIs.
   */
  lemma {:induction false} WorldsAreReachable(ws: seq<World>, env: Env, bounds: Bounds, i: int)
    requires WorldRun(ws, env, bounds) && 0 <= i < |ws|
    ensures ReachableHome(ws[i].home, env) && ReachableRouter(ws[i].router, bounds)
    ensures Tied(ws[i].home, ws[i].router)
    decreases i
  {
    if i == 0 {
      var epoch :| ws[0] == NewWorld(epoch);
      NewHomeReached(epoch, env);
      NewRouterReached(bounds);
    } else {
      WorldsAreReachable(ws, env, bounds, i - 1);
      assert WorldStepsTo(ws, env, bounds, i);
      var s, e :| CanHappen(ws[i - 1], s, e, bounds) && ws[i] == Happen(ws[i - 1], s, e, env, bounds);
      HappenKeeps(ws[i - 1], s, e, env, bounds);
    }
  }

  lemma WorldFacts(ws: seq<World>, env: Env, bounds: Bounds, i: int)
    requires WorldRun(ws, env, bounds) && 0 <= i < |ws|
    ensures Inv(ws[i].home, env) && CallTheorems.RouterInv(ws[i].router, bounds) && Tied(ws[i].home, ws[i].router)
  {
    WorldsAreReachable(ws, env, bounds, i);
    HomeReached(ws[i].home, env);
    RouterReached(ws[i].router, bounds);
  }

  /**
   A coordinator that is not, or no longer, the connection of its slot holds no live route at either end,
   and nobody who has left is the callee of one.
   */
  lemma FencedHoldsNoRoute(ws: seq<World>, env: Env, bounds: Bounds, i: int, n: nat)
    requires WorldRun(ws, env, bounds) && 0 <= i < |ws|
    requires n < |ws[i].router.routes| && !ws[i].router.routes[n].terminal
    ensures var route := ws[i].router.routes[n];
            && route.caller in ws[i].home.peers && route.callee in ws[i].home.peers
            && IsHere(ws[i].home, route.callee)
            && (ws[i].home.peers[route.caller].role == Coordinator ==> Current(ws[i].home, route.caller))
            && (ws[i].home.peers[route.callee].role == Coordinator ==> Current(ws[i].home, route.callee))
  {
    WorldFacts(ws, env, bounds, i);
    var r := ws[i].router;
    assert Attended(r.routes[n], r.roles, r.present);
  }

  // ---------- nobody returns ----------

  lemma FramesKeepAbsence(w: World, s: Session, e: Happening, env: Env, bounds: Bounds, t: Session)
    requires w.home.users <= w.home.peers.Keys && SameConnections(w) && CanHappen(w, s, e, bounds) && (IsFrame(e) || IsTimer(e))
    requires t in w.router.tables && t !in w.router.present
    ensures var r' := Happen(w, s, e, env, bounds).router; t in r'.tables && t !in r'.present
  {
    RouterApplies(w, s, e, bounds);
    FrameStays(w.router, s, RouterLabel(w, s, e), bounds);
  }

  /** The router forgets nobody, and lets in only newcomers. */
  lemma OnlyNewcomersArrive(w: World, s: Session, e: Happening, env: Env, bounds: Bounds, t: Session)
    requires w.home.users <= w.home.peers.Keys && SameConnections(w) && CanHappen(w, s, e, bounds)
    requires t in w.router.tables && t !in w.router.present
    ensures var r' := Happen(w, s, e, env, bounds).router; t in r'.tables && t !in r'.present
  {
    match e
    case AtHome(_) =>
    case Joining(p, leaseValid, order) =>
      match Replaced(w.home, p) {
        case Some(old') => DepartStays(w.router, old', order);
        case None =>
      }
    case Leaving(order) => DepartStays(w.router, s, order);
    case EventSent(_, _, _) =>
    case _ => FramesKeepAbsence(w, s, e, env, bounds, t);
  }

  /** A coordinator that was replaced or detached, and a user or CLI that detached, is never here again. */
  lemma {:induction false} GoneForGood(ws: seq<World>, env: Env, bounds: Bounds, i: int, j: int, s: Session)
    requires WorldRun(ws, env, bounds) && 0 <= i <= j < |ws|
    requires s in ws[i].home.peers && !IsHere(ws[i].home, s)
    ensures s in ws[j].home.peers && !IsHere(ws[j].home, s)
    decreases j
  {
    if i < j {
      GoneForGood(ws, env, bounds, i, j - 1, s);
      WorldsAreReachable(ws, env, bounds, j - 1);
      WorldsAreReachable(ws, env, bounds, j);
      NextGone(ws, env, bounds, j, s);
    }
  }

  lemma NextGone(ws: seq<World>, env: Env, bounds: Bounds, j: int, s: Session)
    requires WorldRun(ws, env, bounds) && 0 < j < |ws|
    requires Tied(ws[j - 1].home, ws[j - 1].router) && Tied(ws[j].home, ws[j].router)
    requires s in ws[j - 1].home.peers && !IsHere(ws[j - 1].home, s)
    ensures s in ws[j].home.peers && !IsHere(ws[j].home, s)
  {
    assert WorldStepsTo(ws, env, bounds, j);
    var t, e :| CanHappen(ws[j - 1], t, e, bounds) && ws[j] == Happen(ws[j - 1], t, e, env, bounds);
    OnlyNewcomersArrive(ws[j - 1], t, e, env, bounds, s);
  }

  /** ... and no call frame or event of a fenced coordinator changes anything, in the router or in any queue. */
  lemma FencedChangesNothing(w: World, s: Session, e: Happening, env: Env, bounds: Bounds)
    requires w.home.users <= w.home.peers.Keys && Tied(w.home, w.router) && CanHappen(w, s, e, bounds) && (IsFrame(e) || e.EventSent?)
    requires w.home.peers[s].role == Coordinator && !Current(w.home, s)
    ensures Happen(w, s, e, env, bounds) == w
  {
    if e.EventSent? {
      FencedEventsReachNobody(w.home, s, e.topicID, e.eventTarget, e.eventRoutable);
    } else {
      RouterApplies(w, s, e, bounds);
      assert CallStep(w.router, s, RouterLabel(w, s, e), bounds) == w.router;
      assert w.router.log[|w.router.log|..] == [];
    }
  }

  // ---------- events ----------

  /**
   Over every run, an event changes something for exactly those it is addressed to that have standing, and they
   are here: a user is subscribed and authorised, and hears from the declarer of the topic; a coordinator is
   ready, and hears from the declarer, or is the declarer and hears from a user that may publish.
   */
  lemma EventsReachStanding(ws: seq<World>, env: Env, bounds: Bounds, i: int, s: Session, e: Happening, t: Session)
    requires WorldRun(ws, env, bounds) && 0 < i < |ws| && e.EventSent? && CanHappen(ws[i - 1], s, e, bounds)
    requires ws[i - 1].home.users <= ws[i - 1].home.peers.Keys && SameConnections(ws[i - 1])
    requires ws[i] == Happen(ws[i - 1], s, e, env, bounds)
    ensures ws[i].router == ws[i - 1].router && ws[i].home == ws[i - 1].home.(peers := ws[i].home.peers)
    ensures t in ws[i].home.peers <==> t in ws[i - 1].home.peers
    ensures t in ws[i].home.peers ==>
              (ws[i].home.peers[t] != ws[i - 1].home.peers[t]
               <==> e.eventRoutable && HasStanding(ws[i - 1].home, s, e.topicID, t) && MeantFor(ws[i - 1].home, s, e.eventTarget, t))
    ensures t in ws[i].home.peers && ws[i].home.peers[t] != ws[i - 1].home.peers[t] ==> IsHere(ws[i - 1].home, t)
  {
    WorldFacts(ws, env, bounds, i - 1);
    EventReaches(ws[i - 1].home, s, e.topicID, e.eventTarget, e.eventRoutable, t);
  }

  lemma EventReaches(h: Home, s: Session, id: int, target: Target, routable: bool, t: Session)
    requires Membership(h) && SlotsOK(h) && OwnersInv(Topic, h.catalog.topicOwners, h.catalog.configs) && s in h.peers
    ensures var h' := Publish(h, s, id, target, routable).0; h' == h.(peers := h'.peers) && h'.peers.Keys == h.peers.Keys
    ensures t in h.peers ==>
              var changed := Publish(h, s, id, target, routable).0.peers[t] != h.peers[t];
              && (changed <==> routable && HasStanding(h, s, id, t) && MeantFor(h, s, target, t))
              && (changed ==> IsHere(h, t))
  {
    if t in h.peers {
      EventIsReceived(h, s, id, target, routable, t);
    }
  }

  // ---------- callers that have left ----------

  /** Whoever called on a live route is still here. */
  ghost predicate CallersHere(w: World) {
    forall n: nat :: n < |w.router.routes| && !w.router.routes[n].terminal ==>
      w.router.routes[n].caller in w.home.peers && IsHere(w.home, w.router.routes[n].caller)
  }

  ghost predicate CallersPresent(r: Router) {
    forall n: nat :: n < |r.routes| && !r.routes[n].terminal ==> r.routes[n].caller in r.present
  }

  lemma PresentIsHere(w: World)
    requires Tied(w.home, w.router) && EndsKnown(w.router.routes, w.router.tables)
    ensures CallersHere(w) <==> CallersPresent(w.router)
  {
  }

  /** The checks of a CALL pass, and its callee takes the dispatch. */
  predicate PlacesCall(r: Router, s: Session, q: Request, bounds: Bounds)
    requires s in r.tables && s in r.roles && (q.target.Some? ==> q.target.value in r.tables)
  {
    && !Guarded(r, s, q.guard) && q.callerID !in r.tables[s].calls && |r.tables[s].calls| < bounds.inflight
    && q.target.Some? && |r.tables[q.target.value].calls| < bounds.inflight
    && q.remaining && q.routable && q.taken
  }

  lemma CallPlaces(r: Router, s: Session, q: Request, calleeID: int, bounds: Bounds)
    requires s in r.tables && s in r.roles && (q.target.Some? ==> q.target.value in r.tables)
    ensures var r' := StartCall(r, s, q, calleeID, bounds).0;
            && r'.present == r.present
            && (PlacesCall(r, s, q, bounds) ==> r'.routes == r.routes + [Opened(s, q, calleeID, true)])
            && (!PlacesCall(r, s, q, bounds) ==>
                 r'.routes == r.routes || (q.target.Some? && r'.routes == r.routes + [Opened(s, q, calleeID, false).(terminal := true, timer := false)]))
  {
  }

  /** A call leaves only callers that are here, exactly when it is not placed for somebody who is not. */
  lemma CallKeepsCallersIff(r: Router, s: Session, q: Request, calleeID: int, bounds: Bounds)
    requires s in r.tables && s in r.roles && (q.target.Some? ==> q.target.value in r.tables) && CallersPresent(r)
    ensures CallersPresent(StartCall(r, s, q, calleeID, bounds).0) <==> !(PlacesCall(r, s, q, bounds) && s !in r.present)
  {
    CallPlaces(r, s, q, calleeID, bounds);
    var r' := StartCall(r, s, q, calleeID, bounds).0;
    if PlacesCall(r, s, q, bounds) {
      assert r'.routes[|r.routes|].caller == s;
    }
  }

  lemma FewerCallers(r: Router, r': Router)
    requires CallersPresent(r) && SameEnds(r.routes, r'.routes) && r'.present == r.present
    ensures CallersPresent(r')
  {
  }

  lemma FrameEnds(r: Router, s: Session, l: CallLabel, bounds: Bounds)
    requires CallApplies(r, s, l) && !l.Arriving? && !l.Departing? && !l.Calling?
    ensures SameEnds(r.routes, CallStep(r, s, l, bounds).routes)
  {
  }

  lemma DepartKeepsCallers(r: Router, s: Session, order: seq<nat>, bounds: Bounds)
    requires TableInv(r, bounds) && CallersPresent(r) && Visits(r, s, order)
    ensures CallersPresent(Depart(r, s, order))
  {
    DepartStays(r, s, order);
    DepartKeeps(r, s, order, bounds);
    TerminateEnds(r, s, order);
  }

  /** A step places a call for a user or a CLI that has already detached. */
  predicate CalledByTheGone(w: World, s: Session, e: Happening, bounds: Bounds)
    requires SameConnections(w)
  {
    e.CallSent? && s in w.home.peers && !IsHere(w.home, s) && PlacesCall(w.router, s, RequestOf(w, s, e.call), bounds)
  }

  lemma JoinKeepsCallers(w: World, s: Session, p: Peer, leaseValid: bool, order: seq<nat>, env: Env, bounds: Bounds)
    requires w.home.users <= w.home.peers.Keys && TableInv(w.router, bounds) && AllKnown(w.router, order)
    requires CallersPresent(w.router) && (Replaced(w.home, p).Some? ==> Visits(w.router, Replaced(w.home, p).value, order))
    ensures CallersPresent(Join(w, s, p, leaseValid, order, env).router)
  {
    match Replaced(w.home, p)
    case Some(old') => DepartKeepsCallers(w.router, old', order, bounds);
    case None =>
  }

  lemma FrameKeepsCallers(w: World, s: Session, e: Happening, bounds: Bounds)
    requires SameConnections(w) && CanHappen(w, s, e, bounds) && (IsFrame(e) || IsTimer(e)) && !e.CallSent?
    requires CallersPresent(w.router)
    ensures CallApplies(w.router, s, RouterLabel(w, s, e)) && CallersPresent(CallWorld(w, s, e, bounds).router)
  {
    RouterApplies(w, s, e, bounds);
    FrameEnds(w.router, s, RouterLabel(w, s, e), bounds);
    FrameStays(w.router, s, RouterLabel(w, s, e), bounds);
    FewerCallers(w.router, CallStep(w.router, s, RouterLabel(w, s, e), bounds));
  }

  lemma CallSentKeepsCallersIff(w: World, s: Session, c: CallFrom, calleeID: int, env: Env, bounds: Bounds)
    requires w.home.users <= w.home.peers.Keys && Tied(w.home, w.router)
    requires CanHappen(w, s, CallSent(c, calleeID), bounds) && CallersPresent(w.router)
    ensures CallersPresent(Happen(w, s, CallSent(c, calleeID), env, bounds).router) <==> !CalledByTheGone(w, s, CallSent(c, calleeID), bounds)
  {
    CallKeepsCallersIff(w.router, s, RequestOf(w, s, c), calleeID, bounds);
  }

  lemma OthersKeepCallers(w: World, s: Session, e: Happening, env: Env, bounds: Bounds)
    requires w.home.users <= w.home.peers.Keys && SameConnections(w) && TableInv(w.router, bounds)
    requires CanHappen(w, s, e, bounds) && CallersPresent(w.router) && !e.CallSent?
    ensures CallersPresent(Happen(w, s, e, env, bounds).router)
  {
    match e
    case AtHome(_) =>
    case Joining(p, leaseValid, order) => JoinKeepsCallers(w, s, p, leaseValid, order, env, bounds);
    case Leaving(order) => DepartKeepsCallers(w.router, s, order, bounds);
    case EventSent(_, _, _) =>
    case _ => FrameKeepsCallers(w, s, e, bounds);
  }

  /** In every reachable home with calls: exactly a call placed for somebody who is gone leaves a live route without a caller. */
  lemma CallersStayHereIff(w: World, s: Session, e: Happening, env: Env, bounds: Bounds)
    requires EnvOK(env) && WorldInv(w, env, bounds) && CanHappen(w, s, e, bounds) && CallersHere(w)
    ensures w.home.users <= w.home.peers.Keys && SameConnections(w)
    ensures CallersHere(Happen(w, s, e, env, bounds)) <==> !CalledByTheGone(w, s, e, bounds)
  {
    HomeReached(w.home, env);
    RouterReached(w.router, bounds);
    HappenKeeps(w, s, e, env, bounds);
    var w' := Happen(w, s, e, env, bounds);
    RouterReached(w'.router, bounds);
    PresentIsHere(w);
    PresentIsHere(w');
    if e.CallSent? {
      CallSentKeepsCallersIff(w, s, e.call, e.calleeID, env, bounds);
    } else {
      OthersKeepCallers(w, s, e, env, bounds);
    }
  }
}
