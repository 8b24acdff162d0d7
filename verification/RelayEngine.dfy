/**
 A home and its calls as the relay keeps them under one lock: the home's indexes in one object, tables and
 routes in another. Every method is proved against one step of HomeCalls.
 */
module RelayEngine {
  import opened Basics
  import opened Catalogs
  import opened HomeModel
  import opened Invariants
  import opened HomeParts
  import opened HomeEngine
  import opened Calls
  import opened CallTables
  import opened CallEngine
  import opened Events
  import opened HomeCalls
  import opened HomeCallSteps
  import opened HomeCallTheorems

  class RelayHome {
    const home: HomeState
    const router: CallRouter

    ghost function View(): World
      reads home, router
    {
      World(home.View(), router.View())
    }

    ghost predicate Valid()
      reads home, router
    {
      home.Valid() && router.Valid() && Tied(home.View(), router.View())
    }

    constructor (home: HomeState, router: CallRouter)
      requires home.Valid() && router.Valid() && Tied(home.View(), router.View())
      ensures this.home == home && this.router == router && Valid()
    {
      this.home, this.router := home, router;
    }

    /** The queues take the frames the router has logged since `from`. */
    method PassFrames(from: nat)
      requires home.Valid() && from <= |router.log|
      modifies home
      ensures home.Valid() && home.View() == HandOver(old(home.View()), router.log[from..])
    {
      var sent := router.log[from..];
      for index := 0 to |sent|
        invariant home.Valid() && home.View() == HandOver(old(home.View()), sent[..index])
      {
        assert sent[..index + 1][..index] == sent[..index];
        if sent[index].to in home.peers {
          home.Notify(sent[index].to);
        }
      }
      assert sent[..|sent|] == sent;
    }

    // ---------- attaching and detaching ----------

    method HolderOf(p: Peer) returns (holder: Option<Session>)
      ensures holder == Replaced(home.View(), p)
    {
      if p.role != Coordinator || p.name !in home.coordinators {
        return None;
      }
      return home.coordinators[p.name].connection;
    }

    /** The calls of a connection that loses its slot, or leaves, end, and their other ends are told. */
    method EndCalls(holder: Session) returns (ghost order: seq<nat>)
      requires home.Valid() && router.Valid() && holder in router.tables
      modifies home, router
      ensures home.Valid() && router.Valid()
      ensures Visits(old(router.View()), holder, order) && router.View() == Depart(old(router.View()), holder, order)
      ensures home.View() == HandOver(old(home.View()), Added(old(router.View()), router.View()))
    {
      ghost var before := router.View();
      var from := |router.log|;
      order := router.Depart(holder);
      TerminateGrows(before, holder, order);
      PassFrames(from);
      assert router.log[from..] == Added(before, router.View());
    }

    static lemma {:induction false} TerminateGrows(r: Router, s: Session, order: seq<nat>)
      requires AllKnown(r, order)
      ensures |r.log| <= |Terminate(r, s, order).log|
    {
      if order != [] {
        TerminateGrows(r, s, order[..|order| - 1]);
      }
    }

    static lemma NewcomerTied(w: World, s: Session, p: Peer, h': Home, r: Router, order: seq<nat>)
      requires Tied(w.home, w.router) && Membership(w.home) && SlotsOK(w.home) && Joined(w.home, s, p, h') && AllKnown(w.router, order)
      requires r == match Replaced(w.home, p) case Some(t) => Depart(w.router, t, order) case None => w.router
      ensures s !in r.tables && Tied(HandOver(h', Added(w.router, r)), Calls.Arrive(r, s, p.role))
    {
      if Replaced(w.home, p).Some? {
        DepartStays(w.router, Replaced(w.home, p).value, order);
      }
      HandOverPeople(h', Added(w.router, r));
      JoinTied(w.home, s, p, h', w.router, r, HandOver(h', Added(w.router, r)));
    }

    /** The calls of whoever the newcomer replaced end. */
    method EndReplaced(holder: Option<Session>) returns (ghost order: seq<nat>)
      requires home.Valid() && router.Valid() && (holder.Some? ==> holder.value in router.tables)
      modifies home, router
      ensures home.Valid() && router.Valid() && AllKnown(old(router.View()), order)
      ensures router.View() == match holder case Some(t) => Depart(old(router.View()), t, order) case None => old(router.View())
      ensures home.View() == HandOver(old(home.View()), Added(old(router.View()), router.View()))
    {
      order := [];
      if holder.Some? {
        order := EndCalls(holder.value);
      } else {
        assert Added(router.View(), router.View()) == [];
      }
    }

    /** The newcomer is in the home: the calls of the connection it replaced end, and the router gets to know it. */
    method Receive(s: Session, role: Role, holder: Option<Session>) returns (ghost order: seq<nat>)
      requires home.Valid() && router.Valid() && s !in router.tables && (holder.Some? ==> holder.value in router.tables)
      modifies home, router
      ensures home.Valid() && router.Valid() && AllKnown(old(router.View()), order)
      ensures var r := match holder case Some(t) => Depart(old(router.View()), t, order) case None => old(router.View());
              && home.View() == HandOver(old(home.View()), Added(old(router.View()), r))
              && router.View() == Calls.Arrive(r, s, role)
    {
      order := EndReplaced(holder);
      router.Arrive(s, role);
    }

    method Attach(s: Session, p: Peer, leaseValid: bool) returns (outcome: Outcome, ghost order: seq<nat>)
      requires Valid() && s !in home.peers && Newcomer(p)
      modifies home, router
      ensures Valid()
      ensures old(home.View()).users <= old(home.View()).peers.Keys && AllKnown(old(router.View()), order)
      ensures View() == Join(old(View()), s, p, leaseValid, order, home.Environment())
      ensures outcome == HomeModel.Attach(old(home.View()), s, p, leaseValid, home.limits, home.enc).1
    {
      ghost var w := View();
      home.ValidFacts();
      var holder := HolderOf(p);
      SomeoneJoins(w.home, s, p, leaseValid, home.limits, home.enc);
      outcome := home.Attach(s, p, leaseValid);
      order := [];
      if s in home.peers {
        ghost var h' := home.View();
        if holder.Some? {
          ReplacedIsKnown(w.home, p);
        }
        order := Receive(s, p.role, holder);
        NewcomerTied(w, s, p, h', match holder case Some(t) => Depart(w.router, t, order) case None => w.router, order);
      }
    }

    static lemma LeaverTied(w: World, s: Session, r: Router, order: seq<nat>)
      requires Tied(w.home, w.router) && s in w.home.peers && s in w.home.connections && AllKnown(w.router, order)
      requires r == Depart(w.router, s, order)
      ensures s in HandOver(w.home, Added(w.router, r)).peers && Tied(HomeModel.Detach(HandOver(w.home, Added(w.router, r)), s), r)
    {
      DepartStays(w.router, s, order);
      HandOverPeople(w.home, Added(w.router, r));
      LeaveTied(w.home, HandOver(w.home, Added(w.router, r)), s, w.router, r);
    }

    /** One's own calls end first, then the home lets go. */
    method LetGo(s: Session) returns (ghost order: seq<nat>)
      requires home.Valid() && router.Valid() && s in router.tables && s in home.peers
      modifies home, router
      ensures home.Valid() && router.Valid() && AllKnown(old(router.View()), order)
      ensures router.View() == Depart(old(router.View()), s, order)
      ensures var h := HandOver(old(home.View()), Added(old(router.View()), router.View()));
              s in h.peers && home.View() == HomeModel.Detach(h, s)
    {
      order := EndCalls(s);
      home.Detach(s);
    }

    method Detach(s: Session) returns (ghost order: seq<nat>)
      requires Valid() && s in home.peers
      modifies home, router
      ensures Valid()
      ensures AllKnown(old(router.View()), order) && View() == Leave(old(View()), s, order)
    {
      order := [];
      if s in home.connections {
        ghost var w := View();
        order := LetGo(s);
        LeaverTied(w, s, router.View(), order);
      }
    }

    // ---------- events ----------

    /** An event in place: the home delivers it, and no call is touched. */
    method PublishEvent(s: Session, id: int, target: Target, routable: bool) returns (outcome: Outcome)
      requires Valid() && s in home.peers
      modifies home
      ensures Valid()
      ensures View() == old(View()).(home := Publish(old(home.View()), s, id, target, routable).0)
      ensures outcome == Publish(old(home.View()), s, id, target, routable).1
    {
      EventTied(home.View(), router.View(), s, id, target, routable);
      outcome := home.PublishEvent(s, id, target, routable);
    }

    // ---------- calls ----------

    method Guard(s: Session) returns (guard: Outcome)
      requires s in home.peers
      ensures guard == ActiveGuard(home.View(), s)
    {
      if !home.IsCurrentPeer(s) {
        return Refused(GENERATION_REPLACED, true);
      }
      if !home.coordinators[home.peers[s].name].ready || home.coordinators[home.peers[s].name].active.None? {
        return Refused(UNAVAILABLE, true);
      }
      return Ok;
    }

    method FindSlot(name: string) returns (callee: Option<Session>, refusal: Outcome)
      requires home.LinkedSlots()
      ensures (callee, refusal) == if Reachable(home.View(), name) then (home.View().slots[name].connection, Ok) else (None, Refused(NO_COORDINATOR, true))
    {
      callee := home.FindCoordinator(name);
      refusal := if callee.Some? then Ok else Refused(NO_COORDINATOR, true);
    }

    method ResolveTarget(s: Session, owner: string, target: Target) returns (callee: Option<Session>, refusal: Outcome)
      requires s in home.peers && home.users <= home.peers.Keys && home.LinkedSlots()
      ensures (callee, refusal) == Resolve(home.View(), s, owner, target)
    {
      match target {
        case Default => callee, refusal := FindSlot(owner);
        case ToUser(u) =>
          if home.peers[s].role != Coordinator {
            return None, Refused(WRONG_DIRECTION, false);
          }
          if home.peers[s].name != owner {
            return None, Refused(FORBIDDEN, false);
          }
          if u !in home.users || !Available(home.peers[u]) {
            return None, Refused(UNAVAILABLE, true);
          }
          var enrolled := home.UserEnrolled(home.peers[u].user);
          if !enrolled {
            return None, Refused(UNAVAILABLE, true);
          }
          return Some(u), Ok;
        case ToCoordinator(name) =>
          if home.peers[s].role != Coordinator {
            return None, Refused(WRONG_DIRECTION, false);
          }
          if name != owner {
            return None, Refused(FORBIDDEN, false);
          }
          callee, refusal := FindSlot(name);
        case Malformed => return None, Refused(INVALID_VALUE, false);
      }
    }

    method FindCallee(s: Session, functionID: int, target: Target) returns (callee: Option<Session>, refusal: Outcome)
      requires s in home.peers && home.users <= home.peers.Keys && home.LinkedSlots()
      ensures (callee, refusal) == Callee(home.View(), s, functionID, target)
    {
      var name := NameOf(home.functions.byID, functionID);
      if name == "" || name !in home.functionOwners {
        return None, Refused(NOT_DECLARED, false);
      }
      var enrolled := home.UserEnrolled(home.peers[s].user);
      if home.peers[s].role == User && !enrolled && name != JOIN {
        return None, Refused(NOT_ENROLLED, false);
      }
      callee, refusal := ResolveTarget(s, home.functionOwners[name], target);
    }

    /** A step of the router that is not a departure only adds to its log, and leaves open who is present. */
    static lemma FrameGrows(r: Router, s: Session, l: CallLabel, bounds: Bounds)
      requires CallApplies(r, s, l) && !l.Departing? && !l.Arriving?
      ensures Goes(r, CallStep(r, s, l, bounds))
    {
      FrameStays(r, s, l, bounds);
      LogGrows(r, s, l, bounds);
    }

    static lemma LogGrows(r: Router, s: Session, l: CallLabel, bounds: Bounds)
      requires CallApplies(r, s, l) && !l.Departing? && !l.Arriving?
      ensures |r.log| <= |CallStep(r, s, l, bounds).log|
    {
    }

    static predicate Goes(r: Router, r': Router) {
      r'.present == r.present && r'.roles == r.roles && r'.tables.Keys == r.tables.Keys && |r.log| <= |r'.log|
    }

    static lemma FinishTied(w: World, r': Router)
      requires Tied(w.home, w.router) && Goes(w.router, r')
      ensures Tied(HandOver(w.home, Added(w.router, r')), r')
    {
      HandOverPeople(w.home, Added(w.router, r'));
      TiedByPeople(w.home, HandOver(w.home, Added(w.router, r')), w.router, r');
    }

    /** The router has made its step, and its frames go to the queues. */
    method Finish(from: nat, ghost w: World)
      requires home.Valid() && router.Valid() && home.View() == w.home && Tied(w.home, w.router)
      requires Goes(w.router, router.View()) && from == |w.router.log|
      modifies home
      ensures Valid() && home.View() == HandOver(w.home, Added(w.router, router.View()))
    {
      PassFrames(from);
      assert router.log[from..] == Added(w.router, router.View());
      FinishTied(w, router.View());
    }

    /** Everything the home decides of a CALL before the router sees it. */
    method Prepare(s: Session, c: CallFrom) returns (q: Request)
      requires s in home.peers && home.users <= home.peers.Keys && home.LinkedSlots()
      ensures q == RequestOf(View(), s, c)
    {
      var guard := Guard(s);
      var callee, refusal := FindCallee(s, c.functionID, c.target);
      var taken := callee.Some? && callee.value in home.peers && Accepts(home.peers[callee.value]);
      var answered := callee.Some? && Accepts(if s == callee.value then Enqueue(home.peers[s], Other) else home.peers[s]);
      q := Request(c.callerID, c.credit, guard, callee, refusal, c.remaining, c.routable, taken, answered);
    }

    /** Guard, target, tables, dispatch and answer, in one critical section. */
    method StartCall(s: Session, c: CallFrom) returns (calleeID: int, outcome: Outcome)
      requires Valid() && s in home.peers && 0 <= c.credit <= router.bounds.credit
      modifies home, router
      ensures Valid()
      ensures var q := RequestOf(old(View()), s, c);
              && (q.target.Some? ==> q.target.value in old(router.tables))
              && (router.View(), outcome) == Calls.StartCall(old(router.View()), s, q, calleeID, router.bounds)
              && (calleeID != 0 ==> q.target.Some? && Allocates(old(router.tables)[q.target.value], calleeID))
      ensures home.View() == HandOver(old(home.View()), Added(old(router.View()), router.View()))
    {
      ghost var w := View();
      home.ValidFacts();
      var q := Prepare(s, c);
      GuardFits(w.home, w.router, s);
      TargetFits(w, s, c);
      var from := |router.log|;
      calleeID, outcome := router.StartCall(s, q);
      FrameGrows(w.router, s, Calling(q, calleeID), router.bounds);
      Finish(from, w);
    }

    /** The queue of the caller of the route that `s` serves under `id`. */
    method CallerTakes(s: Session, id: int) returns (takes: bool)
      requires s in router.tables
      ensures takes == EndTakes(View(), s, id)
    {
      if !Serves(router.Snapshot(), s, id) {
        return false;
      }
      var caller := router.routes[router.tables[s].calls[id]].caller;
      return caller in home.peers && Accepts(home.peers[caller]);
    }

    method ForwardResult(s: Session, id: int, final: bool, fits: bool) returns (outcome: Outcome)
      requires Valid() && s in home.peers
      modifies home, router
      ensures Valid()
      ensures (router.View(), outcome) == Calls.ForwardResult(old(router.View()), s, id, final, ActiveGuard(old(home.View()), s), fits,
                                                             EndTakes(old(View()), s, id))
      ensures home.View() == HandOver(old(home.View()), Added(old(router.View()), router.View()))
    {
      ghost var w := View();
      var guard := Guard(s);
      var taken := CallerTakes(s, id);
      GuardFits(w.home, w.router, s);
      var from := |router.log|;
      outcome := router.ForwardResult(s, id, final, guard, fits, taken);
      FrameGrows(w.router, s, Resulting(id, final, guard, fits, taken), router.bounds);
      Finish(from, w);
    }

    method ForwardError(s: Session, id: int, fits: bool) returns (outcome: Outcome)
      requires Valid() && s in home.peers
      modifies home, router
      ensures Valid()
      ensures (router.View(), outcome) == Calls.ForwardError(old(router.View()), s, id, ActiveGuard(old(home.View()), s), fits,
                                                            EndTakes(old(View()), s, id))
      ensures home.View() == HandOver(old(home.View()), Added(old(router.View()), router.View()))
    {
      ghost var w := View();
      var guard := Guard(s);
      var taken := CallerTakes(s, id);
      GuardFits(w.home, w.router, s);
      var from := |router.log|;
      outcome := router.ForwardError(s, id, guard, fits, taken);
      FrameGrows(w.router, s, Failing(id, guard, fits, taken), router.bounds);
      Finish(from, w);
    }

    /** The queue of the caller of a route, after its callee was told. */
    method CallerTakesAfter(s: Session, id: int) returns (takes: bool)
      requires s in router.tables && s in home.peers
      ensures takes == AnswerTakes(View(), s, id)
    {
      if !Originates(router.Snapshot(), s, id) {
        return false;
      }
      var callee := router.routes[router.tables[s].calls[id]].callee;
      return Accepts(if s == callee then Enqueue(home.peers[s], Other) else home.peers[s]);
    }

    method CancelCall(s: Session, id: int, reason: int) returns (outcome: Outcome)
      requires Valid() && s in home.peers
      modifies home, router
      ensures Valid()
      ensures (router.View(), outcome) == Calls.CancelCall(old(router.View()), s, id, reason, ActiveGuard(old(home.View()), s),
                                                          AnswerTakes(old(View()), s, id))
      ensures home.View() == HandOver(old(home.View()), Added(old(router.View()), router.View()))
    {
      ghost var w := View();
      var guard := Guard(s);
      var answered := CallerTakesAfter(s, id);
      GuardFits(w.home, w.router, s);
      var from := |router.log|;
      outcome := router.CancelCall(s, id, reason, guard, answered);
      FrameGrows(w.router, s, Cancelling(id, reason, guard, answered), router.bounds);
      Finish(from, w);
    }

    method OtherTakes(s: Session, id: int) returns (takes: bool)
      requires s in router.tables
      ensures takes == CalleeTakes(View(), s, id)
    {
      if !Originates(router.Snapshot(), s, id) {
        return false;
      }
      var callee := router.routes[router.tables[s].calls[id]].callee;
      return callee in home.peers && Accepts(home.peers[callee]);
    }

    method CreditCall(s: Session, id: int, additional: int) returns (outcome: Outcome)
      requires Valid() && s in home.peers && additional >= 0
      modifies home, router
      ensures Valid()
      ensures (router.View(), outcome) == Calls.CreditCall(old(router.View()), s, id, additional, ActiveGuard(old(home.View()), s),
                                                          CalleeTakes(old(View()), s, id), router.bounds)
      ensures home.View() == HandOver(old(home.View()), Added(old(router.View()), router.View()))
    {
      ghost var w := View();
      var guard := Guard(s);
      var taken := OtherTakes(s, id);
      GuardFits(w.home, w.router, s);
      var from := |router.log|;
      outcome := router.CreditCall(s, id, additional, guard, taken);
      FrameGrows(w.router, s, Crediting(id, additional, guard, taken), router.bounds);
      Finish(from, w);
    }

    // ---------- deadlines ----------

    /** A deadline ends a route under the lock ... */
    method ExpireCall(n: nat)
      requires Valid() && Known(router.View(), n) && router.routes[n].accepted
      modifies home, router
      ensures Valid()
      ensures router.View() == Calls.ExpireCall(old(router.View()), n) && home.View() == old(home.View())
    {
      ghost var w := View();
      router.ExpireCall(n);
      FrameGrows(w.router, 0, Expiring(n), router.bounds);
      TiedByPeople(w.home, w.home, w.router, router.View());
    }

    /** ... and its two ends are told after it, with other steps in between. */
    method WarnCallee(n: nat)
      requires Valid() && Known(router.View(), n) && n in router.expiring && n !in router.warned
      modifies home, router
      ensures Valid()
      ensures router.View() == Calls.WarnCallee(old(router.View()), n)
      ensures home.View() == HandOver(old(home.View()), Added(old(router.View()), router.View()))
    {
      ghost var w := View();
      var from := |router.log|;
      router.WarnCallee(n);
      FrameGrows(w.router, 0, Warning(n), router.bounds);
      Finish(from, w);
    }

    method TellCaller(n: nat)
      requires Valid() && Known(router.View(), n) && n in router.expiring && n in router.warned
      modifies home, router
      ensures Valid()
      ensures router.View() == Calls.TellCaller(old(router.View()), n)
      ensures home.View() == HandOver(old(home.View()), Added(old(router.View()), router.View()))
    {
      ghost var w := View();
      var from := |router.log|;
      router.TellCaller(n);
      FrameGrows(w.router, 0, Telling(n), router.bounds);
      Finish(from, w);
    }
  }
}
