/**
 A home together with its calls. The home and the call router share one lock, so every step here is one
 critical section of both: attaching over a coordinator ends the calls of the connection it replaces,
 detaching ends one's own, and what a call may do is read from slots, users and dictionaries.
 */
module HomeCalls {
  import opened Basics
  import opened Catalogs
  import opened HomeModel
  import opened Invariants
  import opened Calls
  import opened Events

  datatype World = World(home: Home, router: Router)

  ghost function NewWorld(epoch: int): World {
    World(NewHome(epoch), NewRouter())
  }

  // ---------- frames of calls in the queues of the home ----------

  /** Hand call frames to the queues of their connections, in order; a home does not look into them. */
  function HandOver(h: Home, sent: seq<Sent>): (h': Home)
    ensures h'.peers.Keys == h.peers.Keys && h' == h.(peers := h'.peers)
  {
    if sent == [] then h
    else
      var before := HandOver(h, sent[..|sent| - 1]);
      var to := sent[|sent| - 1].to;
      if to in before.peers then before.(peers := before.peers[to := Enqueue(before.peers[to], Other)]) else before
  }

  /** The frames a step of the router added to its log. */
  function Added(r: Router, r': Router): seq<Sent> {
    if |r.log| <= |r'.log| then r'.log[|r.log|..] else []
  }

  // ---------- guards and targets ----------

  /** What a coordinator that acts must be: the connection of its slot, with active declarations. */
  function ActiveGuard(h: Home, s: Session): Outcome
    requires s in h.peers
  {
    var p := h.peers[s];
    if !Current(h, s) then Refused(GENERATION_REPLACED, true)
    else if !h.slots[p.name].ready || p.name !in h.catalog.configs then Refused(UNAVAILABLE, true)
    else Ok
  }

  /** The connection a call goes to, or why it goes to none; `owner` declares the function. */
  function Resolve(h: Home, s: Session, owner: string, target: Target): (r: (Option<Session>, Outcome))
    requires s in h.peers
    ensures r.0.Some? ==> r.0.value in h.peers
    ensures r.0.None? ==> r.1 != Ok
  {
    var p := h.peers[s];
    match target
    case Default =>
      if Reachable(h, owner) then (h.slots[owner].connection, Ok) else (None, Refused(NO_COORDINATOR, true))
    case ToUser(u) =>
      if p.role != Coordinator then (None, Refused(WRONG_DIRECTION, false))
      else if p.name != owner then (None, Refused(FORBIDDEN, false))
      else if u !in h.users || u !in h.peers || !Available(h.peers[u]) || !Enrolled(h.catalog.configs, h.peers[u].user)
      then (None, Refused(UNAVAILABLE, true))
      else (Some(u), Ok)
    case ToCoordinator(name) =>
      if p.role != Coordinator then (None, Refused(WRONG_DIRECTION, false))
      else if name != owner then (None, Refused(FORBIDDEN, false))
      else if !Reachable(h, name) then (None, Refused(NO_COORDINATOR, true))
      else (h.slots[name].connection, Ok)
    case Malformed => (None, Refused(INVALID_VALUE, false))
  }

  /** Joining a home is the one function a user may call before it is enrolled. */
  const JOIN := "miakapp.join"

  function Callee(h: Home, s: Session, functionID: int, target: Target): (r: (Option<Session>, Outcome))
    requires s in h.peers
    ensures r.0.Some? ==> r.0.value in h.peers
    ensures r.0.None? ==> r.1 != Ok
  {
    var name := NameOf(h.catalog.functions.byID, functionID);
    if name == "" || name !in h.catalog.functionOwners then (None, Refused(NOT_DECLARED, false))
    else if h.peers[s].role == User && !Enrolled(h.catalog.configs, h.peers[s].user) && name != JOIN
    then (None, Refused(NOT_ENROLLED, false))
    else Resolve(h, s, h.catalog.functionOwners[name], target)
  }

  /** The queue of `t` takes another frame, after one for `first`. */
  predicate TakesAfter(h: Home, first: Session, t: Session) {
    t in h.peers && Accepts(if t == first then Enqueue(h.peers[t], Other) else h.peers[t])
  }

  predicate Takes(h: Home, t: Session) {
    t in h.peers && Accepts(h.peers[t])
  }

  // ---------- steps ----------

  /** A CALL frame, with whether its deadline lies ahead and its dispatch encodes. */
  datatype CallFrom = CallFrom(callerID: int, functionID: int, target: Target, credit: int, remaining: bool, routable: bool)

  datatype Happening =
    | AtHome(l: Label)
    | Joining(p: Peer, leaseValid: bool, replacing: seq<nat>)
    | Leaving(leaving: seq<nat>)
    | CallSent(call: CallFrom, calleeID: int)
    | ResultSent(resultID: int, final: bool, resultFits: bool)
    | ErrorSent(errorID: int, errorFits: bool)
    | CancelSent(cancelID: int, reason: int)
    | CreditSent(creditID: int, additional: int)
    | DeadlinePassed(n: nat)
    | CalleeWarned(n: nat)
    | CallerTold(n: nat)
    | EventSent(topicID: int, eventTarget: Target, eventRoutable: bool)

  predicate IsFrame(e: Happening) {
    e.CallSent? || e.ResultSent? || e.ErrorSent? || e.CancelSent? || e.CreditSent?
  }

  predicate IsTimer(e: Happening) {
    e.DeadlinePassed? || e.CalleeWarned? || e.CallerTold?
  }

  /** Both sides know the same connections. */
  predicate SameConnections(w: World) {
    w.router.tables.Keys == w.home.peers.Keys && w.router.roles.Keys == w.home.peers.Keys
  }

  function RequestOf(w: World, s: Session, c: CallFrom): Request
    requires s in w.home.peers
  {
    var h := w.home;
    var (callee, refusal) := Callee(h, s, c.functionID, c.target);
    Request(c.callerID, c.credit, ActiveGuard(h, s), callee, refusal, c.remaining, c.routable,
            callee.Some? && Takes(h, callee.value), callee.Some? && TakesAfter(h, callee.value, s))
  }

  predicate EndTakes(w: World, s: Session, id: int) {
    Serves(w.router, s, id) && Takes(w.home, w.router.routes[w.router.tables[s].calls[id]].caller)
  }

  predicate AnswerTakes(w: World, s: Session, id: int) {
    Originates(w.router, s, id) && TakesAfter(w.home, w.router.routes[w.router.tables[s].calls[id]].callee, s)
  }

  predicate CalleeTakes(w: World, s: Session, id: int) {
    Originates(w.router, s, id) && Takes(w.home, w.router.routes[w.router.tables[s].calls[id]].callee)
  }

  /** The step of the router, with everything the home decides of it. */
  function RouterLabel(w: World, s: Session, e: Happening): CallLabel
    requires (IsFrame(e) && s in w.home.peers) || IsTimer(e)
  {
    match e
    case CallSent(c, calleeID) => Calling(RequestOf(w, s, c), calleeID)
    case ResultSent(id, final, fits) => Resulting(id, final, ActiveGuard(w.home, s), fits, EndTakes(w, s, id))
    case ErrorSent(id, fits) => Failing(id, ActiveGuard(w.home, s), fits, EndTakes(w, s, id))
    case CancelSent(id, reason) => Cancelling(id, reason, ActiveGuard(w.home, s), AnswerTakes(w, s, id))
    case CreditSent(id, additional) => Crediting(id, additional, ActiveGuard(w.home, s), CalleeTakes(w, s, id))
    case DeadlinePassed(n) => Expiring(n)
    case CalleeWarned(n) => Warning(n)
    case CallerTold(n) => Telling(n)
    case _ => Arriving(User)
  }

  /** Whoever holds the slot a newcomer takes over. */
  function Replaced(h: Home, p: Peer): Option<Session> {
    if p.role == Coordinator && p.name in h.slots then h.slots[p.name].connection else None
  }

  /** The calls of the replaced connection end; a newcomer that is refused changes nothing. */
  ghost function Join(w: World, s: Session, p: Peer, leaseValid: bool, order: seq<nat>, env: Env): World
    requires w.home.users <= w.home.peers.Keys && AllKnown(w.router, order)
  {
    var h' := Attach(w.home, s, p, leaseValid, env.limits, env.enc).0;
    if s !in h'.peers then w
    else
      var r := match Replaced(w.home, p) case Some(old') => Depart(w.router, old', order) case None => w.router;
      World(HandOver(h', Added(w.router, r)), Arrive(r, s, p.role))
  }

  /** One's own calls end before the others are told that one is gone. */
  ghost function Leave(w: World, s: Session, order: seq<nat>): World
    requires s in w.home.peers && AllKnown(w.router, order)
  {
    if s !in w.home.connections then w
    else
      var r := Depart(w.router, s, order);
      World(Detach(HandOver(w.home, Added(w.router, r)), s), r)
  }

  function CallWorld(w: World, s: Session, e: Happening, bounds: Bounds): World
    requires (IsFrame(e) && s in w.home.peers) || IsTimer(e)
    requires CallApplies(w.router, s, RouterLabel(w, s, e))
  {
    var r := CallStep(w.router, s, RouterLabel(w, s, e), bounds);
    World(HandOver(w.home, Added(w.router, r)), r)
  }

  /** The table of `t` is visited in some order. */
  ghost predicate Visits(r: Router, t: Session, order: seq<nat>) {
    t in r.tables && AllKnown(r, order) && Covers(order, r.tables[t].calls)
  }

  /** What the codec, the timers and the server guarantee of a step; nothing about slots or who is attached. */
  ghost predicate CanHappen(w: World, s: Session, e: Happening, bounds: Bounds) {
    match e
    case AtHome(l) => !l.LAttach? && !l.LDetach? && Enabled(w.home, s, l)
    case Joining(p, leaseValid, order) =>
      && Enabled(w.home, s, LAttach(p, leaseValid))
      && (match Replaced(w.home, p) case Some(old') => Visits(w.router, old', order) case None => order == [])
    case Leaving(order) => s in w.home.peers && Visits(w.router, s, order)
    case CallSent(c, calleeID) =>
      && s in w.home.peers && 0 <= c.credit <= bounds.credit
      && var callee := Callee(w.home, s, c.functionID, c.target).0;
         callee.Some? && callee.value in w.router.tables ==> Allocates(w.router.tables[callee.value], calleeID)
    case CreditSent(_, additional) => s in w.home.peers && additional >= 0
    case DeadlinePassed(n) => Known(w.router, n) && w.router.routes[n].accepted
    case CalleeWarned(n) => Known(w.router, n) && n in w.router.expiring && n !in w.router.warned
    case CallerTold(n) => Known(w.router, n) && n in w.router.expiring && n in w.router.warned
    case _ => s in w.home.peers
  }

  lemma RouterApplies(w: World, s: Session, e: Happening, bounds: Bounds)
    requires SameConnections(w) && CanHappen(w, s, e, bounds) && (IsFrame(e) || IsTimer(e))
    ensures CallApplies(w.router, s, RouterLabel(w, s, e))
  {
  }

  ghost function Happen(w: World, s: Session, e: Happening, env: Env, bounds: Bounds): World
    requires w.home.users <= w.home.peers.Keys && SameConnections(w)
    requires CanHappen(w, s, e, bounds)
  {
    match e
    case AtHome(l) => w.(home := Step(w.home, s, l, env))
    case Joining(p, leaseValid, order) => Join(w, s, p, leaseValid, order, env)
    case Leaving(order) => Leave(w, s, order)
    case EventSent(id, target, routable) => w.(home := Publish(w.home, s, id, target, routable).0)
    case _ => RouterApplies(w, s, e, bounds); CallWorld(w, s, e, bounds)
  }

  // ---------- runs ----------

  ghost predicate WorldSteps(w: World, w': World, env: Env, bounds: Bounds) {
    && w.home.users <= w.home.peers.Keys && SameConnections(w)
    && exists s, e :: CanHappen(w, s, e, bounds) && w' == Happen(w, s, e, env, bounds)
  }

  ghost predicate WorldStepsTo(ws: seq<World>, env: Env, bounds: Bounds, i: int)
    requires 0 < i < |ws|
  {
    WorldSteps(ws[i - 1], ws[i], env, bounds)
  }

  predicate BoundsOK(bounds: Bounds) {
    0 <= bounds.inflight < LAST_CALL_ID - 1 && bounds.credit >= 0
  }

  ghost predicate WorldRun(ws: seq<World>, env: Env, bounds: Bounds) {
    && ws != [] && (exists epoch :: ws[0] == NewWorld(epoch))
    && EnvOK(env) && BoundsOK(bounds)
    && forall i :: 0 < i < |ws| ==> WorldStepsTo(ws, env, bounds, i)
  }

  // ---------- who is here ----------

  /** A coordinator is here while it is the connection of its slot, a user or a CLI while it is attached. */
  predicate IsHere(h: Home, s: Session)
    requires s in h.peers
  {
    match h.peers[s].role
    case User => s in h.users
    case Coordinator => Current(h, s)
    case Cli => s in h.connections
  }

  /** The router has the connections of the home, with their roles, and knows which of them are here. */
  ghost predicate Tied(h: Home, r: Router) {
    && r.tables.Keys == h.peers.Keys && r.roles.Keys == h.peers.Keys
    && forall s :: s in h.peers ==> r.roles[s] == h.peers[s].role && (s in r.present <==> IsHere(h, s))
  }
}
