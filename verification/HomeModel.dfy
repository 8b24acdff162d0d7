/**
 One home as a state machine: every function below is one critical section under the home lock.
 A home that is being closed is not modelled.
 */
module HomeModel {
  import opened Basics
  import opened Catalogs
  import opened Views

  /** Connections are named by their session ID, which the server never gives out twice. */
  type Session = int

  datatype Role = User | Coordinator | Cli

  /** The declaration slice a stage waits for. */
  datatype Slice = AclSlice | EventSlice | EventAclSlice | FunctionSlice

  /** `serial` tells the stages of a connection apart; `timer` that the one which would expire it is running. */
  datatype Stage = Stage(
    expected: Slice,
    state: map<string, Value>,
    pathIDs: map<string, int>,
    stateACL: map<string, seq<string>>,
    events: map<string, int>,
    topicIDs: map<string, int>,
    eventACL: map<string, EventAccess>,
    serial: nat,
    timer: bool)

  /**
   A connection as its home sees it. `live` means active phase and unexpired lease, `open` that the
   outbound queue still takes frames, and `room` how many it takes before it overflows: the
   environment may change `room` between any two steps. `log` is every frame ever enqueued, and
   `stageCount` the number of stages the connection has opened.
   */
  datatype Peer = Peer(
    role: Role,
    user: string,
    name: string,
    generation: int,
    bootstrapped: bool,
    live: bool,
    open: bool,
    room: nat,
    log: seq<Frame>,
    lastStateRevision: int,
    stage: Option<Stage>,
    stageCount: nat,
    subscriptions: set<int>)

  /** A coordinator slot; its active configuration is the one in the catalogue. */
  datatype Slot = Slot(generation: int, connection: Option<Session>, ready: bool, grace: Option<int>)

  datatype Home = Home(
    epoch: int,
    catalog: Catalog,
    policy: int,
    nextPath: int,
    nextTopic: int,
    nextFunction: int,
    slots: map<string, Slot>,
    peers: map<Session, Peer>,
    connections: set<Session>,
    users: set<Session>)

  ghost function NewHome(epoch: int): Home {
    var none := Names(map[], map[]);
    Home(epoch, Catalog(1, map[], none, none, none, map[], map[], map[], map[]), 1, 1, 1, 1, map[], map[], {}, {})
  }

  // ---------- sending ----------

  predicate Available(p: Peer) {
    p.bootstrapped && p.live
  }

  predicate Accepts(p: Peer) {
    p.open && p.room > 0
  }

  /** A frame that does not fit closes the queue and fails the connection for good. */
  function Enqueue(p: Peer, f: Frame): Peer {
    if Accepts(p) then p.(log := p.log + [f], room := p.room - 1) else p.(open := false, live := false)
  }

  function EnqueueAll(p: Peer, fs: seq<Frame>): Peer
    decreases |fs|
  {
    if fs == [] then p else EnqueueAll(Enqueue(p, fs[0]), fs[1..])
  }

  predicate IsCurrent(slots: map<string, Slot>, s: Session) {
    exists name :: name in slots && slots[name].connection == Some(s)
  }

  /** Send a presence change to the available connection of every slot. */
  ghost function Announce(h: Home, f: Frame): Home {
    h.(peers := map s | s in h.peers ::
         if IsCurrent(h.slots, s) && Available(h.peers[s]) then Enqueue(h.peers[s], f) else h.peers[s])
  }

  ghost function Pruned(c: Catalog, p: Peer): Peer {
    p.(subscriptions := set id | id in p.subscriptions
         && NameOf(c.topics.byID, id) in c.topicOwners && CanSubscribe(c.configs, p.user, NameOf(c.topics.byID, id)))
  }

  ghost function Refreshed(c: Catalog, p: Peer): Peer {
    if Available(p) then EnqueueAll(p.(lastStateRevision := c.revision), RecoveryFrames(c, p.user)) else p
  }

  /** Prune the subscriptions of every user and send every available one its complete view. */
  ghost function RefreshUsers(h: Home): Home {
    h.(peers := map s | s in h.peers ::
         if s in h.users then Refreshed(h.catalog, Pruned(h.catalog, h.peers[s])) else h.peers[s])
  }

  // ---------- attach, detach, expiry ----------

  ghost function SessionsOf(h: Home): set<(int, string)>
    requires h.users <= h.peers.Keys
  {
    set s | s in h.users && h.peers[s].bootstrapped :: (s, h.peers[s].user)
  }

  /** A connection that has just authenticated. */
  predicate Newcomer(p: Peer) {
    && !p.bootstrapped && p.log == [] && p.stage == None && p.subscriptions == {} && p.lastStateRevision == 0
    && (p.live ==> p.open)
  }

  /** The end of the bootstrap: its frames went out and the lease is still valid, or it failed. */
  function Bootstrapped(p: Peer, leaseValid: bool): Peer {
    if !p.open then p else if leaseValid then p.(bootstrapped := true) else p.(live := false)
  }

  function BootstrapOutcome(p: Peer, leaseValid: bool): Outcome {
    if !p.open then Refused(SLOW_CONSUMER, true) else if leaseValid then Ok else Refused(TOKEN_EXPIRED, true)
  }

  ghost function AttachUser(h: Home, s: Session, p: Peer, leaseValid: bool, limits: Limits, enc: Frame -> bool): (Home, Outcome)
    requires h.users <= h.peers.Keys
  {
    if |h.users| >= limits.users || !enc(PresenceSnapshot(SessionsOf(h) + {(s, p.user)})) then (h, Refused(LIMIT_EXCEEDED, true))
    else
      var sent := EnqueueAll(p.(lastStateRevision := h.catalog.revision), [Welcome] + RecoveryFrames(h.catalog, p.user));
      var p' := Bootstrapped(sent, leaseValid);
      var h' := h.(peers := h.peers[s := p'], connections := h.connections + {s}, users := h.users + {s});
      (if Available(p') then Announce(h', PresenceChange(s, p.user, 1)) else h', BootstrapOutcome(sent, leaseValid))
  }

  ghost function AttachCoordinator(h: Home, s: Session, p: Peer, leaseValid: bool, limits: Limits): (Home, Outcome)
    requires h.users <= h.peers.Keys
  {
    if p.name !in h.slots && |h.slots| >= limits.coordinators then (h, Refused(LIMIT_EXCEEDED, true))
    else
      var generation := (if p.name in h.slots then h.slots[p.name].generation else 0) + 1;
      var sent := EnqueueAll(p.(generation := generation), [Welcome, PresenceSnapshot(SessionsOf(h))]);
      (h.(peers := h.peers[s := Bootstrapped(sent, leaseValid)],
          connections := h.connections + {s},
          slots := h.slots[p.name := Slot(generation, Some(s), false, None)]),
       BootstrapOutcome(sent, leaseValid))
  }

  ghost function AttachCli(h: Home, s: Session, p: Peer, leaseValid: bool): (Home, Outcome) {
    var sent := EnqueueAll(p, [Welcome]);
    (h.(peers := h.peers[s := Bootstrapped(sent, leaseValid)], connections := h.connections + {s}),
     BootstrapOutcome(sent, leaseValid))
  }

  ghost function Attach(h: Home, s: Session, p: Peer, leaseValid: bool, limits: Limits, enc: Frame -> bool): (Home, Outcome)
    requires h.users <= h.peers.Keys
  {
    match p.role
    case User => AttachUser(h, s, p, leaseValid, limits, enc)
    case Coordinator => AttachCoordinator(h, s, p, leaseValid, limits)
    case Cli => AttachCli(h, s, p, leaseValid)
  }

  /** The peer is the connection of its slot, in the slot's generation. */
  predicate Current(h: Home, s: Session)
    requires s in h.peers
  {
    var p := h.peers[s];
    p.name in h.slots && h.slots[p.name].connection == Some(s) && h.slots[p.name].generation == p.generation
  }

  ghost function Detach(h: Home, s: Session): Home
    requires s in h.peers
  {
    if s !in h.connections then h
    else
      var p := h.peers[s];
      var h' := h.(peers := h.peers[s := p.(stage := None)], connections := h.connections - {s});
      match p.role
      case User =>
        var gone := h'.(users := h.users - {s});
        if p.bootstrapped then Announce(gone, PresenceChange(s, p.user, 2)) else gone
      case Coordinator =>
        if !Current(h, s) then h'
        else if !p.bootstrapped && p.name !in h.catalog.configs then h'.(slots := h.slots - {p.name})
        else
          var slot := h.slots[p.name];
          h'.(slots := h.slots[p.name := slot.(connection := None, ready := false, grace := Some(slot.generation))])
      case Cli => h'
  }

  /** The grace timer of some generation of a slot fires, possibly long after it was stopped. */
  ghost function Expire(h: Home, name: string, generation: int): Home {
    if name !in h.slots || h.slots[name].generation != generation || h.slots[name].connection.Some? then h
    else
      var gone := h.(slots := h.slots - {name});
      if name !in h.catalog.configs then gone
      else RefreshUsers(gone.(catalog := Remove(h.catalog, name), policy := h.policy + 1))
  }

  // ---------- declarations ----------

  ghost function SetPeer(h: Home, s: Session, p: Peer): Home {
    h.(peers := h.peers[s := p])
  }

  function SentOutcome(p: Peer): Outcome {
    if Accepts(p) then Ok else Refused(SLOW_CONSUMER, true)
  }

  /** A new first slice stops the timer of the stage it is about to replace, before it is certain to replace it. */
  function Halted(p: Peer): Peer {
    if p.stage.None? then p else p.(stage := Some(p.stage.value.(timer := false)))
  }

  ghost function SyncState(h: Home, s: Session, state: map<string, Value>, ids: map<string, int>, enc: Frame -> bool): (Home, Outcome)
    requires s in h.peers
  {
    var p := h.peers[s];
    if p.role != Coordinator then (h, Refused(WRONG_DIRECTION, false))
    else if !Current(h, s) then (h, Refused(GENERATION_REPLACED, true))
    else
      var burnt := h.(nextPath := NextAfter(h.catalog.paths, h.nextPath, ids));
      var reply := StateSyncOK(h.catalog.revision, ids);
      if !enc(reply) then (SetPeer(burnt, s, Halted(p)), Refused(LIMIT_EXCEEDED, false))
      else
        var stage := Stage(AclSlice, state, ids, map[], map[], map[], map[], p.stageCount, true);
        (SetPeer(burnt, s, Enqueue(p, reply).(stage := if Accepts(p) then Some(stage) else None, stageCount := p.stageCount + 1)), SentOutcome(p))
  }

  /** The guards shared by the four later slices; `Ok` when the slice is the expected one. */
  function SliceRefusal(h: Home, s: Session, slice: Slice): Outcome
    requires s in h.peers
  {
    var p := h.peers[s];
    if p.role != Coordinator then Refused(WRONG_DIRECTION, false)
    else if !Current(h, s) then Refused(GENERATION_REPLACED, true)
    else if p.stage.None? || p.stage.value.expected != slice then Refused(UNEXPECTED_FRAME, false)
    else Ok
  }

  /** A slice out of order drops the stage; the other refusals leave it. */
  ghost function RefuseSlice(h: Home, s: Session, slice: Slice): (Home, Outcome)
    requires s in h.peers
  {
    var refusal := SliceRefusal(h, s, slice);
    (if refusal == Refused(UNEXPECTED_FRAME, false) then SetPeer(h, s, h.peers[s].(stage := None)) else h, refusal)
  }

  ghost function SyncAcl(h: Home, s: Session, acl: map<string, seq<string>>): (Home, Outcome)
    requires s in h.peers
  {
    if SliceRefusal(h, s, AclSlice) != Ok then RefuseSlice(h, s, AclSlice)
    else
      var p := h.peers[s];
      var stage := p.stage.value.(stateACL := acl, expected := EventSlice);
      (SetPeer(h, s, Enqueue(p.(stage := Some(stage)), Other)), SentOutcome(p))
  }

  ghost function SyncEvents(h: Home, s: Session, events: map<string, int>, ids: map<string, int>, enc: Frame -> bool): (Home, Outcome)
    requires s in h.peers
  {
    if SliceRefusal(h, s, EventSlice) != Ok then RefuseSlice(h, s, EventSlice)
    else
      var p := h.peers[s];
      var burnt := h.(nextTopic := NextAfter(h.catalog.topics, h.nextTopic, ids));
      if !enc(EventSyncOK(ids)) then (SetPeer(burnt, s, p.(stage := None)), Refused(LIMIT_EXCEEDED, false))
      else
        var stage := p.stage.value.(events := events, topicIDs := ids, expected := EventAclSlice);
        (SetPeer(burnt, s, Enqueue(p.(stage := Some(stage)), EventSyncOK(ids))), SentOutcome(p))
  }

  ghost function SyncEventAcl(h: Home, s: Session, acl: map<string, EventAccess>): (Home, Outcome)
    requires s in h.peers
  {
    if SliceRefusal(h, s, EventAclSlice) != Ok then RefuseSlice(h, s, EventAclSlice)
    else
      var p := h.peers[s];
      var stage := p.stage.value.(eventACL := acl, expected := FunctionSlice);
      (SetPeer(h, s, Enqueue(p.(stage := Some(stage)), Other)), SentOutcome(p))
  }

  function DeclarationOf(stage: Stage, functions: set<string>, ids: map<string, int>): Declaration {
    Declaration(Config(stage.state.Keys, stage.state, stage.stateACL, stage.events, stage.eventACL, functions),
                stage.pathIDs, stage.topicIDs, ids)
  }

  function ConnectedNames(peers: map<Session, Peer>, users: set<Session>): set<string>
    requires users <= peers.Keys
  {
    set s | s in users :: peers[s].user
  }

  ghost function ConnectedIDs(h: Home): set<string>
    requires h.users <= h.peers.Keys
  {
    ConnectedNames(h.peers, h.users)
  }

  /** The last slice: everything staged becomes visible at once, or nothing does. */
  ghost function SyncFunctions(h: Home, s: Session, functions: set<string>, ids: map<string, int>,
                               limits: Limits, enc: Frame -> bool): (Home, Outcome)
    requires s in h.peers && h.users <= h.peers.Keys
  {
    if SliceRefusal(h, s, FunctionSlice) != Ok then RefuseSlice(h, s, FunctionSlice)
    else
      var p := h.peers[s];
      var burnt := h.(nextFunction := NextAfter(h.catalog.functions, h.nextFunction, ids));
      var d := DeclarationOf(p.stage.value, functions, ids);
      var refusal := ActivationRefusal(h.catalog, p.name, d, ConnectedIDs(h), limits, enc);
      var p' := Enqueue(p, FunctionSyncOK(ids)).(stage := None);
      if refusal != Ok then (SetPeer(burnt, s, p.(stage := None)), refusal)
      else if !Accepts(p) then (SetPeer(burnt, s, p'), SentOutcome(p))
      else (RefreshUsers(Committed(SetPeer(burnt, s, p'), p.name, d)), Ok)
  }

  ghost function Committed(h: Home, name: string, d: Declaration): Home
    requires name in h.slots
  {
    h.(catalog := Activate(h.catalog, name, d),
       policy := if PolicyChanges(h.catalog.configs, name, d.config) then h.policy + 1 else h.policy,
       slots := h.slots[name := h.slots[name].(ready := true)])
  }

  /** The timer of one stage fires, possibly after it was stopped: it drops that stage and no other. */
  ghost function ExpireStage(h: Home, s: Session, serial: nat): Home
    requires s in h.peers
  {
    if h.peers[s].stage.None? || h.peers[s].stage.value.serial != serial then h
    else SetPeer(h, s, Enqueue(h.peers[s].(stage := None), Other))
  }

  // ---------- state ----------

  /** The catalogue used to check a mutation before it is committed. */
  ghost function Preview(c: Catalog, ms: seq<Mutation>): Catalog {
    c.(revision := c.revision + 1, state := WriteAll(c.state, c.paths.byID, ms))
  }

  ghost function MutationRefusal(h: Home, s: Session, epoch: int, ms: seq<Mutation>, enc: Frame -> bool): Outcome
    requires s in h.peers && h.users <= h.peers.Keys
  {
    var p := h.peers[s];
    if p.role != Coordinator then Refused(WRONG_DIRECTION, false)
    else if epoch != h.epoch then Refused(STALE_EPOCH, true)
    else if !Current(h, s) then Refused(GENERATION_REPLACED, true)
    else if !h.slots[p.name].ready || p.name !in h.catalog.configs then Refused(UNAVAILABLE, true)
    else if !OwnsPaths(h.catalog, p.name, ms) then Refused(NOT_DECLARED, false)
    else if !RequiredFramesEncode(Preview(h.catalog, ms), ConnectedIDs(h), enc) then Refused(LIMIT_EXCEEDED, false)
    else Ok
  }

  /** A patch from the user's last revision, or the whole new view when the patch does not encode. */
  ghost function PatchFor(c: Catalog, p: Peer, ms: seq<Mutation>, enc: Frame -> bool): Frame {
    var base := if p.lastStateRevision == 0 then c.revision else p.lastStateRevision;
    var patch := StatePatch(base, c.revision + 1, VisibleMutations(c, p.user, ms));
    if enc(patch) then patch else StateSnapshot(c.revision + 1, StateEntries(Preview(c, ms), p.user))
  }

  ghost function Patched(c: Catalog, p: Peer, ms: seq<Mutation>, enc: Frame -> bool): Peer {
    if !Available(p) || VisibleMutations(c, p.user, ms) == [] then p
    else Enqueue(p.(lastStateRevision := c.revision + 1), PatchFor(c, p, ms, enc))
  }

  ghost function SetState(h: Home, s: Session, epoch: int, ms: seq<Mutation>, enc: Frame -> bool): (Home, Outcome)
    requires s in h.peers && h.users <= h.peers.Keys
  {
    var p := h.peers[s];
    var refusal := MutationRefusal(h, s, epoch, ms, enc);
    var p' := Enqueue(p, StateSetOK(h.catalog.revision + 1));
    if refusal != Ok then (h, refusal)
    else if !Accepts(p) then (SetPeer(h, s, p'), SentOutcome(p))
    else (h.(catalog := Mutate(h.catalog, p.name, ms),
             peers := map t | t in h.peers ::
               if t == s then p' else if t in h.users then Patched(h.catalog, h.peers[t], ms, enc) else h.peers[t]), Ok)
  }

  ghost function Resync(h: Home, s: Session): (Home, Outcome)
    requires s in h.peers
  {
    var p := h.peers[s];
    if p.role != User then (h, Refused(FORBIDDEN, false))
    else
      var views := [StateDict(PathEntries(h.catalog, p.user)), StateSnapshot(h.catalog.revision, StateEntries(h.catalog, p.user))];
      var p' := EnqueueAll(p.(lastStateRevision := h.catalog.revision), views);
      (SetPeer(h, s, p'), if p'.open then Ok else Refused(SLOW_CONSUMER, true))
  }

  // ---------- subscriptions ----------

  function NewIDs(known: set<int>, ids: seq<int>): nat {
    if ids == [] then 0 else NewIDs(known, ids[..|ids| - 1]) + (if ids[|ids| - 1] in known then 0 else 1)
  }

  predicate MayFollow(c: Catalog, user: string, id: int) {
    NameOf(c.topics.byID, id) != "" && CanSubscribe(c.configs, user, NameOf(c.topics.byID, id))
  }

  ghost function Subscribe(h: Home, s: Session, ids: seq<int>, limits: Limits): (Home, Outcome)
    requires s in h.peers
  {
    var p := h.peers[s];
    if p.role != User then (h, Refused(WRONG_DIRECTION, false))
    else if !Enrolled(h.catalog.configs, p.user) then (h, Refused(NOT_ENROLLED, false))
    else if exists i :: 0 <= i < |ids| && !MayFollow(h.catalog, p.user, ids[i]) then (h, Refused(FORBIDDEN, false))
    else if |p.subscriptions| + NewIDs(p.subscriptions, ids) > limits.subscriptions then (h, Refused(LIMIT_EXCEEDED, false))
    else (SetPeer(h, s, Enqueue(p.(subscriptions := p.subscriptions + set id | id in ids), Other)), SentOutcome(p))
  }

  ghost function Unsubscribe(h: Home, s: Session, ids: seq<int>): (Home, Outcome)
    requires s in h.peers
  {
    var p := h.peers[s];
    if p.role != User then (h, Refused(WRONG_DIRECTION, false))
    else if exists i :: 0 <= i < |ids| && ids[i] !in p.subscriptions then (h, Refused(NOT_DECLARED, false))
    else (SetPeer(h, s, Enqueue(p.(subscriptions := p.subscriptions - set id | id in ids), Other)), SentOutcome(p))
  }

  // ---------- runs ----------

  datatype Label =
    | LAttach(p: Peer, leaseValid: bool)
    | LDetach
    | LExpire(name: string, generation: int)
    | LSyncState(state: map<string, Value>, pathIDs: map<string, int>)
    | LSyncAcl(acl: map<string, seq<string>>)
    | LSyncEvents(events: map<string, int>, topicIDs: map<string, int>)
    | LSyncEventAcl(eventACL: map<string, EventAccess>)
    | LSyncFunctions(functions: set<string>, functionIDs: map<string, int>)
    | LExpireStage(serial: nat)
    | LSetState(epoch: int, ms: seq<Mutation>)
    | LResync
    | LSubscribe(ids: seq<int>)
    | LUnsubscribe(dropped: seq<int>)
    | LNotice            // any frame without state or presence content
    | LLoseLiveness      // drain, lease expiry or closing
    | LCloseQueue        // FATAL queued, or the connection stopped
    | LRefill(room: nat) // the writer made room, or another connection used the shared budget

  datatype Env = Env(limits: Limits, enc: Frame -> bool)

  /** The IDs a step reserves are ones the counters may yield, and a newcomer has a new session ID. */
  ghost predicate Enabled(h: Home, s: Session, l: Label) {
    match l
    case LAttach(p, _) => s !in h.peers && Newcomer(p)
    case LExpire(_, _) => true
    case LSyncState(state, ids) => s in h.peers && Reserves(h.catalog.paths, h.nextPath, state.Keys, ids)
    case LSyncEvents(events, ids) => s in h.peers && Reserves(h.catalog.topics, h.nextTopic, events.Keys, ids)
    case LSyncFunctions(functions, ids) => s in h.peers && Reserves(h.catalog.functions, h.nextFunction, functions, ids)
    case _ => s in h.peers
  }

  ghost function Step(h: Home, s: Session, l: Label, env: Env): Home
    requires h.users <= h.peers.Keys
    requires Enabled(h, s, l)
  {
    match l
    case LAttach(p, leaseValid) => Attach(h, s, p, leaseValid, env.limits, env.enc).0
    case LDetach => Detach(h, s)
    case LExpire(name, generation) => Expire(h, name, generation)
    case LSyncState(state, ids) => SyncState(h, s, state, ids, env.enc).0
    case LSyncAcl(acl) => SyncAcl(h, s, acl).0
    case LSyncEvents(events, ids) => SyncEvents(h, s, events, ids, env.enc).0
    case LSyncEventAcl(acl) => SyncEventAcl(h, s, acl).0
    case LSyncFunctions(functions, ids) => SyncFunctions(h, s, functions, ids, env.limits, env.enc).0
    case LExpireStage(serial) => ExpireStage(h, s, serial)
    case LSetState(epoch, ms) => SetState(h, s, epoch, ms, env.enc).0
    case LResync => Resync(h, s).0
    case LSubscribe(ids) => Subscribe(h, s, ids, env.limits).0
    case LUnsubscribe(ids) => Unsubscribe(h, s, ids).0
    case LNotice => SetPeer(h, s, Enqueue(h.peers[s], Other))
    case LLoseLiveness => SetPeer(h, s, h.peers[s].(live := false))
    case LCloseQueue => SetPeer(h, s, h.peers[s].(live := false, open := false))
    case LRefill(room) => SetPeer(h, s, h.peers[s].(room := room))
  }

  ghost predicate Steps(h: Home, h': Home, env: Env) {
    h.users <= h.peers.Keys && exists s, l :: Enabled(h, s, l) && h' == Step(h, s, l, env)
  }

  ghost predicate StepsTo(hs: seq<Home>, env: Env, i: int)
    requires 0 < i < |hs|
  {
    Steps(hs[i - 1], hs[i], env)
  }

  /** A run of a home: every home but the first is reached from the previous one by an enabled step. */
  ghost predicate RunFromStart(hs: seq<Home>, env: Env) {
    && hs != []
    && (exists epoch :: hs[0] == NewHome(epoch))
    && (forall i :: 0 < i < |hs| ==> StepsTo(hs, env, i))
  }
}
