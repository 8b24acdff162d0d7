/** The invariant of an open home. */
module Invariants {
  import opened Basics
  import opened Catalogs
  import opened CatalogProofs
  import opened Views
  import opened HomeModel
  import opened Replicas

  ghost predicate Membership(h: Home) {
    && h.users <= h.connections <= h.peers.Keys
    && (forall s :: s in h.connections ==> (h.peers[s].role == User <==> s in h.users))
  }

  /** The connection of a slot is attached, and both sides agree on the name and the generation. */
  ghost predicate Linked(name: string, slot: Slot, peers: map<Session, Peer>, connections: set<Session>) {
    slot.connection.Some? ==>
      && slot.connection.value in connections
      && slot.connection.value in peers
      && peers[slot.connection.value].role == Coordinator
      && peers[slot.connection.value].name == name
      && peers[slot.connection.value].generation == slot.generation
  }

  /** Exactly the slots without a connection have a grace timer, and it is for their generation. */
  ghost predicate SlotOK(slot: Slot, active: bool) {
    && slot.generation >= 1
    && (slot.ready ==> active && slot.connection.Some?)
    && slot.grace == (if slot.connection.Some? then None else Some(slot.generation))
  }

  ghost predicate SlotsOK(h: Home) {
    && h.catalog.configs.Keys <= h.slots.Keys
    && (forall name :: name in h.slots ==>
      && Linked(name, h.slots[name], h.peers, h.connections)
      && SlotOK(h.slots[name], name in h.catalog.configs))
  }

  /** No frame precedes WELCOME, and a connection that is live can be sent frames. */
  ghost predicate PeerOK(p: Peer) {
    && (p.live ==> p.open)
    && (p.log != [] ==> p.log[0] == Welcome)
    && (p.bootstrapped || p.open ==> p.log != [])
  }

  ghost predicate PeersOK(peers: map<Session, Peer>) {
    forall s :: s in peers ==> PeerOK(peers[s])
  }

  function StagedIDs(kind: Kind, p: Peer): map<string, int> {
    if p.stage.None? || kind == Function then map[]
    else if kind == Path then p.stage.value.pathIDs else p.stage.value.topicIDs
  }

  ghost predicate StagesOK(kind: Kind, peers: map<Session, Peer>, names: Names, next: int) {
    && (forall s :: s in peers ==> StagedInv(names, next, StagedIDs(kind, peers[s])))
    && (forall s, t :: s in peers && t in peers && s != t ==>
      StagesDisjoint(names, StagedIDs(kind, peers[s]), StagedIDs(kind, peers[t])))
  }

  ghost predicate StageShaped(stage: Stage) {
    stage.pathIDs.Keys == stage.state.Keys && stage.topicIDs.Keys == stage.events.Keys
  }

  ghost predicate StagesShaped(peers: map<Session, Peer>) {
    forall s :: s in peers && peers[s].stage.Some? ==> StageShaped(peers[s].stage.value)
  }

  /** The stage of a slot's connection gives the paths the slot already owns their canonical IDs. */
  ghost predicate StageAgrees(c: Catalog, name: string, p: Peer) {
    forall path :: path in StagedIDs(Path, p) && path in c.stateOwners && c.stateOwners[path] == name ==>
      StagedIDs(Path, p)[path] == IdOf(c.paths.byName, path)
  }

  ghost predicate StagesAgree(h: Home) {
    forall s :: s in h.peers && Current(h, s) ==> StageAgrees(h.catalog, h.peers[s].name, h.peers[s])
  }

  ghost predicate Follows(c: Catalog, limits: Limits, p: Peer) {
    && |p.subscriptions| <= limits.subscriptions
    && forall id :: id in p.subscriptions ==> MayFollow(c, p.user, id)
  }

  ghost predicate Subscriptions(h: Home, limits: Limits)
    requires h.users <= h.peers.Keys
  {
    forall s :: s in h.users ==> Follows(h.catalog, limits, h.peers[s])
  }

  /** `view` has every available user, and nobody who is detached or was never announced. */
  ghost predicate Between(users: set<Session>, peers: map<Session, Peer>, view: set<(int, string)>)
    requires users <= peers.Keys
  {
    && (forall u :: u in users && Available(peers[u]) ==> (u, peers[u].user) in view)
    && (forall e :: e in view ==> e.0 in users && peers[e.0].bootstrapped && peers[e.0].user == e.1)
  }

  ghost predicate Presence(h: Home)
    requires h.users <= h.peers.Keys
  {
    forall s :: s in h.peers && IsCurrent(h.slots, s) && Available(h.peers[s]) ==>
      Between(h.users, h.peers, PresenceView(h.peers[s].log))
  }

  ghost predicate Counted(h: Home, limits: Limits) {
    && SizesInv(h.catalog, limits)
    && |h.users| <= limits.users
    && |h.slots| <= limits.coordinators
  }

  ghost predicate NamesOK(h: Home) {
    && NamesInv(h.catalog.paths, h.nextPath)
    && NamesInv(h.catalog.topics, h.nextTopic)
    && NamesInv(h.catalog.functions, h.nextFunction)
  }

  ghost predicate Encodes(h: Home, enc: Frame -> bool)
    requires h.users <= h.peers.Keys
  {
    Recoverable(h.catalog, enc) && enc(PresenceSnapshot(SessionsOf(h)))
  }

  /** Everything but the coordinators' pictures of who is present. */
  ghost predicate Settled(h: Home, env: Env) {
    && Membership(h)
    && CatalogInv(h.catalog)
    && NamesOK(h)
    && SlotsOK(h)
    && PeersOK(h.peers)
    && StagesOK(Path, h.peers, h.catalog.paths, h.nextPath)
    && StagesOK(Topic, h.peers, h.catalog.topics, h.nextTopic)
    && StagesShaped(h.peers)
    && StagesAgree(h)
    && Subscriptions(h, env.limits)
    && Counted(h, env.limits)
    && Encodes(h, env.enc)
    && h.policy >= 1
  }

  ghost predicate Inv(h: Home, env: Env) {
    Settled(h, env) && Presence(h)
  }

  /** Every available user holds its exact current view. */
  ghost predicate InStep(h: Home)
    requires h.users <= h.peers.Keys
  {
    forall s :: s in h.users && Available(h.peers[s]) ==>
      h.peers[s].lastStateRevision >= 1 && Replicated(h.catalog, h.peers[s])
  }

  ghost predicate EnvOK(env: Env) {
    && Codec(env.enc)
    && env.limits.statePaths >= 0 && env.limits.dictionary >= 0 && env.limits.users >= 0
    && env.limits.coordinators >= 0 && env.limits.subscriptions >= 0
  }

  lemma StartOK(epoch: int, env: Env)
    requires EnvOK(env)
    ensures Inv(NewHome(epoch), env) && InStep(NewHome(epoch))
  {
    var h := NewHome(epoch);
    assert SessionsOf(h) == {};
    assert PathEntries(h.catalog, "") == {};
    forall user ensures RecoverableFor(h.catalog, user, env.enc) {
      assert PathEntries(h.catalog, user) == {};
      assert StateEntries(h.catalog, user) == {};
      assert TopicEntries(h.catalog, user) == {};
    }
    assert FunctionEntries(h.catalog) == {};
  }

  // ---------- steps that concern only one connection ----------

  /** Identity, role and bootstrap survive; liveness and the queue can only fall. */
  predicate Kept(p: Peer, p': Peer) {
    && p'.role == p.role && p'.user == p.user && p'.name == p.name
    && p'.generation == p.generation && p'.bootstrapped == p.bootstrapped
    && (p'.live ==> p.live)
  }

  ghost predicate Evolved(peers: map<Session, Peer>, peers': map<Session, Peer>) {
    && peers'.Keys == peers.Keys
    && forall s :: s in peers ==> Kept(peers[s], peers'[s])
  }

  /** A connection that coordinates keeps its picture of who is present. */
  ghost predicate Tame(h: Home, s: Session, p: Peer, p': Peer) {
    && Kept(p, p')
    && (PeerOK(p) ==> PeerOK(p'))
    && (IsCurrent(h.slots, s) && Available(p') ==> PresenceView(p'.log) == PresenceView(p.log))
  }

  /** At most one frame was added, and it says nothing about state or presence. */
  ghost predicate Quiet(p: Peer, p': Peer) {
    && Kept(p, p')
    && (PeerOK(p) ==> PeerOK(p'))
    && p'.lastStateRevision == p.lastStateRevision
    && (p'.log == p.log || (p'.log != [] && p'.log[..|p'.log| - 1] == p.log && Neutral(p'.log[|p'.log| - 1])))
  }

  lemma QuietFolds(p: Peer, p': Peer)
    requires Quiet(p, p')
    ensures Replay(p'.log) == Replay(p.log)
    ensures PresenceView(p'.log) == PresenceView(p.log)
  {
  }
}
