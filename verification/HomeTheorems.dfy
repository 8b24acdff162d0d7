/** What holds over every run of an open home. */
module HomeTheorems {
  import opened Basics
  import opened Catalogs
  import opened CatalogProofs
  import opened Views
  import opened HomeModel
  import opened Replicas
  import opened Invariants
  import opened QuietSteps
  import opened StageSteps
  import opened MemberSteps
  import opened CommitSteps
  import opened ActivationSteps

  /** An accepted mutation names its paths by the IDs the dictionary currently gives them. */
  ghost predicate CanonicalStep(h: Home, s: Session, l: Label, env: Env)
    requires h.users <= h.peers.Keys && Enabled(h, s, l)
  {
    l.LSetState? && SetState(h, s, l.epoch, l.ms, env.enc).1 == Ok ==> AllCanonical(h.catalog.paths, l.ms)
  }

  /** Every step keeps the invariant, and every canonical step keeps every available user in step. */
  lemma StepKeeps(h: Home, s: Session, l: Label, env: Env)
    requires Inv(h, env) && EnvOK(env) && Enabled(h, s, l)
    ensures Inv(Step(h, s, l, env), env)
    ensures InStep(h) && CanonicalStep(h, s, l, env) ==> InStep(Step(h, s, l, env))
  {
    match l
    case LAttach(p, leaseValid) => AttachKeeps(h, s, p, leaseValid, env);
    case LDetach => DetachKeeps(h, s, env);
    case LExpire(name, generation) => ExpireKeeps(h, name, generation, env);
    case LSyncState(state, ids) => SyncStateKeeps(h, s, state, ids, env);
    case LSyncAcl(acl) => SyncAclKeeps(h, s, acl, env);
    case LSyncEvents(events, ids) => SyncEventsKeeps(h, s, events, ids, env);
    case LSyncEventAcl(acl) => SyncEventAclKeeps(h, s, acl, env);
    case LSyncFunctions(functions, ids) => SyncFunctionsKeeps(h, s, functions, ids, env);
    case LExpireStage(serial) => ExpireStageKeeps(h, s, serial, env);
    case LSetState(epoch, ms) => SetStateKeeps(h, s, epoch, ms, env);
    case LResync => ResyncKeeps(h, s, env);
    case LSubscribe(ids) => SubscribeKeeps(h, s, ids, env);
    case LUnsubscribe(ids) => UnsubscribeKeeps(h, s, ids, env);
    case LNotice => NoticeKeeps(h, s, env);
    case LLoseLiveness => FlagsKeep(h, s, false, h.peers[s].open, h.peers[s].room, env);
    case LCloseQueue => FlagsKeep(h, s, false, false, h.peers[s].room, env);
    case LRefill(room) => FlagsKeep(h, s, h.peers[s].live, h.peers[s].open, room, env);
  }

  /** Index agreement, dictionaries, limits, encodability and presence in every reachable home. */
  lemma {:induction false} RunKeepsInvariant(hs: seq<Home>, env: Env, i: int)
    requires EnvOK(env) && RunFromStart(hs, env) && 0 <= i < |hs|
    ensures Inv(hs[i], env)
  {
    if i == 0 {
      var epoch :| hs[0] == NewHome(epoch);
      StartOK(epoch, env);
    } else {
      RunKeepsInvariant(hs, env, i - 1);
      assert StepsTo(hs, env, i);
      var s, l :| Enabled(hs[i - 1], s, l) && hs[i] == Step(hs[i - 1], s, l, env);
      StepKeeps(hs[i - 1], s, l, env);
    }
  }

  /** A run in which every accepted mutation is canonical. */
  ghost predicate CanonicalRun(hs: seq<Home>, env: Env) {
    && hs != []
    && (exists epoch :: hs[0] == NewHome(epoch))
    && forall i :: 0 < i < |hs| ==> CanonicalStepsTo(hs, env, i)
  }

  ghost predicate CanonicalStepsTo(hs: seq<Home>, env: Env, i: int)
    requires 0 < i < |hs|
  {
    CanonicalSteps(hs[i - 1], hs[i], env)
  }

  ghost predicate CanonicalSteps(h: Home, h': Home, env: Env) {
    h.users <= h.peers.Keys && exists s, l :: Enabled(h, s, l) && CanonicalStep(h, s, l, env) && h' == Step(h, s, l, env)
  }

  /**
   Replica convergence under canonical mutations: in every reachable home the frames enqueued to an available user never
   contained a patch from a wrong base, and replaying them yields its exact visible state at its last
   revision together with the current path, topic and function dictionaries.
   */
  lemma {:induction false} CanonicalRunsConverge(hs: seq<Home>, env: Env, i: int)
    requires EnvOK(env) && CanonicalRun(hs, env) && 0 <= i < |hs|
    ensures Inv(hs[i], env)
    ensures forall u :: u in hs[i].users && Available(hs[i].peers[u]) ==>
      Replay(hs[i].peers[u].log) == ViewOf(hs[i].catalog, hs[i].peers[u])
    ensures InStep(hs[i])
  {
    if i == 0 {
      var epoch :| hs[0] == NewHome(epoch);
      StartOK(epoch, env);
    } else {
      CanonicalRunsConverge(hs, env, i - 1);
      assert CanonicalStepsTo(hs, env, i);
      var s, l :| Enabled(hs[i - 1], s, l) && CanonicalStep(hs[i - 1], s, l, env) && hs[i] == Step(hs[i - 1], s, l, env);
      StepKeeps(hs[i - 1], s, l, env);
    }
  }

  /**
   Presence agreement: whatever the interleaving of attach, replacement and detach, the frames sent to
   the available connection of a slot add up to a picture that has every attached available user and
   no session that is detached.
   */
  lemma PresenceAgrees(hs: seq<Home>, env: Env, i: int, s: Session)
    requires EnvOK(env) && RunFromStart(hs, env) && 0 <= i < |hs|
    requires s in hs[i].peers && IsCurrent(hs[i].slots, s) && Available(hs[i].peers[s])
    ensures hs[i].users <= hs[i].peers.Keys
    ensures forall u :: u in hs[i].users && Available(hs[i].peers[u]) ==> (u, hs[i].peers[u].user) in PresenceView(hs[i].peers[s].log)
    ensures forall e :: e in PresenceView(hs[i].peers[s].log) ==> e.0 in hs[i].users && hs[i].peers[e.0].user == e.1
  {
    RunKeepsInvariant(hs, env, i);
  }

  // ---------- steps that leave the catalogue and the slots alone ----------

  predicate Plain(l: Label) {
    !(l.LAttach? || l.LDetach? || l.LExpire? || l.LSyncFunctions? || l.LSetState?)
  }

  /** The places that only attachments, departures, expiries and commits touch. */
  ghost predicate SamePlaces(h: Home, h': Home) {
    && h'.catalog == h.catalog && h'.policy == h.policy && h'.slots == h.slots
    && h'.connections == h.connections && h'.users == h.users
  }

  lemma SliceSteps(h: Home, s: Session, slice: Slice)
    requires s in h.peers
    ensures SamePlaces(h, RefuseSlice(h, s, slice).0)
  {
  }

  lemma SyncStatePlaces(h: Home, s: Session, state: map<string, Value>, ids: map<string, int>, enc: Frame -> bool)
    requires s in h.peers
    ensures SamePlaces(h, SyncState(h, s, state, ids, enc).0)
  {
  }

  lemma SyncEventsPlaces(h: Home, s: Session, events: map<string, int>, ids: map<string, int>, enc: Frame -> bool)
    requires s in h.peers
    ensures SamePlaces(h, SyncEvents(h, s, events, ids, enc).0)
  {
    SliceSteps(h, s, EventSlice);
  }

  lemma SyncAclPlaces(h: Home, s: Session, acl: map<string, seq<string>>)
    requires s in h.peers
    ensures SamePlaces(h, SyncAcl(h, s, acl).0)
  {
    SliceSteps(h, s, AclSlice);
  }

  lemma SyncEventAclPlaces(h: Home, s: Session, acl: map<string, EventAccess>)
    requires s in h.peers
    ensures SamePlaces(h, SyncEventAcl(h, s, acl).0)
  {
    SliceSteps(h, s, EventAclSlice);
  }

  lemma UserPlaces(h: Home, s: Session, ids: seq<int>, limits: Limits)
    requires s in h.peers
    ensures SamePlaces(h, Resync(h, s).0)
    ensures SamePlaces(h, Subscribe(h, s, ids, limits).0)
    ensures SamePlaces(h, Unsubscribe(h, s, ids).0)
  {
  }

  lemma PlainSteps(h: Home, s: Session, l: Label, env: Env)
    requires h.users <= h.peers.Keys && Enabled(h, s, l) && Plain(l)
    ensures SamePlaces(h, Step(h, s, l, env))
  {
    match l
    case LSyncState(state, ids) => SyncStatePlaces(h, s, state, ids, env.enc);
    case LSyncAcl(acl) => SyncAclPlaces(h, s, acl);
    case LSyncEvents(events, ids) => SyncEventsPlaces(h, s, events, ids, env.enc);
    case LSyncEventAcl(acl) => SyncEventAclPlaces(h, s, acl);
    case LResync => UserPlaces(h, s, [], env.limits);
    case LSubscribe(ids) => UserPlaces(h, s, ids, env.limits);
    case LUnsubscribe(ids) => UserPlaces(h, s, ids, env.limits);
    case _ =>
  }

  // ---------- steps that concern one connection ----------

  predicate IsSlice(l: Label) {
    l.LSyncState? || l.LSyncAcl? || l.LSyncEvents? || l.LSyncEventAcl?
  }

  /** Nobody but `s` changed, and `s` is still who it was. */
  ghost predicate OnlyPeer(h: Home, s: Session, h': Home) {
    && s in h.peers && s in h'.peers && h'.peers == h.peers[s := h'.peers[s]]
    && h'.peers[s].role == h.peers[s].role && h'.peers[s].user == h.peers[s].user && h'.peers[s].name == h.peers[s].name
    && h'.peers[s].generation == h.peers[s].generation && h'.peers[s].bootstrapped == h.peers[s].bootstrapped
  }

  ghost predicate OnlyDeclares(h: Home, s: Session, h': Home) {
    h' == h || (OnlyPeer(h, s, h') && h'.peers[s].subscriptions == h.peers[s].subscriptions)
  }

  lemma RefusedSliceOne(h: Home, s: Session, slice: Slice)
    requires s in h.peers
    ensures OnlyDeclares(h, s, RefuseSlice(h, s, slice).0)
  {
  }

  lemma SyncStateOne(h: Home, s: Session, state: map<string, Value>, ids: map<string, int>, enc: Frame -> bool)
    requires s in h.peers
    ensures OnlyDeclares(h, s, SyncState(h, s, state, ids, enc).0)
  {
  }

  lemma SyncAclOne(h: Home, s: Session, acl: map<string, seq<string>>)
    requires s in h.peers
    ensures OnlyDeclares(h, s, SyncAcl(h, s, acl).0)
  {
    RefusedSliceOne(h, s, AclSlice);
  }

  lemma SyncEventsOne(h: Home, s: Session, events: map<string, int>, ids: map<string, int>, enc: Frame -> bool)
    requires s in h.peers
    ensures OnlyDeclares(h, s, SyncEvents(h, s, events, ids, enc).0)
  {
    RefusedSliceOne(h, s, EventSlice);
  }

  lemma SyncEventAclOne(h: Home, s: Session, acl: map<string, EventAccess>)
    requires s in h.peers
    ensures OnlyDeclares(h, s, SyncEventAcl(h, s, acl).0)
  {
    RefusedSliceOne(h, s, EventAclSlice);
  }

  /** A slice before the last one changes nothing or its sender only, and not what the sender follows. */
  lemma SliceTouchesOne(h: Home, s: Session, l: Label, env: Env)
    requires h.users <= h.peers.Keys && Enabled(h, s, l) && IsSlice(l)
    ensures OnlyDeclares(h, s, Step(h, s, l, env))
  {
    match l
    case LSyncState(state, ids) => SyncStateOne(h, s, state, ids, env.enc);
    case LSyncAcl(acl) => SyncAclOne(h, s, acl);
    case LSyncEvents(events, ids) => SyncEventsOne(h, s, events, ids, env.enc);
    case LSyncEventAcl(acl) => SyncEventAclOne(h, s, acl);
  }

  lemma ReplyTouchesOne(h: Home, s: Session, l: Label, env: Env)
    requires h.users <= h.peers.Keys && Enabled(h, s, l) && Plain(l) && !IsSlice(l) && !l.LResync?
    ensures Step(h, s, l, env) == h || OnlyPeer(h, s, Step(h, s, l, env))
  {
  }

  // ---------- refusals ----------

  /** A refused activation may burn function IDs and drop the stage, and changes nothing that is shared. */
  lemma RefusedActivationChangesNothing(h: Home, s: Session, functions: set<string>, ids: map<string, int>, env: Env)
    requires s in h.peers && h.users <= h.peers.Keys
    requires SyncFunctions(h, s, functions, ids, env.limits, env.enc).1 != Ok
    ensures var h' := SyncFunctions(h, s, functions, ids, env.limits, env.enc).0;
            && h'.catalog == h.catalog && h'.policy == h.policy && h'.slots == h.slots
            && h'.nextPath == h.nextPath && h'.nextTopic == h.nextTopic
            && h'.connections == h.connections && h'.users == h.users
            && (forall t :: t in h.peers && t != s ==> t in h'.peers && h'.peers[t] == h.peers[t])
  {
  }

  /** A refused mutation changes nothing at all, unless the reply overflowed the sender's own queue. */
  lemma RefusedMutationChangesNothing(h: Home, s: Session, epoch: int, ms: seq<Mutation>, env: Env)
    requires s in h.peers && h.users <= h.peers.Keys
    requires SetState(h, s, epoch, ms, env.enc).1 != Ok
    ensures var h' := SetState(h, s, epoch, ms, env.enc).0;
            && h'.catalog == h.catalog && h'.policy == h.policy && h'.slots == h.slots
            && (forall t :: t in h.peers && t != s ==> t in h'.peers && h'.peers[t] == h.peers[t])
            && (SetState(h, s, epoch, ms, env.enc).1 != Refused(SLOW_CONSUMER, true) ==> h' == h)
  {
  }

  // ---------- revisions ----------

  ghost predicate Later(h: Home, h': Home) {
    && h.catalog.revision <= h'.catalog.revision
    && h.policy <= h'.policy
    && (h.catalog.revision == h'.catalog.revision ==> h.catalog.state == h'.catalog.state)
    && (h.policy == h'.policy ==> PolicyOf(h.catalog.configs) == PolicyOf(h'.catalog.configs))
  }

  lemma UnbumpedPolicy(configs: map<string, Config>, slot: string, next: Config)
    requires !PolicyChanges(configs, slot, next)
    ensures PolicyOf(configs[slot := next]) == PolicyOf(configs)
  {
  }

  lemma CommittedLater(h: Home, s: Session, functions: set<string>, ids: map<string, int>, env: Env)
    requires Inv(h, env) && EnvOK(env) && s in h.peers
    requires Reserves(h.catalog.functions, h.nextFunction, functions, ids)
    ensures Later(h, SyncFunctions(h, s, functions, ids, env.limits, env.enc).0)
  {
    if SyncFunctions(h, s, functions, ids, env.limits, env.enc).1 == Ok {
      var p := h.peers[s];
      var d := DeclarationOf(p.stage.value, functions, ids);
      StageIsCommittable(h, s, functions, ids, env);
      UnbumpedActivationKeepsState(h.catalog, p.name, d);
      if !PolicyChanges(h.catalog.configs, p.name, d.config) {
        UnbumpedPolicy(h.catalog.configs, p.name, d.config);
      }
    } else {
      RefusedActivationChangesNothing(h, s, functions, ids, env);
    }
  }

  lemma SteppedLater(h: Home, s: Session, l: Label, env: Env)
    requires Inv(h, env) && EnvOK(env) && Enabled(h, s, l)
    ensures Later(h, Step(h, s, l, env))
  {
    if Plain(l) {
      PlainSteps(h, s, l, env);
    } else {
      match l
      case LSyncFunctions(functions, ids) => CommittedLater(h, s, functions, ids, env);
      case LSetState(epoch, ms) => MutatedLater(h, s, epoch, ms, env);
      case LExpire(name, generation) => ExpiredLater(h, name, generation);
      case LAttach(p, leaseValid) => AttachedLater(h, s, p, leaseValid, env);
      case LDetach => DetachedLater(h, s);
    }
  }

  lemma AttachedLater(h: Home, s: Session, p: Peer, leaseValid: bool, env: Env)
    requires h.users <= h.peers.Keys
    ensures Later(h, Attach(h, s, p, leaseValid, env.limits, env.enc).0)
  {
    var h' := Attach(h, s, p, leaseValid, env.limits, env.enc).0;
    assert h'.catalog == h.catalog && h'.policy == h.policy;
  }

  lemma DetachedLater(h: Home, s: Session)
    requires s in h.peers
    ensures Later(h, Detach(h, s))
  {
    var h' := Detach(h, s);
    assert h'.catalog == h.catalog && h'.policy == h.policy;
  }

  lemma ExpiredLater(h: Home, name: string, generation: int)
    requires h.users <= h.peers.Keys
    ensures Later(h, Expire(h, name, generation))
  {
    var h' := Expire(h, name, generation);
    assert (h'.catalog == h.catalog && h'.policy == h.policy) || (h'.catalog.revision > h.catalog.revision && h'.policy > h.policy);
  }

  lemma LaterTransitive(a: Home, b: Home, c: Home)
    requires Later(a, b) && Later(b, c)
    ensures Later(a, c)
  {
  }

  lemma MutatedLater(h: Home, s: Session, epoch: int, ms: seq<Mutation>, env: Env)
    requires h.users <= h.peers.Keys && s in h.peers
    ensures Later(h, SetState(h, s, epoch, ms, env.enc).0)
  {
    var h' := SetState(h, s, epoch, ms, env.enc).0;
    if SetState(h, s, epoch, ms, env.enc).1 == Ok {
      assert PolicyOf(h'.catalog.configs) == PolicyOf(h.catalog.configs);
    } else {
      RefusedMutationChangesNothing(h, s, epoch, ms, env);
    }
  }

  lemma StepsLater(h: Home, h': Home, env: Env)
    requires Inv(h, env) && EnvOK(env) && Steps(h, h', env)
    ensures Later(h, h')
  {
    var s, l :| Enabled(h, s, l) && h' == Step(h, s, l, env);
    SteppedLater(h, s, l, env);
  }

  lemma NextIsLater(hs: seq<Home>, env: Env, j: int)
    requires EnvOK(env) && RunFromStart(hs, env) && 0 < j < |hs|
    ensures Later(hs[j - 1], hs[j])
  {
    RunKeepsInvariant(hs, env, j - 1);
    assert StepsTo(hs, env, j);
    StepsLater(hs[j - 1], hs[j], env);
  }

  lemma {:induction false} RunIsLater(hs: seq<Home>, env: Env, i: int, j: int)
    requires EnvOK(env) && RunFromStart(hs, env) && 0 <= i <= j < |hs|
    ensures Later(hs[i], hs[j])
  {
    if i < j {
      RunIsLater(hs, env, i, j - 1);
      NextIsLater(hs, env, j);
      LaterTransitive(hs[i], hs[j - 1], hs[j]);
    }
  }

  /**
   Revision and policy never decrease, and any two homes of a run with the same pair show every user
   the same state.
   */
  lemma RevisionsDetermineViews(hs: seq<Home>, env: Env, i: int, j: int, user: string)
    requires EnvOK(env) && RunFromStart(hs, env) && 0 <= i <= j < |hs|
    ensures hs[i].catalog.revision <= hs[j].catalog.revision && hs[i].policy <= hs[j].policy
    ensures hs[i].catalog.revision == hs[j].catalog.revision && hs[i].policy == hs[j].policy
            ==> VisibleState(hs[i].catalog, user) == VisibleState(hs[j].catalog, user)
  {
    RunIsLater(hs, env, i, j);
    if hs[i].catalog.revision == hs[j].catalog.revision && hs[i].policy == hs[j].policy {
      PolicyDecidesSight(hs[i].catalog.configs, hs[j].catalog.configs, user);
    }
  }

  /** In every reachable home exactly the slots without a connection have a grace timer, and it is for their current generation. */
  lemma GraceTimersMatch(hs: seq<Home>, env: Env, i: int, name: string)
    requires EnvOK(env) && RunFromStart(hs, env) && 0 <= i < |hs| && name in hs[i].slots
    ensures var slot := hs[i].slots[name];
            slot.grace == if slot.connection.Some? then None else Some(slot.generation)
    ensures hs[i].slots[name].ready ==> hs[i].slots[name].connection.Some? && name in hs[i].catalog.configs
  {
    RunKeepsInvariant(hs, env, i);
    assert SlotOK(hs[i].slots[name], name in hs[i].catalog.configs);
  }

  /**
   What a mutation checks is what it commits: the preview has the committed state, revision, owners
   and dictionaries, and every user's complete frames are the same in both.
   */
  lemma MutationCommitsItsPreview(h: Home, s: Session, epoch: int, ms: seq<Mutation>, env: Env, user: string)
    requires s in h.peers && h.users <= h.peers.Keys
    requires SetState(h, s, epoch, ms, env.enc).1 == Ok
    ensures var c := SetState(h, s, epoch, ms, env.enc).0.catalog;
            && Preview(h.catalog, ms) == c.(configs := h.catalog.configs)
            && c.configs.Keys == h.catalog.configs.Keys
            && RecoveryFrames(Preview(h.catalog, ms), user) == RecoveryFrames(c, user)
  {
    SightIgnoresState(h.catalog, h.peers[s].name, ms, user);
    assert SetState(h, s, epoch, ms, env.enc).0.catalog == Mutate(h.catalog, h.peers[s].name, ms);
  }

  // ---------- what the invariant says of every reachable home ----------

  /**
   The owner maps are exactly the disjoint union of what the active slots declare, the shared state
   of a slot's paths is the slot's own state, and the home's limits hold.
   */
  lemma IndexesAgree(hs: seq<Home>, env: Env, i: int, kind: Kind, slot: string, name: string)
    requires EnvOK(env) && RunFromStart(hs, env) && 0 <= i < |hs|
    ensures var c := hs[i].catalog;
            && (name in Owned(kind, c.configs, slot) <==> name in OwnersOf(kind, c) && OwnersOf(kind, c)[name] == slot)
            && (slot in c.configs ==> c.configs[slot].state == SharedState(c, slot))
            && (name in c.state ==> name in c.stateOwners)
    ensures |OwnersOf(kind, hs[i].catalog)| <= if kind == Path then env.limits.statePaths else env.limits.dictionary
  {
    RunKeepsInvariant(hs, env, i);
    CatalogAgrees(hs[i].catalog, kind, slot, name);
  }

  /** Every complete frame of every user, connected, listed or never seen, encodes. */
  lemma RecoveryStaysEncodable(hs: seq<Home>, env: Env, i: int, user: string, k: int)
    requires EnvOK(env) && RunFromStart(hs, env) && 0 <= i < |hs| && 0 <= k < |RecoveryFrames(hs[i].catalog, user)|
    ensures env.enc(RecoveryFrames(hs[i].catalog, user)[k])
  {
    RunKeepsInvariant(hs, env, i);
    assert RecoverableFor(hs[i].catalog, user, env.enc);
  }

  /** Whoever is attached may follow every topic it is subscribed to. */
  lemma SubscriptionsStayAuthorised(hs: seq<Home>, env: Env, i: int, u: Session, id: int)
    requires EnvOK(env) && RunFromStart(hs, env) && 0 <= i < |hs|
    requires u in hs[i].users && u in hs[i].peers && id in hs[i].peers[u].subscriptions
    ensures MayFollow(hs[i].catalog, hs[i].peers[u].user, id) && |hs[i].peers[u].subscriptions| <= env.limits.subscriptions
  {
    RunKeepsInvariant(hs, env, i);
    assert Follows(hs[i].catalog, env.limits, hs[i].peers[u]);
  }

  /** Bound names lead back to themselves below the counters, and two stages never share an ID that is not bound. */
  lemma DictionariesAreSound(hs: seq<Home>, env: Env, i: int, s: Session, t: Session)
    requires EnvOK(env) && RunFromStart(hs, env) && 0 <= i < |hs|
    ensures NamesInv(hs[i].catalog.paths, hs[i].nextPath) && NamesInv(hs[i].catalog.topics, hs[i].nextTopic)
    ensures NamesInv(hs[i].catalog.functions, hs[i].nextFunction)
    ensures s in hs[i].peers && t in hs[i].peers && s != t ==>
      && StagesDisjoint(hs[i].catalog.paths, StagedIDs(Path, hs[i].peers[s]), StagedIDs(Path, hs[i].peers[t]))
      && StagesDisjoint(hs[i].catalog.topics, StagedIDs(Topic, hs[i].peers[s]), StagedIDs(Topic, hs[i].peers[t]))
  {
    RunKeepsInvariant(hs, env, i);
  }
}
