/** Steps that change the catalogue: activation, removal and mutation. */
module CommitSteps {
  import opened Basics
  import opened Catalogs
  import opened CatalogProofs
  import opened Views
  import opened HomeModel
  import opened Replicas
  import opened Invariants
  import opened QuietSteps
  import opened MemberSteps

  // ---------- refreshing the users ----------

  /** Users follow no more topics than before the catalogue changed, all of them still named. */
  ghost predicate Prunable(c: Catalog, p: Peer, limits: Limits) {
    && |p.subscriptions| <= limits.subscriptions
    && forall id :: id in p.subscriptions ==> NameOf(c.topics.byID, id) != ""
  }

  lemma RefreshedUser(c: Catalog, p: Peer, limits: Limits)
    requires PeerOK(p) && Prunable(c, p, limits)
    ensures var p' := Refreshed(c, Pruned(c, p));
            && Kept(p, p') && PeerOK(p') && p'.stage == p.stage && Follows(c, limits, p')
            && (Available(p') ==> p'.lastStateRevision == c.revision)
  {
    var q := Pruned(c, p);
    SubsetSize(q.subscriptions, p.subscriptions);
    EnqueueAllSends(q.(lastStateRevision := c.revision), RecoveryFrames(c, p.user));
  }

  /** Right after pruning, what a user follows is exactly what it followed, is owned and is allowed. */
  lemma PrunedExactly(c: Catalog, p: Peer, id: int)
    requires PeerOK(p)
    ensures id in Refreshed(c, Pruned(c, p)).subscriptions
            <==> id in p.subscriptions && NameOf(c.topics.byID, id) in c.topicOwners
                 && CanSubscribe(c.configs, p.user, NameOf(c.topics.byID, id))
  {
    EnqueueAllSends(Pruned(c, p).(lastStateRevision := c.revision), RecoveryFrames(c, p.user));
  }

  lemma RefreshEvolves(h: Home, limits: Limits)
    requires h.users <= h.peers.Keys && PeersOK(h.peers)
    requires forall s :: s in h.users ==> Prunable(h.catalog, h.peers[s], limits)
    ensures var h' := RefreshUsers(h);
            && OnlyPeers(h, h') && Evolved(h.peers, h'.peers) && PeersOK(h'.peers) && Subscriptions(h', limits)
            && (forall s :: s in h.peers ==> h'.peers[s].stage == h.peers[s].stage)
  {
    forall s | s in h.users
      ensures var p' := Refreshed(h.catalog, Pruned(h.catalog, h.peers[s]));
              && Kept(h.peers[s], p') && PeerOK(p') && p'.stage == h.peers[s].stage && Follows(h.catalog, limits, p')
    {
      RefreshedUser(h.catalog, h.peers[s], limits);
    }
  }

  lemma RefreshPresence(h: Home, limits: Limits)
    requires Membership(h) && SlotsOK(h) && PeersOK(h.peers) && Presence(h)
    requires forall s :: s in h.users ==> Prunable(h.catalog, h.peers[s], limits)
    ensures Presence(RefreshUsers(h))
  {
    var h' := RefreshUsers(h);
    RefreshEvolves(h, limits);
    forall s | s in h.peers ensures Tame(h, s, h.peers[s], h'.peers[s]) {
      if IsCurrent(h.slots, s) {
        UsersDoNotCoordinate(h, s);
      }
    }
    PresenceKept(h, h');
  }

  lemma RefreshInStep(h: Home, limits: Limits)
    requires h.users <= h.peers.Keys && PeersOK(h.peers) && h.catalog.revision >= 1
    requires forall s :: s in h.users ==> Prunable(h.catalog, h.peers[s], limits)
    requires forall s :: s in h.users && Available(h.peers[s]) ==> Replay(h.peers[s].log).inStep
    ensures InStep(RefreshUsers(h))
  {
    var h' := RefreshUsers(h);
    forall s | s in h'.users && Available(h'.peers[s])
      ensures h'.peers[s].lastStateRevision >= 1 && Replicated(h'.catalog, h'.peers[s])
    {
      RefreshedUser(h.catalog, h.peers[s], limits);
      RefreshedIsReplicated(h.catalog, h.peers[s]);
    }
  }

  lemma RefreshStages(h: Home, limits: Limits)
    requires h.users <= h.peers.Keys && PeersOK(h.peers)
    requires forall s :: s in h.users ==> Prunable(h.catalog, h.peers[s], limits)
    requires StagesOK(Path, h.peers, h.catalog.paths, h.nextPath) && StagesOK(Topic, h.peers, h.catalog.topics, h.nextTopic)
    requires StagesShaped(h.peers) && StagesAgree(h)
    ensures var h' := RefreshUsers(h);
            && StagesOK(Path, h'.peers, h.catalog.paths, h.nextPath)
            && StagesOK(Topic, h'.peers, h.catalog.topics, h.nextTopic)
            && StagesShaped(h'.peers) && StagesAgree(h')
  {
    var h' := RefreshUsers(h);
    RefreshEvolves(h, limits);
    assert forall kind, s :: s in h.peers ==> StagedIDs(kind, h'.peers[s]) == StagedIDs(kind, h.peers[s]);
    StagesKept(Path, h.peers, h'.peers, h.catalog.paths, h.nextPath, h.nextPath);
    StagesKept(Topic, h.peers, h'.peers, h.catalog.topics, h.nextTopic, h.nextTopic);
    AgreementKept(h, h');
  }

  /** What must hold right after the catalogue changed, before the users are refreshed. */
  ghost predicate Changed(h: Home, env: Env) {
    && Membership(h) && CatalogInv(h.catalog) && NamesOK(h) && SlotsOK(h) && PeersOK(h.peers)
    && StagesOK(Path, h.peers, h.catalog.paths, h.nextPath)
    && StagesOK(Topic, h.peers, h.catalog.topics, h.nextTopic)
    && StagesShaped(h.peers) && StagesAgree(h)
    && Presence(h) && Counted(h, env.limits) && Encodes(h, env.enc) && h.policy >= 1
    && forall s :: s in h.users ==> Prunable(h.catalog, h.peers[s], env.limits)
  }

  lemma RefreshKeeps(h: Home, env: Env)
    requires Changed(h, env)
    ensures Inv(RefreshUsers(h), env)
    ensures (forall s :: s in h.users && Available(h.peers[s]) ==> Replay(h.peers[s].log).inStep) ==> InStep(RefreshUsers(h))
  {
    var h' := RefreshUsers(h);
    RefreshEvolves(h, env.limits);
    RefreshStages(h, env.limits);
    RefreshPresence(h, env.limits);
    SlotsKept(h, h');
    MembershipKept(h, h');
    SessionsKept(h, h');
    if forall s :: s in h.users && Available(h.peers[s]) ==> Replay(h.peers[s].log).inStep {
      RefreshInStep(h, env.limits);
    }
  }

  // ---------- removal ----------

  lemma ExpiredSlots(h: Home, name: string, h': Home)
    requires SlotsOK(h) && name in h.slots && h.slots[name].connection.None?
    requires h'.slots == h.slots - {name} && h'.peers == h.peers && h'.connections == h.connections
    requires h'.catalog.configs == h.catalog.configs - {name}
    ensures SlotsOK(h')
    ensures forall s :: IsCurrent(h'.slots, s) <==> IsCurrent(h.slots, s)
  {
    forall s | IsCurrent(h.slots, s) ensures IsCurrent(h'.slots, s) {
      var other :| other in h.slots && h.slots[other].connection == Some(s);
      assert other in h'.slots;
    }
  }

  lemma ExpiredAgreement(h: Home, name: string, h': Home)
    requires StagesAgree(h)
    requires h'.slots == h.slots - {name} && h'.peers == h.peers
    requires h'.catalog == h.catalog || (name in h.catalog.configs && h'.catalog == Remove(h.catalog, name))
    ensures StagesAgree(h')
  {
    forall s | s in h'.peers && Current(h', s) ensures StageAgrees(h'.catalog, h'.peers[s].name, h'.peers[s]) {
      assert Current(h, s);
    }
  }

  lemma ExpiredCount(h: Home, name: string)
    ensures |h.slots - {name}| <= |h.slots|
  {
    FewerKeys(h.slots, {name});
  }

  lemma ExpiredPresence(h: Home, h': Home)
    requires h.users <= h.peers.Keys && Presence(h)
    requires h'.users == h.users && h'.peers == h.peers
    requires forall s :: IsCurrent(h'.slots, s) ==> IsCurrent(h.slots, s)
    ensures Presence(h')
  {
  }

  lemma RemovedEncodes(h: Home, name: string, h': Home, env: Env)
    requires EnvOK(env) && h.users <= h.peers.Keys && Encodes(h, env.enc) && name in h.catalog.configs
    requires h'.users == h.users && h'.peers == h.peers && h'.catalog == Remove(h.catalog, name)
    ensures Encodes(h', env.enc)
  {
    RemoveKeepsRecoverable(h.catalog, name, env.enc);
    assert SessionsOf(h') == SessionsOf(h);
  }

  lemma ExpireKeeps(h: Home, name: string, generation: int, env: Env)
    requires Inv(h, env) && EnvOK(env)
    ensures Inv(Expire(h, name, generation), env)
    ensures InStep(h) ==> InStep(Expire(h, name, generation))
  {
    if name in h.slots && h.slots[name].generation == generation && h.slots[name].connection.None? {
      ExpiredCount(h, name);
      if name in h.catalog.configs {
        RemovedKeeps(h, name, env);
      } else {
        var h' := h.(slots := h.slots - {name});
        assert h.catalog.configs - {name} == h.catalog.configs;
        ExpiredSlots(h, name, h');
        ExpiredAgreement(h, name, h');
        ExpiredPresence(h, h');
        assert SessionsOf(h') == SessionsOf(h);
      }
    }
  }

  lemma RemovedCatalog(h: Home, name: string, h': Home, env: Env)
    requires CatalogInv(h.catalog) && Counted(h, env.limits) && NamesOK(h) && name in h.catalog.configs
    requires h'.catalog == Remove(h.catalog, name) && h'.users == h.users && |h'.slots| <= |h.slots|
    requires h'.nextPath == h.nextPath && h'.nextTopic == h.nextTopic && h'.nextFunction == h.nextFunction
    ensures CatalogInv(h'.catalog) && Counted(h', env.limits) && NamesOK(h')
  {
    RemoveKeeps(h.catalog, name);
    RemoveKeepsSizes(h.catalog, name, env.limits);
  }

  lemma RemovedPlaces(h: Home, name: string, h': Home)
    requires SlotsOK(h) && StagesAgree(h) && h.users <= h.peers.Keys && Presence(h)
    requires name in h.slots && h.slots[name].connection.None? && name in h.catalog.configs
    requires h' == h.(slots := h.slots - {name}, catalog := Remove(h.catalog, name), policy := h.policy + 1)
    ensures SlotsOK(h') && StagesAgree(h') && Presence(h')
  {
    ExpiredSlots(h, name, h');
    ExpiredAgreement(h, name, h');
    ExpiredPresence(h, h');
  }

  lemma RemovedPrunes(h: Home, name: string, h': Home, env: Env)
    requires h.users <= h.peers.Keys && h'.users == h.users && h'.peers == h.peers && h'.catalog == Remove(h.catalog, name)
    requires forall s :: s in h.users ==> Follows(h.catalog, env.limits, h.peers[s])
    ensures forall s :: s in h'.users ==> Prunable(h'.catalog, h'.peers[s], env.limits)
  {
  }

  lemma RemovedChanged(h: Home, name: string, h': Home, env: Env)
    requires Inv(h, env) && EnvOK(env)
    requires name in h.slots && h.slots[name].connection.None? && name in h.catalog.configs
    requires h' == h.(slots := h.slots - {name}, catalog := Remove(h.catalog, name), policy := h.policy + 1)
    ensures Changed(h', env)
  {
    ExpiredCount(h, name);
    RemovedPlaces(h, name, h');
    RemovedCatalog(h, name, h', env);
    RemovedEncodes(h, name, h', env);
    RemovedPrunes(h, name, h', env);
  }

  lemma RemovedKeeps(h: Home, name: string, env: Env)
    requires Inv(h, env) && EnvOK(env)
    requires name in h.slots && h.slots[name].connection.None? && name in h.catalog.configs
    ensures var h' := h.(slots := h.slots - {name}, catalog := Remove(h.catalog, name), policy := h.policy + 1);
            Inv(RefreshUsers(h'), env) && (InStep(h) ==> InStep(RefreshUsers(h')))
  {
    var h' := h.(slots := h.slots - {name}, catalog := Remove(h.catalog, name), policy := h.policy + 1);
    RemovedChanged(h, name, h', env);
    RefreshKeeps(h', env);
  }

  // ---------- mutation ----------

  /** Every connection when a mutation commits: the sender has its reply, the users their patches. */
  lemma PatchedUser(c: Catalog, p: Peer, ms: seq<Mutation>, enc: Frame -> bool)
    requires PeerOK(p)
    ensures var p' := Patched(c, p, ms, enc);
            Kept(p, p') && PeerOK(p') && p'.stage == p.stage && p'.subscriptions == p.subscriptions
  {
  }

  lemma MutatedPeers(h: Home, s: Session, epoch: int, ms: seq<Mutation>, env: Env)
    requires s in h.peers && h.users <= h.peers.Keys && PeersOK(h.peers)
    requires SetState(h, s, epoch, ms, env.enc).1 == Ok && s !in h.users
    ensures var h' := SetState(h, s, epoch, ms, env.enc).0;
            && Evolved(h.peers, h'.peers) && PeersOK(h'.peers)
            && (forall t :: t in h.peers ==>
              h'.peers[t].stage == h.peers[t].stage && h'.peers[t].subscriptions == h.peers[t].subscriptions)
            && (forall t :: t in h.peers && t !in h.users ==> PresenceView(h'.peers[t].log) == PresenceView(h.peers[t].log))
            && (forall t :: t in h.users ==> h'.peers[t] == Patched(h.catalog, h.peers[t], ms, env.enc))
  {
    var h' := SetState(h, s, epoch, ms, env.enc).0;
    var reply := StateSetOK(h.catalog.revision + 1);
    ReplayOneMore(h.peers[s].log, reply);
    forall t | t in h.peers
      ensures Kept(h.peers[t], h'.peers[t]) && PeerOK(h'.peers[t])
              && h'.peers[t].stage == h.peers[t].stage && h'.peers[t].subscriptions == h.peers[t].subscriptions
    {
      PatchedUser(h.catalog, h.peers[t], ms, env.enc);
      EnqueueEvolves(h.peers[t], reply);
    }
  }

  lemma MutatedSubscriptions(h: Home, h': Home, name: string, ms: seq<Mutation>, limits: Limits)
    requires h.users <= h.peers.Keys && Subscriptions(h, limits) && name in h.catalog.configs
    requires h'.users == h.users && Evolved(h.peers, h'.peers) && h'.catalog == Mutate(h.catalog, name, ms)
    requires forall t :: t in h.peers ==> h'.peers[t].subscriptions == h.peers[t].subscriptions
    ensures Subscriptions(h', limits)
  {
    assert PolicyOf(h'.catalog.configs) == PolicyOf(h.catalog.configs);
    forall t | t in h'.users ensures Follows(h'.catalog, limits, h'.peers[t]) {
      assert Kept(h.peers[t], h'.peers[t]);
      PolicyDecidesSight(h'.catalog.configs, h.catalog.configs, h.peers[t].user);
    }
  }

  lemma MutatedEncodes(c: Catalog, name: string, ms: seq<Mutation>, connected: set<string>, enc: Frame -> bool)
    requires Codec(enc) && name in c.configs
    requires RequiredFramesEncode(Preview(c, ms), connected, enc)
    ensures Recoverable(Mutate(c, name, ms), enc)
  {
    CheckedSuffices(Preview(c, ms), connected, enc);
    forall user ensures RecoverableFor(Mutate(c, name, ms), user, enc) {
      SightIgnoresState(c, name, ms, user);
      assert RecoverableFor(Preview(c, ms), user, enc);
    }
    SightIgnoresState(c, name, ms, "");
  }

  lemma MutatedSlots(h: Home, h': Home)
    requires SlotsOK(h) && Evolved(h.peers, h'.peers)
    requires h'.slots == h.slots && h'.connections == h.connections && h'.catalog.configs.Keys == h.catalog.configs.Keys
    ensures SlotsOK(h')
  {
    forall name | name in h.slots
      ensures Linked(name, h.slots[name], h'.peers, h.connections)
      ensures SlotOK(h.slots[name], name in h'.catalog.configs)
    {
      assert Linked(name, h.slots[name], h.peers, h.connections);
      if h.slots[name].connection.Some? {
        var s: Session := h.slots[name].connection.value;
        assert s in h.peers;
        assert Kept(h.peers[s], h'.peers[s]);
      }
    }
  }

  lemma MutatedStages(h: Home, h': Home)
    requires StagesOK(Path, h.peers, h.catalog.paths, h.nextPath) && StagesOK(Topic, h.peers, h.catalog.topics, h.nextTopic)
    requires StagesShaped(h.peers) && StagesAgree(h)
    requires Evolved(h.peers, h'.peers) && h'.slots == h.slots
    requires h'.catalog.paths == h.catalog.paths && h'.catalog.topics == h.catalog.topics && h'.catalog.stateOwners == h.catalog.stateOwners
    requires h'.nextPath == h.nextPath && h'.nextTopic == h.nextTopic
    requires forall t :: t in h.peers ==> h'.peers[t].stage == h.peers[t].stage
    ensures StagesOK(Path, h'.peers, h'.catalog.paths, h'.nextPath) && StagesOK(Topic, h'.peers, h'.catalog.topics, h'.nextTopic)
    ensures StagesShaped(h'.peers) && StagesAgree(h')
  {
    assert forall kind, s :: s in h.peers ==> StagedIDs(kind, h'.peers[s]) == StagedIDs(kind, h.peers[s]);
    StagesKept(Path, h.peers, h'.peers, h.catalog.paths, h.nextPath, h.nextPath);
    StagesKept(Topic, h.peers, h'.peers, h.catalog.topics, h.nextTopic, h.nextTopic);
    forall s | s in h'.peers && Current(h', s) ensures StageAgrees(h'.catalog, h'.peers[s].name, h'.peers[s]) {
      assert Kept(h.peers[s], h'.peers[s]);
      assert Current(h, s);
    }
  }

  lemma MutatedPresence(h: Home, h': Home)
    requires Membership(h) && SlotsOK(h) && Presence(h)
    requires Evolved(h.peers, h'.peers) && h'.slots == h.slots && h'.users == h.users
    requires forall t :: t in h.peers && t !in h.users ==> PresenceView(h'.peers[t].log) == PresenceView(h.peers[t].log)
    ensures Presence(h')
  {
    forall t | t in h'.peers && IsCurrent(h'.slots, t) && Available(h'.peers[t])
      ensures Between(h'.users, h'.peers, PresenceView(h'.peers[t].log))
    {
      UsersDoNotCoordinate(h, t);
      assert Kept(h.peers[t], h'.peers[t]);
      BetweenKept(h.users, h.peers, h'.peers, PresenceView(h.peers[t].log));
    }
  }

  lemma MutatedInStep(h: Home, s: Session, epoch: int, ms: seq<Mutation>, env: Env)
    requires Inv(h, env) && s in h.peers && s !in h.users
    requires SetState(h, s, epoch, ms, env.enc).1 == Ok
    requires InStep(h) && AllCanonical(h.catalog.paths, ms)
    ensures InStep(SetState(h, s, epoch, ms, env.enc).0)
  {
    var h' := SetState(h, s, epoch, ms, env.enc).0;
    forall t | t in h'.users && Available(h'.peers[t])
      ensures h'.peers[t].lastStateRevision >= 1 && Replicated(h'.catalog, h'.peers[t])
    {
      assert h'.peers[t] == Patched(h.catalog, h.peers[t], ms, env.enc) && h'.catalog == Mutate(h.catalog, h.peers[s].name, ms);
      PatchedInStep(h.catalog, h.nextPath, h.peers[s].name, h.peers[t], ms, env.enc);
    }
  }

  lemma PatchedInStep(c: Catalog, next: int, name: string, p: Peer, ms: seq<Mutation>, enc: Frame -> bool)
    requires NamesInv(c.paths, next) && CatalogInv(c) && name in c.configs && AllCanonical(c.paths, ms)
    requires PeerOK(p) && (Available(p) ==> p.lastStateRevision >= 1 && Replicated(c, p))
    requires Available(Patched(c, p, ms, enc))
    ensures var p' := Patched(c, p, ms, enc); p'.lastStateRevision >= 1 && Replicated(Mutate(c, name, ms), p')
  {
    AcceptedPatch(c, next, name, p, ms, enc);
  }

  lemma MutatedCatalog(h: Home, name: string, ms: seq<Mutation>, env: Env)
    requires CatalogInv(h.catalog) && SizesInv(h.catalog, env.limits) && Codec(env.enc)
    requires h.users <= h.peers.Keys && name in h.catalog.configs && OwnsPaths(h.catalog, name, ms)
    requires RequiredFramesEncode(Preview(h.catalog, ms), ConnectedIDs(h), env.enc)
    ensures var c := Mutate(h.catalog, name, ms);
            CatalogInv(c) && SizesInv(c, env.limits) && Recoverable(c, env.enc) && c.configs.Keys == h.catalog.configs.Keys
  {
    MutateKeeps(h.catalog, name, ms);
    MutatedEncodes(h.catalog, name, ms, ConnectedIDs(h), env.enc);
  }

  /** What a mutation cannot touch, whatever it does to the connections' logs. */
  lemma MutatedPlaces(h: Home, h': Home, env: Env)
    requires Inv(h, env)
    requires Evolved(h.peers, h'.peers)
    requires h' == h.(catalog := h'.catalog, peers := h'.peers)
    requires h'.catalog.configs.Keys == h.catalog.configs.Keys
    requires h'.catalog.paths == h.catalog.paths && h'.catalog.topics == h.catalog.topics && h'.catalog.functions == h.catalog.functions
    requires h'.catalog.stateOwners == h.catalog.stateOwners
    requires forall t :: t in h.peers ==> h'.peers[t].stage == h.peers[t].stage
    requires forall t :: t in h.peers && t !in h.users ==> PresenceView(h'.peers[t].log) == PresenceView(h.peers[t].log)
    ensures Membership(h') && SessionsOf(h') == SessionsOf(h) && NamesOK(h') && SlotsOK(h') && Presence(h')
    ensures StagesOK(Path, h'.peers, h'.catalog.paths, h'.nextPath) && StagesOK(Topic, h'.peers, h'.catalog.topics, h'.nextTopic)
    ensures StagesShaped(h'.peers) && StagesAgree(h')
  {
    MutatedSlots(h, h');
    MutatedStages(h, h');
    MutatedPresence(h, h');
    MutatedMembership(h, h');
  }

  lemma MutatedRest(h: Home, s: Session, epoch: int, ms: seq<Mutation>, env: Env)
    requires Inv(h, env) && EnvOK(env) && s in h.peers && s !in h.users
    requires SetState(h, s, epoch, ms, env.enc).1 == Ok
    ensures Inv(SetState(h, s, epoch, ms, env.enc).0, env)
  {
    var h' := SetState(h, s, epoch, ms, env.enc).0;
    var name := h.peers[s].name;
    MutatedPeers(h, s, epoch, ms, env);
    MutatedCatalog(h, name, ms, env);
    MutatedSubscriptions(h, h', name, ms, env.limits);
    MutatedPlaces(h, h', env);
  }

  lemma MutatedMembership(h: Home, h': Home)
    requires Membership(h) && Evolved(h.peers, h'.peers)
    requires h'.users == h.users && h'.connections == h.connections
    ensures Membership(h') && SessionsOf(h') == SessionsOf(h)
  {
    assert forall t :: t in h.peers ==> Kept(h.peers[t], h'.peers[t]);
  }

  /** A refused mutation sends its sender at most one frame, or closes its queue. */
  lemma RefusedSetKeeps(h: Home, s: Session, epoch: int, ms: seq<Mutation>, env: Env)
    requires Inv(h, env) && EnvOK(env) && s in h.peers
    requires SetState(h, s, epoch, ms, env.enc).1 != Ok
    ensures Inv(SetState(h, s, epoch, ms, env.enc).0, env)
    ensures InStep(h) ==> InStep(SetState(h, s, epoch, ms, env.enc).0)
  {
    if MutationRefusal(h, s, epoch, ms, env.enc) == Ok {
      EnqueueQuiet(h.peers[s], h.peers[s], StateSetOK(h.catalog.revision + 1));
      QuietKeeps(h, s, Enqueue(h.peers[s], StateSetOK(h.catalog.revision + 1)), env);
    }
  }

  /** Replicas stay in step if an accepted mutation names its paths canonically; what a refused one names does not matter. */
  lemma SetStateKeeps(h: Home, s: Session, epoch: int, ms: seq<Mutation>, env: Env)
    requires Inv(h, env) && EnvOK(env) && s in h.peers
    ensures Inv(SetState(h, s, epoch, ms, env.enc).0, env)
    ensures InStep(h) && (SetState(h, s, epoch, ms, env.enc).1 == Ok ==> AllCanonical(h.catalog.paths, ms))
            ==> InStep(SetState(h, s, epoch, ms, env.enc).0)
  {
    if SetState(h, s, epoch, ms, env.enc).1 != Ok {
      RefusedSetKeeps(h, s, epoch, ms, env);
    } else {
      UsersDoNotCoordinate(h, s);
      MutatedRest(h, s, epoch, ms, env);
      if InStep(h) && AllCanonical(h.catalog.paths, ms) {
        MutatedInStep(h, s, epoch, ms, env);
      }
    }
  }
}
