/** The last declaration slice: everything staged becomes active at once. */
module ActivationSteps {
  import opened Basics
  import opened Catalogs
  import opened CatalogProofs
  import opened Views
  import opened HomeModel
  import opened Replicas
  import opened Invariants
  import opened QuietSteps
  import opened StageSteps
  import opened MemberSteps
  import opened CommitSteps

  /** A committable declaration: what the slices of one stage and the last reservation amount to. */
  ghost predicate Committable(h: Home, d: Declaration, nextFunction: int) {
    && WellDeclared(d)
    && StagedInv(h.catalog.paths, h.nextPath, d.pathIDs)
    && StagedInv(h.catalog.topics, h.nextTopic, d.topicIDs)
    && StagedInv(h.catalog.functions, nextFunction, d.functionIDs)
    && NamesInv(h.catalog.functions, nextFunction)
  }

  lemma StageIsCommittable(h: Home, s: Session, functions: set<string>, ids: map<string, int>, env: Env)
    requires Inv(h, env) && s in h.peers && h.peers[s].stage.Some?
    requires Reserves(h.catalog.functions, h.nextFunction, functions, ids)
    ensures Committable(h, DeclarationOf(h.peers[s].stage.value, functions, ids), NextAfter(h.catalog.functions, h.nextFunction, ids))
  {
    ReserveKeeps(h.catalog.functions, h.nextFunction, functions, ids, map[]);
    assert StagedIDs(Path, h.peers[s]) == h.peers[s].stage.value.pathIDs;
    assert StagedIDs(Topic, h.peers[s]) == h.peers[s].stage.value.topicIDs;
  }

  lemma ActivatedStages(kind: Kind, peers: map<Session, Peer>, s: Session, p': Peer, names: Names, next: int, ids: map<string, int>)
    requires NamesInv(names, next) && StagesOK(kind, peers, names, next)
    requires s in peers && ids == StagedIDs(kind, peers[s]) && p'.stage == None
    ensures NamesInv(Bind(names, ids), next)
    ensures StagesOK(kind, peers[s := p'], Bind(names, ids), next)
  {
    BindKeeps(names, next, ids);
    var peers' := peers[s := p'];
    forall t | t in peers' ensures StagedInv(Bind(names, ids), next, StagedIDs(kind, peers'[t])) {
      if t != s {
        assert StagesDisjoint(names, StagedIDs(kind, peers[t]), StagedIDs(kind, peers[s]));
        BindKeepsOtherStages(names, next, ids, StagedIDs(kind, peers[t]));
      }
    }
    forall t, u | t in peers' && u in peers' && t != u
      ensures StagesDisjoint(Bind(names, ids), StagedIDs(kind, peers'[t]), StagedIDs(kind, peers'[u]))
    {
      if t != s && u != s {
        assert StagesDisjoint(names, StagedIDs(kind, peers[t]), StagedIDs(kind, peers[u]));
      }
    }
  }

  /** The names another slot owns keep their owner and their ID through an activation. */
  lemma ActivatedAgreement(h: Home, s: Session, d: Declaration, h': Home)
    requires StagesAgree(h) && s in h.peers && Current(h, s)
    requires d.config.state.Keys == d.pathIDs.Keys && Free(h.catalog.stateOwners, d.config.state.Keys, h.peers[s].name)
    requires h'.catalog == Activate(h.catalog, h.peers[s].name, d)
    requires Evolved(h.peers, h'.peers) && h'.peers[s].stage == None
    requires forall t :: t in h.peers && t != s ==> h'.peers[t] == h.peers[t]
    requires h'.slots == h.slots[h.peers[s].name := h.slots[h.peers[s].name].(ready := true)]
    ensures StagesAgree(h')
  {
    var name := h.peers[s].name;
    ReownIs(h.catalog.stateOwners, Owned(Path, h.catalog.configs, name), d.config.state.Keys, name);
    forall t | t in h'.peers && Current(h', t) ensures StageAgrees(h'.catalog, h'.peers[t].name, h'.peers[t]) {
      if t != s {
        assert h.peers[t].name != name;
        assert Current(h, t);
        OtherOwnerAgrees(h.catalog, name, d, h.peers[t].name, h.peers[t]);
      }
    }
  }

  lemma OtherOwnerAgrees(c: Catalog, name: string, d: Declaration, other: string, p: Peer)
    requires other != name && StageAgrees(c, other, p)
    requires d.config.state.Keys == d.pathIDs.Keys && Free(c.stateOwners, d.config.state.Keys, name)
    ensures StageAgrees(Activate(c, name, d), other, p)
  {
    var a := Activate(c, name, d);
    ReownIs(c.stateOwners, Owned(Path, c.configs, name), d.config.state.Keys, name);
    forall path | path in StagedIDs(Path, p) && path in a.stateOwners && a.stateOwners[path] == other
      ensures StagedIDs(Path, p)[path] == IdOf(a.paths.byName, path)
    {
      assert path !in d.config.state.Keys;
      assert c.stateOwners[path] == other;
    }
  }

  lemma ActivatedSlots(h: Home, s: Session, d: Declaration, h': Home)
    requires SlotsOK(h) && s in h.peers && Current(h, s)
    requires Evolved(h.peers, h'.peers) && h'.connections == h.connections
    requires h'.catalog == Activate(h.catalog, h.peers[s].name, d)
    requires h'.slots == h.slots[h.peers[s].name := h.slots[h.peers[s].name].(ready := true)]
    ensures SlotsOK(h')
    ensures forall t :: IsCurrent(h'.slots, t) <==> IsCurrent(h.slots, t)
    ensures |h'.slots| == |h.slots|
  {
    var name := h.peers[s].name;
    SlotCount(h.slots, name, h'.slots[name]);
    forall other | other in h'.slots
      ensures Linked(other, h'.slots[other], h'.peers, h'.connections)
      ensures SlotOK(h'.slots[other], other in h'.catalog.configs)
    {
      assert Linked(other, h.slots[other], h.peers, h.connections);
      if h.slots[other].connection.Some? {
        var t: Session := h.slots[other].connection.value;
        assert t in h.peers;
        assert Kept(h.peers[t], h'.peers[t]);
      }
    }
    SameHoldersStay(h.slots, name);
  }

  /** Becoming ready changes the connection of no slot. */
  lemma SameHoldersStay(slots: map<string, Slot>, name: string)
    requires name in slots
    ensures forall t :: IsCurrent(slots[name := slots[name].(ready := true)], t) <==> IsCurrent(slots, t)
  {
    var slots' := slots[name := slots[name].(ready := true)];
    forall t | IsCurrent(slots, t) ensures IsCurrent(slots', t) {
      var other :| other in slots && slots[other].connection == Some(t);
      assert slots'[other].connection == Some(t);
    }
    forall t | IsCurrent(slots', t) ensures IsCurrent(slots, t) {
      var other :| other in slots' && slots'[other].connection == Some(t);
      assert slots[other].connection == Some(t);
    }
  }

  lemma ActivatedCatalog(h: Home, name: string, d: Declaration, nextFunction: int, env: Env)
    requires CatalogInv(h.catalog) && NamesOK(h) && Codec(env.enc) && h.users <= h.peers.Keys
    requires Committable(h, d, nextFunction)
    requires ActivationRefusal(h.catalog, name, d, ConnectedIDs(h), env.limits, env.enc) == Ok
    ensures var c := Activate(h.catalog, name, d);
            && CatalogInv(c) && SizesInv(c, env.limits) && Recoverable(c, env.enc)
            && NamesInv(c.paths, h.nextPath) && NamesInv(c.topics, h.nextTopic) && NamesInv(c.functions, nextFunction)
            && (forall id :: NameOf(h.catalog.topics.byID, id) != "" ==> NameOf(c.topics.byID, id) != "")
  {
    ActivateKeeps(h.catalog, name, d);
    ActivateKeepsSizes(h.catalog, name, d, ConnectedIDs(h), env.limits, env.enc, h.nextPath, h.nextTopic, h.nextFunction);
    CheckedSuffices(Activate(h.catalog, name, d), ConnectedIDs(h), env.enc);
    BindKeeps(h.catalog.paths, h.nextPath, d.pathIDs);
    BindKeeps(h.catalog.topics, h.nextTopic, d.topicIDs);
    BindKeeps(h.catalog.functions, nextFunction, d.functionIDs);
  }

  lemma ActivatedPresence(h: Home, s: Session, p': Peer, h': Home)
    requires h.users <= h.peers.Keys && Presence(h) && s in h.peers && Quiet(h.peers[s], p')
    requires h'.users == h.users && h'.peers == h.peers[s := p']
    requires forall t :: IsCurrent(h'.slots, t) <==> IsCurrent(h.slots, t)
    ensures Presence(h')
  {
    QuietFolds(h.peers[s], p');
    assert Evolved(h.peers, h'.peers);
    forall t | t in h'.peers && IsCurrent(h'.slots, t) && Available(h'.peers[t])
      ensures Between(h'.users, h'.peers, PresenceView(h'.peers[t].log))
    {
      BetweenKept(h.users, h.peers, h'.peers, PresenceView(h.peers[t].log));
    }
  }

  lemma ActivatedShapes(h: Home, s: Session, p': Peer, d: Declaration, h': Home)
    requires StagesOK(Path, h.peers, h.catalog.paths, h.nextPath) && StagesOK(Topic, h.peers, h.catalog.topics, h.nextTopic)
    requires NamesInv(h.catalog.paths, h.nextPath) && NamesInv(h.catalog.topics, h.nextTopic)
    requires StagesShaped(h.peers) && s in h.peers && h.peers[s].stage.Some? && p'.stage == None
    requires d.pathIDs == h.peers[s].stage.value.pathIDs && d.topicIDs == h.peers[s].stage.value.topicIDs
    requires h'.catalog == Activate(h.catalog, h.peers[s].name, d) && h'.peers == h.peers[s := p']
    requires h'.nextPath == h.nextPath && h'.nextTopic == h.nextTopic
    ensures StagesOK(Path, h'.peers, h'.catalog.paths, h'.nextPath)
    ensures StagesOK(Topic, h'.peers, h'.catalog.topics, h'.nextTopic)
    ensures StagesShaped(h'.peers)
  {
    ActivatedStages(Path, h.peers, s, p', h.catalog.paths, h.nextPath, d.pathIDs);
    ActivatedStages(Topic, h.peers, s, p', h.catalog.topics, h.nextTopic, d.topicIDs);
  }

  lemma ActivatedMembers(h: Home, s: Session, p': Peer, h': Home, limits: Limits)
    requires Membership(h) && PeersOK(h.peers) && Subscriptions(h, limits) && s in h.peers && s !in h.users && Quiet(h.peers[s], p')
    requires h'.users == h.users && h'.connections == h.connections && h'.peers == h.peers[s := p']
    requires forall id :: NameOf(h.catalog.topics.byID, id) != "" ==> NameOf(h'.catalog.topics.byID, id) != ""
    ensures Membership(h') && PeersOK(h'.peers) && SessionsOf(h') == SessionsOf(h) && Evolved(h.peers, h'.peers)
    ensures forall t :: t in h'.users ==> Prunable(h'.catalog, h'.peers[t], limits)
  {
  }

  /** The home right after the declaration of `s` was committed and answered. */
  ghost predicate IsCommitted(h: Home, s: Session, d: Declaration, p': Peer, h': Home)
    requires s in h.peers
  {
    && h.peers[s].stage.Some? && p'.stage == None
    && d.pathIDs == h.peers[s].stage.value.pathIDs && d.topicIDs == h.peers[s].stage.value.topicIDs
    && h.peers[s].name in h.slots
    && h' == h.(catalog := Activate(h.catalog, h.peers[s].name, d),
                policy := h'.policy,
                nextFunction := h'.nextFunction,
                peers := h.peers[s := p'],
                slots := h.slots[h.peers[s].name := h.slots[h.peers[s].name].(ready := true)])
  }

  lemma CommittedPlaces(h: Home, s: Session, d: Declaration, p': Peer, h': Home, env: Env)
    requires Membership(h) && SlotsOK(h) && PeersOK(h.peers) && StagesAgree(h) && Subscriptions(h, env.limits) && Presence(h)
    requires s in h.peers && Current(h, s) && Quiet(h.peers[s], p')
    requires IsCommitted(h, s, d, p', h')
    requires d.config.state.Keys == d.pathIDs.Keys && Free(h.catalog.stateOwners, d.config.state.Keys, h.peers[s].name)
    requires forall id :: NameOf(h.catalog.topics.byID, id) != "" ==> NameOf(h'.catalog.topics.byID, id) != ""
    ensures Membership(h') && PeersOK(h'.peers) && SessionsOf(h') == SessionsOf(h)
    ensures SlotsOK(h') && StagesAgree(h') && Presence(h') && |h'.slots| == |h.slots|
    ensures forall t :: t in h'.users ==> Prunable(h'.catalog, h'.peers[t], env.limits)
  {
    UsersDoNotCoordinate(h, s);
    ActivatedMembers(h, s, p', h', env.limits);
    ActivatedSlots(h, s, d, h');
    ActivatedAgreement(h, s, d, h');
    ActivatedPresence(h, s, p', h');
  }

  lemma CommittedChanged(h: Home, s: Session, d: Declaration, p': Peer, h': Home, env: Env)
    requires Inv(h, env) && EnvOK(env) && s in h.peers && Current(h, s) && Quiet(h.peers[s], p')
    requires IsCommitted(h, s, d, p', h') && h'.policy >= 1
    requires Committable(h, d, h'.nextFunction)
    requires ActivationRefusal(h.catalog, h.peers[s].name, d, ConnectedIDs(h), env.limits, env.enc) == Ok
    ensures Changed(h', env)
  {
    ActivatedCatalog(h, h.peers[s].name, d, h'.nextFunction, env);
    ActivatedShapes(h, s, p', d, h');
    CommittedPlaces(h, s, d, p', h', env);
  }

  /** The branches of the last slice that commit nothing. */
  lemma RefusedActivationKeeps(h: Home, s: Session, ids: map<string, int>, env: Env)
    requires Inv(h, env) && s in h.peers
    ensures var burnt := h.(nextFunction := NextAfter(h.catalog.functions, h.nextFunction, ids));
            var dropped := SetPeer(burnt, s, h.peers[s].(stage := None));
            Inv(dropped, env) && (InStep(h) ==> InStep(dropped))
  {
    var burnt := h.(nextFunction := NextAfter(h.catalog.functions, h.nextFunction, ids));
    BurntKeeps(h, burnt, env);
    DropStageKeeps(burnt, s, env);
  }

  lemma UnansweredActivationKeeps(h: Home, s: Session, ids: map<string, int>, env: Env)
    requires Inv(h, env) && s in h.peers
    ensures var burnt := h.(nextFunction := NextAfter(h.catalog.functions, h.nextFunction, ids));
            var closed := SetPeer(burnt, s, Enqueue(h.peers[s], FunctionSyncOK(ids)).(stage := None));
            Inv(closed, env) && (InStep(h) ==> InStep(closed))
  {
    var p := h.peers[s];
    var burnt := h.(nextFunction := NextAfter(h.catalog.functions, h.nextFunction, ids));
    BurntKeeps(h, burnt, env);
    EnqueueQuiet(p, p.(stage := None), FunctionSyncOK(ids));
    QuietKeeps(burnt, s, Enqueue(p, FunctionSyncOK(ids)).(stage := None), env);
  }

  lemma AcceptedIsRefreshed(h: Home, s: Session, functions: set<string>, ids: map<string, int>, env: Env, d: Declaration, h': Home)
    requires s in h.peers && h.users <= h.peers.Keys && SliceRefusal(h, s, FunctionSlice) == Ok
    requires SyncFunctions(h, s, functions, ids, env.limits, env.enc).1 == Ok
    requires d == DeclarationOf(h.peers[s].stage.value, functions, ids)
    requires var p' := Enqueue(h.peers[s], FunctionSyncOK(ids)).(stage := None);
             var burnt := h.(nextFunction := NextAfter(h.catalog.functions, h.nextFunction, ids));
             h' == Committed(SetPeer(burnt, s, p'), h.peers[s].name, d)
    ensures SyncFunctions(h, s, functions, ids, env.limits, env.enc).0 == RefreshUsers(h')
    ensures ActivationRefusal(h.catalog, h.peers[s].name, d, ConnectedIDs(h), env.limits, env.enc) == Ok
  {
  }

  lemma CommittedKeeps(h: Home, s: Session, d: Declaration, p': Peer, h': Home, env: Env)
    requires Inv(h, env) && EnvOK(env) && s in h.peers && Current(h, s) && Quiet(h.peers[s], p')
    requires IsCommitted(h, s, d, p', h') && h'.policy >= 1
    requires Committable(h, d, h'.nextFunction)
    requires ActivationRefusal(h.catalog, h.peers[s].name, d, ConnectedIDs(h), env.limits, env.enc) == Ok
    ensures Inv(RefreshUsers(h'), env) && (InStep(h) ==> InStep(RefreshUsers(h')))
  {
    CommittedChanged(h, s, d, p', h', env);
    if InStep(h) {
      CommittedInStep(h, s, p', h', env);
    }
    RefreshKeeps(h', env);
  }

  lemma AcceptedIsCommitted(h: Home, s: Session, functions: set<string>, ids: map<string, int>, d: Declaration, p': Peer, h': Home)
    requires s in h.peers && SliceRefusal(h, s, FunctionSlice) == Ok && d == DeclarationOf(h.peers[s].stage.value, functions, ids)
    requires p' == Enqueue(h.peers[s], FunctionSyncOK(ids)).(stage := None)
    requires h' == Committed(SetPeer(h.(nextFunction := NextAfter(h.catalog.functions, h.nextFunction, ids)), s, p'), h.peers[s].name, d)
    ensures Current(h, s) && IsCommitted(h, s, d, p', h') && h'.policy >= h.policy
    ensures h'.nextFunction == NextAfter(h.catalog.functions, h.nextFunction, ids)
  {
  }

  lemma AcceptedIsQuiet(h: Home, s: Session, ids: map<string, int>, p': Peer, env: Env)
    requires Inv(h, env) && s in h.peers && p' == Enqueue(h.peers[s], FunctionSyncOK(ids)).(stage := None)
    ensures Quiet(h.peers[s], p') && h.policy >= 1
  {
    EnqueueQuiet(h.peers[s], h.peers[s].(stage := None), FunctionSyncOK(ids));
  }

  lemma AcceptedActivationKeeps(h: Home, s: Session, functions: set<string>, ids: map<string, int>, env: Env)
    requires Inv(h, env) && EnvOK(env) && s in h.peers
    requires Reserves(h.catalog.functions, h.nextFunction, functions, ids)
    requires SliceRefusal(h, s, FunctionSlice) == Ok
    requires SyncFunctions(h, s, functions, ids, env.limits, env.enc).1 == Ok
    ensures Inv(SyncFunctions(h, s, functions, ids, env.limits, env.enc).0, env)
    ensures InStep(h) ==> InStep(SyncFunctions(h, s, functions, ids, env.limits, env.enc).0)
  {
    var d := DeclarationOf(h.peers[s].stage.value, functions, ids);
    var p' := Enqueue(h.peers[s], FunctionSyncOK(ids)).(stage := None);
    var h' := Committed(SetPeer(h.(nextFunction := NextAfter(h.catalog.functions, h.nextFunction, ids)), s, p'), h.peers[s].name, d);
    AcceptedIsRefreshed(h, s, functions, ids, env, d, h');
    AcceptedIsCommitted(h, s, functions, ids, d, p', h');
    AcceptedIsQuiet(h, s, ids, p', env);
    StageIsCommittable(h, s, functions, ids, env);
    CommittedKeeps(h, s, d, p', h', env);
  }

  lemma CommittedInStep(h: Home, s: Session, p': Peer, h': Home, env: Env)
    requires Inv(h, env) && InStep(h) && s in h.peers && Current(h, s)
    requires h'.users == h.users && h'.peers == h.peers[s := p']
    ensures forall t :: t in h'.users && Available(h'.peers[t]) ==> Replay(h'.peers[t].log).inStep
  {
    UsersDoNotCoordinate(h, s);
  }

  lemma RefusedSyncKeeps(h: Home, s: Session, functions: set<string>, ids: map<string, int>, env: Env)
    requires Inv(h, env) && s in h.peers && SliceRefusal(h, s, FunctionSlice) == Ok
    requires SyncFunctions(h, s, functions, ids, env.limits, env.enc).1 != Ok
    ensures Inv(SyncFunctions(h, s, functions, ids, env.limits, env.enc).0, env)
    ensures InStep(h) ==> InStep(SyncFunctions(h, s, functions, ids, env.limits, env.enc).0)
  {
    RefusedActivationKeeps(h, s, ids, env);
    UnansweredActivationKeeps(h, s, ids, env);
  }

  lemma SyncFunctionsKeeps(h: Home, s: Session, functions: set<string>, ids: map<string, int>, env: Env)
    requires Inv(h, env) && EnvOK(env) && s in h.peers
    requires Reserves(h.catalog.functions, h.nextFunction, functions, ids)
    ensures Inv(SyncFunctions(h, s, functions, ids, env.limits, env.enc).0, env)
    ensures InStep(h) ==> InStep(SyncFunctions(h, s, functions, ids, env.limits, env.enc).0)
  {
    if SliceRefusal(h, s, FunctionSlice) != Ok {
      DropStageKeeps(h, s, env);
    } else if SyncFunctions(h, s, functions, ids, env.limits, env.enc).1 == Ok {
      AcceptedActivationKeeps(h, s, functions, ids, env);
    } else {
      RefusedSyncKeeps(h, s, functions, ids, env);
    }
  }
}
