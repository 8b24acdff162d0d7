/** Steps that reserve IDs, and the resynchronisation of one user. */
module StageSteps {
  import opened Basics
  import opened Catalogs
  import opened CatalogProofs
  import opened Views
  import opened HomeModel
  import opened Replicas
  import opened Invariants
  import opened QuietSteps

  /** Only ID counters moved. */
  lemma BurntKeeps(h: Home, h': Home, env: Env)
    requires Inv(h, env)
    requires h' == h.(nextPath := h'.nextPath, nextTopic := h'.nextTopic, nextFunction := h'.nextFunction)
    requires h.nextPath <= h'.nextPath && h.nextTopic <= h'.nextTopic && h.nextFunction <= h'.nextFunction
    ensures Inv(h', env)
    ensures InStep(h) ==> InStep(h')
  {
    StagesKept(Path, h.peers, h.peers, h.catalog.paths, h.nextPath, h'.nextPath);
    StagesKept(Topic, h.peers, h.peers, h.catalog.topics, h.nextTopic, h'.nextTopic);
    assert forall s :: s in h'.peers ==> (Current(h', s) <==> Current(h, s));
  }

  lemma OpenStageAgrees(h: Home, s: Session, p': Peer, state: map<string, Value>, ids: map<string, int>, h': Home)
    requires StagesAgree(h) && s in h.peers
    requires Evolved(h.peers, h.peers[s := p'])
    requires NamesInv(h.catalog.paths, h.nextPath) && h.catalog.stateOwners.Keys <= h.catalog.paths.byName.Keys
    requires Reserves(h.catalog.paths, h.nextPath, state.Keys, ids)
    requires StagedIDs(Path, p') == ids
    requires h' == h.(peers := h.peers[s := p'], nextPath := h'.nextPath)
    ensures StagesAgree(h')
  {
    forall t | t in h'.peers && Current(h', t) ensures StageAgrees(h'.catalog, h'.peers[t].name, h'.peers[t]) {
      assert Current(h, t);
      assert forall path :: path in h.catalog.stateOwners ==> IdOf(h.catalog.paths.byName, path) != 0;
    }
  }

  lemma SyncStateKeeps(h: Home, s: Session, state: map<string, Value>, ids: map<string, int>, env: Env)
    requires Inv(h, env) && s in h.peers
    requires Reserves(h.catalog.paths, h.nextPath, state.Keys, ids)
    ensures Inv(SyncState(h, s, state, ids, env.enc).0, env)
    ensures InStep(h) ==> InStep(SyncState(h, s, state, ids, env.enc).0)
  {
    var p := h.peers[s];
    if p.role == Coordinator && Current(h, s) {
      if env.enc(StateSyncOK(h.catalog.revision, ids)) && Accepts(p) {
        SyncStateOpens(h, s, state, ids, env);
      } else {
        SyncStateBurns(h, s, state, ids, env);
      }
    }
  }

  /** IDs were burnt, and one connection that follows nothing changed quietly. */
  lemma BurntQuietKeeps(h: Home, s: Session, p': Peer, next: int, env: Env)
    requires Inv(h, env) && s in h.peers && s !in h.users && next >= h.nextPath
    requires Quiet(h.peers[s], p') && StageKept(h.peers[s], p')
    ensures Inv(SetPeer(h.(nextPath := next), s, p'), env)
    ensures InStep(h) ==> InStep(SetPeer(h.(nextPath := next), s, p'))
  {
    BurntKeeps(h, h.(nextPath := next), env);
    QuietKeeps(h.(nextPath := next), s, p', env);
  }

  lemma SyncStateBurns(h: Home, s: Session, state: map<string, Value>, ids: map<string, int>, env: Env)
    requires Inv(h, env) && s in h.peers
    requires h.peers[s].role == Coordinator && Current(h, s)
    requires !(env.enc(StateSyncOK(h.catalog.revision, ids)) && Accepts(h.peers[s]))
    ensures Inv(SyncState(h, s, state, ids, env.enc).0, env)
    ensures InStep(h) ==> InStep(SyncState(h, s, state, ids, env.enc).0)
  {
    var p' := BurntPeer(h, s, ids, env.enc);
    BurntIsQuiet(h, s, state, ids, env.enc);
    CurrentIsNoUser(h, s);
    BurntQuietKeeps(h, s, p', NextAfter(h.catalog.paths, h.nextPath, ids), env);
  }

  /** A first slice that opens no stage: its reply overflowed the queue, or does not encode. */
  function BurntPeer(h: Home, s: Session, ids: map<string, int>, enc: Frame -> bool): Peer
    requires s in h.peers
  {
    var p := h.peers[s];
    if enc(StateSyncOK(h.catalog.revision, ids))
    then p.(live := false, open := false, stage := None, stageCount := p.stageCount + 1)
    else Halted(p)
  }

  lemma BurntIsQuiet(h: Home, s: Session, state: map<string, Value>, ids: map<string, int>, enc: Frame -> bool)
    requires s in h.peers && h.peers[s].role == Coordinator && Current(h, s)
    requires !(enc(StateSyncOK(h.catalog.revision, ids)) && Accepts(h.peers[s]))
    ensures Quiet(h.peers[s], BurntPeer(h, s, ids, enc)) && StageKept(h.peers[s], BurntPeer(h, s, ids, enc))
    ensures SyncState(h, s, state, ids, enc).0
            == SetPeer(h.(nextPath := NextAfter(h.catalog.paths, h.nextPath, ids)), s, BurntPeer(h, s, ids, enc))
  {
  }

  lemma CurrentIsNoUser(h: Home, s: Session)
    requires Membership(h) && s in h.peers && h.peers[s].role == Coordinator
    ensures s !in h.users
  {
  }

  lemma OpenedPeer(h: Home, s: Session, state: map<string, Value>, ids: map<string, int>, enc: Frame -> bool, p': Peer, h': Home)
    requires s in h.peers && h.peers[s].role == Coordinator && Current(h, s) && Accepts(h.peers[s])
    requires PeerOK(h.peers[s]) && enc(StateSyncOK(h.catalog.revision, ids))
    requires var p := h.peers[s];
             p' == Enqueue(p, StateSyncOK(h.catalog.revision, ids)).(
                     stage := Some(Stage(AclSlice, state, ids, map[], map[], map[], map[], p.stageCount, true)),
                     stageCount := p.stageCount + 1)
    requires h' == SetPeer(h.(nextPath := NextAfter(h.catalog.paths, h.nextPath, ids)), s, p')
    ensures SyncState(h, s, state, ids, enc).0 == h' && Quiet(h.peers[s], p')
  {
    EnqueueQuiet(h.peers[s], h.peers[s], StateSyncOK(h.catalog.revision, ids));
  }

  lemma SyncStateOpens(h: Home, s: Session, state: map<string, Value>, ids: map<string, int>, env: Env)
    requires Inv(h, env) && s in h.peers
    requires h.peers[s].role == Coordinator && Current(h, s) && Accepts(h.peers[s])
    requires env.enc(StateSyncOK(h.catalog.revision, ids))
    requires Reserves(h.catalog.paths, h.nextPath, state.Keys, ids)
    ensures Inv(SyncState(h, s, state, ids, env.enc).0, env)
    ensures InStep(h) ==> InStep(SyncState(h, s, state, ids, env.enc).0)
  {
    var p := h.peers[s];
    var reply := StateSyncOK(h.catalog.revision, ids);
    var stage := Stage(AclSlice, state, ids, map[], map[], map[], map[], p.stageCount, true);
    var p' := Enqueue(p, reply).(stage := Some(stage), stageCount := p.stageCount + 1);
    var h' := SetPeer(h.(nextPath := NextAfter(h.catalog.paths, h.nextPath, ids)), s, p');
    OpenedPeer(h, s, state, ids, env.enc, p', h');
    OpenStateStage(h, s, p', h', state, ids);
    OpenedKeeps(h, s, p', h', env);
  }

  /** Replacing the stage of one connection by one with the same or no IDs of a kind. */
  lemma OthersStaged(kind: Kind, peers: map<Session, Peer>, s: Session, p': Peer, names: Names, next: int)
    requires StagesOK(kind, peers, names, next)
    requires s in peers
    requires StagedIDs(kind, p') == StagedIDs(kind, peers[s]) || StagedIDs(kind, p') == map[]
    ensures StagesOK(kind, peers[s := p'], names, next)
  {
    StagesKept(kind, peers, peers[s := p'], names, next, next);
  }

  /** One connection opens a stage of state paths. */
  lemma OpenStateStage(h: Home, s: Session, p': Peer, h': Home, state: map<string, Value>, ids: map<string, int>)
    requires s in h.peers && StagesAgree(h)
    requires StagesOK(Path, h.peers, h.catalog.paths, h.nextPath)
    requires StagesOK(Topic, h.peers, h.catalog.topics, h.nextTopic)
    requires NamesInv(h.catalog.paths, h.nextPath) && h.catalog.stateOwners.Keys <= h.catalog.paths.byName.Keys
    requires Kept(h.peers[s], p')
    requires Reserves(h.catalog.paths, h.nextPath, state.Keys, ids)
    requires p'.stage.Some? && p'.stage.value.state == state && p'.stage.value.pathIDs == ids && p'.stage.value.topicIDs == map[]
    requires h' == h.(peers := h.peers[s := p'], nextPath := NextAfter(h.catalog.paths, h.nextPath, ids))
    ensures StagesAgree(h')
    ensures StagesOK(Path, h'.peers, h.catalog.paths, h'.nextPath)
    ensures StagesOK(Topic, h'.peers, h.catalog.topics, h'.nextTopic)
  {
    StagesReserved(Path, h.peers, s, p', h.catalog.paths, h.nextPath, state.Keys, ids);
    OthersStaged(Topic, h.peers, s, p', h.catalog.topics, h.nextTopic);
    OpenStageAgrees(h, s, p', state, ids, h');
  }

  /** The rest of the invariant, and the replicas, when a coordinator opened or extended its stage. */
  lemma OpenedKeeps(h: Home, s: Session, p': Peer, h': Home, env: Env)
    requires Inv(h, env) && s in h.peers
    requires Quiet(h.peers[s], p') && h.peers[s].role == Coordinator
    requires p'.stage.Some? && StageShaped(p'.stage.value)
    requires OnlyPeers(h, h') && h'.peers == h.peers[s := p']
    requires h.nextPath <= h'.nextPath && h.nextTopic <= h'.nextTopic && h.nextFunction <= h'.nextFunction
    requires StagesAgree(h')
    requires StagesOK(Path, h'.peers, h.catalog.paths, h'.nextPath)
    requires StagesOK(Topic, h'.peers, h.catalog.topics, h'.nextTopic)
    ensures Inv(h', env)
    ensures InStep(h) ==> InStep(h')
  {
    QuietFolds(h.peers[s], p');
    TameKeeps(h, s, p', h', env);
    InStepOne(h, s, p', h');
  }

  lemma InStepOne(h: Home, s: Session, p': Peer, h': Home)
    requires h.users <= h.peers.Keys && s in h.peers
    requires Quiet(h.peers[s], p')
    requires OnlyPeers(h, h') && h'.peers == h.peers[s := p']
    ensures InStep(h) ==> InStep(h')
  {
    QuietFolds(h.peers[s], p');
  }

  lemma AgreementOne(h: Home, s: Session, p': Peer, h': Home)
    requires StagesAgree(h) && s in h.peers
    requires Kept(h.peers[s], p') && StagedIDs(Path, p') == StagedIDs(Path, h.peers[s])
    requires OnlyPeers(h, h') && h'.peers == h.peers[s := p']
    ensures StagesAgree(h')
  {
    AgreementKept(h, h');
  }

  lemma SyncEventsKeeps(h: Home, s: Session, events: map<string, int>, ids: map<string, int>, env: Env)
    requires Inv(h, env) && s in h.peers
    requires Reserves(h.catalog.topics, h.nextTopic, events.Keys, ids)
    ensures Inv(SyncEvents(h, s, events, ids, env.enc).0, env)
    ensures InStep(h) ==> InStep(SyncEvents(h, s, events, ids, env.enc).0)
  {
    if SliceRefusal(h, s, EventSlice) != Ok {
      DropStageKeeps(h, s, env);
    } else if !env.enc(EventSyncOK(ids)) {
      BurntTopics(h, s, ids, env);
    } else {
      SyncEventsOpens(h, s, events, ids, env);
    }
  }

  lemma SyncEventsOpens(h: Home, s: Session, events: map<string, int>, ids: map<string, int>, env: Env)
    requires Inv(h, env) && s in h.peers
    requires SliceRefusal(h, s, EventSlice) == Ok && env.enc(EventSyncOK(ids))
    requires Reserves(h.catalog.topics, h.nextTopic, events.Keys, ids)
    ensures Inv(SyncEvents(h, s, events, ids, env.enc).0, env)
    ensures InStep(h) ==> InStep(SyncEvents(h, s, events, ids, env.enc).0)
  {
    var p := h.peers[s];
    var staged := p.(stage := Some(p.stage.value.(events := events, topicIDs := ids, expected := EventAclSlice)));
    var p' := Enqueue(staged, EventSyncOK(ids));
    var h' := SyncEvents(h, s, events, ids, env.enc).0;
    EnqueueQuiet(p, staged, EventSyncOK(ids));
    OpenEventStage(h, s, p', h', events, ids);
    OpenedKeeps(h, s, p', h', env);
  }

  lemma BurntTopics(h: Home, s: Session, ids: map<string, int>, env: Env)
    requires Inv(h, env) && s in h.peers
    ensures var h' := SetPeer(h.(nextTopic := NextAfter(h.catalog.topics, h.nextTopic, ids)), s, h.peers[s].(stage := None));
            Inv(h', env) && (InStep(h) ==> InStep(h'))
  {
    var burnt := h.(nextTopic := NextAfter(h.catalog.topics, h.nextTopic, ids));
    BurntKeeps(h, burnt, env);
    DropStageKeeps(burnt, s, env);
  }

  /** One connection adds its event topics to its stage. */
  lemma OpenEventStage(h: Home, s: Session, p': Peer, h': Home, events: map<string, int>, ids: map<string, int>)
    requires s in h.peers && StagesAgree(h)
    requires StagesOK(Path, h.peers, h.catalog.paths, h.nextPath)
    requires StagesOK(Topic, h.peers, h.catalog.topics, h.nextTopic)
    requires NamesInv(h.catalog.topics, h.nextTopic)
    requires Kept(h.peers[s], p')
    requires Reserves(h.catalog.topics, h.nextTopic, events.Keys, ids)
    requires h.peers[s].stage.Some?
    requires p'.stage == Some(h.peers[s].stage.value.(events := events, topicIDs := ids, expected := EventAclSlice))
    requires h' == h.(peers := h.peers[s := p'], nextTopic := NextAfter(h.catalog.topics, h.nextTopic, ids))
    ensures StagesAgree(h')
    ensures StagesOK(Path, h'.peers, h.catalog.paths, h'.nextPath)
    ensures StagesOK(Topic, h'.peers, h.catalog.topics, h'.nextTopic)
  {
    StagesReserved(Topic, h.peers, s, p', h.catalog.topics, h.nextTopic, events.Keys, ids);
    OthersStaged(Path, h.peers, s, p', h.catalog.paths, h.nextPath);
    AgreementOne(h, s, p', h');
  }

  lemma ResyncKeeps(h: Home, s: Session, env: Env)
    requires Inv(h, env) && s in h.peers
    ensures Inv(Resync(h, s).0, env)
    ensures InStep(h) ==> InStep(Resync(h, s).0)
  {
    var p := h.peers[s];
    if p.role == User {
      var c := h.catalog;
      var start := p.(lastStateRevision := c.revision);
      var dict := StateDict(PathEntries(c, p.user));
      var snapshot := StateSnapshot(c.revision, StateEntries(c, p.user));
      var p' := EnqueueAll(start, [dict, snapshot]);
      EnqueueAllSends(start, [dict, snapshot]);
      assert !IsCurrent(h.slots, s);
      StagesStay(h, s, p', env);
      TameKeeps(h, s, p', SetPeer(h, s, p'), env);
      if InStep(h) && s in h.users && Available(p') {
        ReplayOneMore(p.log, dict);
        ReplayOneMore(p.log + [dict], snapshot);
        assert p'.log == p.log + [dict] + [snapshot];
      }
    }
  }
}
