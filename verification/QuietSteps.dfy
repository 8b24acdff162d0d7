/** Steps that leave the catalogue, the slots and the membership alone. */
module QuietSteps {
  import opened Basics
  import opened Catalogs
  import opened CatalogProofs
  import opened Views
  import opened HomeModel
  import opened Replicas
  import opened Invariants

  /** The two homes differ in their connections and in ID counters only. */
  ghost predicate OnlyPeers(h: Home, h': Home) {
    h' == h.(peers := h'.peers, nextPath := h'.nextPath, nextTopic := h'.nextTopic, nextFunction := h'.nextFunction)
  }

  lemma SlotsKept(h: Home, h': Home)
    requires SlotsOK(h)
    requires OnlyPeers(h, h') && Evolved(h.peers, h'.peers)
    ensures SlotsOK(h')
  {
    forall name | name in h.slots ensures Linked(name, h.slots[name], h'.peers, h.connections) {
      assert Linked(name, h.slots[name], h.peers, h.connections);
      if h.slots[name].connection.Some? {
        var s: Session := h.slots[name].connection.value;
        assert s in h.peers;
        assert Kept(h.peers[s], h'.peers[s]);
      }
    }
  }

  lemma SessionsKept(h: Home, h': Home)
    requires h.users <= h.peers.Keys
    requires OnlyPeers(h, h') && Evolved(h.peers, h'.peers)
    ensures SessionsOf(h') == SessionsOf(h)
  {
    assert forall s :: s in h.users ==> Kept(h.peers[s], h'.peers[s]);
  }

  lemma MembershipKept(h: Home, h': Home)
    requires Membership(h)
    requires OnlyPeers(h, h') && Evolved(h.peers, h'.peers)
    ensures Membership(h')
  {
    assert forall s :: s in h.connections ==> Kept(h.peers[s], h'.peers[s]);
  }

  lemma BetweenKept(users: set<Session>, peers: map<Session, Peer>, peers': map<Session, Peer>, view: set<(int, string)>)
    requires users <= peers.Keys && Evolved(peers, peers')
    requires Between(users, peers, view)
    ensures Between(users, peers', view)
  {
    assert forall s :: s in users ==> Kept(peers[s], peers'[s]);
  }

  lemma PresenceKept(h: Home, h': Home)
    requires h.users <= h.peers.Keys && Presence(h)
    requires OnlyPeers(h, h') && Evolved(h.peers, h'.peers)
    requires forall s :: s in h.peers ==> Tame(h, s, h.peers[s], h'.peers[s])
    ensures Presence(h')
  {
    forall s | s in h'.peers && IsCurrent(h'.slots, s) && Available(h'.peers[s])
      ensures Between(h'.users, h'.peers, PresenceView(h'.peers[s].log))
    {
      assert Tame(h, s, h.peers[s], h'.peers[s]);
      BetweenKept(h.users, h.peers, h'.peers, PresenceView(h.peers[s].log));
    }
  }

  lemma StagesKept(kind: Kind, peers: map<Session, Peer>, peers': map<Session, Peer>, names: Names, next: int, next': int)
    requires StagesOK(kind, peers, names, next)
    requires peers'.Keys == peers.Keys && next <= next'
    requires forall s :: s in peers ==>
      StagedIDs(kind, peers'[s]) == StagedIDs(kind, peers[s]) || StagedIDs(kind, peers'[s]) == map[]
    ensures StagesOK(kind, peers', names, next')
  {
    forall s, t | s in peers' && t in peers' && s != t
      ensures StagesDisjoint(names, StagedIDs(kind, peers'[s]), StagedIDs(kind, peers'[t]))
    {
      assert StagesDisjoint(names, StagedIDs(kind, peers[s]), StagedIDs(kind, peers[t]));
    }
  }

  /** One connection opens a stage with IDs fresh from the counter. */
  lemma StagesReserved(kind: Kind, peers: map<Session, Peer>, s: Session, p': Peer, names: Names, next: int,
                       wanted: set<string>, ids: map<string, int>)
    requires NamesInv(names, next)
    requires StagesOK(kind, peers, names, next)
    requires Reserves(names, next, wanted, ids)
    requires s in peers && StagedIDs(kind, p') == ids
    ensures StagesOK(kind, peers[s := p'], names, NextAfter(names, next, ids))
  {
    forall t | t in peers
      ensures StagedInv(names, NextAfter(names, next, ids), ids)
      ensures StagedInv(names, NextAfter(names, next, ids), StagedIDs(kind, peers[t]))
      ensures StagesDisjoint(names, ids, StagedIDs(kind, peers[t])) && StagesDisjoint(names, StagedIDs(kind, peers[t]), ids)
    {
      ReserveKeeps(names, next, wanted, ids, StagedIDs(kind, peers[t]));
    }
    var peers' := peers[s := p'];
    forall t, u | t in peers' && u in peers' && t != u
      ensures StagesDisjoint(names, StagedIDs(kind, peers'[t]), StagedIDs(kind, peers'[u]))
    {
      if t != s && u != s {
        assert StagesDisjoint(names, StagedIDs(kind, peers[t]), StagedIDs(kind, peers[u]));
      }
    }
  }

  lemma AgreementKept(h: Home, h': Home)
    requires StagesAgree(h)
    requires OnlyPeers(h, h') && Evolved(h.peers, h'.peers)
    requires forall s :: s in h.peers ==>
      StagedIDs(Path, h'.peers[s]) == StagedIDs(Path, h.peers[s]) || StagedIDs(Path, h'.peers[s]) == map[]
    ensures StagesAgree(h')
  {
    forall s | s in h'.peers && Current(h', s) ensures StageAgrees(h'.catalog, h'.peers[s].name, h'.peers[s]) {
      assert Current(h, s);
    }
  }

  /** A stage either stays as it was, moves on to its next slice, or is dropped. */
  ghost predicate StageKept(p: Peer, p': Peer) {
    p'.stage.Some? ==>
      && p.stage.Some?
      && p'.stage.value.pathIDs == p.stage.value.pathIDs && p'.stage.value.state == p.stage.value.state
      && p'.stage.value.topicIDs == p.stage.value.topicIDs && p'.stage.value.events == p.stage.value.events
  }

  /** All of the invariant that does not speak of stages or subscriptions. */
  lemma TameRest(h: Home, h': Home, env: Env)
    requires Inv(h, env)
    requires OnlyPeers(h, h') && Evolved(h.peers, h'.peers)
    requires forall s :: s in h.peers ==> Tame(h, s, h.peers[s], h'.peers[s])
    ensures Membership(h') && SlotsOK(h') && PeersOK(h'.peers) && Presence(h') && Counted(h', env.limits)
    ensures Encodes(h', env.enc)
  {
    SlotsKept(h, h');
    MembershipKept(h, h');
    SessionsKept(h, h');
    PresenceKept(h, h');
  }

  lemma SubscriptionsKept(h: Home, s: Session, p': Peer, h': Home, limits: Limits)
    requires h.users <= h.peers.Keys && s in h.peers
    requires Subscriptions(h, limits)
    requires OnlyPeers(h, h') && h'.peers == h.peers[s := p']
    requires s in h.users ==> Follows(h.catalog, limits, p')
    ensures Subscriptions(h', limits)
  {
  }

  lemma OneEvolves(h: Home, s: Session, p': Peer)
    requires s in h.peers && Tame(h, s, h.peers[s], p')
    ensures Evolved(h.peers, h.peers[s := p'])
    ensures forall t :: t in h.peers ==> Tame(h, t, h.peers[t], h.peers[s := p'][t])
  {
  }

  /** One connection changes; `h'` may have burnt IDs. */
  lemma TameKeeps(h: Home, s: Session, p': Peer, h': Home, env: Env)
    requires Inv(h, env)
    requires s in h.peers && Tame(h, s, h.peers[s], p')
    requires s in h.users ==> Follows(h.catalog, env.limits, p')
    requires OnlyPeers(h, h') && h'.peers == h.peers[s := p']
    requires NamesOK(h') && StagesShaped(h'.peers) && StagesAgree(h')
    requires StagesOK(Path, h'.peers, h.catalog.paths, h'.nextPath)
    requires StagesOK(Topic, h'.peers, h.catalog.topics, h'.nextTopic)
    ensures Inv(h', env)
  {
    OneEvolves(h, s, p');
    TameRest(h, h', env);
    SubscriptionsKept(h, s, p', h', env.limits);
  }

  lemma StagedStay(peers: map<Session, Peer>, s: Session, p': Peer, kind: Kind)
    requires s in peers && StageKept(peers[s], p')
    ensures forall t :: t in peers ==>
      StagedIDs(kind, peers[s := p'][t]) == StagedIDs(kind, peers[t]) || StagedIDs(kind, peers[s := p'][t]) == map[]
    ensures StagesShaped(peers) ==> StagesShaped(peers[s := p'])
  {
  }

  lemma StagesStay(h: Home, s: Session, p': Peer, env: Env)
    requires Inv(h, env)
    requires s in h.peers && Tame(h, s, h.peers[s], p') && StageKept(h.peers[s], p')
    ensures var h' := SetPeer(h, s, p');
            && StagesShaped(h'.peers) && StagesAgree(h')
            && StagesOK(Path, h'.peers, h.catalog.paths, h.nextPath)
            && StagesOK(Topic, h'.peers, h.catalog.topics, h.nextTopic)
  {
    var h' := SetPeer(h, s, p');
    StagedStay(h.peers, s, p', Path);
    StagedStay(h.peers, s, p', Topic);
    StagesKept(Path, h.peers, h'.peers, h.catalog.paths, h.nextPath, h.nextPath);
    StagesKept(Topic, h.peers, h'.peers, h.catalog.topics, h.nextTopic, h.nextTopic);
    OneEvolves(h, s, p');
    AgreementKept(h, h');
  }

  /** One connection changes quietly. */
  lemma QuietKeeps(h: Home, s: Session, p': Peer, env: Env)
    requires Inv(h, env)
    requires s in h.peers && Quiet(h.peers[s], p') && StageKept(h.peers[s], p')
    requires s in h.users ==> Follows(h.catalog, env.limits, p')
    ensures Inv(SetPeer(h, s, p'), env)
    ensures InStep(h) ==> InStep(SetPeer(h, s, p'))
  {
    QuietFolds(h.peers[s], p');
    StagesStay(h, s, p', env);
    TameKeeps(h, s, p', SetPeer(h, s, p'), env);
  }

  lemma EnqueueQuiet(p: Peer, q: Peer, f: Frame)
    requires Quiet(p, q) && q.log == p.log && Neutral(f)
    requires PeerOK(p)
    requires q.open ==> p.open
    ensures Quiet(p, Enqueue(q, f))
  {
  }

  // ---------- the quiet steps ----------

  lemma ReplySafe(h: Home, s: Session, q: Peer, f: Frame, env: Env)
    requires Inv(h, env)
    requires s in h.peers && Neutral(f)
    requires q == h.peers[s].(stage := q.stage, subscriptions := q.subscriptions)
    requires StageKept(h.peers[s], q)
    requires s in h.users ==> Follows(h.catalog, env.limits, q)
    ensures Inv(SetPeer(h, s, Enqueue(q, f)), env)
    ensures InStep(h) ==> InStep(SetPeer(h, s, Enqueue(q, f)))
  {
    EnqueueQuiet(h.peers[s], q, f);
    QuietKeeps(h, s, Enqueue(q, f), env);
  }

  lemma DropStageKeeps(h: Home, s: Session, env: Env)
    requires Inv(h, env) && s in h.peers
    ensures Inv(SetPeer(h, s, h.peers[s].(stage := None)), env)
    ensures InStep(h) ==> InStep(SetPeer(h, s, h.peers[s].(stage := None)))
  {
    QuietKeeps(h, s, h.peers[s].(stage := None), env);
  }

  lemma SyncAclKeeps(h: Home, s: Session, acl: map<string, seq<string>>, env: Env)
    requires Inv(h, env) && s in h.peers
    ensures Inv(SyncAcl(h, s, acl).0, env) && (InStep(h) ==> InStep(SyncAcl(h, s, acl).0))
  {
    var p := h.peers[s];
    if SliceRefusal(h, s, AclSlice) == Ok {
      ReplySafe(h, s, p.(stage := Some(p.stage.value.(stateACL := acl, expected := EventSlice))), Other, env);
    } else {
      DropStageKeeps(h, s, env);
    }
  }

  lemma SyncEventAclKeeps(h: Home, s: Session, acl: map<string, EventAccess>, env: Env)
    requires Inv(h, env) && s in h.peers
    ensures Inv(SyncEventAcl(h, s, acl).0, env) && (InStep(h) ==> InStep(SyncEventAcl(h, s, acl).0))
  {
    var p := h.peers[s];
    if SliceRefusal(h, s, EventAclSlice) == Ok {
      ReplySafe(h, s, p.(stage := Some(p.stage.value.(eventACL := acl, expected := FunctionSlice))), Other, env);
    } else {
      DropStageKeeps(h, s, env);
    }
  }

  lemma ExpireStageKeeps(h: Home, s: Session, serial: nat, env: Env)
    requires Inv(h, env) && s in h.peers
    ensures Inv(ExpireStage(h, s, serial), env) && (InStep(h) ==> InStep(ExpireStage(h, s, serial)))
  {
    ReplySafe(h, s, h.peers[s].(stage := None), Other, env);
  }

  lemma NoticeKeeps(h: Home, s: Session, env: Env)
    requires Inv(h, env) && s in h.peers
    ensures Inv(SetPeer(h, s, Enqueue(h.peers[s], Other)), env)
    ensures InStep(h) ==> InStep(SetPeer(h, s, Enqueue(h.peers[s], Other)))
  {
    ReplySafe(h, s, h.peers[s], Other, env);
  }

  /** Losing liveness or the queue, or a change of room. */
  lemma FlagsKeep(h: Home, s: Session, live: bool, open: bool, room: nat, env: Env)
    requires Inv(h, env) && s in h.peers
    requires (live ==> h.peers[s].live && open) && (open ==> h.peers[s].open)
    ensures Inv(SetPeer(h, s, h.peers[s].(live := live, open := open, room := room)), env)
    ensures InStep(h) ==> InStep(SetPeer(h, s, h.peers[s].(live := live, open := open, room := room)))
  {
    QuietKeeps(h, s, h.peers[s].(live := live, open := open, room := room), env);
  }

  /** A user may only follow topics it is authorised for, also when the batch repeats an ID. */
  lemma {:induction false} NewIDsBound(known: set<int>, ids: seq<int>)
    ensures |known + set id | id in ids| <= |known| + NewIDs(known, ids)
  {
    if ids == [] {
      assert known + (set id | id in ids) == known;
    } else {
      var rest := ids[..|ids| - 1];
      var last := ids[|ids| - 1];
      NewIDsBound(known, rest);
      assert ids == rest + [last];
      var before := known + set id | id in rest;
      assert known + (set id | id in ids) == before + {last};
    }
  }

  lemma SubscribeKeeps(h: Home, s: Session, ids: seq<int>, env: Env)
    requires Inv(h, env) && s in h.peers
    ensures Inv(Subscribe(h, s, ids, env.limits).0, env) && (InStep(h) ==> InStep(Subscribe(h, s, ids, env.limits).0))
  {
    var p := h.peers[s];
    if Subscribe(h, s, ids, env.limits).0 != h {
      NewIDsBound(p.subscriptions, ids);
      ReplySafe(h, s, p.(subscriptions := p.subscriptions + set id | id in ids), Other, env);
    }
  }

  lemma UnsubscribeKeeps(h: Home, s: Session, ids: seq<int>, env: Env)
    requires Inv(h, env) && s in h.peers
    ensures Inv(Unsubscribe(h, s, ids).0, env) && (InStep(h) ==> InStep(Unsubscribe(h, s, ids).0))
  {
    var p := h.peers[s];
    if Unsubscribe(h, s, ids).0 != h {
      var left := p.subscriptions - set id | id in ids;
      SubsetSize(left, p.subscriptions);
      ReplySafe(h, s, p.(subscriptions := left), Other, env);
    }
  }
}
