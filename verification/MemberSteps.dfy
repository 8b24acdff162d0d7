/** Connections come and go. */
module MemberSteps {
  import opened Basics
  import opened Catalogs
  import opened CatalogProofs
  import opened Views
  import opened HomeModel
  import opened Replicas
  import opened Invariants
  import opened QuietSteps

  // ---------- announcements ----------

  lemma EnqueueEvolves(p: Peer, f: Frame)
    requires PeerOK(p)
    ensures Kept(p, Enqueue(p, f)) && PeerOK(Enqueue(p, f)) && Enqueue(p, f).stage == p.stage
  {
  }

  lemma AnnounceEvolves(h: Home, f: Frame)
    requires PeersOK(h.peers)
    ensures OnlyPeers(h, Announce(h, f)) && Evolved(h.peers, Announce(h, f).peers)
    ensures PeersOK(Announce(h, f).peers)
    ensures forall s :: s in h.peers ==> Announce(h, f).peers[s].stage == h.peers[s].stage
  {
    var h' := Announce(h, f);
    forall s | s in h.peers
      ensures Kept(h.peers[s], h'.peers[s]) && PeerOK(h'.peers[s]) && h'.peers[s].stage == h.peers[s].stage
    {
      EnqueueEvolves(h.peers[s], f);
    }
  }

  /** Slots and users never share a connection. */
  lemma UsersDoNotCoordinate(h: Home, s: Session)
    requires Membership(h) && SlotsOK(h)
    requires IsCurrent(h.slots, s)
    ensures s !in h.users && s in h.peers && Current(h, s)
  {
    var name :| name in h.slots && h.slots[name].connection == Some(s);
    assert Linked(name, h.slots[name], h.peers, h.connections);
  }

  lemma AnnounceKeepsUsers(h: Home, f: Frame)
    requires Membership(h) && SlotsOK(h)
    ensures forall s :: s in h.users ==> Announce(h, f).peers[s] == h.peers[s]
  {
    forall s | s in h.users ensures Announce(h, f).peers[s] == h.peers[s] {
      if IsCurrent(h.slots, s) {
        UsersDoNotCoordinate(h, s);
      }
    }
  }

  lemma AnnounceKeepsIDs(h: Home, f: Frame, kind: Kind, names: Names, next: int)
    requires PeersOK(h.peers) && StagesOK(kind, h.peers, names, next)
    ensures StagesOK(kind, Announce(h, f).peers, names, next)
  {
    AnnounceEvolves(h, f);
    StagesKept(kind, h.peers, Announce(h, f).peers, names, next, next);
  }

  lemma AnnounceAgreement(h: Home, f: Frame)
    requires PeersOK(h.peers) && StagesShaped(h.peers) && StagesAgree(h)
    ensures StagesShaped(Announce(h, f).peers) && StagesAgree(Announce(h, f))
  {
    AnnounceEvolves(h, f);
    AgreementKept(h, Announce(h, f));
  }

  lemma AnnounceKeeps(h: Home, f: Frame, env: Env)
    requires Settled(h, env)
    ensures Settled(Announce(h, f), env)
    ensures InStep(h) ==> InStep(Announce(h, f))
  {
    var h' := Announce(h, f);
    AnnounceEvolves(h, f);
    SlotsKept(h, h');
    MembershipKept(h, h');
    SessionsKept(h, h');
    AnnounceKeepsUsers(h, f);
    AnnounceKeepsIDs(h, f, Path, h.catalog.paths, h.nextPath);
    AnnounceKeepsIDs(h, f, Topic, h.catalog.topics, h.nextTopic);
    AnnounceAgreement(h, f);
  }

  /** After an announcement every coordinator that still hears of it has the new picture. */
  lemma AnnouncedPresence(h: Home, f: Frame)
    requires h.users <= h.peers.Keys && PeersOK(h.peers)
    requires forall s :: s in h.peers && IsCurrent(h.slots, s) && Available(h.peers[s]) ==>
      Between(h.users, h.peers, ApplyPresence(PresenceView(h.peers[s].log), f))
    ensures Presence(Announce(h, f))
  {
    var h' := Announce(h, f);
    AnnounceEvolves(h, f);
    forall s | s in h'.peers && IsCurrent(h'.slots, s) && Available(h'.peers[s])
      ensures Between(h'.users, h'.peers, PresenceView(h'.peers[s].log))
    {
      ReplayOneMore(h.peers[s].log, f);
      BetweenKept(h.users, h.peers, h'.peers, PresenceView(h'.peers[s].log));
    }
  }

  // ---------- a newcomer ----------

  /** A connection with nothing staged joins the map. */
  lemma NewcomerStages(h: Home, s: Session, p': Peer, h': Home)
    requires s !in h.peers && p'.stage == None
    requires h'.peers == h.peers[s := p'] && h'.catalog == h.catalog
    requires h'.nextPath == h.nextPath && h'.nextTopic == h.nextTopic
    requires StagesOK(Path, h.peers, h.catalog.paths, h.nextPath) && StagesOK(Topic, h.peers, h.catalog.topics, h.nextTopic)
    requires StagesShaped(h.peers)
    ensures StagesOK(Path, h'.peers, h.catalog.paths, h.nextPath)
    ensures StagesOK(Topic, h'.peers, h.catalog.topics, h.nextTopic)
    ensures StagesShaped(h'.peers)
  {
    NewcomerStaged(Path, h.peers, s, p', h.catalog.paths, h.nextPath);
    NewcomerStaged(Topic, h.peers, s, p', h.catalog.topics, h.nextTopic);
  }

  lemma NewcomerStaged(kind: Kind, peers: map<Session, Peer>, s: Session, p': Peer, names: Names, next: int)
    requires s !in peers && p'.stage == None
    requires StagesOK(kind, peers, names, next)
    ensures StagesOK(kind, peers[s := p'], names, next)
  {
    var peers' := peers[s := p'];
    forall t, u | t in peers' && u in peers' && t != u
      ensures StagesDisjoint(names, StagedIDs(kind, peers'[t]), StagedIDs(kind, peers'[u]))
    {
      if t != s && u != s {
        assert StagesDisjoint(names, StagedIDs(kind, peers[t]), StagedIDs(kind, peers[u]));
      }
    }
  }

  lemma NewcomerAgreement(h: Home, s: Session, p': Peer, h': Home)
    requires StagesAgree(h) && s !in h.peers && p'.stage == None
    requires h'.peers == h.peers[s := p'] && h'.catalog == h.catalog
    requires forall name :: name in h'.slots && h'.slots[name].connection != Some(s) ==> name in h.slots && h'.slots[name] == h.slots[name]
    ensures StagesAgree(h')
  {
    forall t | t in h'.peers && Current(h', t) ensures StageAgrees(h'.catalog, h'.peers[t].name, h'.peers[t]) {
      if t != s {
        assert Current(h, t);
      }
    }
  }

  /** WELCOME comes first, and a bootstrap that went through delivered every frame. */
  lemma BootstrapSends(p: Peer, fs: seq<Frame>, leaseValid: bool)
    requires Newcomer(p)
    ensures var p' := Bootstrapped(EnqueueAll(p, [Welcome] + fs), leaseValid);
            && PeerOK(p')
            && p'.stage == None && p'.subscriptions == {} && p'.lastStateRevision == 0
            && p'.role == p.role && p'.user == p.user && p'.name == p.name && p'.generation == p.generation
            && (p'.bootstrapped ==> p'.log == [Welcome] + fs)
  {
    var all := [Welcome] + fs;
    EnqueueAllSends(p, all);
    EnqueueAllPrefix(p, all);
    assert p.log + all == all;
  }

  lemma BootstrapSendsAt(p: Peer, revision: int, fs: seq<Frame>, leaseValid: bool)
    requires Newcomer(p)
    ensures var p' := Bootstrapped(EnqueueAll(p.(lastStateRevision := revision), [Welcome] + fs), leaseValid);
            && PeerOK(p')
            && p'.stage == None && p'.subscriptions == {} && p'.lastStateRevision == revision
            && p'.role == p.role && p'.user == p.user && p'.name == p.name
            && (p'.bootstrapped ==> p'.log == [Welcome] + fs)
  {
    var all := [Welcome] + fs;
    var start := p.(lastStateRevision := revision);
    EnqueueAllSends(start, all);
    EnqueueAllPrefix(start, all);
    assert start.log + all == all;
  }

  lemma NewcomerSlots(h: Home, s: Session, p': Peer, h': Home)
    requires SlotsOK(h) && h.connections <= h.peers.Keys && s !in h.peers
    requires h'.peers == h.peers[s := p'] && h'.connections == h.connections + {s}
    requires h'.catalog == h.catalog && h'.slots == h.slots
    ensures SlotsOK(h')
  {
    forall name | name in h.slots ensures Linked(name, h.slots[name], h'.peers, h'.connections) {
      assert Linked(name, h.slots[name], h.peers, h.connections);
    }
  }

  /** A bootstrapped user starts from its whole view. */
  lemma BootstrapReplicates(c: Catalog, p': Peer)
    requires p'.log == [Welcome] + RecoveryFrames(c, p'.user)
    requires p'.lastStateRevision == c.revision
    ensures Replicated(c, p')
  {
    ReplayOneMore([], Welcome);
    assert [] + [Welcome] == [Welcome];
    ReplayRecovery(c, p'.user, [Welcome]);
  }

  lemma EnrolledMembership(h: Home, s: Session, p': Peer, h': Home, limits: Limits)
    requires Membership(h) && s !in h.peers && p'.role == User && p'.subscriptions == {} && limits.subscriptions >= 0
    requires h'.peers == h.peers[s := p'] && h'.connections == h.connections + {s} && h'.users == h.users + {s}
    requires h'.catalog == h.catalog
    requires Subscriptions(h, limits)
    ensures Membership(h') && Subscriptions(h', limits)
  {
  }

  lemma EnrolledUser(h: Home, s: Session, p': Peer, h': Home, env: Env)
    requires Settled(h, env) && EnvOK(env) && s !in h.peers
    requires p'.role == User && PeerOK(p') && p'.stage == None && p'.subscriptions == {}
    requires |h.users| < env.limits.users && env.enc(PresenceSnapshot(SessionsOf(h) + {(s, p'.user)}))
    requires h' == h.(peers := h.peers[s := p'], connections := h.connections + {s}, users := h.users + {s})
    ensures Settled(h', env)
  {
    NewcomerStages(h, s, p', h');
    NewcomerAgreement(h, s, p', h');
    NewcomerSlots(h, s, p', h');
    NewcomerSessions(h, s, p', h', env);
    EnrolledMembership(h, s, p', h', env.limits);
  }

  lemma NewcomerSessions(h: Home, s: Session, p': Peer, h': Home, env: Env)
    requires h.users <= h.peers.Keys && EnvOK(env) && s !in h.peers
    requires h'.peers == h.peers[s := p'] && h'.users == h.users + {s}
    requires env.enc(PresenceSnapshot(SessionsOf(h) + {(s, p'.user)}))
    ensures env.enc(PresenceSnapshot(SessionsOf(h')))
  {
    assert SessionsOf(h') <= SessionsOf(h) + {(s, p'.user)};
    assert Within(PresenceSnapshot(SessionsOf(h')), PresenceSnapshot(SessionsOf(h) + {(s, p'.user)}));
  }

  lemma ArrivalIsSeen(h: Home, s: Session, p': Peer, h': Home, view: set<(int, string)>)
    requires h.users <= h.peers.Keys && s !in h.peers
    requires h'.peers == h.peers[s := p'] && h'.users == h.users + {s}
    requires Between(h.users, h.peers, view)
    ensures Available(p') ==> Between(h'.users, h'.peers, ApplyPresence(view, PresenceChange(s, p'.user, 1)))
    ensures !Available(p') ==> Between(h'.users, h'.peers, view)
  {
  }

  lemma AttachUserKeeps(h: Home, s: Session, p: Peer, leaseValid: bool, env: Env)
    requires Inv(h, env) && EnvOK(env)
    requires s !in h.peers && Newcomer(p) && p.role == User
    ensures Inv(AttachUser(h, s, p, leaseValid, env.limits, env.enc).0, env)
    ensures InStep(h) ==> InStep(AttachUser(h, s, p, leaseValid, env.limits, env.enc).0)
  {
    if |h.users| < env.limits.users && env.enc(PresenceSnapshot(SessionsOf(h) + {(s, p.user)})) {
      var c := h.catalog;
      var p' := Bootstrapped(EnqueueAll(p.(lastStateRevision := c.revision), [Welcome] + RecoveryFrames(c, p.user)), leaseValid);
      var h' := h.(peers := h.peers[s := p'], connections := h.connections + {s}, users := h.users + {s});
      BootstrapSendsAt(p, c.revision, RecoveryFrames(c, p.user), leaseValid);
      EnrolledUser(h, s, p', h', env);
      if InStep(h) {
        UserArrivesInStep(h, s, p', h');
      }
      UserArrives(h, s, p', h', env);
    }
  }

  lemma UserArrivesInStep(h: Home, s: Session, p': Peer, h': Home)
    requires h.users <= h.peers.Keys && InStep(h) && s !in h.peers && h.catalog.revision >= 1
    requires p'.lastStateRevision == h.catalog.revision
    requires p'.bootstrapped ==> p'.log == [Welcome] + RecoveryFrames(h.catalog, p'.user)
    requires h'.peers == h.peers[s := p'] && h'.users == h.users + {s} && h'.catalog == h.catalog
    ensures InStep(h')
  {
    if p'.bootstrapped {
      BootstrapReplicates(h.catalog, p');
    }
  }

  lemma UserArrives(h: Home, s: Session, p': Peer, h': Home, env: Env)
    requires Settled(h', env) && h.users <= h.peers.Keys && Presence(h) && s !in h.peers
    requires h'.peers == h.peers[s := p'] && h'.users == h.users + {s} && h'.slots == h.slots && p'.role == User
    ensures var after := if Available(p') then Announce(h', PresenceChange(s, p'.user, 1)) else h';
            Inv(after, env) && (InStep(h') ==> InStep(after))
  {
    var f := PresenceChange(s, p'.user, 1);
    forall t | t in h'.peers && IsCurrent(h'.slots, t) && Available(h'.peers[t])
      ensures Available(p') ==> Between(h'.users, h'.peers, ApplyPresence(PresenceView(h'.peers[t].log), f))
      ensures !Available(p') ==> Between(h'.users, h'.peers, PresenceView(h'.peers[t].log))
    {
      UsersDoNotCoordinate(h', t);
      assert t != s;
      ArrivalIsSeen(h, s, p', h', PresenceView(h.peers[t].log));
    }
    if Available(p') {
      AnnounceKeeps(h', f, env);
      AnnouncedPresence(h', f);
    }
  }

  // ---------- coordinators and tools attach ----------

  lemma CoordinatorSlots(h: Home, s: Session, p': Peer, h': Home)
    requires SlotsOK(h) && h.connections <= h.peers.Keys && s !in h.peers
    requires p'.role == Coordinator
    requires p'.generation == (if p'.name in h.slots then h.slots[p'.name].generation else 0) + 1
    requires h' == h.(peers := h.peers[s := p'], connections := h.connections + {s},
                      slots := h.slots[p'.name := Slot(p'.generation, Some(s), false, None)])
    ensures SlotsOK(h')
  {
    forall name | name in h'.slots
      ensures Linked(name, h'.slots[name], h'.peers, h'.connections)
      ensures SlotOK(h'.slots[name], name in h'.catalog.configs)
    {
      if name != p'.name {
        assert Linked(name, h.slots[name], h.peers, h.connections);
      }
    }
  }

  /** A coordinator starts from the sessions present; the other coordinators keep their picture. */
  lemma CoordinatorPresence(h: Home, s: Session, p': Peer, h': Home)
    requires h.users <= h.peers.Keys && s !in h.peers && Presence(h)
    requires h'.users == h.users && h'.peers == h.peers[s := p']
    requires h'.slots == h.slots[p'.name := Slot(p'.generation, Some(s), false, None)]
    requires p'.bootstrapped ==> p'.log == [Welcome, PresenceSnapshot(SessionsOf(h))]
    ensures Presence(h')
  {
    forall t | t in h'.peers && IsCurrent(h'.slots, t) && Available(h'.peers[t])
      ensures Between(h'.users, h'.peers, PresenceView(h'.peers[t].log))
    {
      if t == s {
        ReplayOneMore([Welcome], PresenceSnapshot(SessionsOf(h)));
        assert [Welcome] + [PresenceSnapshot(SessionsOf(h))] == p'.log;
      } else {
        assert IsCurrent(h.slots, t);
      }
    }
  }

  lemma JoinedMembers(h: Home, s: Session, p': Peer, h': Home, limits: Limits)
    requires Membership(h) && PeersOK(h.peers) && Subscriptions(h, limits) && s !in h.peers
    requires p'.role != User && PeerOK(p')
    requires h' == h.(peers := h.peers[s := p'], connections := h.connections + {s}, slots := h'.slots)
    ensures Membership(h') && PeersOK(h'.peers) && Subscriptions(h', limits) && SessionsOf(h') == SessionsOf(h)
    ensures InStep(h) ==> InStep(h')
  {
  }

  /** A connection that is not a user joins: nothing the users see changes. */
  lemma JoinedKeeps(h: Home, s: Session, p': Peer, h': Home, env: Env)
    requires Settled(h, env) && s !in h.peers
    requires p'.role != User && PeerOK(p') && p'.stage == None
    requires h' == h.(peers := h.peers[s := p'], connections := h.connections + {s}, slots := h'.slots)
    requires SlotsOK(h') && StagesAgree(h') && |h'.slots| <= env.limits.coordinators
    ensures Settled(h', env)
    ensures InStep(h) ==> InStep(h')
  {
    NewcomerStages(h, s, p', h');
    JoinedMembers(h, s, p', h', env.limits);
  }

  /** A coordinator whose bootstrap is over, one way or the other, is in its slot. */
  lemma SeatedKeeps(h: Home, s: Session, p': Peer, h': Home, env: Env)
    requires Inv(h, env) && s !in h.peers
    requires p'.role == Coordinator && PeerOK(p') && p'.stage == None
    requires p'.generation == (if p'.name in h.slots then h.slots[p'.name].generation else 0) + 1
    requires p'.bootstrapped ==> p'.log == [Welcome, PresenceSnapshot(SessionsOf(h))]
    requires p'.name in h.slots || |h.slots| < env.limits.coordinators
    requires h' == h.(peers := h.peers[s := p'], connections := h.connections + {s},
                      slots := h.slots[p'.name := Slot(p'.generation, Some(s), false, None)])
    ensures Inv(h', env)
    ensures InStep(h) ==> InStep(h')
  {
    CoordinatorSlots(h, s, p', h');
    NewcomerAgreement(h, s, p', h');
    CoordinatorPresence(h, s, p', h');
    SlotCount(h.slots, p'.name, h'.slots[p'.name]);
    JoinedKeeps(h, s, p', h', env);
  }

  /** What an admitted coordinator finds: the next generation of its slot, and WELCOME with a snapshot if its bootstrap went through. */
  lemma CoordinatorSeat(h: Home, s: Session, p: Peer, leaseValid: bool, limits: Limits) returns (p': Peer, h': Home)
    requires h.users <= h.peers.Keys && Newcomer(p) && p.role == Coordinator
    requires p.name in h.slots || |h.slots| < limits.coordinators
    ensures h' == AttachCoordinator(h, s, p, leaseValid, limits).0
    ensures p'.role == Coordinator && PeerOK(p') && p'.stage == None && p'.name == p.name
    ensures p'.generation == (if p'.name in h.slots then h.slots[p'.name].generation else 0) + 1
    ensures p'.bootstrapped ==> p'.log == [Welcome, PresenceSnapshot(SessionsOf(h))]
    ensures h' == h.(peers := h.peers[s := p'], connections := h.connections + {s},
                     slots := h.slots[p'.name := Slot(p'.generation, Some(s), false, None)])
  {
    var start := p.(generation := (if p.name in h.slots then h.slots[p.name].generation else 0) + 1);
    var fs := [PresenceSnapshot(SessionsOf(h))];
    assert [Welcome] + fs == [Welcome, PresenceSnapshot(SessionsOf(h))];
    BootstrapSends(start, fs, leaseValid);
    p' := Bootstrapped(EnqueueAll(start, [Welcome] + fs), leaseValid);
    h' := AttachCoordinator(h, s, p, leaseValid, limits).0;
  }

  lemma AttachCoordinatorKeeps(h: Home, s: Session, p: Peer, leaseValid: bool, env: Env)
    requires Inv(h, env) && EnvOK(env)
    requires s !in h.peers && Newcomer(p) && p.role == Coordinator
    ensures Inv(AttachCoordinator(h, s, p, leaseValid, env.limits).0, env)
    ensures InStep(h) ==> InStep(AttachCoordinator(h, s, p, leaseValid, env.limits).0)
  {
    if p.name in h.slots || |h.slots| < env.limits.coordinators {
      var p', h' := CoordinatorSeat(h, s, p, leaseValid, env.limits);
      SeatedKeeps(h, s, p', h', env);
    }
  }

  lemma SlotCount(slots: map<string, Slot>, name: string, slot: Slot)
    ensures |slots[name := slot]| == if name in slots then |slots| else |slots| + 1
  {
    var after := slots[name := slot];
    assert after.Keys == slots.Keys + {name};
    assert |after| == |after.Keys| && |slots| == |slots.Keys|;
  }

  lemma AttachCliKeeps(h: Home, s: Session, p: Peer, leaseValid: bool, env: Env)
    requires Inv(h, env)
    requires s !in h.peers && Newcomer(p) && p.role == Cli
    ensures Inv(AttachCli(h, s, p, leaseValid).0, env)
    ensures InStep(h) ==> InStep(AttachCli(h, s, p, leaseValid).0)
  {
    var p' := Bootstrapped(EnqueueAll(p, [Welcome]), leaseValid);
    var h' := AttachCli(h, s, p, leaseValid).0;
    assert [Welcome] + [] == [Welcome];
    BootstrapSends(p, [], leaseValid);
    NewcomerSlots(h, s, p', h');
    NewcomerAgreement(h, s, p', h');
    JoinedKeeps(h, s, p', h', env);
    OutsiderPresence(h, s, p', h');
  }

  lemma OutsiderPresence(h: Home, s: Session, p': Peer, h': Home)
    requires Membership(h) && SlotsOK(h) && Presence(h) && s !in h.peers
    requires h'.peers == h.peers[s := p'] && h'.users == h.users && h'.slots == h.slots
    ensures Presence(h')
  {
    forall t | t in h'.peers && IsCurrent(h'.slots, t) && Available(h'.peers[t])
      ensures Between(h'.users, h'.peers, PresenceView(h'.peers[t].log))
    {
      UsersDoNotCoordinate(h, t);
    }
  }

  lemma AttachKeeps(h: Home, s: Session, p: Peer, leaseValid: bool, env: Env)
    requires Inv(h, env) && EnvOK(env)
    requires s !in h.peers && Newcomer(p)
    ensures Inv(Attach(h, s, p, leaseValid, env.limits, env.enc).0, env)
    ensures InStep(h) ==> InStep(Attach(h, s, p, leaseValid, env.limits, env.enc).0)
  {
    match p.role
    case User => AttachUserKeeps(h, s, p, leaseValid, env);
    case Coordinator => AttachCoordinatorKeeps(h, s, p, leaseValid, env);
    case Cli => AttachCliKeeps(h, s, p, leaseValid, env);
  }

  // ---------- detach ----------

  /** A connection leaves; slots and users may lose it. */
  lemma LeftKeeps(h: Home, s: Session, h': Home, env: Env)
    requires Settled(h, env) && EnvOK(env) && s in h.peers
    requires h' == h.(peers := h.peers[s := h.peers[s].(stage := None)], connections := h.connections - {s},
                      users := h'.users, slots := h'.slots)
    requires h'.users == (if h.peers[s].role == User then h.users - {s} else h.users)
    requires SlotsOK(h') && |h'.slots| <= |h.slots|
    requires forall name :: name in h'.slots && h'.slots[name].connection.Some? ==> name in h.slots && h'.slots[name] == h.slots[name]
    ensures Settled(h', env)
    ensures InStep(h) ==> InStep(h')
  {
    var p' := h.peers[s].(stage := None);
    StagedStay(h.peers, s, p', Path);
    StagedStay(h.peers, s, p', Topic);
    StagesKept(Path, h.peers, h'.peers, h.catalog.paths, h.nextPath, h.nextPath);
    StagesKept(Topic, h.peers, h'.peers, h.catalog.topics, h.nextTopic, h.nextTopic);
    LeftAgreement(h, s, h');
    LeftSessions(h, s, h', env);
    SubsetSize(h'.users, h.users);
    LeftMembership(h, s, h', env.limits);
  }

  lemma LeftAgreement(h: Home, s: Session, h': Home)
    requires StagesAgree(h) && s in h.peers && h'.catalog == h.catalog
    requires h'.peers == h.peers[s := h.peers[s].(stage := None)]
    requires forall name :: name in h'.slots && h'.slots[name].connection.Some? ==> name in h.slots && h'.slots[name] == h.slots[name]
    ensures StagesAgree(h')
  {
    forall t | t in h'.peers && Current(h', t) ensures StageAgrees(h'.catalog, h'.peers[t].name, h'.peers[t]) {
      assert Current(h, t);
    }
  }

  lemma LeftSessions(h: Home, s: Session, h': Home, env: Env)
    requires EnvOK(env) && h.users <= h.peers.Keys && Encodes(h, env.enc) && s in h.peers
    requires h'.users <= h.users && h'.peers == h.peers[s := h.peers[s].(stage := None)] && h'.catalog == h.catalog
    ensures Encodes(h', env.enc)
  {
    assert SessionsOf(h') <= SessionsOf(h);
    assert Within(PresenceSnapshot(SessionsOf(h')), PresenceSnapshot(SessionsOf(h)));
  }

  lemma LeftMembership(h: Home, s: Session, h': Home, limits: Limits)
    requires Membership(h) && Subscriptions(h, limits) && s in h.peers && h'.catalog == h.catalog
    requires h'.peers == h.peers[s := h.peers[s].(stage := None)] && h'.connections == h.connections - {s}
    requires h'.users == (if h.peers[s].role == User then h.users - {s} else h.users)
    ensures Membership(h') && Subscriptions(h', limits)
  {
  }

  lemma UnlinkedSlots(h: Home, s: Session, h': Home)
    requires SlotsOK(h) && s in h.peers && !IsCurrent(h.slots, s)
    requires h'.slots == h.slots && h'.catalog == h.catalog && h'.connections == h.connections - {s}
    requires h'.peers == h.peers[s := h.peers[s].(stage := None)]
    ensures SlotsOK(h')
  {
    forall name | name in h.slots ensures Linked(name, h.slots[name], h'.peers, h'.connections) {
      assert Linked(name, h.slots[name], h.peers, h.connections);
    }
  }

  lemma NotCurrentNotLinked(h: Home, s: Session)
    requires SlotsOK(h) && s in h.peers && !Current(h, s)
    ensures !IsCurrent(h.slots, s)
  {
    forall name | name in h.slots ensures h.slots[name].connection != Some(s) {
      assert Linked(name, h.slots[name], h.peers, h.connections);
    }
  }

  lemma NotCurrentNotLinkedByRole(h: Home, s: Session)
    requires SlotsOK(h) && s in h.peers && h.peers[s].role != Coordinator
    ensures !IsCurrent(h.slots, s)
  {
    forall name | name in h.slots ensures h.slots[name].connection != Some(s) {
      assert Linked(name, h.slots[name], h.peers, h.connections);
    }
  }

  /** The slot of a departed coordinator is dropped when nothing was ever declared, and else kept for the grace time. */
  lemma UnlinkedSlot(h: Home, s: Session, h': Home)
    requires SlotsOK(h) && s in h.peers && Current(h, s)
    requires h'.catalog == h.catalog && h'.connections == h.connections - {s}
    requires h'.peers == h.peers[s := h.peers[s].(stage := None)]
    requires var name := h.peers[s].name;
             || (name !in h.catalog.configs && h'.slots == h.slots - {name})
             || h'.slots == h.slots[name := h.slots[name].(connection := None, ready := false, grace := Some(h.slots[name].generation))]
    ensures SlotsOK(h')
  {
    forall name | name in h'.slots
      ensures Linked(name, h'.slots[name], h'.peers, h'.connections)
      ensures SlotOK(h'.slots[name], name in h'.catalog.configs)
    {
      if name != h.peers[s].name {
        assert Linked(name, h.slots[name], h.peers, h.connections);
      }
    }
  }

  lemma FewerCoordinators(h: Home, s: Session, h': Home)
    requires h.users <= h.peers.Keys && Presence(h) && s in h.peers
    requires h'.users == h.users && h'.peers == h.peers[s := h.peers[s].(stage := None)]
    requires forall name :: name in h'.slots && h'.slots[name].connection.Some? ==> name in h.slots && h'.slots[name] == h.slots[name]
    ensures Presence(h')
  {
    forall t | t in h'.peers && IsCurrent(h'.slots, t) && Available(h'.peers[t])
      ensures Between(h'.users, h'.peers, PresenceView(h'.peers[t].log))
    {
      var name :| name in h'.slots && h'.slots[name].connection == Some(t);
      assert IsCurrent(h.slots, t);
      BetweenKept(h.users, h.peers, h'.peers, PresenceView(h.peers[t].log));
    }
  }

  lemma DepartureIsSeen(h: Home, s: Session, h': Home, view: set<(int, string)>)
    requires h.users <= h.peers.Keys && s in h.peers
    requires h'.peers == h.peers[s := h.peers[s].(stage := None)] && h'.users == h.users - {s}
    requires Between(h.users, h.peers, view)
    ensures Between(h'.users, h'.peers, ApplyPresence(view, PresenceChange(s, h.peers[s].user, 2)))
    ensures !h.peers[s].bootstrapped ==> Between(h'.users, h'.peers, view)
  {
  }

  lemma UserLeaves(h: Home, s: Session, h': Home, env: Env)
    requires Settled(h', env) && h.users <= h.peers.Keys && Presence(h) && s in h.peers
    requires h'.peers == h.peers[s := h.peers[s].(stage := None)] && h'.users == h.users - {s} && h'.slots == h.slots
    ensures var after := if h.peers[s].bootstrapped then Announce(h', PresenceChange(s, h.peers[s].user, 2)) else h';
            Inv(after, env) && (InStep(h') ==> InStep(after))
  {
    var f := PresenceChange(s, h.peers[s].user, 2);
    forall t | t in h'.peers && IsCurrent(h'.slots, t) && Available(h'.peers[t])
      ensures Between(h'.users, h'.peers, ApplyPresence(PresenceView(h'.peers[t].log), f))
      ensures !h.peers[s].bootstrapped ==> Between(h'.users, h'.peers, PresenceView(h'.peers[t].log))
    {
      DepartureIsSeen(h, s, h', PresenceView(h.peers[t].log));
    }
    if h.peers[s].bootstrapped {
      AnnounceKeeps(h', f, env);
      AnnouncedPresence(h', f);
    }
  }

  lemma DetachCoordinatorKeeps(h: Home, s: Session, env: Env)
    requires Inv(h, env) && EnvOK(env) && s in h.connections && h.peers[s].role == Coordinator
    ensures Inv(Detach(h, s), env)
    ensures InStep(h) ==> InStep(Detach(h, s))
  {
    var h' := Detach(h, s);
    if !Current(h, s) {
      NotCurrentNotLinked(h, s);
      UnlinkedSlots(h, s, h');
    } else {
      UnlinkedSlot(h, s, h');
      SubsetSize(h'.slots.Keys, h.slots.Keys);
      assert |h'.slots| == |h'.slots.Keys| && |h.slots| == |h.slots.Keys|;
    }
    LeftKeeps(h, s, h', env);
    FewerCoordinators(h, s, h');
  }

  lemma DetachKeeps(h: Home, s: Session, env: Env)
    requires Inv(h, env) && EnvOK(env) && s in h.peers
    ensures Inv(Detach(h, s), env)
    ensures InStep(h) ==> InStep(Detach(h, s))
  {
    if s in h.connections {
      if h.peers[s].role == Coordinator {
        DetachCoordinatorKeeps(h, s, env);
      } else {
        NotCurrentNotLinkedByRole(h, s);
        DetachOtherKeeps(h, s, env);
      }
    }
  }

  lemma DetachOtherKeeps(h: Home, s: Session, env: Env)
    requires Inv(h, env) && EnvOK(env) && s in h.connections && h.peers[s].role != Coordinator
    requires !IsCurrent(h.slots, s)
    ensures Inv(Detach(h, s), env)
    ensures InStep(h) ==> InStep(Detach(h, s))
  {
    var left := h.(peers := h.peers[s := h.peers[s].(stage := None)], connections := h.connections - {s});
    if h.peers[s].role == User {
      var h' := left.(users := h.users - {s});
      UnlinkedSlots(h, s, h');
      LeftKeeps(h, s, h', env);
      UserLeaves(h, s, h', env);
    } else {
      UnlinkedSlots(h, s, left);
      LeftKeeps(h, s, left, env);
      FewerCoordinators(h, s, left);
    }
  }
}
