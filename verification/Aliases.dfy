/** When the two directions of a dictionary part, and when a user follows a topic that has no owner. */
module Aliases {
  import opened Basics
  import opened Catalogs
  import opened CatalogProofs
  import opened Views
  import opened HomeModel
  import opened Replicas
  import opened Invariants
  import opened CommitSteps
  import opened ActivationSteps
  import opened HomeTheorems
  import opened HomeHistory
  import opened Acknowledgements
  import opened Events

  /** Every bound ID is the one its name leads to; the other direction always holds. */
  ghost predicate Inverses(names: Names) {
    forall id :: id in names.byID ==> names.byID[id] in names.byName && names.byName[names.byID[id]] == id
  }

  /** Some staged name is bound to another ID by now. */
  ghost predicate Rebinds(names: Names, ids: map<string, int>) {
    exists name :: name in ids && name in names.byName && ids[name] != names.byName[name]
  }

  /** Committing a stage keeps the two directions inverse exactly when every staged ID of a bound name is its bound one. */
  lemma InversesStayIff(names: Names, next: int, ids: map<string, int>)
    requires NamesInv(names, next) && StagedInv(names, next, ids) && Inverses(names)
    ensures Inverses(Bind(names, ids)) <==> !Rebinds(names, ids)
  {
    InverseLeadsBack(ids);
    var bound := Bind(names, ids);
    if Rebinds(names, ids) {
      var name :| name in ids && name in names.byName && ids[name] != names.byName[name];
      var old' := names.byName[name];
      assert old' in bound.byID && bound.byID[old'] == name;
      assert bound.byName[name] == ids[name];
    } else {
      forall id | id in bound.byID ensures bound.byID[id] in bound.byName && bound.byName[bound.byID[id]] == id {
      }
    }
  }

  /** Function IDs are bound in the step that reserves them, so their dictionary stays inverse. */
  lemma ReservedNeverRebinds(names: Names, next: int, wanted: set<string>, ids: map<string, int>)
    requires NamesInv(names, next) && Reserves(names, next, wanted, ids)
    ensures !Rebinds(names, ids)
  {
  }

  function Dictionary(kind: Kind, c: Catalog): Names {
    match kind
    case Path => c.paths
    case Topic => c.topics
    case Function => c.functions
  }

  /**
   In a home, for paths, topics and functions: exactly an activation that stages a bound name under another
   ID leaves an alias behind. Functions are never staged.
   */
  lemma StepKeepsInversesIff(kind: Kind, h: Home, m: Move, env: Env)
    requires Inv(h, env) && Enabled(h, m.actor, m.deed) && Inverses(Dictionary(kind, h.catalog))
    ensures Inverses(Dictionary(kind, Step(h, m.actor, m.deed, env).catalog))
            <==> !(Activates(h, m, env, m.actor) && Rebinds(Dictionary(kind, h.catalog), StagedIDs(kind, h.peers[m.actor])))
  {
    if m.deed.LSyncFunctions? {
      DeclarationKeepsInversesIff(kind, h, m.actor, m.deed.functions, m.deed.functionIDs, env);
    } else {
      OthersKeepNames(h, m.actor, m.deed, env);
    }
  }

  lemma DeclarationKeepsInversesIff(kind: Kind, h: Home, s: Session, functions: set<string>, ids: map<string, int>, env: Env)
    requires Inv(h, env) && s in h.peers && Inverses(Dictionary(kind, h.catalog))
    requires Reserves(h.catalog.functions, h.nextFunction, functions, ids)
    ensures var (h', outcome) := SyncFunctions(h, s, functions, ids, env.limits, env.enc);
            Inverses(Dictionary(kind, h'.catalog))
            <==> !(outcome == Ok && Rebinds(Dictionary(kind, h.catalog), StagedIDs(kind, h.peers[s])))
  {
    if SyncFunctions(h, s, functions, ids, env.limits, env.enc).1 == Ok {
      CommittedNames(h, s, functions, ids, env);
      match kind
      case Path => InversesStayIff(h.catalog.paths, h.nextPath, StagedIDs(Path, h.peers[s]));
      case Topic => InversesStayIff(h.catalog.topics, h.nextTopic, StagedIDs(Topic, h.peers[s]));
      case Function =>
        ReserveKeeps(h.catalog.functions, h.nextFunction, functions, ids, map[]);
        ReservedNeverRebinds(h.catalog.functions, h.nextFunction, functions, ids);
        InversesStayIff(h.catalog.functions, NextAfter(h.catalog.functions, h.nextFunction, ids), ids);
    } else {
      RefusedActivationChangesNothing(h, s, functions, ids, env);
    }
  }

  lemma CommittedNames(h: Home, s: Session, functions: set<string>, ids: map<string, int>, env: Env)
    requires s in h.peers && h.users <= h.peers.Keys
    requires SyncFunctions(h, s, functions, ids, env.limits, env.enc).1 == Ok
    ensures var c := SyncFunctions(h, s, functions, ids, env.limits, env.enc).0.catalog;
            && c.paths == Bind(h.catalog.paths, StagedIDs(Path, h.peers[s]))
            && c.topics == Bind(h.catalog.topics, StagedIDs(Topic, h.peers[s]))
            && c.functions == Bind(h.catalog.functions, ids)
  {
  }

  // ---------- events that a follower misses ----------

  /** An available user follows the topic of an ID, under that ID or another, and may. */
  ghost predicate FollowsTopic(h: Home, t: Session, id: int) {
    && t in h.users && t in h.peers && Available(h.peers[t])
    && CanSubscribe(h.catalog.configs, h.peers[t].user, NameOf(h.catalog.topics.byID, id))
    && exists other :: other in h.peers[t].subscriptions && NameOf(h.catalog.topics.byID, other) == NameOf(h.catalog.topics.byID, id)
  }

  /**
   An accepted event for the followers of its topic reaches a follower exactly when that one has subscribed
   to the very ID of the event. No follower misses it while the topic dictionary has no alias.
   */
  lemma FollowerIsReachedIff(h: Home, s: Session, id: int, routable: bool, t: Session)
    requires s in h.peers && h.peers[s].role == Coordinator && Events.Route(h, s, id, Default, routable).1 == Ok
    requires FollowsTopic(h, t, id)
    ensures t in Events.Route(h, s, id, Default, routable).0 <==> id in h.peers[t].subscriptions
    ensures Inverses(h.catalog.topics) ==> t in Events.Route(h, s, id, Default, routable).0
  {
    var other :| other in h.peers[t].subscriptions && NameOf(h.catalog.topics.byID, other) == NameOf(h.catalog.topics.byID, id);
    assert id in h.catalog.topics.byID && other in h.catalog.topics.byID;
  }

  // ---------- topics that are followed without an owner ----------

  predicate TopicOwned(c: Catalog, id: int) {
    NameOf(c.topics.byID, id) in c.topicOwners
  }

  ghost predicate FollowsOwned(c: Catalog, p: Peer) {
    forall id :: id in p.subscriptions ==> TopicOwned(c, id)
  }

  /** Every topic a user follows has an owner. */
  ghost predicate OwnedSubscriptions(h: Home) {
    forall s :: s in h.users && s in h.peers ==> FollowsOwned(h.catalog, h.peers[s])
  }

  /** The checks of a SUBSCRIBE pass: nothing asks whether a topic has an owner. */
  predicate Subscribable(h: Home, s: Session, ids: seq<int>, limits: Limits)
    requires s in h.peers
  {
    var p := h.peers[s];
    && p.role == User && Enrolled(h.catalog.configs, p.user)
    && (forall i :: 0 <= i < |ids| ==> MayFollow(h.catalog, p.user, ids[i]))
    && |p.subscriptions| + NewIDs(p.subscriptions, ids) <= limits.subscriptions
  }

  /** A user subscribes to a topic that has no owner. */
  predicate FollowsOrphan(h: Home, s: Session, l: Label, limits: Limits) {
    && l.LSubscribe? && s in h.users && s in h.peers && Subscribable(h, s, l.ids, limits)
    && exists i :: 0 <= i < |l.ids| && !TopicOwned(h.catalog, l.ids[i])
  }

  lemma SubscribeFollows(h: Home, s: Session, ids: seq<int>, limits: Limits)
    requires s in h.peers
    ensures var h' := Subscribe(h, s, ids, limits).0;
            && h'.peers.Keys == h.peers.Keys && (forall t :: t in h.peers && t != s ==> h'.peers[t] == h.peers[t])
            && h'.peers[s].subscriptions
               == h.peers[s].subscriptions + (if Subscribable(h, s, ids, limits) then (set id | id in ids) else {})
  {
  }

  /** After an accepted SUBSCRIBE a user follows owned topics only, exactly when it did before and asked for no other. */
  lemma SubscribeKeepsOwnedIff(h: Home, s: Session, ids: seq<int>, limits: Limits)
    requires s in h.peers && Subscribable(h, s, ids, limits)
    ensures var h' := Subscribe(h, s, ids, limits).0;
            && s in h'.peers
            && (FollowsOwned(h'.catalog, h'.peers[s])
                <==> FollowsOwned(h.catalog, h.peers[s]) && forall i :: 0 <= i < |ids| ==> TopicOwned(h.catalog, ids[i]))
  {
    var h' := Subscribe(h, s, ids, limits).0;
    SubscribeFollows(h, s, ids, limits);
    assert h'.catalog == h.catalog;
    forall i | 0 <= i < |ids| ensures ids[i] in h'.peers[s].subscriptions {
    }
  }

  /** Nobody follows more than before, and newcomers follow nothing. */
  ghost predicate FollowsNoMore(h: Home, h': Home) {
    forall t :: t in h'.peers ==> h'.peers[t].subscriptions <= if t in h.peers then h.peers[t].subscriptions else {}
  }

  ghost predicate SameTopics(h: Home, h': Home) {
    h'.catalog.topics == h.catalog.topics && h'.catalog.topicOwners == h.catalog.topicOwners
  }

  lemma FewerStayOwned(h: Home, h': Home)
    requires OwnedSubscriptions(h) && Membership(h) && Membership(h') && FollowsNoMore(h, h') && SameTopics(h, h')
    requires forall s :: s in h'.users && s !in h.users ==> s !in h.peers
    ensures OwnedSubscriptions(h')
  {
    forall s, id | s in h'.users && s in h'.peers && id in h'.peers[s].subscriptions ensures TopicOwned(h'.catalog, id) {
      assert s in h.users && FollowsOwned(h.catalog, h.peers[s]);
    }
  }

  lemma RefreshedOwned(h: Home)
    requires h.users <= h.peers.Keys
    ensures OwnedSubscriptions(RefreshUsers(h))
  {
    forall s | s in h.users ensures FollowsOwned(h.catalog, RefreshUsers(h).peers[s]) {
      EnqueueAllFollows(Pruned(h.catalog, h.peers[s]).(lastStateRevision := h.catalog.revision), RecoveryFrames(h.catalog, h.peers[s].user));
    }
  }

  lemma {:induction false} EnqueueAllFollows(p: Peer, fs: seq<Frame>)
    ensures EnqueueAll(p, fs).subscriptions == p.subscriptions
    decreases |fs|
  {
    if fs != [] {
      EnqueueAllFollows(Enqueue(p, fs[0]), fs[1..]);
    }
  }

  lemma JoinedFollows(h: Home, s: Session, p': Peer, h': Home)
    requires s !in h.peers && p'.subscriptions == {} && h'.peers == h.peers[s := p']
    ensures FollowsNoMore(h, h')
  {
  }

  lemma AnnouncedFollows(h: Home, h': Home, f: Frame)
    requires FollowsNoMore(h, h')
    ensures FollowsNoMore(h, Announce(h', f))
  {
  }

  lemma AttachUserFollows(h: Home, s: Session, p: Peer, leaseValid: bool, env: Env)
    requires s !in h.peers && p.subscriptions == {} && h.users <= h.peers.Keys
    ensures var h' := AttachUser(h, s, p, leaseValid, env.limits, env.enc).0;
            FollowsNoMore(h, h') && SameTopics(h, h') && h'.users <= h.users + {s}
  {
    var frames := [Welcome] + RecoveryFrames(h.catalog, p.user);
    EnqueueAllFollows(p.(lastStateRevision := h.catalog.revision), frames);
    var p' := Bootstrapped(EnqueueAll(p.(lastStateRevision := h.catalog.revision), frames), leaseValid);
    var h' := h.(peers := h.peers[s := p'], connections := h.connections + {s}, users := h.users + {s});
    JoinedFollows(h, s, p', h');
    AnnouncedFollows(h, h', PresenceChange(s, p.user, 1));
  }

  lemma AttachCoordinatorFollows(h: Home, s: Session, p: Peer, leaseValid: bool, env: Env)
    requires s !in h.peers && p.subscriptions == {} && h.users <= h.peers.Keys
    ensures var h' := AttachCoordinator(h, s, p, leaseValid, env.limits).0;
            FollowsNoMore(h, h') && SameTopics(h, h') && h'.users <= h.users + {s}
  {
    var generation := (if p.name in h.slots then h.slots[p.name].generation else 0) + 1;
    EnqueueAllFollows(p.(generation := generation), [Welcome, PresenceSnapshot(SessionsOf(h))]);
  }

  lemma AttachFollows(h: Home, s: Session, p: Peer, leaseValid: bool, env: Env)
    requires s !in h.peers && p.subscriptions == {} && h.users <= h.peers.Keys
    ensures var h' := Attach(h, s, p, leaseValid, env.limits, env.enc).0;
            FollowsNoMore(h, h') && SameTopics(h, h') && h'.users <= h.users + {s}
  {
    match p.role
    case User => AttachUserFollows(h, s, p, leaseValid, env);
    case Coordinator => AttachCoordinatorFollows(h, s, p, leaseValid, env);
    case Cli => EnqueueAllFollows(p, [Welcome]);
  }

  lemma DetachFollows(h: Home, s: Session)
    requires s in h.peers
    ensures var h' := Detach(h, s); FollowsNoMore(h, h') && SameTopics(h, h') && h'.users <= h.users
  {
  }

  lemma SetStateFollows(h: Home, s: Session, epoch: int, ms: seq<Mutation>, env: Env)
    requires s in h.peers && h.users <= h.peers.Keys
    ensures var h' := SetState(h, s, epoch, ms, env.enc).0; FollowsNoMore(h, h') && SameTopics(h, h') && h'.users == h.users
  {
  }

  lemma RefusedFollows(h: Home, s: Session, functions: set<string>, ids: map<string, int>, env: Env)
    requires s in h.peers && h.users <= h.peers.Keys
    requires SyncFunctions(h, s, functions, ids, env.limits, env.enc).1 != Ok
    ensures var h' := SyncFunctions(h, s, functions, ids, env.limits, env.enc).0;
            FollowsNoMore(h, h') && SameTopics(h, h') && h'.users == h.users
  {
    RefusedActivationChangesNothing(h, s, functions, ids, env);
    RefusedPeer(h, s, functions, ids, env);
  }

  lemma RefusedPeer(h: Home, s: Session, functions: set<string>, ids: map<string, int>, env: Env)
    requires s in h.peers && h.users <= h.peers.Keys
    requires SyncFunctions(h, s, functions, ids, env.limits, env.enc).1 != Ok
    ensures var h' := SyncFunctions(h, s, functions, ids, env.limits, env.enc).0;
            && h'.peers.Keys == h.peers.Keys && h'.peers[s].subscriptions == h.peers[s].subscriptions
            && h'.users == h.users
  {
  }

  lemma CommitsOwned(h: Home, s: Session, functions: set<string>, ids: map<string, int>, env: Env)
    requires s in h.peers && h.users <= h.peers.Keys
    requires SyncFunctions(h, s, functions, ids, env.limits, env.enc).1 == Ok
    ensures OwnedSubscriptions(SyncFunctions(h, s, functions, ids, env.limits, env.enc).0)
  {
    var p := h.peers[s];
    var burnt := h.(nextFunction := NextAfter(h.catalog.functions, h.nextFunction, ids));
    RefreshedOwned(Committed(SetPeer(burnt, s, Enqueue(p, FunctionSyncOK(ids)).(stage := None)), p.name,
                             DeclarationOf(p.stage.value, functions, ids)));
  }

  lemma ExpiryOwned(h: Home, name: string, generation: int)
    requires h.users <= h.peers.Keys && OwnedSubscriptions(h)
    ensures OwnedSubscriptions(Expire(h, name, generation))
  {
    if name in h.catalog.configs {
      RefreshedOwned(h.(slots := h.slots - {name}, catalog := Remove(h.catalog, name), policy := h.policy + 1));
    }
  }

  lemma ResyncFollows(h: Home, s: Session)
    requires s in h.peers
    ensures FollowsNoMore(h, Resync(h, s).0)
  {
    var p := h.peers[s].(lastStateRevision := h.catalog.revision);
    EnqueueAllFollows(p, [StateDict(PathEntries(h.catalog, p.user)), StateSnapshot(h.catalog.revision, StateEntries(h.catalog, p.user))]);
  }

  lemma PlainFollows(h: Home, s: Session, l: Label, env: Env)
    requires h.users <= h.peers.Keys && Enabled(h, s, l) && Plain(l) && !l.LSubscribe?
    ensures FollowsNoMore(h, Step(h, s, l, env))
  {
    if l.LResync? {
      ResyncFollows(h, s);
    } else if IsSlice(l) {
      SliceTouchesOne(h, s, l, env);
    } else {
      ReplyFollows(h, s, l, env);
    }
  }

  lemma ReplyFollows(h: Home, s: Session, l: Label, env: Env)
    requires h.users <= h.peers.Keys && Enabled(h, s, l) && Plain(l) && !IsSlice(l) && !l.LResync? && !l.LSubscribe?
    ensures FollowsNoMore(h, Step(h, s, l, env))
  {
  }

  lemma QuietOwned(h: Home, s: Session, l: Label, env: Env)
    requires Membership(h) && OwnedSubscriptions(h) && Enabled(h, s, l)
    requires l.LAttach? || l.LDetach? || l.LSetState? || (Plain(l) && !l.LSubscribe?)
    requires Membership(Step(h, s, l, env))
    ensures OwnedSubscriptions(Step(h, s, l, env))
  {
    match l {
      case LAttach(p, leaseValid) => AttachFollows(h, s, p, leaseValid, env);
      case LDetach => DetachFollows(h, s);
      case LSetState(epoch, ms) => SetStateFollows(h, s, epoch, ms, env);
      case _ =>
        PlainFollows(h, s, l, env);
        PlainSteps(h, s, l, env);
    }
    FewerStayOwned(h, Step(h, s, l, env));
  }

  /** In a home: exactly a subscription to a topic without an owner makes a user follow one. */
  lemma StepKeepsOwnedIff(h: Home, s: Session, l: Label, env: Env)
    requires Inv(h, env) && EnvOK(env) && Enabled(h, s, l) && OwnedSubscriptions(h)
    ensures OwnedSubscriptions(Step(h, s, l, env)) <==> !FollowsOrphan(h, s, l, env.limits)
  {
    match l
    case LSyncFunctions(functions, ids) => DeclaredOwned(h, s, functions, ids, env);
    case LExpire(name, generation) => ExpiryOwned(h, name, generation);
    case LSubscribe(ids) => SubscribedOwned(h, s, ids, env.limits);
    case _ => QuietStepOwned(h, s, l, env);
  }

  lemma QuietStepOwned(h: Home, s: Session, l: Label, env: Env)
    requires Inv(h, env) && EnvOK(env) && Enabled(h, s, l) && OwnedSubscriptions(h)
    requires !l.LSyncFunctions? && !l.LExpire? && !l.LSubscribe?
    ensures OwnedSubscriptions(Step(h, s, l, env))
  {
    StepKeeps(h, s, l, env);
    QuietOwned(h, s, l, env);
  }

  lemma DeclaredOwned(h: Home, s: Session, functions: set<string>, ids: map<string, int>, env: Env)
    requires s in h.peers && Membership(h) && OwnedSubscriptions(h)
    ensures OwnedSubscriptions(SyncFunctions(h, s, functions, ids, env.limits, env.enc).0)
  {
    if SyncFunctions(h, s, functions, ids, env.limits, env.enc).1 == Ok {
      CommitsOwned(h, s, functions, ids, env);
    } else {
      RefusedFollows(h, s, functions, ids, env);
      var h' := SyncFunctions(h, s, functions, ids, env.limits, env.enc).0;
      forall t | t in h'.users && t in h'.peers ensures FollowsOwned(h'.catalog, h'.peers[t]) {
        assert FollowsOwned(h.catalog, h.peers[t]);
      }
    }
  }

  lemma SubscribedOwned(h: Home, s: Session, ids: seq<int>, limits: Limits)
    requires s in h.peers && OwnedSubscriptions(h)
    ensures OwnedSubscriptions(Subscribe(h, s, ids, limits).0) <==> !FollowsOrphan(h, s, LSubscribe(ids), limits)
  {
    var h' := Subscribe(h, s, ids, limits).0;
    assert h'.catalog == h.catalog && h'.users == h.users;
    SubscribeFollows(h, s, ids, limits);
    if Subscribable(h, s, ids, limits) && s in h.users {
      SubscribeKeepsOwnedIff(h, s, ids, limits);
    }
    forall t | t in h'.users && t in h'.peers && t != s ensures FollowsOwned(h'.catalog, h'.peers[t]) {
      assert FollowsOwned(h.catalog, h.peers[t]);
    }
  }
}
