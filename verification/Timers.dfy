/** The timers of a home over a run: which slot a grace timer can remove, and which stage a stage timer can drop. */
module Timers {
  import opened Basics
  import opened Catalogs
  import opened HomeModel
  import opened Replicas
  import opened Views
  import opened Invariants
  import opened HomeTheorems
  import opened HomeHistory

  // ---------- grace timers ----------

  /** A slot that stays never returns to an earlier generation, and without a connection it stays as it is. */
  ghost predicate SlotOnward(h: Home, h': Home, name: string) {
    name in h.slots && name in h'.slots ==>
      && h.slots[name].generation <= h'.slots[name].generation
      && (h.slots[name].connection.None? && h'.slots[name].generation == h.slots[name].generation ==> h'.slots[name].connection.None?)
  }

  lemma StepSlotOnward(h: Home, s: Session, l: Label, env: Env, name: string)
    requires h.users <= h.peers.Keys && Enabled(h, s, l)
    ensures SlotOnward(h, Step(h, s, l, env), name)
  {
    if Plain(l) {
      PlainSteps(h, s, l, env);
    }
  }

  lemma NextSlotOnward(hs: seq<Home>, env: Env, j: int, name: string)
    requires RunFromStart(hs, env) && 0 < j < |hs|
    ensures SlotOnward(hs[j - 1], hs[j], name)
  {
    assert StepsTo(hs, env, j);
    var s, l :| Enabled(hs[j - 1], s, l) && hs[j] == Step(hs[j - 1], s, l, env);
    StepSlotOnward(hs[j - 1], s, l, env, name);
  }

  predicate Abandoned(h: Home, name: string, generation: int) {
    name in h.slots && h.slots[name].connection.None? && h.slots[name].generation == generation
  }

  lemma {:induction false} AbandonedOrTaken(hs: seq<Home>, env: Env, i: int, j: int, name: string, generation: int)
    requires RunFromStart(hs, env) && 0 <= i <= j < |hs|
    requires Abandoned(hs[i], name, generation)
    requires forall k :: i <= k <= j ==> name in hs[k].slots
    ensures hs[j].slots[name].generation >= generation
    ensures hs[j].slots[name].generation == generation ==> forall k :: i <= k <= j ==> Abandoned(hs[k], name, generation)
  {
    if i < j {
      AbandonedOrTaken(hs, env, i, j - 1, name, generation);
      NextSlotOnward(hs, env, j, name);
    }
  }

  /** A slot comes into being with a connection. */
  lemma SlotsBeginTaken(h: Home, s: Session, l: Label, env: Env, name: string)
    requires h.users <= h.peers.Keys && Enabled(h, s, l) && name !in h.slots && name in Step(h, s, l, env).slots
    ensures Step(h, s, l, env).slots[name].connection.Some?
  {
    if Plain(l) {
      PlainSteps(h, s, l, env);
    }
  }

  predicate IsTaken(h: Home, name: string) {
    name in h.slots && h.slots[name].connection.Some?
  }

  ghost predicate TakenSince(hs: seq<Home>, i: int, j: int, name: string)
    requires 0 <= i <= j < |hs|
  {
    exists k :: i <= k <= j && IsTaken(hs[k], name)
  }

  ghost predicate DeletedSince(hs: seq<Home>, i: int, j: int, name: string)
    requires 0 <= i <= j < |hs|
  {
    exists k :: i <= k <= j && name !in hs[k].slots
  }

  lemma {:induction false} CreatedAgain(hs: seq<Home>, env: Env, k: int, j: int, name: string)
    requires RunFromStart(hs, env) && 0 <= k <= j < |hs| && name !in hs[k].slots && name in hs[j].slots
    ensures TakenSince(hs, k, j, name)
  {
    if name in hs[j - 1].slots {
      CreatedAgain(hs, env, k, j - 1, name);
    } else {
      assert StepsTo(hs, env, j);
      var s, l :| Enabled(hs[j - 1], s, l) && hs[j] == Step(hs[j - 1], s, l, env);
      SlotsBeginTaken(hs[j - 1], s, l, env, name);
      assert IsTaken(hs[j], name);
    }
  }

  /**
   A grace timer that was set for a generation of a slot, and fires at any later home of the run whether
   or not it was stopped. Of a slot that was never deleted it removes just that which nobody has connected
   to since; and it removes a slot somebody has connected to since exactly when the slot was deleted and
   created again in between, and is now once more without a connection in its generation.
   */
  lemma GraceTimersAreTheirOwn(hs: seq<Home>, env: Env, i: int, j: int, name: string, generation: int)
    requires EnvOK(env) && RunFromStart(hs, env) && 0 <= i <= j < |hs|
    requires name in hs[i].slots && hs[i].slots[name].grace == Some(generation)
    ensures var removes := name in hs[j].slots && name !in Expire(hs[j], name, generation).slots;
            && (removes && !DeletedSince(hs, i, j, name) <==> forall k :: i <= k <= j ==> Abandoned(hs[k], name, generation))
            && (removes && TakenSince(hs, i, j, name) <==> Abandoned(hs[j], name, generation) && DeletedSince(hs, i, j, name))
            && (!removes ==> Expire(hs[j], name, generation) == hs[j])
  {
    RunKeepsInvariant(hs, env, i);
    assert SlotOK(hs[i].slots[name], name in hs[i].catalog.configs);
    if Abandoned(hs[j], name, generation) {
      if DeletedSince(hs, i, j, name) {
        var k :| i <= k <= j && name !in hs[k].slots;
        CreatedAgain(hs, env, k, j, name);
      } else {
        AbandonedOrTaken(hs, env, i, j, name, generation);
      }
    }
  }

  // ---------- stage timers ----------

  predicate SameStage(a: Stage, b: Stage) {
    a.serial == b.serial && a.state == b.state && a.pathIDs == b.pathIDs
  }

  /** No stage is opened, and the open one is left as it is, or dropped. */
  predicate StagePasses(p: Peer, p': Peer) {
    p'.stageCount == p.stageCount && (p'.stage.Some? ==> p'.stage == p.stage)
  }

  ghost predicate StagesPass(h: Home, h': Home) {
    && h.peers.Keys <= h'.peers.Keys
    && (forall t :: t in h.peers ==> StagePasses(h.peers[t], h'.peers[t]))
    && (forall t :: t in h'.peers && t !in h.peers ==> h'.peers[t].stage.None?)
  }

  /** No stage is opened, and the open one goes on, perhaps by a slice, with its state, its IDs and its timer. */
  predicate StageGoesOn(p: Peer, p': Peer) {
    && p'.stageCount == p.stageCount
    && (p'.stage.Some? ==> p.stage.Some? && SameStage(p.stage.value, p'.stage.value) && p.stage.value.timer == p'.stage.value.timer)
  }

  ghost predicate StagesGoOn(h: Home, h': Home) {
    && h.peers.Keys <= h'.peers.Keys
    && (forall t :: t in h.peers ==> StageGoesOn(h.peers[t], h'.peers[t]))
    && (forall t :: t in h'.peers && t !in h.peers ==> h'.peers[t].stage.None?)
  }

  lemma {:induction false} EnqueueAllPasses(p: Peer, fs: seq<Frame>)
    ensures EnqueueAll(p, fs).stage == p.stage && EnqueueAll(p, fs).stageCount == p.stageCount
    decreases |fs|
  {
    if fs != [] {
      EnqueueAllPasses(Enqueue(p, fs[0]), fs[1..]);
    }
  }

  lemma RefreshPasses(h: Home, h': Home)
    requires StagesPass(h, h')
    ensures StagesPass(h, RefreshUsers(h'))
  {
    forall t | t in h'.peers
      ensures RefreshUsers(h').peers[t].stage == h'.peers[t].stage && RefreshUsers(h').peers[t].stageCount == h'.peers[t].stageCount
    {
      EnqueueAllPasses(Pruned(h'.catalog, h'.peers[t]).(lastStateRevision := h'.catalog.revision),
                       RecoveryFrames(h'.catalog, h'.peers[t].user));
    }
  }

  lemma AnnouncedStages(h: Home, f: Frame)
    ensures Announce(h, f).peers.Keys == h.peers.Keys
    ensures forall t :: t in h.peers ==>
              Announce(h, f).peers[t].stage == h.peers[t].stage && Announce(h, f).peers[t].stageCount == h.peers[t].stageCount
  {
  }

  lemma AnnouncePasses(h: Home, h': Home, f: Frame)
    requires StagesPass(h, h')
    ensures StagesPass(h, Announce(h', f))
  {
    AnnouncedStages(h', f);
  }

  lemma AttachUserPasses(h: Home, s: Session, p: Peer, leaseValid: bool, limits: Limits, enc: Frame -> bool)
    requires s !in h.peers && p.stage.None? && h.users <= h.peers.Keys
    ensures StagesPass(h, AttachUser(h, s, p, leaseValid, limits, enc).0)
  {
    var sent := EnqueueAll(p.(lastStateRevision := h.catalog.revision), [Welcome] + RecoveryFrames(h.catalog, p.user));
    var h' := h.(peers := h.peers[s := Bootstrapped(sent, leaseValid)], connections := h.connections + {s}, users := h.users + {s});
    EnqueueAllPasses(p.(lastStateRevision := h.catalog.revision), [Welcome] + RecoveryFrames(h.catalog, p.user));
    assert StagesPass(h, h');
    AnnouncePasses(h, h', PresenceChange(s, p.user, 1));
  }

  lemma AttachOtherPasses(h: Home, s: Session, p: Peer, leaseValid: bool, limits: Limits)
    requires s !in h.peers && p.stage.None? && h.users <= h.peers.Keys
    ensures StagesPass(h, AttachCoordinator(h, s, p, leaseValid, limits).0)
    ensures StagesPass(h, AttachCli(h, s, p, leaseValid).0)
  {
    var generation := (if p.name in h.slots then h.slots[p.name].generation else 0) + 1;
    EnqueueAllPasses(p.(generation := generation), [Welcome, PresenceSnapshot(SessionsOf(h))]);
    EnqueueAllPasses(p, [Welcome]);
  }

  lemma AttachPasses(h: Home, s: Session, p: Peer, leaseValid: bool, env: Env)
    requires s !in h.peers && p.stage.None? && h.users <= h.peers.Keys
    ensures StagesPass(h, Attach(h, s, p, leaseValid, env.limits, env.enc).0)
  {
    AttachUserPasses(h, s, p, leaseValid, env.limits, env.enc);
    AttachOtherPasses(h, s, p, leaseValid, env.limits);
  }

  lemma DetachPasses(h: Home, s: Session)
    requires s in h.peers
    ensures StagesPass(h, Detach(h, s))
  {
    var h' := h.(peers := h.peers[s := h.peers[s].(stage := None)], connections := h.connections - {s});
    assert StagesPass(h, h');
    AnnouncePasses(h, h'.(users := h'.users - {s}), PresenceChange(s, h.peers[s].user, 2));
  }

  lemma ExpirePasses(h: Home, name: string, generation: int)
    ensures StagesPass(h, Expire(h, name, generation))
  {
    RefreshPasses(h, h.(slots := h.slots - {name}, catalog := Remove(h.catalog, name), policy := h.policy + 1));
  }

  lemma AcceptedPasses(h: Home, s: Session, p': Peer, h1: Home, h': Home)
    requires s in h.peers && StagePasses(h.peers[s], p') && h1.peers == h.peers[s := p'] && h' == RefreshUsers(h1)
    ensures StagesPass(h, h')
  {
    OnePasses(h, s, p', h1);
    RefreshPasses(h, h1);
  }

  lemma CommitPasses(h: Home, s: Session, functions: set<string>, ids: map<string, int>, env: Env)
    requires s in h.peers && h.users <= h.peers.Keys
    ensures StagesPass(h, SyncFunctions(h, s, functions, ids, env.limits, env.enc).0)
  {
    var (h', outcome) := SyncFunctions(h, s, functions, ids, env.limits, env.enc);
    if outcome == Ok {
      var p := h.peers[s];
      var p' := Enqueue(p, FunctionSyncOK(ids)).(stage := None);
      var burnt := h.(nextFunction := NextAfter(h.catalog.functions, h.nextFunction, ids));
      AcceptedPasses(h, s, p', Committed(SetPeer(burnt, s, p'), p.name, DeclarationOf(p.stage.value, functions, ids)), h');
    } else {
      RefusedPasses(h, s, functions, ids, env);
    }
  }

  lemma OnePasses(h: Home, s: Session, p': Peer, h': Home)
    requires s in h.peers && StagePasses(h.peers[s], p') && h'.peers == h.peers[s := p']
    ensures StagesPass(h, h')
  {
  }

  /** A refused last slice drops the stage of its sender, or leaves every connection alone. */
  lemma RefusedPeers(h: Home, s: Session, functions: set<string>, ids: map<string, int>, env: Env, h': Home)
    requires s in h.peers && h.users <= h.peers.Keys
    requires h' == SyncFunctions(h, s, functions, ids, env.limits, env.enc).0
    requires SyncFunctions(h, s, functions, ids, env.limits, env.enc).1 != Ok
    ensures h'.peers == h.peers || (s in h'.peers && h'.peers == h.peers[s := h'.peers[s]] && h'.peers[s].stage.None?
                                    && h'.peers[s].stageCount == h.peers[s].stageCount)
  {
  }

  lemma RefusedPasses(h: Home, s: Session, functions: set<string>, ids: map<string, int>, env: Env)
    requires s in h.peers && h.users <= h.peers.Keys
    requires SyncFunctions(h, s, functions, ids, env.limits, env.enc).1 != Ok
    ensures StagesPass(h, SyncFunctions(h, s, functions, ids, env.limits, env.enc).0)
  {
    var h' := SyncFunctions(h, s, functions, ids, env.limits, env.enc).0;
    RefusedPeers(h, s, functions, ids, env, h');
    if h'.peers != h.peers {
      OnePasses(h, s, h'.peers[s], h');
    }
  }

  lemma SetStatePasses(h: Home, s: Session, epoch: int, ms: seq<Mutation>, env: Env)
    requires s in h.peers && h.users <= h.peers.Keys
    ensures StagesPass(h, SetState(h, s, epoch, ms, env.enc).0)
  {
  }

  lemma RefusedSlicePasses(h: Home, s: Session, slice: Slice)
    requires s in h.peers
    ensures StagesPass(h, RefuseSlice(h, s, slice).0)
  {
    OnePasses(h, s, h.peers[s].(stage := None), SetPeer(h, s, h.peers[s].(stage := None)));
  }

  lemma OneGoesOn(h: Home, s: Session, p': Peer, h': Home)
    requires s in h.peers && StageGoesOn(h.peers[s], p') && h'.peers == h.peers[s := p']
    ensures StagesGoOn(h, h')
  {
  }

  lemma SyncAclGoesOn(h: Home, s: Session, acl: map<string, seq<string>>)
    requires s in h.peers
    ensures StagesGoOn(h, SyncAcl(h, s, acl).0)
  {
    if SliceRefusal(h, s, AclSlice) != Ok {
      RefusedSlicePasses(h, s, AclSlice);
    } else {
      OneGoesOn(h, s, SyncAcl(h, s, acl).0.peers[s], SyncAcl(h, s, acl).0);
    }
  }

  lemma SyncEventsGoesOn(h: Home, s: Session, events: map<string, int>, ids: map<string, int>, enc: Frame -> bool)
    requires s in h.peers
    ensures StagesGoOn(h, SyncEvents(h, s, events, ids, enc).0)
  {
    if SliceRefusal(h, s, EventSlice) != Ok {
      RefusedSlicePasses(h, s, EventSlice);
    } else {
      var p := h.peers[s];
      var h' := SyncEvents(h, s, events, ids, enc).0;
      if enc(EventSyncOK(ids)) {
        var stage := p.stage.value.(events := events, topicIDs := ids, expected := EventAclSlice);
        OneGoesOn(h, s, Enqueue(p.(stage := Some(stage)), EventSyncOK(ids)), h');
      } else {
        OneGoesOn(h, s, p.(stage := None), h');
      }
    }
  }

  lemma SyncEventAclGoesOn(h: Home, s: Session, acl: map<string, EventAccess>)
    requires s in h.peers
    ensures StagesGoOn(h, SyncEventAcl(h, s, acl).0)
  {
    if SliceRefusal(h, s, EventAclSlice) != Ok {
      RefusedSlicePasses(h, s, EventAclSlice);
    } else {
      OneGoesOn(h, s, SyncEventAcl(h, s, acl).0.peers[s], SyncEventAcl(h, s, acl).0);
    }
  }

  lemma ResyncPasses(h: Home, s: Session)
    requires s in h.peers
    ensures StagesPass(h, Resync(h, s).0)
  {
    var p := h.peers[s].(lastStateRevision := h.catalog.revision);
    EnqueueAllPasses(p, [StateDict(PathEntries(h.catalog, p.user)), StateSnapshot(h.catalog.revision, StateEntries(h.catalog, p.user))]);
  }

  lemma SubscribePasses(h: Home, s: Session, ids: seq<int>, limits: Limits)
    requires s in h.peers
    ensures StagesPass(h, Subscribe(h, s, ids, limits).0)
  {
    var h' := Subscribe(h, s, ids, limits).0;
    if h' != h {
      OnePasses(h, s, h'.peers[s], h');
    }
  }

  lemma UnsubscribePasses(h: Home, s: Session, ids: seq<int>)
    requires s in h.peers
    ensures StagesPass(h, Unsubscribe(h, s, ids).0)
  {
    var h' := Unsubscribe(h, s, ids).0;
    OnePasses(h, s, h'.peers[s], h');
  }

  lemma ReplyPasses(h: Home, s: Session, l: Label, env: Env)
    requires s in h.peers && h.users <= h.peers.Keys && Enabled(h, s, l)
    requires l.LExpireStage? || l.LNotice? || l.LLoseLiveness? || l.LCloseQueue? || l.LRefill?
    ensures StagesPass(h, Step(h, s, l, env))
  {
    var h' := Step(h, s, l, env);
    assert h'.peers == h.peers[s := h'.peers[s]] && StagePasses(h.peers[s], h'.peers[s]);
    OnePasses(h, s, h'.peers[s], h');
  }

  /** Only slices of a declaration change a stage otherwise than by dropping it. */
  lemma StepsPass(h: Home, s: Session, l: Label, env: Env)
    requires h.users <= h.peers.Keys && Enabled(h, s, l) && !IsSlice(l)
    ensures StagesPass(h, Step(h, s, l, env))
  {
    match l
    case LAttach(p, leaseValid) => AttachPasses(h, s, p, leaseValid, env);
    case LDetach => DetachPasses(h, s);
    case LExpire(name, generation) => ExpirePasses(h, name, generation);
    case LSyncFunctions(functions, ids) => CommitPasses(h, s, functions, ids, env);
    case LSetState(epoch, ms) => SetStatePasses(h, s, epoch, ms, env);
    case LResync => ResyncPasses(h, s);
    case LSubscribe(ids) => SubscribePasses(h, s, ids, env.limits);
    case LUnsubscribe(ids) => UnsubscribePasses(h, s, ids);
    case _ => ReplyPasses(h, s, l, env);
  }

  lemma OthersPass(h: Home, s: Session, l: Label, env: Env)
    requires h.users <= h.peers.Keys && Enabled(h, s, l) && !l.LSyncState?
    ensures StagesGoOn(h, Step(h, s, l, env))
  {
    match l
    case LSyncAcl(acl) => SyncAclGoesOn(h, s, acl);
    case LSyncEvents(events, ids) => SyncEventsGoesOn(h, s, events, ids, env.enc);
    case LSyncEventAcl(acl) => SyncEventAclGoesOn(h, s, acl);
    case _ => StepsPass(h, s, l, env);
  }

  // ---------- every open stage expires ----------

  /** Every open stage has a running timer. */
  ghost predicate Timed(h: Home) {
    forall s :: s in h.peers && h.peers[s].stage.Some? ==> h.peers[s].stage.value.timer
  }

  /** A second first slice of a slot's connection whose reply does not encode. */
  ghost predicate Strands(h: Home, s: Session, l: Label, env: Env) {
    && l.LSyncState? && s in h.peers && h.peers[s].role == Coordinator && Current(h, s) && h.peers[s].stage.Some?
    && !env.enc(StateSyncOK(h.catalog.revision, l.pathIDs))
  }

  /** A step leaves a stage without a running timer exactly when it is a repeated first slice with a reply that does not encode. */
  lemma TimedUnlessStranded(h: Home, s: Session, l: Label, env: Env)
    requires h.users <= h.peers.Keys && Enabled(h, s, l) && Timed(h)
    ensures Timed(Step(h, s, l, env)) <==> !Strands(h, s, l, env)
  {
    if l.LSyncState? {
      SyncStateTimers(h, s, l.state, l.pathIDs, env);
    } else {
      OthersPass(h, s, l, env);
    }
  }

  lemma SyncStateTimers(h: Home, s: Session, state: map<string, Value>, ids: map<string, int>, env: Env)
    requires s in h.peers && Timed(h)
    ensures Timed(SyncState(h, s, state, ids, env.enc).0) <==> !Strands(h, s, LSyncState(state, ids), env)
  {
    var h' := SyncState(h, s, state, ids, env.enc).0;
    if Strands(h, s, LSyncState(state, ids), env) {
      assert !h'.peers[s].stage.value.timer;
    }
  }

  // ---------- a stage timer drops its own stage ----------

  /** Stages are numbered as they are opened, and an old number is an old stage. */
  predicate StageOnward(p: Peer, p': Peer) {
    && p.stageCount <= p'.stageCount
    && (Numbered(p) ==> Numbered(p'))
    && (p'.stage.Some? && p'.stage.value.serial < p.stageCount ==> p.stage.Some? && SameStage(p.stage.value, p'.stage.value))
  }

  predicate Numbered(p: Peer) {
    p.stage.Some? ==> p.stage.value.serial < p.stageCount
  }

  ghost predicate AllOnward(h: Home, h': Home) {
    && h.peers.Keys <= h'.peers.Keys
    && (forall t :: t in h.peers ==> StageOnward(h.peers[t], h'.peers[t]))
    && (forall t :: t in h'.peers && t !in h.peers ==> Numbered(h'.peers[t]))
  }

  lemma StepOnward(h: Home, s: Session, l: Label, env: Env)
    requires h.users <= h.peers.Keys && Enabled(h, s, l)
    ensures AllOnward(h, Step(h, s, l, env))
  {
    if l.LSyncState? {
      SyncStateOnward(h, s, l.state, l.pathIDs, env);
    } else {
      OthersPass(h, s, l, env);
    }
  }

  lemma SyncStateOnward(h: Home, s: Session, state: map<string, Value>, ids: map<string, int>, env: Env)
    requires s in h.peers
    ensures AllOnward(h, SyncState(h, s, state, ids, env.enc).0)
  {
  }

  lemma NextOnward(hs: seq<Home>, env: Env, j: int)
    requires RunFromStart(hs, env) && 0 < j < |hs|
    ensures AllOnward(hs[j - 1], hs[j])
  {
    assert StepsTo(hs, env, j);
    var s, l :| Enabled(hs[j - 1], s, l) && hs[j] == Step(hs[j - 1], s, l, env);
    StepOnward(hs[j - 1], s, l, env);
  }

  lemma {:induction false} StagesAreNumbered(hs: seq<Home>, env: Env, i: int, s: Session)
    requires RunFromStart(hs, env) && 0 <= i < |hs| && s in hs[i].peers
    ensures Numbered(hs[i].peers[s])
  {
    if i > 0 {
      NextOnward(hs, env, i);
      if s in hs[i - 1].peers {
        StagesAreNumbered(hs, env, i - 1, s);
      }
    }
  }

  ghost predicate Stays(h: Home, s: Session, stage: Stage) {
    s in h.peers && h.peers[s].stage.Some? && SameStage(h.peers[s].stage.value, stage)
  }

  lemma {:induction false} OldStagesStay(hs: seq<Home>, env: Env, i: int, j: int, s: Session, serial: nat)
    requires RunFromStart(hs, env) && 0 <= i <= j < |hs|
    requires s in hs[i].peers && serial < hs[i].peers[s].stageCount
    ensures s in hs[j].peers && serial < hs[j].peers[s].stageCount
    ensures var p := hs[j].peers[s];
            p.stage.Some? && p.stage.value.serial == serial ==> forall k :: i <= k <= j ==> Stays(hs[k], s, p.stage.value)
  {
    if i < j {
      OldStagesStay(hs, env, i, j - 1, s, serial);
      NextOnward(hs, env, j);
    }
  }

  /**
   A stage timer, stopped or not, never drops a later stage of the same connection: whenever it drops
   one, that stage has been open with the same state and IDs ever since the timer was set.
   */
  lemma StageTimersAreTheirOwn(hs: seq<Home>, env: Env, i: int, j: int, s: Session)
    requires RunFromStart(hs, env) && 0 <= i <= j < |hs|
    requires s in hs[i].peers && hs[i].peers[s].stage.Some?
    ensures s in hs[j].peers
    ensures var stage := hs[i].peers[s].stage.value;
            ExpireStage(hs[j], s, stage.serial) != hs[j] ==> forall k :: i <= k <= j ==> Stays(hs[k], s, stage)
  {
    var serial := hs[i].peers[s].stage.value.serial;
    StagesAreNumbered(hs, env, i, s);
    OldStagesStay(hs, env, i, j, s, serial);
    if ExpireStage(hs[j], s, serial) != hs[j] {
      assert Stays(hs[i], s, hs[j].peers[s].stage.value);
    }
  }
}
