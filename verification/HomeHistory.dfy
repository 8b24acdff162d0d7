/** Facts about runs that relate two of their homes: IDs, fencing, and who declared what is active. */
module HomeHistory {
  import opened Basics
  import opened Catalogs
  import opened CatalogProofs
  import opened Views
  import opened HomeModel
  import opened Replicas
  import opened Invariants
  import opened QuietSteps
  import opened MemberSteps
  import opened CommitSteps
  import opened ActivationSteps
  import opened HomeTheorems

  // ---------- IDs ----------

  ghost predicate IdsStay(byID: map<int, string>, byID': map<int, string>) {
    forall id :: id in byID ==> id in byID' && byID'[id] == byID[id]
  }

  ghost predicate AllIdsStay(h: Home, h': Home) {
    && IdsStay(h.catalog.paths.byID, h'.catalog.paths.byID)
    && IdsStay(h.catalog.topics.byID, h'.catalog.topics.byID)
    && IdsStay(h.catalog.functions.byID, h'.catalog.functions.byID)
  }

  lemma BindStays(names: Names, next: int, ids: map<string, int>)
    requires NamesInv(names, next) && StagedInv(names, next, ids)
    ensures IdsStay(names.byID, Bind(names, ids).byID)
  {
    BindKeeps(names, next, ids);
  }

  lemma ActivatedIdsStay(c: Catalog, slot: string, d: Declaration, nextPath: int, nextTopic: int, nextFunction: int, h: Home, h': Home)
    requires NamesInv(c.paths, nextPath) && StagedInv(c.paths, nextPath, d.pathIDs)
    requires NamesInv(c.topics, nextTopic) && StagedInv(c.topics, nextTopic, d.topicIDs)
    requires NamesInv(c.functions, nextFunction) && StagedInv(c.functions, nextFunction, d.functionIDs)
    requires h.catalog == c && h'.catalog == Activate(c, slot, d)
    ensures AllIdsStay(h, h')
  {
    BindStays(c.paths, nextPath, d.pathIDs);
    BindStays(c.topics, nextTopic, d.topicIDs);
    BindStays(c.functions, nextFunction, d.functionIDs);
  }

  lemma CommittedIdsStay(h: Home, s: Session, functions: set<string>, ids: map<string, int>, env: Env)
    requires Inv(h, env) && s in h.peers
    requires Reserves(h.catalog.functions, h.nextFunction, functions, ids)
    ensures AllIdsStay(h, SyncFunctions(h, s, functions, ids, env.limits, env.enc).0)
  {
    var (h', outcome) := SyncFunctions(h, s, functions, ids, env.limits, env.enc);
    if outcome == Ok {
      StageIsCommittable(h, s, functions, ids, env);
      ActivatedIdsStay(h.catalog, h.peers[s].name, DeclarationOf(h.peers[s].stage.value, functions, ids),
                       h.nextPath, h.nextTopic, NextAfter(h.catalog.functions, h.nextFunction, ids), h, h');
    } else {
      RefusedActivationChangesNothing(h, s, functions, ids, env);
    }
  }

  lemma StepIdsStay(h: Home, s: Session, l: Label, env: Env)
    requires Inv(h, env) && Enabled(h, s, l)
    ensures AllIdsStay(h, Step(h, s, l, env))
  {
    if l.LSyncFunctions? {
      CommittedIdsStay(h, s, l.functions, l.functionIDs, env);
    } else {
      OthersKeepNames(h, s, l, env);
    }
  }

  /** Only an activation touches the dictionaries. */
  lemma OthersKeepNames(h: Home, s: Session, l: Label, env: Env)
    requires h.users <= h.peers.Keys && Enabled(h, s, l) && !l.LSyncFunctions?
    ensures var c := Step(h, s, l, env).catalog;
            c.paths == h.catalog.paths && c.topics == h.catalog.topics && c.functions == h.catalog.functions
  {
    if Plain(l) {
      PlainSteps(h, s, l, env);
    }
  }

  lemma NextIdsStay(hs: seq<Home>, env: Env, j: int)
    requires EnvOK(env) && RunFromStart(hs, env) && 0 < j < |hs|
    ensures AllIdsStay(hs[j - 1], hs[j])
  {
    RunKeepsInvariant(hs, env, j - 1);
    assert StepsTo(hs, env, j);
    var s, l :| Enabled(hs[j - 1], s, l) && hs[j] == Step(hs[j - 1], s, l, env);
    StepIdsStay(hs[j - 1], s, l, env);
  }

  /** An ID once bound never names anything else, in any of the three dictionaries. */
  lemma {:induction false} BoundIdsNeverMove(hs: seq<Home>, env: Env, i: int, j: int)
    requires EnvOK(env) && RunFromStart(hs, env) && 0 <= i <= j < |hs|
    ensures AllIdsStay(hs[i], hs[j])
  {
    if i < j {
      BoundIdsNeverMove(hs, env, i, j - 1);
      NextIdsStay(hs, env, j);
    }
  }

  // ---------- canonical IDs ----------

  predicate Owns(h: Home, name: string, path: string) {
    path in h.catalog.stateOwners && h.catalog.stateOwners[path] == name
  }

  lemma ActivationKeepsOwnIds(c: Catalog, slot: string, d: Declaration, p: Peer, name: string, path: string)
    requires StageAgrees(c, slot, p) && StagedIDs(Path, p) == d.pathIDs
    requires d.pathIDs.Keys == d.config.state.Keys && Free(c.stateOwners, d.config.state.Keys, slot)
    requires path in c.stateOwners && c.stateOwners[path] == name
    ensures IdOf(Activate(c, slot, d).paths.byName, path) == IdOf(c.paths.byName, path)
  {
    assert path in d.pathIDs ==> path in d.config.state.Keys;
  }

  /** A declaration by `s` leaves the catalogue alone, or commits exactly what `s` staged. */
  ghost predicate CommitsStaged(h: Home, s: Session, functions: set<string>, ids: map<string, int>, c': Catalog)
    requires s in h.peers
  {
    || c' == h.catalog
    || (&& h.peers[s].stage.Some? && Current(h, s)
        && Free(h.catalog.stateOwners, h.peers[s].stage.value.state.Keys, h.peers[s].name)
        && c' == Activate(h.catalog, h.peers[s].name, DeclarationOf(h.peers[s].stage.value, functions, ids)))
  }

  lemma CommitResult(h: Home, s: Session, functions: set<string>, ids: map<string, int>, env: Env)
    requires h.users <= h.peers.Keys && s in h.peers
    ensures CommitsStaged(h, s, functions, ids, SyncFunctions(h, s, functions, ids, env.limits, env.enc).0.catalog)
  {
  }

  lemma CommittedKeepsOwnIds(h: Home, s: Session, functions: set<string>, ids: map<string, int>, c': Catalog, name: string, path: string)
    requires StagesAgree(h) && StagesShaped(h.peers) && s in h.peers
    requires Owns(h, name, path)
    requires CommitsStaged(h, s, functions, ids, c')
    ensures IdOf(c'.paths.byName, path) == IdOf(h.catalog.paths.byName, path)
  {
    if c' != h.catalog {
      var p := h.peers[s];
      assert StageAgrees(h.catalog, p.name, p);
      ActivationKeepsOwnIds(h.catalog, p.name, DeclarationOf(p.stage.value, functions, ids), p, name, path);
    }
  }

  /** As long as a slot owns a path, the canonical ID of that path does not change. */
  lemma StepKeepsOwnIds(h: Home, s: Session, l: Label, env: Env, name: string, path: string)
    requires Inv(h, env) && Enabled(h, s, l) && Owns(h, name, path)
    ensures IdOf(Step(h, s, l, env).catalog.paths.byName, path) == IdOf(h.catalog.paths.byName, path)
  {
    if l.LSyncFunctions? {
      CommitResult(h, s, l.functions, l.functionIDs, env);
      CommittedKeepsOwnIds(h, s, l.functions, l.functionIDs, Step(h, s, l, env).catalog, name, path);
    } else {
      OthersKeepNames(h, s, l, env);
    }
  }

  lemma NextKeepsOwnIds(hs: seq<Home>, env: Env, j: int, name: string, path: string)
    requires EnvOK(env) && RunFromStart(hs, env) && 0 < j < |hs| && Owns(hs[j - 1], name, path)
    ensures IdOf(hs[j].catalog.paths.byName, path) == IdOf(hs[j - 1].catalog.paths.byName, path)
  {
    RunKeepsInvariant(hs, env, j - 1);
    assert StepsTo(hs, env, j);
    var s, l :| Enabled(hs[j - 1], s, l) && hs[j] == Step(hs[j - 1], s, l, env);
    StepKeepsOwnIds(hs[j - 1], s, l, env, name, path);
  }

  lemma {:induction false} OwnIdsStay(hs: seq<Home>, env: Env, i: int, j: int, name: string, path: string)
    requires EnvOK(env) && RunFromStart(hs, env) && 0 <= i <= j < |hs|
    requires forall k :: i <= k <= j ==> Owns(hs[k], name, path)
    ensures IdOf(hs[j].catalog.paths.byName, path) == IdOf(hs[i].catalog.paths.byName, path)
  {
    if i < j {
      OwnIdsStay(hs, env, i, j - 1, name, path);
      NextKeepsOwnIds(hs, env, j, name, path);
    }
  }

  // ---------- fencing ----------

  /** Connections keep their name and generation, and slots get no connection but `joined`. */
  ghost predicate Renewed(h: Home, h': Home, joined: Option<Session>) {
    && (forall s :: s in h.peers ==>
      s in h'.peers && h'.peers[s].name == h.peers[s].name && h'.peers[s].generation == h.peers[s].generation)
    && (forall name :: name in h'.slots && h'.slots[name].connection.Some? && h'.slots[name].connection != joined ==>
      && name in h.slots && h.slots[name].connection == h'.slots[name].connection
      && h.slots[name].generation == h'.slots[name].generation)
  }

  lemma EnqueueAllKeepsNames(p: Peer, fs: seq<Frame>)
    ensures EnqueueAll(p, fs).name == p.name && EnqueueAll(p, fs).generation == p.generation
    decreases |fs|
  {
  }

  lemma RefreshRenewed(h: Home, h': Home)
    requires Renewed(h, h', None)
    ensures Renewed(h, RefreshUsers(h'), None)
  {
    forall s | s in h'.peers
      ensures RefreshUsers(h').peers[s].name == h'.peers[s].name && RefreshUsers(h').peers[s].generation == h'.peers[s].generation
    {
      EnqueueAllKeepsNames(Pruned(h'.catalog, h'.peers[s]).(lastStateRevision := h'.catalog.revision),
                           RecoveryFrames(h'.catalog, h'.peers[s].user));
    }
  }

  lemma OneRenewed(h: Home, s: Session, h': Home)
    requires h' == h || (OnlyPeer(h, s, h') && h'.slots == h.slots)
    ensures Renewed(h, h', None)
  {
  }

  lemma PlainRenewed(h: Home, s: Session, l: Label, env: Env)
    requires h.users <= h.peers.Keys && Enabled(h, s, l) && Plain(l) && !l.LResync?
    ensures Renewed(h, Step(h, s, l, env), None)
  {
    PlainSteps(h, s, l, env);
    if IsSlice(l) {
      SliceTouchesOne(h, s, l, env);
    } else {
      ReplyTouchesOne(h, s, l, env);
    }
    OneRenewed(h, s, Step(h, s, l, env));
  }

  lemma ResyncRenewed(h: Home, s: Session)
    requires s in h.peers
    ensures Renewed(h, Resync(h, s).0, None)
  {
    var p := h.peers[s].(lastStateRevision := h.catalog.revision);
    EnqueueAllKeepsNames(p, [StateDict(PathEntries(h.catalog, p.user)), StateSnapshot(h.catalog.revision, StateEntries(h.catalog, p.user))]);
  }

  lemma ExpireRenewed(h: Home, name: string, generation: int)
    ensures Renewed(h, Expire(h, name, generation), None)
  {
    var gone := h.(slots := h.slots - {name}, catalog := Remove(h.catalog, name), policy := h.policy + 1);
    RefreshRenewed(h, gone);
  }

  lemma CommitRenewed(h: Home, s: Session, functions: set<string>, ids: map<string, int>, env: Env)
    requires s in h.peers && h.users <= h.peers.Keys
    requires SyncFunctions(h, s, functions, ids, env.limits, env.enc).1 == Ok
    ensures Renewed(h, SyncFunctions(h, s, functions, ids, env.limits, env.enc).0, None)
  {
    var p := h.peers[s];
    var burnt := h.(nextFunction := NextAfter(h.catalog.functions, h.nextFunction, ids));
    RefreshRenewed(h, Committed(SetPeer(burnt, s, Enqueue(p, FunctionSyncOK(ids)).(stage := None)), p.name,
                                DeclarationOf(p.stage.value, functions, ids)));
  }

  lemma RefusedRenewed(h: Home, s: Session, functions: set<string>, ids: map<string, int>, env: Env)
    requires s in h.peers && h.users <= h.peers.Keys
    requires SyncFunctions(h, s, functions, ids, env.limits, env.enc).1 != Ok
    ensures Renewed(h, SyncFunctions(h, s, functions, ids, env.limits, env.enc).0, None)
  {
  }

  lemma AnnounceRenewed(h: Home, h': Home, f: Frame, joined: Option<Session>)
    requires Renewed(h, h', joined)
    ensures Renewed(h, Announce(h', f), joined)
  {
  }

  lemma JoinRenewed(h: Home, s: Session, p': Peer, h': Home)
    requires s !in h.peers && h'.peers == h.peers[s := p']
    requires h'.slots == h.slots || (p'.name in h'.slots && h'.slots == h.slots[p'.name := h'.slots[p'.name]]
                                     && h'.slots[p'.name].connection == Some(s))
    ensures Renewed(h, h', Some(s))
  {
  }

  lemma AttachUserRenewed(h: Home, s: Session, p: Peer, leaseValid: bool, env: Env)
    requires s !in h.peers && h.users <= h.peers.Keys
    ensures Renewed(h, AttachUser(h, s, p, leaseValid, env.limits, env.enc).0, Some(s))
  {
    var sent := EnqueueAll(p.(lastStateRevision := h.catalog.revision), [Welcome] + RecoveryFrames(h.catalog, p.user));
    var h' := h.(peers := h.peers[s := Bootstrapped(sent, leaseValid)], connections := h.connections + {s}, users := h.users + {s});
    JoinRenewed(h, s, Bootstrapped(sent, leaseValid), h');
    AnnounceRenewed(h, h', PresenceChange(s, p.user, 1), Some(s));
  }

  lemma AttachCoordinatorRenewed(h: Home, s: Session, p: Peer, leaseValid: bool, env: Env)
    requires s !in h.peers && h.users <= h.peers.Keys
    ensures Renewed(h, AttachCoordinator(h, s, p, leaseValid, env.limits).0, Some(s))
  {
    var h' := AttachCoordinator(h, s, p, leaseValid, env.limits).0;
    if h' != h {
      var generation := (if p.name in h.slots then h.slots[p.name].generation else 0) + 1;
      EnqueueAllKeepsNames(p.(generation := generation), [Welcome, PresenceSnapshot(SessionsOf(h))]);
      JoinRenewed(h, s, h'.peers[s], h');
    }
  }

  lemma AttachRenewed(h: Home, s: Session, p: Peer, leaseValid: bool, env: Env)
    requires s !in h.peers && h.users <= h.peers.Keys
    ensures Renewed(h, Attach(h, s, p, leaseValid, env.limits, env.enc).0, Some(s))
  {
    match p.role
    case User => AttachUserRenewed(h, s, p, leaseValid, env);
    case Coordinator => AttachCoordinatorRenewed(h, s, p, leaseValid, env);
    case Cli => JoinRenewed(h, s, AttachCli(h, s, p, leaseValid).0.peers[s], AttachCli(h, s, p, leaseValid).0);
  }

  lemma DetachRenewed(h: Home, s: Session)
    requires s in h.peers
    ensures Renewed(h, Detach(h, s), None)
  {
  }

  lemma SetStateRenewed(h: Home, s: Session, epoch: int, ms: seq<Mutation>, env: Env)
    requires s in h.peers && h.users <= h.peers.Keys
    ensures Renewed(h, SetState(h, s, epoch, ms, env.enc).0, None)
  {
  }

  lemma StepRenewed(h: Home, s: Session, l: Label, env: Env)
    requires h.users <= h.peers.Keys && Enabled(h, s, l)
    ensures Renewed(h, Step(h, s, l, env), if l.LAttach? then Some(s) else None)
  {
    match l
    case LAttach(p, leaseValid) => AttachRenewed(h, s, p, leaseValid, env);
    case LDetach => DetachRenewed(h, s);
    case LExpire(name, generation) => ExpireRenewed(h, name, generation);
    case LSetState(epoch, ms) => SetStateRenewed(h, s, epoch, ms, env);
    case LResync => ResyncRenewed(h, s);
    case LSyncFunctions(functions, ids) =>
      if SyncFunctions(h, s, functions, ids, env.limits, env.enc).1 == Ok {
        CommitRenewed(h, s, functions, ids, env);
      } else {
        RefusedRenewed(h, s, functions, ids, env);
      }
    case _ => PlainRenewed(h, s, l, env);
  }

  lemma NextFenced(hs: seq<Home>, env: Env, j: int, s: Session)
    requires RunFromStart(hs, env) && 0 < j < |hs|
    requires s in hs[j - 1].peers && !Current(hs[j - 1], s)
    ensures s in hs[j].peers && !Current(hs[j], s)
  {
    assert StepsTo(hs, env, j);
    var t, l :| Enabled(hs[j - 1], t, l) && hs[j] == Step(hs[j - 1], t, l, env);
    StepRenewed(hs[j - 1], t, l, env);
  }

  /** A coordinator connection that was replaced or detached never becomes its slot's connection again. */
  lemma {:induction false} FencedForever(hs: seq<Home>, env: Env, i: int, j: int, s: Session)
    requires RunFromStart(hs, env) && 0 <= i <= j < |hs|
    requires s in hs[i].peers && !Current(hs[i], s)
    ensures s in hs[j].peers && !Current(hs[j], s)
  {
    if i < j {
      FencedForever(hs, env, i, j - 1, s);
      NextFenced(hs, env, j, s);
    }
  }

  /** Frames by which a coordinator declares or mutates. */
  predicate Authoritative(l: Label) {
    l.LSyncState? || l.LSyncAcl? || l.LSyncEvents? || l.LSyncEventAcl? || l.LSyncFunctions? || l.LSetState?
  }

  /** From then on none of its declarations and mutations changes anything in the home. */
  lemma FencedFramesChangeNothing(hs: seq<Home>, env: Env, i: int, j: int, s: Session, l: Label)
    requires RunFromStart(hs, env) && 0 <= i <= j < |hs|
    requires s in hs[i].peers && !Current(hs[i], s)
    requires s in hs[j].peers && hs[j].users <= hs[j].peers.Keys && Enabled(hs[j], s, l) && Authoritative(l)
    ensures Step(hs[j], s, l, env) == hs[j]
  {
    FencedForever(hs, env, i, j, s);
  }

  // ---------- ready ----------

  predicate SameDeclaration(a: Config, b: Config) {
    a.(state := b.state) == b
  }

  /** The slot is ready through the same connection and with the same declaration as before. */
  ghost predicate StillReady(h: Home, h': Home, name: string) {
    name in h'.slots && h'.slots[name].ready && name in h'.catalog.configs ==>
      && name in h.slots && h.slots[name].ready && h.slots[name].connection == h'.slots[name].connection
      && name in h.catalog.configs && SameDeclaration(h.catalog.configs[name], h'.catalog.configs[name])
  }

  /** `h'` is the result of an accepted declaration by `s` for the slot `name`. */
  ghost predicate DeclaredBy(h: Home, h': Home, env: Env, s: Session, name: string) {
    && s in h.peers && h.peers[s].name == name && h.users <= h.peers.Keys
    && exists functions, ids :: Declares(h, s, functions, ids, env, h')
  }

  ghost predicate Declares(h: Home, s: Session, functions: set<string>, ids: map<string, int>, env: Env, h': Home)
    requires s in h.peers && h.users <= h.peers.Keys
  {
    SyncFunctions(h, s, functions, ids, env.limits, env.enc) == (h', Ok)
  }

  /** Home `i` is where the active configuration of home `k` was declared by the slot's connection. */
  ghost predicate DeclaredAt(hs: seq<Home>, env: Env, i: int, k: int, s: Session, name: string)
    requires 0 < i < |hs| && 0 <= k < |hs|
  {
    && DeclaredBy(hs[i - 1], hs[i], env, s, name)
    && name in hs[i].catalog.configs && name in hs[k].catalog.configs
    && SameDeclaration(hs[i].catalog.configs[name], hs[k].catalog.configs[name])
  }

  lemma OtherStepsReady(h: Home, s: Session, l: Label, env: Env, name: string)
    requires h.users <= h.peers.Keys && Enabled(h, s, l) && !l.LSyncFunctions?
    ensures StillReady(h, Step(h, s, l, env), name)
  {
    if Plain(l) {
      PlainSteps(h, s, l, env);
    }
  }

  lemma DeclarationsReady(h: Home, s: Session, functions: set<string>, ids: map<string, int>, env: Env, name: string)
    requires h.users <= h.peers.Keys && s in h.peers
    ensures var (h', outcome) := SyncFunctions(h, s, functions, ids, env.limits, env.enc);
            && (outcome == Ok && h.peers[s].name == name ==> name in h'.slots && h'.slots[name].connection == Some(s))
            && (outcome != Ok || h.peers[s].name != name ==> StillReady(h, h', name))
  {
  }

  /** What one step of the run does to a ready slot. */
  lemma NextReady(hs: seq<Home>, env: Env, k: int, name: string)
    requires EnvOK(env) && RunFromStart(hs, env) && 0 < k < |hs|
    requires name in hs[k].slots && hs[k].slots[name].ready
    ensures name in hs[k].catalog.configs && hs[k].slots[name].connection.Some?
    ensures DeclaredBy(hs[k - 1], hs[k], env, hs[k].slots[name].connection.value, name) || StillReady(hs[k - 1], hs[k], name)
  {
    ReadyIsActive(hs, env, k, name);
    assert StepsTo(hs, env, k);
    var s, l :| Enabled(hs[k - 1], s, l) && hs[k] == Step(hs[k - 1], s, l, env);
    if l.LSyncFunctions? {
      DeclarationsReady(hs[k - 1], s, l.functions, l.functionIDs, env, name);
      if SyncFunctions(hs[k - 1], s, l.functions, l.functionIDs, env.limits, env.enc).1 == Ok && hs[k - 1].peers[s].name == name {
        assert Declares(hs[k - 1], s, l.functions, l.functionIDs, env, hs[k]);
      }
    } else {
      OtherStepsReady(hs[k - 1], s, l, env, name);
    }
  }

  /** A ready slot is active with what its present connection declared, earlier in the run. */
  lemma {:induction false} ReadyWasDeclared(hs: seq<Home>, env: Env, k: int, name: string)
    requires EnvOK(env) && RunFromStart(hs, env) && 0 <= k < |hs|
    requires name in hs[k].slots && hs[k].slots[name].ready
    ensures hs[k].slots[name].connection.Some?
    ensures exists i :: 0 < i <= k && DeclaredAt(hs, env, i, k, hs[k].slots[name].connection.value, name)
  {
    ReadyIsActive(hs, env, k, name);
    NextReady(hs, env, k, name);
    var s := hs[k].slots[name].connection.value;
    if DeclaredBy(hs[k - 1], hs[k], env, s, name) {
      assert DeclaredAt(hs, env, k, k, s, name);
    } else {
      ReadyWasDeclared(hs, env, k - 1, name);
      var i :| 0 < i <= k - 1 && DeclaredAt(hs, env, i, k - 1, s, name);
      assert DeclaredAt(hs, env, i, k, s, name);
    }
  }

  lemma ReadyIsActive(hs: seq<Home>, env: Env, k: int, name: string)
    requires EnvOK(env) && RunFromStart(hs, env) && 0 <= k < |hs|
    requires name in hs[k].slots && hs[k].slots[name].ready
    ensures k > 0 && name in hs[k].catalog.configs && hs[k].slots[name].connection.Some?
  {
    RunKeepsInvariant(hs, env, k);
  }
}
