/** The five slices of a declaration: how each is answered, and that what becomes active is what was sent. */
module DeclaredSlices {
  import opened Basics
  import opened Catalogs
  import opened HomeModel
  import opened Replicas
  import opened Invariants
  import opened HomeTheorems
  import opened StageSteps
  import opened HomeHistory
  import opened Timers
  import opened Acknowledgements
  import opened Answers

  // ---------- what was sent ----------

  /** The slices a connection has sent since the last first slice that was answered. */
  datatype Draft = Draft(
    state: map<string, Value>,
    pathIDs: map<string, int>,
    stateACL: map<string, seq<string>>,
    events: map<string, int>,
    topicIDs: map<string, int>,
    eventACL: map<string, EventAccess>)

  function NoDraft(): Draft {
    Draft(map[], map[], map[], map[], map[], map[])
  }

  function Drafted(d: Draft, l: Label, answered: bool): Draft {
    match l
    case LSyncState(state, ids) => if answered then NoDraft().(state := state, pathIDs := ids) else d
    case LSyncAcl(acl) => d.(stateACL := acl)
    case LSyncEvents(events, ids) => d.(events := events, topicIDs := ids)
    case LSyncEventAcl(acl) => d.(eventACL := acl)
    case _ => d
  }

  /** The answer to a first slice encodes; otherwise an open stage stays as it is. */
  predicate Answered(h: Home, l: Label, env: Env) {
    l.LSyncState? ==> env.enc(StateSyncOK(h.catalog.revision, l.pathIDs))
  }

  ghost function DraftOf(hs: seq<Home>, es: seq<Move>, env: Env, i: int, s: Session): Draft
    requires |hs| == |es| + 1 && 0 <= i < |hs|
  {
    if i == 0 then NoDraft()
    else if es[i - 1].actor == s then Drafted(DraftOf(hs, es, env, i - 1, s), es[i - 1].deed, Answered(hs[i - 1], es[i - 1].deed, env))
    else DraftOf(hs, es, env, i - 1, s)
  }

  /** The stage holds the slices received so far. */
  predicate Contains(stage: Stage, d: Draft) {
    && stage.state == d.state && stage.pathIDs == d.pathIDs
    && (stage.expected != AclSlice ==> stage.stateACL == d.stateACL)
    && (stage.expected == EventAclSlice || stage.expected == FunctionSlice ==> stage.events == d.events && stage.topicIDs == d.topicIDs)
    && (stage.expected == FunctionSlice ==> stage.eventACL == d.eventACL)
  }

  /** What the stage of a slot's connection holds is what the connection sent. */
  ghost predicate StagedAsSent(h: Home, s: Session, d: Draft) {
    s in h.peers && Current(h, s) && h.peers[s].role == Coordinator && h.peers[s].stage.Some? ==> Contains(h.peers[s].stage.value, d)
  }

  // ---------- one step ----------

  lemma FirstSliceStages(h: Home, s: Session, l: Label, env: Env, d: Draft)
    requires s in h.peers && l.LSyncState? && h.peers[s].role == Coordinator && Current(h, s)
    requires StagedAsSent(h, s, d)
    ensures StagedAsSent(SyncState(h, s, l.state, l.pathIDs, env.enc).0, s, Drafted(d, l, Answered(h, l, env)))
  {
  }

  lemma AclStages(h: Home, s: Session, acl: map<string, seq<string>>, d: Draft)
    requires s in h.peers && StagedAsSent(h, s, d)
    ensures StagedAsSent(SyncAcl(h, s, acl).0, s, d.(stateACL := acl))
  {
  }

  lemma EventsStage(h: Home, s: Session, events: map<string, int>, ids: map<string, int>, enc: Frame -> bool, d: Draft)
    requires s in h.peers && StagedAsSent(h, s, d)
    ensures StagedAsSent(SyncEvents(h, s, events, ids, enc).0, s, d.(events := events, topicIDs := ids))
  {
    EventsPeer(h, s, events, ids, enc);
  }

  lemma EventsPeer(h: Home, s: Session, events: map<string, int>, ids: map<string, int>, enc: Frame -> bool)
    requires s in h.peers
    ensures var h' := SyncEvents(h, s, events, ids, enc).0;
            && s in h'.peers && h'.slots == h.slots
            && h'.peers[s].role == h.peers[s].role && h'.peers[s].name == h.peers[s].name && h'.peers[s].generation == h.peers[s].generation
            && (h'.peers[s].stage.Some? && h.peers[s].role == Coordinator && Current(h, s) ==>
                 && h.peers[s].stage.Some? && h.peers[s].stage.value.expected == EventSlice
                 && h'.peers[s].stage.value == h.peers[s].stage.value.(events := events, topicIDs := ids, expected := EventAclSlice))
  {
  }

  lemma EventAclStages(h: Home, s: Session, acl: map<string, EventAccess>, d: Draft)
    requires s in h.peers && StagedAsSent(h, s, d)
    ensures StagedAsSent(SyncEventAcl(h, s, acl).0, s, d.(eventACL := acl))
  {
  }

  /** A slice of a connection that does not hold its slot changes nothing. */
  lemma OutsiderStages(h: Home, s: Session, l: Label, env: Env)
    requires s in h.peers && h.users <= h.peers.Keys && Enabled(h, s, l) && IsSlice(l)
    requires h.peers[s].role != Coordinator || !Current(h, s)
    ensures Step(h, s, l, env) == h
  {
  }

  lemma OthersSlicesStage(h: Home, a: Session, l: Label, env: Env, s: Session, d: Draft)
    requires h.users <= h.peers.Keys && Enabled(h, a, l) && IsSlice(l) && a != s && StagedAsSent(h, s, d)
    ensures StagedAsSent(Step(h, a, l, env), s, d)
  {
    SliceTouchesOne(h, a, l, env);
    PlainSteps(h, a, l, env);
  }

  lemma OthersStage(h: Home, a: Session, l: Label, env: Env, s: Session, d: Draft)
    requires h.users <= h.peers.Keys && SlotsOK(h) && Enabled(h, a, l) && !IsSlice(l) && StagedAsSent(h, s, d)
    ensures StagedAsSent(Step(h, a, l, env), s, d)
  {
    var h' := Step(h, a, l, env);
    StepsPass(h, a, l, env);
    StepRenewed(h, a, l, env);
  }

  lemma MoveStages(h: Home, m: Move, env: Env, h': Home, s: Session, d: Draft)
    requires Inv(h, env) && Moves(h, m, env, h') && StagedAsSent(h, s, d)
    ensures StagedAsSent(h', s, if m.actor == s then Drafted(d, m.deed, Answered(h, m.deed, env)) else d)
  {
    var l := m.deed;
    if !IsSlice(l) {
      OthersStage(h, m.actor, l, env, s, d);
    } else if m.actor != s {
      OthersSlicesStage(h, m.actor, l, env, s, d);
    } else if h.peers[s].role != Coordinator || !Current(h, s) {
      OutsiderStages(h, s, l, env);
    } else {
      OwnSliceStages(h, s, l, env, d);
    }
  }

  lemma OwnSliceStages(h: Home, s: Session, l: Label, env: Env, d: Draft)
    requires s in h.peers && h.users <= h.peers.Keys && Enabled(h, s, l) && IsSlice(l)
    requires h.peers[s].role == Coordinator && Current(h, s) && StagedAsSent(h, s, d)
    ensures StagedAsSent(Step(h, s, l, env), s, Drafted(d, l, Answered(h, l, env)))
  {
    match l
    case LSyncState(_, _) => FirstSliceStages(h, s, l, env, d);
    case LSyncAcl(acl) => AclStages(h, s, acl, d);
    case LSyncEvents(events, ids) => EventsStage(h, s, events, ids, env.enc, d);
    case LSyncEventAcl(acl) => EventAclStages(h, s, acl, d);
  }

  // ---------- runs ----------

  lemma NextStaged(hs: seq<Home>, es: seq<Move>, env: Env, i: int, s: Session)
    requires |hs| == |es| + 1 && 0 < i < |hs| && Inv(hs[i - 1], env) && MovesTo(hs, es, env, i - 1)
    requires StagedAsSent(hs[i - 1], s, DraftOf(hs, es, env, i - 1, s))
    ensures StagedAsSent(hs[i], s, DraftOf(hs, es, env, i, s))
  {
    MoveStages(hs[i - 1], es[i - 1], env, hs[i], s, DraftOf(hs, es, env, i - 1, s));
  }

  lemma NextStagedInRun(hs: seq<Home>, es: seq<Move>, env: Env, i: int, s: Session)
    requires EnvOK(env) && RunWith(hs, es, env) && 0 < i < |hs|
    requires StagedAsSent(hs[i - 1], s, DraftOf(hs, es, env, i - 1, s))
    ensures StagedAsSent(hs[i], s, DraftOf(hs, es, env, i, s))
  {
    ReachedHome(hs, es, env, i - 1);
    NextStaged(hs, es, env, i, s);
  }

  lemma NothingStaged(h: Home, s: Session)
    requires s !in h.peers
    ensures StagedAsSent(h, s, NoDraft())
  {
  }

  lemma {:induction false} RunStagesAsSent(hs: seq<Home>, es: seq<Move>, env: Env, i: int, s: Session)
    requires EnvOK(env) && RunWith(hs, es, env) && 0 <= i < |hs|
    ensures StagedAsSent(hs[i], s, DraftOf(hs, es, env, i, s))
    decreases i
  {
    if i == 0 {
      NothingStaged(hs[0], s);
    } else {
      RunStagesAsSent(hs, es, env, i - 1, s);
      NextStagedInRun(hs, es, env, i, s);
    }
  }

  /** The names of a slice lead to the IDs that were given for them. */
  ghost predicate Bound(names: Names, ids: map<string, int>) {
    forall name :: name in ids ==> name in names.byName && names.byName[name] == ids[name]
  }

  /** The slot is active with the five slices, under the IDs its connection was told. */
  ghost predicate IsActive(c: Catalog, name: string, d: Draft, functions: set<string>, functionIDs: map<string, int>) {
    && name in c.configs
    && c.configs[name] == Config(d.state.Keys, d.state, d.stateACL, d.events, d.eventACL, functions)
    && Bound(c.paths, d.pathIDs) && Bound(c.topics, d.topicIDs) && Bound(c.functions, functionIDs)
  }

  lemma AcceptedIsStaged(h: Home, s: Session, functions: set<string>, ids: map<string, int>, env: Env)
    requires s in h.peers && h.users <= h.peers.Keys && SyncFunctions(h, s, functions, ids, env.limits, env.enc).1 == Ok
    ensures h.peers[s].role == Coordinator && Current(h, s) && h.peers[s].stage.Some? && h.peers[s].stage.value.expected == FunctionSlice
  {
  }

  lemma CommitsDraft(h: Home, s: Session, functions: set<string>, ids: map<string, int>, env: Env, d: Draft)
    requires s in h.peers && h.users <= h.peers.Keys && SyncFunctions(h, s, functions, ids, env.limits, env.enc).1 == Ok
    requires StagedAsSent(h, s, d)
    ensures IsActive(SyncFunctions(h, s, functions, ids, env.limits, env.enc).0.catalog, h.peers[s].name, d, functions, ids)
  {
    AcceptedIsStaged(h, s, functions, ids, env);
    CommittedCatalog(h, s, functions, ids, env);
    ActivatedIsActive(h.catalog, h.peers[s].name, d, functions, ids, DeclarationOf(h.peers[s].stage.value, functions, ids));
  }

  lemma ActivatedIsActive(c: Catalog, name: string, d: Draft, functions: set<string>, ids: map<string, int>, decl: Declaration)
    requires decl.config == Config(d.state.Keys, d.state, d.stateACL, d.events, d.eventACL, functions)
    requires decl.pathIDs == d.pathIDs && decl.topicIDs == d.topicIDs && decl.functionIDs == ids
    ensures IsActive(Activate(c, name, decl), name, d, functions, ids)
  {
  }

  /**
   Over every run: whenever a declaration becomes active, its slot is active with exactly what its connection
   sent in its last five slices, and its names lead to the IDs it was told for them.
   */
  lemma CommitsWhatWasSent(hs: seq<Home>, es: seq<Move>, env: Env, i: int, s: Session)
    requires EnvOK(env) && RunWith(hs, es, env) && 0 <= i < |es| && Activates(hs[i], es[i], env, s)
    ensures IsActive(hs[i + 1].catalog, hs[i].peers[s].name, DraftOf(hs, es, env, i, s), es[i].deed.functions, es[i].deed.functionIDs)
  {
    RunStagesAsSent(hs, es, env, i, s);
    ReachedHome(hs, es, env, i);
    MoveCommits(hs[i], es[i], env, hs[i + 1], s, DraftOf(hs, es, env, i, s));
  }

  lemma MoveCommits(h: Home, m: Move, env: Env, h': Home, s: Session, d: Draft)
    requires Moves(h, m, env, h') && Activates(h, m, env, s) && StagedAsSent(h, s, d)
    ensures IsActive(h'.catalog, h.peers[s].name, d, m.deed.functions, m.deed.functionIDs)
  {
    CommitsDraft(h, s, m.deed.functions, m.deed.functionIDs, env, d);
  }

  // ---------- answers ----------

  /** A first slice is answered to the connection of a slot, whatever stage is open, if its reply encodes and fits its queue. */
  lemma FirstSliceAnswer(h: Home, s: Session, state: map<string, Value>, ids: map<string, int>, env: Env)
    requires s in h.peers
    ensures var (h', outcome) := SyncState(h, s, state, ids, env.enc);
            && (outcome == Ok <==> h.peers[s].role == Coordinator && Current(h, s)
                                   && env.enc(StateSyncOK(h.catalog.revision, ids)) && Accepts(h.peers[s]))
            && (outcome == Ok ==> h'.peers[s].log == h.peers[s].log + [StateSyncOK(h.catalog.revision, ids)])
  {
  }

  /** A later slice is answered if it is the one the open stage waits for; out of order it drops the stage. */
  lemma LaterSliceAnswer(h: Home, s: Session, l: Label, env: Env)
    requires s in h.peers && h.users <= h.peers.Keys && Enabled(h, s, l) && h.peers[s].role == Coordinator && Current(h, s)
    requires l.LSyncAcl? || l.LSyncEvents? || l.LSyncEventAcl? || l.LSyncFunctions?
    ensures !(h.peers[s].stage.Some? && h.peers[s].stage.value.expected == SliceOf(l)) ==>
              Step(h, s, l, env) == SetPeer(h, s, h.peers[s].(stage := None))
    ensures h.peers[s].stage.Some? && h.peers[s].stage.value.expected == SliceOf(l) && !l.LSyncFunctions?
            && (l.LSyncEvents? ==> env.enc(EventSyncOK(l.topicIDs))) ==>
              var p' := Step(h, s, l, env).peers[s];
              p'.stage.Some? && p'.stage.value.expected == NextSlice(SliceOf(l)) && (Accepts(h.peers[s]) ==> |p'.log| == |h.peers[s].log| + 1)
  {
  }

  function SliceOf(l: Label): Slice {
    match l
    case LSyncAcl(_) => AclSlice
    case LSyncEvents(_, _) => EventSlice
    case LSyncEventAcl(_) => EventAclSlice
    case _ => FunctionSlice
  }

  function NextSlice(slice: Slice): Slice {
    match slice
    case AclSlice => EventSlice
    case EventSlice => EventAclSlice
    case _ => FunctionSlice
  }

  /** An accepted declaration is answered once, ends its stage, and makes its slot ready. */
  lemma AcceptedIsReady(h: Home, s: Session, functions: set<string>, ids: map<string, int>, env: Env)
    requires Membership(h) && SlotsOK(h) && s in h.peers && SyncFunctions(h, s, functions, ids, env.limits, env.enc).1 == Ok
    ensures var h' := SyncFunctions(h, s, functions, ids, env.limits, env.enc).0;
            && s in h'.peers && h'.peers[s].log == h.peers[s].log + [FunctionSyncOK(ids)] && h'.peers[s].stage == None
            && Current(h', s) && h'.slots[h.peers[s].name].ready
  {
    CurrentIsNoUser(h, s);
  }

  /** The timer of the open stage drops it and tells its coordinator; that of another stage does nothing. */
  lemma OpenStageExpires(h: Home, s: Session, serial: nat)
    requires s in h.peers
    ensures var p, h' := h.peers[s], ExpireStage(h, s, serial);
            if p.stage.Some? && p.stage.value.serial == serial
            then s in h'.peers && h'.peers[s].stage == None && (Accepts(p) ==> h'.peers[s].log == p.log + [Other])
            else h' == h
  {
  }
}
