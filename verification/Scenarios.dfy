/** Runs from a new home in which something one might expect does not hold. */
module Scenarios {
  import opened Basics
  import opened Catalogs
  import opened CatalogProofs
  import opened Views
  import opened HomeModel
  import opened Replicas
  import opened Invariants
  import opened HomeTheorems
  import opened HomeHistory
  import opened Acknowledgements
  import opened Timers

  /** Everything encodes, and there is room for nine of everything. */
  function Calm(): Env {
    Env(Limits(9, 9, 9, 9, 9), (f: Frame) => true)
  }

  lemma CalmOK()
    ensures EnvOK(Calm())
  {
  }

  function Newborn(role: Role, user: string, name: string): Peer {
    Peer(role, user, name, 0, false, true, true, 12, [], 0, None, 0, {})
  }

  lemma Extended(hs: seq<Home>, es: seq<Move>, env: Env, m: Move, h': Home)
    requires RunWith(hs, es, env) && Moves(hs[|es|], m, env, h')
    ensures RunWith(hs + [h'], es + [m], env)
  {
    var hs', es' := hs + [h'], es + [m];
    forall i | 0 <= i < |es'| ensures MovesTo(hs', es', env, i) {
      if i < |es| {
        assert MovesTo(hs, es, env, i);
        assert hs'[i] == hs[i] && hs'[i + 1] == hs[i + 1];
      }
    }
  }

  // ---------- steps of a coordinator in a home without users ----------

  /** `s` is the connection of the slot `name`, with room for some frames and a stage or none. */
  ghost predicate Seated(h: Home, s: Session, name: string, room: nat, stage: Option<Stage>) {
    && s in h.peers && s in h.connections && Current(h, s)
    && h.peers[s].role == Coordinator && h.peers[s].name == name && h.peers[s].bootstrapped
    && h.peers[s].open && h.peers[s].live && h.peers[s].room >= room && h.peers[s].stage == stage
  }

  /** Nobody but `s` changed, and of the home at most counters. */
  ghost predicate OnlySeat(h: Home, s: Session, h': Home) {
    && s in h'.peers && h'.peers == h.peers[s := h'.peers[s]]
    && h' == h.(peers := h'.peers, nextPath := h'.nextPath, nextTopic := h'.nextTopic, nextFunction := h'.nextFunction)
  }

  lemma EnqueueTwo(p: Peer, f: Frame, g: Frame)
    ensures EnqueueAll(p, [f, g]) == Enqueue(Enqueue(p, f), g)
  {
    assert [f, g][1..] == [g] && [g][1..] == [];
    assert EnqueueAll(Enqueue(p, f), [g]) == EnqueueAll(Enqueue(Enqueue(p, f), g), []);
  }

  lemma SitsDown(h: Home, s: Session, name: string, leaseValid: bool, env: Env, h': Home)
    requires h.users == {} && s !in h.peers && (name in h.slots || |h.slots| < env.limits.coordinators)
    requires h' == Step(h, s, LAttach(Newborn(Coordinator, "", name), leaseValid), env)
    ensures s in h'.peers && h'.peers == h.peers[s := h'.peers[s]]
    ensures h' == h.(peers := h'.peers, connections := h.connections + {s}, slots := h'.slots)
    ensures h'.slots == h.slots[name := Slot((if name in h.slots then h.slots[name].generation else 0) + 1, Some(s), false, None)]
    ensures leaseValid ==> Seated(h', s, name, 10, None)
    ensures !leaseValid ==> Current(h', s) && !h'.peers[s].bootstrapped && h'.peers[s].role == Coordinator && h'.peers[s].name == name
    ensures h'.peers[s].stageCount == 0
  {
    var p := Newborn(Coordinator, "", name);
    var generation := (if p.name in h.slots then h.slots[p.name].generation else 0) + 1;
    EnqueueTwo(p.(generation := generation), Welcome, PresenceSnapshot(SessionsOf(h)));
  }

  lemma Opens(h: Home, s: Session, name: string, room: nat, state: map<string, Value>, ids: map<string, int>, env: Env, h': Home)
    requires Seated(h, s, name, room, None) && room > 0 && env.enc(StateSyncOK(h.catalog.revision, ids))
    requires Enabled(h, s, LSyncState(state, ids)) && h.users <= h.peers.Keys && h' == Step(h, s, LSyncState(state, ids), env)
    ensures OnlySeat(h, s, h') && h'.nextPath == NextAfter(h.catalog.paths, h.nextPath, ids)
    ensures h'.nextTopic == h.nextTopic && h'.nextFunction == h.nextFunction
    ensures Seated(h', s, name, room - 1, Some(Stage(AclSlice, state, ids, map[], map[], map[], map[], h.peers[s].stageCount, true)))
  {
  }

  lemma StagesAcl(h: Home, s: Session, name: string, room: nat, stage: Stage, acl: map<string, seq<string>>, env: Env, h': Home)
    requires Seated(h, s, name, room, Some(stage)) && room > 0 && stage.expected == AclSlice && h.users <= h.peers.Keys
    requires h' == Step(h, s, LSyncAcl(acl), env)
    ensures OnlySeat(h, s, h') && h'.nextPath == h.nextPath && h'.nextTopic == h.nextTopic && h'.nextFunction == h.nextFunction
    ensures Seated(h', s, name, room - 1, Some(stage.(stateACL := acl, expected := EventSlice)))
  {
  }

  lemma StagesEvents(h: Home, s: Session, name: string, room: nat, stage: Stage, events: map<string, int>, ids: map<string, int>, env: Env, h': Home)
    requires Seated(h, s, name, room, Some(stage)) && room > 0 && stage.expected == EventSlice && env.enc(EventSyncOK(ids))
    requires Enabled(h, s, LSyncEvents(events, ids)) && h.users <= h.peers.Keys && h' == Step(h, s, LSyncEvents(events, ids), env)
    ensures OnlySeat(h, s, h') && h'.nextPath == h.nextPath && h'.nextFunction == h.nextFunction
    ensures h'.nextTopic == NextAfter(h.catalog.topics, h.nextTopic, ids)
    ensures Seated(h', s, name, room - 1, Some(stage.(events := events, topicIDs := ids, expected := EventAclSlice)))
  {
  }

  lemma StagesEventAcl(h: Home, s: Session, name: string, room: nat, stage: Stage, acl: map<string, EventAccess>, env: Env, h': Home)
    requires Seated(h, s, name, room, Some(stage)) && room > 0 && stage.expected == EventAclSlice && h.users <= h.peers.Keys
    requires h' == Step(h, s, LSyncEventAcl(acl), env)
    ensures OnlySeat(h, s, h') && h'.nextPath == h.nextPath && h'.nextTopic == h.nextTopic && h'.nextFunction == h.nextFunction
    ensures Seated(h', s, name, room - 1, Some(stage.(eventACL := acl, expected := FunctionSlice)))
  {
  }

  lemma NobodyToRefresh(h: Home)
    requires h.users == {}
    ensures RefreshUsers(h) == h
  {
  }

  lemma CommitIs(h: Home, s: Session, functions: set<string>, ids: map<string, int>, d: Declaration, env: Env, p': Peer, h': Home)
    requires s in h.peers && h.users == {} && SliceRefusal(h, s, FunctionSlice) == Ok && Accepts(h.peers[s])
    requires h.peers[s].name in h.slots && d == DeclarationOf(h.peers[s].stage.value, functions, ids)
    requires ActivationRefusal(h.catalog, h.peers[s].name, d, {}, env.limits, env.enc) == Ok
    requires p' == Enqueue(h.peers[s], FunctionSyncOK(ids)).(stage := None)
    requires h' == Committed(SetPeer(h.(nextFunction := NextAfter(h.catalog.functions, h.nextFunction, ids)), s, p'), h.peers[s].name, d)
    ensures SyncFunctions(h, s, functions, ids, env.limits, env.enc).0 == h'
  {
    assert ConnectedIDs(h) == {};
    NobodyToRefresh(h');
  }

  /** The last slice, in a home without users. */
  lemma Commits(h: Home, s: Session, name: string, room: nat, stage: Stage, functions: set<string>, ids: map<string, int>,
                d: Declaration, env: Env, h': Home)
    requires Seated(h, s, name, room, Some(stage)) && room > 0 && stage.expected == FunctionSlice && h.users == {}
    requires d == DeclarationOf(stage, functions, ids) && ActivationRefusal(h.catalog, name, d, {}, env.limits, env.enc) == Ok
    requires Enabled(h, s, LSyncFunctions(functions, ids)) && h' == Step(h, s, LSyncFunctions(functions, ids), env)
    ensures s in h'.peers && h'.peers == h.peers[s := h'.peers[s]] && h'.users == {} && h'.connections == h.connections
    ensures h'.catalog == Activate(h.catalog, name, d)
    ensures h'.slots == h.slots[name := h.slots[name].(ready := true)] && h'.epoch == h.epoch
    ensures h'.nextPath == h.nextPath && h'.nextTopic == h.nextTopic
    ensures Seated(h', s, name, room - 1, None)
  {
    var p' := Enqueue(h.peers[s], FunctionSyncOK(ids)).(stage := None);
    var burnt := h.(nextFunction := NextAfter(h.catalog.functions, h.nextFunction, ids));
    var committed := Committed(SetPeer(burnt, s, p'), name, d);
    CommitIs(h, s, functions, ids, d, env, p', committed);
    CommittedSeat(h, s, name, room, stage, ids, d, p', committed);
  }

  lemma CommittedSeat(h: Home, s: Session, name: string, room: nat, stage: Stage, ids: map<string, int>, d: Declaration, p': Peer, h': Home)
    requires Seated(h, s, name, room, Some(stage)) && room > 0 && h.users == {}
    requires p' == Enqueue(h.peers[s], FunctionSyncOK(ids)).(stage := None)
    requires h' == Committed(SetPeer(h.(nextFunction := NextAfter(h.catalog.functions, h.nextFunction, ids)), s, p'), name, d)
    ensures s in h'.peers && h'.peers == h.peers[s := h'.peers[s]] && h'.users == {} && h'.connections == h.connections
    ensures h'.catalog == Activate(h.catalog, name, d)
    ensures h'.slots == h.slots[name := h.slots[name].(ready := true)] && h'.epoch == h.epoch
    ensures h'.nextPath == h.nextPath && h'.nextTopic == h.nextTopic
    ensures Seated(h', s, name, room - 1, None)
  {
  }

  lemma GetsUp(h: Home, s: Session, name: string, stage: Option<Stage>, env: Env, h': Home)
    requires Seated(h, s, name, 0, stage) && h.users <= h.peers.Keys && h' == Step(h, s, LDetach, env)
    ensures s in h'.peers && h'.peers == h.peers[s := h'.peers[s]]
    ensures h' == h.(peers := h'.peers, connections := h.connections - {s}, slots := h'.slots)
    ensures h'.slots == h.slots[name := Slot(h.slots[name].generation, None, false, Some(h.slots[name].generation))]
  {
  }

  lemma RunsOut(h: Home, s: Session, name: string, env: Env, h': Home)
    requires h.users == {} && name in h.slots && h.slots[name].connection.None? && name in h.catalog.configs
    requires h' == Step(h, s, LExpire(name, h.slots[name].generation), env)
    ensures h' == h.(slots := h.slots - {name}, catalog := Remove(h.catalog, name), policy := h.policy + 1)
  {
    NobodyToRefresh(h.(slots := h.slots - {name}, catalog := Remove(h.catalog, name), policy := h.policy + 1));
  }

  /** Reserving for one name that has no ID yet, and for none. */
  lemma OneNameIsNew(names: Names, next: int, name: string)
    requires name !in names.byName
    ensures Reserves(names, next, {name}, map[name := next]) && NextAfter(names, next, map[name := next]) == next + 1
    ensures Reserves(names, next, {}, map[]) && NextAfter(names, next, map[]) == next
  {
    assert Unbound(names.byName, map[name := next]) == {name};
    assert Unbound(names.byName, map[]) == {};
  }

  lemma NothingIsNew(names: Names, next: int)
    ensures Reserves(names, next, {}, map[]) && NextAfter(names, next, map[]) == next
  {
    assert Unbound(names.byName, map[]) == {};
  }

  lemma StaysSeated(h: Home, s: Session, h': Home, t: Session, name: string, room: nat, stage: Option<Stage>)
    requires s != t && Seated(h, t, name, room, stage)
    requires s in h'.peers && h'.peers == h.peers[s := h'.peers[s]] && t in h'.connections
    requires name in h'.slots && h'.slots[name].connection == h.slots[name].connection
    requires h'.slots[name].generation == h.slots[name].generation
    ensures Seated(h', t, name, room, stage)
  {
  }

  /** The three slices between the first and the last. */
  lemma FillsStage(hs: seq<Home>, es: seq<Move>, s: Session, name: string, room: nat, stage: Stage, acl: map<string, seq<string>>,
                   events: map<string, int>, ids: map<string, int>, eventACL: map<string, EventAccess>)
    returns (hs': seq<Home>, es': seq<Move>)
    requires RunWith(hs, es, Calm()) && hs[|es|].users == {}
    requires Seated(hs[|es|], s, name, room, Some(stage)) && room > 2 && stage.expected == AclSlice
    requires Reserves(hs[|es|].catalog.topics, hs[|es|].nextTopic, events.Keys, ids)
    ensures RunWith(hs', es', Calm()) && |es'| == |es| + 3 && OnlySeat(hs[|es|], s, hs'[|es'|])
    ensures hs'[|es'|].nextPath == hs[|es|].nextPath && hs'[|es'|].nextFunction == hs[|es|].nextFunction
    ensures hs'[|es'|].nextTopic == NextAfter(hs[|es|].catalog.topics, hs[|es|].nextTopic, ids)
    ensures Seated(hs'[|es'|], s, name, room - 3,
                   Some(stage.(stateACL := acl, events := events, topicIDs := ids, eventACL := eventACL, expected := FunctionSlice)))
  {
    var env := Calm();
    var h := hs[|es|];
    var m1, m2, m3 := Move(s, LSyncAcl(acl)), Move(s, LSyncEvents(events, ids)), Move(s, LSyncEventAcl(eventACL));
    var h1 := Step(h, s, m1.deed, env);
    StagesAcl(h, s, name, room, stage, acl, env, h1);
    var h2 := Step(h1, s, m2.deed, env);
    StagesEvents(h1, s, name, room - 1, stage.(stateACL := acl, expected := EventSlice), events, ids, env, h2);
    var h3 := Step(h2, s, m3.deed, env);
    StagesEventAcl(h2, s, name, room - 2, stage.(stateACL := acl, events := events, topicIDs := ids, expected := EventAclSlice), eventACL, env, h3);
    Extended(hs, es, env, m1, h1);
    Extended(hs + [h1], es + [m1], env, m2, h2);
    Extended(hs + [h1] + [h2], es + [m1] + [m2], env, m3, h3);
    hs', es' := hs + [h1] + [h2] + [h3], es + [m1] + [m2] + [m3];
  }

  lemma InverseOfOne(ids: map<string, int>, name: string, id: int)
    requires ids == map[name := id]
    ensures Inverse(ids) == map[id := name]
  {
    assert ids[name] == id && ids.Values == {id};
    InverseLeadsBack(ids);
    assert Inverse(ids)[ids[name]] == name;
  }

  lemma InverseOfNone(ids: map<string, int>)
    requires ids == map[]
    ensures Inverse(ids) == map[]
  {
    assert ids.Values == {};
  }

  lemma BindNothing(names: Names, ids: map<string, int>)
    requires ids == map[]
    ensures Bind(names, ids) == names
  {
    InverseOfNone(ids);
  }

  lemma BindOne(names: Names, ids: map<string, int>, name: string, id: int)
    requires ids == map[name := id] && names.byName.Keys <= {name} && id !in names.byID
    ensures Bind(names, ids).byName == map[name := id]
    ensures Bind(names, ids).byID == names.byID[id := name]
  {
    InverseOfOne(ids, name, id);
  }

  lemma {:induction false} EnqueueAllFits(p: Peer, fs: seq<Frame>)
    requires p.open && p.room >= |fs|
    ensures EnqueueAll(p, fs) == p.(log := p.log + fs, room := p.room - |fs|)
    decreases |fs|
  {
    if fs != [] {
      EnqueueAllFits(Enqueue(p, fs[0]), fs[1..]);
      assert fs == [fs[0]] + fs[1..];
      assert p.log + [fs[0]] + fs[1..] == p.log + fs;
    }
  }

  // ---------- a slot that was deleted and created again ----------

  lemma LeavesEarly(h: Home, s: Session, name: string, env: Env, h': Home)
    requires s in h.peers && s in h.connections && Current(h, s) && h.users <= h.peers.Keys
    requires !h.peers[s].bootstrapped && h.peers[s].role == Coordinator && h.peers[s].name == name && name !in h.catalog.configs
    requires h' == Step(h, s, LDetach, env)
    ensures h'.slots == h.slots - {name} && h'.users == h.users && h'.catalog == h.catalog && h'.peers.Keys == h.peers.Keys
  {
  }

  /** The first home, and a coordinator that came and went. */
  lemma CameAndWent() returns (hs: seq<Home>, es: seq<Move>)
    ensures RunWith(hs, es, Calm()) && |hs| == 3
    ensures hs[2].users == {} && hs[2].peers.Keys == {0} && hs[2].catalog.configs == map[]
    ensures hs[2].slots == map["a" := Slot(1, None, false, Some(1))]
  {
    var env := Calm();
    var h0 := NewHome(0);
    var m0, m1 := Move(0, LAttach(Newborn(Coordinator, "", "a"), true)), Move(0, LDetach);
    var h1 := Step(h0, 0, m0.deed, env);
    SitsDown(h0, 0, "a", true, env, h1);
    var h2 := Step(h1, 0, m1.deed, env);
    GetsUp(h1, 0, "a", None, env, h2);
    hs, es := [h0], [];
    assert RunWith(hs, es, env);
    Extended(hs, es, env, m0, h1);
    Extended([h0] + [h1], [] + [m0], env, m1, h2);
    hs, es := [h0] + [h1] + [h2], [] + [m0] + [m1];
  }

  /** A timer is set, somebody connects, the slot is deleted, created, and left again: the first timer removes it. */
  ghost predicate Forgets(hs: seq<Home>) {
    && |hs| == 7
    && "a" in hs[2].slots && hs[2].slots["a"].grace == Some(1)
    && "a" in hs[3].slots && hs[3].slots["a"].connection.Some?
    && "a" !in hs[4].slots
    && "a" in hs[5].slots && hs[5].slots["a"].connection.Some?
    && "a" in hs[6].slots && hs[6].slots["a"].grace == Some(1)
    && "a" !in Expire(hs[6], "a", 1).slots
  }

  /**
   Generations start again with a slot: a timer set before the slot was deleted removes the one created
   since, although somebody has connected in between and the new timer has only just been set.
   */
  lemma DeletedSlotsForget()
    ensures exists hs: seq<Home>, es: seq<Move> :: RunWith(hs, es, Calm()) && Forgets(hs)
  {
    var env := Calm();
    var hs, es := CameAndWent();
    var m2, m3 := Move(1, LAttach(Newborn(Coordinator, "", "a"), false)), Move(1, LDetach);
    var h3 := Step(hs[2], 1, m2.deed, env);
    SitsDown(hs[2], 1, "a", false, env, h3);
    var h4 := Step(h3, 1, m3.deed, env);
    LeavesEarly(h3, 1, "a", env, h4);
    Extended(hs, es, env, m2, h3);
    Extended(hs + [h3], es + [m2], env, m3, h4);
    Returns(hs + [h3] + [h4], es + [m2] + [m3]);
  }

  lemma Returns(hs: seq<Home>, es: seq<Move>)
    requires RunWith(hs, es, Calm()) && |hs| == 5
    requires "a" in hs[2].slots && hs[2].slots["a"].grace == Some(1)
    requires "a" in hs[3].slots && hs[3].slots["a"].connection.Some?
    requires hs[4].slots == map[] && hs[4].users == {} && 2 !in hs[4].peers
    ensures exists hs: seq<Home>, es: seq<Move> :: RunWith(hs, es, Calm()) && Forgets(hs)
  {
    var env := Calm();
    var m4, m5 := Move(2, LAttach(Newborn(Coordinator, "", "a"), true)), Move(2, LDetach);
    var h5 := Step(hs[4], 2, m4.deed, env);
    SitsDown(hs[4], 2, "a", true, env, h5);
    var h6 := Step(h5, 2, m5.deed, env);
    GetsUp(h5, 2, "a", None, env, h6);
    Extended(hs, es, env, m4, h5);
    Extended(hs + [h5], es + [m4], env, m5, h6);
    var all := hs + [h5] + [h6];
    assert all[2] == hs[2] && all[3] == hs[3] && all[4] == hs[4] && all[5] == h5 && all[6] == h6;
    assert RunWith(all, es + [m4] + [m5], env);
  }

  // ---------- a stage that never expires ----------

  /** As before, but a STATE_SYNC_OK with an entry does not encode. */
  function Narrow(): Env {
    Env(Limits(9, 9, 9, 9, 9), (f: Frame) => !(f.StateSyncOK? && f.pathIDs != map[]))
  }

  lemma Halts(h: Home, s: Session, name: string, room: nat, stage: Stage, state: map<string, Value>, ids: map<string, int>, h': Home)
    requires Seated(h, s, name, room, Some(stage)) && ids != map[] && h.users <= h.peers.Keys
    requires Enabled(h, s, LSyncState(state, ids)) && h' == Step(h, s, LSyncState(state, ids), Narrow())
    ensures Seated(h', s, name, room, Some(stage.(timer := false)))
  {
  }

  ghost predicate Stranded(h: Home, s: Session) {
    s in h.peers && h.peers[s].stage.Some? && !h.peers[s].stage.value.timer && !Timed(h)
  }

  /** A coordinator that has opened an empty stage. */
  lemma OpensEmpty() returns (hs: seq<Home>, es: seq<Move>)
    ensures RunWith(hs, es, Narrow()) && |hs| == 3
    ensures hs[2].users == {} && hs[2].catalog == NewHome(0).catalog && hs[2].nextPath == 1
    ensures exists stage :: Seated(hs[2], 0, "a", 9, Some(stage))
  {
    var env := Narrow();
    var h0 := NewHome(0);
    var m0, m1 := Move(0, LAttach(Newborn(Coordinator, "", "a"), true)), Move(0, LSyncState(map[], map[]));
    var h1 := Step(h0, 0, m0.deed, env);
    SitsDown(h0, 0, "a", true, env, h1);
    assert Unbound(h1.catalog.paths.byName, map[]) == {};
    var h2 := Step(h1, 0, m1.deed, env);
    Opens(h1, 0, "a", 10, map[], map[], env, h2);
    hs, es := [h0], [];
    assert RunWith(hs, es, env);
    Extended(hs, es, env, m0, h1);
    Extended([h0] + [h1], [] + [m0], env, m1, h2);
    hs, es := [h0] + [h1] + [h2], [] + [m0] + [m1];
  }

  /** A coordinator opens a stage and sends a first slice again whose reply does not encode: its stage is left without a timer. */
  lemma StrandedStageIsReachable()
    ensures EnvOK(Narrow())
    ensures exists hs: seq<Home>, es: seq<Move> :: RunWith(hs, es, Narrow()) && |hs| == 4 && Stranded(hs[3], 0)
  {
    var hs, es := OpensEmpty();
    var h2 := hs[2];
    var stage :| Seated(h2, 0, "a", 9, Some(stage));
    var m2 := Move(0, LSyncState(map["x" := Null], map["x" := 1]));
    OneNameIsNew(h2.catalog.paths, 1, "x");
    assert (map["x" := Null]).Keys == {"x"};
    var h3 := Step(h2, 0, m2.deed, Narrow());
    Halts(h2, 0, "a", 9, stage, map["x" := Null], map["x" := 1], h3);
    Extended(hs, es, Narrow(), m2, h3);
    assert (hs + [h3])[3] == h3 && Stranded(h3, 0);
    assert RunWith(hs + [h3], es + [m2], Narrow());
  }
}
