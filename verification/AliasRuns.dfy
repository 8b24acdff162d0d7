/** A run in which the two directions of a dictionary part and a replica goes astray, and one in which a followed topic has no owner. */
module AliasRuns {
  import opened Basics
  import opened Catalogs
  import opened CatalogProofs
  import opened Views
  import opened HomeModel
  import opened Replicas
  import opened Invariants
  import opened HomeTheorems
  import opened Acknowledgements
  import opened Scenarios
  import opened Aliases
  import opened Events

  // ---------- two coordinators stage the same path ----------

  function StageX(id: int): Stage {
    Stage(AclSlice, map["x" := Null], map["x" := id], map[], map[], map[], map[], 0, true)
  }

  /** Two coordinators have attached. */
  ghost predicate BothHere(h: Home) {
    && h == NewHome(0).(peers := h.peers, connections := {0, 1}, slots := map["a" := Slot(1, Some(0), false, None), "b" := Slot(1, Some(1), false, None)])
    && h.peers.Keys == {0, 1} && h.peers[0].stageCount == 0 && h.peers[1].stageCount == 0
    && Seated(h, 0, "a", 10, None) && Seated(h, 1, "b", 10, None)
  }

  lemma SecondAttaches(h0: Home, h1: Home, h2: Home)
    requires h0 == NewHome(0) && h1 == Step(h0, 0, LAttach(Newborn(Coordinator, "", "a"), true), Calm())
    requires h2 == Step(h1, 1, LAttach(Newborn(Coordinator, "", "b"), true), Calm())
    ensures Moves(h0, Move(0, LAttach(Newborn(Coordinator, "", "a"), true)), Calm(), h1)
    ensures Moves(h1, Move(1, LAttach(Newborn(Coordinator, "", "b"), true)), Calm(), h2)
    ensures BothHere(h2)
  {
    SitsDown(h0, 0, "a", true, Calm(), h1);
    SitsDown(h1, 1, "b", true, Calm(), h2);
    StaysSeated(h1, 1, h2, 0, "a", 10, None);
    assert h2.slots == map["a" := Slot(1, Some(0), false, None), "b" := Slot(1, Some(1), false, None)];
  }

  lemma BothAttach() returns (hs: seq<Home>, es: seq<Move>)
    ensures RunWith(hs, es, Calm()) && |hs| == 3 && BothHere(hs[2])
  {
    var env := Calm();
    var h0 := NewHome(0);
    var m0, m1 := Move(0, LAttach(Newborn(Coordinator, "", "a"), true)), Move(1, LAttach(Newborn(Coordinator, "", "b"), true));
    var h1 := Step(h0, 0, m0.deed, env);
    var h2 := Step(h1, 1, m1.deed, env);
    SecondAttaches(h0, h1, h2);
    hs, es := [h0], [];
    assert RunWith(hs, es, env);
    Extended(hs, es, env, m0, h1);
    Extended([h0] + [h1], [] + [m0], env, m1, h2);
    hs, es := [h0] + [h1] + [h2], [] + [m0] + [m1];
  }

  /** Both have staged the same new path, and were told different IDs. */
  ghost predicate BothStaged(h: Home) {
    && h == NewHome(0).(peers := h.peers, connections := {0, 1}, nextPath := 3,
                        slots := map["a" := Slot(1, Some(0), false, None), "b" := Slot(1, Some(1), false, None)])
    && h.peers.Keys == {0, 1}
    && Seated(h, 0, "a", 9, Some(StageX(1))) && Seated(h, 1, "b", 9, Some(StageX(2)))
  }

  lemma SecondStages(h2: Home, h3: Home, h4: Home)
    requires BothHere(h2) && Reserves(h2.catalog.paths, 1, {"x"}, map["x" := 1]) && Reserves(h2.catalog.paths, 2, {"x"}, map["x" := 2])
    requires NextAfter(h2.catalog.paths, 1, map["x" := 1]) == 2 && NextAfter(h2.catalog.paths, 2, map["x" := 2]) == 3
    requires h3 == Step(h2, 0, LSyncState(map["x" := Null], map["x" := 1]), Calm())
    requires 1 in h3.peers && h3.users == {} && h4 == Step(h3, 1, LSyncState(map["x" := Null], map["x" := 2]), Calm())
    ensures Moves(h2, Move(0, LSyncState(map["x" := Null], map["x" := 1])), Calm(), h3)
    ensures Moves(h3, Move(1, LSyncState(map["x" := Null], map["x" := 2])), Calm(), h4)
    ensures BothStaged(h4)
  {
    assert (map["x" := Null]).Keys == {"x"};
    Opens(h2, 0, "a", 10, map["x" := Null], map["x" := 1], Calm(), h3);
    StaysSeated(h2, 0, h3, 1, "b", 10, None);
    Opens(h3, 1, "b", 10, map["x" := Null], map["x" := 2], Calm(), h4);
    StaysSeated(h3, 1, h4, 0, "a", 9, Some(StageX(1)));
  }

  lemma FirstStages(h2: Home, h3: Home)
    requires BothHere(h2) && Enabled(h2, 0, LSyncState(map["x" := Null], map["x" := 1]))
    requires h3 == Step(h2, 0, LSyncState(map["x" := Null], map["x" := 1]), Calm())
    ensures 1 in h3.peers && h3.users == {}
  {
  }

  lemma BothStage() returns (hs: seq<Home>, es: seq<Move>)
    ensures RunWith(hs, es, Calm()) && |hs| == 5 && BothStaged(hs[4])
  {
    var env := Calm();
    hs, es := BothAttach();
    var h2 := hs[2];
    var m2, m3 := Move(0, LSyncState(map["x" := Null], map["x" := 1])), Move(1, LSyncState(map["x" := Null], map["x" := 2]));
    OneNameIsNew(h2.catalog.paths, 1, "x");
    OneNameIsNew(h2.catalog.paths, 2, "x");
    var h3 := Step(h2, 0, m2.deed, env);
    FirstStages(h2, h3);
    var h4 := Step(h3, 1, m3.deed, env);
    SecondStages(h2, h3, h4);
    Extended(hs, es, env, m2, h3);
    Extended(hs + [h3], es + [m2], env, m3, h4);
    hs, es := hs + [h3] + [h4], es + [m2] + [m3];
  }

  /** What the first coordinator declares: the path, and a topic. */
  predicate OfA(d: Declaration) {
    && d.config.ownedState == {"x"} && d.config.state == map["x" := Null] && d.config.stateACL == map[]
    && d.config.events == map["t" := 0] && d.config.eventACL == map[] && d.config.functions == {}
    && d.pathIDs == map["x" := 1] && d.topicIDs == map["t" := 1] && d.functionIDs == map[]
  }

  /** Events and topic IDs of the second one: it declares the same topic, and may publish it to users, or no topic. */
  predicate TopicsOfB(events: map<string, int>, ids: map<string, int>, own: bool) {
    if own then events == map["t" := PUBLISH_USERS] && ids == map["t" := 2] else events == map[] && ids == map[]
  }

  /** The second one lets the user u see the path and follow the topic, its own or that of the first. */
  predicate OfB(d: Declaration, own: bool) {
    && d.config.ownedState == {"x"} && d.config.state == map["x" := Null] && d.config.stateACL == map["u" := ["x"]]
    && TopicsOfB(d.config.events, d.topicIDs, own) && d.config.eventACL == map["u" := EventAccess([], ["t"])] && d.config.functions == {}
    && d.pathIDs == map["x" := 2] && d.functionIDs == map[]
  }

  lemma FewNames(names: map<string, int>, ids: map<string, int>)
    ensures DictionaryCount(names, ids) <= |names| + |ids|
  {
    SubsetSize(Unbound(names, ids), ids.Keys);
    assert |ids.Keys| == |ids|;
  }

  /** The checks of an activation pass when nobody owns anything and little is declared. */
  lemma LittleIsAccepted(c: Catalog, slot: string, d: Declaration)
    requires c.stateOwners == map[] && c.topicOwners == map[] && c.functionOwners == map[] && slot !in c.configs
    requires |c.paths.byName| <= 1 && |c.topics.byName| <= 1 && |c.functions.byName| <= 1
    requires OfA(d) || OfB(d, true) || OfB(d, false)
    ensures ActivationRefusal(c, slot, d, {}, Calm().limits, Calm().enc) == Ok
  {
    FewNames(c.paths.byName, d.pathIDs);
    FewNames(c.topics.byName, d.topicIDs);
    FewNames(c.functions.byName, d.functionIDs);
    assert d.config.state.Keys == {"x"};
    assert d.config.events.Keys <= {"t"};
  }

  /** What the first coordinator leaves behind once its slot has expired: dictionaries only. */
  lemma LeftBehind(c0: Catalog, d: Declaration, c: Catalog)
    requires c0 == NewHome(0).catalog && OfA(d) && c == Remove(Activate(c0, "a", d), "a")
    ensures c.configs == map[] && c.stateOwners == map[] && c.topicOwners == map[] && c.functionOwners == map[] && c.state == map[]
    ensures c.paths == Names(map["x" := 1], map[1 := "x"]) && c.topics == Names(map["t" := 1], map[1 := "t"])
    ensures c.functions == Names(map[], map[])
  {
    BindOne(c0.paths, d.pathIDs, "x", 1);
    BindOne(c0.topics, d.topicIDs, "t", 1);
    BindNothing(c0.functions, d.functionIDs);
    OwnersLeft(c0.stateOwners, d.config.ownedState, "a");
    OwnersLeft(c0.topicOwners, d.config.events.Keys, "a");
    OwnersLeft(c0.functionOwners, d.config.functions, "a");
  }

  lemma OwnersLeft(owners: map<string, string>, names: set<string>, slot: string)
    requires owners == map[]
    ensures Reown(owners, {}, names, slot) - names == map[]
  {
  }

  /** Whether the second one owns the topic by now, under the ID it was told before. */
  predicate TopicOfB(c: Catalog, own: bool) {
    if own then c.topicOwners == map["t" := "b"] && c.topics == Names(map["t" := 2], map[1 := "t", 2 := "t"])
    else c.topicOwners == map[] && c.topics == Names(map["t" := 1], map[1 := "t"])
  }

  /** Then the second coordinator activates with the ID it was told before: the path has an alias. */
  lemma Aliased(r: Catalog, d: Declaration, own: bool, c: Catalog)
    requires r.configs == map[] && r.stateOwners == map[] && r.functionOwners == map[] && r.state == map[]
    requires r.paths == Names(map["x" := 1], map[1 := "x"]) && OfB(d, own) && TopicOfB(r, false) && c == Activate(r, "b", d)
    ensures c.configs == map["b" := d.config] && c.stateOwners == map["x" := "b"] && c.state == map["x" := Null]
    ensures c.paths == Names(map["x" := 2], map[1 := "x", 2 := "x"])
    ensures TopicOfB(c, own) && !Inverses(c.paths)
  {
    PathAliased(r.paths, d.pathIDs, c.paths);
    TopicAliased(r, d, own, c);
    OwnersClaimed(c.stateOwners, r.stateOwners, d.config.state.Keys, "x");
  }

  lemma PathAliased(names: Names, ids: map<string, int>, names': Names)
    requires names == Names(map["x" := 1], map[1 := "x"]) && ids == map["x" := 2] && names' == Bind(names, ids)
    ensures names' == Names(map["x" := 2], map[1 := "x", 2 := "x"]) && !Inverses(names')
  {
    BindOne(names, ids, "x", 2);
    AliasIsNoInverse(names');
  }

  lemma TopicAliased(r: Catalog, d: Declaration, own: bool, c: Catalog)
    requires r.configs == map[] && OfB(d, own) && TopicOfB(r, false)
    requires c.topics == Bind(r.topics, d.topicIDs) && c.topicOwners == Reown(r.topicOwners, {}, d.config.events.Keys, "b")
    ensures TopicOfB(c, own)
  {
    if own {
      BindOne(r.topics, d.topicIDs, "t", 2);
      OwnersClaimed(c.topicOwners, r.topicOwners, d.config.events.Keys, "t");
    } else {
      BindNothing(r.topics, d.topicIDs);
    }
  }

  lemma OwnersClaimed(owners': map<string, string>, owners: map<string, string>, names: set<string>, name: string)
    requires owners == map[] && names == {name} && owners' == Reown(owners, {}, names, "b")
    ensures owners' == map[name := "b"]
  {
  }

  lemma AliasIsNoInverse(names: Names)
    requires names.byName == map["x" := 2] && 1 in names.byID && names.byID[1] == "x"
    ensures !Inverses(names)
  {
    assert names.byName["x"] != 1;
  }

  predicate FullA(stage: Stage) {
    stage == StageX(1).(stateACL := map[], events := map["t" := 0], topicIDs := map["t" := 1], eventACL := map[], expected := FunctionSlice)
  }

  predicate FullB(stage: Stage, own: bool) {
    && TopicsOfB(stage.events, stage.topicIDs, own)
    && stage == StageX(2).(stateACL := map["u" := ["x"]], events := stage.events, topicIDs := stage.topicIDs,
                           eventACL := map["u" := EventAccess([], ["t"])], expected := FunctionSlice)
  }

  ghost predicate Filling(h: Home, nextTopic: int) {
    && h == NewHome(0).(peers := h.peers, connections := {0, 1}, nextPath := 3, nextTopic := nextTopic,
                        slots := map["a" := Slot(1, Some(0), false, None), "b" := Slot(1, Some(1), false, None)])
    && h.peers.Keys == {0, 1}
  }

  lemma FirstFills() returns (hs: seq<Home>, es: seq<Move>, stage: Stage)
    ensures RunWith(hs, es, Calm()) && Filling(hs[|es|], 2) && FullA(stage)
    ensures Seated(hs[|es|], 0, "a", 6, Some(stage)) && Seated(hs[|es|], 1, "b", 9, Some(StageX(2)))
  {
    hs, es := BothStage();
    var h4 := hs[4];
    OneNameIsNew(h4.catalog.topics, 1, "t");
    var events := map["t" := 0];
    assert events.Keys == {"t"};
    stage := StageX(1).(stateACL := map[], events := events, topicIDs := map["t" := 1], eventACL := map[], expected := FunctionSlice);
    hs, es := FillsStage(hs, es, 0, "a", 9, StageX(1), map[], events, map["t" := 1], map[]);
    StaysSeated(h4, 0, hs[|es|], 1, "b", 9, Some(StageX(2)));
  }

  /** Both stages are full. */
  ghost predicate BothAreFull(h: Home, stageA: Stage, stageB: Stage, own: bool) {
    && Filling(h, if own then 3 else 2) && FullA(stageA) && FullB(stageB, own)
    && Seated(h, 0, "a", 6, Some(stageA)) && Seated(h, 1, "b", 6, Some(stageB))
  }

  lemma SecondFills(own: bool) returns (hs: seq<Home>, es: seq<Move>, stageA: Stage, stageB: Stage)
    ensures RunWith(hs, es, Calm()) && BothAreFull(hs[|es|], stageA, stageB, own)
  {
    hs, es, stageA := FirstFills();
    var h := hs[|es|];
    OneNameIsNew(h.catalog.topics, 2, "t");
    var acl, eventACL := map["u" := ["x"]], map["u" := EventAccess([], ["t"])];
    var events, ids: map<string, int> := map[], map[];
    if own {
      events, ids := map["t" := PUBLISH_USERS], map["t" := 2];
    }
    assert events.Keys == if own then {"t"} else {};
    stageB := StageX(2).(stateACL := acl, events := events, topicIDs := ids, eventACL := eventACL, expected := FunctionSlice);
    hs, es := FillsStage(hs, es, 1, "b", 9, StageX(2), acl, events, ids, eventACL);
    StaysSeated(h, 1, hs[|es|], 0, "a", 6, Some(stageA));
  }

  // ---------- the first one activates and leaves ----------

  /** The first coordinator is active, the second still has its stage. */
  ghost predicate FirstIsActive(h: Home, d: Declaration, stageB: Stage) {
    && OfA(d) && h.catalog == Activate(NewHome(0).catalog, "a", d)
    && h.users == {} && h.connections == {0, 1} && h.epoch == 0 && h.peers.Keys == {0, 1}
    && h.slots.Keys == {"a", "b"} && h.slots["a"].generation == 1
    && Seated(h, 0, "a", 0, None) && Seated(h, 1, "b", 6, Some(stageB))
  }

  lemma StageOfA(stage: Stage, d: Declaration)
    requires FullA(stage) && d == DeclarationOf(stage, {}, map[])
    ensures OfA(d)
  {
    assert stage.state.Keys == {"x"};
  }

  lemma FirstNowActive(h: Home, stageA: Stage, stageB: Stage, own: bool, d: Declaration, h': Home)
    requires BothAreFull(h, stageA, stageB, own) && OfA(d)
    requires h'.catalog == Activate(h.catalog, "a", d) && h'.epoch == h.epoch
    requires 0 in h'.peers && h'.peers == h.peers[0 := h'.peers[0]] && h'.users == {} && h'.connections == h.connections
    requires h'.slots == h.slots["a" := h.slots["a"].(ready := true)] && Seated(h', 0, "a", 5, None)
    ensures FirstIsActive(h', d, stageB)
  {
    StaysSeated(h, 0, h', 1, "b", 6, Some(stageB));
  }

  lemma FirstActivates(own: bool) returns (hs: seq<Home>, es: seq<Move>, d: Declaration, stageB: Stage)
    ensures RunWith(hs, es, Calm()) && FirstIsActive(hs[|es|], d, stageB) && FullB(stageB, own)
  {
    var stageA: Stage;
    hs, es, stageA, stageB := SecondFills(own);
    var h := hs[|es|];
    NothingIsNew(h.catalog.functions, h.nextFunction);
    d := DeclarationOf(stageA, {}, map[]);
    StageOfA(stageA, d);
    LittleIsAccepted(h.catalog, "a", d);
    var m := Move(0, LSyncFunctions({}, map[]));
    var h' := Step(h, 0, m.deed, Calm());
    Commits(h, 0, "a", 6, stageA, {}, map[], d, Calm(), h');
    FirstNowActive(h, stageA, stageB, own, d, h');
    Extended(hs, es, Calm(), m, h');
    hs, es := hs + [h'], es + [m];
  }

  /** The first coordinator is gone, its names are free, and its IDs remain. */
  ghost predicate FirstIsGone(h: Home, stageB: Stage) {
    && h.users == {} && 1 in h.connections && h.epoch == 0 && h.peers.Keys == {0, 1}
    && h.catalog.configs == map[] && h.catalog.stateOwners == map[]
    && h.catalog.functionOwners == map[] && h.catalog.state == map[]
    && h.catalog.paths == Names(map["x" := 1], map[1 := "x"]) && TopicOfB(h.catalog, false)
    && h.catalog.functions == Names(map[], map[]) && h.slots.Keys == {"b"}
    && Seated(h, 1, "b", 6, Some(stageB))
  }

  lemma FirstDetaches(h: Home, d: Declaration, stageB: Stage, h1: Home)
    requires FirstIsActive(h, d, stageB) && h1 == Step(h, 0, LDetach, Calm())
    ensures Moves(h, Move(0, LDetach), Calm(), h1)
    ensures h1.catalog == h.catalog && h1.users == {} && 1 in h1.connections && h1.epoch == 0 && h1.peers.Keys == {0, 1}
    ensures h1.slots.Keys == {"a", "b"} && h1.slots["a"].connection.None? && h1.slots["a"].generation == 1
    ensures h1.slots["a"].grace == Some(1) && "a" in h1.catalog.configs
    ensures Seated(h1, 1, "b", 6, Some(stageB))
  {
    GetsUp(h, 0, "a", None, Calm(), h1);
    StaysSeated(h, 0, h1, 1, "b", 6, Some(stageB));
    assert "a" in h1.catalog.configs;
  }

  lemma FirstRunsOut(h: Home, d: Declaration, stageB: Stage, h1: Home, h2: Home)
    requires FirstIsActive(h, d, stageB) && h1 == Step(h, 0, LDetach, Calm())
    requires h1.users <= h1.peers.Keys && h2 == Step(h1, 0, LExpire("a", 1), Calm())
    ensures Moves(h, Move(0, LDetach), Calm(), h1) && Moves(h1, Move(0, LExpire("a", 1)), Calm(), h2)
    ensures FirstIsGone(h2, stageB)
  {
    FirstDetaches(h, d, stageB, h1);
    RunsOut(h1, 0, "a", Calm(), h2);
    LeftBehind(NewHome(0).catalog, d, h2.catalog);
  }

  lemma FirstLeaves(own: bool) returns (hs: seq<Home>, es: seq<Move>, stageB: Stage)
    ensures RunWith(hs, es, Calm()) && FirstIsGone(hs[|es|], stageB) && FullB(stageB, own)
  {
    var env := Calm();
    var d: Declaration;
    hs, es, d, stageB := FirstActivates(own);
    var h := hs[|es|];
    var m1, m2 := Move(0, LDetach), Move(0, LExpire("a", 1));
    var h1 := Step(h, 0, m1.deed, env);
    FirstDetaches(h, d, stageB, h1);
    var h2 := Step(h1, 0, m2.deed, env);
    FirstRunsOut(h, d, stageB, h1, h2);
    Extended(hs, es, env, m1, h1);
    Extended(hs + [h1], es + [m1], env, m2, h2);
    hs, es := hs + [h1] + [h2], es + [m1] + [m2];
  }

  // ---------- the second one activates, and a user comes ----------

  /** The second coordinator is active with the IDs it was told first: its path has an alias. */
  ghost predicate SecondIsActive(h: Home, d: Declaration, own: bool) {
    && OfB(d, own) && h.catalog.configs == map["b" := d.config] && h.users == {} && h.epoch == 0 && h.peers.Keys == {0, 1}
    && h.catalog.stateOwners == map["x" := "b"] && h.catalog.state == map["x" := Null] && TopicOfB(h.catalog, own)
    && h.catalog.paths == Names(map["x" := 2], map[1 := "x", 2 := "x"])
    && h.slots.Keys == {"b"} && Seated(h, 1, "b", 5, None) && h.slots["b"].ready
  }

  lemma StageOfB(stage: Stage, own: bool, d: Declaration)
    requires FullB(stage, own) && d == DeclarationOf(stage, {}, map[])
    ensures OfB(d, own)
  {
    assert stage.state.Keys == {"x"};
  }

  lemma SecondNowActive(h: Home, stageB: Stage, d: Declaration, own: bool, h': Home)
    requires FirstIsGone(h, stageB) && OfB(d, own)
    requires h'.catalog == Activate(h.catalog, "b", d) && h'.epoch == h.epoch
    requires 1 in h'.peers && h'.peers == h.peers[1 := h'.peers[1]] && h'.users == {} && h'.connections == h.connections
    requires h'.slots == h.slots["b" := h.slots["b"].(ready := true)] && Seated(h', 1, "b", 5, None)
    ensures SecondIsActive(h', d, own) && !Inverses(h'.catalog.paths)
  {
    Aliased(h.catalog, d, own, h'.catalog);
  }

  lemma SecondCommits(h: Home, stage: Stage, own: bool, h': Home)
    requires FirstIsGone(h, stage) && FullB(stage, own) && Reserves(h.catalog.functions, h.nextFunction, {}, map[])
    requires h' == Step(h, 1, LSyncFunctions({}, map[]), Calm())
    ensures Moves(h, Move(1, LSyncFunctions({}, map[])), Calm(), h')
    ensures SecondIsActive(h', DeclarationOf(stage, {}, map[]), own) && !Inverses(h'.catalog.paths)
  {
    var d := DeclarationOf(stage, {}, map[]);
    StageOfB(stage, own, d);
    LittleIsAccepted(h.catalog, "b", d);
    Commits(h, 1, "b", 6, stage, {}, map[], d, Calm(), h');
    SecondNowActive(h, stage, d, own, h');
  }

  lemma SecondActivates(own: bool) returns (hs: seq<Home>, es: seq<Move>, d: Declaration)
    ensures RunWith(hs, es, Calm()) && SecondIsActive(hs[|es|], d, own) && !Inverses(hs[|es|].catalog.paths)
  {
    var stage: Stage;
    hs, es, stage := FirstLeaves(own);
    var h := hs[|es|];
    NothingIsNew(h.catalog.functions, h.nextFunction);
    d := DeclarationOf(stage, {}, map[]);
    var m := Move(1, LSyncFunctions({}, map[]));
    var h' := Step(h, 1, m.deed, Calm());
    SecondCommits(h, stage, own, h');
    Extended(hs, es, Calm(), m, h');
    hs, es := hs + [h'], es + [m];
  }

  /** The user u is attached, and holds its first complete view. */
  ghost predicate UserIsHere(h: Home, d: Declaration, own: bool) {
    && OfB(d, own) && h.catalog.configs == map["b" := d.config] && h.users == {2} && h.epoch == 0 && 2 in h.peers
    && h.catalog.stateOwners == map["x" := "b"] && h.catalog.state == map["x" := Null] && TopicOfB(h.catalog, own)
    && h.catalog.paths == Names(map["x" := 2], map[1 := "x", 2 := "x"])
    && "b" in h.slots && Seated(h, 1, "b", 4, None) && h.slots["b"].ready
    && var p := h.peers[2];
       && p.role == User && p.user == "u" && Available(p) && Accepts(p) && p.subscriptions == {}
       && p.lastStateRevision == h.catalog.revision && p.log == [Welcome] + RecoveryFrames(h.catalog, "u")
  }

  lemma UserArrives(h: Home, d: Declaration, own: bool, h': Home)
    requires SecondIsActive(h, d, own) && h' == Step(h, 2, LAttach(Newborn(User, "u", ""), true), Calm())
    ensures UserIsHere(h', d, own)
  {
    var p := Newborn(User, "u", "").(lastStateRevision := h.catalog.revision);
    var frames := [Welcome] + RecoveryFrames(h.catalog, "u");
    EnqueueAllFits(p, frames);
    assert [] + frames == frames;
    var joined := h.(peers := h.peers[2 := Bootstrapped(EnqueueAll(p, frames), true)], connections := h.connections + {2}, users := h.users + {2});
    assert !IsCurrent(joined.slots, 2) && IsCurrent(joined.slots, 1) by {
      assert joined.slots["b"].connection == Some(1);
    }
    assert h' == Announce(joined, PresenceChange(2, "u", 1));
  }

  lemma UserComes(own: bool) returns (hs: seq<Home>, es: seq<Move>, d: Declaration)
    ensures RunWith(hs, es, Calm()) && UserIsHere(hs[|es|], d, own) && !Inverses(hs[|es|].catalog.paths)
  {
    hs, es, d := SecondActivates(own);
    var h := hs[|es|];
    var m := Move(2, LAttach(Newborn(User, "u", ""), true));
    var h' := Step(h, 2, m.deed, Calm());
    UserArrives(h, d, own, h');
    Extended(hs, es, Calm(), m, h');
    hs, es := hs + [h'], es + [m];
  }

  lemma USees(c: Catalog, d: Declaration, own: bool)
    requires OfB(d, own) && c.configs == map["b" := d.config]
    ensures CanSee(c.configs, "u", "x") && CanSubscribe(c.configs, "u", "t") && Enrolled(c.configs, "u")
  {
    var config := c.configs["b"];
    assert PatternMatches(config.stateACL["u"][0], "x") && PatternMatches(config.eventACL["u"].subscribe[0], "t");
    assert Sees(config, "u", "x") && Subscribes(config, "u", "t") && Listed(config, "u");
  }

  // ---------- the alias puts a replica out of step ----------

  predicate ByAlias(ms: seq<Mutation>) {
    |ms| == 1 && ms[0].pathID == 1 && !ms[0].remove
  }

  lemma AliasIsAccepted(h: Home, d: Declaration, ms: seq<Mutation>)
    requires UserIsHere(h, d, false) && h.users <= h.peers.Keys && ByAlias(ms)
    ensures SetState(h, 1, 0, ms, Calm().enc).1 == Ok
  {
    assert OwnsPaths(h.catalog, "b", ms);
  }

  /** What a replica is after its first view and one patch from there. */
  lemma FirstPatch(c: Catalog, user: string, ms: seq<Mutation>)
    ensures Replay([Welcome] + RecoveryFrames(c, user) + [StatePatch(c.revision, c.revision + 1, ms)]).state
            == PatchAll(StateEntries(c, user), ms)
  {
    ReplayRecovery(c, user, [Welcome]);
    ReplayOneMore([Welcome] + RecoveryFrames(c, user), StatePatch(c.revision, c.revision + 1, ms));
  }

  lemma PatchIsSent(c: Catalog, p: Peer, ms: seq<Mutation>, enc: Frame -> bool)
    requires Available(p) && Accepts(p) && p.lastStateRevision == c.revision && ms != []
    requires VisibleMutations(c, p.user, ms) == ms && enc(StatePatch(c.revision, c.revision + 1, ms))
    ensures Available(Patched(c, p, ms, enc)) && Patched(c, p, ms, enc).user == p.user
    ensures Patched(c, p, ms, enc).log == p.log + [StatePatch(c.revision, c.revision + 1, ms)]
  {
  }

  /** A user that holds its first view is misled by a batch it sees in full that names a path by an alias. */
  lemma PatchMisleads(c: Catalog, next: int, slot: string, p: Peer, ms: seq<Mutation>, enc: Frame -> bool)
    requires CatalogInv(c) && NamesInv(c.paths, next) && slot in c.configs && ms != []
    requires Available(p) && Accepts(p) && p.lastStateRevision == c.revision && p.log == [Welcome] + RecoveryFrames(c, p.user)
    requires forall i :: 0 <= i < |ms| ==> !ms[i].remove && Touches(c, p.user, ms[i]) && ms[i].pathID in c.paths.byID
    requires !AllCanonical(c.paths, ms) && enc(StatePatch(c.revision, c.revision + 1, ms))
    ensures Available(Patched(c, p, ms, enc)) && !Replicated(Mutate(c, slot, ms), Patched(c, p, ms, enc))
  {
    AllVisible(c, p.user, ms);
    PatchIsSent(c, p, ms, enc);
    FirstPatch(c, p.user, ms);
    AssignmentsKeepStepIffCanonical(c, next, p.user, ms);
    SightIgnoresState(c, slot, ms, p.user);
  }

  lemma AliasTouches(c: Catalog, ms: seq<Mutation>)
    requires CanSee(c.configs, "u", "x") && c.paths == Names(map["x" := 2], map[1 := "x", 2 := "x"]) && ByAlias(ms)
    ensures !ms[0].remove && Touches(c, "u", ms[0]) && ms[0].pathID in c.paths.byID && !AllCanonical(c.paths, ms)
  {
    assert !Canonical(c.paths, ms[0]);
  }

  lemma AliasMisleads(c: Catalog, next: int, p: Peer, ms: seq<Mutation>)
    requires CatalogInv(c) && NamesInv(c.paths, next) && "b" in c.configs && CanSee(c.configs, "u", "x")
    requires c.paths == Names(map["x" := 2], map[1 := "x", 2 := "x"]) && ByAlias(ms)
    requires p.user == "u" && Available(p) && Accepts(p) && p.lastStateRevision == c.revision && p.log == [Welcome] + RecoveryFrames(c, "u")
    ensures Available(Patched(c, p, ms, Calm().enc)) && !Replicated(Mutate(c, "b", ms), Patched(c, p, ms, Calm().enc))
  {
    AliasTouches(c, ms);
    PatchMisleads(c, next, "b", p, ms, Calm().enc);
  }

  lemma HereSees(h: Home, d: Declaration, own: bool)
    requires UserIsHere(h, d, own)
    ensures CanSee(h.catalog.configs, "u", "x") && CanSubscribe(h.catalog.configs, "u", "t") && Enrolled(h.catalog.configs, "u")
  {
    USees(h.catalog, d, own);
  }

  lemma AliasedStep(h: Home, d: Declaration, ms: seq<Mutation>, h': Home)
    requires UserIsHere(h, d, false) && h.users <= h.peers.Keys && ByAlias(ms) && h' == SetState(h, 1, 0, ms, Calm().enc).0
    ensures h'.users == h.users && 2 in h'.peers && h'.peers[2] == Patched(h.catalog, h.peers[2], ms, Calm().enc)
    ensures "b" in h.catalog.configs && h'.catalog == Mutate(h.catalog, "b", ms)
  {
    AliasIsAccepted(h, d, ms);
  }

  /** The last step is an accepted mutation, and it leaves an attached, available user with a replica that is not its view. */
  ghost predicate EndsOutOfStep(hs: seq<Home>, es: seq<Move>, u: Session) {
    && |hs| == |es| + 1 && es != [] && es[|es| - 1].deed.LSetState?
    && !Inverses(hs[|es| - 1].catalog.paths)
    && u in hs[|es|].users && u in hs[|es|].peers && Available(hs[|es|].peers[u])
    && !Replicated(hs[|es|].catalog, hs[|es|].peers[u])
  }

  /**
   An alias is reached from a new home by two coordinators that stage the same new path; and a mutation by
   the alias, which the relay accepts, puts a user out of step.
   */
  lemma AliasIsReachable()
    ensures exists hs: seq<Home>, es: seq<Move> :: RunWith(hs, es, Calm()) && EndsOutOfStep(hs, es, 2)
  {
    var hs, es, d := UserComes(false);
    var h := hs[|es|];
    var ms := [Mutation(1, false, Boolean(true))];
    CalmOK();
    ReachedHome(hs, es, Calm(), |es|);
    var m := Move(1, LSetState(0, ms));
    var h' := Step(h, 1, m.deed, Calm());
    HereSees(h, d, false);
    AliasMisleads(h.catalog, h.nextPath, h.peers[2], ms);
    AliasedStep(h, d, ms, h');
    Extended(hs, es, Calm(), m, h');
    Closes(hs, es, h, m, h');
  }

  lemma Closes(hs: seq<Home>, es: seq<Move>, h: Home, m: Move, h': Home)
    requires |hs| == |es| + 1 && h == hs[|es|] && m.deed.LSetState? && !Inverses(h.catalog.paths)
    requires RunWith(hs + [h'], es + [m], Calm())
    requires 2 in h'.users && 2 in h'.peers && Available(h'.peers[2]) && !Replicated(h'.catalog, h'.peers[2])
    ensures exists hs: seq<Home>, es: seq<Move> :: RunWith(hs, es, Calm()) && EndsOutOfStep(hs, es, 2)
  {
    var all, moves := hs + [h'], es + [m];
    assert all[|moves| - 1] == h && all[|moves|] == h' && moves[|moves| - 1] == m;
    assert EndsOutOfStep(all, moves, 2);
  }

  // ---------- the topic without an owner ----------

  /** The last home has an attached user that follows a topic nobody owns. */
  ghost predicate EndsFollowingOrphan(hs: seq<Home>, es: seq<Move>, u: Session) {
    && |hs| == |es| + 1
    && u in hs[|es|].users && u in hs[|es|].peers && !FollowsOwned(hs[|es|].catalog, hs[|es|].peers[u])
  }

  lemma OneID(known: set<int>, ids: seq<int>)
    requires |ids| == 1
    ensures NewIDs(known, ids) <= 1
  {
    assert ids[..0] == [];
  }

  lemma TopicMayBeFollowed(c: Catalog, d: Declaration, own: bool)
    requires OfB(d, own) && c.configs == map["b" := d.config] && TopicOfB(c, own)
    ensures MayFollow(c, "u", 1) && Enrolled(c.configs, "u")
  {
    USees(c, d, own);
    NamedT(c, own);
  }

  lemma NamedT(c: Catalog, own: bool)
    requires TopicOfB(c, own)
    ensures NameOf(c.topics.byID, 1) == "t" && (own ==> NameOf(c.topics.byID, 2) == "t")
  {
  }

  lemma TopicIsSubscribable(h: Home, d: Declaration, own: bool, ids: seq<int>, limits: Limits)
    requires UserIsHere(h, d, own) && |ids| == 1 && ids[0] == 1 && limits.subscriptions == 9
    ensures Subscribable(h, 2, ids, limits)
  {
    TopicMayBeFollowed(h.catalog, d, own);
    OneID({}, ids);
  }

  lemma OrphanIsFollowed(h: Home, d: Declaration, ids: seq<int>, h': Home)
    requires UserIsHere(h, d, false) && |ids| == 1 && ids[0] == 1 && h' == Subscribe(h, 2, ids, Calm().limits).0
    ensures h'.users == h.users && 2 in h'.peers && !FollowsOwned(h'.catalog, h'.peers[2])
  {
    TopicIsSubscribable(h, d, false, ids, Calm().limits);
    SubscribeKeepsOwnedIff(h, 2, ids, Calm().limits);
    assert !TopicOwned(h.catalog, ids[0]);
  }

  /** A topic is followed after its owner has expired: another coordinator's ACL lists it. */
  lemma OrphanIsReachable()
    ensures exists hs: seq<Home>, es: seq<Move> :: RunWith(hs, es, Calm()) && EndsFollowingOrphan(hs, es, 2)
  {
    var hs, es, d := UserComes(false);
    var h := hs[|es|];
    var m := Move(2, LSubscribe([1]));
    var h' := Step(h, 2, m.deed, Calm());
    OrphanIsFollowed(h, d, [1], h');
    Extended(hs, es, Calm(), m, h');
    EndsSo(hs + [h'], es + [m], h');
  }

  lemma EndsSo(hs: seq<Home>, es: seq<Move>, h: Home)
    requires RunWith(hs, es, Calm()) && h == hs[|es|] && 2 in h.users && 2 in h.peers && !FollowsOwned(h.catalog, h.peers[2])
    ensures exists hs: seq<Home>, es: seq<Move> :: RunWith(hs, es, Calm()) && EndsFollowingOrphan(hs, es, 2)
  {
    assert EndsFollowingOrphan(hs, es, 2);
  }

  // ---------- the event that a follower misses ----------

  /** In the last home an attached user follows a topic, and an accepted event of its owner to its followers does not reach it. */
  ghost predicate EndsMissing(hs: seq<Home>, es: seq<Move>, s: Session, id: int, u: Session) {
    && |hs| == |es| + 1 && s in hs[|es|].peers && hs[|es|].peers[s].role == Coordinator
    && FollowsTopic(hs[|es|], u, id) && Events.Route(hs[|es|], s, id, Default, true).1 == Ok
    && u !in Events.Route(hs[|es|], s, id, Default, true).0
  }

  lemma FollowsOldID(h: Home, ids: seq<int>, h': Home)
    requires 1 in h.peers && 2 in h.peers && h.peers[2].user == "u" && Available(h.peers[2]) && Accepts(h.peers[2])
    requires h.peers[2].subscriptions == {} && Subscribable(h, 2, ids, Calm().limits) && |ids| == 1 && ids[0] == 1
    requires h' == Subscribe(h, 2, ids, Calm().limits).0
    ensures h'.users == h.users && h'.connections == h.connections && h'.catalog == h.catalog && h'.slots == h.slots
    ensures 1 in h'.peers && h'.peers[1] == h.peers[1]
    ensures 2 in h'.peers && h'.peers[2].subscriptions == {1} && h'.peers[2].user == "u" && Available(h'.peers[2])
  {
    SubscriberStays(h, 2, ids, h');
    assert (set id | id in ids) == {1};
  }

  lemma SubscriberStays(h: Home, s: Session, ids: seq<int>, h': Home)
    requires s in h.peers && Available(h.peers[s]) && Accepts(h.peers[s]) && Subscribable(h, s, ids, Calm().limits)
    requires h' == Subscribe(h, s, ids, Calm().limits).0
    ensures h'.users == h.users && h'.connections == h.connections && h'.catalog == h.catalog && h'.slots == h.slots
    ensures s in h'.peers && h'.peers[s].user == h.peers[s].user && Available(h'.peers[s])
    ensures h'.peers[s].subscriptions == h.peers[s].subscriptions + (set id | id in ids)
    ensures forall t :: t in h.peers && t != s ==> t in h'.peers && h'.peers[t] == h.peers[t]
  {
    SubscribeFollows(h, s, ids, Calm().limits);
  }

  lemma PublisherOfT(c: Catalog)
    requires TopicOfB(c, true) && "b" in c.configs && "t" in c.configs["b"].events && c.configs["b"].events["t"] == PUBLISH_USERS
    ensures TopicDeclared(c, 2) && NameOf(c.topics.byID, 2) == NameOf(c.topics.byID, 1) == "t"
    ensures c.topicOwners["t"] == "b" && HasFlag(FlagsOf(c, 2), PUBLISH_USERS)
  {
    NamedT(c, true);
  }

  lemma OldIDMisses(h: Home)
    requires TopicDeclared(h.catalog, 2) && NameOf(h.catalog.topics.byID, 2) == NameOf(h.catalog.topics.byID, 1) == "t"
    requires h.catalog.topicOwners["t"] == "b" && HasFlag(FlagsOf(h.catalog, 2), PUBLISH_USERS) && "b" in h.catalog.configs
    requires CanSubscribe(h.catalog.configs, "u", "t")
    requires "b" in h.slots && h.slots["b"].ready && Seated(h, 1, "b", 0, None)
    requires 2 in h.users && 2 in h.peers && h.peers[2].user == "u" && Available(h.peers[2]) && h.peers[2].subscriptions == {1}
    ensures FollowsTopic(h, 2, 2) && Events.Route(h, 1, 2, Default, true).1 == Ok && 2 !in Events.Route(h, 1, 2, Default, true).0
  {
    assert 1 in h.peers[2].subscriptions;
    assert !Listens(h, 2, 2);
  }

  /** Two coordinators stage the same new topic; a user then follows it by the ID the first was told, the second publishes by its own. */
  lemma MissedEventIsReachable()
    ensures exists hs: seq<Home>, es: seq<Move> :: RunWith(hs, es, Calm()) && EndsMissing(hs, es, 1, 2, 2)
  {
    var hs, es, d := UserComes(true);
    var h := hs[|es|];
    var m := Move(2, LSubscribe([1]));
    var h' := Step(h, 2, m.deed, Calm());
    TopicIsSubscribable(h, d, true, [1], Calm().limits);
    FollowsOldID(h, [1], h');
    HereSees(h, d, true);
    PublisherOfT(h.catalog);
    OldIDMisses(h');
    Extended(hs, es, Calm(), m, h');
    MissesThere(hs + [h'], es + [m], h');
  }

  lemma MissesThere(hs: seq<Home>, es: seq<Move>, h: Home)
    requires RunWith(hs, es, Calm()) && h == hs[|es|] && 1 in h.peers && h.peers[1].role == Coordinator
    requires FollowsTopic(h, 2, 2) && Events.Route(h, 1, 2, Default, true).1 == Ok && 2 !in Events.Route(h, 1, 2, Default, true).0
    ensures exists hs: seq<Home>, es: seq<Move> :: RunWith(hs, es, Calm()) && EndsMissing(hs, es, 1, 2, 2)
  {
    assert EndsMissing(hs, es, 1, 2, 2);
  }
}
