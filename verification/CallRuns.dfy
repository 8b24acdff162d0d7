/** A run of a home with its calls in which a user calls after it has left. */
module CallRuns {
  import opened Basics
  import opened Catalogs
  import opened CatalogProofs
  import opened Views
  import opened HomeModel
  import opened Invariants
  import opened Calls
  import opened CallTables
  import opened Events
  import opened HomeCalls
  import opened HomeCallSteps
  import opened HomeCallTheorems
  import opened Scenarios

  function Small(): Bounds {
    Bounds(4, 0)
  }

  lemma LongerWorld(ws: seq<World>, s: Session, e: Happening, w': World)
    requires WorldRun(ws, Calm(), Small())
    requires var w := ws[|ws| - 1];
             && w.home.users <= w.home.peers.Keys && SameConnections(w)
             && CanHappen(w, s, e, Small()) && w' == Happen(w, s, e, Calm(), Small())
    ensures WorldRun(ws + [w'], Calm(), Small())
  {
    var ws' := ws + [w'];
    assert WorldSteps(ws[|ws| - 1], w', Calm(), Small());
    forall i | 0 < i < |ws'| ensures WorldStepsTo(ws', Calm(), Small(), i) {
      if i < |ws| {
        assert WorldStepsTo(ws, Calm(), Small(), i);
      }
    }
  }

  // ---------- a coordinator declares the function that joins a home ----------

  lemma CoordinatorEnters() returns (ws: seq<World>)
    ensures WorldRun(ws, Calm(), Small())
    ensures var w := ws[|ws| - 1];
            && w.home == NewHome(0).(peers := w.home.peers, connections := {0}, slots := map["a" := Slot(1, Some(0), false, None)])
            && w.home.peers.Keys == {0} && w.home.peers[0].stageCount == 0 && Seated(w.home, 0, "a", 10, None)
            && w.router == Arrive(NewRouter(), 0, Coordinator)
  {
    var w0 := NewWorld(0);
    CalmOK();
    ws := [w0];
    assert WorldRun(ws, Calm(), Small());
    var p := Newborn(Coordinator, "", "a");
    var e := Joining(p, true, []);
    var h' := Attach(w0.home, 0, p, true, Calm().limits, Calm().enc).0;
    SitsDown(w0.home, 0, "a", true, Calm(), h');
    assert Added(w0.router, w0.router) == [];
    LongerWorld(ws, 0, e, World(h', Arrive(NewRouter(), 0, Coordinator)));
    ws := ws + [World(h', Arrive(NewRouter(), 0, Coordinator))];
  }

  /** A step of the home alone. */
  lemma HomeMoves(ws: seq<World>, s: Session, l: Label, h': Home)
    requires WorldRun(ws, Calm(), Small())
    requires var w := ws[|ws| - 1];
             && w.home.users <= w.home.peers.Keys && SameConnections(w) && !l.LAttach? && !l.LDetach?
             && Enabled(w.home, s, l) && h' == Step(w.home, s, l, Calm())
    ensures WorldRun(ws + [ws[|ws| - 1].(home := h')], Calm(), Small())
  {
    LongerWorld(ws, s, AtHome(l), ws[|ws| - 1].(home := h'));
  }

  predicate Empty(stage: Stage) {
    stage.state == map[] && stage.pathIDs == map[] && stage.stateACL == map[] && stage.events == map[] && stage.topicIDs == map[]
    && stage.eventACL == map[]
  }

  ghost predicate Waiting(w: World, stage: Stage, room: nat) {
    && w.home == NewHome(0).(peers := w.home.peers, connections := {0}, slots := map["a" := Slot(1, Some(0), false, None)])
    && w.home.peers.Keys == {0} && Empty(stage) && Seated(w.home, 0, "a", room, Some(stage))
    && w.router == Arrive(NewRouter(), 0, Coordinator)
  }

  lemma StageIsOpen() returns (ws: seq<World>, stage: Stage)
    ensures WorldRun(ws, Calm(), Small()) && stage.expected == AclSlice && Waiting(ws[|ws| - 1], stage, 9)
  {
    ws := CoordinatorEnters();
    var h := ws[|ws| - 1].home;
    NothingIsNew(h.catalog.paths, 1);
    var h' := Step(h, 0, LSyncState(map[], map[]), Calm());
    Opens(h, 0, "a", 10, map[], map[], Calm(), h');
    HomeMoves(ws, 0, LSyncState(map[], map[]), h');
    ws := ws + [ws[|ws| - 1].(home := h')];
    stage := Stage(AclSlice, map[], map[], map[], map[], map[], map[], h.peers[0].stageCount, true);
  }

  lemma AclIsStaged() returns (ws: seq<World>, stage: Stage)
    ensures WorldRun(ws, Calm(), Small()) && stage.expected == EventSlice && Waiting(ws[|ws| - 1], stage, 8)
  {
    ws, stage := StageIsOpen();
    var h := ws[|ws| - 1].home;
    var h' := Step(h, 0, LSyncAcl(map[]), Calm());
    StagesAcl(h, 0, "a", 9, stage, map[], Calm(), h');
    HomeMoves(ws, 0, LSyncAcl(map[]), h');
    ws := ws + [ws[|ws| - 1].(home := h')];
    stage := stage.(stateACL := map[], expected := EventSlice);
  }

  lemma EventsAreStaged() returns (ws: seq<World>, stage: Stage)
    ensures WorldRun(ws, Calm(), Small()) && stage.expected == EventAclSlice && Waiting(ws[|ws| - 1], stage, 7)
  {
    ws, stage := AclIsStaged();
    var h := ws[|ws| - 1].home;
    NothingIsNew(h.catalog.topics, h.nextTopic);
    var h' := Step(h, 0, LSyncEvents(map[], map[]), Calm());
    StagesEvents(h, 0, "a", 8, stage, map[], map[], Calm(), h');
    HomeMoves(ws, 0, LSyncEvents(map[], map[]), h');
    ws := ws + [ws[|ws| - 1].(home := h')];
    stage := stage.(events := map[], topicIDs := map[], expected := EventAclSlice);
  }

  lemma StageIsFull() returns (ws: seq<World>, stage: Stage)
    ensures WorldRun(ws, Calm(), Small()) && stage.expected == FunctionSlice && Waiting(ws[|ws| - 1], stage, 6)
  {
    ws, stage := EventsAreStaged();
    var h := ws[|ws| - 1].home;
    var h' := Step(h, 0, LSyncEventAcl(map[]), Calm());
    StagesEventAcl(h, 0, "a", 7, stage, map[], Calm(), h');
    HomeMoves(ws, 0, LSyncEventAcl(map[]), h');
    ws := ws + [ws[|ws| - 1].(home := h')];
    stage := stage.(eventACL := map[], expected := FunctionSlice);
  }

  predicate Joinable(d: Declaration) {
    && d.config.ownedState == {} && d.config.state == map[] && d.config.events == map[] && d.config.functions == {JOIN}
    && d.pathIDs == map[] && d.topicIDs == map[] && d.functionIDs == map[JOIN := 1]
  }

  lemma FewMore(names: map<string, int>, ids: map<string, int>)
    requires names == map[] && |ids| <= 1
    ensures DictionaryCount(names, ids) <= 1
  {
    SubsetSize(Unbound(names, ids), ids.Keys);
    assert |ids.Keys| == |ids|;
  }

  lemma JoinIsAccepted(c: Catalog, d: Declaration)
    requires c == NewHome(0).catalog && Joinable(d)
    ensures ActivationRefusal(c, "a", d, {}, Calm().limits, Calm().enc) == Ok
  {
    FewMore(c.paths.byName, d.pathIDs);
    FewMore(c.topics.byName, d.topicIDs);
    FewMore(c.functions.byName, d.functionIDs);
    assert d.config.state.Keys == {} && d.config.events.Keys == {};
  }

  lemma JoinIsOwned(c: Catalog, d: Declaration, c': Catalog)
    requires c == NewHome(0).catalog && Joinable(d) && c' == Activate(c, "a", d)
    ensures c'.configs == map["a" := d.config] && JOIN in c'.functionOwners && c'.functionOwners[JOIN] == "a"
    ensures NameOf(c'.functions.byID, 1) == JOIN
  {
    BindOne(c.functions, d.functionIDs, JOIN, 1);
  }

  /** The coordinator is ready, and owns the function that joins the home. */
  ghost predicate Ready(h: Home, room: nat) {
    && Seated(h, 0, "a", room, None) && "a" in h.catalog.configs && h.slots["a"].ready
    && JOIN in h.catalog.functionOwners && h.catalog.functionOwners[JOIN] == "a" && NameOf(h.catalog.functions.byID, 1) == JOIN
  }

  lemma NowReady(h: Home, d: Declaration, h': Home)
    requires h.catalog == NewHome(0).catalog && Joinable(d) && h.slots.Keys == {"a"} && h.peers.Keys == {0}
    requires h'.catalog == Activate(h.catalog, "a", d) && 0 in h'.peers && h'.peers == h.peers[0 := h'.peers[0]]
    requires h'.slots == h.slots["a" := h.slots["a"].(ready := true)] && Seated(h', 0, "a", 5, None)
    ensures Ready(h', 5) && h'.peers.Keys == {0} && h'.slots.Keys == {"a"}
  {
    JoinIsOwned(h.catalog, d, h'.catalog);
  }

  lemma StageIsJoinable(stage: Stage, d: Declaration)
    requires Empty(stage) && d == DeclarationOf(stage, {JOIN}, map[JOIN := 1])
    ensures Joinable(d)
  {
    assert stage.state.Keys == {};
  }

  lemma DeclaresJoin(w: World, stage: Stage, d: Declaration, h': Home)
    requires Waiting(w, stage, 6) && stage.expected == FunctionSlice
    requires d == DeclarationOf(stage, {JOIN}, map[JOIN := 1]) && Joinable(d)
    requires ActivationRefusal(w.home.catalog, "a", d, {}, Calm().limits, Calm().enc) == Ok
    requires Enabled(w.home, 0, LSyncFunctions({JOIN}, map[JOIN := 1]))
    requires h' == Step(w.home, 0, LSyncFunctions({JOIN}, map[JOIN := 1]), Calm())
    ensures Ready(h', 5) && h'.users == {} && h'.peers.Keys == {0} && h'.slots.Keys == {"a"}
  {
    Commits(w.home, 0, "a", 6, stage, {JOIN}, map[JOIN := 1], d, Calm(), h');
    NowReady(w.home, d, h');
  }

  lemma CoordinatorIsReady() returns (ws: seq<World>)
    ensures WorldRun(ws, Calm(), Small())
    ensures var w := ws[|ws| - 1];
            && Ready(w.home, 5) && w.home.users == {} && w.home.peers.Keys == {0} && w.home.slots.Keys == {"a"}
            && w.router == Arrive(NewRouter(), 0, Coordinator)
  {
    var stage: Stage;
    ws, stage := StageIsFull();
    var w := ws[|ws| - 1];
    OneNameIsNew(w.home.catalog.functions, 1, JOIN);
    var h' := Step(w.home, 0, LSyncFunctions({JOIN}, map[JOIN := 1]), Calm());
    var d := DeclarationOf(stage, {JOIN}, map[JOIN := 1]);
    StageIsJoinable(stage, d);
    JoinIsAccepted(w.home.catalog, d);
    DeclaresJoin(w, stage, d, h');
    HomeMoves(ws, 0, LSyncFunctions({JOIN}, map[JOIN := 1]), h');
    ws := ws + [w.(home := h')];
  }

  // ---------- a user comes, leaves, and calls ----------

  lemma UserSits(h: Home, h': Home)
    requires Ready(h, 5) && h.users == {} && h.peers.Keys == {0} && h.slots.Keys == {"a"}
    requires h' == Attach(h, 1, Newborn(User, "u", ""), true, Calm().limits, Calm().enc).0
    ensures Ready(h', 4) && h'.users == {1} && h'.peers.Keys == {0, 1} && h'.slots == h.slots && 1 in h'.connections
    ensures h'.peers[1].role == User && h'.peers[1].bootstrapped
  {
    var p := Newborn(User, "u", "").(lastStateRevision := h.catalog.revision);
    var frames := [Welcome] + RecoveryFrames(h.catalog, "u");
    EnqueueAllFits(p, frames);
    var joined := h.(peers := h.peers[1 := Bootstrapped(EnqueueAll(p, frames), true)], connections := h.connections + {1}, users := h.users + {1});
    AnnouncedSeat(joined, PresenceChange(1, "u", 1), 5);
    assert h' == Announce(joined, PresenceChange(1, "u", 1));
  }

  /** A presence change takes a place in the coordinator's queue, and nobody else notices. */
  lemma AnnouncedSeat(h: Home, f: Frame, room: nat)
    requires Ready(h, room) && room > 0 && h.slots.Keys == {"a"}
    ensures var h' := Announce(h, f);
            && Ready(h', room - 1) && h' == h.(peers := h'.peers) && h'.peers.Keys == h.peers.Keys
            && forall t :: t in h.peers && t != 0 ==> h'.peers[t] == h.peers[t]
  {
    assert IsCurrent(h.slots, 0) by {
      assert h.slots["a"].connection == Some(0);
    }
  }

  lemma UserEnters() returns (ws: seq<World>)
    ensures WorldRun(ws, Calm(), Small())
    ensures var w := ws[|ws| - 1];
            && Ready(w.home, 4) && w.home.users == {1} && w.home.peers.Keys == {0, 1} && 1 in w.home.connections && w.home.slots.Keys == {"a"}
            && w.home.peers[1].role == User && w.home.peers[1].bootstrapped
            && w.router == Arrive(Arrive(NewRouter(), 0, Coordinator), 1, User)
  {
    ws := CoordinatorIsReady();
    var w := ws[|ws| - 1];
    var p := Newborn(User, "u", "");
    var h' := Attach(w.home, 1, p, true, Calm().limits, Calm().enc).0;
    UserSits(w.home, h');
    assert Added(w.router, w.router) == [];
    var w' := World(h', Arrive(w.router, 1, User));
    LongerWorld(ws, 1, Joining(p, true, []), w');
    ws := ws + [w'];
  }

  lemma UserStands(h: Home, h': Home)
    requires Ready(h, 4) && h.users == {1} && h.peers.Keys == {0, 1} && 1 in h.connections && h.slots.Keys == {"a"}
    requires h.peers[1].role == User && h.peers[1].bootstrapped && h' == Detach(h, 1)
    ensures Ready(h', 3) && h'.users == {} && h'.peers.Keys == {0, 1} && h'.peers[1].role == User
  {
    var gone := h.(peers := h.peers[1 := h.peers[1].(stage := None)], connections := h.connections - {1}, users := h.users - {1});
    assert Ready(gone, 4);
    AnnouncedSeat(gone, PresenceChange(1, h.peers[1].user, 2), 4);
  }

  lemma UserLeaves() returns (ws: seq<World>)
    ensures WorldRun(ws, Calm(), Small())
    ensures var w := ws[|ws| - 1];
            && Ready(w.home, 3) && w.home.users == {} && w.home.peers.Keys == {0, 1} && w.home.peers[1].role == User
            && w.router == Arrive(Arrive(NewRouter(), 0, Coordinator), 1, User).(present := {0})
  {
    ws := UserEnters();
    var w := ws[|ws| - 1];
    var r' := Depart(w.router, 1, []);
    assert Added(w.router, r') == [];
    var h' := Detach(w.home, 1);
    UserStands(w.home, h');
    LongerWorld(ws, 1, Leaving([]), World(h', r'));
    ws := ws + [World(h', r')];
  }

  lemma CallIsPlaced(w: World, c: CallFrom)
    requires Ready(w.home, 3) && w.home.peers.Keys == {0, 1} && w.home.peers[1].role == User
    requires w.router == Arrive(Arrive(NewRouter(), 0, Coordinator), 1, User).(present := {0})
    requires c == CallFrom(7, 1, Default, 0, true, true)
    ensures Callee(w.home, 1, 1, Default) == (Some(0), Ok)
    ensures PlacesCall(w.router, 1, RequestOf(w, 1, c), Small())
    ensures Allocates(w.router.tables[0], 1)
  {
    assert Reachable(w.home, "a");
    assert Cyclic(0, 1) == 1;
  }

  lemma CallerIsMissing(w: World, c: CallFrom, w': World)
    requires Tied(w.home, w.router) && w.home.peers.Keys == {0, 1} && 1 !in w.home.users && w.home.peers[1].role == User
    requires PlacesCall(w.router, 1, RequestOf(w, 1, c), Small())
    requires w' == CallWorld(w, 1, CallSent(c, 1), Small())
    ensures !CallersHere(w')
  {
    var n := |w.router.routes|;
    CallPlaces(w.router, 1, RequestOf(w, 1, c), 1, Small());
    HandOverPeople(w.home, Added(w.router, w'.router));
    assert w'.router.routes[n].caller == 1 && !w'.router.routes[n].terminal;
  }

  /** The last home with calls has a live route whose caller has left. */
  ghost predicate EndsWithoutCaller(ws: seq<World>) {
    ws != [] && !CallersHere(ws[|ws| - 1])
  }

  /** A user detaches, and a CALL it had sent before is handled afterwards: the relay accepts it. */
  lemma DepartedCallerIsReachable()
    ensures exists ws: seq<World> :: WorldRun(ws, Calm(), Small()) && EndsWithoutCaller(ws)
  {
    var ws := UserLeaves();
    LastIsTied(ws, ws[|ws| - 1]);
    CallsAfterLeaving(ws, ws[|ws| - 1]);
  }

  lemma LastIsTied(ws: seq<World>, w: World)
    requires WorldRun(ws, Calm(), Small()) && w == ws[|ws| - 1]
    ensures Tied(w.home, w.router)
  {
    WorldsAreReachable(ws, Calm(), Small(), |ws| - 1);
  }

  lemma CallsAfterLeaving(ws: seq<World>, w: World)
    requires WorldRun(ws, Calm(), Small()) && w == ws[|ws| - 1] && Tied(w.home, w.router)
    requires Ready(w.home, 3) && w.home.users == {} && w.home.peers.Keys == {0, 1} && w.home.peers[1].role == User
    requires w.router == Arrive(Arrive(NewRouter(), 0, Coordinator), 1, User).(present := {0})
    ensures exists ws: seq<World> :: WorldRun(ws, Calm(), Small()) && EndsWithoutCaller(ws)
  {
    var c := CallFrom(7, 1, Default, 0, true, true);
    CallIsPlaced(w, c);
    CallIsMade(ws, w, c);
  }

  lemma CallIsMade(ws: seq<World>, w: World, c: CallFrom)
    requires WorldRun(ws, Calm(), Small()) && w == ws[|ws| - 1] && Tied(w.home, w.router)
    requires w.home.peers.Keys == {0, 1} && w.home.users == {} && w.home.peers[1].role == User && 0 <= c.credit <= Small().credit
    requires Callee(w.home, 1, c.functionID, c.target).0 == Some(0) && Allocates(w.router.tables[0], 1)
    requires PlacesCall(w.router, 1, RequestOf(w, 1, c), Small())
    ensures exists ws: seq<World> :: WorldRun(ws, Calm(), Small()) && EndsWithoutCaller(ws)
  {
    RouterApplies(w, 1, CallSent(c, 1), Small());
    var w' := CallWorld(w, 1, CallSent(c, 1), Small());
    CallerIsMissing(w, c, w');
    LongerWorld(ws, 1, CallSent(c, 1), w');
    assert (ws + [w'])[|ws + [w']| - 1] == w' && EndsWithoutCaller(ws + [w']);
  }
}
