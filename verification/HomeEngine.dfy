/**
 The home as the relay keeps it: separate indexes updated in place. Every method is proved against
 the state machine of HomeModel; a projection is another, isolated instance of the same class.
 */
module HomeEngine {
  import opened Basics
  import opened Catalogs
  import opened CatalogProofs
  import opened Views
  import opened HomeModel
  import opened Replicas
  import opened Invariants
  import opened QuietSteps
  import opened HomeLoops
  import opened ActivationSteps
  import opened HomeTheorems
  import opened HomeParts
  import opened Events

  class HomeState {
    const epoch: int
    const limits: Limits
    const enc: Frame -> bool

    var revision: int
    var policy: int
    var coordinators: map<string, CoordinatorSlot>
    var paths: Names
    var nextPath: int
    var topics: Names
    var nextTopic: int
    var functions: Names
    var nextFunction: int
    var stateOwners: map<string, string>
    var topicOwners: map<string, string>
    var functionOwners: map<string, string>
    var state: map<string, Value>
    var peers: map<Session, Peer>
    var connections: set<Session>
    var users: set<Session>

    ghost function CatalogView(): Catalog
      reads this
    {
      Catalog(revision, ActiveConfigs(coordinators), paths, topics, functions, stateOwners, topicOwners, functionOwners, state)
    }

    ghost function View(): Home
      reads this
    {
      Home(epoch, CatalogView(), policy, nextPath, nextTopic, nextFunction, SlotsOf(coordinators), peers, connections, users)
    }

    ghost function Environment(): Env {
      Env(limits, enc)
    }

    ghost predicate Valid()
      reads this
    {
      Inv(View(), Environment()) && EnvOK(Environment())
    }

    ghost predicate DistinctIDs()
      reads this
    {
      DistinctIn(CatalogView())
    }

    constructor (epoch: int, limits: Limits, enc: Frame -> bool)
      ensures View() == NewHome(epoch)
      ensures this.epoch == epoch && this.limits == limits && this.enc == enc
    {
      this.epoch, this.limits, this.enc := epoch, limits, enc;
      revision, policy := 1, 1;
      coordinators := map[];
      paths, topics, functions := Names(map[], map[]), Names(map[], map[]), Names(map[], map[]);
      nextPath, nextTopic, nextFunction := 1, 1, 1;
      stateOwners, topicOwners, functionOwners, state := map[], map[], map[], map[];
      peers, connections, users := map[], {}, {};
    }

    // ---------- who may see what ----------

    method UserCanSeeState(user: string, path: string) returns (sees: bool)
      ensures sees == CanSee(ActiveConfigs(coordinators), user, path)
    {
      var todo := coordinators.Keys;
      while todo != {}
        invariant todo <= coordinators.Keys
        invariant forall name :: name in coordinators && name !in todo && coordinators[name].active.Some? ==>
          !Sees(coordinators[name].active.value, user, path)
        decreases todo
      {
        var name :| name in todo;
        todo := todo - {name};
        if coordinators[name].active.Some? && user in coordinators[name].active.value.stateACL {
          var matches := MatchesAnyPattern(coordinators[name].active.value.stateACL[user], path);
          if matches {
            assert name in ActiveConfigs(coordinators) && Sees(ActiveConfigs(coordinators)[name], user, path);
            return true;
          }
        }
      }
      return false;
    }

    method UserCanUseTopic(user: string, topic: string) returns (uses: bool)
      ensures uses == (CanPublish(ActiveConfigs(coordinators), user, topic) || CanSubscribe(ActiveConfigs(coordinators), user, topic))
    {
      var todo := coordinators.Keys;
      while todo != {}
        invariant todo <= coordinators.Keys
        invariant forall name :: name in coordinators && name !in todo && coordinators[name].active.Some? ==>
          !Publishes(coordinators[name].active.value, user, topic) && !Subscribes(coordinators[name].active.value, user, topic)
        decreases todo
      {
        var name :| name in todo;
        todo := todo - {name};
        if coordinators[name].active.Some? && user in coordinators[name].active.value.eventACL {
          var access := coordinators[name].active.value.eventACL[user];
          var publishes := MatchesAnyPattern(access.publish, topic);
          var subscribes := MatchesAnyPattern(access.subscribe, topic);
          if publishes || subscribes {
            assert name in ActiveConfigs(coordinators);
            assert Publishes(ActiveConfigs(coordinators)[name], user, topic) || Subscribes(ActiveConfigs(coordinators)[name], user, topic);
            return true;
          }
        }
      }
      return false;
    }

    // ---------- complete views ----------

    method VisibleStateOf(user: string) returns (view: map<string, Value>)
      ensures view == VisibleState(CatalogView(), user)
    {
      view := map[];
      var todo := state.Keys;
      while todo != {}
        invariant todo <= state.Keys
        invariant view == map path | path in state && path !in todo && CanSee(ActiveConfigs(coordinators), user, path) :: state[path]
        decreases todo
      {
        var path :| path in todo;
        todo := todo - {path};
        var sees := UserCanSeeState(user, path);
        if sees {
          view := view[path := state[path]];
        }
      }
    }

    method StateDictionaryFrame(user: string) returns (f: Frame)
      ensures f == StateDict(PathEntries(CatalogView(), user))
    {
      var entries: set<(int, string)> := {};
      var todo := stateOwners.Keys;
      while todo != {}
        invariant todo <= stateOwners.Keys
        invariant entries == set path | path in stateOwners && path !in todo && CanSee(ActiveConfigs(coordinators), user, path)
                               :: (IdOf(paths.byName, path), path)
        decreases todo
      {
        var path :| path in todo;
        todo := todo - {path};
        var sees := UserCanSeeState(user, path);
        if sees {
          entries := entries + {(IdOf(paths.byName, path), path)};
        }
      }
      f := StateDict(entries);
    }

    /** Values are first collected by ID ... */
    method ValuesByID(view: map<string, Value>) returns (values: map<int, Value>)
      requires forall p, q :: p in view && q in view && IdOf(paths.byName, p) == IdOf(paths.byName, q) ==> p == q
      ensures forall id :: id in values <==> exists path :: path in view && IdOf(paths.byName, path) == id
      ensures forall path :: path in view ==> IdOf(paths.byName, path) in values && values[IdOf(paths.byName, path)] == view[path]
    {
      values := map[];
      var todo := view.Keys;
      while todo != {}
        invariant todo <= view.Keys
        invariant forall id :: id in values <==> exists path :: path in view && path !in todo && IdOf(paths.byName, path) == id
        invariant forall path :: path in view && path !in todo ==>
          IdOf(paths.byName, path) in values && values[IdOf(paths.byName, path)] == view[path]
        decreases todo
      {
        var path :| path in todo;
        todo := todo - {path};
        values := values[IdOf(paths.byName, path) := view[path]];
      }
    }

    /** ... and that loses none because visible paths have distinct IDs. */
    method StateSnapshotFrame(user: string) returns (f: Frame)
      requires DistinctIDs()
      ensures f == StateSnapshot(revision, StateEntries(CatalogView(), user))
    {
      var view := VisibleStateOf(user);
      var values := ValuesByID(view);
      var entries := set id | id in values :: (id, values[id]);
      assert entries == StateEntries(CatalogView(), user) by {
        forall e | e in entries ensures e in StateEntries(CatalogView(), user) {
          var path :| path in view && IdOf(paths.byName, path) == e.0;
          assert e == (IdOf(paths.byName, path), state[path]);
        }
        forall e | e in StateEntries(CatalogView(), user) ensures e in entries {
          var path :| path in state && CanSee(ActiveConfigs(coordinators), user, path) && e == (IdOf(paths.byName, path), state[path]);
          assert path in view;
        }
      }
      f := StateSnapshot(revision, entries);
    }

    method TopicDictionaryFrame(user: string) returns (f: Frame)
      ensures f == TopicDict(TopicEntries(CatalogView(), user))
    {
      var entries: set<(int, string)> := {};
      var todo := topicOwners.Keys;
      while todo != {}
        invariant todo <= topicOwners.Keys
        invariant entries == set topic | topic in topicOwners && topic !in todo
            && (CanPublish(ActiveConfigs(coordinators), user, topic) || CanSubscribe(ActiveConfigs(coordinators), user, topic))
              :: (IdOf(topics.byName, topic), NameOf(topics.byID, IdOf(topics.byName, topic)))
        decreases todo
      {
        var topic :| topic in todo;
        todo := todo - {topic};
        var uses := UserCanUseTopic(user, topic);
        if uses {
          var id := IdOf(topics.byName, topic);
          entries := entries + {(id, NameOf(topics.byID, id))};
        }
      }
      f := TopicDict(entries);
    }

    /** First the IDs of the owned functions, then an entry for every ID under the name the ID leads back to. */
    method FunctionDictionaryFrame() returns (f: Frame)
      ensures f == FunctionDict(FunctionEntries(CatalogView()))
    {
      var ids: set<int> := {};
      var names := functionOwners.Keys;
      while names != {}
        invariant names <= functionOwners.Keys
        invariant ids == set name | name in functionOwners && name !in names :: IdOf(functions.byName, name)
        decreases names
      {
        var name :| name in names;
        names := names - {name};
        ids := ids + {IdOf(functions.byName, name)};
      }
      var entries: set<(int, string)> := {};
      var todo := ids;
      while todo != {}
        invariant todo <= ids
        invariant entries == set id | id in ids - todo :: (id, NameOf(functions.byID, id))
        decreases todo
      {
        Inhabited(todo);
        var id :| id in todo;
        todo := todo - {id};
        entries := entries + {(id, NameOf(functions.byID, id))};
      }
      assert entries == FunctionEntries(CatalogView());
      f := FunctionDict(entries);
    }

    // ---------- projections ----------

    /** An isolated copy with another state and revision; writing to it never touches `base`. */
    constructor Projection(base: HomeState, state: map<string, Value>, revision: int)
      ensures CatalogView() == base.CatalogView().(state := state, revision := revision)
      ensures peers == base.peers && users == base.users && coordinators == base.coordinators && enc == base.enc
    {
      epoch, limits, enc := base.epoch, base.limits, base.enc;
      this.revision, policy := revision, base.policy;
      coordinators := base.coordinators;
      paths, topics, functions := base.paths, base.topics, base.functions;
      nextPath, nextTopic, nextFunction := base.nextPath, base.nextTopic, base.nextFunction;
      stateOwners, topicOwners, functionOwners := base.stateOwners, base.topicOwners, base.functionOwners;
      this.state := state;
      peers, connections, users := base.peers, base.connections, base.users;
    }

    method ProjectionForState(next: map<string, Value>) returns (projection: HomeState)
      ensures fresh(projection)
      ensures projection.CatalogView() == CatalogView().(state := next, revision := revision + 1)
      ensures projection.peers == peers && projection.users == users && projection.enc == enc
    {
      projection := new HomeState.Projection(this, next, revision + 1);
    }

    /** What the slot contributed leaves the copy. */
    method ReleaseProjected(previous: Config)
      modifies `stateOwners, `state, `topicOwners, `functionOwners
      ensures stateOwners == old(stateOwners) - previous.ownedState
      ensures state == old(state) - previous.ownedState
      ensures topicOwners == old(topicOwners) - previous.events.Keys
      ensures functionOwners == old(functionOwners) - previous.functions
    {
      stateOwners, state := DeleteBoth(stateOwners, state, previous.ownedState);
      topicOwners := DeleteAll(topicOwners, previous.events.Keys);
      functionOwners := DeleteAll(functionOwners, previous.functions);
    }

    method BindProjected(d: Declaration)
      requires Injective(d.pathIDs) && Injective(d.topicIDs) && Injective(d.functionIDs)
      modifies `paths, `topics, `functions
      ensures paths == Bind(old(paths), d.pathIDs)
      ensures topics == Bind(old(topics), d.topicIDs)
      ensures functions == Bind(old(functions), d.functionIDs)
    {
      var byName, byID := BindAll(paths.byName, paths.byID, d.pathIDs);
      paths := Names(byName, byID);
      byName, byID := BindAll(topics.byName, topics.byID, d.topicIDs);
      topics := Names(byName, byID);
      byName, byID := BindAll(functions.byName, functions.byID, d.functionIDs);
      functions := Names(byName, byID);
    }

    method ClaimProjected(next: Config, name: string)
      modifies `stateOwners, `state, `topicOwners, `functionOwners
      ensures stateOwners == old(stateOwners) + (map path | path in next.state.Keys :: name)
      ensures state == old(state) + next.state
      ensures topicOwners == old(topicOwners) + (map topic | topic in next.events.Keys :: name)
      ensures functionOwners == old(functionOwners) + (map f | f in next.functions :: name)
    {
      stateOwners, state := ClaimBoth(stateOwners, state, next.state, name);
      topicOwners := ClaimAll(topicOwners, next.events.Keys, name);
      functionOwners := ClaimAll(functionOwners, next.functions, name);
    }

    /** Release, bind, claim and install on a copy that shows the slot's previous configuration. */
    method FillProjection(previous: Option<Config>, name: string, d: Declaration)
      requires name in coordinators && coordinators[name].active == previous
      requires Injective(d.pathIDs) && Injective(d.topicIDs) && Injective(d.functionIDs)
      modifies `stateOwners, `state, `topicOwners, `functionOwners, `paths, `topics, `functions, `coordinators
      ensures paths == Bind(old(paths), d.pathIDs)
      ensures topics == Bind(old(topics), d.topicIDs)
      ensures functions == Bind(old(functions), d.functionIDs)
      ensures stateOwners == Released(Path, old(stateOwners), previous) + (map path | path in d.config.state.Keys :: name)
      ensures state == Released(Path, old(state), previous) + d.config.state
      ensures topicOwners == Released(Topic, old(topicOwners), previous) + (map topic | topic in d.config.events.Keys :: name)
      ensures functionOwners == Released(Function, old(functionOwners), previous) + (map f | f in d.config.functions :: name)
      ensures coordinators == old(coordinators)[name := old(coordinators)[name].(active := Some(d.config))]
    {
      if previous.Some? {
        ReleaseProjected(previous.value);
      }
      BindProjected(d);
      ClaimProjected(d.config, name);
      coordinators := coordinators[name := coordinators[name].(active := Some(d.config))];
    }

    /** The home as the activation would leave it, computed on a copy. */
    method ProjectionForActivation(name: string, d: Declaration) returns (projection: HomeState)
      requires name in coordinators
      requires Injective(d.pathIDs) && Injective(d.topicIDs) && Injective(d.functionIDs)
      ensures fresh(projection)
      ensures projection.CatalogView() == Activate(CatalogView(), name, d)
      ensures projection.peers == peers && projection.users == users && projection.enc == enc
    {
      var previous := coordinators[name].active;
      var next := if previous.None? || previous.value.state != d.config.state then revision + 1 else revision;
      projection := new HomeState.Projection(this, state, next);
      projection.FillProjection(previous, name, d);
      ActivateIs(CatalogView(), coordinators, name, d, coordinators[name].(active := Some(d.config)), projection.CatalogView());
    }

    // ---------- what is checked before a commit ----------

    /** The users whose complete frames must stay encodable: the connected and the listed ones. */
    method CheckedUsers() returns (ids: set<string>)
      requires users <= peers.Keys
      ensures forall user :: user in ids <==> Checked(CatalogView(), ConnectedNames(peers, users), user)
    {
      ids := set s | s in users :: peers[s].user;
      var todo := coordinators.Keys;
      while todo != {}
        invariant todo <= coordinators.Keys
        invariant forall user :: user in ids <==>
          || user in ConnectedNames(peers, users)
          || exists name :: name in coordinators && name !in todo && ListedBy(coordinators[name], user)
        decreases todo
      {
        var name :| name in todo;
        todo := todo - {name};
        if coordinators[name].active.Some? {
          ids := ids + coordinators[name].active.value.stateACL.Keys + coordinators[name].active.value.eventACL.Keys;
        }
      }
      ListedIsEnrolled(coordinators);
    }

    method ValidateRequiredFrames() returns (ok: bool)
      requires users <= peers.Keys && DistinctIDs()
      ensures ok == RequiredFramesEncode(CatalogView(), ConnectedNames(peers, users), enc)
    {
      var functionFrame := FunctionDictionaryFrame();
      if !enc(functionFrame) {
        return false;
      }
      var todo := CheckedUsers();
      ghost var all := todo;
      while todo != {}
        invariant todo <= all
        invariant forall user :: user in all - todo ==> RecoverableFor(CatalogView(), user, enc)
        decreases todo
      {
        var user :| user in todo;
        todo := todo - {user};
        var dictionary := StateDictionaryFrame(user);
        var snapshot := StateSnapshotFrame(user);
        var topicFrame := TopicDictionaryFrame(user);
        if !enc(dictionary) || !enc(snapshot) || !enc(topicFrame) {
          assert Checked(CatalogView(), ConnectedNames(peers, users), user) && !RecoverableFor(CatalogView(), user, enc);
          return false;
        }
      }
      assert all - todo == all;
      return true;
    }

    // ---------- sending ----------

    /** The frames of a bootstrap, up to the first that does not fit. */
    static method SendUntilRefused(p: Peer, frames: seq<Frame>) returns (sent: Peer)
      ensures sent == EnqueueAll(p, frames)
    {
      sent := p;
      var index := 0;
      while index < |frames|
        invariant 0 <= index <= |frames|
        invariant EnqueueAll(sent, frames[index..]) == EnqueueAll(p, frames)
      {
        if !Accepts(sent) {
          sent := Enqueue(sent, frames[index]);
          ClosedStays(sent, frames[index + 1..]);
          return;
        }
        sent := Enqueue(sent, frames[index]);
        index := index + 1;
      }
    }

    method ViewFrames(user: string) returns (frames: seq<Frame>)
      requires DistinctIDs()
      ensures frames == RecoveryFrames(CatalogView(), user)
    {
      var dictionary := StateDictionaryFrame(user);
      var snapshot := StateSnapshotFrame(user);
      var topicFrame := TopicDictionaryFrame(user);
      var functionFrame := FunctionDictionaryFrame();
      frames := [dictionary, snapshot, topicFrame, functionFrame];
    }

    /** The complete view of every available user, and the revision each of them is brought to. */
    method UserViewActions() returns (actions: seq<SendAction>)
      requires users <= peers.Keys && DistinctIDs()
      modifies `peers
      ensures peers == Marked(old(peers), users, revision)
      ensures Addressed(actions, CatalogView(), old(peers), users)
    {
      actions := [];
      var marked := peers;
      var todo := users;
      ghost var c := CatalogView();
      while todo != {}
        invariant todo <= users && peers == old(peers) && c == CatalogView()
        invariant marked == Marked(peers, users - todo, revision)
        invariant Addressed(actions, c, peers, users - todo)
        decreases todo
      {
        Inhabited(todo);
        var s :| s in todo;
        MarkOne(peers, users - todo, s, revision);
        PassOver(actions, c, peers, users - todo, s);
        assert users - (todo - {s}) == users - todo + {s} && users - (todo - {s}) - {s} == users - todo;
        todo := todo - {s};
        if Available(peers[s]) {
          var frames := ViewFrames(peers[s].user);
          AddressOne(actions, c, peers, users - todo - {s}, s, frames);
          actions := actions + [SendAction(s, frames[0]), SendAction(s, frames[1]), SendAction(s, frames[2]), SendAction(s, frames[3])];
          marked := marked[s := marked[s].(lastStateRevision := revision)];
        }
      }
      assert users - {} == users;
      peers := marked;
    }

    method UserCanSubscribeTopic(user: string, topic: string) returns (may: bool)
      ensures may == CanSubscribe(ActiveConfigs(coordinators), user, topic)
    {
      var todo := coordinators.Keys;
      while todo != {}
        invariant todo <= coordinators.Keys
        invariant forall name :: name in coordinators && name !in todo && coordinators[name].active.Some? ==>
          !Subscribes(coordinators[name].active.value, user, topic)
        decreases todo
      {
        var name :| name in todo;
        todo := todo - {name};
        if coordinators[name].active.Some? && user in coordinators[name].active.value.eventACL {
          var matches := MatchesAnyPattern(coordinators[name].active.value.eventACL[user].subscribe, topic);
          if matches {
            assert name in ActiveConfigs(coordinators) && Subscribes(ActiveConfigs(coordinators)[name], user, topic);
            return true;
          }
        }
      }
      return false;
    }

    method PrunedPeer(p: Peer) returns (pruned: Peer)
      ensures pruned == Pruned(CatalogView(), p)
    {
      var left := p.subscriptions;
      var todo := p.subscriptions;
      while todo != {}
        invariant todo <= p.subscriptions
        invariant left == set id | id in p.subscriptions && (id in todo ||
            (NameOf(topics.byID, id) in topicOwners && CanSubscribe(ActiveConfigs(coordinators), p.user, NameOf(topics.byID, id))))
        decreases todo
      {
        Inhabited(todo);
        var id :| id in todo;
        todo := todo - {id};
        var topic := NameOf(topics.byID, id);
        var may := UserCanSubscribeTopic(p.user, topic);
        if topic !in topicOwners || !may {
          left := left - {id};
        }
      }
      pruned := p.(subscriptions := left);
    }

    method PruneSubscriptions()
      requires users <= peers.Keys
      modifies `peers
      ensures peers == map s | s in old(peers) :: if s in users then Pruned(CatalogView(), old(peers)[s]) else old(peers)[s]
    {
      var kept := peers;
      var todo := users;
      while todo != {}
        invariant todo <= users && peers == old(peers)
        invariant kept == map s | s in peers :: if s in users - todo then Pruned(CatalogView(), peers[s]) else peers[s]
        decreases todo
      {
        Inhabited(todo);
        var s :| s in todo;
        var p := PrunedPeer(peers[s]);
        kept := kept[s := p];
        todo := todo - {s};
      }
      peers := kept;
    }

    /** New views are computed before subscriptions are pruned, and sent afterwards. */
    method RefreshAll()
      requires users <= peers.Keys && DistinctIDs()
      modifies `peers
      ensures View() == RefreshUsers(old(View()))
    {
      ghost var before := peers;
      var actions := UserViewActions();
      PruneSubscriptions();
      ghost var pruned := peers;
      peers := Dispatch(peers, actions);
      RefreshedByParts(before, users, CatalogView(), pruned, actions, peers);
    }

    // ---------- attach, detach, expiry ----------

    /** The connection of a slot is a known peer of that name, so no peer connects two slots. */
    ghost predicate LinkedSlots()
      reads this
    {
      forall name :: name in coordinators && coordinators[name].connection.Some? ==>
        coordinators[name].connection.value in peers && peers[coordinators[name].connection.value].name == name
    }

    lemma ValidFacts()
      requires Valid()
      ensures users <= connections <= peers.Keys && DistinctIDs() && LinkedSlots()
      ensures NamesInv(paths, nextPath) && NamesInv(topics, nextTopic) && NamesInv(functions, nextFunction)
    {
      IDsDiffer(CatalogView(), nextPath);
      SlotsLink(View(), coordinators);
    }

    method PresenceSnapshotFrame() returns (f: Frame)
      requires users <= peers.Keys
      ensures f == PresenceSnapshot(SessionsOf(View()))
    {
      var entries: set<(int, string)> := {};
      var todo := users;
      while todo != {}
        invariant todo <= users
        invariant entries == set s | s in users - todo && peers[s].bootstrapped :: (s, peers[s].user)
        decreases todo
      {
        Inhabited(todo);
        var s :| s in todo;
        todo := todo - {s};
        if peers[s].bootstrapped {
          entries := entries + {(s, peers[s].user)};
        }
      }
      f := PresenceSnapshot(entries);
    }

    method PresenceActions(f: Frame) returns (actions: seq<SendAction>)
      requires LinkedSlots()
      ensures Announced(actions, f, coordinators, peers, coordinators.Keys)
    {
      actions := [];
      var todo := coordinators.Keys;
      while todo != {}
        invariant todo <= coordinators.Keys
        invariant Announced(actions, f, coordinators, peers, coordinators.Keys - todo)
        decreases todo
      {
        var name :| name in todo;
        assert coordinators.Keys - (todo - {name}) == coordinators.Keys - todo + {name};
        AnnounceOne(actions, f, coordinators, peers, coordinators.Keys - todo, name);
        todo := todo - {name};
        if coordinators[name].connection.Some? && Available(peers[coordinators[name].connection.value]) {
          actions := actions + [SendAction(coordinators[name].connection.value, f)];
        }
      }
      assert coordinators.Keys - {} == coordinators.Keys;
    }

    method AnnounceAll(f: Frame)
      requires LinkedSlots()
      modifies `peers
      ensures View() == Announce(old(View()), f)
    {
      var actions := PresenceActions(f);
      ghost var before := peers;
      peers := Dispatch(peers, actions);
      AnnouncedByParts(actions, f, coordinators, before, peers);
    }

    method AdmitUser(s: Session, p: Peer, leaseValid: bool) returns (outcome: Outcome)
      requires users <= peers.Keys && DistinctIDs() && LinkedSlots() && s !in peers
      modifies `users, `peers
      ensures users == old(users) + {s}
      ensures var sent := EnqueueAll(p.(lastStateRevision := revision), [Welcome] + RecoveryFrames(CatalogView(), p.user));
              var h := old(View()).(users := users, peers := old(peers)[s := Bootstrapped(sent, leaseValid)]);
              && outcome == BootstrapOutcome(sent, leaseValid)
              && View() == if Available(h.peers[s]) then Announce(h, PresenceChange(s, p.user, 1)) else h
    {
      var frames := ViewFrames(p.user);
      var sent := SendUntilRefused(p.(lastStateRevision := revision), [Welcome] + frames);
      users := users + {s};
      peers := peers[s := Bootstrapped(sent, leaseValid)];
      outcome := BootstrapOutcome(sent, leaseValid);
      if Available(peers[s]) {
        AnnounceAll(PresenceChange(s, p.user, 1));
      }
    }

    method AttachUser(s: Session, p: Peer, leaseValid: bool) returns (outcome: Outcome)
      requires users <= connections <= peers.Keys && DistinctIDs() && LinkedSlots() && s !in peers
      modifies `connections, `users, `peers
      ensures (View(), outcome) == HomeModel.AttachUser(old(View()), s, p, leaseValid, limits, enc)
    {
      connections := connections + {s};
      if |users| >= limits.users {
        connections := connections - {s};
        return Refused(LIMIT_EXCEEDED, true);
      }
      var snapshot := PresenceSnapshotFrame();
      if !enc(PresenceSnapshot(snapshot.sessions + {(s, p.user)})) {
        connections := connections - {s};
        return Refused(LIMIT_EXCEEDED, true);
      }
      outcome := AdmitUser(s, p, leaseValid);
    }

    /** The newcomer takes the slot over in its next generation; a pending grace timer is stopped. */
    method TakeSlot(name: string, s: Session) returns (generation: int)
      modifies `coordinators
      ensures generation == (if name in old(coordinators) then old(coordinators)[name].generation else 0) + 1
      ensures ActiveConfigs(coordinators) == ActiveConfigs(old(coordinators))
      ensures SlotsOf(coordinators) == SlotsOf(old(coordinators))[name := Slot(generation, Some(s), false, None)]
    {
      if name !in coordinators {
        coordinators := coordinators[name := CoordinatorSlot(0, None, false, None, None)];
      }
      var slot := coordinators[name];
      generation := slot.generation + 1;
      coordinators := coordinators[name := slot.(generation := generation, connection := Some(s), ready := false, grace := None)];
    }

    method AdmitCoordinator(s: Session, p: Peer, leaseValid: bool) returns (outcome: Outcome)
      requires users <= peers.Keys && s !in peers
      modifies `coordinators, `peers
      ensures ActiveConfigs(coordinators) == ActiveConfigs(old(coordinators))
      ensures var generation := (if p.name in old(coordinators) then old(coordinators)[p.name].generation else 0) + 1;
              var sent := EnqueueAll(p.(generation := generation), [Welcome, PresenceSnapshot(SessionsOf(old(View())))]);
              && outcome == BootstrapOutcome(sent, leaseValid)
              && peers == old(peers)[s := Bootstrapped(sent, leaseValid)]
              && SlotsOf(coordinators) == SlotsOf(old(coordinators))[p.name := Slot(generation, Some(s), false, None)]
    {
      var generation := TakeSlot(p.name, s);
      var snapshot := PresenceSnapshotFrame();
      var sent := SendUntilRefused(p.(generation := generation), [Welcome, snapshot]);
      peers := peers[s := Bootstrapped(sent, leaseValid)];
      outcome := BootstrapOutcome(sent, leaseValid);
    }

    method AttachCoordinator(s: Session, p: Peer, leaseValid: bool) returns (outcome: Outcome)
      requires users <= connections <= peers.Keys && s !in peers
      modifies `connections, `coordinators, `peers
      ensures (View(), outcome) == HomeModel.AttachCoordinator(old(View()), s, p, leaseValid, limits)
    {
      SlotNames(coordinators);
      connections := connections + {s};
      if p.name !in coordinators && |coordinators| >= limits.coordinators {
        connections := connections - {s};
        return Refused(LIMIT_EXCEEDED, true);
      }
      outcome := AdmitCoordinator(s, p, leaseValid);
    }

    method AttachCli(s: Session, p: Peer, leaseValid: bool) returns (outcome: Outcome)
      requires s !in peers
      modifies `connections, `peers
      ensures (View(), outcome) == HomeModel.AttachCli(old(View()), s, p, leaseValid)
    {
      connections := connections + {s};
      var sent := SendUntilRefused(p, [Welcome]);
      peers := peers[s := Bootstrapped(sent, leaseValid)];
      outcome := BootstrapOutcome(sent, leaseValid);
    }

    method AttachByRole(s: Session, p: Peer, leaseValid: bool) returns (outcome: Outcome)
      requires users <= connections <= peers.Keys && DistinctIDs() && LinkedSlots() && s !in peers
      modifies this
      ensures (View(), outcome) == HomeModel.Attach(old(View()), s, p, leaseValid, limits, enc)
    {
      match p.role {
        case User => outcome := AttachUser(s, p, leaseValid);
        case Coordinator => outcome := AttachCoordinator(s, p, leaseValid);
        case Cli => outcome := AttachCli(s, p, leaseValid);
      }
    }

    method Attach(s: Session, p: Peer, leaseValid: bool) returns (outcome: Outcome)
      requires Valid() && s !in peers && Newcomer(p)
      modifies this
      ensures Valid()
      ensures (View(), outcome) == HomeModel.Attach(old(View()), s, p, leaseValid, limits, enc)
    {
      ghost var before := View();
      ValidFacts();
      outcome := AttachByRole(s, p, leaseValid);
      StepKeeps(before, s, LAttach(p, leaseValid), Environment());
    }

    /** The connection of its slot, in the slot's generation. */
    function IsCurrentPeer(s: Session): (current: bool)
      reads this
      requires s in peers
      ensures current == Current(View(), s)
    {
      var p := peers[s];
      p.name in coordinators && coordinators[p.name].connection == Some(s) && coordinators[p.name].generation == p.generation
    }

    method DetachCoordinator(s: Session)
      requires s in peers && peers[s].role == Coordinator
      modifies `coordinators
      ensures View().(slots := old(View()).slots) == old(View())
      ensures View().slots ==
        if !old(IsCurrentPeer(s)) then old(View()).slots
        else if !peers[s].bootstrapped && peers[s].name !in old(View()).catalog.configs then old(View()).slots - {peers[s].name}
        else
          var slot := old(View()).slots[peers[s].name];
          old(View()).slots[peers[s].name := slot.(connection := None, ready := false, grace := Some(slot.generation))]
    {
      if IsCurrentPeer(s) {
        var name := peers[s].name;
        ghost var before := coordinators;
        coordinators := coordinators[name := coordinators[name].(connection := None, ready := false)];
        if !peers[s].bootstrapped && coordinators[name].active.None? {
          coordinators := coordinators - {name};
        } else {
          coordinators := coordinators[name := coordinators[name].(grace := Some(coordinators[name].generation))];
        }
        assert ActiveConfigs(coordinators) == ActiveConfigs(before);
      }
    }

    method DetachPeer(s: Session)
      requires s in peers && LinkedSlots()
      modifies `connections, `peers, `users, `coordinators
      ensures View() == HomeModel.Detach(old(View()), s)
    {
      if s !in connections {
        return;
      }
      connections := connections - {s};
      peers := peers[s := peers[s].(stage := None)];
      match peers[s].role {
        case User =>
          users := users - {s};
          if peers[s].bootstrapped {
            AnnounceAll(PresenceChange(s, peers[s].user, 2));
          }
        case Coordinator => DetachCoordinator(s);
        case Cli =>
      }
    }

    method Detach(s: Session)
      requires Valid() && s in peers
      modifies this
      ensures Valid()
      ensures View() == HomeModel.Detach(old(View()), s)
    {
      ghost var before := View();
      ValidFacts();
      DetachPeer(s);
      StepKeeps(before, s, LDetach, Environment());
    }

    /** Everything a configuration declared leaves the indexes of the home itself. */
    method ReleaseOwned(previous: Config)
      modifies `stateOwners, `state, `topicOwners, `functionOwners
      ensures stateOwners == old(stateOwners) - previous.ownedState
      ensures state == old(state) - previous.ownedState
      ensures topicOwners == old(topicOwners) - previous.events.Keys
      ensures functionOwners == old(functionOwners) - previous.functions
    {
      var todo := previous.ownedState;
      while todo != {}
        invariant todo <= previous.ownedState
        invariant stateOwners == old(stateOwners) - (previous.ownedState - todo)
        invariant state == old(state) - (previous.ownedState - todo)
        modifies `stateOwners, `state
        decreases todo
      {
        var path :| path in todo;
        stateOwners := stateOwners - {path};
        state := state - {path};
        todo := todo - {path};
      }
      todo := previous.events.Keys;
      while todo != {}
        invariant todo <= previous.events.Keys
        invariant topicOwners == old(topicOwners) - (previous.events.Keys - todo)
        modifies `topicOwners
        decreases todo
      {
        var topic :| topic in todo;
        topicOwners := topicOwners - {topic};
        todo := todo - {topic};
      }
      todo := previous.functions;
      while todo != {}
        invariant todo <= previous.functions
        invariant functionOwners == old(functionOwners) - (previous.functions - todo)
        modifies `functionOwners
        decreases todo
      {
        var name :| name in todo;
        functionOwners := functionOwners - {name};
        todo := todo - {name};
      }
    }

    /** Everything a slot contributed goes at once. */
    method Withdraw(name: string)
      requires name in coordinators && coordinators[name].active.Some?
      modifies `stateOwners, `state, `topicOwners, `functionOwners, `coordinators, `revision, `policy
      ensures coordinators == old(coordinators)[name := old(coordinators)[name].(active := None)]
      ensures CatalogView() == Remove(old(CatalogView()), name) && policy == old(policy) + 1
    {
      ghost var c := CatalogView();
      ghost var before := coordinators;
      ReleaseOwned(coordinators[name].active.value);
      coordinators := coordinators[name := coordinators[name].(active := None)];
      revision := revision + 1;
      policy := policy + 1;
      RemoveIs(c, before, name, CatalogView());
    }

    /** Subscriptions are pruned before the new views are computed. */
    method RemoveCoordinator(name: string) returns (actions: seq<SendAction>)
      requires name in coordinators && coordinators[name].active.Some?
      requires users <= peers.Keys && DistinctIDs()
      modifies `stateOwners, `state, `topicOwners, `functionOwners, `coordinators, `revision, `policy, `peers
      ensures coordinators == old(coordinators)[name := old(coordinators)[name].(active := None)]
      ensures CatalogView() == Remove(old(CatalogView()), name) && policy == old(policy) + 1
      ensures peers.Keys == old(peers.Keys) && Addressed(actions, CatalogView(), old(peers), users)
      ensures peers == Marked(map s | s in old(peers) :: if s in users then Pruned(CatalogView(), old(peers)[s]) else old(peers)[s], users, revision)
    {
      Withdraw(name);
      PruneSubscriptions();
      ghost var pruned := peers;
      actions := UserViewActions();
      AddressIgnoresPruning(actions, CatalogView(), old(peers), pruned, users);
    }

    method ExpireActive(name: string)
      requires name in coordinators && coordinators[name].active.Some?
      requires users <= peers.Keys && DistinctIDs()
      modifies `stateOwners, `state, `topicOwners, `functionOwners, `coordinators, `revision, `policy, `peers
      ensures coordinators == old(coordinators) - {name}
      ensures CatalogView() == Remove(old(CatalogView()), name) && policy == old(policy) + 1
      ensures peers == map s | s in old(peers) :: if s in users then Refreshed(CatalogView(), Pruned(CatalogView(), old(peers)[s])) else old(peers)[s]
    {
      ghost var before := coordinators;
      ghost var sent := peers;
      var actions := RemoveCoordinator(name);
      ghost var c := CatalogView();
      ghost var pruned := peers;
      coordinators := coordinators - {name};
      assert ActiveConfigs(coordinators) == ActiveConfigs(before[name := before[name].(active := None)]);
      peers := Dispatch(peers, actions);
      ExpiredByParts(sent, users, c, pruned, actions, peers);
    }

    method ExpireSlot(name: string, generation: int)
      requires users <= peers.Keys && DistinctIDs()
      modifies this
      ensures View() == HomeModel.Expire(old(View()), name, generation)
    {
      if name !in coordinators || coordinators[name].generation != generation || coordinators[name].connection.Some? {
        return;
      }
      SlotsWithout(coordinators, name);
      if coordinators[name].active.Some? {
        ExpireActive(name);
      } else {
        coordinators := coordinators - {name};
      }
    }

    method ExpireCoordinator(name: string, generation: int)
      requires Valid()
      modifies this
      ensures Valid()
      ensures View() == HomeModel.Expire(old(View()), name, generation)
    {
      ghost var before := View();
      ValidFacts();
      ExpireSlot(name, generation);
      StepKeeps(before, 0, LExpire(name, generation), Environment());
    }

    // ---------- declarations ----------

    method ReservePaths(wanted: set<string>) returns (ids: map<string, int>)
      requires NamesInv(paths, nextPath)
      modifies `nextPath
      ensures Reserves(paths, old(nextPath), wanted, ids) && nextPath == NextAfter(paths, old(nextPath), ids)
    {
      ids, nextPath := ReserveIDs(paths, nextPath, wanted);
    }

    method ReserveTopics(wanted: set<string>) returns (ids: map<string, int>)
      requires NamesInv(topics, nextTopic)
      modifies `nextTopic
      ensures Reserves(topics, old(nextTopic), wanted, ids) && nextTopic == NextAfter(topics, old(nextTopic), ids)
    {
      ids, nextTopic := ReserveIDs(topics, nextTopic, wanted);
    }

    method ReserveFunctions(wanted: set<string>) returns (ids: map<string, int>)
      requires NamesInv(functions, nextFunction)
      modifies `nextFunction
      ensures Reserves(functions, old(nextFunction), wanted, ids) && nextFunction == NextAfter(functions, old(nextFunction), ids)
    {
      ids, nextFunction := ReserveIDs(functions, nextFunction, wanted);
    }

    /** A coordinator that is still the connection of its slot. */
    predicate MayDeclare(s: Session)
      reads this
      requires s in peers
    {
      peers[s].role == Coordinator && IsCurrentPeer(s)
    }

    method StageState(s: Session, slice: map<string, Value>) returns (ids: map<string, int>, outcome: Outcome)
      requires s in peers && NamesInv(paths, nextPath)
      modifies `nextPath, `peers
      ensures old(MayDeclare(s)) ==> Reserves(paths, old(nextPath), slice.Keys, ids)
      ensures View() == HomeModel.SyncState(old(View()), s, slice, ids, enc).0
      ensures outcome == HomeModel.SyncState(old(View()), s, slice, ids, enc).1
    {
      ids := map[];
      if peers[s].role != Coordinator {
        return ids, Refused(WRONG_DIRECTION, false);
      }
      if !IsCurrentPeer(s) {
        return ids, Refused(GENERATION_REPLACED, true);
      }
      ghost var before := View();
      StopStageTimer(s);
      ids := ReservePaths(slice.Keys);
      if !enc(StateSyncOK(revision, ids)) {
        return ids, Refused(LIMIT_EXCEEDED, false);
      }
      outcome := OpenStage(s, slice, ids);
      OpenedIs(before, s, slice, ids, enc, View());
    }

    /** Stopping the old timer first makes no difference to a stage that is replaced. */
    static lemma OpenedIs(h: Home, s: Session, slice: map<string, Value>, ids: map<string, int>, enc: Frame -> bool, h': Home)
      requires s in h.peers && h.peers[s].role == Coordinator && Current(h, s) && enc(StateSyncOK(h.catalog.revision, ids))
      requires var p := Halted(h.peers[s]);
               var stage := Stage(AclSlice, slice, ids, map[], map[], map[], map[], p.stageCount, true);
               h' == h.(nextPath := NextAfter(h.catalog.paths, h.nextPath, ids),
                        peers := h.peers[s := p][s := Enqueue(p, StateSyncOK(h.catalog.revision, ids)).(
                                                        stage := if Accepts(p) then Some(stage) else None,
                                                        stageCount := p.stageCount + 1)])
      ensures HomeModel.SyncState(h, s, slice, ids, enc) == (h', SentOutcome(Halted(h.peers[s])))
    {
      assert h.peers[s := Halted(h.peers[s])][s := h'.peers[s]] == h.peers[s := h'.peers[s]];
    }

    method StopStageTimer(s: Session)
      requires s in peers
      modifies `peers
      ensures peers == old(peers)[s := Halted(old(peers[s]))]
    {
      if peers[s].stage.Some? {
        peers := peers[s := peers[s].(stage := Some(peers[s].stage.value.(timer := false)))];
      } else {
        assert peers == peers[s := peers[s]];
      }
    }

    /** The new stage is in place before its reply is queued, and taken away again when that overflows the queue. */
    method OpenStage(s: Session, slice: map<string, Value>, ids: map<string, int>) returns (outcome: Outcome)
      requires s in peers
      modifies `peers
      ensures var p := old(peers[s]);
              var stage := Stage(AclSlice, slice, ids, map[], map[], map[], map[], p.stageCount, true);
              && outcome == SentOutcome(p)
              && peers == old(peers)[s := Enqueue(p, StateSyncOK(revision, ids)).(
                                            stage := if Accepts(p) then Some(stage) else None,
                                            stageCount := p.stageCount + 1)]
    {
      var p := peers[s];
      var stage := Stage(AclSlice, slice, ids, map[], map[], map[], map[], p.stageCount, true);
      peers := peers[s := p.(stage := Some(stage), stageCount := p.stageCount + 1)];
      outcome := SentOutcome(peers[s]);
      peers := peers[s := Enqueue(peers[s], StateSyncOK(revision, ids))];
      if outcome != Ok {
        peers := peers[s := peers[s].(stage := None)];
      }
    }

    method SyncState(s: Session, slice: map<string, Value>) returns (ids: map<string, int>, outcome: Outcome)
      requires Valid() && s in peers
      modifies this
      ensures Valid()
      ensures old(MayDeclare(s)) ==> Reserves(old(paths), old(nextPath), slice.Keys, ids)
      ensures (View(), outcome) == HomeModel.SyncState(old(View()), s, slice, ids, enc)
    {
      ghost var before := View();
      ghost var declares := MayDeclare(s);
      ValidFacts();
      ids, outcome := StageState(s, slice);
      if declares {
        StepKeeps(before, s, LSyncState(slice, ids), Environment());
      }
    }

    /** The guards of the four later slices; a slice out of order drops the stage. */
    method AcceptSlice(s: Session, slice: Slice) returns (outcome: Outcome)
      requires s in peers
      modifies `peers
      ensures outcome == SliceRefusal(old(View()), s, slice)
      ensures View() == if outcome == Ok then old(View()) else RefuseSlice(old(View()), s, slice).0
    {
      if peers[s].role != Coordinator {
        return Refused(WRONG_DIRECTION, false);
      }
      if !IsCurrentPeer(s) {
        return Refused(GENERATION_REPLACED, true);
      }
      if peers[s].stage.None? || peers[s].stage.value.expected != slice {
        peers := peers[s := peers[s].(stage := None)];
        return Refused(UNEXPECTED_FRAME, false);
      }
      return Ok;
    }

    method SyncAcl(s: Session, acl: map<string, seq<string>>) returns (outcome: Outcome)
      requires Valid() && s in peers
      modifies this
      ensures Valid()
      ensures (View(), outcome) == HomeModel.SyncAcl(old(View()), s, acl)
    {
      ghost var before := View();
      outcome := StageAcl(s, acl);
      StepKeeps(before, s, LSyncAcl(acl), Environment());
    }

    method StageAcl(s: Session, acl: map<string, seq<string>>) returns (outcome: Outcome)
      requires s in peers
      modifies `peers
      ensures (View(), outcome) == HomeModel.SyncAcl(old(View()), s, acl)
    {
      outcome := AcceptSlice(s, AclSlice);
      if outcome == Ok {
        outcome := SentOutcome(peers[s]);
        var stage := peers[s].stage.value.(stateACL := acl, expected := EventSlice);
        peers := peers[s := Enqueue(peers[s].(stage := Some(stage)), Other)];
      }
    }

    /** The third slice with its IDs is answered and staged, or the stage is dropped. */
    method AnswerEvents(s: Session, events: map<string, int>, ids: map<string, int>) returns (outcome: Outcome)
      requires s in peers && peers[s].stage.Some?
      modifies `peers
      ensures outcome == if enc(EventSyncOK(ids)) then SentOutcome(old(peers)[s]) else Refused(LIMIT_EXCEEDED, false)
      ensures var p := old(peers)[s];
              var stage := p.stage.value.(events := events, topicIDs := ids, expected := EventAclSlice);
              peers == old(peers)[s := if enc(EventSyncOK(ids)) then Enqueue(p.(stage := Some(stage)), EventSyncOK(ids)) else p.(stage := None)]
    {
      var response := EventSyncOK(ids);
      if !enc(response) {
        peers := peers[s := peers[s].(stage := None)];
        return Refused(LIMIT_EXCEEDED, false);
      }
      outcome := SentOutcome(peers[s]);
      var stage := peers[s].stage.value.(events := events, topicIDs := ids, expected := EventAclSlice);
      peers := peers[s := Enqueue(peers[s].(stage := Some(stage)), response)];
    }

    method StageEvents(s: Session, events: map<string, int>) returns (ids: map<string, int>, outcome: Outcome)
      requires s in peers && NamesInv(topics, nextTopic)
      modifies `nextTopic, `peers
      ensures SliceRefusal(old(View()), s, EventSlice) == Ok ==> Reserves(topics, old(nextTopic), events.Keys, ids)
      ensures (View(), outcome) == HomeModel.SyncEvents(old(View()), s, events, ids, enc)
    {
      ids := map[];
      outcome := AcceptSlice(s, EventSlice);
      if outcome == Ok {
        ids := ReserveTopics(events.Keys);
        outcome := AnswerEvents(s, events, ids);
      }
    }

    method SyncEvents(s: Session, events: map<string, int>) returns (ids: map<string, int>, outcome: Outcome)
      requires Valid() && s in peers
      modifies this
      ensures Valid()
      ensures SliceRefusal(old(View()), s, EventSlice) == Ok ==> Reserves(old(topics), old(nextTopic), events.Keys, ids)
      ensures (View(), outcome) == HomeModel.SyncEvents(old(View()), s, events, ids, enc)
    {
      ghost var before := View();
      ValidFacts();
      ids, outcome := StageEvents(s, events);
      if SliceRefusal(before, s, EventSlice) == Ok {
        StepKeeps(before, s, LSyncEvents(events, ids), Environment());
      } else {
        RefusedSliceKeeps(before, s, EventSlice, Environment());
      }
    }

    method StageEventAcl(s: Session, acl: map<string, EventAccess>) returns (outcome: Outcome)
      requires s in peers
      modifies `peers
      ensures (View(), outcome) == HomeModel.SyncEventAcl(old(View()), s, acl)
    {
      outcome := AcceptSlice(s, EventAclSlice);
      if outcome == Ok {
        outcome := SentOutcome(peers[s]);
        var stage := peers[s].stage.value.(eventACL := acl, expected := FunctionSlice);
        peers := peers[s := Enqueue(peers[s].(stage := Some(stage)), Other)];
      }
    }

    method SyncEventAcl(s: Session, acl: map<string, EventAccess>) returns (outcome: Outcome)
      requires Valid() && s in peers
      modifies this
      ensures Valid()
      ensures (View(), outcome) == HomeModel.SyncEventAcl(old(View()), s, acl)
    {
      ghost var before := View();
      outcome := StageEventAcl(s, acl);
      StepKeeps(before, s, LSyncEventAcl(acl), Environment());
    }

    method ExpireStage(s: Session, serial: nat)
      requires Valid() && s in peers
      modifies this
      ensures Valid()
      ensures View() == HomeModel.ExpireStage(old(View()), s, serial)
    {
      ghost var before := View();
      if peers[s].stage.Some? && peers[s].stage.value.serial == serial {
        peers := peers[s := Enqueue(peers[s].(stage := None), Other)];
      }
      StepKeeps(before, s, LExpireStage(serial), Environment());
    }

    /** A frame without state or presence content, such as one of a call. */
    method Notify(s: Session)
      requires Valid() && s in peers
      modifies this
      ensures Valid()
      ensures View() == SetPeer(old(View()), s, Enqueue(old(peers[s]), Other))
    {
      ghost var before := View();
      peers := peers[s := Enqueue(peers[s], Other)];
      StepKeeps(before, s, LNotice, Environment());
    }

    // ---------- activation ----------

    method CountDictionary(byName: map<string, int>, ids: map<string, int>) returns (count: int)
      ensures count == DictionaryCount(byName, ids)
    {
      count := |byName|;
      var todo := ids.Keys;
      ghost var unbound: set<string> := {};
      while todo != {}
        invariant todo <= ids.Keys
        invariant unbound == set name | name in ids && name !in todo && IdOf(byName, name) == 0
        invariant count == |byName| + |unbound|
        decreases todo
      {
        var name :| name in todo;
        todo := todo - {name};
        if IdOf(byName, name) == 0 {
          unbound := unbound + {name};
          count := count + 1;
        }
      }
      assert unbound == Unbound(byName, ids);
    }

    method NobodyElseOwns(owners: map<string, string>, claimed: set<string>, name: string) returns (free: bool)
      ensures free == Free(owners, claimed, name)
    {
      var todo := claimed;
      while todo != {}
        invariant todo <= claimed
        invariant forall n :: n in claimed && n !in todo && n in owners ==> owners[n] == name
        decreases todo
      {
        var n :| n in todo;
        todo := todo - {n};
        if n in owners && owners[n] != name {
          return false;
        }
      }
      return true;
    }

    /** Refuse, or predict the catalogue the activation will leave and check every frame it needs. */
    method ValidateActivation(name: string, d: Declaration) returns (refusal: Outcome, ghost predicted: Catalog)
      requires name in coordinators && users <= peers.Keys
      requires Injective(d.pathIDs) && Injective(d.topicIDs) && Injective(d.functionIDs)
      requires DistinctIn(Activate(CatalogView(), name, d))
      ensures refusal == ActivationRefusal(CatalogView(), name, d, ConnectedNames(peers, users), limits, enc)
      ensures refusal == Ok ==> predicted == Activate(CatalogView(), name, d)
    {
      predicted := CatalogView();
      var collides := Collides(name, d.config);
      if collides {
        return Refused(OWNERSHIP_COLLISION, false), predicted;
      }
      var exceeds := ExceedsLimits(name, d);
      if exceeds || !enc(FunctionSyncOK(d.functionIDs)) {
        return Refused(LIMIT_EXCEEDED, false), predicted;
      }
      refusal, predicted := ValidateProjection(name, d);
    }

    method ValidateProjection(name: string, d: Declaration) returns (refusal: Outcome, ghost predicted: Catalog)
      requires name in coordinators && users <= peers.Keys
      requires Injective(d.pathIDs) && Injective(d.topicIDs) && Injective(d.functionIDs)
      requires DistinctIn(Activate(CatalogView(), name, d))
      ensures predicted == Activate(CatalogView(), name, d)
      ensures refusal == if RequiredFramesEncode(predicted, ConnectedNames(peers, users), enc) then Ok else Refused(LIMIT_EXCEEDED, false)
    {
      var projection := ProjectionForActivation(name, d);
      predicted := projection.CatalogView();
      var fits := projection.ValidateRequiredFrames();
      refusal := if fits then Ok else Refused(LIMIT_EXCEEDED, false);
    }

    method Collides(name: string, config: Config) returns (collides: bool)
      ensures collides <==> !Free(stateOwners, config.state.Keys, name) || !Free(topicOwners, config.events.Keys, name)
                            || !Free(functionOwners, config.functions, name)
    {
      var pathsFree := NobodyElseOwns(stateOwners, config.state.Keys, name);
      var topicsFree := NobodyElseOwns(topicOwners, config.events.Keys, name);
      var functionsFree := NobodyElseOwns(functionOwners, config.functions, name);
      collides := !pathsFree || !topicsFree || !functionsFree;
    }

    /** The counts after the activation, from the sizes of the indexes before it. */
    method ExceedsLimits(name: string, d: Declaration) returns (exceeds: bool)
      requires name in coordinators
      ensures exceeds <==>
        || AggregateCount(stateOwners, Owned(Path, ActiveConfigs(coordinators), name), d.config.state.Keys) > limits.statePaths
        || !WithinDictionaries(CatalogView(), d, limits)
        || AggregateCount(topicOwners, Owned(Topic, ActiveConfigs(coordinators), name), d.config.events.Keys) > limits.dictionary
        || AggregateCount(functionOwners, Owned(Function, ActiveConfigs(coordinators), name), d.config.functions) > limits.dictionary
    {
      var pathCount, topicCount, functionCount := |stateOwners|, |topicOwners|, |functionOwners|;
      if coordinators[name].active.Some? {
        pathCount := pathCount - |coordinators[name].active.value.ownedState|;
        topicCount := topicCount - |coordinators[name].active.value.events.Keys|;
        functionCount := functionCount - |coordinators[name].active.value.functions|;
      }
      var boundPaths := CountDictionary(paths.byName, d.pathIDs);
      var boundTopics := CountDictionary(topics.byName, d.topicIDs);
      var boundFunctions := CountDictionary(functions.byName, d.functionIDs);
      exceeds := pathCount + |d.config.state.Keys| > limits.statePaths
        || boundPaths > limits.dictionary || boundTopics > limits.dictionary || boundFunctions > limits.dictionary
        || topicCount + |d.config.events.Keys| > limits.dictionary
        || functionCount + |d.config.functions| > limits.dictionary;
    }

    method Bump(previous: Option<Config>, next: Config)
      modifies `revision, `policy
      ensures revision == old(revision) + (match previous case None => 1 case Some(p) => if p.state != next.state then 1 else 0)
      ensures policy == old(policy) + if previous.None? || Reconfigured(previous.value, next) then 1 else 0
    {
      var stateChanged := previous.None? || previous.value.state != next.state;
      var policyChanged := previous.None? || previous.value.stateACL != next.stateACL || previous.value.events != next.events
        || previous.value.eventACL != next.eventACL || previous.value.functions != next.functions;
      if stateChanged {
        revision := revision + 1;
      }
      if policyChanged {
        policy := policy + 1;
      }
    }

    /** The staged IDs enter the dictionaries of the home, kind by kind. */
    method BindStaged(stage: Stage, functionIDs: map<string, int>)
      requires Injective(stage.pathIDs) && Injective(stage.topicIDs) && Injective(functionIDs)
      modifies `paths, `topics, `functions
      ensures paths == Bind(old(paths), stage.pathIDs)
      ensures topics == Bind(old(topics), stage.topicIDs)
      ensures functions == Bind(old(functions), functionIDs)
    {
      BindPaths(stage.pathIDs);
      BindTopics(stage.topicIDs);
      BindFunctions(functionIDs);
    }

    method BindPaths(ids: map<string, int>)
      requires Injective(ids)
      modifies `paths
      ensures paths == Bind(old(paths), ids)
    {
      var todo := ids.Keys;
      while todo != {}
        invariant todo <= ids.Keys
        invariant paths.byName == old(paths).byName + (ids - todo)
        invariant BackAfter(old(paths).byID, ids, ids.Keys - todo, paths.byID)
        decreases todo
      {
        var name :| name in todo;
        OneMoreBack(old(paths).byID, ids, ids.Keys - todo, paths.byID, name);
        paths := paths.(byName := paths.byName[name := ids[name]], byID := paths.byID[ids[name] := name]);
        assert ids.Keys - (todo - {name}) == ids.Keys - todo + {name};
        todo := todo - {name};
      }
      assert ids - {} == ids;
      BackIsBound(old(paths).byID, ids, paths.byID);
    }

    method BindTopics(ids: map<string, int>)
      requires Injective(ids)
      modifies `topics
      ensures topics == Bind(old(topics), ids)
    {
      var todo := ids.Keys;
      while todo != {}
        invariant todo <= ids.Keys
        invariant topics.byName == old(topics).byName + (ids - todo)
        invariant BackAfter(old(topics).byID, ids, ids.Keys - todo, topics.byID)
        decreases todo
      {
        var name :| name in todo;
        OneMoreBack(old(topics).byID, ids, ids.Keys - todo, topics.byID, name);
        topics := topics.(byName := topics.byName[name := ids[name]], byID := topics.byID[ids[name] := name]);
        assert ids.Keys - (todo - {name}) == ids.Keys - todo + {name};
        todo := todo - {name};
      }
      assert ids - {} == ids;
      BackIsBound(old(topics).byID, ids, topics.byID);
    }

    method BindFunctions(ids: map<string, int>)
      requires Injective(ids)
      modifies `functions
      ensures functions == Bind(old(functions), ids)
    {
      var todo := ids.Keys;
      while todo != {}
        invariant todo <= ids.Keys
        invariant functions.byName == old(functions).byName + (ids - todo)
        invariant BackAfter(old(functions).byID, ids, ids.Keys - todo, functions.byID)
        decreases todo
      {
        var name :| name in todo;
        OneMoreBack(old(functions).byID, ids, ids.Keys - todo, functions.byID, name);
        functions := functions.(byName := functions.byName[name := ids[name]], byID := functions.byID[ids[name] := name]);
        assert ids.Keys - (todo - {name}) == ids.Keys - todo + {name};
        todo := todo - {name};
      }
      assert ids - {} == ids;
      BackIsBound(old(functions).byID, ids, functions.byID);
    }

    /** The slot takes over every name it staged. */
    method ClaimStaged(stage: Stage, staged: set<string>, name: string)
      modifies `stateOwners, `state, `topicOwners, `functionOwners
      ensures stateOwners == old(stateOwners) + (map path | path in stage.state.Keys :: name)
      ensures state == old(state) + stage.state
      ensures topicOwners == old(topicOwners) + (map topic | topic in stage.events.Keys :: name)
      ensures functionOwners == old(functionOwners) + (map f | f in staged :: name)
    {
      ClaimPaths(stage.state, name);
      ClaimTopics(stage.events.Keys, name);
      ClaimFunctions(staged, name);
    }

    method ClaimPaths(staged: map<string, Value>, name: string)
      modifies `stateOwners, `state
      ensures stateOwners == old(stateOwners) + (map path | path in staged.Keys :: name)
      ensures state == old(state) + staged
    {
      var todo := staged.Keys;
      while todo != {}
        invariant todo <= staged.Keys
        invariant stateOwners == old(stateOwners) + (map path | path in staged.Keys - todo :: name)
        invariant state == old(state) + (staged - todo)
        decreases todo
      {
        var path :| path in todo;
        ClaimOneMore(old(stateOwners), staged.Keys, todo, name, path);
        PutOneMore(old(state), staged, todo, path);
        stateOwners := stateOwners[path := name];
        state := state[path := staged[path]];
        todo := todo - {path};
      }
    }

    method ClaimTopics(staged: set<string>, name: string)
      modifies `topicOwners
      ensures topicOwners == old(topicOwners) + (map topic | topic in staged :: name)
    {
      var todo := staged;
      while todo != {}
        invariant todo <= staged
        invariant topicOwners == old(topicOwners) + (map topic | topic in staged - todo :: name)
        decreases todo
      {
        var topic :| topic in todo;
        ClaimOneMore(old(topicOwners), staged, todo, name, topic);
        topicOwners := topicOwners[topic := name];
        todo := todo - {topic};
      }
    }

    method ClaimFunctions(staged: set<string>, name: string)
      modifies `functionOwners
      ensures functionOwners == old(functionOwners) + (map f | f in staged :: name)
    {
      var todo := staged;
      while todo != {}
        invariant todo <= staged
        invariant functionOwners == old(functionOwners) + (map f | f in staged - todo :: name)
        decreases todo
      {
        var f :| f in todo;
        ClaimOneMore(old(functionOwners), staged, todo, name, f);
        functionOwners := functionOwners[f := name];
        todo := todo - {f};
      }
    }

    /** Release, bind and claim in the home itself, from the maps of the stage. */
    method ReplaceNames(previous: Option<Config>, name: string, stage: Stage, staged: set<string>, functionIDs: map<string, int>)
      requires Injective(stage.pathIDs) && Injective(stage.topicIDs) && Injective(functionIDs)
      modifies `stateOwners, `state, `topicOwners, `functionOwners, `paths, `topics, `functions
      ensures paths == Bind(old(paths), stage.pathIDs)
      ensures topics == Bind(old(topics), stage.topicIDs)
      ensures functions == Bind(old(functions), functionIDs)
      ensures stateOwners == Released(Path, old(stateOwners), previous) + (map path | path in stage.state.Keys :: name)
      ensures state == Released(Path, old(state), previous) + stage.state
      ensures topicOwners == Released(Topic, old(topicOwners), previous) + (map topic | topic in stage.events.Keys :: name)
      ensures functionOwners == Released(Function, old(functionOwners), previous) + (map f | f in staged :: name)
    {
      if previous.Some? {
        ReleaseOwned(previous.value);
      }
      BindStaged(stage, functionIDs);
      ClaimStaged(stage, staged, name);
    }

    /**
     The commit. It shares no loop with the projection: it writes the indexes of the home from the stage,
     then revision and policy, then the slot, and arrives at the catalogue the projection predicted.
     */
    method Commit(name: string, stage: Stage, staged: set<string>, functionIDs: map<string, int>)
      requires name in coordinators
      requires Injective(stage.pathIDs) && Injective(stage.topicIDs) && Injective(functionIDs)
      modifies `stateOwners, `state, `topicOwners, `functionOwners, `paths, `topics, `functions, `coordinators, `revision, `policy
      ensures var d := DeclarationOf(stage, staged, functionIDs);
              && CatalogView() == Activate(old(CatalogView()), name, d)
              && policy == (if PolicyChanges(old(CatalogView()).configs, name, d.config) then old(policy) + 1 else old(policy))
              && SlotsOf(coordinators) == SlotsOf(old(coordinators))[name := SlotsOf(old(coordinators))[name].(ready := true)]
    {
      ghost var c := CatalogView();
      ghost var before := coordinators;
      var previous := coordinators[name].active;
      var next := DeclarationOf(stage, staged, functionIDs).config;
      ReplaceNames(previous, name, stage, staged, functionIDs);
      Bump(previous, next);
      coordinators := coordinators[name := coordinators[name].(active := Some(next), ready := true)];
      ActivateIs(c, before, name, DeclarationOf(stage, staged, functionIDs), coordinators[name], CatalogView());
    }

    /** Validate on a copy, answer, then commit and refresh every user. */
    method ActivateStage(s: Session, stage: Stage, staged: set<string>, ids: map<string, int>)
      returns (outcome: Outcome, ghost predicted: Catalog)
      requires s in peers && users <= peers.Keys && peers[s].name in coordinators
      requires Injective(stage.pathIDs) && Injective(stage.topicIDs) && Injective(ids)
      requires DistinctIn(Activate(CatalogView(), peers[s].name, DeclarationOf(stage, staged, ids)))
      modifies this
      ensures Activated(old(View()), s, DeclarationOf(stage, staged, ids), limits, enc, outcome, View())
      ensures outcome == Ok ==> predicted == CatalogView()
    {
      var name := peers[s].name;
      outcome, predicted := ValidateActivation(name, DeclarationOf(stage, staged, ids));
      outcome := AnswerActivation(s, outcome, ids);
      if outcome == Ok {
        CommitAndRefresh(name, stage, staged, ids);
      }
    }

    /** The stage ends; a valid activation is answered, and goes on if the answer could be queued. */
    method AnswerActivation(s: Session, refusal: Outcome, ids: map<string, int>) returns (outcome: Outcome)
      requires s in peers
      modifies `peers
      ensures outcome == if refusal != Ok then refusal else SentOutcome(old(peers)[s])
      ensures peers == old(peers)[s :=
        if refusal != Ok then old(peers)[s].(stage := None) else Enqueue(old(peers)[s], FunctionSyncOK(ids)).(stage := None)]
    {
      if refusal != Ok {
        peers := peers[s := peers[s].(stage := None)];
        return refusal;
      }
      outcome := SentOutcome(peers[s]);
      peers := peers[s := Enqueue(peers[s], FunctionSyncOK(ids)).(stage := None)];
    }

    method CommitHome(name: string, stage: Stage, staged: set<string>, ids: map<string, int>)
      requires name in coordinators
      requires Injective(stage.pathIDs) && Injective(stage.topicIDs) && Injective(ids)
      modifies this
      ensures View() == Committed(old(View()), name, DeclarationOf(stage, staged, ids))
      ensures peers == old(peers) && users == old(users)
    {
      Commit(name, stage, staged, ids);
    }

    method CommitAndRefresh(name: string, stage: Stage, staged: set<string>, ids: map<string, int>)
      requires name in coordinators && users <= peers.Keys
      requires Injective(stage.pathIDs) && Injective(stage.topicIDs) && Injective(ids)
      requires DistinctIn(Activate(CatalogView(), name, DeclarationOf(stage, staged, ids)))
      modifies this
      ensures View() == RefreshUsers(Committed(old(View()), name, DeclarationOf(stage, staged, ids)))
      ensures CatalogView() == Activate(old(CatalogView()), name, DeclarationOf(stage, staged, ids))
    {
      CommitHome(name, stage, staged, ids);
      RefreshAll();
    }

    method LastSlice(s: Session, functions: set<string>)
      returns (ids: map<string, int>, outcome: Outcome, ghost predicted: Catalog)
      requires s in peers && users <= peers.Keys && NamesInv(this.functions, nextFunction)
      requires Activatable(View(), s, functions)
      modifies this
      ensures SliceRefusal(old(View()), s, FunctionSlice) == Ok ==> Reserves(old(this.functions), old(nextFunction), functions, ids)
      ensures (View(), outcome) == HomeModel.SyncFunctions(old(View()), s, functions, ids, limits, enc)
      ensures outcome == Ok ==> predicted == CatalogView()
    {
      ghost var before := View();
      ids, predicted := map[], CatalogView();
      outcome := AcceptSlice(s, FunctionSlice);
      if outcome == Ok {
        ids := ReserveFunctions(functions);
        outcome, predicted := ActivateStage(s, peers[s].stage.value, functions, ids);
        ActivationByParts(before, s, functions, ids, limits, enc, outcome, View());
      }
    }

    method SyncFunctions(s: Session, functions: set<string>)
      returns (ids: map<string, int>, outcome: Outcome, ghost predicted: Catalog)
      requires Valid() && s in peers
      modifies this
      ensures Valid()
      ensures SliceRefusal(old(View()), s, FunctionSlice) == Ok ==> Reserves(old(this.functions), old(nextFunction), functions, ids)
      ensures (View(), outcome) == HomeModel.SyncFunctions(old(View()), s, functions, ids, limits, enc)
      ensures outcome == Ok ==> predicted == CatalogView()
    {
      ghost var before := View();
      ValidFacts();
      StageActivates(before, s, functions, Environment());
      ids, outcome, predicted := LastSlice(s, functions);
      if SliceRefusal(before, s, FunctionSlice) == Ok {
        StepKeeps(before, s, LSyncFunctions(functions, ids), Environment());
      } else {
        RefusedSliceKeeps(before, s, FunctionSlice, Environment());
      }
    }

    // ---------- state ----------

    /** Resolve every mutated path; refuse unless the slot owns all of them. */
    method MutationPaths(name: string, ms: seq<Mutation>) returns (owned: bool, names: seq<string>)
      requires name in coordinators && coordinators[name].active.Some?
      ensures owned == OwnsPaths(CatalogView(), name, ms)
      ensures owned ==> names == PathsOf(paths.byID, ms)
    {
      names := [];
      for index := 0 to |ms|
        invariant names == PathsOf(paths.byID, ms[..index])
        invariant OwnsPaths(CatalogView(), name, ms[..index])
      {
        var path := NameOf(paths.byID, ms[index].pathID);
        assert ms[..index + 1] == ms[..index] + [ms[index]];
        if path == "" || path !in stateOwners || stateOwners[path] != name || path !in coordinators[name].active.value.ownedState {
          return false, names;
        }
        names := names + [path];
      }
      assert ms[..|ms|] == ms;
      return true, names;
    }

    method VisibleTo(user: string, names: seq<string>, ms: seq<Mutation>) returns (visible: seq<Mutation>)
      requires names == PathsOf(paths.byID, ms)
      ensures visible == VisibleMutations(CatalogView(), user, ms)
    {
      visible := [];
      for index := 0 to |ms|
        invariant visible == VisibleMutations(CatalogView(), user, ms[..index])
      {
        assert ms[..index + 1][..index] == ms[..index];
        var sees := UserCanSeeState(user, names[index]);
        if sees {
          visible := visible + [ms[index]];
        }
      }
      assert ms[..|ms|] == ms;
    }

    /** A patch from the user's last revision; when it does not encode, the projected snapshot. */
    method PatchFrame(p: Peer, visible: seq<Mutation>, projection: HomeState, ghost ms: seq<Mutation>) returns (f: Frame)
      requires visible == VisibleMutations(CatalogView(), p.user, ms)
      requires projection.CatalogView() == Preview(CatalogView(), ms) && projection.DistinctIDs()
      ensures f == PatchFor(CatalogView(), p, ms, enc)
    {
      var base := if p.lastStateRevision == 0 then revision else p.lastStateRevision;
      f := StatePatch(base, projection.revision, visible);
      if !enc(f) {
        f := projection.StateSnapshotFrame(p.user);
      }
    }

    method PatchActions(names: seq<string>, ms: seq<Mutation>, projection: HomeState) returns (actions: seq<SendAction>)
      requires users <= peers.Keys && names == PathsOf(paths.byID, ms)
      requires projection.CatalogView() == Preview(CatalogView(), ms) && projection.DistinctIDs()
      ensures Patching(actions, CatalogView(), peers, users, ms, enc)
    {
      actions := [];
      var todo := users;
      ghost var c := CatalogView();
      while todo != {}
        invariant todo <= users
        invariant Patching(actions, c, peers, users - todo, ms, enc)
        decreases todo
      {
        Inhabited(todo);
        var s :| s in todo;
        assert users - (todo - {s}) == users - todo + {s};
        PatchOneMore(actions, c, peers, users - todo, s, ms, enc);
        todo := todo - {s};
        if Available(peers[s]) {
          var visible := VisibleTo(peers[s].user, names, ms);
          if visible != [] {
            var f := PatchFrame(peers[s], visible, projection, ms);
            actions := actions + [SendAction(s, f)];
          }
        }
      }
      assert users - {} == users;
    }

    /** The commit of a mutation: one loop over the batch writes the shared state and the slot's own state. */
    method WriteMutations(name: string, names: seq<string>, ms: seq<Mutation>)
      requires name in coordinators && coordinators[name].active.Some? && names == PathsOf(paths.byID, ms)
      modifies `state, `coordinators
      ensures state == WriteAll(old(state), paths.byID, ms)
      ensures var config := old(coordinators)[name].active.value;
              coordinators == old(coordinators)[name :=
                old(coordinators)[name].(active := Some(config.(state := WriteAll(config.state, paths.byID, ms))))]
    {
      var config := coordinators[name].active.value;
      for index := 0 to |ms|
        invariant state == WriteAll(old(state), paths.byID, ms[..index])
        invariant coordinators == old(coordinators)[name :=
          old(coordinators)[name].(active := Some(config.(state := WriteAll(config.state, paths.byID, ms[..index]))))]
      {
        WriteOneMore(old(state), paths.byID, ms, index);
        WriteOneMore(config.state, paths.byID, ms, index);
        var path := names[index];
        var own := coordinators[name].active.value.state;
        if ms[index].remove {
          state := state - {path};
          own := own - {path};
        } else {
          state := state[path := ms[index].value];
          own := own[path := ms[index].value];
        }
        Overwritten(old(coordinators), name, config, coordinators[name].active.value.state, own);
        coordinators := coordinators[name := coordinators[name].(active := Some(config.(state := own)))];
      }
      assert ms[..|ms|] == ms;
    }

    static lemma Overwritten(slots: map<string, CoordinatorSlot>, name: string, config: Config, own: map<string, Value>, own': map<string, Value>)
      requires name in slots
      ensures var s := slots[name := slots[name].(active := Some(config.(state := own)))];
              s[name := s[name].(active := Some(config.(state := own')))] == slots[name := slots[name].(active := Some(config.(state := own')))]
    {
    }

    static lemma WriteOneMore(state: map<string, Value>, byID: map<int, string>, ms: seq<Mutation>, index: nat)
      requires index < |ms|
      ensures WriteAll(state, byID, ms[..index + 1])
              == Write(WriteAll(state, byID, ms[..index]), NameOf(byID, ms[index].pathID), ms[index])
    {
      assert ms[..index + 1][..index] == ms[..index];
    }

    /** The shared state and the slot's own state have changed alike, and the revision moves on. */
    method CommitMutations(name: string, names: seq<string>, ms: seq<Mutation>)
      requires name in coordinators && coordinators[name].active.Some? && names == PathsOf(paths.byID, ms)
      modifies `state, `coordinators, `revision
      ensures CatalogView() == Mutate(old(CatalogView()), name, ms)
      ensures SlotsOf(coordinators) == SlotsOf(old(coordinators))
    {
      ghost var before := coordinators;
      WriteMutations(name, names, ms);
      ReplacedConfig(before, name, coordinators[name], coordinators[name].active.value);
      revision := revision + 1;
    }

    /** Every recipient of an action counts as brought to the current revision. */
    method MarkRecipients(actions: seq<SendAction>)
      requires forall i :: 0 <= i < |actions| ==> actions[i].to in peers
      modifies `peers
      ensures peers.Keys == old(peers).Keys
      ensures forall s :: s in old(peers) ==> peers[s] == Brought(old(peers)[s], FramesFor(actions, s), revision)
    {
      var marked := peers;
      for index := 0 to |actions|
        invariant peers == old(peers)
        invariant marked.Keys == peers.Keys
        invariant forall s :: s in peers ==> marked[s] == Brought(peers[s], FramesFor(actions[..index], s), revision)
      {
        var to := actions[index].to;
        assert actions[..index + 1] == actions[..index] + [SendAction(to, actions[index].frame)];
        SendOne(actions[..index], to, actions[index].frame);
        marked := marked[to := marked[to].(lastStateRevision := revision)];
      }
      assert actions[..|actions|] == actions;
      peers := marked;
    }

    method RefuseMutation(s: Session, epoch: int) returns (refusal: Outcome)
      requires s in peers
      ensures refusal == Ok <==> peers[s].role == Coordinator && epoch == this.epoch && IsCurrentPeer(s)
                                 && coordinators[peers[s].name].ready && coordinators[peers[s].name].active.Some?
      ensures refusal != Ok && users <= peers.Keys ==> forall ms :: MutationRefusal(View(), s, epoch, ms, enc) == refusal
    {
      if peers[s].role != Coordinator {
        return Refused(WRONG_DIRECTION, false);
      }
      if epoch != this.epoch {
        return Refused(STALE_EPOCH, true);
      }
      if !IsCurrentPeer(s) {
        return Refused(GENERATION_REPLACED, true);
      }
      if !coordinators[peers[s].name].ready || coordinators[peers[s].name].active.None? {
        return Refused(UNAVAILABLE, true);
      }
      return Ok;
    }

    method ApplyStateSet(s: Session, epoch: int, ms: seq<Mutation>) returns (outcome: Outcome)
      requires s in peers && users <= peers.Keys && (s !in users || !IsCurrentPeer(s))
      requires forall name :: name in coordinators && coordinators[name].active.Some? && OwnsPaths(CatalogView(), name, ms) ==>
        DistinctIn(Preview(CatalogView(), ms))
      modifies this
      ensures (View(), outcome) == HomeModel.SetState(old(View()), s, epoch, ms, enc)
    {
      outcome := RefuseMutation(s, epoch);
      if outcome != Ok {
        return;
      }
      var name := peers[s].name;
      var owned, names := MutationPaths(name, ms);
      if !owned {
        return Refused(NOT_DECLARED, false);
      }
      var fits, actions := ProposeMutations(names, ms);
      if !fits {
        return Refused(LIMIT_EXCEEDED, false);
      }
      outcome := SentOutcome(peers[s]);
      ghost var before := peers;
      peers := peers[s := Enqueue(peers[s], StateSetOK(revision + 1))];
      if outcome == Ok {
        CommitAndSend(s, name, names, ms, actions, before);
      }
    }

    /** Check the state the mutations would leave on a copy, and prepare the patches to it. */
    method ProposeMutations(names: seq<string>, ms: seq<Mutation>) returns (fits: bool, actions: seq<SendAction>)
      requires users <= peers.Keys && names == PathsOf(paths.byID, ms) && DistinctIn(Preview(CatalogView(), ms))
      ensures fits == RequiredFramesEncode(Preview(CatalogView(), ms), ConnectedNames(peers, users), enc)
      ensures fits ==> Patching(actions, CatalogView(), peers, users, ms, enc)
    {
      actions := [];
      var next := state;
      for index := 0 to |ms|
        invariant next == WriteAll(state, paths.byID, ms[..index])
      {
        assert ms[..index + 1][..index] == ms[..index];
        if ms[index].remove {
          next := next - {names[index]};
        } else {
          next := next[names[index] := ms[index].value];
        }
      }
      assert ms[..|ms|] == ms;
      var projection := ProjectionForState(next);
      fits := projection.ValidateRequiredFrames();
      if fits {
        actions := PatchActions(names, ms, projection);
      }
    }

    method CommitAndSend(s: Session, name: string, names: seq<string>, ms: seq<Mutation>, actions: seq<SendAction>, ghost before: map<Session, Peer>)
      requires users <= before.Keys && s in before && s !in users
      requires peers == before[s := Enqueue(before[s], StateSetOK(revision + 1))]
      requires Patching(actions, CatalogView(), before, users, ms, enc)
      requires name in coordinators && coordinators[name].active.Some? && names == PathsOf(paths.byID, ms)
      modifies `state, `coordinators, `revision, `peers
      ensures CatalogView() == Mutate(old(CatalogView()), name, ms)
      ensures SlotsOf(coordinators) == SlotsOf(old(coordinators))
      ensures peers == map t | t in before ::
        if t == s then Enqueue(before[s], StateSetOK(old(revision) + 1))
        else if t in users then Patched(old(CatalogView()), before[t], ms, enc) else before[t]
    {
      ghost var c := CatalogView();
      CommitMutations(name, names, ms);
      SendPatches(s, ms, actions, c, before);
    }

    method SendPatches(s: Session, ghost ms: seq<Mutation>, actions: seq<SendAction>, ghost c: Catalog, ghost before: map<Session, Peer>)
      requires users <= before.Keys && s in before && s !in users && revision == c.revision + 1
      requires peers == before[s := Enqueue(before[s], StateSetOK(revision))]
      requires Patching(actions, c, before, users, ms, enc)
      modifies `peers
      ensures peers == map t | t in before ::
        if t == s then Enqueue(before[s], StateSetOK(revision)) else if t in users then Patched(c, before[t], ms, enc) else before[t]
    {
      MarkRecipients(actions);
      ghost var marked := peers;
      peers := Dispatch(peers, actions);
      MutatedByParts(c, before, users, s, ms, enc, actions, marked, peers);
    }

    method SetState(s: Session, epoch: int, ms: seq<Mutation>) returns (outcome: Outcome)
      requires Valid() && s in peers
      modifies this
      ensures Valid()
      ensures (View(), outcome) == HomeModel.SetState(old(View()), s, epoch, ms, enc)
    {
      ghost var before := View();
      ValidFacts();
      MutationReads(before, s, ms, Environment());
      outcome := ApplyStateSet(s, epoch, ms);
      StepKeeps(before, s, LSetState(epoch, ms), Environment());
    }

    method Resend(s: Session) returns (outcome: Outcome)
      requires s in peers && DistinctIDs()
      modifies `peers
      ensures (View(), outcome) == HomeModel.Resync(old(View()), s)
    {
      if peers[s].role != User {
        return Refused(FORBIDDEN, false);
      }
      var dictionary := StateDictionaryFrame(peers[s].user);
      var snapshot := StateSnapshotFrame(peers[s].user);
      var sent := SendUntilRefused(peers[s].(lastStateRevision := revision), [dictionary, snapshot]);
      peers := peers[s := sent];
      outcome := if sent.open then Ok else Refused(SLOW_CONSUMER, true);
    }

    method Resync(s: Session) returns (outcome: Outcome)
      requires Valid() && s in peers
      modifies this
      ensures Valid()
      ensures (View(), outcome) == HomeModel.Resync(old(View()), s)
    {
      ghost var before := View();
      ValidFacts();
      outcome := Resend(s);
      StepKeeps(before, s, LResync, Environment());
    }

    // ---------- subscriptions ----------

    method UserEnrolled(user: string) returns (enrolled: bool)
      ensures enrolled == Enrolled(ActiveConfigs(coordinators), user)
    {
      var todo := coordinators.Keys;
      ListedIsEnrolled(coordinators);
      while todo != {}
        invariant todo <= coordinators.Keys
        invariant forall name :: name in coordinators && name !in todo ==> !ListedBy(coordinators[name], user)
        decreases todo
      {
        var name :| name in todo;
        todo := todo - {name};
        if ListedBy(coordinators[name], user) {
          return true;
        }
      }
      return false;
    }

    /** Check every topic of a request and count those not subscribed yet. */
    method CheckTopics(p: Peer, ids: seq<int>) returns (allowed: bool, fresh': nat)
      ensures allowed <==> !exists i :: 0 <= i < |ids| && !MayFollow(CatalogView(), p.user, ids[i])
      ensures allowed ==> fresh' == NewIDs(p.subscriptions, ids)
    {
      fresh' := 0;
      for index := 0 to |ids|
        invariant forall i :: 0 <= i < index ==> MayFollow(CatalogView(), p.user, ids[i])
        invariant fresh' == NewIDs(p.subscriptions, ids[..index])
      {
        assert ids[..index + 1][..index] == ids[..index];
        var topic := NameOf(topics.byID, ids[index]);
        var may := UserCanSubscribeTopic(p.user, topic);
        if topic == "" || !may {
          return false, fresh';
        }
        if ids[index] !in p.subscriptions {
          fresh' := fresh' + 1;
        }
      }
      assert ids[..|ids|] == ids;
      return true, fresh';
    }

    static method AddAll(known: set<int>, ids: seq<int>) returns (all: set<int>)
      ensures all == known + set id | id in ids
    {
      all := known;
      for index := 0 to |ids|
        invariant all == known + set id | id in ids[..index]
      {
        all := all + {ids[index]};
      }
    }

    static method RemoveAll(known: set<int>, ids: seq<int>) returns (left: set<int>)
      ensures left == known - set id | id in ids
    {
      left := known;
      for index := 0 to |ids|
        invariant left == known - set id | id in ids[..index]
      {
        left := left - {ids[index]};
      }
    }

    method Follow(s: Session, ids: seq<int>) returns (outcome: Outcome)
      requires s in peers
      modifies `peers
      ensures (View(), outcome) == HomeModel.Subscribe(old(View()), s, ids, limits)
    {
      if peers[s].role != User {
        return Refused(WRONG_DIRECTION, false);
      }
      var enrolled := UserEnrolled(peers[s].user);
      if !enrolled {
        return Refused(NOT_ENROLLED, false);
      }
      var allowed, added := CheckTopics(peers[s], ids);
      if !allowed {
        return Refused(FORBIDDEN, false);
      }
      if |peers[s].subscriptions| + added > limits.subscriptions {
        return Refused(LIMIT_EXCEEDED, false);
      }
      var subscriptions := AddAll(peers[s].subscriptions, ids);
      outcome := SentOutcome(peers[s]);
      peers := peers[s := Enqueue(peers[s].(subscriptions := subscriptions), Other)];
    }

    method Subscribe(s: Session, ids: seq<int>) returns (outcome: Outcome)
      requires Valid() && s in peers
      modifies this
      ensures Valid()
      ensures (View(), outcome) == HomeModel.Subscribe(old(View()), s, ids, limits)
    {
      ghost var before := View();
      outcome := Follow(s, ids);
      StepKeeps(before, s, LSubscribe(ids), Environment());
    }

    method Unfollow(s: Session, ids: seq<int>) returns (outcome: Outcome)
      requires s in peers
      modifies `peers
      ensures (View(), outcome) == HomeModel.Unsubscribe(old(View()), s, ids)
    {
      if peers[s].role != User {
        return Refused(WRONG_DIRECTION, false);
      }
      for index := 0 to |ids|
        invariant forall i :: 0 <= i < index ==> ids[i] in peers[s].subscriptions
      {
        if ids[index] !in peers[s].subscriptions {
          return Refused(NOT_DECLARED, false);
        }
      }
      var subscriptions := RemoveAll(peers[s].subscriptions, ids);
      outcome := SentOutcome(peers[s]);
      peers := peers[s := Enqueue(peers[s].(subscriptions := subscriptions), Other)];
    }

    method Unsubscribe(s: Session, ids: seq<int>) returns (outcome: Outcome)
      requires Valid() && s in peers
      modifies this
      ensures Valid()
      ensures (View(), outcome) == HomeModel.Unsubscribe(old(View()), s, ids)
    {
      ghost var before := View();
      outcome := Unfollow(s, ids);
      StepKeeps(before, s, LUnsubscribe(ids), Environment());
    }

    // ---------- events ----------

    method UserCanPublishTopic(user: string, topic: string) returns (may: bool)
      ensures may == CanPublish(ActiveConfigs(coordinators), user, topic)
    {
      var todo := coordinators.Keys;
      while todo != {}
        invariant todo <= coordinators.Keys
        invariant forall name :: name in coordinators && name !in todo && coordinators[name].active.Some? ==>
          !Publishes(coordinators[name].active.value, user, topic)
        decreases todo
      {
        var name :| name in todo;
        todo := todo - {name};
        if coordinators[name].active.Some? && user in coordinators[name].active.value.eventACL {
          var matches := MatchesAnyPattern(coordinators[name].active.value.eventACL[user].publish, topic);
          if matches {
            assert name in ActiveConfigs(coordinators) && Publishes(ActiveConfigs(coordinators)[name], user, topic);
            return true;
          }
        }
      }
      return false;
    }

    /** The available, ready connection of a slot. */
    method FindCoordinator(name: string) returns (found: Option<Session>)
      requires LinkedSlots()
      ensures found.Some? <==> Reachable(View(), name)
      ensures found.Some? ==> found == View().slots[name].connection
    {
      if name !in coordinators || !coordinators[name].ready || coordinators[name].connection.None? {
        return None;
      }
      if !Available(peers[coordinators[name].connection.value]) {
        return None;
      }
      return coordinators[name].connection;
    }

    method SubscribersOf(id: int) returns (listeners: set<Session>)
      requires users <= peers.Keys
      ensures listeners == set t | t in users && Listens(View(), t, id)
    {
      listeners := {};
      var todo := users;
      while todo != {}
        invariant todo <= users
        invariant listeners == set t | t in users - todo && Listens(View(), t, id)
        decreases todo
      {
        Inhabited(todo);
        var t :| t in todo;
        todo := todo - {t};
        if Available(peers[t]) && id in peers[t].subscriptions {
          var may := UserCanSubscribeTopic(peers[t].user, NameOf(topics.byID, id));
          if may {
            listeners := listeners + {t};
          }
        }
      }
    }

    method RouteUserEvent(s: Session, id: int, owner: string, flags: int, target: Target) returns (recipients: set<Session>, refusal: Outcome)
      requires s in peers && LinkedSlots() && TopicDeclared(CatalogView(), id)
      requires owner == topicOwners[NameOf(topics.byID, id)] && flags == FlagsOf(CatalogView(), id)
      ensures (recipients, refusal) == UserEvent(View(), s, id, target)
    {
      if !target.Default? {
        return {}, Refused(WRONG_DIRECTION, false);
      }
      var enrolled := UserEnrolled(peers[s].user);
      if !enrolled {
        return {}, Refused(NOT_ENROLLED, false);
      }
      var may := UserCanPublishTopic(peers[s].user, NameOf(topics.byID, id));
      if !HasFlag(flags, ACCEPT_USERS) || !may {
        return {}, Refused(FORBIDDEN, false);
      }
      var found := FindCoordinator(owner);
      if found.None? {
        return {}, Refused(NO_COORDINATOR, true);
      }
      return {found.value}, Ok;
    }

    method RouteCoordinatorEvent(s: Session, id: int, flags: int, target: Target) returns (recipients: set<Session>, refusal: Outcome)
      requires s in peers && users <= peers.Keys && LinkedSlots() && TopicDeclared(CatalogView(), id)
      requires flags == FlagsOf(CatalogView(), id)
      ensures (recipients, refusal) == CoordinatorEvent(View(), s, id, target)
    {
      match target {
        case Default =>
          if !HasFlag(flags, PUBLISH_USERS) {
            return {}, Refused(WRONG_DIRECTION, false);
          }
          recipients := SubscribersOf(id);
          return recipients, Ok;
        case ToUser(t) =>
          if !HasFlag(flags, PUBLISH_USERS) {
            return {}, Refused(WRONG_DIRECTION, false);
          }
          if t !in users || !Available(peers[t]) {
            return {}, Refused(UNAVAILABLE, true);
          }
          var may := UserCanSubscribeTopic(peers[t].user, NameOf(topics.byID, id));
          if id !in peers[t].subscriptions || !may {
            return {}, Refused(FORBIDDEN, false);
          }
          return {t}, Ok;
        case ToCoordinator(name) =>
          if !HasFlag(flags, PUBLISH_COORDINATORS) || !HasFlag(flags, ACCEPT_COORDINATORS) {
            return {}, Refused(WRONG_DIRECTION, false);
          }
          var found := FindCoordinator(name);
          if found.None? || found.value == s {
            return {}, Refused(NO_COORDINATOR, true);
          }
          return {found.value}, Ok;
        case Malformed =>
          return {}, Refused(INVALID_VALUE, false);
      }
    }

    method RouteEvent(s: Session, id: int, target: Target, routable: bool) returns (recipients: set<Session>, refusal: Outcome)
      requires s in peers && users <= peers.Keys && LinkedSlots()
      ensures (recipients, refusal) == Route(View(), s, id, target, routable)
    {
      var p := peers[s];
      if p.role == Coordinator && !IsCurrentPeer(s) {
        return {}, Refused(GENERATION_REPLACED, true);
      }
      if p.role == Coordinator && (!coordinators[p.name].ready || coordinators[p.name].active.None?) {
        return {}, Refused(UNAVAILABLE, true);
      }
      var topic := NameOf(topics.byID, id);
      if topic == "" || topic !in topicOwners {
        return {}, Refused(NOT_DECLARED, false);
      }
      var owner := topicOwners[topic];
      if owner !in coordinators || coordinators[owner].active.None? {
        return {}, Refused(NO_COORDINATOR, true);
      }
      if !routable {
        return {}, Refused(LIMIT_EXCEEDED, false);
      }
      var events := coordinators[owner].active.value.events;
      var flags := if topic in events then events[topic] else 0;
      match p.role {
        case User => recipients, refusal := RouteUserEvent(s, id, owner, flags, target);
        case Coordinator =>
          if owner != p.name {
            return {}, Refused(FORBIDDEN, false);
          }
          recipients, refusal := RouteCoordinatorEvent(s, id, flags, target);
        case Cli => return {}, Refused(WRONG_DIRECTION, false);
      }
    }

    /** Hand the event to every recipient. */
    method Deliver(recipients: set<Session>) returns (delivered: bool)
      requires recipients <= peers.Keys
      modifies `peers
      ensures View() == Delivered(old(View()), recipients)
      ensures delivered == Taken(old(View()), recipients)
    {
      delivered := false;
      var todo := recipients;
      ghost var before := View();
      while todo != {}
        invariant todo <= recipients <= before.peers.Keys
        invariant View() == Delivered(before, recipients - todo)
        invariant delivered == Taken(before, recipients - todo)
        decreases todo
      {
        Inhabited(todo);
        var t :| t in todo;
        assert recipients - (todo - {t}) == recipients - todo + {t};
        DeliverOneMore(before, recipients - todo, t);
        todo := todo - {t};
        delivered := delivered || Accepts(peers[t]);
        peers := peers[t := Enqueue(peers[t], Other)];
      }
      assert recipients - {} == recipients;
    }

    method PublishEvent(s: Session, id: int, target: Target, routable: bool) returns (outcome: Outcome)
      requires Valid() && s in peers
      modifies this
      ensures Valid()
      ensures (View(), outcome) == Publish(old(View()), s, id, target, routable)
    {
      ghost var before := View();
      ValidFacts();
      RecipientsAreKnown(before, s, id, target, routable);
      outcome := SendEvent(s, id, target, routable);
      PublishKeeps(before, s, id, target, routable, Environment());
    }

    method SendEvent(s: Session, id: int, target: Target, routable: bool) returns (outcome: Outcome)
      requires s in peers && users <= peers.Keys && LinkedSlots()
      requires Route(View(), s, id, target, routable).0 <= peers.Keys
      modifies `peers
      ensures (View(), outcome) == Publish(old(View()), s, id, target, routable)
    {
      var recipients, refusal := RouteEvent(s, id, target, routable);
      if refusal != Ok {
        return refusal;
      }
      var delivered := Deliver(recipients);
      return if delivered then Ok else Refused(UNAVAILABLE, true);
    }
  }
}
