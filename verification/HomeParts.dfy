/** The parts of the home engine that are values: coordinator slots, batches of frames, and what each loop adds up to. */
module HomeParts {
  import opened Basics
  import opened Catalogs
  import opened CatalogProofs
  import opened Views
  import opened HomeModel
  import opened Replicas
  import opened Invariants
  import opened QuietSteps
  import opened HomeLoops
  import opened ActivationSteps
  import opened HomeTheorems

  datatype CoordinatorSlot = CoordinatorSlot(
    generation: int, connection: Option<Session>, ready: bool, active: Option<Config>, grace: Option<int>)

  ghost function ActiveConfigs(coordinators: map<string, CoordinatorSlot>): map<string, Config> {
    map name | name in coordinators && coordinators[name].active.Some? :: coordinators[name].active.value
  }

  ghost function SlotsOf(coordinators: map<string, CoordinatorSlot>): map<string, Slot> {
    map name | name in coordinators ::
      Slot(coordinators[name].generation, coordinators[name].connection, coordinators[name].ready, coordinators[name].grace)
  }

  predicate Reconfigured(previous: Config, next: Config) {
    previous.stateACL != next.stateACL || previous.events != next.events
    || previous.eventACL != next.eventACL || previous.functions != next.functions
  }

  /** Paths with values do not share IDs. */
  ghost predicate DistinctIn(c: Catalog) {
    forall a, b :: a in c.state && b in c.state && IdOf(c.paths.byName, a) == IdOf(c.paths.byName, b) ==> a == b
  }

  lemma RefusedSliceKeeps(h: Home, s: Session, slice: Slice, env: Env)
    requires Inv(h, env) && s in h.peers
    ensures Inv(RefuseSlice(h, s, slice).0, env)
  {
    DropStageKeeps(h, s, env);
  }

  predicate ListedBy(slot: CoordinatorSlot, user: string) {
    slot.active.Some? && Listed(slot.active.value, user)
  }

  lemma ListedIsEnrolled(coordinators: map<string, CoordinatorSlot>)
    ensures forall user :: Enrolled(ActiveConfigs(coordinators), user) <==>
      exists name :: name in coordinators && ListedBy(coordinators[name], user)
  {
    forall user, name | name in coordinators && ListedBy(coordinators[name], user) ensures Enrolled(ActiveConfigs(coordinators), user) {
      assert name in ActiveConfigs(coordinators);
    }
    forall user | Enrolled(ActiveConfigs(coordinators), user)
      ensures exists name :: name in coordinators && ListedBy(coordinators[name], user)
    {
      var name :| name in ActiveConfigs(coordinators) && Listed(ActiveConfigs(coordinators)[name], user);
      assert ListedBy(coordinators[name], user);
    }
  }

  lemma {:induction false} ClosedStays(p: Peer, fs: seq<Frame>)
    requires !p.open && !p.live
    ensures EnqueueAll(p, fs) == p
    decreases |fs|
  {
    if fs != [] {
      assert Enqueue(p, fs[0]) == p;
      ClosedStays(p, fs[1..]);
    }
  }

  /** The peers once the available users among `users` count as brought to `revision`. */
  function Marked(peers: map<Session, Peer>, users: set<Session>, revision: int): map<Session, Peer> {
    map s | s in peers :: if s in users && Available(peers[s]) then peers[s].(lastStateRevision := revision) else peers[s]
  }

  lemma SendOne(actions: seq<SendAction>, to: Session, f: Frame)
    ensures forall s :: FramesFor(actions + [SendAction(to, f)], s) == FramesFor(actions, s) + if s == to then [f] else []
  {
    var more := actions + [SendAction(to, f)];
    assert more[..|more| - 1] == actions;
  }

  lemma SendFour(actions: seq<SendAction>, to: Session, fs: seq<Frame>)
    requires |fs| == 4
    ensures forall s ::
      FramesFor(actions + [SendAction(to, fs[0]), SendAction(to, fs[1]), SendAction(to, fs[2]), SendAction(to, fs[3])], s)
      == FramesFor(actions, s) + if s == to then fs else []
  {
    var a0 := actions + [SendAction(to, fs[0])];
    var a1 := a0 + [SendAction(to, fs[1])];
    var a2 := a1 + [SendAction(to, fs[2])];
    SendOne(actions, to, fs[0]);
    SendOne(a0, to, fs[1]);
    SendOne(a1, to, fs[2]);
    SendOne(a2, to, fs[3]);
    assert actions + [SendAction(to, fs[0]), SendAction(to, fs[1]), SendAction(to, fs[2]), SendAction(to, fs[3])] == a2 + [SendAction(to, fs[3])];
    assert fs == [fs[0], fs[1], fs[2], fs[3]];
  }

  /** The actions hold exactly the complete view of every available user in `done`. */
  ghost predicate Addressed(actions: seq<SendAction>, c: Catalog, peers: map<Session, Peer>, done: set<Session>)
    requires done <= peers.Keys
  {
    && (forall i :: 0 <= i < |actions| ==> actions[i].to in peers)
    && (forall s :: FramesFor(actions, s) == (if s in done && Available(peers[s]) then RecoveryFrames(c, peers[s].user) else []))
  }

  lemma AddressOne(actions: seq<SendAction>, c: Catalog, peers: map<Session, Peer>, done: set<Session>, s: Session, fs: seq<Frame>)
    requires done <= peers.Keys && s in peers && s !in done
    requires Addressed(actions, c, peers, done)
    requires Available(peers[s]) && fs == RecoveryFrames(c, peers[s].user)
    ensures Addressed(actions + [SendAction(s, fs[0]), SendAction(s, fs[1]), SendAction(s, fs[2]), SendAction(s, fs[3])], c, peers, done + {s})
  {
    SendFour(actions, s, fs);
  }

  lemma PassOver(actions: seq<SendAction>, c: Catalog, peers: map<Session, Peer>, done: set<Session>, s: Session)
    requires done <= peers.Keys && s in peers
    requires Addressed(actions, c, peers, done)
    ensures !Available(peers[s]) ==> Addressed(actions, c, peers, done + {s})
  {
  }

  lemma MarkOne(peers: map<Session, Peer>, done: set<Session>, s: Session, revision: int)
    requires s in peers && s !in done
    ensures Marked(peers, done + {s}, revision) ==
            if Available(peers[s]) then Marked(peers, done, revision)[s := peers[s].(lastStateRevision := revision)] else Marked(peers, done, revision)
    ensures Marked(peers, done, revision)[s] == peers[s]
  {
  }

  lemma RefreshedByParts(before: map<Session, Peer>, users: set<Session>, c: Catalog, pruned: map<Session, Peer>,
                         actions: seq<SendAction>, after: map<Session, Peer>)
    requires pruned == map s | s in before ::
      if s in users then Pruned(c, Marked(before, users, c.revision)[s]) else Marked(before, users, c.revision)[s]
    requires after.Keys == pruned.Keys
    requires forall s :: s in pruned ==> after[s] == EnqueueAll(pruned[s], FramesFor(actions, s))
    requires users <= before.Keys && Addressed(actions, c, before, users)
    ensures after == map s | s in before :: if s in users then Refreshed(c, Pruned(c, before[s])) else before[s]
  {
    forall s | s in before ensures after[s] == if s in users then Refreshed(c, Pruned(c, before[s])) else before[s] {
      if s in users && Available(before[s]) {
        assert pruned[s] == Pruned(c, before[s]).(lastStateRevision := c.revision);
      } else {
        assert EnqueueAll(pruned[s], []) == pruned[s];
      }
    }
  }

  /** The actions hold `f` once for the available connection of every slot in `done`. */
  ghost predicate Announced(actions: seq<SendAction>, f: Frame, coordinators: map<string, CoordinatorSlot>,
                            peers: map<Session, Peer>, done: set<string>)
    requires done <= coordinators.Keys
  {
    && (forall i :: 0 <= i < |actions| ==> actions[i].to in peers)
    && (forall s :: s in peers ==> FramesFor(actions, s) == (if Connects(coordinators, done, s) && Available(peers[s]) then [f] else []))
  }

  predicate Connects(coordinators: map<string, CoordinatorSlot>, done: set<string>, s: Session)
    requires done <= coordinators.Keys
  {
    exists name :: name in done && coordinators[name].connection == Some(s)
  }

  lemma AnnounceOne(actions: seq<SendAction>, f: Frame, coordinators: map<string, CoordinatorSlot>,
                    peers: map<Session, Peer>, done: set<string>, name: string)
    requires done <= coordinators.Keys && name in coordinators && name !in done
    requires forall n :: n in coordinators && coordinators[n].connection.Some? ==>
      coordinators[n].connection.value in peers && peers[coordinators[n].connection.value].name == n
    requires Announced(actions, f, coordinators, peers, done)
    ensures var slot := coordinators[name];
            if slot.connection.Some? && Available(peers[slot.connection.value])
            then Announced(actions + [SendAction(slot.connection.value, f)], f, coordinators, peers, done + {name})
            else Announced(actions, f, coordinators, peers, done + {name})
  {
    var slot := coordinators[name];
    if slot.connection.Some? {
      SendOne(actions, slot.connection.value, f);
    }
    forall s | s in peers ensures Connects(coordinators, done + {name}, s) <==> Connects(coordinators, done, s) || slot.connection == Some(s) {
      if slot.connection == Some(s) {
        assert name in done + {name};
      }
    }
  }

  lemma AnnouncedByParts(actions: seq<SendAction>, f: Frame, coordinators: map<string, CoordinatorSlot>,
                         before: map<Session, Peer>, after: map<Session, Peer>)
    requires Announced(actions, f, coordinators, before, coordinators.Keys)
    requires after.Keys == before.Keys
    requires forall s :: s in before ==> after[s] == EnqueueAll(before[s], FramesFor(actions, s))
    ensures after == map s | s in before :: if IsCurrent(SlotsOf(coordinators), s) && Available(before[s]) then Enqueue(before[s], f) else before[s]
  {
    forall s | s in before
      ensures after[s] == if IsCurrent(SlotsOf(coordinators), s) && Available(before[s]) then Enqueue(before[s], f) else before[s]
    {
      assert EnqueueAll(before[s], []) == before[s];
      assert EnqueueAll(before[s], [f]) == Enqueue(before[s], f) by {
        assert EnqueueAll(Enqueue(before[s], f), []) == Enqueue(before[s], f);
      }
      ConnectsIsCurrent(coordinators, s);
    }
  }

  lemma ConnectsIsCurrent(coordinators: map<string, CoordinatorSlot>, s: Session)
    ensures Connects(coordinators, coordinators.Keys, s) <==> IsCurrent(SlotsOf(coordinators), s)
  {
    if Connects(coordinators, coordinators.Keys, s) {
      var name :| name in coordinators && coordinators[name].connection == Some(s);
      assert name in SlotsOf(coordinators) && SlotsOf(coordinators)[name].connection == Some(s);
    }
    if IsCurrent(SlotsOf(coordinators), s) {
      var name :| name in SlotsOf(coordinators) && SlotsOf(coordinators)[name].connection == Some(s);
      assert coordinators[name].connection == Some(s);
    }
  }

  lemma IDsDiffer(c: Catalog, next: int)
    requires CatalogInv(c) && NamesInv(c.paths, next)
    ensures forall a, b :: a in c.state && b in c.state && IdOf(c.paths.byName, a) == IdOf(c.paths.byName, b) ==> a == b
  {
    forall a, b | a in c.state && b in c.state && IdOf(c.paths.byName, a) == IdOf(c.paths.byName, b) ensures a == b {
      BoundNamesDiffer(c.paths, next, a, b);
    }
  }

  lemma SlotsLink(h: Home, coordinators: map<string, CoordinatorSlot>)
    requires SlotsOK(h) && h.slots == SlotsOf(coordinators)
    ensures forall name :: name in coordinators && coordinators[name].connection.Some? ==>
      coordinators[name].connection.value in h.peers && h.peers[coordinators[name].connection.value].name == name
  {
    forall name | name in coordinators && coordinators[name].connection.Some?
      ensures coordinators[name].connection.value in h.peers && h.peers[coordinators[name].connection.value].name == name
    {
      assert name in h.slots && Linked(name, h.slots[name], h.peers, h.connections);
    }
  }

  lemma SlotNames(coordinators: map<string, CoordinatorSlot>)
    ensures SlotsOf(coordinators).Keys == coordinators.Keys && |SlotsOf(coordinators)| == |coordinators|
  {
    assert SlotsOf(coordinators).Keys == coordinators.Keys;
    assert |SlotsOf(coordinators)| == |SlotsOf(coordinators).Keys|;
    assert |coordinators| == |coordinators.Keys|;
  }

  lemma RemoveIs(c: Catalog, coordinators: map<string, CoordinatorSlot>, name: string, r: Catalog)
    requires name in coordinators && coordinators[name].active.Some? && c.configs == ActiveConfigs(coordinators)
    requires r.configs == ActiveConfigs(coordinators[name := coordinators[name].(active := None)])
    requires r.revision == c.revision + 1
    requires r.paths == c.paths && r.topics == c.topics && r.functions == c.functions
    requires r.stateOwners == c.stateOwners - coordinators[name].active.value.ownedState
    requires r.state == c.state - coordinators[name].active.value.ownedState
    requires r.topicOwners == c.topicOwners - coordinators[name].active.value.events.Keys
    requires r.functionOwners == c.functionOwners - coordinators[name].active.value.functions
    ensures r == Remove(c, name)
  {
    assert r.configs == c.configs - {name};
  }

  lemma AddressIgnoresPruning(actions: seq<SendAction>, c: Catalog, before: map<Session, Peer>, pruned: map<Session, Peer>, users: set<Session>)
    requires users <= before.Keys && pruned.Keys == before.Keys
    requires forall s :: s in before ==> pruned[s].user == before[s].user && (Available(pruned[s]) <==> Available(before[s]))
    requires Addressed(actions, c, pruned, users)
    ensures Addressed(actions, c, before, users)
  {
  }

  lemma ExpiredByParts(before: map<Session, Peer>, users: set<Session>, c: Catalog, marked: map<Session, Peer>,
                       actions: seq<SendAction>, after: map<Session, Peer>)
    requires marked == Marked(map s | s in before :: if s in users then Pruned(c, before[s]) else before[s], users, c.revision)
    requires after.Keys == marked.Keys
    requires forall s :: s in marked ==> after[s] == EnqueueAll(marked[s], FramesFor(actions, s))
    requires users <= before.Keys && Addressed(actions, c, before, users)
    ensures after == map s | s in before :: if s in users then Refreshed(c, Pruned(c, before[s])) else before[s]
  {
    var pruned := map s | s in before :: if s in users then Pruned(c, Marked(before, users, c.revision)[s]) else Marked(before, users, c.revision)[s];
    forall s | s in before ensures marked[s] == pruned[s] {
      assert Available(Pruned(c, before[s])) <==> Available(before[s]);
    }
    RefreshedByParts(before, users, c, pruned, actions, after);
  }

  function PathsOf(byID: map<int, string>, ms: seq<Mutation>): seq<string> {
    seq(|ms|, i requires 0 <= i < |ms| => NameOf(byID, ms[i].pathID))
  }

  /** What the guards of the last slice leave to the activation, whichever IDs are reserved. */
  ghost predicate Activatable(h: Home, s: Session, functions: set<string>)
    requires s in h.peers
  {
    SliceRefusal(h, s, FunctionSlice) == Ok ==>
      forall ids :: Reserves(h.catalog.functions, h.nextFunction, functions, ids) ==>
        ActivatableAs(h, h.peers[s].name, DeclarationOf(h.peers[s].stage.value, functions, ids))
  }

  ghost predicate ActivatableAs(h: Home, name: string, d: Declaration) {
    Injective(d.pathIDs) && Injective(d.topicIDs) && Injective(d.functionIDs) && DistinctIn(Activate(h.catalog, name, d))
  }

  lemma StageActivates(h: Home, s: Session, functions: set<string>, env: Env)
    requires Inv(h, env) && s in h.peers
    ensures Activatable(h, s, functions)
  {
    if SliceRefusal(h, s, FunctionSlice) == Ok {
      forall ids | Reserves(h.catalog.functions, h.nextFunction, functions, ids)
        ensures ActivatableAs(h, h.peers[s].name, DeclarationOf(h.peers[s].stage.value, functions, ids))
      {
        StageIsCommittable(h, s, functions, ids, env);
        ActivatedDistinct(h.catalog, h.peers[s].name, DeclarationOf(h.peers[s].stage.value, functions, ids), h.nextPath);
      }
    }
  }

  lemma ActivatedDistinct(c: Catalog, name: string, d: Declaration, next: int)
    requires NamesInv(c.paths, next) && StagedInv(c.paths, next, d.pathIDs)
    requires CatalogInv(c) && d.config.state.Keys == d.pathIDs.Keys
    ensures DistinctIn(Activate(c, name, d))
  {
    BindKeeps(c.paths, next, d.pathIDs);
    var c' := Activate(c, name, d);
    forall a, b | a in c'.state && b in c'.state && IdOf(c'.paths.byName, a) == IdOf(c'.paths.byName, b) ensures a == b {
      BoundNamesDiffer(c'.paths, next, a, b);
    }
  }

  /** What a mutation reads is consistent: the sender is no user, and the preview has distinct IDs. */
  lemma MutationReads(h: Home, s: Session, ms: seq<Mutation>, env: Env)
    requires Inv(h, env) && s in h.peers
    ensures s !in h.users || !Current(h, s)
    ensures forall name :: name in h.catalog.configs && OwnsPaths(h.catalog, name, ms) ==> DistinctIn(Preview(h.catalog, ms))
  {
    if Current(h, s) {
      assert Linked(h.peers[s].name, h.slots[h.peers[s].name], h.peers, h.connections);
    }
    forall name | name in h.catalog.configs && OwnsPaths(h.catalog, name, ms) ensures DistinctIn(Preview(h.catalog, ms)) {
      WrittenPathsAreOwned(h.catalog.state, h.catalog.stateOwners, h.catalog.paths.byID, ms);
      var c := Preview(h.catalog, ms);
      forall a, b | a in c.state && b in c.state && IdOf(c.paths.byName, a) == IdOf(c.paths.byName, b) ensures a == b {
        BoundNamesDiffer(c.paths, h.nextPath, a, b);
      }
    }
  }

  lemma {:induction false} WrittenPathsAreOwned(state: map<string, Value>, owners: map<string, string>, byID: map<int, string>, ms: seq<Mutation>)
    requires state.Keys <= owners.Keys
    requires forall i :: 0 <= i < |ms| ==> NameOf(byID, ms[i].pathID) in owners
    ensures WriteAll(state, byID, ms).Keys <= owners.Keys
  {
    if ms != [] {
      WrittenPathsAreOwned(state, owners, byID, ms[..|ms| - 1]);
    }
  }

  /** The actions hold one patch for every available user in `done` who sees part of the mutation. */
  ghost predicate Patching(actions: seq<SendAction>, c: Catalog, peers: map<Session, Peer>, done: set<Session>,
                           ms: seq<Mutation>, enc: Frame -> bool)
    requires done <= peers.Keys
  {
    && (forall i :: 0 <= i < |actions| ==> actions[i].to in peers)
    && (forall s :: FramesFor(actions, s) ==
                    (if s in done && Available(peers[s]) && VisibleMutations(c, peers[s].user, ms) != [] then [PatchFor(c, peers[s], ms, enc)] else []))
  }

  lemma PatchOneMore(actions: seq<SendAction>, c: Catalog, peers: map<Session, Peer>, done: set<Session>, s: Session,
                     ms: seq<Mutation>, enc: Frame -> bool)
    requires done <= peers.Keys && s in peers && s !in done && Patching(actions, c, peers, done, ms, enc)
    ensures if Available(peers[s]) && VisibleMutations(c, peers[s].user, ms) != []
            then Patching(actions + [SendAction(s, PatchFor(c, peers[s], ms, enc))], c, peers, done + {s}, ms, enc)
            else Patching(actions, c, peers, done + {s}, ms, enc)
  {
    SendOne(actions, s, PatchFor(c, peers[s], ms, enc));
  }

  lemma MutatedByParts(c: Catalog, before: map<Session, Peer>, users: set<Session>, s: Session, ms: seq<Mutation>, enc: Frame -> bool,
                       actions: seq<SendAction>, marked: map<Session, Peer>, after: map<Session, Peer>)
    requires users <= before.Keys && s in before && s !in users && Patching(actions, c, before, users, ms, enc)
    requires after.Keys == marked.Keys == before.Keys
    requires forall t :: t in before ==>
      marked[t] == Brought(if t == s then Enqueue(before[s], StateSetOK(c.revision + 1)) else before[t], FramesFor(actions, t), c.revision + 1)
    requires forall t :: t in marked ==> after[t] == EnqueueAll(marked[t], FramesFor(actions, t))
    ensures after == map t | t in before ::
              if t == s then Enqueue(before[s], StateSetOK(c.revision + 1))
              else if t in users then Patched(c, before[t], ms, enc) else before[t]
  {
    forall t | t in before && t != s ensures after[t] == if t in users then Patched(c, before[t], ms, enc) else before[t] {
      PatchedPeer(c, before[t], t in users, ms, enc, FramesFor(actions, t), marked[t], after[t]);
    }
    SendNoneOrOne(marked[s], Other);
  }

  function Brought(p: Peer, fs: seq<Frame>, revision: int): Peer {
    if fs == [] then p else p.(lastStateRevision := revision)
  }

  lemma PatchedPeer(c: Catalog, p: Peer, user: bool, ms: seq<Mutation>, enc: Frame -> bool, fs: seq<Frame>, marked: Peer, after: Peer)
    requires fs == if user && Available(p) && VisibleMutations(c, p.user, ms) != [] then [PatchFor(c, p, ms, enc)] else []
    requires marked == Brought(p, fs, c.revision + 1)
    requires after == EnqueueAll(marked, fs)
    ensures after == if user then Patched(c, p, ms, enc) else p
  {
    SendNoneOrOne(marked, PatchFor(c, p, ms, enc));
  }

  lemma SendNoneOrOne(p: Peer, f: Frame)
    ensures EnqueueAll(p, []) == p && EnqueueAll(p, [f]) == Enqueue(p, f)
  {
    assert EnqueueAll(p, [f]) == EnqueueAll(Enqueue(p, f), []);
  }

  /** The last slice, once its IDs are reserved and the activation is judged. */
  ghost function Concluded(h: Home, s: Session, d: Declaration, refusal: Outcome): (Home, Outcome)
    requires s in h.peers && h.peers[s].name in h.slots
  {
    var p := h.peers[s];
    var p' := Enqueue(p, FunctionSyncOK(d.functionIDs)).(stage := None);
    if refusal != Ok then (SetPeer(h, s, p.(stage := None)), refusal)
    else if !Accepts(p) then (SetPeer(h, s, p'), SentOutcome(p))
    else (RefreshUsers(Committed(SetPeer(h, s, p'), p.name, d)), Ok)
  }

  ghost predicate Activated(h: Home, s: Session, d: Declaration, limits: Limits, enc: Frame -> bool, outcome: Outcome, h': Home)
    requires s in h.peers && h.users <= h.peers.Keys && h.peers[s].name in h.slots
  {
    (h', outcome) == Concluded(h, s, d, ActivationRefusal(h.catalog, h.peers[s].name, d, ConnectedNames(h.peers, h.users), limits, enc))
  }

  lemma ConcludedIsSync(h: Home, s: Session, functions: set<string>, ids: map<string, int>, limits: Limits, enc: Frame -> bool)
    requires s in h.peers && h.users <= h.peers.Keys && SliceRefusal(h, s, FunctionSlice) == Ok
    ensures var d := DeclarationOf(h.peers[s].stage.value, functions, ids);
            SyncFunctions(h, s, functions, ids, limits, enc)
            == Concluded(h.(nextFunction := NextAfter(h.catalog.functions, h.nextFunction, ids)), s, d,
                         ActivationRefusal(h.catalog, h.peers[s].name, d, ConnectedIDs(h), limits, enc))
  {
  }

  lemma ActivationByParts(h: Home, s: Session, functions: set<string>, ids: map<string, int>,
                          limits: Limits, enc: Frame -> bool, outcome: Outcome, h': Home)
    requires s in h.peers && h.users <= h.peers.Keys && SliceRefusal(h, s, FunctionSlice) == Ok
    requires Activated(h.(nextFunction := NextAfter(h.catalog.functions, h.nextFunction, ids)), s,
                       DeclarationOf(h.peers[s].stage.value, functions, ids), limits, enc, outcome, h')
    ensures (h', outcome) == SyncFunctions(h, s, functions, ids, limits, enc)
  {
    ConcludedIsSync(h, s, functions, ids, limits, enc);
  }

  /** What an activation is, read off the configuration the slot had before. */
  lemma ActivateIs(c: Catalog, coordinators: map<string, CoordinatorSlot>, name: string, d: Declaration,
                   slot: CoordinatorSlot, r: Catalog)
    requires name in coordinators && c.configs == ActiveConfigs(coordinators)
    requires slot.active == Some(d.config) && r.configs == ActiveConfigs(coordinators[name := slot])
    requires r.revision == c.revision + (match coordinators[name].active case None => 1 case Some(p) => if p.state != d.config.state then 1 else 0)
    requires r.paths == Bind(c.paths, d.pathIDs) && r.topics == Bind(c.topics, d.topicIDs) && r.functions == Bind(c.functions, d.functionIDs)
    requires r.stateOwners == Released(Path, c.stateOwners, coordinators[name].active) + (map path | path in d.config.state.Keys :: name)
    requires r.state == Released(Path, c.state, coordinators[name].active) + d.config.state
    requires r.topicOwners == Released(Topic, c.topicOwners, coordinators[name].active) + (map topic | topic in d.config.events.Keys :: name)
    requires r.functionOwners == Released(Function, c.functionOwners, coordinators[name].active) + (map f | f in d.config.functions :: name)
    ensures r == Activate(c, name, d)
  {
    ReplacedConfig(coordinators, name, slot, d.config);
    ReleasedIsOwned(Path, c, coordinators, name, c.stateOwners);
    ReleasedIsOwned(Path, c, coordinators, name, c.state);
    ReleasedIsOwned(Topic, c, coordinators, name, c.topicOwners);
    ReleasedIsOwned(Function, c, coordinators, name, c.functionOwners);
  }

  ghost function Released<V>(kind: Kind, entries: map<string, V>, previous: Option<Config>): map<string, V> {
    match previous
    case None => entries
    case Some(config) => entries - Declared(kind, config)
  }

  lemma ReleasedIsOwned<V>(kind: Kind, c: Catalog, coordinators: map<string, CoordinatorSlot>, name: string, entries: map<string, V>)
    requires name in coordinators && c.configs == ActiveConfigs(coordinators)
    ensures Released(kind, entries, coordinators[name].active) == entries - Owned(kind, c.configs, name)
  {
  }

  lemma ReplacedConfig(coordinators: map<string, CoordinatorSlot>, name: string, slot: CoordinatorSlot, config: Config)
    requires slot.active == Some(config)
    ensures ActiveConfigs(coordinators[name := slot]) == ActiveConfigs(coordinators)[name := config]
  {
  }

  lemma SlotsWithout(coordinators: map<string, CoordinatorSlot>, name: string)
    ensures SlotsOf(coordinators - {name}) == SlotsOf(coordinators) - {name}
    ensures name in coordinators && coordinators[name].active.None? ==>
      ActiveConfigs(coordinators - {name}) == ActiveConfigs(coordinators) && name !in ActiveConfigs(coordinators)
  {
  }
}
