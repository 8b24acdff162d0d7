/** What a client reconstructs from complete views and patches, and which frames stay encodable. */
module Views {
  import opened Basics
  import opened Catalogs
  import opened CatalogProofs

  // ---------- snapshots ----------

  lemma BoundNamesDiffer(names: Names, next: int, a: string, b: string)
    requires NamesInv(names, next)
    requires a in names.byName && b in names.byName
    requires names.byName[a] == names.byName[b]
    ensures a == b
  {
    assert names.byID[names.byName[a]] == a;
  }

  /** Reading a snapshot through the state dictionary sent before it yields exactly the visible map. */
  lemma SnapshotDecodes(c: Catalog, next: int, user: string, path: string, value: Value)
    requires CatalogInv(c) && NamesInv(c.paths, next)
    ensures (exists id :: (id, path) in PathEntries(c, user) && (id, value) in StateEntries(c, user))
            <==> path in VisibleState(c, user) && VisibleState(c, user)[path] == value
  {
    if id :| (id, path) in PathEntries(c, user) && (id, value) in StateEntries(c, user) {
      var other :| other in c.state && CanSee(c.configs, user, other) && (IdOf(c.paths.byName, other), c.state[other]) == (id, value);
      BoundNamesDiffer(c.paths, next, path, other);
    }
    if path in VisibleState(c, user) && VisibleState(c, user)[path] == value {
      assert (IdOf(c.paths.byName, path), path) in PathEntries(c, user);
      assert (IdOf(c.paths.byName, path), value) in StateEntries(c, user);
    }
  }

  /** No two entries of a snapshot share an ID ... */
  lemma SnapshotIsFunctional(c: Catalog, next: int, user: string, a: (int, Value), b: (int, Value))
    requires CatalogInv(c) && NamesInv(c.paths, next)
    requires a in StateEntries(c, user) && b in StateEntries(c, user) && a.0 == b.0
    ensures a == b
  {
    var x :| x in c.state && CanSee(c.configs, user, x) && a == (IdOf(c.paths.byName, x), c.state[x]);
    var y :| y in c.state && CanSee(c.configs, user, y) && b == (IdOf(c.paths.byName, y), c.state[y]);
    BoundNamesDiffer(c.paths, next, x, y);
  }

  ghost function EntryOf(c: Catalog, path: string): (int, Value)
    requires path in c.state
  {
    (IdOf(c.paths.byName, path), c.state[path])
  }

  lemma EntriesAreImages(c: Catalog, user: string, visible: set<string>)
    requires forall path :: path in visible <==> path in c.state && CanSee(c.configs, user, path)
    ensures StateEntries(c, user) == set path | path in visible :: EntryOf(c, path)
  {
    var image := set path | path in visible :: EntryOf(c, path);
    forall e | e in StateEntries(c, user) ensures e in image {
      var path :| path in c.state && CanSee(c.configs, user, path) && e == (IdOf(c.paths.byName, path), c.state[path]);
      assert path in visible && e == EntryOf(c, path);
    }
    forall e | e in image ensures e in StateEntries(c, user) {
      var path :| path in visible && e == EntryOf(c, path);
      assert path in c.state && CanSee(c.configs, user, path);
    }
  }

  lemma EntriesDiffer(c: Catalog, next: int, path: string, rest: set<string>)
    requires CatalogInv(c) && NamesInv(c.paths, next)
    requires rest <= c.state.Keys && path in c.state && path !in rest
    ensures EntryOf(c, path) !in set p | p in rest :: EntryOf(c, p)
  {
    forall other | other in rest ensures EntryOf(c, other) != EntryOf(c, path) {
      if c.paths.byName[other] == c.paths.byName[path] {
        BoundNamesDiffer(c.paths, next, path, other);
      }
    }
  }

  lemma {:induction false} CountImages(c: Catalog, next: int, visible: set<string>)
    requires CatalogInv(c) && NamesInv(c.paths, next)
    requires visible <= c.state.Keys
    ensures |set path | path in visible :: EntryOf(c, path)| == |visible|
  {
    if visible != {} {
      var path :| path in visible;
      CountImages(c, next, visible - {path});
      EntriesDiffer(c, next, path, visible - {path});
      OneMoreImage(c, visible, path);
    }
  }

  lemma OneMoreImage(c: Catalog, visible: set<string>, path: string)
    requires visible <= c.state.Keys && path in visible
    ensures (set p | p in visible :: EntryOf(c, p)) == (set p | p in visible - {path} :: EntryOf(c, p)) + {EntryOf(c, path)}
  {
  }

  /** ... so it has one entry for each visible value: none is lost. */
  lemma SnapshotLosesNothing(c: Catalog, next: int, user: string)
    requires CatalogInv(c) && NamesInv(c.paths, next)
    ensures |StateEntries(c, user)| == |VisibleState(c, user).Keys|
  {
    EntriesAreImages(c, user, VisibleState(c, user).Keys);
    CountImages(c, next, VisibleState(c, user).Keys);
  }

  // ---------- patches ----------

  /** How a client applies one mutation to its ID-keyed state. */
  ghost function PatchOne(entries: set<(int, Value)>, m: Mutation): set<(int, Value)> {
    (set e | e in entries && e.0 != m.pathID) + (if m.remove then {} else {(m.pathID, m.value)})
  }

  ghost function PatchAll(entries: set<(int, Value)>, ms: seq<Mutation>): set<(int, Value)> {
    if ms == [] then entries else PatchOne(PatchAll(entries, ms[..|ms| - 1]), ms[|ms| - 1])
  }

  predicate Touches(c: Catalog, user: string, m: Mutation) {
    CanSee(c.configs, user, NameOf(c.paths.byID, m.pathID))
  }

  /** The mutations of a batch that a user may see, in order. */
  ghost function VisibleMutations(c: Catalog, user: string, ms: seq<Mutation>): seq<Mutation> {
    if ms == [] then []
    else
      var rest := VisibleMutations(c, user, ms[..|ms| - 1]);
      if Touches(c, user, ms[|ms| - 1]) then rest + [ms[|ms| - 1]] else rest
  }

  /** The ID a mutation uses is the one the current dictionary gives to its path. */
  predicate Canonical(names: Names, m: Mutation) {
    var path := NameOf(names.byID, m.pathID);
    path in names.byName && names.byName[path] == m.pathID
  }

  predicate AllCanonical(names: Names, ms: seq<Mutation>) {
    forall i :: 0 <= i < |ms| ==> Canonical(names, ms[i])
  }

  ghost function EntriesOf(state: map<string, Value>, c: Catalog, user: string): set<(int, Value)> {
    set path | path in state && CanSee(c.configs, user, path) :: (IdOf(c.paths.byName, path), state[path])
  }

  lemma PatchOneMatches(c: Catalog, next: int, user: string, state: map<string, Value>, m: Mutation)
    requires NamesInv(c.paths, next)
    requires state.Keys <= c.paths.byName.Keys
    requires Canonical(c.paths, m)
    ensures var path := NameOf(c.paths.byID, m.pathID);
            EntriesOf(Write(state, path, m), c, user)
            == if Touches(c, user, m) then PatchOne(EntriesOf(state, c, user), m) else EntriesOf(state, c, user)
  {
    var path := NameOf(c.paths.byID, m.pathID);
    var before := EntriesOf(state, c, user);
    var after := EntriesOf(Write(state, path, m), c, user);
    forall other | other in state && IdOf(c.paths.byName, other) == m.pathID ensures other == path {
      BoundNamesDiffer(c.paths, next, other, path);
    }
    if Touches(c, user, m) {
      forall e | e in after ensures e in PatchOne(before, m) {
        var other :| other in Write(state, path, m) && CanSee(c.configs, user, other)
                     && e == (IdOf(c.paths.byName, other), Write(state, path, m)[other]);
        if other != path {
          assert e in before;
        }
      }
      forall e | e in PatchOne(before, m) ensures e in after {
        if e.0 != m.pathID {
          var other :| other in state && CanSee(c.configs, user, other) && e == (IdOf(c.paths.byName, other), state[other]);
          assert other in Write(state, path, m);
        } else {
          assert path in Write(state, path, m);
        }
      }
    } else {
      forall other | CanSee(c.configs, user, other)
        ensures other in Write(state, path, m) <==> other in state
        ensures other in state ==> Write(state, path, m)[other] == state[other]
      {
      }
    }
  }

  /**
   The patch a user receives for an accepted batch turns its old complete view into its new one,
   provided the coordinator mutates with canonical IDs.
   */
  lemma {:induction false} PatchMatches(c: Catalog, next: int, user: string, state: map<string, Value>, ms: seq<Mutation>)
    requires NamesInv(c.paths, next)
    requires state.Keys <= c.paths.byName.Keys
    requires AllCanonical(c.paths, ms)
    ensures WriteAll(state, c.paths.byID, ms).Keys <= c.paths.byName.Keys
    ensures EntriesOf(WriteAll(state, c.paths.byID, ms), c, user)
            == PatchAll(EntriesOf(state, c, user), VisibleMutations(c, user, ms))
  {
    if ms != [] {
      var rest := ms[..|ms| - 1];
      var last := ms[|ms| - 1];
      PatchMatches(c, next, user, state, rest);
      PatchOneMatches(c, next, user, WriteAll(state, c.paths.byID, rest), last);
      if Touches(c, user, last) {
        var visible := VisibleMutations(c, user, rest);
        assert (visible + [last])[..|visible + [last]| - 1] == visible;
      }
    }
  }

  /** A batch of assignments by one ID each: the client keeps every one of them. */
  lemma {:induction false} AssignedIdsStay(entries: set<(int, Value)>, ms: seq<Mutation>, i: int)
    requires 0 <= i < |ms|
    requires forall k :: 0 <= k < |ms| ==> !ms[k].remove
    ensures exists v :: (ms[i].pathID, v) in PatchAll(entries, ms)
  {
    var last := ms[|ms| - 1];
    if ms[i].pathID == last.pathID {
      assert (ms[i].pathID, last.value) in PatchAll(entries, ms);
    } else {
      AssignedIdsStay(entries, ms[..|ms| - 1], i);
      var v :| (ms[i].pathID, v) in PatchAll(entries, ms[..|ms| - 1]);
      assert (ms[i].pathID, v) in PatchAll(entries, ms);
    }
  }

  lemma {:induction false} VisibleKeepsSome(c: Catalog, user: string, ms: seq<Mutation>)
    ensures forall i :: 0 <= i < |ms| && Touches(c, user, ms[i]) ==> ms[i] in VisibleMutations(c, user, ms)
    ensures forall m :: m in VisibleMutations(c, user, ms) ==> m in ms && Touches(c, user, m)
  {
    if ms != [] {
      VisibleKeepsSome(c, user, ms[..|ms| - 1]);
      assert ms == ms[..|ms| - 1] + [ms[|ms| - 1]];
    }
  }

  /**
   Old aliases stay in the ID dictionary, and a batch may name an owned path by one. For a batch
   of assignments that a user sees in full, the patch keeps that user in step exactly when every ID
   is the canonical one; an alias leaves an entry the next snapshot does not have.
   */
  lemma AssignmentsKeepStepIffCanonical(c: Catalog, next: int, user: string, ms: seq<Mutation>)
    requires CatalogInv(c) && NamesInv(c.paths, next)
    requires forall i :: 0 <= i < |ms| ==> !ms[i].remove && Touches(c, user, ms[i]) && ms[i].pathID in c.paths.byID
    ensures PatchAll(StateEntries(c, user), VisibleMutations(c, user, ms))
            == EntriesOf(WriteAll(c.state, c.paths.byID, ms), c, user)
            <==> AllCanonical(c.paths, ms)
  {
    assert StateEntries(c, user) == EntriesOf(c.state, c, user);
    if AllCanonical(c.paths, ms) {
      PatchMatches(c, next, user, c.state, ms);
    } else {
      var i :| 0 <= i < |ms| && !Canonical(c.paths, ms[i]);
      AllVisible(c, user, ms);
      AssignedIdsStay(StateEntries(c, user), ms, i);
      WritesStayBound(c, next, c.state, ms);
      var v :| (ms[i].pathID, v) in PatchAll(StateEntries(c, user), ms);
      forall path | path in c.paths.byName ensures IdOf(c.paths.byName, path) != ms[i].pathID {
        assert c.paths.byID[c.paths.byName[path]] == path;
      }
      assert (ms[i].pathID, v) !in EntriesOf(WriteAll(c.state, c.paths.byID, ms), c, user);
    }
  }

  lemma {:induction false} AllVisible(c: Catalog, user: string, ms: seq<Mutation>)
    requires forall i :: 0 <= i < |ms| ==> Touches(c, user, ms[i])
    ensures VisibleMutations(c, user, ms) == ms
  {
    if ms != [] {
      AllVisible(c, user, ms[..|ms| - 1]);
      assert ms == ms[..|ms| - 1] + [ms[|ms| - 1]];
    }
  }

  lemma {:induction false} WritesStayBound(c: Catalog, next: int, state: map<string, Value>, ms: seq<Mutation>)
    requires NamesInv(c.paths, next)
    requires state.Keys <= c.paths.byName.Keys
    requires forall i :: 0 <= i < |ms| ==> ms[i].pathID in c.paths.byID
    ensures WriteAll(state, c.paths.byID, ms).Keys <= c.paths.byName.Keys
  {
    if ms != [] {
      WritesStayBound(c, next, state, ms[..|ms| - 1]);
    }
  }

  // ---------- encodability ----------

  /** `small` carries no entry that `large` lacks; integers outside the entries have a fixed width. */
  ghost predicate Within(small: Frame, large: Frame) {
    match small
    case StateDict(a) => large.StateDict? && a <= large.paths
    case StateSnapshot(_, a) => large.StateSnapshot? && a <= large.entries
    case TopicDict(a) => large.TopicDict? && a <= large.topics
    case FunctionDict(a) => large.FunctionDict? && a <= large.functions
    case PresenceSnapshot(a) => large.PresenceSnapshot? && a <= large.sessions
    case _ => small == large
  }

  /** All the model knows of the codec: less content still encodes, and so does an empty view. */
  ghost predicate Codec(enc: Frame -> bool) {
    && (forall small, large :: Within(small, large) && enc(large) ==> enc(small))
    && enc(StateDict({})) && enc(StateSnapshot(1, {})) && enc(TopicDict({})) && enc(FunctionDict({})) && enc(PresenceSnapshot({}))
  }

  /** Every user, connected, listed or never seen, can be sent its whole view. */
  ghost predicate Recoverable(c: Catalog, enc: Frame -> bool) {
    && enc(FunctionDict(FunctionEntries(c)))
    && forall user :: RecoverableFor(c, user, enc)
  }

  ghost predicate RecoverableFor(c: Catalog, user: string, enc: Frame -> bool) {
    && enc(StateDict(PathEntries(c, user)))
    && enc(StateSnapshot(c.revision, StateEntries(c, user)))
    && enc(TopicDict(TopicEntries(c, user)))
  }

  /** Checking the connected and the listed users is enough: everybody else sees nothing. */
  lemma CheckedSuffices(c: Catalog, connected: set<string>, enc: Frame -> bool)
    requires Codec(enc)
    requires RequiredFramesEncode(c, connected, enc)
    ensures Recoverable(c, enc)
  {
    forall user ensures RecoverableFor(c, user, enc) {
      if !Checked(c, connected, user) {
        assert forall slot :: slot in c.configs ==> !Listed(c.configs[slot], user);
        assert PathEntries(c, user) == {};
        assert StateEntries(c, user) == {};
        assert Within(StateSnapshot(c.revision, {}), StateSnapshot(1, {}));
        assert TopicEntries(c, user) == {};
      }
    }
  }

  lemma RemoveShrinks(c: Catalog, slot: string, user: string)
    requires slot in c.configs
    ensures PathEntries(Remove(c, slot), user) <= PathEntries(c, user)
    ensures StateEntries(Remove(c, slot), user) <= StateEntries(c, user)
    ensures TopicEntries(Remove(c, slot), user) <= TopicEntries(c, user)
    ensures FunctionEntries(Remove(c, slot)) <= FunctionEntries(c)
  {
  }

  /** A coordinator is removed without any check, and yet every complete view stays encodable. */
  lemma RemoveKeepsRecoverable(c: Catalog, slot: string, enc: Frame -> bool)
    requires Codec(enc)
    requires slot in c.configs
    requires Recoverable(c, enc)
    ensures Recoverable(Remove(c, slot), enc)
  {
    var r := Remove(c, slot);
    forall user ensures RecoverableFor(r, user, enc) {
      RemoveShrinks(c, slot, user);
      assert RecoverableFor(c, user, enc);
      assert Within(StateDict(PathEntries(r, user)), StateDict(PathEntries(c, user)));
      assert Within(StateSnapshot(r.revision, StateEntries(r, user)), StateSnapshot(c.revision, StateEntries(c, user)));
      assert Within(TopicDict(TopicEntries(r, user)), TopicDict(TopicEntries(c, user)));
    }
    RemoveShrinks(c, slot, "");
    assert Within(FunctionDict(FunctionEntries(r)), FunctionDict(FunctionEntries(c)));
  }

  // ---------- revisions ----------

  /** An activation that does not bump the revision leaves the shared state as it was. */
  lemma UnbumpedActivationKeepsState(c: Catalog, slot: string, d: Declaration)
    requires CatalogInv(c)
    requires Declarable(c, slot, d)
    ensures Activate(c, slot, d).revision >= c.revision
    ensures Activate(c, slot, d).revision == c.revision ==> Activate(c, slot, d).state == c.state
  {
    if !StateChanges(c.configs, slot, d.config) {
      SameStateBack(c, slot);
    }
  }

  lemma SameStateBack(c: Catalog, slot: string)
    requires CatalogInv(c)
    requires slot in c.configs
    ensures (c.state - Owned(Path, c.configs, slot)) + c.configs[slot].state == c.state
  {
    OwnedStateIsShared(c, slot);
    PartPutBack(c.state, Owned(Path, c.configs, slot), c.configs[slot].state);
  }

  lemma PartPutBack(state: map<string, Value>, names: set<string>, part: map<string, Value>)
    requires part.Keys <= names && forall path :: path in names ==> (path in state <==> path in part)
    requires forall path :: path in part ==> part[path] == state[path]
    ensures (state - names) + part == state
  {
  }

  /** What decides who sees what, per slot. */
  datatype Policy = Policy(
    stateACL: map<string, seq<string>>, events: map<string, int>,
    eventACL: map<string, EventAccess>, functions: set<string>)

  ghost function PolicyOf(configs: map<string, Config>): map<string, Policy> {
    map slot | slot in configs
      :: Policy(configs[slot].stateACL, configs[slot].events, configs[slot].eventACL, configs[slot].functions)
  }

  /** Equal policies grant the same views. */
  lemma PolicyDecidesSight(a: map<string, Config>, b: map<string, Config>, user: string)
    requires PolicyOf(a) == PolicyOf(b)
    ensures forall path :: CanSee(a, user, path) <==> CanSee(b, user, path)
    ensures forall topic :: CanPublish(a, user, topic) <==> CanPublish(b, user, topic)
    ensures forall topic :: CanSubscribe(a, user, topic) <==> CanSubscribe(b, user, topic)
  {
    forall slot | slot in a
      ensures slot in b && a[slot].stateACL == b[slot].stateACL && a[slot].eventACL == b[slot].eventACL
    {
      assert PolicyOf(a)[slot] == PolicyOf(b)[slot];
    }
    forall slot | slot in b
      ensures slot in a && a[slot].stateACL == b[slot].stateACL && a[slot].eventACL == b[slot].eventACL
    {
      assert slot in PolicyOf(b);
    }
  }
}
