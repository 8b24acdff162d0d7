/** When the home accepts a declaration, and what a declaration that repeats the active one changes: nothing. */
module Answers {
  import opened Basics
  import opened Catalogs
  import opened CatalogProofs
  import opened Covering
  import opened Views
  import opened HomeModel
  import opened Replicas
  import opened Invariants
  import opened ActivationSteps
  import opened HomeTheorems

  // ---------- activations ----------

  function Claimed(kind: Kind, d: Declaration): set<string> {
    match kind
    case Path => d.config.state.Keys
    case Topic => d.config.events.Keys
    case Function => d.config.functions
  }

  /** Another slot is active with one of these names. */
  ghost predicate CollidesIn(kind: Kind, configs: map<string, Config>, slot: string, claimed: set<string>) {
    exists other, name :: other in configs && other != slot && name in Declared(kind, configs[other]) && name in claimed
  }

  /** Another slot is active with a name that is declared now. */
  ghost predicate Collides(configs: map<string, Config>, slot: string, d: Declaration) {
    exists kind :: CollidesIn(kind, configs, slot, Claimed(kind, d))
  }

  lemma FreeIffNobodyElse(kind: Kind, owners: map<string, string>, configs: map<string, Config>, claimed: set<string>, slot: string)
    requires OwnersInv(kind, owners, configs)
    ensures Free(owners, claimed, slot) <==> !CollidesIn(kind, configs, slot, claimed)
  {
  }

  /** A declaration collides exactly if another slot is active with one of its names; a slot's own names never collide. */
  lemma CollisionIff(c: Catalog, slot: string, d: Declaration, connected: set<string>, limits: Limits, enc: Frame -> bool)
    requires CatalogInv(c)
    ensures ActivationRefusal(c, slot, d, connected, limits, enc) == Refused(OWNERSHIP_COLLISION, false) <==> Collides(c.configs, slot, d)
  {
    FreeIffNobodyElse(Path, c.stateOwners, c.configs, Claimed(Path, d), slot);
    FreeIffNobodyElse(Topic, c.topicOwners, c.configs, Claimed(Topic, d), slot);
    FreeIffNobodyElse(Function, c.functionOwners, c.configs, Claimed(Function, d), slot);
    if Collides(c.configs, slot, d) {
      var kind :| CollidesIn(kind, c.configs, slot, Claimed(kind, d));
    }
  }

  /** The catalogue that a declaration would lead to is one the relay can hold and send. */
  ghost predicate Admissible(c: Catalog, limits: Limits, enc: Frame -> bool) {
    SizesInv(c, limits) && Recoverable(c, enc)
  }

  lemma RequiredIffRecoverable(c: Catalog, connected: set<string>, enc: Frame -> bool)
    requires Codec(enc)
    ensures RequiredFramesEncode(c, connected, enc) <==> Recoverable(c, enc)
  {
    if RequiredFramesEncode(c, connected, enc) {
      CheckedSuffices(c, connected, enc);
    }
    if Recoverable(c, enc) {
      forall user | Checked(c, connected, user)
        ensures enc(StateDict(PathEntries(c, user))) && enc(StateSnapshot(c.revision, StateEntries(c, user))) && enc(TopicDict(TopicEntries(c, user)))
      {
        assert RecoverableFor(c, user, enc);
      }
    }
  }

  lemma SizesIffCounts(c: Catalog, slot: string, d: Declaration, limits: Limits, nextPath: int, nextTopic: int, nextFunction: int)
    requires CatalogInv(c) && Declarable(c, slot, d)
    requires NamesInv(c.paths, nextPath) && NamesInv(c.topics, nextTopic) && NamesInv(c.functions, nextFunction)
    ensures SizesInv(Activate(c, slot, d), limits)
            <==> && AggregateCount(c.stateOwners, Owned(Path, c.configs, slot), d.config.state.Keys) <= limits.statePaths
                 && WithinDictionaries(c, d, limits)
                 && AggregateCount(c.topicOwners, Owned(Topic, c.configs, slot), d.config.events.Keys) <= limits.dictionary
                 && AggregateCount(c.functionOwners, Owned(Function, c.configs, slot), d.config.functions) <= limits.dictionary
  {
    AggregateCountIsExact(Path, c.stateOwners, c.configs, slot, d.config.state.Keys);
    AggregateCountIsExact(Topic, c.topicOwners, c.configs, slot, d.config.events.Keys);
    AggregateCountIsExact(Function, c.functionOwners, c.configs, slot, d.config.functions);
    DictionaryCountIsExact(c.paths, nextPath, d.pathIDs);
    DictionaryCountIsExact(c.topics, nextTopic, d.topicIDs);
    DictionaryCountIsExact(c.functions, nextFunction, d.functionIDs);
  }

  /**
   An activation is accepted exactly if no other slot is active with a name it declares, the catalogue it
   leads to stays within every limit, its reply encodes, and every user, connected or not, could be sent its
   whole view of that catalogue.
   */
  lemma ActivationAcceptedIff(c: Catalog, slot: string, d: Declaration, connected: set<string>, limits: Limits, enc: Frame -> bool,
                              nextPath: int, nextTopic: int, nextFunction: int)
    requires CatalogInv(c) && WellDeclared(d) && Codec(enc)
    requires NamesInv(c.paths, nextPath) && NamesInv(c.topics, nextTopic) && NamesInv(c.functions, nextFunction)
    ensures ActivationRefusal(c, slot, d, connected, limits, enc)
            == if Collides(c.configs, slot, d) then Refused(OWNERSHIP_COLLISION, false)
               else if enc(FunctionSyncOK(d.functionIDs)) && Admissible(Activate(c, slot, d), limits, enc) then Ok
               else Refused(LIMIT_EXCEEDED, false)
  {
    CollisionIff(c, slot, d, connected, limits, enc);
    if !Collides(c.configs, slot, d) {
      SizesIffCounts(c, slot, d, limits, nextPath, nextTopic, nextFunction);
      RequiredIffRecoverable(Activate(c, slot, d), connected, enc);
    }
  }

  lemma LastSliceOutcome(h: Home, s: Session, functions: set<string>, ids: map<string, int>, env: Env)
    requires s in h.peers && h.users <= h.peers.Keys && SliceRefusal(h, s, FunctionSlice) == Ok
    ensures var d := DeclarationOf(h.peers[s].stage.value, functions, ids);
            var refusal := ActivationRefusal(h.catalog, h.peers[s].name, d, ConnectedIDs(h), env.limits, env.enc);
            SyncFunctions(h, s, functions, ids, env.limits, env.enc).1 == if refusal != Ok then refusal else SentOutcome(h.peers[s])
  {
  }

  lemma StagedAnswer(h: Home, s: Session, functions: set<string>, ids: map<string, int>, env: Env)
    requires Inv(h, env) && EnvOK(env) && s in h.peers && h.peers[s].stage.Some?
    requires Reserves(h.catalog.functions, h.nextFunction, functions, ids)
    ensures var d := DeclarationOf(h.peers[s].stage.value, functions, ids);
            ActivationRefusal(h.catalog, h.peers[s].name, d, ConnectedIDs(h), env.limits, env.enc)
            == if Collides(h.catalog.configs, h.peers[s].name, d) then Refused(OWNERSHIP_COLLISION, false)
               else if env.enc(FunctionSyncOK(ids)) && Admissible(Activate(h.catalog, h.peers[s].name, d), env.limits, env.enc) then Ok
               else Refused(LIMIT_EXCEEDED, false)
  {
    var d := DeclarationOf(h.peers[s].stage.value, functions, ids);
    StageIsCommittable(h, s, functions, ids, env);
    ActivationAcceptedIff(h.catalog, h.peers[s].name, d, ConnectedIDs(h), env.limits, env.enc,
                          h.nextPath, h.nextTopic, NextAfter(h.catalog.functions, h.nextFunction, ids));
  }

  /** In every home: what the last slice of a complete stage is answered. */
  lemma LastSliceAnswer(h: Home, s: Session, functions: set<string>, ids: map<string, int>, env: Env)
    requires Inv(h, env) && EnvOK(env) && s in h.peers && Reserves(h.catalog.functions, h.nextFunction, functions, ids)
    requires h.peers[s].role == Coordinator && Current(h, s)
    requires h.peers[s].stage.Some? && h.peers[s].stage.value.expected == FunctionSlice
    ensures var d := DeclarationOf(h.peers[s].stage.value, functions, ids);
            var outcome := SyncFunctions(h, s, functions, ids, env.limits, env.enc).1;
            && (outcome == Refused(OWNERSHIP_COLLISION, false) <==> Collides(h.catalog.configs, h.peers[s].name, d))
            && (outcome == Ok <==> && !Collides(h.catalog.configs, h.peers[s].name, d) && env.enc(FunctionSyncOK(ids))
                                   && Admissible(Activate(h.catalog, h.peers[s].name, d), env.limits, env.enc) && Accepts(h.peers[s]))
  {
    StagedAnswer(h, s, functions, ids, env);
    LastSliceOutcome(h, s, functions, ids, env);
  }

  // ---------- declaring the same again ----------

  /** The declaration is what the slot is active with, under the IDs its names have. */
  ghost predicate Redeclares(c: Catalog, slot: string, d: Declaration) {
    && slot in c.configs && d.config == c.configs[slot]
    && d.config.ownedState == d.config.state.Keys
    && (forall name :: name in d.pathIDs ==> name in c.paths.byName && d.pathIDs[name] == c.paths.byName[name])
    && (forall name :: name in d.topicIDs ==> name in c.topics.byName && d.topicIDs[name] == c.topics.byName[name])
    && (forall name :: name in d.functionIDs ==> name in c.functions.byName && d.functionIDs[name] == c.functions.byName[name])
  }

  lemma BoundAgain(names: Names, next: int, ids: map<string, int>)
    requires NamesInv(names, next) && forall name :: name in ids ==> name in names.byName && ids[name] == names.byName[name]
    ensures Bind(names, ids) == names
  {
    assert names.byName + ids == names.byName;
    forall id | id in Inverse(ids) ensures id in names.byID && Inverse(ids)[id] == names.byID[id] {
      var name :| name in ids && ids[name] == id && Inverse(ids)[id] == name;
    }
    assert names.byID + Inverse(ids) == names.byID;
  }

  lemma OwnedAgain(kind: Kind, owners: map<string, string>, configs: map<string, Config>, slot: string)
    requires OwnersInv(kind, owners, configs) && slot in configs
    ensures Reown(owners, Declared(kind, configs[slot]), Declared(kind, configs[slot]), slot) == owners
  {
  }

  /** Declaring the same again is accepted by the catalogue and leaves it exactly as it was, at its revision. */
  lemma RedeclaringChangesNothing(c: Catalog, slot: string, d: Declaration, nextPath: int, nextTopic: int, nextFunction: int)
    requires CatalogInv(c) && Redeclares(c, slot, d)
    requires NamesInv(c.paths, nextPath) && NamesInv(c.topics, nextTopic) && NamesInv(c.functions, nextFunction)
    ensures Activate(c, slot, d) == c && !Collides(c.configs, slot, d) && !PolicyChanges(c.configs, slot, d.config)
  {
    BoundAgain(c.paths, nextPath, d.pathIDs);
    BoundAgain(c.topics, nextTopic, d.topicIDs);
    BoundAgain(c.functions, nextFunction, d.functionIDs);
    OwnedAgain(Path, c.stateOwners, c.configs, slot);
    OwnedAgain(Topic, c.topicOwners, c.configs, slot);
    OwnedAgain(Function, c.functionOwners, c.configs, slot);
    SameStateBack(c, slot);
    OwnNamesNeverCollide(c, slot, d);
    assert c.configs[slot := d.config] == c.configs;
  }

  lemma DeclaredOnce(kind: Kind, c: Catalog, a: string, b: string, name: string)
    requires CatalogInv(c) && a in c.configs && b in c.configs
    requires name in Declared(kind, c.configs[a]) && name in Declared(kind, c.configs[b])
    ensures a == b
  {
    match kind
    case Path => assert c.stateOwners[name] == a;
    case Topic => assert c.topicOwners[name] == a;
    case Function => assert c.functionOwners[name] == a;
  }

  /** A slot may always declare again what it is active with, or part of it, with any values. */
  lemma OwnNamesNeverCollide(c: Catalog, slot: string, d: Declaration)
    requires CatalogInv(c) && slot in c.configs && forall kind :: Claimed(kind, d) <= Declared(kind, c.configs[slot])
    ensures !Collides(c.configs, slot, d)
  {
    forall other, kind, name | other in c.configs && other != slot && name in Declared(kind, c.configs[other]) ensures name !in Claimed(kind, d) {
      if name in Claimed(kind, d) {
        DeclaredOnce(kind, c, other, slot, name);
      }
    }
  }

  /**
   In every reachable home: the ready connection of a slot that declares again what the slot is active with,
   under the IDs its names have, is answered Ok if that answer encodes and fits its queue. Catalogue, revision
   and policy stay as they are.
   */
  lemma RedeclarationIsAccepted(hs: seq<Home>, env: Env, i: int, s: Session, functions: set<string>, ids: map<string, int>)
    requires EnvOK(env) && RunFromStart(hs, env) && 0 <= i < |hs| && s in hs[i].peers
    requires Reserves(hs[i].catalog.functions, hs[i].nextFunction, functions, ids)
    requires hs[i].peers[s].role == Coordinator && Current(hs[i], s)
    requires hs[i].peers[s].stage.Some? && hs[i].peers[s].stage.value.expected == FunctionSlice
    requires Redeclares(hs[i].catalog, hs[i].peers[s].name, DeclarationOf(hs[i].peers[s].stage.value, functions, ids))
    requires env.enc(FunctionSyncOK(ids)) && Accepts(hs[i].peers[s])
    ensures hs[i].users <= hs[i].peers.Keys
    ensures var (h', outcome) := SyncFunctions(hs[i], s, functions, ids, env.limits, env.enc);
            outcome == Ok && h'.catalog == hs[i].catalog && h'.policy == hs[i].policy
  {
    RunKeepsInvariant(hs, env, i);
    RedeclarationAnswer(hs[i], s, functions, ids, env);
  }

  lemma RedeclarationAnswer(h: Home, s: Session, functions: set<string>, ids: map<string, int>, env: Env)
    requires Inv(h, env) && EnvOK(env) && s in h.peers && Reserves(h.catalog.functions, h.nextFunction, functions, ids)
    requires h.peers[s].role == Coordinator && Current(h, s)
    requires h.peers[s].stage.Some? && h.peers[s].stage.value.expected == FunctionSlice
    requires Redeclares(h.catalog, h.peers[s].name, DeclarationOf(h.peers[s].stage.value, functions, ids))
    requires env.enc(FunctionSyncOK(ids)) && Accepts(h.peers[s])
    ensures var (h', outcome) := SyncFunctions(h, s, functions, ids, env.limits, env.enc);
            outcome == Ok && h'.catalog == h.catalog && h'.policy == h.policy
  {
    var d := DeclarationOf(h.peers[s].stage.value, functions, ids);
    RedeclaringChangesNothing(h.catalog, h.peers[s].name, d, h.nextPath, h.nextTopic, h.nextFunction);
    LastSliceAnswer(h, s, functions, ids, env);
    CommittedCatalog(h, s, functions, ids, env);
  }

  lemma CommittedCatalog(h: Home, s: Session, functions: set<string>, ids: map<string, int>, env: Env)
    requires s in h.peers && h.users <= h.peers.Keys && SyncFunctions(h, s, functions, ids, env.limits, env.enc).1 == Ok
    ensures h.peers[s].stage.Some?
    ensures var d := DeclarationOf(h.peers[s].stage.value, functions, ids);
            var h' := SyncFunctions(h, s, functions, ids, env.limits, env.enc).0;
            && h'.catalog == Activate(h.catalog, h.peers[s].name, d)
            && h'.policy == if PolicyChanges(h.catalog.configs, h.peers[s].name, d.config) then h.policy + 1 else h.policy
  {
  }
}
