/** What every transition of the catalogue keeps. */
module CatalogProofs {
  import opened Basics
  import opened Catalogs

  // ---------- ownership ----------

  /** `after` is `before` without the keys of `gone`, overridden by `added`. */
  ghost predicate Replaced<V>(before: map<string, V>, gone: set<string>, added: map<string, V>, after: map<string, V>) {
    && (forall k :: k in after <==> k in added || (k in before && k !in gone))
    && (forall k :: k in after ==> after[k] == if k in added then added[k] else before[k])
  }

  ghost predicate Reowned(before: map<string, string>, gone: set<string>, claimed: set<string>, slot: string, after: map<string, string>) {
    && (forall k :: k in after <==> k in claimed || (k in before && k !in gone))
    && (forall k :: k in after ==> after[k] == if k in claimed then slot else before[k])
  }

  lemma ReownIs(before: map<string, string>, gone: set<string>, claimed: set<string>, slot: string)
    ensures Reowned(before, gone, claimed, slot, Reown(before, gone, claimed, slot))
  {
  }

  /** Reassigning the names of one slot keeps every name with the one slot that declares it. */
  lemma ReownKeeps(kind: Kind, owners: map<string, string>, configs: map<string, Config>, slot: string, next: Config,
                   owners': map<string, string>)
    requires OwnersInv(kind, owners, configs)
    requires Free(owners, Declared(kind, next), slot)
    requires Reowned(owners, Owned(kind, configs, slot), Declared(kind, next), slot, owners')
    ensures OwnersInv(kind, owners', configs[slot := next])
  {
    var configs' := configs[slot := next];
    forall other, name | other in configs' && name in Declared(kind, configs'[other])
      ensures name in owners' && owners'[name] == other
    {
      if other != slot {
        assert owners[name] == other;
      }
    }
  }

  lemma SwapSize<T>(all: set<T>, gone: set<T>, added: set<T>)
    requires gone <= all
    requires all * added <= gone
    ensures |(all - gone) + added| == |all| - |gone| + |added|
  {
    assert all == (all - gone) + gone;
  }

  lemma ReownKeys(owners: map<string, string>, previous: set<string>, claimed: set<string>, slot: string)
    ensures Reown(owners, previous, claimed, slot).Keys == (owners.Keys - previous) + claimed
    ensures |Reown(owners, previous, claimed, slot)| == |(owners.Keys - previous) + claimed|
  {
    var after := Reown(owners, previous, claimed, slot);
    assert after.Keys == (owners.Keys - previous) + claimed;
    assert |after| == |after.Keys|;
  }

  /** The count the relay computes before an activation is the exact number of owned names after it. */
  lemma AggregateCountIsExact(kind: Kind, owners: map<string, string>, configs: map<string, Config>, slot: string, claimed: set<string>)
    requires OwnersInv(kind, owners, configs)
    requires Free(owners, claimed, slot)
    ensures |Reown(owners, Owned(kind, configs, slot), claimed, slot)| == AggregateCount(owners, Owned(kind, configs, slot), claimed)
  {
    var previous := Owned(kind, configs, slot);
    ReownKeys(owners, previous, claimed, slot);
    assert previous <= owners.Keys && owners.Keys * claimed <= previous;
    SwapSize(owners.Keys, previous, claimed);
  }

  lemma ReleaseKeeps(kind: Kind, owners: map<string, string>, configs: map<string, Config>, slot: string)
    requires OwnersInv(kind, owners, configs)
    ensures OwnersInv(kind, owners - Owned(kind, configs, slot), configs - {slot})
  {
  }

  // ---------- dictionaries ----------

  lemma InverseLeadsBack(ids: map<string, int>)
    requires Injective(ids)
    ensures Inverse(ids).Keys == ids.Values
    ensures forall name :: name in ids ==> ids[name] in Inverse(ids) && Inverse(ids)[ids[name]] == name
  {
  }

  /**
   Committing staged IDs keeps names leading back to themselves, and an ID once bound keeps its
   name for ever.
   */
  lemma BindKeeps(names: Names, next: int, ids: map<string, int>)
    requires NamesInv(names, next)
    requires StagedInv(names, next, ids)
    ensures NamesInv(Bind(names, ids), next)
    ensures forall id :: id in names.byID ==> id in Bind(names, ids).byID && Bind(names, ids).byID[id] == names.byID[id]
    ensures forall name :: name in ids ==> Bind(names, ids).byName[name] == ids[name]
    ensures forall name :: name in names.byName && name !in ids ==> Bind(names, ids).byName[name] == names.byName[name]
  {
    InverseLeadsBack(ids);
    var after := Bind(names, ids);
    forall id | id in names.byID
      ensures id in after.byID && after.byID[id] == names.byID[id]
    {
      if id in ids.Values {
        var name :| name in ids && ids[name] == id;
      }
    }
    forall id | id in after.byID
      ensures 1 <= id < next && after.byID[id] in after.byName
    {
      if id in ids.Values {
        var name :| name in ids && ids[name] == id;
      }
    }
  }

  /** A stage that is still open stays committable when another one commits. */
  lemma BindKeepsOtherStages(names: Names, next: int, ids: map<string, int>, other: map<string, int>)
    requires NamesInv(names, next)
    requires StagedInv(names, next, ids)
    requires StagedInv(names, next, other)
    requires StagesDisjoint(names, other, ids)
    ensures StagedInv(Bind(names, ids), next, other)
  {
    BindKeeps(names, next, ids);
    InverseLeadsBack(ids);
    forall name | name in other && other[name] in Bind(names, ids).byID
      ensures Bind(names, ids).byID[other[name]] == name
    {
      assert other[name] in ids.Values ==> exists mine :: mine in ids && ids[mine] == other[name];
    }
  }

  /** Reserved IDs are committable, and conflict with no other open stage. */
  lemma ReserveKeeps(names: Names, next: int, wanted: set<string>, ids: map<string, int>, other: map<string, int>)
    requires NamesInv(names, next)
    requires Reserves(names, next, wanted, ids)
    requires StagedInv(names, next, other)
    ensures NamesInv(names, NextAfter(names, next, ids))
    ensures StagedInv(names, NextAfter(names, next, ids), ids)
    ensures StagedInv(names, NextAfter(names, next, ids), other)
    ensures StagesDisjoint(names, ids, other) && StagesDisjoint(names, other, ids)
  {
    forall a, b | a in ids && b in ids && ids[a] == ids[b] ensures a == b {
      if IdOf(names.byName, a) != 0 && IdOf(names.byName, b) != 0 {
        assert names.byID[names.byName[a]] == a;
      }
    }
    forall a, b | a in ids && b in other && ids[a] == other[b] ensures ids[a] in names.byID {
    }
  }

  /** The dictionary count the relay computes before an activation is the exact size after it. */
  lemma DictionaryCountIsExact(names: Names, next: int, ids: map<string, int>)
    requires NamesInv(names, next)
    ensures |names.byName + ids| == DictionaryCount(names.byName, ids)
  {
    var after := names.byName + ids;
    var added := Unbound(names.byName, ids);
    assert after.Keys == names.byName.Keys + added;
    UnionSize(names.byName.Keys, added);
    assert |after| == |after.Keys|;
  }

  // ---------- whole transitions ----------

  ghost predicate Declarable(c: Catalog, slot: string, d: Declaration) {
    && WellDeclared(d)
    && Free(c.stateOwners, d.config.state.Keys, slot)
    && Free(c.topicOwners, d.config.events.Keys, slot)
    && Free(c.functionOwners, d.config.functions, slot)
  }

  lemma ActivateKeepsBacked(configs: map<string, Config>, owners: map<string, string>, state: map<string, Value>,
                            slot: string, next: Config, owners': map<string, string>, state': map<string, Value>)
    requires Backed(configs, owners, state)
    requires OwnersInv(Path, owners, configs)
    requires next.ownedState == next.state.Keys
    requires Reowned(owners, Owned(Path, configs, slot), next.state.Keys, slot, owners')
    requires Replaced(state, Owned(Path, configs, slot), next.state, state')
    ensures Backed(configs[slot := next], owners', state')
  {
  }

  lemma ActivateKeepsCovered(configs: map<string, Config>, owners: map<string, string>, state: map<string, Value>,
                             slot: string, next: Config, state': map<string, Value>)
    requires OwnStates(configs) && Covered(configs, state)
    requires OwnersInv(Path, owners, configs)
    requires Free(owners, next.state.Keys, slot)
    requires Replaced(state, Owned(Path, configs, slot), next.state, state')
    ensures Covered(configs[slot := next], state')
  {
    var configs' := configs[slot := next];
    forall other, path | other in configs' && path in configs'[other].state
      ensures path in state' && state'[path] == configs'[other].state[path]
    {
      if other != slot {
        assert path in Declared(Path, configs[other]);
        assert owners[path] == other;
      }
    }
  }

  lemma ActivateKeepsNames(kind: Kind, owners: map<string, string>, configs: map<string, Config>, slot: string, next: Config,
                           byName: map<string, int>, ids: map<string, int>)
    requires OwnersInv(kind, owners, configs)
    requires owners.Keys <= byName.Keys
    requires Free(owners, Declared(kind, next), slot)
    requires Declared(kind, next) == ids.Keys
    ensures var owners' := Reown(owners, Owned(kind, configs, slot), ids.Keys, slot);
            OwnersInv(kind, owners', configs[slot := next]) && owners'.Keys <= (byName + ids).Keys
  {
    var owners' := Reown(owners, Owned(kind, configs, slot), ids.Keys, slot);
    ReownIs(owners, Owned(kind, configs, slot), ids.Keys, slot);
    ReownKeeps(kind, owners, configs, slot, next, owners');
  }

  lemma ActivateKeepsState(c: Catalog, slot: string, d: Declaration)
    requires CatalogInv(c)
    requires Declarable(c, slot, d)
    ensures var state' := (c.state - Owned(Path, c.configs, slot)) + d.config.state;
            && OwnStates(c.configs[slot := d.config])
            && Backed(c.configs[slot := d.config],
                      Reown(c.stateOwners, Owned(Path, c.configs, slot), d.config.state.Keys, slot), state')
            && Covered(c.configs[slot := d.config], state')
  {
    var state' := (c.state - Owned(Path, c.configs, slot)) + d.config.state;
    var owners' := Reown(c.stateOwners, Owned(Path, c.configs, slot), d.config.state.Keys, slot);
    ReownIs(c.stateOwners, Owned(Path, c.configs, slot), d.config.state.Keys, slot);
    ActivateKeepsBacked(c.configs, c.stateOwners, c.state, slot, d.config, owners', state');
    ActivateKeepsCovered(c.configs, c.stateOwners, c.state, slot, d.config, state');
  }

  lemma ActivateKeeps(c: Catalog, slot: string, d: Declaration)
    requires CatalogInv(c)
    requires Declarable(c, slot, d)
    ensures CatalogInv(Activate(c, slot, d))
  {
    ActivateKeepsNames(Path, c.stateOwners, c.configs, slot, d.config, c.paths.byName, d.pathIDs);
    ActivateKeepsNames(Topic, c.topicOwners, c.configs, slot, d.config, c.topics.byName, d.topicIDs);
    ActivateKeepsNames(Function, c.functionOwners, c.configs, slot, d.config, c.functions.byName, d.functionIDs);
    ActivateKeepsState(c, slot, d);
  }

  /** The limits hold exactly as they were checked before the commit. */
  lemma ActivateKeepsSizes(c: Catalog, slot: string, d: Declaration, connected: set<string>, limits: Limits,
                           enc: Frame -> bool, nextPath: int, nextTopic: int, nextFunction: int)
    requires CatalogInv(c)
    requires NamesInv(c.paths, nextPath) && NamesInv(c.topics, nextTopic) && NamesInv(c.functions, nextFunction)
    requires ActivationRefusal(c, slot, d, connected, limits, enc) == Ok
    ensures SizesInv(Activate(c, slot, d), limits)
  {
    AggregateCountIsExact(Path, c.stateOwners, c.configs, slot, d.config.state.Keys);
    AggregateCountIsExact(Topic, c.topicOwners, c.configs, slot, d.config.events.Keys);
    AggregateCountIsExact(Function, c.functionOwners, c.configs, slot, d.config.functions);
    DictionaryCountIsExact(c.paths, nextPath, d.pathIDs);
    DictionaryCountIsExact(c.topics, nextTopic, d.topicIDs);
    DictionaryCountIsExact(c.functions, nextFunction, d.functionIDs);
  }

  lemma RemoveKeepsState(configs: map<string, Config>, owners: map<string, string>, state: map<string, Value>, slot: string)
    requires OwnStates(configs) && Backed(configs, owners, state) && Covered(configs, state)
    requires OwnersInv(Path, owners, configs)
    requires slot in configs
    ensures var gone := Owned(Path, configs, slot);
            && OwnStates(configs - {slot})
            && Backed(configs - {slot}, owners - gone, state - gone)
            && Covered(configs - {slot}, state - gone)
  {
    assert Backed(configs - {slot}, owners - Owned(Path, configs, slot), state - Owned(Path, configs, slot));
    RemoveKeepsCovered(configs, owners, state, slot);
  }

  lemma RemoveKeepsCovered(configs: map<string, Config>, owners: map<string, string>, state: map<string, Value>, slot: string)
    requires OwnStates(configs) && Covered(configs, state)
    requires OwnersInv(Path, owners, configs)
    requires slot in configs
    ensures Covered(configs - {slot}, state - Owned(Path, configs, slot))
  {
    var configs' := configs - {slot};
    var state' := state - Owned(Path, configs, slot);
    forall other, path | other in configs' && path in configs'[other].state
      ensures path in state' && state'[path] == configs'[other].state[path]
    {
      assert path in Declared(Path, configs[other]);
      assert owners[path] == other;
    }
  }

  lemma RemoveKeeps(c: Catalog, slot: string)
    requires CatalogInv(c)
    requires slot in c.configs
    ensures CatalogInv(Remove(c, slot))
  {
    ReleaseKeeps(Path, c.stateOwners, c.configs, slot);
    ReleaseKeeps(Topic, c.topicOwners, c.configs, slot);
    ReleaseKeeps(Function, c.functionOwners, c.configs, slot);
    RemoveKeepsState(c.configs, c.stateOwners, c.state, slot);
  }

  lemma FewerKeys<V>(m: map<string, V>, gone: set<string>)
    ensures |m - gone| <= |m|
  {
    SubsetSize((m - gone).Keys, m.Keys);
    assert |m - gone| == |(m - gone).Keys|;
    assert |m| == |m.Keys|;
  }

  lemma RemoveKeepsSizes(c: Catalog, slot: string, limits: Limits)
    requires SizesInv(c, limits)
    ensures SizesInv(Remove(c, slot), limits)
  {
    FewerKeys(c.stateOwners, Owned(Path, c.configs, slot));
    FewerKeys(c.topicOwners, Owned(Topic, c.configs, slot));
    FewerKeys(c.functionOwners, Owned(Function, c.configs, slot));
  }

  /** Writing one batch to the shared state and to the slot's own copy changes both alike. */
  lemma {:induction false} WriteAllAgrees(all: map<string, Value>, own: map<string, Value>, owned: set<string>,
                                          byID: map<int, string>, ms: seq<Mutation>)
    requires own.Keys <= owned
    requires forall path :: path in owned ==> (path in all <==> path in own) && (path in own ==> all[path] == own[path])
    requires forall i :: 0 <= i < |ms| ==> NameOf(byID, ms[i].pathID) in owned
    ensures var all' := WriteAll(all, byID, ms);
            var own' := WriteAll(own, byID, ms);
            && own'.Keys <= owned
            && (forall path :: path in owned ==> (path in all' <==> path in own') && (path in own' ==> all'[path] == own'[path]))
            && (forall path :: path !in owned ==> (path in all' <==> path in all) && (path in all ==> all'[path] == all[path]))
  {
    if ms != [] {
      WriteAllAgrees(all, own, owned, byID, ms[..|ms| - 1]);
    }
  }

  /** `all'` and `own'` come from `all` and `own` by the same writes, all inside `owned`. */
  ghost predicate WrittenAlike(all: map<string, Value>, all': map<string, Value>, own': map<string, Value>, owned: set<string>) {
    && own'.Keys <= owned
    && (forall path :: path in owned ==> (path in all' <==> path in own') && (path in own' ==> all'[path] == own'[path]))
    && (forall path :: path !in owned ==> (path in all' <==> path in all) && (path in all ==> all'[path] == all[path]))
  }

  lemma MutateKeepsState(configs: map<string, Config>, owners: map<string, string>, state: map<string, Value>,
                         slot: string, own': map<string, Value>, state': map<string, Value>, configs': map<string, Config>)
    requires OwnStates(configs) && Backed(configs, owners, state) && Covered(configs, state)
    requires OwnersInv(Path, owners, configs)
    requires slot in configs
    requires WrittenAlike(state, state', own', Declared(Path, configs[slot]))
    requires configs' == configs[slot := configs[slot].(state := own')]
    ensures OwnStates(configs')
    ensures Backed(configs', owners, state')
    ensures Covered(configs', state')
  {
    assert Backed(configs', owners, state') by {
      forall path | path in state'
        ensures path in owners && owners[path] in configs' && path in configs'[owners[path]].state
      {
        if path in Declared(Path, configs[slot]) {
          assert owners[path] == slot;
        }
      }
    }
    MutateKeepsCovered(configs, owners, state, slot, own', state', configs');
  }

  lemma MutateKeepsCovered(configs: map<string, Config>, owners: map<string, string>, state: map<string, Value>,
                           slot: string, own': map<string, Value>, state': map<string, Value>, configs': map<string, Config>)
    requires OwnStates(configs) && Covered(configs, state)
    requires OwnersInv(Path, owners, configs)
    requires slot in configs
    requires WrittenAlike(state, state', own', Declared(Path, configs[slot]))
    requires configs' == configs[slot := configs[slot].(state := own')]
    ensures Covered(configs', state')
  {
    forall other, path | other in configs' && path in configs'[other].state
      ensures path in state' && state'[path] == configs'[other].state[path]
    {
      if other != slot {
        assert path in Declared(Path, configs[other]);
        assert owners[path] == other;
      }
    }
  }

  lemma RewriteKeepsOwners(kind: Kind, owners: map<string, string>, configs: map<string, Config>, slot: string, own': map<string, Value>)
    requires OwnersInv(kind, owners, configs)
    requires slot in configs
    ensures OwnersInv(kind, owners, configs[slot := configs[slot].(state := own')])
  {
    var configs' := configs[slot := configs[slot].(state := own')];
    forall other | other in configs ensures Declared(kind, configs'[other]) == Declared(kind, configs[other]) {
    }
  }

  lemma OwnedStateIsShared(c: Catalog, slot: string)
    requires CatalogInv(c)
    requires slot in c.configs
    ensures forall path :: path in c.configs[slot].ownedState ==>
      && (path in c.state <==> path in c.configs[slot].state)
      && (path in c.configs[slot].state ==> c.state[path] == c.configs[slot].state[path])
  {
    forall path | path in c.configs[slot].ownedState
      ensures path in c.stateOwners && c.stateOwners[path] == slot
    {
      assert path in Declared(Path, c.configs[slot]);
    }
  }

  function OwnersOf(kind: Kind, c: Catalog): map<string, string> {
    match kind
    case Path => c.stateOwners
    case Topic => c.topicOwners
    case Function => c.functionOwners
  }

  /** The shared values at the paths a slot owns. */
  function SharedState(c: Catalog, slot: string): map<string, Value> {
    map path | path in c.state && path in Owned(Path, c.configs, slot) :: c.state[path]
  }

  lemma CatalogAgrees(c: Catalog, kind: Kind, slot: string, name: string)
    requires CatalogInv(c)
    ensures name in Owned(kind, c.configs, slot) <==> name in OwnersOf(kind, c) && OwnersOf(kind, c)[name] == slot
    ensures slot in c.configs ==> c.configs[slot].state == SharedState(c, slot)
    ensures name in c.state ==> name in c.stateOwners
  {
    assert OwnersInv(kind, OwnersOf(kind, c), c.configs);
    if slot in c.configs {
      OwnedStateIsShared(c, slot);
    }
  }

  lemma MutateKeeps(c: Catalog, slot: string, ms: seq<Mutation>)
    requires CatalogInv(c)
    requires slot in c.configs
    requires OwnsPaths(c, slot, ms)
    ensures CatalogInv(Mutate(c, slot, ms))
  {
    var config := c.configs[slot];
    var own' := WriteAll(config.state, c.paths.byID, ms);
    var m := Mutate(c, slot, ms);
    assert WrittenAlike(c.state, m.state, own', config.ownedState) by {
      OwnedStateIsShared(c, slot);
      WriteAllAgrees(c.state, config.state, config.ownedState, c.paths.byID, ms);
    }
    MutateKeepsState(c.configs, c.stateOwners, c.state, slot, own', m.state, m.configs);
    RewriteKeepsOwners(Path, c.stateOwners, c.configs, slot, own');
    RewriteKeepsOwners(Topic, c.topicOwners, c.configs, slot, own');
    RewriteKeepsOwners(Function, c.functionOwners, c.configs, slot, own');
  }
}
