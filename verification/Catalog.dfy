/**
 The catalogue of a home: which coordinator owns which names, the name/ID dictionaries, the
 active configurations and the shared state. Every complete client view is computed from it.
 An absent key of `configs` is a slot without active declarations.
 */
module Catalogs {
  import opened Basics

  datatype Value = Null | Boolean(b: bool) | Integer(i: int) | Text(s: string) | List(items: seq<Value>)

  datatype EventAccess = EventAccess(publish: seq<string>, subscribe: seq<string>)

  datatype Config = Config(
    ownedState: set<string>,
    state: map<string, Value>,
    stateACL: map<string, seq<string>>,
    events: map<string, int>,
    eventACL: map<string, EventAccess>,
    functions: set<string>)

  /** One dictionary; entries are never removed, so an ID outlives the ownership of its name. */
  datatype Names = Names(byName: map<string, int>, byID: map<int, string>)

  datatype Catalog = Catalog(
    revision: int,
    configs: map<string, Config>,
    paths: Names,
    topics: Names,
    functions: Names,
    stateOwners: map<string, string>,
    topicOwners: map<string, string>,
    functionOwners: map<string, string>,
    state: map<string, Value>)

  /** A state mutation as a coordinator sends it: the path by ID, and either a value or a deletion. */
  datatype Mutation = Mutation(pathID: int, remove: bool, value: Value)

  /** What a finished five-slice declaration brings. */
  datatype Declaration = Declaration(
    config: Config,
    pathIDs: map<string, int>,
    topicIDs: map<string, int>,
    functionIDs: map<string, int>)

  /** Frames whose content the model tracks. Entry lists are sets: their sort order is not modelled. */
  datatype Frame =
    | Welcome
    | StateDict(paths: set<(int, string)>)
    | StateSnapshot(revision: int, entries: set<(int, Value)>)
    | StatePatch(base: int, next: int, mutations: seq<Mutation>)
    | TopicDict(topics: set<(int, string)>)
    | FunctionDict(functions: set<(int, string)>)
    | PresenceSnapshot(sessions: set<(int, string)>)
    | PresenceChange(session: int, user: string, event: int)
    | StateSyncOK(at: int, pathIDs: map<string, int>)
    | EventSyncOK(topicIDs: map<string, int>)
    | FunctionSyncOK(functionIDs: map<string, int>)
    | StateSetOK(committed: int)
    | Other

  // ---------- patterns and visibility ----------

  /** "a.b.*" covers every name below "a.b."; any other pattern covers only itself. */
  predicate PatternMatches(pattern: string, name: string) {
    if |pattern| >= 2 && pattern[|pattern| - 2..] == ".*"
    then pattern[..|pattern| - 1] <= name
    else pattern == name
  }

  predicate MatchesAny(patterns: seq<string>, name: string) {
    exists i :: 0 <= i < |patterns| && PatternMatches(patterns[i], name)
  }

  predicate Sees(config: Config, user: string, path: string) {
    user in config.stateACL && MatchesAny(config.stateACL[user], path)
  }

  predicate Publishes(config: Config, user: string, topic: string) {
    user in config.eventACL && MatchesAny(config.eventACL[user].publish, topic)
  }

  predicate Subscribes(config: Config, user: string, topic: string) {
    user in config.eventACL && MatchesAny(config.eventACL[user].subscribe, topic)
  }

  predicate CanSee(configs: map<string, Config>, user: string, path: string) {
    exists slot :: slot in configs && Sees(configs[slot], user, path)
  }

  predicate CanPublish(configs: map<string, Config>, user: string, topic: string) {
    exists slot :: slot in configs && Publishes(configs[slot], user, topic)
  }

  predicate CanSubscribe(configs: map<string, Config>, user: string, topic: string) {
    exists slot :: slot in configs && Subscribes(configs[slot], user, topic)
  }

  predicate Listed(config: Config, user: string) {
    user in config.stateACL || user in config.eventACL
  }

  predicate Enrolled(configs: map<string, Config>, user: string) {
    exists slot :: slot in configs && Listed(configs[slot], user)
  }

  ghost function VisibleState(c: Catalog, user: string): map<string, Value> {
    map path | path in c.state && CanSee(c.configs, user, path) :: c.state[path]
  }

  // ---------- complete views ----------

  ghost function PathEntries(c: Catalog, user: string): set<(int, string)> {
    set path | path in c.stateOwners && CanSee(c.configs, user, path) :: (IdOf(c.paths.byName, path), path)
  }

  ghost function StateEntries(c: Catalog, user: string): set<(int, Value)> {
    set path | path in c.state && CanSee(c.configs, user, path) :: (IdOf(c.paths.byName, path), c.state[path])
  }

  ghost function TopicEntries(c: Catalog, user: string): set<(int, string)> {
    set topic | topic in c.topicOwners && (CanPublish(c.configs, user, topic) || CanSubscribe(c.configs, user, topic))
      :: (IdOf(c.topics.byName, topic), NameOf(c.topics.byID, IdOf(c.topics.byName, topic)))
  }

  ghost function FunctionEntries(c: Catalog): set<(int, string)> {
    set name | name in c.functionOwners
      :: (IdOf(c.functions.byName, name), NameOf(c.functions.byID, IdOf(c.functions.byName, name)))
  }

  /** The frames a user needs to recover its whole view, in the order in which they are sent. */
  ghost function RecoveryFrames(c: Catalog, user: string): seq<Frame> {
    [StateDict(PathEntries(c, user)), StateSnapshot(c.revision, StateEntries(c, user)),
     TopicDict(TopicEntries(c, user)), FunctionDict(FunctionEntries(c))]
  }

  // ---------- transitions ----------

  ghost function Inverse(ids: map<string, int>): map<int, string> {
    map id | id in ids.Values :: var name :| name in ids && ids[name] == id; name
  }

  ghost function Bind(names: Names, ids: map<string, int>): Names {
    Names(names.byName + ids, names.byID + Inverse(ids))
  }

  /** The three families of names a coordinator owns. */
  datatype Kind = Path | Topic | Function

  function Declared(kind: Kind, config: Config): set<string> {
    match kind
    case Path => config.ownedState
    case Topic => config.events.Keys
    case Function => config.functions
  }

  function Owned(kind: Kind, configs: map<string, Config>, slot: string): set<string> {
    if slot in configs then Declared(kind, configs[slot]) else {}
  }

  /** Hand the names of `claimed` to `slot` after releasing those of `previous`. */
  ghost function Reown(owners: map<string, string>, previous: set<string>, claimed: set<string>, slot: string): map<string, string> {
    (owners - previous) + (map name | name in claimed :: slot)
  }

  predicate StateChanges(configs: map<string, Config>, slot: string, next: Config) {
    slot !in configs || configs[slot].state != next.state
  }

  predicate PolicyChanges(configs: map<string, Config>, slot: string, next: Config) {
    || slot !in configs
    || configs[slot].stateACL != next.stateACL
    || configs[slot].events != next.events
    || configs[slot].eventACL != next.eventACL
    || configs[slot].functions != next.functions
  }

  ghost function Activate(c: Catalog, slot: string, d: Declaration): Catalog {
    Catalog(
      if StateChanges(c.configs, slot, d.config) then c.revision + 1 else c.revision,
      c.configs[slot := d.config],
      Bind(c.paths, d.pathIDs),
      Bind(c.topics, d.topicIDs),
      Bind(c.functions, d.functionIDs),
      Reown(c.stateOwners, Owned(Path, c.configs, slot), d.config.state.Keys, slot),
      Reown(c.topicOwners, Owned(Topic, c.configs, slot), d.config.events.Keys, slot),
      Reown(c.functionOwners, Owned(Function, c.configs, slot), d.config.functions, slot),
      (c.state - Owned(Path, c.configs, slot)) + d.config.state)
  }

  ghost function Remove(c: Catalog, slot: string): Catalog {
    c.(revision := c.revision + 1,
       configs := c.configs - {slot},
       stateOwners := c.stateOwners - Owned(Path, c.configs, slot),
       topicOwners := c.topicOwners - Owned(Topic, c.configs, slot),
       functionOwners := c.functionOwners - Owned(Function, c.configs, slot),
       state := c.state - Owned(Path, c.configs, slot))
  }

  ghost function Write(state: map<string, Value>, path: string, m: Mutation): map<string, Value> {
    if m.remove then state - {path} else state[path := m.value]
  }

  ghost function WriteAll(state: map<string, Value>, byID: map<int, string>, ms: seq<Mutation>): map<string, Value> {
    if ms == [] then state
    else
      var last := ms[|ms| - 1];
      Write(WriteAll(state, byID, ms[..|ms| - 1]), NameOf(byID, last.pathID), last)
  }

  ghost function Mutate(c: Catalog, slot: string, ms: seq<Mutation>): Catalog
    requires slot in c.configs
  {
    var config := c.configs[slot];
    c.(revision := c.revision + 1,
       state := WriteAll(c.state, c.paths.byID, ms),
       configs := c.configs[slot := config.(state := WriteAll(config.state, c.paths.byID, ms))])
  }

  // ---------- acceptance ----------

  /** No name of `claimed` belongs to somebody else. */
  predicate Free(owners: map<string, string>, claimed: set<string>, slot: string) {
    forall name :: name in claimed && name in owners ==> owners[name] == slot
  }

  /** Every mutated path is known, owned by the slot, and active in it. */
  predicate OwnsPaths(c: Catalog, slot: string, ms: seq<Mutation>) {
    forall i :: 0 <= i < |ms| ==>
      var path := NameOf(c.paths.byID, ms[i].pathID);
      path != "" && path in c.stateOwners && c.stateOwners[path] == slot && path in Owned(Path, c.configs, slot)
  }

  function AggregateCount(owners: map<string, string>, previous: set<string>, claimed: set<string>): int {
    |owners| - |previous| + |claimed|
  }

  function Unbound(byName: map<string, int>, ids: map<string, int>): set<string> {
    set name | name in ids && IdOf(byName, name) == 0
  }

  function DictionaryCount(byName: map<string, int>, ids: map<string, int>): int {
    |byName| + |Unbound(byName, ids)|
  }

  datatype Limits = Limits(statePaths: int, dictionary: int, users: int, coordinators: int, subscriptions: int)

  predicate WithinDictionaries(c: Catalog, d: Declaration, limits: Limits) {
    && DictionaryCount(c.paths.byName, d.pathIDs) <= limits.dictionary
    && DictionaryCount(c.topics.byName, d.topicIDs) <= limits.dictionary
    && DictionaryCount(c.functions.byName, d.functionIDs) <= limits.dictionary
  }

  /** Users whose recovery frames are checked before a commit: the connected and the listed ones. */
  ghost predicate Checked(c: Catalog, connected: set<string>, user: string) {
    user in connected || Enrolled(c.configs, user)
  }

  ghost predicate RequiredFramesEncode(c: Catalog, connected: set<string>, enc: Frame -> bool) {
    && enc(FunctionDict(FunctionEntries(c)))
    && forall user :: Checked(c, connected, user) ==>
      && enc(StateDict(PathEntries(c, user)))
      && enc(StateSnapshot(c.revision, StateEntries(c, user)))
      && enc(TopicDict(TopicEntries(c, user)))
  }

  /** The refusal of an activation, in the order in which the relay checks. */
  ghost function ActivationRefusal(c: Catalog, slot: string, d: Declaration, connected: set<string>,
                                   limits: Limits, enc: Frame -> bool): Outcome
  {
    if !Free(c.stateOwners, d.config.state.Keys, slot) || !Free(c.topicOwners, d.config.events.Keys, slot)
       || !Free(c.functionOwners, d.config.functions, slot) then Refused(OWNERSHIP_COLLISION, false)
    else if AggregateCount(c.stateOwners, Owned(Path, c.configs, slot), d.config.state.Keys) > limits.statePaths
            || !WithinDictionaries(c, d, limits)
            || AggregateCount(c.topicOwners, Owned(Topic, c.configs, slot), d.config.events.Keys) > limits.dictionary
            || AggregateCount(c.functionOwners, Owned(Function, c.configs, slot), d.config.functions) > limits.dictionary
            || !enc(FunctionSyncOK(d.functionIDs))
            || !RequiredFramesEncode(Activate(c, slot, d), connected, enc) then Refused(LIMIT_EXCEEDED, false)
    else Ok
  }

  // ---------- invariants ----------

  /** A name is owned by the slot whose active configuration declares it: declared sets are disjoint. */
  ghost predicate OwnersInv(kind: Kind, owners: map<string, string>, configs: map<string, Config>) {
    && (forall name :: name in owners ==> owners[name] in configs && name in Declared(kind, configs[owners[name]]))
    && (forall slot, name :: slot in configs && name in Declared(kind, configs[slot]) ==>
      name in owners && owners[name] == slot)
  }

  ghost predicate OwnStates(configs: map<string, Config>) {
    forall slot :: slot in configs ==> configs[slot].state.Keys <= configs[slot].ownedState
  }

  /** Every shared value is held by the slot that owns its path ... */
  ghost predicate Backed(configs: map<string, Config>, owners: map<string, string>, state: map<string, Value>) {
    forall path :: path in state ==>
      path in owners && owners[path] in configs && path in configs[owners[path]].state
  }

  /** ... and every value of a slot is the shared value. */
  ghost predicate Covered(configs: map<string, Config>, state: map<string, Value>) {
    forall slot, path :: slot in configs && path in configs[slot].state ==>
      path in state && state[path] == configs[slot].state[path]
  }

  /** Bound names lead back to themselves, and every bound ID lies below the next counter. */
  ghost predicate NamesInv(names: Names, next: int) {
    && next >= 1
    && (forall name :: name in names.byName ==>
      names.byName[name] in names.byID && names.byID[names.byName[name]] == name)
    && (forall id :: id in names.byID ==> 1 <= id < next && names.byID[id] in names.byName)
  }

  ghost predicate CatalogInv(c: Catalog) {
    && OwnersInv(Path, c.stateOwners, c.configs)
    && OwnersInv(Topic, c.topicOwners, c.configs)
    && OwnersInv(Function, c.functionOwners, c.configs)
    && OwnStates(c.configs)
    && Backed(c.configs, c.stateOwners, c.state)
    && Covered(c.configs, c.state)
    && c.stateOwners.Keys <= c.paths.byName.Keys
    && c.topicOwners.Keys <= c.topics.byName.Keys
    && c.functionOwners.Keys <= c.functions.byName.Keys
    && c.revision >= 1
  }

  ghost predicate SizesInv(c: Catalog, limits: Limits) {
    && |c.stateOwners| <= limits.statePaths
    && |c.topicOwners| <= limits.dictionary
    && |c.functionOwners| <= limits.dictionary
    && |c.paths.byName| <= limits.dictionary
    && |c.topics.byName| <= limits.dictionary
    && |c.functions.byName| <= limits.dictionary
  }

  /** IDs handed to one stage: distinct, below the counter, and never in conflict with a bound ID. */
  ghost predicate StagedInv(names: Names, next: int, ids: map<string, int>) {
    && Injective(ids)
    && (forall name :: name in ids ==> 1 <= ids[name] < next)
    && (forall name :: name in ids && ids[name] in names.byID ==> names.byID[ids[name]] == name)
  }

  /** Two stages share an ID only when it was bound before either of them asked. */
  ghost predicate StagesDisjoint(names: Names, ids: map<string, int>, other: map<string, int>) {
    forall a, b :: a in ids && b in other && ids[a] == other[b] ==> ids[a] in names.byID
  }

  /**
   What reserving IDs for a set of names may yield: known names keep their ID, the others get
   distinct IDs from the counter, in whatever order the names were visited.
   */
  ghost predicate Reserves(names: Names, next: int, wanted: set<string>, ids: map<string, int>) {
    && ids.Keys == wanted
    && (forall name :: name in wanted && IdOf(names.byName, name) != 0 ==> ids[name] == names.byName[name])
    && (forall name :: name in wanted && IdOf(names.byName, name) == 0 ==>
      next <= ids[name] < next + |Unbound(names.byName, ids)|)
    && (forall a, b ::
      a in wanted && b in wanted && a != b && IdOf(names.byName, a) == 0 && IdOf(names.byName, b) == 0 ==> ids[a] != ids[b])
  }

  ghost function NextAfter(names: Names, next: int, ids: map<string, int>): int {
    next + |Unbound(names.byName, ids)|
  }

  ghost predicate WellDeclared(d: Declaration) {
    && d.config.ownedState == d.config.state.Keys == d.pathIDs.Keys
    && d.config.events.Keys == d.topicIDs.Keys
    && d.config.functions == d.functionIDs.Keys
    && Injective(d.pathIDs) && Injective(d.topicIDs) && Injective(d.functionIDs)
  }
}
