# Relay verification

A model of the in-memory relay engine and of its public-key cache, with proofs about every run of each.
The relay holds one home per home ID. Coordinators declare state, events and functions in five slices
that become active at once, mutate state, lose their connection into a grace period, are replaced by a
later generation, and expire. Users hold remote replicas of what their ACLs show them. Calls are routed
between connections that each number them in their own way. Every connection has an outbound queue that
shares one byte budget with all others.

Each Go mutex makes a critical section one atomic step, so every component has three parts:

- a state machine on values: the state, one function per critical section, what a run is, the invariant,
  and theorems about every run;
- laws for what each operation answers and does, stated over the configurations, leases, windows and fetches
  there are, not over the indexes and counters the operation reads;
- a class with the fields the source updates in place, whose methods and loops are proved to compute
  exactly the step of the state machine (`View() == Step(old(View()))`) and to keep `Valid()`.

| files | component |
|---|---|
| `Basics` | options, relay errors, small facts about sets |
| `Catalog`, `CatalogProofs`, `Views` | owners, dictionaries, active configurations and state; complete frames, patches, encodability |
| `HomeModel`, `Replicas`, `Invariants` | one home as a state machine, what clients reconstruct, the invariant |
| `QuietSteps`, `StageSteps`, `MemberSteps`, `CommitSteps`, `ActivationSteps` | each step keeps the invariant |
| `HomeTheorems`, `HomeHistory`, `Acknowledgements`, `Timers` | theorems over every run of a home: replicas, presence, IDs, timers |
| `Covering`, `Answers`, `DeclaredSlices`, `MutationAnswers`, `MemberAnswers`, `Events` | what patterns cover, and when a declaration, a mutation, a subscription, an attachment or an event is accepted, what it then does, and whom it reaches, all in terms of what the active slots declare |
| `Aliases`, `Scenarios`, `AliasRuns` | aliases, missed events and topics without an owner: when they arise, and runs that reach them |
| `HomeLoops`, `HomeParts`, `HomeEngine` | the home in place, its projection and its loops |
| `Calls`, `CallTables`, `CallBooks`, `CallTheorems`, `CallConversations`, `CallEngine` | the call router, and the whole conversation of every call |
| `HomeCalls`, `HomeCallSteps`, `HomeCallTheorems`, `CallAnswers`, `CallRuns`, `RelayEngine` | a home together with its calls: guards, targets, when a call is placed, and what attaching and detaching do to calls |
| `Outbound`, `OutboundLedger`, `OutboundAnswers`, `OutboundEngine` | eviction, order, the byte ledger; the queue as a slice compacted in place |
| `Admission`, `AdmissionTheorems`, `AdmissionRates`, `AdmissionAnswers`, `AdmissionEngine` | connection leases, attempt rates, and what an arrival is answered |
| `KeyCache`, `KeyCacheEngine` | the public-key cache |
| `Leases`, `LeaseEngine` | phase and authentication lease of one connection |
| `Registry`, `RegistryEngine` | the registry of homes and its references |

## What is taken as given

- Session IDs are not given out twice, and names, credits and event targets are as the codec admits them: names
  are not empty, an initial credit lies between 0 and the bound.
- Whether a frame encodes is a predicate on frames that stays true when entries are taken away and that does not
  depend on the size of integers (`Views.Codec`): integers are encoded at a fixed width.
- A connection's queue takes a number of further frames that the environment may change between any two steps
  (`Peer.room`). A frame that does not fit closes the queue and fails the connection. The queue itself is the
  subject of `Outbound`.
- A connection that a home knows only loses its liveness. `Leases.UnavailableForGood` proves this of phase and lease.
  One whose queue was stopped during its handshake attaches with an active phase over a closed queue
  (`internal/relay/connection.go:241`); the model lets it attach as one that is not live. It takes no frame and never
  becomes bootstrapped, so it is available to nobody either way.
- A replica is kept in step by patches if coordinators mutate by the IDs of the STATE_SYNC_OK they activated with
  (`Acknowledgements.ReplicasConverge`). `AliasRuns.AliasIsReachable` shows that something of the kind is needed,
  `Views.AssignmentsKeepStepIffCanonical` what exactly.
- `reflect.DeepEqual` is structural equality. Both callers of `userViewActionsLocked` include capabilities, so every
  available user gets its complete view.
- Clock readings do not decrease in the order in which a lock is taken, where a theorem says so. Admission reads the
  clock before it takes its lock (`internal/relay/admission.go:79-82`), so the theorems about it say which readings
  they allow (`Admission.Pace`).

## Where the code does less than one might expect

- `pathsByID` and `topicsByID` keep aliases: the two directions of a dictionary stay inverse to each other exactly until
  an activation brings a bound name under another ID (`Aliases.StepKeepsInversesIff`, `AliasRuns.AliasIsReachable`); ID
  stability and name to ID to name hold.
- Subscriptions and events go by topic ID, so a user that follows a topic by an alias, subscribed and authorised, misses
  what its owner publishes (`Aliases.FollowerIsReachedIff`, `AliasRuns.MissedEventIsReachable`).
- A coordinator that calls itself enters its own table twice, so a table can hold one call more than the limit, and
  only so (`CallTheorems.OverLimitIffSelfCall`, `CallTheorems.OverfullTableIsReachable`).
- A call whose caller is a user or CLI that has already detached is accepted and ends by its callee or its deadline;
  nothing else leaves a live route without an attached caller (`HomeCallTheorems.CallersStayHereIff`,
  `CallRuns.DepartedCallerIsReachable`).
- `subscribe` checks the ACL but not that the topic has an owner, so a user can follow a topic that nobody owns
  (`AliasRuns.OrphanIsReachable`); nothing else leads there (`Aliases.StepKeepsOwnedIff`), and owned and authorised
  together hold right after pruning (`CommitSteps.PrunedExactly`).
- A repeated first slice stops the timer of the open stage before its own reply is known to encode. If it does not,
  the old stage stays open without a timer (`Timers.TimedUnlessStranded`, `Scenarios.StrandedStageIsReachable`).
- Every connection becomes active before it attaches. If a drain announcement fails to be queued in between, the
  one detach runs first and the attachment afterwards leaves a connection in the home that nothing removes, while
  the home itself may be deleted and replaced (`Registry.RaceSplitsAHome`). Attaching keeps the registry sound
  exactly for a connection that still holds its home (`Registry.AttachKeepsIffHolding`).
- The attempt limit rests on the clock readings, and the code reads the clock before it takes the lock, so plain
  concurrency can reorder them: the count of a source starts again and twice the limit can be exceeded in less than a
  minute (`AdmissionRates.OutOfOrderDefeatsTheRate`). Which readings allow that is exact: those that begin three
  windows of a source too near to one another (`AdmissionRates.Crowded`, `AdmissionRates.RateIsKeptIffUncrowded`). Windows
  a minute apart never do, and readings in the order of the lock begin them so (`AdmissionRates.RateIsBounded`,
  `AdmissionRates.SteadyRunsAreTimely`).
- An expired lease can be renewed by a reading before its deadline (`Leases.OnlyABackwardClockRevives`).
- A slot's generation starts again at 1 once the slot was deleted, so a timer that fired before can remove the slot
  that was created since (`Scenarios.DeletedSlotsForget`). Nothing else makes a timer remove a slot that somebody has
  connected to since it was set (`Timers.GraceTimersAreTheirOwn`).
- The doc comment of `startDraining` says that a peer that has not finished its handshake is left alone; the code
  still uses up that peer's single announcement.

## Model

| member | source | states |
|---|---|---|
| `HomeTheorems.StepKeeps` | internal/relay/home.go:331-354 | every critical section of a home, and every environment step, keeps the whole home invariant; every one but an accepted mutation that names a path by a non-canonical ID keeps every available user in step |
| `HomeTheorems.RunKeepsInvariant` | internal/relay/home.go:136-163 | the invariant holds in every home reachable from a new one |
| `HomeTheorems.CanonicalRunsConverge` | internal/relay/state.go:93-147 | over every run in which accepted mutations are canonical, whatever refused frames name, folding all frames ever enqueued to an available user meets no base mismatch and yields exactly its current visible state, dictionaries and revision |
| `Acknowledgements.ReplicasConverge` | internal/relay/state.go:276-301 | the same over every run in which the accepted mutations of a coordinator use the IDs of the STATE_SYNC_OK it last activated with |
| `Acknowledgements.AcknowledgedIdsAreCanonical` | internal/relay/declarations.go:63-75 | while a coordinator is the ready connection of its slot, the IDs it last activated with name paths it owns, and are the canonical IDs of those paths |
| `Acknowledgements.StepKeepsAcknowledged` | internal/relay/declarations.go:331-338 | no step but its own activation takes a path from the ready connection of a slot or changes the ID of that path |
| `HomeTheorems.PresenceAgrees` | internal/relay/home.go:476-490 | over every run, the presence picture folded by the available connection of a slot has every available user and nobody detached |
| `HomeTheorems.IndexesAgree` | internal/relay/declarations.go:177-207 | in every reachable home the owner maps are the disjoint union of what the active slots declare, a slot's shared state is its own state, and the limits hold |
| `HomeTheorems.RecoveryStaysEncodable` | internal/relay/projection.go:88-120 | in every reachable home each complete frame of each user, connected, listed or never seen, encodes, although only some were checked |
| `HomeTheorems.SubscriptionsStayAuthorised` | internal/relay/events.go:242-251 | in every reachable home each subscription of an attached user is one its current ACL allows |
| `HomeTheorems.DictionariesAreSound` | internal/relay/declarations.go:331-356 | bound names lead back to themselves, IDs lie below the next counter, and no two stages share an unbound ID |
| `HomeTheorems.GraceTimersMatch` | internal/relay/home.go:304-322 | exactly the slots without a connection have a grace timer, for their current generation; ready slots are connected and active |
| `Timers.GraceTimersAreTheirOwn` | internal/relay/home.go:304-370 | over every run, a grace timer set earlier, stopped or not, removes a slot that was never deleted if and only if nobody has connected to it since, and a slot somebody has connected to since if and only if it was deleted in between and is without a connection in that generation again |
| `Scenarios.DeletedSlotsForget` | internal/relay/home.go:304-322 | a run from the start in which a slot is deleted and created again, and the timer set before that removes it although somebody connected in between |
| `Timers.StageTimersAreTheirOwn` | internal/relay/declarations.go:358-371 | over every run, a stage timer drops only the stage it was set for: whenever it drops one, that stage has been open with the same state and IDs ever since |
| `Timers.TimedUnlessStranded` | internal/relay/declarations.go:56-90 | a step leaves an open stage without a running timer if and only if it is a repeated first slice of a current coordinator whose reply does not encode |
| `Scenarios.StrandedStageIsReachable` | internal/relay/declarations.go:57-82 | a run from the start that reaches such a stage |
| `HomeTheorems.RefusedActivationChangesNothing` | internal/relay/declarations.go:163-176 | a refused activation leaves owners, dictionaries, state, configurations, revision and policy; it may burn IDs and drop the stage |
| `HomeTheorems.RefusedMutationChangesNothing` | internal/relay/state.go:52-130 | a refused mutation leaves everything shared as it was |
| `HomeTheorems.MutationCommitsItsPreview` | internal/relay/state.go:76-89 | the preview a mutation validates has the state, revision, owners and dictionaries it commits, and the same complete frames for every user |
| `HomeTheorems.RunIsLater` | internal/relay/declarations.go:209-224 | revision and policy never decrease along a run, and equal stamps mean equal state and policy |
| `HomeTheorems.RevisionsDetermineViews` | internal/relay/home.go:396-400 | two homes of a run with equal revision and policy give every user the same visible state |
| `HomeHistory.BoundIdsNeverMove` | internal/relay/declarations.go:193-204 | an ID once bound never names anything else, in any dictionary, over every run |
| `Aliases.InversesStayIff` | internal/relay/declarations.go:193-204 | binding a stage keeps the two directions of a dictionary inverse if and only if every staged ID of a bound name is its bound ID |
| `Aliases.StepKeepsInversesIff` | internal/relay/declarations.go:157-204 | in a home whose dictionary of paths, topics or functions has inverse directions, exactly an accepted activation that brings a bound name under another ID leaves an alias in it; functions are never brought so |
| `Aliases.ReservedNeverRebinds` | internal/relay/declarations.go:349-356 | function IDs are reserved and bound in one step, so they never leave an alias |
| `AliasRuns.AliasIsReachable` | internal/relay/state.go:60-147 | a run from the start in which two coordinators stage one new path, the second activates after the first has expired, and its accepted mutation by the alias puts an attached user out of step |
| `HomeHistory.OwnIdsStay` | internal/relay/declarations.go:331-338 | while a slot owns a path, the canonical ID of the path does not change |
| `HomeHistory.FencedForever` | internal/relay/home.go:209-233 | a replaced or detached coordinator connection never is its slot's connection again |
| `HomeHistory.FencedFramesChangeNothing` | internal/relay/home.go:372-381 | no declaration or mutation of a fenced connection changes anything in the home |
| `HomeHistory.ReadyWasDeclared` | internal/relay/declarations.go:223-224 | a ready slot is active with a configuration that its present connection committed earlier in the run |
| `DeclaredSlices.CommitsWhatWasSent` | internal/relay/declarations.go:56-238 | over every run, whenever a declaration becomes active its slot is active with exactly the five slices its connection sent last, and their names lead to the IDs it was told for them |
| `DeclaredSlices.LaterSliceAnswer` | internal/relay/declarations.go:92-129 | a slice is answered if it is the one the open stage waits for, and moves the stage on; out of order it drops the stage and nothing else |
| `DeclaredSlices.FirstSliceAnswer` | internal/relay/declarations.go:56-90 | a first slice is answered to the connection of a slot, whatever stage is open, if and only if its reply encodes and fits the queue |
| `DeclaredSlices.AcceptedIsReady` | internal/relay/declarations.go:177-238 | an accepted declaration is answered once, ends its stage and makes its slot ready |
| `DeclaredSlices.OpenStageExpires` | internal/relay/declarations.go:358-371 | the timer of the open stage drops it and tells its coordinator; the timer of another stage does nothing |
| `Answers.ActivationAcceptedIff` | internal/relay/declarations.go:240-284 | an activation is a collision if and only if another slot is active with a name it declares, and otherwise accepted if and only if its reply encodes, the catalogue it leads to is within every limit, and every user, connected or not, could be sent its whole view of it |
| `Answers.LastSliceAnswer` | internal/relay/declarations.go:130-176 | the same in every home for the last slice of a complete stage, with room for the reply |
| `Answers.OwnNamesNeverCollide` | internal/relay/declarations.go:246-260 | a slot may always declare again what it is active with, or part of it, with any values |
| `Answers.RedeclaringChangesNothing` | internal/relay/declarations.go:177-221 | declaring the same again under the bound IDs leaves the whole catalogue, its revision and the policy as they are |
| `Answers.RedeclarationIsAccepted` | internal/relay/declarations.go:157-238 | in every reachable home, a slot that declares again what it is active with, under its bound IDs and with a reply that encodes and fits, is answered Ok |
| `CatalogProofs.ReownKeeps` | internal/relay/declarations.go:179-212 | releasing and claiming names keeps the owner map equal to the declared names |
| `CatalogProofs.AggregateCountIsExact` | internal/relay/declarations.go:307-329 | the count arithmetic over index sizes is the exact number of owned names after the activation |
| `CatalogProofs.DictionaryCountIsExact` | internal/relay/declarations.go:286-294 | existing entries plus staged names without an ID is the exact dictionary size after the activation |
| `CatalogProofs.BindKeeps` | internal/relay/declarations.go:193-204 | binding staged IDs keeps ID to name to ID sound and moves no bound ID |
| `CatalogProofs.BindKeepsOtherStages` | internal/relay/declarations.go:193-204 | binding one stage leaves the IDs of every other stage sound |
| `CatalogProofs.ReserveKeeps` | internal/relay/declarations.go:331-356 | reserved IDs are fresh, distinct from those of every other stage, and below the advanced counter |
| `CatalogProofs.ActivateKeeps` | internal/relay/declarations.go:177-207 | an activation keeps owners, own states and shared state in agreement |
| `CatalogProofs.RemoveKeeps` | internal/relay/home.go:383-403 | removing a coordinator keeps the indexes in agreement |
| `CatalogProofs.MutateKeeps` | internal/relay/state.go:131-141 | writing the shared state and the slot's own state in one pass keeps them in agreement |
| `CatalogProofs.WriteAllAgrees` | internal/relay/state.go:131-140 | a batch of writes and deletions changes the shared and the own state alike and nothing outside the owned paths |
| `MutationAnswers.MutationAcceptedIff` | internal/relay/state.go:47-130 | in every home a mutation is accepted if and only if it comes from the acting connection of a slot, names the epoch of the home and only paths the slot declares, leads to a catalogue every user could be sent whole, and has room for its answer |
| `MutationAnswers.StaleEpochIsRefused` | internal/relay/state.go:52-54 | a mutation that names another epoch is refused for that, whichever coordinator sends it, and changes nothing |
| `MutationAnswers.ForeignPathIsRefused` | internal/relay/state.go:48-73 | only coordinators mutate; a path the slot does not declare is refused as such, and nothing changes |
| `MutationAnswers.MutationWrites` | internal/relay/state.go:131-142 | an accepted mutation advances the revision by one and leaves every path with the last word the batch has on it, a value or a deletion, or as it was |
| `MutationAnswers.MutationIsTold` | internal/relay/state.go:90-147 | exactly the available users that see a path of the batch are sent a frame, or failed if it does not fit, and the sender is sent its answer |
| `Views.SnapshotDecodes` | internal/relay/state.go:204-240 | a snapshot read through the dictionary sent before it is exactly the visible map |
| `Views.SnapshotIsFunctional` | internal/relay/state.go:222-240 | no two entries of a snapshot share an ID |
| `Views.SnapshotLosesNothing` | internal/relay/state.go:222-240 | a snapshot has as many entries as the user sees paths |
| `Views.PatchMatches` | internal/relay/state.go:93-121 | applying the visible mutations by ID to a client's entries gives the entries of the mutated state |
| `Views.AssignmentsKeepStepIffCanonical` | internal/relay/state.go:60-75 | a batch of assignments keeps a client that sees all of it in step if and only if every assignment uses the canonical ID of its path |
| `Views.CheckedSuffices` | internal/relay/projection.go:92-107 | checking the connected and the listed users covers every user ID |
| `Views.RemoveKeepsRecoverable` | internal/relay/home.go:383-403 | an unvalidated removal leaves every complete frame encodable |
| `Views.UnbumpedActivationKeepsState` | internal/relay/declarations.go:209-221 | an activation that does not advance the revision leaves the shared state as it was |
| `Views.PolicyDecidesSight` | internal/relay/state.go:168-202 | what a user may see, publish and subscribe to depends on the ACLs alone |
| `Covering.WildcardCovers` | internal/relay/declarations.go:450-456 | a pattern with the wildcard suffix covers exactly the names that begin with its prefix and a dot |
| `Covering.PlainCovers` | internal/relay/declarations.go:450-456 | any other pattern covers itself and nothing else |
| `Covering.SeesIffCovered` | internal/relay/state.go:168-178 | a user sees a path if and only if the state ACL of some active slot has a pattern for it that covers the path |
| `Covering.PublishesIffCovered` | internal/relay/state.go:180-190 | it may publish a topic if and only if some event ACL has such a pattern among those for publishing |
| `Covering.SubscribesIffCovered` | internal/relay/state.go:192-202 | it may subscribe to a topic if and only if some event ACL has such a pattern among those for subscribing |
| `Covering.OutsideIsHidden` | internal/relay/state.go:204-240 | a user to whom every slot grants only what is below one prefix is shown no path and no value outside of it, in no frame |
| `Covering.PathsListed` | internal/relay/state.go:204-220 | a user is listed exactly the declared paths it may see, each under the ID that leads back to it |
| `Covering.TopicsListed` | internal/relay/state.go:242-258 | a user is listed exactly the declared topics it may publish or subscribe to |
| `Covering.FunctionsListed` | internal/relay/state.go:260-274 | every user is listed exactly the declared functions |
| `Replicas.RefreshedIsReplicated` | internal/relay/state.go:276-301 | a complete view brings any replica that never missed a patch into step |
| `Replicas.AcceptedPatch` | internal/relay/state.go:93-147 | a delivered patch or its snapshot fallback takes a replica from the old state to the mutated one |
| `Replicas.EnqueueAllSends` | internal/relay/connection.go:438-455 | a connection whose queue stayed open received every frame in order; a refused frame ends it for good |
| `CommitSteps.PrunedExactly` | internal/relay/events.go:242-251 | right after pruning, the subscriptions left are exactly those that are owned and authorised |
| `Aliases.SubscribeKeepsOwnedIff` | internal/relay/events.go:30-68 | after an accepted subscription a user follows owned topics only, if and only if it did before and every requested topic is owned |
| `Aliases.StepKeepsOwnedIff` | internal/relay/events.go:30-68 | in a home whose users follow owned topics only, exactly an accepted subscription to a topic without an owner changes that |
| `Aliases.FollowerIsReachedIff` | internal/relay/events.go:183-205 | an accepted event for the followers of a topic reaches an available, authorised user that follows the topic under some ID if and only if it has subscribed to the ID of the event, and in any case while the topic dictionary has no alias |
| `AliasRuns.MissedEventIsReachable` | internal/relay/events.go:183-205 | a run from the start in which two coordinators stage one new topic, and a user that follows it by the ID of the first is not reached by an accepted event of the second |
| `AliasRuns.OrphanIsReachable` | internal/relay/events.go:30-68 | a run from the start in which a user comes to follow a topic whose owner has expired |
| `MemberAnswers.SubscriptionIsAnswered` | internal/relay/events.go:37-68 | a subscription is refused to a user no active slot lists, refused if one of its topics is not granted, and refused if the places with new topics are more than are left; otherwise the user follows exactly what it did and what it asked for |
| `MemberAnswers.RepeatsAreFree` | internal/relay/events.go:43-53 | topics that are followed already cost no room, distinct new ones cost one each |
| `MemberAnswers.DroppedAreGone` | internal/relay/events.go:77-97 | topics are dropped if and only if all of them are followed, and then exactly they are followed no longer |
| `MemberAnswers.DroppedAreSilent` | internal/relay/events.go:86-88 | after that no event of a dropped topic reaches the user, whoever sends it |
| `MemberAnswers.ResyncHeals` | internal/relay/state.go:16-41 | a resynchronisation is answered if and only if there is room for both frames, and puts values, paths and revision of a replica right whatever it had before |
| `MemberAnswers.UserIsAdmittedIff` | internal/relay/home.go:189-207 | a user is admitted if and only if the home has room for one more and the list of sessions with it encodes; it is sent a welcome and its complete view before anything else, and is available if the lease holds |
| `MemberAnswers.CoordinatorIsAdmittedIff` | internal/relay/home.go:208-233 | a coordinator is admitted if and only if its slot exists or there is room for one more; it holds the slot in the next generation, not ready and without a timer, and is sent a welcome and who is present |
| `MemberAnswers.DepartureLeavesASlot` | internal/relay/home.go:304-325 | the slot of a connection that leaves goes at once if and only if it has no declarations and the connection never got past its bootstrap; otherwise it stays with a grace timer |
| `HomeLoops.MatchesAnyPattern` | internal/relay/declarations.go:450-465 | the loop finds a pattern if and only if one of them covers the name: the name itself, or a wildcard above it |
| `HomeLoops.BindAll` | internal/relay/declarations.go:193-204 | binding in any order gives the same two maps |
| `HomeLoops.ReserveIDs` | internal/relay/declarations.go:331-356 | whatever the visiting order, known names keep their ID and the others take distinct next ones; the counter advances by their number |
| `HomeLoops.Dispatch` | internal/relay/home.go:511-515 | dispatching a batch gives every connection exactly its own frames in order |
| `HomeEngine.HomeState.constructor` | internal/relay/home.go:136-163 | a new home is the start of every run |
| `HomeEngine.HomeState.UserCanSeeState` | internal/relay/state.go:168-178 | searching the active slots answers whether some ACL shows the path |
| `HomeEngine.HomeState.UserCanPublishTopic` | internal/relay/state.go:180-190 | searching the active slots answers whether some ACL lets the user publish |
| `HomeEngine.HomeState.UserCanSubscribeTopic` | internal/relay/state.go:192-202 | searching the active slots answers whether some ACL lets the user subscribe |
| `HomeEngine.HomeState.UserCanUseTopic` | internal/relay/state.go:242-248 | a topic is listed if the user may publish or subscribe to it |
| `HomeEngine.HomeState.VisibleStateOf` | internal/relay/state.go:158-166 | the collected view is exactly the visible part of the state |
| `HomeEngine.HomeState.StateDictionaryFrame` | internal/relay/state.go:204-220 | the frame holds exactly the visible owned paths with their IDs |
| `HomeEngine.HomeState.StateSnapshotFrame` | internal/relay/state.go:222-240 | collecting values by ID loses no visible entry |
| `HomeEngine.HomeState.TopicDictionaryFrame` | internal/relay/state.go:242-258 | the frame holds exactly the usable owned topics |
| `HomeEngine.HomeState.FunctionDictionaryFrame` | internal/relay/state.go:260-274 | two loops, first over the owned names for their IDs and then over the IDs for their names, give exactly one entry for every owned function |
| `HomeEngine.HomeState.Projection` | internal/relay/projection.go:12-33 | a projection shows the same catalogue but for state and revision, and is a copy |
| `HomeEngine.HomeState.ProjectionForState` | internal/relay/projection.go:35-37 | the projection of a mutation: the next state, one revision later |
| `HomeEngine.HomeState.ProjectionForActivation` | internal/relay/projection.go:39-86 | the loops of the projection leave on a copy exactly the catalogue an activation leaves, and the home itself is untouched |
| `HomeEngine.HomeState.ValidateRequiredFrames` | internal/relay/projection.go:88-120 | accepts if and only if every frame of every connected or listed user encodes |
| `HomeEngine.HomeState.CheckedUsers` | internal/relay/projection.go:92-107 | collects exactly the connected and the listed users |
| `HomeEngine.HomeState.UserViewActions` | internal/relay/state.go:276-301 | one complete view for every available user, and nothing for anybody else |
| `HomeEngine.HomeState.PruneSubscriptions` | internal/relay/events.go:242-251 | removes exactly the subscriptions without an owner or without authorisation |
| `HomeEngine.HomeState.PresenceSnapshotFrame` | internal/relay/home.go:458-474 | lists exactly the bootstrapped sessions |
| `HomeEngine.HomeState.PresenceActions` | internal/relay/home.go:476-490 | one change for the available connection of every slot |
| `HomeEngine.HomeState.ExpireCoordinator` | internal/relay/home.go:356-370 | the grace timer in place is the expiry step |
| `HomeEngine.HomeState.RemoveCoordinator` | internal/relay/home.go:383-403 | everything the slot contributed goes, revision and policy advance, subscriptions are pruned, views are prepared |
| `HomeEngine.HomeState.SyncState` | internal/relay/declarations.go:56-90 | the first slice: stop the timer of an open stage, reserve IDs, answer, open the stage with its timer; or the refusal |
| `HomeEngine.HomeState.SyncAcl` | internal/relay/declarations.go:92-105 | the second slice, in order or refused |
| `HomeEngine.HomeState.SyncEvents` | internal/relay/declarations.go:106-125 | the third slice with its reserved IDs, in order or refused |
| `HomeEngine.HomeState.SyncEventAcl` | internal/relay/declarations.go:126-129 | the fourth slice, in order or refused |
| `HomeEngine.HomeState.SyncFunctions` | internal/relay/declarations.go:130-238 | the last slice commits exactly the catalogue its projection predicted, or changes nothing shared |
| `HomeEngine.HomeState.ValidateActivation` | internal/relay/declarations.go:240-284 | the refusals in the order of the checks; acceptance comes with the predicted catalogue; which activations are accepted is stated by Answers.ActivationAcceptedIff |
| `HomeEngine.HomeState.Commit` | internal/relay/declarations.go:178-224 | the commit has its own loops over the maps of the stage, shares none with the projection, and arrives at the same catalogue, with revision, policy and slot |
| `HomeEngine.HomeState.CountDictionary` | internal/relay/declarations.go:286-294 | the loop counts existing entries and staged names without an ID |
| `HomeEngine.HomeState.ExpireStage` | internal/relay/declarations.go:358-371 | the timer of a stage drops that stage and no other, and tells its coordinator |
| `HomeEngine.HomeState.SetState` | internal/relay/state.go:47-148 | a mutation in place: ownership, validation on a copy, patches from each user's revision, commit of both states; or the refusal |
| `HomeEngine.HomeState.MutationPaths` | internal/relay/state.go:60-75 | accepts if and only if every mutated path is known, owned by the slot and active in it |
| `HomeEngine.HomeState.PatchActions` | internal/relay/state.go:90-126 | one patch or fallback snapshot for every available user who sees part of the mutation |
| `HomeEngine.HomeState.CommitMutations` | internal/relay/state.go:131-142 | one loop over the batch writes shared and own state alike, and the revision advances by one |
| `HomeEngine.HomeState.Resync` | internal/relay/state.go:16-41 | a resynchronisation sends dictionary and snapshot at the current revision |
| `HomeEngine.HomeState.Subscribe` | internal/relay/events.go:30-68 | all or none of the requested topics are followed |
| `HomeEngine.HomeState.Unsubscribe` | internal/relay/events.go:70-97 | all or none of the named topics are dropped |
| `HomeEngine.HomeState.PublishEvent` | internal/relay/events.go:99-240 | an event in place; its recipients are those of Events.RecipientsIff |
| `Events.RecipientsIff` | internal/relay/events.go:99-240 | the recipients of an event are exactly those it is addressed to that have standing: a user available, subscribed and authorised hears from the declarer of the topic, if it is declared for users; an acting coordinator hears from the declarer, if it is declared from and for coordinators, or is the declarer and hears from a user that may publish, if it is declared from users |
| `Events.EventIsReceived` | internal/relay/events.go:196-238 | exactly the recipients that have room are sent a frame, one that has not is failed, and nobody else is touched |
| `Events.EventAcceptedIff` | internal/relay/events.go:137-238 | an event is answered Ok if and only if somebody it is addressed to has standing and room |
| `Events.ForeignTopicIsForbidden` | internal/relay/events.go:160-163 | an acting coordinator that publishes a topic another slot declares is refused for that, whatever the target, and reaches nobody |
| `Events.UndeclaredTopicIsRefused` | internal/relay/events.go:116-120 | a topic that no active slot declares is refused as such |
| `Events.FencedEventsReachNobody` | internal/relay/events.go:111-115 | an event of a fenced coordinator reaches nobody and changes nothing |
| `Events.PublishKeeps` | internal/relay/events.go:99-240 | publishing changes queues only, and keeps the invariant and every replica |
| `CallTheorems.CallStepKeeps` | internal/relay/calls.go:22-37 | every step of the router keeps both table entries of every route and all of its accounts |
| `CallTheorems.ExactlyOneEnd` | internal/relay/calls.go:343-424 | over every run an accepted route that is over has told its caller once, or its deadline is about to, or was cut by its caller's departure; a live one has its timer and has told nothing; one that is over has no timer |
| `CallTheorems.NoChunkAfterTheEnd` | internal/relay/calls.go:199-221 | over every run the end of a route is final and no chunk of it is sent afterwards |
| `CallTheorems.FramesAreFaithful` | internal/relay/calls.go:202-221 | every frame goes to the right end under that end's own ID, and relay-made ends are OUTCOME_UNKNOWN |
| `CallTheorems.CreditIsConserved` | internal/relay/calls.go:199-211 | a route's credit is what its callee was told less the chunks it used, within 0 and the bound |
| `CallTheorems.TablesCorrespond` | internal/relay/calls.go:112-128 | over every run live routes sit in both tables, entries lead to live routes, and no two live routes share an ID at either end |
| `CallTheorems.LateResultMatchesNoOther` | internal/relay/calls.go:190-198 | before the counter goes round, an ID a callee answers to was given to one route only |
| `CallConversations.StepSays` | internal/relay/calls.go:177-424 | what every step does to every live route: a result or an error concerns exactly the route of its callee and ID, a cancel or a grant exactly that of its caller and ID, a departure exactly the routes of whoever departs, a deadline its own; whom it tells what, whether it ends the route, and what it does to the credit |
| `CallConversations.ConversationIsComplete` | internal/relay/calls.go:39-424 | over every run, all frames of a route that is over: its dispatch and acceptance, chunks and grants, and what the one step that ended it makes due, in this order |
| `CallConversations.CalleeLearnsOfTheEnd` | internal/relay/calls.go:286-424 | over every run, the callee of a route that is over has been sent exactly one cancel, with the reason of the cancel, DEADLINE_EXCEEDED or, when the caller departed, OUTCOME_UNKNOWN; none if it answered or departed itself, and none yet while its warning is due |
| `CallConversations.LiveCalleeIsNotCancelled` | internal/relay/calls.go:286-424 | over every run, the callee of a live route has been sent no cancel |
| `CallConversations.EndedBySome` | internal/relay/calls.go:379-389 | over every run, every accepted route that is over was ended by some step of the run |
| `CallAnswers.LateResultsAreSilent` | internal/relay/calls.go:190-198 | over every run, what a callee says of a call that is over is dropped without an error, until its counter goes round |
| `CallAnswers.ResultAnswer` | internal/relay/calls.go:199-221 | the result of a live call is forwarded if it fits and is final or has credit left, and an error if it fits |
| `CallAnswers.CallerAnswer` | internal/relay/calls.go:276-328 | a live call may always be cancelled, and granted credit up to the bound |
| `CallAnswers.UnknownIdsAreRefused` | internal/relay/calls.go:193-198 | an ID that is not that of a live call of the sender is refused, to a callee if it was never given |
| `HomeCallTheorems.ResolvesToSomeoneHere` | internal/relay/calls.go:131-175 | a call resolves to the connection of a slot or to an attached user, never to a CLI, or is refused |
| `CallAnswers.CalleeIff` | internal/relay/calls.go:62-175 | a call goes to a connection if and only if that is the acting, available connection of the slot that declares the function, by default or by the name a coordinator gives, or an available, enrolled user whom the declaring coordinator itself calls; a user no slot lists may only join |
| `CallAnswers.TargetRefusals` | internal/relay/calls.go:145-171 | named targets are for coordinators; a user target for the declarer alone, a coordinator target for the name of the declarer alone |
| `CallAnswers.UncallableRefusals` | internal/relay/calls.go:62-70 | a function no active slot declares is refused as such, and one that is, to a user no slot lists, for that, unless it is the one for joining |
| `CallAnswers.CallIsPlacedIff` | internal/relay/calls.go:39-129 | over every run of a home with its calls, a call is placed if and only if its sender may act, has neither used the ID nor all of its room, and somebody the call is meant for is there, has room and takes the dispatch before the deadline; it goes there |
| `CallAnswers.CallIsAnswered` | internal/relay/calls.go:39-129 | what a call is answered in the order of its obstacles, from the guard to the queue of its sender |
| `CallAnswers.FramesReachTheirQueues` | internal/relay/calls.go:112-128 | every frame the router sends reaches the queue of its connection while there is room for all of them |
| `HomeCallTheorems.FramesAreEnabled` | internal/relay/calls.go:49-72 | with guard, target and queue room read from the home, every call frame and call timer is a step the theorems about the router cover |
| `HomeCallTheorems.WorldsAreReachable` | internal/relay/home.go:175-329 | over every run of a home with its calls, the home and the router are ones their own runs reach, and the router knows exactly the connections of the slots, the attached users and the attached CLIs as present |
| `HomeCallTheorems.FencedHoldsNoRoute` | internal/relay/home.go:225-233 | over every run, both ends of a live route that are coordinators are the connections of their slots, and its callee is attached |
| `HomeCallTheorems.GoneForGood` | internal/relay/home.go:209-233 | over every run, a coordinator that was replaced or detached, and a user or CLI that detached, is never there again |
| `HomeCallTheorems.FencedChangesNothing` | internal/relay/calls.go:51-55 | a call frame or event of a coordinator that is not the connection of its slot changes neither routes, tables nor any queue |
| `HomeCallTheorems.EventsReachStanding` | internal/relay/events.go:99-240 | over every run of a home with its calls, an event changes nothing but queues, and those of exactly the connections it is addressed to that have standing, all of them here |
| `HomeCallTheorems.CallersStayHereIff` | internal/relay/calls.go:39-129 | in every reachable home whose live routes have attached callers, exactly a call that is placed for somebody who has detached changes that |
| `CallRuns.DepartedCallerIsReachable` | internal/relay/calls.go:39-129 | a run from the start in which a user detaches and a call it had sent is accepted |
| `CallTheorems.OverLimitIffSelfCall` | internal/relay/calls.go:59-76 | with all tables within the limit, a call takes one over it if and only if it is accepted, goes from a connection to itself, and found one entry to spare |
| `CallTheorems.OutwardRunsStayWithin` | internal/relay/calls.go:59-76 | over every run without self-calls every table stays within the limit |
| `CallTheorems.OverfullTableIsReachable` | internal/relay/calls.go:112-113 | one more entry than the limit is reached from the start |
| `CallTables.RemoveKeeps` | internal/relay/calls.go:379-389 | removing a route takes exactly its own entries out of both tables |
| `CallTables.RegisterKeeps` | internal/relay/calls.go:112-113 | a new route enters both tables without displacing another |
| `CallTables.RegisterThenRemove` | internal/relay/calls.go:112-117 | a route whose dispatch was refused leaves the tables as they were |
| `CallTables.AllocatedKeeps` | internal/relay/calls.go:330-341 | until it goes round, the counter gives IDs above all given before |
| `CallTables.DepartKeeps` | internal/relay/calls.go:391-424 | after a departure every route of the connection is over |
| `CallEngine.CallRouter.AllocateCalleeCallID` | internal/relay/calls.go:330-341 | the search ends, goes round once at most, and returns the first free ID |
| `CallEngine.CallRouter.ForwardResult` | internal/relay/calls.go:177-225 | a result in place: silence for a finished route, credit spent per chunk, removal before the final one |
| `CallEngine.CallRouter.ForwardError` | internal/relay/calls.go:227-263 | an error in place: removal, then one frame to the caller |
| `CallEngine.CallRouter.CancelCall` | internal/relay/calls.go:265-301 | a cancellation in place: callee told, route removed, outcome unknown; CallConversations.CalleeLearnsOfTheEnd says that both frames are due |
| `CallEngine.CallRouter.CreditCall` | internal/relay/calls.go:303-328 | credit in place, refused beyond the bound |
| `CallEngine.CallRouter.ExpireCall` | internal/relay/calls.go:343-355 | a deadline removes a live route once |
| `CallEngine.CallRouter.WarnCallee` | internal/relay/calls.go:356-360 | the callee is told after the lock is released, with other steps before and after |
| `CallEngine.CallRouter.TellCaller` | internal/relay/calls.go:361-376 | then the caller is told, and only then has the route told its end |
| `CallEngine.CallRouter.TerminateCalls` | internal/relay/calls.go:391-424 | visiting a table in any order ends every route of it once |
| `CallEngine.CallRouter.Depart` | internal/relay/calls.go:391-424 | a departure in place is the departure step |
| `CallEngine.CallRouter.Remove` | internal/relay/calls.go:379-389 | removal in place |
| `RelayEngine.RelayHome.Attach` | internal/relay/home.go:175-281 | attaching in place: admission or takeover of a slot, the calls of the replaced connection ended and their other ends told, bootstrap and announcement; or the refusal, which changes nothing |
| `RelayEngine.RelayHome.Detach` | internal/relay/home.go:283-329 | detaching in place: the calls of the connection end, their other ends are told, the departure is announced, the slot is left in grace or dropped |
| `RelayEngine.RelayHome.StartCall` | internal/relay/calls.go:39-175 | a call in place: guard of an acting coordinator, declaration, enrolment, target, limits, allocation, dispatch taken back when the queue refuses, and the refusals in order |
| `RelayEngine.RelayHome.PublishEvent` | internal/relay/events.go:99-240 | an event in place: the home delivers it, and no call is touched |
| `RelayEngine.RelayHome.ResolveTarget` | internal/relay/calls.go:131-175 | the target in place, from slots, users and enrolment |
| `RelayEngine.RelayHome.ForwardResult` | internal/relay/calls.go:177-225 | a result in place with the guard of its sender, and the frame in the queue of the caller |
| `RelayEngine.RelayHome.CancelCall` | internal/relay/calls.go:265-301 | a cancellation in place with the guard of its sender, and both frames in their queues, as CallAnswers.FramesReachTheirQueues counts them |
| `RelayEngine.RelayHome.WarnCallee` | internal/relay/calls.go:356-360 | a deadline frame goes to the queue of the callee after the lock was released |
| `Outbound.DropCountIsShortest` | internal/relay/connection.go:502-511 | evicting one droppable message at a time stops at the shortest run that makes room |
| `Outbound.PriorityFailsOnlyOnUndroppable` | internal/relay/connection.go:477-482 | a priority message meets the local limit if and only if undroppable messages alone leave no room |
| `Outbound.WithoutFirstRetains` | internal/relay/connection.go:502-511 | eviction leaves the other messages in order |
| `OutboundLedger.BytesAreConserved` | internal/relay/admission.go:137-158 | over every interleaving the total is what all connections hold, counts and limits are exact, and every release succeeds |
| `OutboundLedger.QueuesKeepOrder` | internal/relay/connection.go:471-517 | over every interleaving what was written and queued is what was accepted less dropped stream frames until a clear, and nothing follows a FATAL frame |
| `OutboundLedger.LedgerMoves` | internal/relay/connection.go:622-696 | every access of enqueue, eviction, pop, fatal replacement and stop to the budget keeps the ledger |
| `OutboundLedger.EnqueueSettles` | internal/relay/connection.go:471-496 | an uninterrupted enqueue is what its small steps come to |
| `OutboundLedger.SettleKeeps` | internal/relay/connection.go:471-696 | an uninterrupted operation moves the total exactly with what its connection holds |
| `OutboundAnswers.TakenIff` | internal/relay/connection.go:471-517 | a message is taken if and only if the queue is open and what stays of it, everything or for a priority message what the shortest eviction leaves, leaves room within the limit and the budget; exactly that stays before it |
| `OutboundAnswers.TakenWithinLimit` | internal/relay/connection.go:477-482 | with room in the budget a priority message is taken if and only if it fits beside what may not be dropped, an ordinary one if and only if it fits beside everything |
| `OutboundAnswers.NothingAfterTheEnd` | internal/relay/connection.go:474-476 | over every interleaving nothing enters a queue that is closed or has its FATAL frame, and what is written later was queued then |
| `OutboundEngine.ByteBudget.Reserve` | internal/relay/admission.go:137-148 | grants exactly what still fits |
| `OutboundEngine.ByteBudget.Release` | internal/relay/admission.go:150-158 | takes back at most what is counted |
| `OutboundEngine.OutboundQueue.Retain` | internal/relay/connection.go:502-511 | the compaction loop in place keeps exactly what the shortest eviction leaves |
| `OutboundEngine.OutboundQueue.EvictStreams` | internal/relay/connection.go:498-517 | eviction in place, blanked behind, bytes given back |
| `OutboundEngine.OutboundQueue.Enqueue` | internal/relay/connection.go:471-496 | enqueue in place with its three refusals, conserving the budget |
| `OutboundEngine.OutboundQueue.NextMessage` | internal/relay/connection.go:578-601 | the first message leaves the queue and its bytes are given back |
| `OutboundEngine.OutboundQueue.Fail` | internal/relay/connection.go:622-671 | once only: afterwards a FATAL frame is last in the queue, or the queue is closed and empty |
| `OutboundEngine.OutboundQueue.Stop` | internal/relay/connection.go:673-696 | stopping empties the queue and gives all bytes back |
| `OutboundEngine.ScanEvicts` | internal/relay/connection.go:504-511 | one pass over the queue drops exactly the shortest run of droppable messages that makes room |
| `AdmissionTheorems.LeasesAreExact` | internal/relay/admission.go:72-135 | over every run, whatever the clock does, the counters are the leases that are out, in total and per source, within every limit |
| `AdmissionTheorems.ActiveIsTheSum` | internal/relay/admission.go:107-108 | the number of active connections is the sum over the sources |
| `AdmissionTheorems.ReleaseAlwaysCounts` | internal/relay/admission.go:125-130 | the guards of a release never stop the release of a lease that is out |
| `AdmissionRates.PassesFitTheWindows` | internal/relay/admission.go:94-102 | over every run, whatever the clock does and whatever is pruned, a source passes no more attempts in an interval than its windows have room for: the limit for each that begins in the interval, one less for each that reaches into it |
| `AdmissionRates.WindowsCanBeFull` | internal/relay/admission.go:94-102 | that room is used up: for any limits the configuration admits and any readings in any order, some run begins the windows of a source at just these readings and passes as many |
| `AdmissionRates.RateIsKeptIffUncrowded` | internal/relay/admission.go:79-102 | the exact condition on the readings: every run that begins the windows of a source at given readings passes at most twice the limit in every interval shorter than a minute, if and only if no three of the readings are a crowd |
| `AdmissionRates.UncrowdedStaysWithinRate` | internal/relay/admission.go:94-102 | under any clock, a source none of whose windows crowd passes at most twice its attempts per minute in every interval shorter than a minute |
| `AdmissionRates.RateIsBounded` | internal/relay/admission.go:94-102 | over every run in which no window of a source begins less than a minute after its last one, less than a minute lets at most twice the attempts per minute of a source pass, whatever is pruned |
| `AdmissionRates.SteadyRunsAreTimely` | internal/relay/admission.go:79-82 | readings that do not decrease in the order of the lock begin no window early |
| `AdmissionRates.OutOfOrderDefeatsTheRate` | internal/relay/admission.go:79-98 | the clock is read before the lock is taken: a run in which three attempts read it in one order and take the lock in the other passes all three where one a minute is allowed |
| `Admission.PruningSpares` | internal/relay/admission.go:112-119 | pruning drops no source with a lease or a running window |
| `AdmissionAnswers.ArrivalIsAnswered` | internal/relay/admission.go:72-110 | over every run, whatever the clock does: an attempt is too fast if and only if its source has used up the running window, and admitted if and only if it has not, the source can be tracked, perhaps by forgetting another, and neither the source nor the relay has all its connections |
| `AdmissionAnswers.PassesAreUsed` | internal/relay/admission.go:94-106 | an attempt that is not too fast uses up one pass of the window, even if it is then turned away |
| `AdmissionAnswers.DepartureForgetsIff` | internal/relay/admission.go:121-135 | over every run a connection that leaves takes the record of its source with it if and only if it is the last and the window is over |
| `AdmissionEngine.AdmissionController.AcquireConnection` | internal/relay/admission.go:72-110 | admission in place |
| `AdmissionEngine.AdmissionController.PruneSources` | internal/relay/admission.go:112-119 | the loop removes exactly the stale sources |
| `AdmissionEngine.AdmissionController.ReleaseConnection` | internal/relay/admission.go:121-135 | release in place |
| `AdmissionEngine.ConnectionLease.Give` | internal/relay/admission.go:33-40 | however often a lease is released, the controller hears of it once |
| `KeyCache.SingleFlight` | internal/auth/key_cache.go:106-139 | over every run exactly one fetch is in flight while the cache refreshes, and none otherwise |
| `KeyCache.FailsClosed` | internal/auth/key_cache.go:153-170 | over every run keys are handed out without error only if they were unexpired at a reading during the call |
| `KeyCache.LatestKeysAreKept` | internal/auth/key_cache.go:140-160 | over every run the keys and the tag are those of the latest key set that came back, and last for the lifetime of the latest success: a 304 renews the lifetime alone, a failure nothing |
| `KeyCache.LatestKeysAreServed` | internal/auth/key_cache.go:88-170 | over every run whoever is handed keys is handed those of the latest key set that had come back then, unexpired at a reading during the call |
| `KeyCache.DecisionIs` | internal/auth/key_cache.go:82-138 | over every run what a call decides, from the history of fetches: served while the keys are fresh unless it is forced and may fetch, waiting while a fetch is under way, refused within a second after the start of a failed one, and otherwise it fetches |
| `KeyCache.FetchesAreBounded` | internal/auth/key_cache.go:131-138 | over every run the fetches starting in an interval number at most one more than its seconds plus one more than its tens of seconds |
| `KeyCache.FetchIsSpaced` | internal/auth/key_cache.go:84-131 | only a forced fetch of fresh keys may follow another by less than a second, and those are ten seconds apart |
| `KeyCacheEngine.SharedKeys.Enter` | internal/auth/key_cache.go:82-138 | the first critical section in place; only the decision to fetch changes the cache |
| `KeyCacheEngine.SharedKeys.Complete` | internal/auth/key_cache.go:142-169 | the second critical section in place; what it serves was unexpired at one of its readings; which keys it keeps is stated by KeyCache.LatestKeysAreKept |
| `Leases.UnavailableForGood` | internal/relay/connection.go:783-787 | over every run under a clock that does not run back, a bootstrapped connection once unavailable stays so |
| `Leases.OnlyABackwardClockRevives` | internal/relay/connection.go:711-723 | a lease past its deadline is in force again at a later reading if and only if a renewal that names it reads the clock before that deadline and brings a later one |
| `Leases.StaleTimerDoesNothing` | internal/relay/connection.go:725-748 | the timer of a replaced or stopped lease never expires a later one |
| `Leases.RenewalGives` | internal/relay/connection.go:711-748 | a renewal in time that names the lease in force makes the connection available exactly until the new deadline, disarms the old timers, and arms its own; any other renewal changes nothing |
| `Leases.LeaseHoldsToItsDeadline` | internal/relay/connection.go:698-787 | over every run, as long as its lease is not replaced, a bootstrapped connection is available if and only if it is active, the clock is before the deadline of that lease, and the lease is not marked expired |
| `Leases.OnlyItsTimerExpires` | internal/relay/connection.go:739-748 | a running lease is marked expired by its own timer and nothing else |
| `Leases.WhatEndsService` | internal/relay/connection.go:783-809 | closing ends the service of a connection, a drain announcement once it is queued, and one that is refused ends nothing |
| `LeaseEngine.LeasedConnection.ActivateInitial` | internal/relay/connection.go:698-709 | the first lease bootstraps the connection or expires it |
| `LeaseEngine.LeasedConnection.Replace` | internal/relay/connection.go:711-737 | a lease is replaced only while it lasts and is the one that was checked |
| `LeaseEngine.LeasedConnection.Expire` | internal/relay/connection.go:739-748 | a timer expires its own lease once |
| `LeaseEngine.LeasedConnection.BeginDraining` | internal/relay/connection.go:795-803 | the announcement is due once, to a connection found active |
| `LeaseEngine.LeasedConnection.FinishDraining` | internal/relay/connection.go:800-808 | the connection drains if the announcement was queued and it is active still |
| `Registry.RunKeepsRegistry` | internal/relay/home.go:33-72 | references, registration and emptiness agree in every registry reached while connections attach before they detach |
| `Registry.ReferencesAreExact` | internal/relay/home.go:33-60 | references count the connections that acquired and have not released, and a held home is the registered one |
| `Registry.PeersShareOneHome` | internal/relay/home.go:33-53 | connections attached under one ID share one home |
| `Registry.NoHomeLeaks` | internal/relay/home.go:62-72 | a registered home that nobody holds has a slot, unless its deletion is due |
| `Registry.HomeIsFoundIff` | internal/relay/home.go:33-53 | over every run a connection finds a home if and only if one is registered under the ID or the registry is not full: the registered one, or else a new and empty one |
| `Registry.RegistryFits` | internal/relay/home.go:41-43 | over every run no more homes are registered than the configuration admits |
| `Registry.GivenBackIsDeletedIff` | internal/relay/home.go:55-72 | over every run giving back a reference deletes the home if and only if nobody else refers to it and it has no slot |
| `Registry.DeletedIffUnused` | internal/relay/home.go:62-72 | a registered home survives an attempt to delete it if and only if somebody refers to it or it has a slot |
| `Registry.AttachKeepsIffHolding` | internal/relay/connection.go:773-781 | a connection that has found its home keeps the registry sound by attaching if and only if it still holds the home |
| `Registry.RaceDeletes` | internal/relay/connection.go:244-253 | a connection that fails between its active phase and its attachment gives its home back |
| `Registry.RaceSplitsAHome` | internal/relay/connection.go:795-806 | attaching all the same leaves two homes under one ID, one of them held by nobody |
| `RegistryEngine.HomeRegistry.Acquire` | internal/relay/home.go:33-53 | acquisition in place |
| `RegistryEngine.HomeRegistry.Release` | internal/relay/home.go:55-60 | release in place |
| `RegistryEngine.HomeRegistry.DeleteIfUnused` | internal/relay/home.go:62-72 | deletion in place |

## Left out

- WebSocket reads and writes, the HTTP handler, origin and subprotocol checks, the ping loop and logging: plumbing
  around the engine.
- The frame codec and the token verifier are external modules and not part of this model; encodability is a predicate.
- HOME_STATUS frames are sent as frames without content: what they say depends on the clock at the time of sending.
- The content of events, call arguments and call results, and the sort order of dictionary and snapshot entries.
- Request identifiers and the claiming of event identifiers: single membership checks.
- Closing a home, the registry or the server: owner maps are abandoned there, and the invariants are those of open homes.
- The fetch of the key document, its cache headers and its JSON: the fetch is an oracle that fails, answers 304, or
  brings a non-empty key set, with a lifetime of at least a second.
- Whether the dispatch of a call and a forwarded result or error encode is an input, as is whether a deadline lies
  ahead when a call is dispatched.
- Revisions, policies, dictionary counters, generations and session IDs are unbounded integers; only the call counter
  goes round.
- Connections, coordinator slots and call routes are values in maps and sequences of the class that owns them, named by
  session, slot name and route number, instead of shared mutable objects: aliasing between two holders of one object
  is expressed by the shared name.
- The frames a departing connection's calls cause are handed out while its table is visited, not collected first; they
  are the same frames in the same order, all under one lock.
- The outcome of queueing a call's frames is read from the queues before the frames are handed over in the same critical
  section, and the frames are handed over at its end, in the order in which the code sends them.
- A drain announcement that fails to be queued is an input of the step that ends the drain.
- CallTheorems.LateResultMatchesNoOther: holds only until the callee's counter goes round, because afterwards the code
  gives IDs a second time.
- Registry.RunKeepsRegistry: covers the runs in which every connection attaches before it detaches; the other runs are
  the subject of Registry.AttachKeepsIffHolding and Registry.RaceSplitsAHome.
- AdmissionRates.RateIsBounded: assumes that no window of a source begins early, because readings out of the order of
  the lock can defeat the bound; AdmissionRates.RateIsKeptIffUncrowded says which do.
