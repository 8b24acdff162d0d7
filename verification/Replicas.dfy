/** What clients reconstruct from the frames enqueued to them. */
module Replicas {
  import opened Basics
  import opened Catalogs
  import opened Views
  import opened HomeModel

  /** A user's replica: `inStep` falls for good at a patch that does not start where the replica is. */
  datatype Replica = Replica(
    inStep: bool,
    revision: int,
    state: set<(int, Value)>,
    paths: set<(int, string)>,
    topics: set<(int, string)>,
    functions: set<(int, string)>)

  ghost function Apply(r: Replica, f: Frame): Replica {
    match f
    case StateDict(paths) => r.(paths := paths)
    case StateSnapshot(revision, entries) => r.(revision := revision, state := entries)
    case StatePatch(base, next, ms) =>
      if base == r.revision then r.(revision := next, state := PatchAll(r.state, ms)) else r.(inStep := false)
    case TopicDict(topics) => r.(topics := topics)
    case FunctionDict(functions) => r.(functions := functions)
    case _ => r
  }

  ghost function Replay(log: seq<Frame>): Replica {
    if log == [] then Replica(true, 0, {}, {}, {}, {}) else Apply(Replay(log[..|log| - 1]), log[|log| - 1])
  }

  /** A coordinator's view of who is present. */
  ghost function ApplyPresence(view: set<(int, string)>, f: Frame): set<(int, string)> {
    match f
    case PresenceSnapshot(sessions) => sessions
    case PresenceChange(session, user, event) =>
      if event == 1 then view + {(session, user)} else set e | e in view && e.0 != session
    case _ => view
  }

  ghost function PresenceView(log: seq<Frame>): set<(int, string)> {
    if log == [] then {} else ApplyPresence(PresenceView(log[..|log| - 1]), log[|log| - 1])
  }

  predicate Neutral(f: Frame) {
    f.Welcome? || f.StateSyncOK? || f.EventSyncOK? || f.FunctionSyncOK? || f.StateSetOK? || f.Other?
  }

  /** The replica is the user's complete current view, at the revision the relay believes it to be. */
  ghost function ViewOf(c: Catalog, p: Peer): Replica {
    Replica(true, p.lastStateRevision, StateEntries(c, p.user), PathEntries(c, p.user), TopicEntries(c, p.user), FunctionEntries(c))
  }

  ghost predicate Replicated(c: Catalog, p: Peer) {
    Replay(p.log) == ViewOf(c, p)
  }

  lemma ReplayOneMore(log: seq<Frame>, f: Frame)
    ensures Replay(log + [f]) == Apply(Replay(log), f)
    ensures PresenceView(log + [f]) == ApplyPresence(PresenceView(log), f)
  {
    assert (log + [f])[..|log + [f]| - 1] == log;
  }

  /** Everything but the log, the room and the two flags survives sending, and the flags only fall. */
  predicate OnlySent(p: Peer, p': Peer) {
    && p' == p.(live := p'.live, open := p'.open, room := p'.room, log := p'.log)
    && (p'.live ==> p.live)
    && (p'.open ==> p.open)
    && p.log <= p'.log
  }

  /** A connection that is still open received every frame, in order. */
  lemma {:induction false} EnqueueAllSends(p: Peer, fs: seq<Frame>)
    requires p.live ==> p.open
    ensures var p' := EnqueueAll(p, fs);
            && OnlySent(p, p')
            && (p'.live ==> p'.open)
            && (p'.open ==> p'.log == p.log + fs)
            && (!p.open ==> p'.log == p.log)
    decreases |fs|
  {
    if fs != [] {
      EnqueueAllSends(Enqueue(p, fs[0]), fs[1..]);
      assert fs == [fs[0]] + fs[1..];
      assert p.log + fs == (p.log + [fs[0]]) + fs[1..];
    }
  }

  /** A failed bootstrap sends a prefix of its frames. */
  lemma {:induction false} EnqueueAllPrefix(p: Peer, fs: seq<Frame>)
    ensures EnqueueAll(p, fs).log <= p.log + fs
    decreases |fs|
  {
    if fs != [] {
      var p' := Enqueue(p, fs[0]);
      EnqueueAllPrefix(p', fs[1..]);
      assert fs == [fs[0]] + fs[1..];
      assert (p.log + [fs[0]]) + fs[1..] == p.log + fs;
      if !Accepts(p) {
        EnqueueAllClosed(p', fs[1..]);
      }
    }
  }

  lemma {:induction false} EnqueueAllClosed(p: Peer, fs: seq<Frame>)
    requires !p.open
    ensures EnqueueAll(p, fs).log == p.log
    decreases |fs|
  {
    if fs != [] {
      EnqueueAllClosed(Enqueue(p, fs[0]), fs[1..]);
    }
  }

  lemma {:induction false} ReplayRecovery(c: Catalog, user: string, log: seq<Frame>)
    ensures Replay(log + RecoveryFrames(c, user))
            == Replica(Replay(log).inStep, c.revision, StateEntries(c, user), PathEntries(c, user), TopicEntries(c, user), FunctionEntries(c))
  {
    var fs := RecoveryFrames(c, user);
    var l1 := log + [fs[0]];
    var l2 := l1 + [fs[1]];
    var l3 := l2 + [fs[2]];
    ReplayOneMore(log, fs[0]);
    ReplayOneMore(l1, fs[1]);
    ReplayOneMore(l2, fs[2]);
    ReplayOneMore(l3, fs[3]);
    assert log + fs == l3 + [fs[3]];
  }

  /** A complete view brings any replica that never missed a patch into step. */
  lemma RefreshedIsReplicated(c: Catalog, p: Peer)
    requires p.live ==> p.open
    requires Available(p) ==> Replay(p.log).inStep
    ensures var p' := Refreshed(c, Pruned(c, p));
            && OnlySent(Pruned(c, p).(lastStateRevision := p'.lastStateRevision), p')
            && (p'.live ==> p'.open)
            && (Available(p') ==> Replicated(c, p'))
  {
    if Available(p) {
      var start := Pruned(c, p).(lastStateRevision := c.revision);
      EnqueueAllSends(start, RecoveryFrames(c, p.user));
      ReplayRecovery(c, p.user, p.log);
    }
  }

  lemma AcceptedPatch(c: Catalog, next: int, slot: string, p: Peer, ms: seq<Mutation>, enc: Frame -> bool)
    requires NamesInv(c.paths, next)
    requires c.state.Keys <= c.paths.byName.Keys
    requires slot in c.configs
    requires AllCanonical(c.paths, ms)
    requires p.live ==> p.open
    requires p.lastStateRevision >= 1
    requires Replicated(c, p)
    requires Available(Patched(c, p, ms, enc))
    ensures Replicated(Mutate(c, slot, ms), Patched(c, p, ms, enc))
  {
    var m := Mutate(c, slot, ms);
    SightIgnoresState(c, slot, ms, p.user);
    PatchMatches(c, next, p.user, c.state, ms);
    var p' := Patched(c, p, ms, enc);
    if VisibleMutations(c, p.user, ms) != [] {
      ReplayOneMore(p.log, PatchFor(c, p, ms, enc));
      assert p'.log == p.log + [PatchFor(c, p, ms, enc)];
    }
  }

  /** Mutations change values, not who sees what. */
  lemma SightIgnoresState(c: Catalog, slot: string, ms: seq<Mutation>, user: string)
    requires slot in c.configs
    ensures var m := Mutate(c, slot, ms);
            && StateEntries(m, user) == StateEntries(Preview(c, ms), user) == EntriesOf(m.state, c, user)
            && PathEntries(m, user) == PathEntries(c, user) == PathEntries(Preview(c, ms), user)
            && TopicEntries(m, user) == TopicEntries(c, user) == TopicEntries(Preview(c, ms), user)
            && FunctionEntries(m) == FunctionEntries(c) == FunctionEntries(Preview(c, ms))
  {
    var m := Mutate(c, slot, ms);
    assert PolicyOf(m.configs) == PolicyOf(c.configs);
    PolicyDecidesSight(m.configs, c.configs, user);
  }
}
