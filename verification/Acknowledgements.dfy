/**
 What the IDs of a STATE_SYNC_OK are worth: a coordinator owns the paths it activated with and they keep
 the IDs it was told, for as long as it is the ready connection of its slot. So mutations by those IDs
 keep every replica in step.
 */
module Acknowledgements {
  import opened Basics
  import opened Catalogs
  import opened CatalogProofs
  import opened Views
  import opened HomeModel
  import opened Replicas
  import opened Invariants
  import opened HomeTheorems
  import opened HomeHistory

  /** One step of a labelled run: who acts, and how. */
  datatype Move = Move(actor: Session, deed: Label)

  ghost predicate Moves(h: Home, m: Move, env: Env, h': Home) {
    h.users <= h.peers.Keys && Enabled(h, m.actor, m.deed) && h' == Step(h, m.actor, m.deed, env)
  }

  ghost predicate MovesTo(hs: seq<Home>, es: seq<Move>, env: Env, i: int)
    requires 0 <= i < |es| && |hs| == |es| + 1
  {
    Moves(hs[i], es[i], env, hs[i + 1])
  }

  /** A run together with its steps. */
  ghost predicate RunWith(hs: seq<Home>, es: seq<Move>, env: Env) {
    && |hs| == |es| + 1
    && (exists epoch :: hs[0] == NewHome(epoch))
    && (forall i :: 0 <= i < |es| ==> MovesTo(hs, es, env, i))
  }

  lemma RunWithIsRun(hs: seq<Home>, es: seq<Move>, env: Env)
    requires RunWith(hs, es, env)
    ensures RunFromStart(hs, env)
  {
    forall i | 0 < i < |hs| ensures StepsTo(hs, env, i) {
      assert MovesTo(hs, es, env, i - 1);
    }
  }

  /** The step is a declaration by `s` that becomes active. */
  ghost predicate Activates(h: Home, m: Move, env: Env, s: Session) {
    && m.actor == s && m.deed.LSyncFunctions? && s in h.peers && h.users <= h.peers.Keys
    && SyncFunctions(h, s, m.deed.functions, m.deed.functionIDs, env.limits, env.enc).1 == Ok
  }

  /** The path IDs of the STATE_SYNC_OK with which `s` last activated, by home `i`. */
  ghost function Acknowledged(hs: seq<Home>, es: seq<Move>, env: Env, i: int, s: Session): map<string, int>
    requires |hs| == |es| + 1 && 0 <= i < |hs|
  {
    if i == 0 then map[]
    else if Activates(hs[i - 1], es[i - 1], env, s) then hs[i - 1].peers[s].stage.value.pathIDs
    else Acknowledged(hs, es, env, i - 1, s)
  }

  /** While `s` is the ready connection of its slot, the slot owns these paths under these IDs. */
  ghost predicate Keeps(h: Home, s: Session, ids: map<string, int>) {
    s in h.peers && Current(h, s) && h.slots[h.peers[s].name].ready ==>
      forall path :: path in ids ==>
        && Owns(h, h.peers[s].name, path)
        && path in h.catalog.paths.byName && h.catalog.paths.byName[path] == ids[path]
  }

  // ---------- one step ----------

  /** Whoever is the ready connection of its slot after a step was it before, unless it has just activated. */
  lemma WasReady(h: Home, m: Move, env: Env, s: Session)
    requires h.users <= h.peers.Keys && SlotsOK(h) && Enabled(h, m.actor, m.deed) && !Activates(h, m, env, s)
    requires var h' := Step(h, m.actor, m.deed, env); s in h'.peers && Current(h', s) && h'.slots[h'.peers[s].name].ready
    ensures s in h.peers && Current(h, s) && h.slots[h.peers[s].name].ready
    ensures Step(h, m.actor, m.deed, env).peers[s].name == h.peers[s].name
  {
    var h' := Step(h, m.actor, m.deed, env);
    var name := h'.peers[s].name;
    StepRenewed(h, m.actor, m.deed, env);
    if m.deed.LAttach? && m.actor == s {
      AttachedIsNotReady(h, s, m.deed.p, m.deed.leaseValid, env);
    } else if m.deed.LSyncFunctions? {
      OthersReady(h, m.actor, m.deed.functions, m.deed.functionIDs, env, s, name);
    } else {
      OtherSlots(h, m.actor, m.deed, env, name);
    }
  }

  lemma AttachedIsNotReady(h: Home, s: Session, p: Peer, leaseValid: bool, env: Env)
    requires h.users <= h.peers.Keys && s !in h.peers && SlotsOK(h)
    ensures var h' := Attach(h, s, p, leaseValid, env.limits, env.enc).0;
            s in h'.peers && Current(h', s) ==> !h'.slots[h'.peers[s].name].ready
  {
    var h' := Attach(h, s, p, leaseValid, env.limits, env.enc).0;
    assert forall name :: name in h.slots ==> Linked(name, h.slots[name], h.peers, h.connections);
    if p.role == Coordinator {
      var generation := (if p.name in h.slots then h.slots[p.name].generation else 0) + 1;
      EnqueueAllKeepsNames(p.(generation := generation), [Welcome, PresenceSnapshot(SessionsOf(h))]);
    } else {
      assert h'.slots == h.slots;
    }
  }

  lemma OthersReady(h: Home, t: Session, functions: set<string>, ids: map<string, int>, env: Env, s: Session, name: string)
    requires h.users <= h.peers.Keys && t in h.peers && name in h.slots
    requires !Activates(h, Move(t, LSyncFunctions(functions, ids)), env, s)
    requires var h' := SyncFunctions(h, t, functions, ids, env.limits, env.enc).0;
             name in h'.slots && h'.slots[name].ready && h'.slots[name].connection == Some(s)
    ensures h.slots[name].ready
  {
  }

  lemma OtherSlots(h: Home, t: Session, l: Label, env: Env, name: string)
    requires h.users <= h.peers.Keys && Enabled(h, t, l) && !l.LSyncFunctions?
    requires name in h.slots && name in Step(h, t, l, env).slots && Step(h, t, l, env).slots[name].ready
    ensures h.slots[name].ready
  {
    if Plain(l) {
      PlainSteps(h, t, l, env);
    }
  }

  /** A slot that stays connected and ready loses no path unless it activates itself. */
  lemma OwnershipStays(h: Home, m: Move, env: Env, s: Session, path: string)
    requires Inv(h, env) && Enabled(h, m.actor, m.deed) && !Activates(h, m, env, s)
    requires s in h.peers && Current(h, s) && Owns(h, h.peers[s].name, path)
    requires var h' := Step(h, m.actor, m.deed, env);
             s in h'.peers && Current(h', s) && h'.peers[s].name == h.peers[s].name
    ensures Owns(Step(h, m.actor, m.deed, env), h.peers[s].name, path)
  {
    var name := h.peers[s].name;
    match m.deed {
      case LSyncFunctions(functions, ids) => DeclaredElsewhere(h, m.actor, functions, ids, env, s, path);
      case LExpire(gone, generation) => ExpiredElsewhere(h, gone, generation, name, path);
      case _ => OwnersStay(h, m.actor, m.deed, env);
    }
  }

  lemma OwnersStay(h: Home, t: Session, l: Label, env: Env)
    requires h.users <= h.peers.Keys && Enabled(h, t, l) && !l.LSyncFunctions? && !l.LExpire?
    ensures Step(h, t, l, env).catalog.stateOwners == h.catalog.stateOwners
  {
    if Plain(l) {
      PlainSteps(h, t, l, env);
    }
  }

  lemma ExpiredElsewhere(h: Home, gone: string, generation: int, name: string, path: string)
    requires OwnersInv(Path, h.catalog.stateOwners, h.catalog.configs)
    requires Owns(h, name, path) && name in Expire(h, gone, generation).slots
    ensures Owns(Expire(h, gone, generation), name, path)
  {
  }

  lemma DeclaredElsewhere(h: Home, t: Session, functions: set<string>, ids: map<string, int>, env: Env, s: Session, path: string)
    requires Inv(h, env) && t in h.peers && !Activates(h, Move(t, LSyncFunctions(functions, ids)), env, s)
    requires s in h.peers && Current(h, s) && Owns(h, h.peers[s].name, path)
    ensures Owns(SyncFunctions(h, t, functions, ids, env.limits, env.enc).0, h.peers[s].name, path)
  {
    CommitResult(h, t, functions, ids, env);
    var c' := SyncFunctions(h, t, functions, ids, env.limits, env.enc).0.catalog;
    if c' != h.catalog {
      OnlyAcceptedCommits(h, t, functions, ids, env);
      assert h.peers[t].name != h.peers[s].name;
      ReownElsewhere(h.catalog, h.peers[t].name, h.peers[t].stage.value.state.Keys, h.peers[s].name, path);
    }
  }

  lemma OnlyAcceptedCommits(h: Home, t: Session, functions: set<string>, ids: map<string, int>, env: Env)
    requires h.users <= h.peers.Keys && t in h.peers
    requires SyncFunctions(h, t, functions, ids, env.limits, env.enc).0.catalog != h.catalog
    ensures SyncFunctions(h, t, functions, ids, env.limits, env.enc).1 == Ok
  {
  }

  lemma ReownElsewhere(c: Catalog, other: string, claimed: set<string>, name: string, path: string)
    requires OwnersInv(Path, c.stateOwners, c.configs) && Free(c.stateOwners, claimed, other)
    requires path in c.stateOwners && c.stateOwners[path] == name && name != other
    ensures var owners := Reown(c.stateOwners, Owned(Path, c.configs, other), claimed, other);
            path in owners && owners[path] == name
  {
  }

  /** A name the dictionary binds stays bound. */
  lemma NamesStayBound(h: Home, t: Session, l: Label, env: Env, path: string)
    requires h.users <= h.peers.Keys && Enabled(h, t, l) && path in h.catalog.paths.byName
    ensures path in Step(h, t, l, env).catalog.paths.byName
  {
    if l.LSyncFunctions? {
      CommitResult(h, t, l.functions, l.functionIDs, env);
    } else {
      OthersKeepNames(h, t, l, env);
    }
  }

  lemma StepKeepsAcknowledged(h: Home, m: Move, env: Env, s: Session, ids: map<string, int>)
    requires Inv(h, env) && Enabled(h, m.actor, m.deed) && !Activates(h, m, env, s)
    requires Keeps(h, s, ids)
    ensures Keeps(Step(h, m.actor, m.deed, env), s, ids)
  {
    var h' := Step(h, m.actor, m.deed, env);
    if s in h'.peers && Current(h', s) && h'.slots[h'.peers[s].name].ready {
      WasReady(h, m, env, s);
      forall path | path in ids
        ensures Owns(h', h'.peers[s].name, path) && path in h'.catalog.paths.byName && h'.catalog.paths.byName[path] == ids[path]
      {
        OwnershipStays(h, m, env, s, path);
        NamesStayBound(h, m.actor, m.deed, env, path);
        StepKeepsOwnIds(h, m.actor, m.deed, env, h.peers[s].name, path);
      }
    }
  }

  /** An activation acknowledges what it binds. */
  lemma ActivationAcknowledges(h: Home, s: Session, functions: set<string>, ids: map<string, int>, env: Env)
    requires Inv(h, env) && s in h.peers
    requires SyncFunctions(h, s, functions, ids, env.limits, env.enc).1 == Ok
    ensures h.peers[s].stage.Some?
    ensures Keeps(SyncFunctions(h, s, functions, ids, env.limits, env.enc).0, s, h.peers[s].stage.value.pathIDs)
  {
    var h' := SyncFunctions(h, s, functions, ids, env.limits, env.enc).0;
    var p := h.peers[s];
    var d := DeclarationOf(p.stage.value, functions, ids);
    CommitRenewed(h, s, functions, ids, env);
    assert StageShaped(p.stage.value);
    assert h'.catalog == Activate(h.catalog, p.name, d);
    BoundByActivation(h.catalog, p.name, d);
  }

  lemma BoundByActivation(c: Catalog, slot: string, d: Declaration)
    requires d.config.state.Keys == d.pathIDs.Keys
    ensures var c' := Activate(c, slot, d);
            forall path :: path in d.pathIDs ==>
              && path in c'.stateOwners && c'.stateOwners[path] == slot
              && path in c'.paths.byName && c'.paths.byName[path] == d.pathIDs[path]
  {
  }

  // ---------- runs ----------

  lemma MoveAcknowledges(h: Home, m: Move, env: Env, h': Home, s: Session, ids: map<string, int>, ids': map<string, int>)
    requires Inv(h, env) && Moves(h, m, env, h') && Keeps(h, s, ids)
    requires if Activates(h, m, env, s) then h.peers[s].stage.Some? && ids' == h.peers[s].stage.value.pathIDs else ids' == ids
    ensures Keeps(h', s, ids')
  {
    if Activates(h, m, env, s) {
      ActivationAcknowledges(h, s, m.deed.functions, m.deed.functionIDs, env);
    } else {
      StepKeepsAcknowledged(h, m, env, s, ids);
    }
  }

  lemma ActivatesStaged(h: Home, m: Move, env: Env, s: Session)
    requires Activates(h, m, env, s)
    ensures h.peers[s].stage.Some?
  {
  }

  lemma NextAcknowledged(hs: seq<Home>, es: seq<Move>, env: Env, i: int, s: Session)
    requires |hs| == |es| + 1 && 0 < i < |hs| && Inv(hs[i - 1], env) && MovesTo(hs, es, env, i - 1)
    requires Keeps(hs[i - 1], s, Acknowledged(hs, es, env, i - 1, s))
    ensures Keeps(hs[i], s, Acknowledged(hs, es, env, i, s))
  {
    var h, m := hs[i - 1], es[i - 1];
    var ids := Acknowledged(hs, es, env, i - 1, s);
    if Activates(h, m, env, s) {
      ActivatesStaged(h, m, env, s);
      MoveAcknowledges(h, m, env, hs[i], s, ids, h.peers[s].stage.value.pathIDs);
    } else {
      MoveAcknowledges(h, m, env, hs[i], s, ids, ids);
    }
  }

  lemma NothingAcknowledged(h: Home, s: Session)
    ensures Keeps(h, s, map[])
  {
  }

  lemma ReachedHome(hs: seq<Home>, es: seq<Move>, env: Env, i: int)
    requires EnvOK(env) && RunWith(hs, es, env) && 0 <= i < |hs|
    ensures Inv(hs[i], env)
    ensures i < |es| ==> MovesTo(hs, es, env, i)
  {
    RunWithIsRun(hs, es, env);
    RunKeepsInvariant(hs, env, i);
  }

  lemma NextInRun(hs: seq<Home>, es: seq<Move>, env: Env, i: int, s: Session)
    requires EnvOK(env) && RunWith(hs, es, env) && 0 < i < |hs|
    requires Keeps(hs[i - 1], s, Acknowledged(hs, es, env, i - 1, s))
    ensures Keeps(hs[i], s, Acknowledged(hs, es, env, i, s))
  {
    ReachedHome(hs, es, env, i - 1);
    NextAcknowledged(hs, es, env, i, s);
  }

  lemma {:induction false} RunKeepsAcknowledged(hs: seq<Home>, es: seq<Move>, env: Env, i: int, s: Session)
    requires EnvOK(env) && RunWith(hs, es, env) && 0 <= i < |hs|
    ensures Keeps(hs[i], s, Acknowledged(hs, es, env, i, s))
    decreases i
  {
    if i == 0 {
      NothingAcknowledged(hs[0], s);
    } else {
      RunKeepsAcknowledged(hs, es, env, i - 1, s);
      NextInRun(hs, es, env, i, s);
    }
  }

  /**
   The IDs of the STATE_SYNC_OK a coordinator last activated with name paths it owns, canonically, for as
   long as it is the ready connection of its slot.
   */
  lemma AcknowledgedIdsAreCanonical(hs: seq<Home>, es: seq<Move>, env: Env, i: int, s: Session, m: Mutation)
    requires EnvOK(env) && RunWith(hs, es, env) && 0 <= i < |hs|
    requires s in hs[i].peers && Current(hs[i], s) && hs[i].slots[hs[i].peers[s].name].ready
    requires m.pathID in Acknowledged(hs, es, env, i, s).Values
    ensures Canonical(hs[i].catalog.paths, m)
    ensures Owns(hs[i], hs[i].peers[s].name, NameOf(hs[i].catalog.paths.byID, m.pathID))
  {
    RunKeepsAcknowledged(hs, es, env, i, s);
    RunWithIsRun(hs, es, env);
    RunKeepsInvariant(hs, env, i);
    var ids := Acknowledged(hs, es, env, i, s);
    var path :| path in ids && ids[path] == m.pathID;
    assert hs[i].catalog.paths.byID[hs[i].catalog.paths.byName[path]] == path;
  }

  /** Every accepted mutation of step `i` uses IDs the sender last activated with. */
  ghost predicate OwnIDs(hs: seq<Home>, es: seq<Move>, env: Env, i: int)
    requires |hs| == |es| + 1 && 0 <= i < |es|
  {
    es[i].deed.LSetState? && es[i].actor in hs[i].peers && hs[i].users <= hs[i].peers.Keys
    && SetState(hs[i], es[i].actor, es[i].deed.epoch, es[i].deed.ms, env.enc).1 == Ok ==>
      forall k :: 0 <= k < |es[i].deed.ms| ==> es[i].deed.ms[k].pathID in Acknowledged(hs, es, env, i, es[i].actor).Values
  }

  lemma OwnIDsAreCanonical(hs: seq<Home>, es: seq<Move>, env: Env, i: int)
    requires EnvOK(env) && RunWith(hs, es, env) && 0 <= i < |es| && OwnIDs(hs, es, env, i)
    requires hs[i].users <= hs[i].peers.Keys && Enabled(hs[i], es[i].actor, es[i].deed)
    ensures CanonicalStep(hs[i], es[i].actor, es[i].deed, env)
  {
    var s, l := es[i].actor, es[i].deed;
    if l.LSetState? && SetState(hs[i], s, l.epoch, l.ms, env.enc).1 == Ok {
      forall k | 0 <= k < |l.ms| ensures Canonical(hs[i].catalog.paths, l.ms[k]) {
        AcknowledgedIdsAreCanonical(hs, es, env, i, s, l.ms[k]);
      }
    }
  }

  lemma OwnRunsAreCanonical(hs: seq<Home>, es: seq<Move>, env: Env)
    requires EnvOK(env) && RunWith(hs, es, env) && forall k :: 0 <= k < |es| ==> OwnIDs(hs, es, env, k)
    ensures CanonicalRun(hs, env)
  {
    forall j | 0 < j < |hs| ensures CanonicalStepsTo(hs, env, j) {
      ReachedHome(hs, es, env, j - 1);
      OwnIDsAreCanonical(hs, es, env, j - 1);
      MoveIsCanonical(hs[j - 1], es[j - 1], env, hs[j]);
    }
  }

  lemma MoveIsCanonical(h: Home, m: Move, env: Env, h': Home)
    requires Moves(h, m, env, h') && CanonicalStep(h, m.actor, m.deed, env)
    ensures CanonicalSteps(h, h', env)
  {
  }

  /**
   Replica convergence: if coordinators mutate by the IDs of their own STATE_SYNC_OK, then in every
   reachable home the frames enqueued to an available user never contained a patch from a wrong base, and
   replaying them yields its exact visible state at its last revision together with the current path,
   topic and function dictionaries. Frames the relay refuses may name anything.
   */
  lemma ReplicasConverge(hs: seq<Home>, es: seq<Move>, env: Env, i: int)
    requires EnvOK(env) && RunWith(hs, es, env) && 0 <= i < |hs|
    requires forall k :: 0 <= k < |es| ==> OwnIDs(hs, es, env, k)
    ensures forall u :: u in hs[i].users && u in hs[i].peers && Available(hs[i].peers[u]) ==>
      Replay(hs[i].peers[u].log) == ViewOf(hs[i].catalog, hs[i].peers[u])
  {
    OwnRunsAreCanonical(hs, es, env);
    CanonicalRunsConverge(hs, env, i);
  }
}
