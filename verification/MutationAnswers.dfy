/** When the home accepts a mutation, what it then writes, and what every user is told of it. */
module MutationAnswers {
  import opened Basics
  import opened Catalogs
  import opened CatalogProofs
  import opened Views
  import opened HomeModel
  import opened Replicas
  import opened Invariants
  import opened HomeTheorems
  import opened Events
  import opened Answers

  // ---------- acceptance ----------

  /** The ID names a path that the active configuration of the slot declares. */
  predicate NamesDeclared(c: Catalog, slot: string, id: int) {
    && id in c.paths.byID && c.paths.byID[id] != ""
    && slot in c.configs && c.paths.byID[id] in c.configs[slot].ownedState
  }

  lemma OwnsIffDeclared(c: Catalog, slot: string, ms: seq<Mutation>)
    requires OwnersInv(Path, c.stateOwners, c.configs) && slot in c.configs
    ensures OwnsPaths(c, slot, ms) <==> forall i :: 0 <= i < |ms| ==> NamesDeclared(c, slot, ms[i].pathID)
  {
    forall i | 0 <= i < |ms| && NamesDeclared(c, slot, ms[i].pathID)
      ensures var path := NameOf(c.paths.byID, ms[i].pathID);
              path != "" && path in c.stateOwners && c.stateOwners[path] == slot && path in Owned(Path, c.configs, slot)
    {
    }
    forall i | 0 <= i < |ms| && OwnsPaths(c, slot, ms) ensures NamesDeclared(c, slot, ms[i].pathID) {
      assert NameOf(c.paths.byID, ms[i].pathID) != "";
    }
  }

  lemma PreviewIsRecoverable(c: Catalog, slot: string, ms: seq<Mutation>, enc: Frame -> bool)
    requires slot in c.configs
    ensures Recoverable(Preview(c, ms), enc) <==> Recoverable(Mutate(c, slot, ms), enc)
  {
    forall user ensures RecoverableFor(Preview(c, ms), user, enc) <==> RecoverableFor(Mutate(c, slot, ms), user, enc) {
      SightIgnoresState(c, slot, ms, user);
    }
    SightIgnoresState(c, slot, ms, "");
  }

  /**
   A mutation is accepted exactly if it comes from the ready connection of a slot, names the epoch of the home,
   names only paths the slot declares, leads to a catalogue every user could be sent whole, and its answer fits.
   */
  lemma MutationAcceptedIff(h: Home, s: Session, epoch: int, ms: seq<Mutation>, env: Env)
    requires Inv(h, env) && EnvOK(env) && s in h.peers
    ensures SetState(h, s, epoch, ms, env.enc).1 == Ok
            <==> && Acting(h, s) && epoch == h.epoch
                 && (forall i :: 0 <= i < |ms| ==> NamesDeclared(h.catalog, h.peers[s].name, ms[i].pathID))
                 && Recoverable(Mutate(h.catalog, h.peers[s].name, ms), env.enc) && Accepts(h.peers[s])
  {
    var name := h.peers[s].name;
    if Acting(h, s) {
      OwnsIffDeclared(h.catalog, name, ms);
      RequiredIffRecoverable(Preview(h.catalog, ms), ConnectedIDs(h), env.enc);
      PreviewIsRecoverable(h.catalog, name, ms, env.enc);
    }
  }

  /** A mutation that names another epoch is refused for that, whoever among the coordinators sends it, and changes nothing. */
  lemma StaleEpochIsRefused(h: Home, s: Session, epoch: int, ms: seq<Mutation>, env: Env)
    requires s in h.peers && h.users <= h.peers.Keys && h.peers[s].role == Coordinator && epoch != h.epoch
    ensures SetState(h, s, epoch, ms, env.enc) == (h, Refused(STALE_EPOCH, true))
  {
  }

  /** Only coordinators mutate, and a path that is not declared is refused as such to the ready connection of a slot. */
  lemma ForeignPathIsRefused(h: Home, s: Session, ms: seq<Mutation>, env: Env)
    requires Inv(h, env) && s in h.peers
    ensures h.peers[s].role != Coordinator ==> SetState(h, s, h.epoch, ms, env.enc) == (h, Refused(WRONG_DIRECTION, false))
    ensures Acting(h, s) && (exists i :: 0 <= i < |ms| && !NamesDeclared(h.catalog, h.peers[s].name, ms[i].pathID)) ==>
              SetState(h, s, h.epoch, ms, env.enc) == (h, Refused(NOT_DECLARED, false))
  {
    if Acting(h, s) {
      OwnsIffDeclared(h.catalog, h.peers[s].name, ms);
    }
  }

  // ---------- what is written ----------

  /** The last mutation of a batch that names a path, if any does. */
  ghost predicate IsLast(byID: map<int, string>, ms: seq<Mutation>, path: string, k: int) {
    && 0 <= k < |ms| && NameOf(byID, ms[k].pathID) == path
    && forall j :: k < j < |ms| ==> NameOf(byID, ms[j].pathID) != path
  }

  /** A path that no mutation of a batch names is left alone ... */
  lemma {:induction false} UnnamedIsLeftAlone(state: map<string, Value>, byID: map<int, string>, ms: seq<Mutation>, path: string)
    requires forall k :: 0 <= k < |ms| ==> NameOf(byID, ms[k].pathID) != path
    ensures path in WriteAll(state, byID, ms) <==> path in state
    ensures path in state ==> WriteAll(state, byID, ms)[path] == state[path]
  {
    if ms != [] {
      UnnamedIsLeftAlone(state, byID, ms[..|ms| - 1], path);
    }
  }

  /** ... and otherwise the last word stands: a value, or a deletion. */
  lemma {:induction false} LastWriteStands(state: map<string, Value>, byID: map<int, string>, ms: seq<Mutation>, path: string, k: int)
    requires IsLast(byID, ms, path, k)
    ensures path in WriteAll(state, byID, ms) <==> !ms[k].remove
    ensures !ms[k].remove ==> WriteAll(state, byID, ms)[path] == ms[k].value
  {
    if k < |ms| - 1 {
      LastWriteStands(state, byID, ms[..|ms| - 1], path, k);
    }
  }

  /** An accepted mutation writes the state of the home and of its slot so, one revision later, and nothing else of the catalogue. */
  lemma MutationWrites(h: Home, s: Session, epoch: int, ms: seq<Mutation>, env: Env, path: string)
    requires s in h.peers && h.users <= h.peers.Keys && SetState(h, s, epoch, ms, env.enc).1 == Ok
    ensures var c, c' := h.catalog, SetState(h, s, epoch, ms, env.enc).0.catalog;
            && c'.revision == c.revision + 1
            && c' == c.(revision := c'.revision, state := c'.state, configs := c'.configs)
            && ((forall k :: 0 <= k < |ms| ==> NameOf(c.paths.byID, ms[k].pathID) != path) ==>
                  (path in c'.state <==> path in c.state) && (path in c.state ==> c'.state[path] == c.state[path]))
            && (forall k :: IsLast(c.paths.byID, ms, path, k) ==>
                  (path in c'.state <==> !ms[k].remove) && (!ms[k].remove ==> c'.state[path] == ms[k].value))
  {
    AcceptedMutates(h, s, epoch, ms, env);
    if forall k :: 0 <= k < |ms| ==> NameOf(h.catalog.paths.byID, ms[k].pathID) != path {
      UnnamedIsLeftAlone(h.catalog.state, h.catalog.paths.byID, ms, path);
    }
    forall k | IsLast(h.catalog.paths.byID, ms, path, k)
      ensures var after := WriteAll(h.catalog.state, h.catalog.paths.byID, ms);
              (path in after <==> !ms[k].remove) && (!ms[k].remove ==> after[path] == ms[k].value)
    {
      LastWriteStands(h.catalog.state, h.catalog.paths.byID, ms, path, k);
    }
  }

  lemma AcceptedMutates(h: Home, s: Session, epoch: int, ms: seq<Mutation>, env: Env)
    requires s in h.peers && h.users <= h.peers.Keys && SetState(h, s, epoch, ms, env.enc).1 == Ok
    ensures h.peers[s].name in h.catalog.configs
    ensures SetState(h, s, epoch, ms, env.enc).0.catalog == Mutate(h.catalog, h.peers[s].name, ms)
  {
  }

  // ---------- who is told ----------

  /** After an accepted mutation exactly the available users that see one of the paths are sent a frame, or failed if it does not fit, and the sender its answer. */
  lemma MutationIsTold(h: Home, s: Session, epoch: int, ms: seq<Mutation>, env: Env, t: Session)
    requires Inv(h, env) && s in h.peers && SetState(h, s, epoch, ms, env.enc).1 == Ok && t in h.peers
    ensures t in SetState(h, s, epoch, ms, env.enc).0.peers
    ensures var p' := SetState(h, s, epoch, ms, env.enc).0.peers[t];
            && (t == s ==> p'.log == h.peers[t].log + [StateSetOK(h.catalog.revision + 1)])
            && (t != s ==> (p' != h.peers[t] <==> t in h.users && Available(h.peers[t]) && Concerns(h.catalog, h.peers[t].user, ms)))
  {
    SenderIsNoUser(h, s, epoch, ms, env);
    AcceptedPeers(h, s, epoch, ms, env, t);
    PatchedIff(h.catalog, h.peers[t], ms, env.enc);
  }

  /** The user sees a path of the batch. */
  ghost predicate Concerns(c: Catalog, user: string, ms: seq<Mutation>) {
    exists i :: 0 <= i < |ms| && Touches(c, user, ms[i])
  }

  lemma AcceptedPeers(h: Home, s: Session, epoch: int, ms: seq<Mutation>, env: Env, t: Session)
    requires s in h.peers && h.users <= h.peers.Keys && SetState(h, s, epoch, ms, env.enc).1 == Ok && t in h.peers
    ensures t in SetState(h, s, epoch, ms, env.enc).0.peers
    ensures SetState(h, s, epoch, ms, env.enc).0.peers[t]
            == if t == s then Enqueue(h.peers[s], StateSetOK(h.catalog.revision + 1))
               else if t in h.users then Patched(h.catalog, h.peers[t], ms, env.enc) else h.peers[t]
  {
  }

  lemma PatchedIff(c: Catalog, p: Peer, ms: seq<Mutation>, enc: Frame -> bool)
    ensures Patched(c, p, ms, enc) != p <==> Available(p) && Concerns(c, p.user, ms)
  {
    VisibleIffTouched(c, p.user, ms);
    if Available(p) && Concerns(c, p.user, ms) {
      SentChanges(p.(lastStateRevision := c.revision + 1), PatchFor(c, p, ms, enc), p);
    }
  }

  lemma SenderIsNoUser(h: Home, s: Session, epoch: int, ms: seq<Mutation>, env: Env)
    requires Inv(h, env) && s in h.peers && SetState(h, s, epoch, ms, env.enc).1 == Ok
    ensures s !in h.users && Accepts(h.peers[s])
  {
  }

  lemma SentChanges(p: Peer, f: Frame, before: Peer)
    requires p.log == before.log && p.live == before.live && before.live
    ensures Enqueue(p, f) != before
  {
    assert Accepts(p) ==> |Enqueue(p, f).log| == |before.log| + 1;
  }

  lemma {:induction false} VisibleIffTouched(c: Catalog, user: string, ms: seq<Mutation>)
    ensures VisibleMutations(c, user, ms) != [] <==> Concerns(c, user, ms)
  {
    if ms != [] {
      var before := ms[..|ms| - 1];
      VisibleIffTouched(c, user, before);
      if exists i :: 0 <= i < |ms| && Touches(c, user, ms[i]) {
        var i :| 0 <= i < |ms| && Touches(c, user, ms[i]);
        if i < |before| {
          assert Touches(c, user, before[i]);
        }
      }
      if i :| 0 <= i < |before| && Touches(c, user, before[i]) {
        assert Touches(c, user, ms[i]);
      }
    }
  }
}
