/** When a connection is admitted and what it is sent first, and what users are answered about topics and views. */
module MemberAnswers {
  import opened Basics
  import opened Catalogs
  import opened Covering
  import opened Views
  import opened HomeModel
  import opened Replicas
  import opened Invariants
  import opened QuietSteps
  import opened MemberSteps
  import opened Events

  // ---------- subscriptions ----------

  /** The ID names a topic that some active event ACL lets the user subscribe to. */
  ghost predicate IsGranted(c: Catalog, user: string, id: int) {
    && id in c.topics.byID && c.topics.byID[id] != ""
    && exists slot :: slot in c.configs && user in c.configs[slot].eventACL && SomeCovers(c.configs[slot].eventACL[user].subscribe, c.topics.byID[id])
  }

  /** Some active slot has an ACL entry for the user. */
  ghost predicate IsListed(c: Catalog, user: string) {
    exists slot :: slot in c.configs && (user in c.configs[slot].stateACL || user in c.configs[slot].eventACL)
  }

  lemma ListedIffEnrolled(c: Catalog, user: string)
    ensures Enrolled(c.configs, user) <==> IsListed(c, user)
  {
    forall slot | slot in c.configs ensures Listed(c.configs[slot], user) <==> user in c.configs[slot].stateACL || user in c.configs[slot].eventACL {
    }
  }

  /** The places of a request that hold an ID that is not yet followed. */
  function Unfollowed(known: set<int>, ids: seq<int>): set<int> {
    set i | 0 <= i < |ids| && ids[i] !in known
  }

  lemma UnfollowedOneMore(known: set<int>, ids: seq<int>)
    requires ids != []
    ensures |Unfollowed(known, ids)| == |Unfollowed(known, ids[..|ids| - 1])| + if ids[|ids| - 1] in known then 0 else 1
  {
    var last := |ids| - 1;
    assert Unfollowed(known, ids) == Unfollowed(known, ids[..last]) + if ids[last] in known then {} else {last};
  }

  lemma {:induction false} NewIDsAreCounted(known: set<int>, ids: seq<int>)
    ensures NewIDs(known, ids) == |Unfollowed(known, ids)|
  {
    if ids != [] {
      NewIDsAreCounted(known, ids[..|ids| - 1]);
      UnfollowedOneMore(known, ids);
    } else {
      assert Unfollowed(known, ids) == {};
    }
  }

  /**
   A subscription is all or nothing: refused to a user nobody lists, refused if one of the topics is not granted, refused
   if the places with new topics are more than are left; otherwise the user follows exactly what it did and what it asked for.
   */
  lemma SubscriptionIsAnswered(h: Home, s: Session, ids: seq<int>, limits: Limits)
    requires s in h.peers && h.peers[s].role == User
    ensures var p := h.peers[s];
            var (h', outcome) := Subscribe(h, s, ids, limits);
            var granted := IsListed(h.catalog, p.user) && (forall i :: 0 <= i < |ids| ==> IsGranted(h.catalog, p.user, ids[i]))
                           && |p.subscriptions| + |Unfollowed(p.subscriptions, ids)| <= limits.subscriptions;
            && (outcome == if granted then (if Accepts(p) then Ok else Refused(SLOW_CONSUMER, true))
                           else if !IsListed(h.catalog, p.user) then Refused(NOT_ENROLLED, false)
                           else if exists i :: 0 <= i < |ids| && !IsGranted(h.catalog, p.user, ids[i]) then Refused(FORBIDDEN, false)
                           else Refused(LIMIT_EXCEEDED, false))
            && (!granted ==> h' == h)
            && (granted ==> forall id :: id in h'.peers[s].subscriptions <==> id in p.subscriptions || id in ids)
  {
    var p := h.peers[s];
    ListedIffEnrolled(h.catalog, p.user);
    NewIDsAreCounted(p.subscriptions, ids);
    forall i | 0 <= i < |ids| ensures MayFollow(h.catalog, p.user, ids[i]) <==> IsGranted(h.catalog, p.user, ids[i]) {
      SubscribesIffCovered(h.catalog.configs, p.user, NameOf(h.catalog.topics.byID, ids[i]));
    }
  }

  /** Topics that are followed already cost nothing, however often they are named; distinct new ones cost one each. */
  lemma RepeatsAreFree(known: set<int>, ids: seq<int>)
    ensures (forall i :: 0 <= i < |ids| ==> ids[i] in known) <==> |Unfollowed(known, ids)| == 0
    ensures (forall i, j :: 0 <= i < j < |ids| ==> ids[i] != ids[j]) ==> |Unfollowed(known, ids)| == |Asked(ids) - known|
  {
    if |Unfollowed(known, ids)| == 0 {
      forall i | 0 <= i < |ids| ensures ids[i] in known {
        assert i !in Unfollowed(known, ids);
      }
    } else {
      var i := Element(Unfollowed(known, ids));
      assert ids[i] !in known;
    }
    if forall i, j :: 0 <= i < j < |ids| ==> ids[i] != ids[j] {
      DistinctAreCounted(known, ids);
    }
  }

  function Asked(ids: seq<int>): set<int> {
    set id | id in ids
  }

  lemma AskedOneMore(known: set<int>, ids: seq<int>)
    requires ids != [] && ids[|ids| - 1] !in ids[..|ids| - 1]
    ensures |Asked(ids) - known| == |Asked(ids[..|ids| - 1]) - known| + if ids[|ids| - 1] in known then 0 else 1
  {
    var before, x := ids[..|ids| - 1], ids[|ids| - 1];
    forall id ensures id in Asked(ids) <==> id in Asked(before) || id == x {
      assert ids == before + [x];
    }
    assert Asked(ids) - known == (Asked(before) - known) + if x in known then {} else {x};
  }

  lemma {:induction false} DistinctAreCounted(known: set<int>, ids: seq<int>)
    requires forall i, j :: 0 <= i < j < |ids| ==> ids[i] != ids[j]
    ensures |Unfollowed(known, ids)| == |Asked(ids) - known|
  {
    if ids == [] {
      assert Unfollowed(known, ids) == {} && Asked(ids) - known == {};
    } else {
      DistinctAreCounted(known, ids[..|ids| - 1]);
      UnfollowedOneMore(known, ids);
      AskedOneMore(known, ids);
    }
  }

  /** Dropping topics is all or nothing, too: every one must be followed, and afterwards none of them is, and every other as before. */
  lemma DroppedAreGone(h: Home, s: Session, ids: seq<int>)
    requires s in h.peers && h.peers[s].role == User
    ensures var p := h.peers[s];
            var (h', outcome) := Unsubscribe(h, s, ids);
            var followed := forall i :: 0 <= i < |ids| ==> ids[i] in p.subscriptions;
            && (outcome == if !followed then Refused(NOT_DECLARED, false) else if Accepts(p) then Ok else Refused(SLOW_CONSUMER, true))
            && (!followed ==> h' == h)
            && (followed ==> forall id :: id in h'.peers[s].subscriptions <==> id in p.subscriptions && id !in ids)
  {
  }

  /** So no event of a dropped topic reaches the user, whoever sends it. */
  lemma DroppedAreSilent(h: Home, s: Session, ids: seq<int>, env: Env, t: Session, id: int, target: Target, routable: bool)
    requires Inv(h, env) && s in h.peers && h.peers[s].role == User && t in h.peers
    requires id in ids && forall i :: 0 <= i < |ids| ==> ids[i] in h.peers[s].subscriptions
    ensures t in Unsubscribe(h, s, ids).0.peers
    ensures s !in Route(Unsubscribe(h, s, ids).0, t, id, target, routable).0
  {
    UnsubscribeKeeps(h, s, ids, env);
    DroppedAreGone(h, s, ids);
    UnfollowedIsNotReached(Unsubscribe(h, s, ids).0, t, id, target, routable, s);
  }

  lemma UnfollowedIsNotReached(h: Home, t: Session, id: int, target: Target, routable: bool, s: Session)
    requires Membership(h) && SlotsOK(h) && OwnersInv(Topic, h.catalog.topicOwners, h.catalog.configs)
    requires t in h.peers && s in h.peers && h.peers[s].role == User && id !in h.peers[s].subscriptions
    ensures s !in Route(h, t, id, target, routable).0
  {
    RecipientsIff(h, t, id, target, routable, s);
  }

  // ---------- complete views on demand ----------

  /** A resynchronisation puts the values, the paths and the revision of a replica right, whatever it had before. */
  lemma ResyncHeals(h: Home, s: Session)
    requires s in h.peers && h.peers[s].role == User && PeerOK(h.peers[s]) && h.peers[s].live
    ensures var (h', outcome) := Resync(h, s);
            var r := Replay(h'.peers[s].log);
            outcome == Ok ==>
              && r.revision == h.catalog.revision == h'.peers[s].lastStateRevision
              && r.state == StateEntries(h.catalog, h.peers[s].user)
              && r.paths == PathEntries(h.catalog, h.peers[s].user)
    ensures Resync(h, s).1 == Ok || Resync(h, s).1 == Refused(SLOW_CONSUMER, true)
    ensures Resync(h, s).1 == Ok <==> h.peers[s].room >= 2
  {
    var p := h.peers[s].(lastStateRevision := h.catalog.revision);
    var dict := StateDict(PathEntries(h.catalog, p.user));
    var snapshot := StateSnapshot(h.catalog.revision, StateEntries(h.catalog, p.user));
    EnqueueAllSends(p, [dict, snapshot]);
    EnqueueAllOpen(p, [dict, snapshot]);
    ReplayOneMore(p.log, dict);
    ReplayOneMore(p.log + [dict], snapshot);
    assert p.log + [dict, snapshot] == p.log + [dict] + [snapshot];
  }

  /** A batch goes out whole exactly if there is room for all of it. */
  lemma {:induction false} EnqueueAllOpen(p: Peer, fs: seq<Frame>)
    ensures EnqueueAll(p, fs).open <==> p.open && p.room >= |fs|
    decreases |fs|
  {
    if fs != [] {
      EnqueueAllOpen(Enqueue(p, fs[0]), fs[1..]);
    }
  }

  // ---------- admission to a home ----------

  /**
   A user is admitted exactly while the home has room for one more and the list of sessions with it still encodes; a
   refusal changes nothing. If its queue holds, it is sent a welcome and its complete view, in that order, before
   anything else, and it is available if its lease is still valid.
   */
  lemma UserIsAdmittedIff(h: Home, s: Session, p: Peer, leaseValid: bool, env: Env)
    requires h.users <= h.peers.Keys && SlotsOK(h) && s !in h.peers && Newcomer(p) && p.role == User && p.live
    ensures var (h', outcome) := Attach(h, s, p, leaseValid, env.limits, env.enc);
            if |h.users| < env.limits.users && env.enc(PresenceSnapshot(SessionsOf(h) + {(s, p.user)}))
            then
              && s in h'.users && s in h'.peers && h'.connections == h.connections + {s}
              && (p.room >= 5 ==> h'.peers[s].log == [Welcome] + RecoveryFrames(h.catalog, p.user))
              && (Available(h'.peers[s]) <==> leaseValid && p.room >= 5)
              && (outcome == Ok <==> leaseValid && p.room >= 5)
            else h' == h && outcome == Refused(LIMIT_EXCEEDED, true)
  {
    var start := p.(lastStateRevision := h.catalog.revision);
    var fs := [Welcome] + RecoveryFrames(h.catalog, p.user);
    EnqueueAllSends(start, fs);
    EnqueueAllOpen(start, fs);
    EnqueueAllLive(start, fs);
    NewcomerHoldsNoSlot(h, s);
  }

  lemma NewcomerHoldsNoSlot(h: Home, s: Session)
    requires SlotsOK(h) && s !in h.peers
    ensures !IsCurrent(h.slots, s)
  {
    forall name | name in h.slots ensures h.slots[name].connection != Some(s) {
      assert Linked(name, h.slots[name], h.peers, h.connections);
    }
  }

  /** A queue that holds does not cost a connection its life. */
  lemma {:induction false} EnqueueAllLive(p: Peer, fs: seq<Frame>)
    requires p.live ==> p.open
    ensures EnqueueAll(p, fs).live <==> p.live && EnqueueAll(p, fs).open
    decreases |fs|
  {
    if fs != [] {
      EnqueueAllOpen(Enqueue(p, fs[0]), fs[1..]);
      EnqueueAllLive(Enqueue(p, fs[0]), fs[1..]);
    }
  }

  /**
   A coordinator is admitted exactly if its slot exists or there is room for one more. It takes the slot in the next
   generation, without a grace timer and not ready, and is sent a welcome and who is present, before anything else.
   */
  lemma CoordinatorIsAdmittedIff(h: Home, s: Session, p: Peer, leaseValid: bool, env: Env)
    requires h.users <= h.peers.Keys && s !in h.peers && Newcomer(p) && p.role == Coordinator && p.live
    ensures var (h', outcome) := Attach(h, s, p, leaseValid, env.limits, env.enc);
            if p.name in h.slots || |h.slots| < env.limits.coordinators
            then
              && s in h'.peers && Current(h', s) && !h'.slots[p.name].ready && h'.slots[p.name].grace == None
              && h'.slots[p.name].generation == (if p.name in h.slots then h.slots[p.name].generation else 0) + 1
              && (p.room >= 2 ==> h'.peers[s].log == [Welcome, PresenceSnapshot(SessionsOf(h))])
              && (Available(h'.peers[s]) <==> leaseValid && p.room >= 2)
              && (outcome == Ok <==> leaseValid && p.room >= 2)
            else h' == h && outcome == Refused(LIMIT_EXCEEDED, true)
  {
    var generation := (if p.name in h.slots then h.slots[p.name].generation else 0) + 1;
    var start := p.(generation := generation);
    var fs := [Welcome, PresenceSnapshot(SessionsOf(h))];
    EnqueueAllSends(start, fs);
    EnqueueAllOpen(start, fs);
    EnqueueAllLive(start, fs);
  }

  /**
   What becomes of the slot whose connection leaves: without declarations, and if the connection never got past its
   bootstrap, it goes at once; otherwise it stays, empty and not ready, with a grace timer for its generation.
   */
  lemma DepartureLeavesASlot(h: Home, s: Session)
    requires s in h.connections && s in h.peers && h.peers[s].role == Coordinator && Current(h, s)
    ensures var name, h' := h.peers[s].name, Detach(h, s);
            && s !in h'.connections && h'.catalog == h.catalog
            && (name in h'.slots <==> h.peers[s].bootstrapped || name in h.catalog.configs)
            && (name in h'.slots ==> h'.slots[name] == Slot(h.slots[name].generation, None, false, Some(h.slots[name].generation)))
            && forall other :: other != name ==> (other in h'.slots <==> other in h.slots) && (other in h.slots ==> h'.slots[other] == h.slots[other])
  {
  }
}
