/** Every step of a home with its calls is made of steps of the home and steps of the router, and keeps the two tied together. */
module HomeCallSteps {
  import opened Basics
  import opened Catalogs
  import opened Views
  import opened HomeModel
  import opened Replicas
  import opened Invariants
  import opened HomeTheorems
  import opened HomeHistory
  import opened Calls
  import opened CallTables
  import CallTheorems
  import opened Events
  import opened HomeCalls

  // ---------- what runs of the parts reach ----------

  ghost predicate ReachableHome(h: Home, env: Env) {
    exists hs: seq<Home> :: RunFromStart(hs, env) && hs[|hs| - 1] == h
  }

  lemma HomeReached(h: Home, env: Env)
    requires EnvOK(env) && ReachableHome(h, env)
    ensures Inv(h, env)
  {
    var hs :| RunFromStart(hs, env) && hs[|hs| - 1] == h;
    RunKeepsInvariant(hs, env, |hs| - 1);
  }

  lemma NewHomeReached(epoch: int, env: Env)
    ensures ReachableHome(NewHome(epoch), env)
  {
    var hs := [NewHome(epoch)];
    assert RunFromStart(hs, env) && hs[|hs| - 1] == NewHome(epoch);
  }

  lemma LongerRun(hs: seq<Home>, h': Home, env: Env)
    requires RunFromStart(hs, env) && Steps(hs[|hs| - 1], h', env)
    ensures RunFromStart(hs + [h'], env)
  {
    var hs' := hs + [h'];
    forall i | 0 < i < |hs'| ensures StepsTo(hs', env, i) {
      if i < |hs| {
        assert StepsTo(hs, env, i);
      }
    }
  }

  lemma HomeSteps(h: Home, s: Session, l: Label, env: Env)
    requires ReachableHome(h, env) && h.users <= h.peers.Keys && Enabled(h, s, l)
    ensures ReachableHome(Step(h, s, l, env), env)
  {
    var hs :| RunFromStart(hs, env) && hs[|hs| - 1] == h;
    var h' := Step(h, s, l, env);
    assert Steps(h, h', env);
    LongerRun(hs, h', env);
    assert (hs + [h'])[|hs + [h']| - 1] == h';
  }

  /** Handing over call frames is a run of notices. */
  lemma {:induction false} HandOverReached(h: Home, sent: seq<Sent>, env: Env)
    requires ReachableHome(h, env) && h.users <= h.peers.Keys
    ensures ReachableHome(HandOver(h, sent), env)
  {
    if sent != [] {
      var before := HandOver(h, sent[..|sent| - 1]);
      var to := sent[|sent| - 1].to;
      HandOverReached(h, sent[..|sent| - 1], env);
      if to in before.peers {
        HomeSteps(before, to, LNotice, env);
      }
    }
  }

  /** Delivering an event is a run of notices. */
  lemma {:induction false} DeliveredReached(h: Home, recipients: set<Session>, env: Env)
    requires ReachableHome(h, env) && h.users <= h.peers.Keys && recipients <= h.peers.Keys
    ensures ReachableHome(Delivered(h, recipients), env)
    decreases recipients
  {
    if recipients == {} {
      DeliverNobody(h);
    } else {
      var t := Element(recipients);
      var rest := recipients - {t};
      DeliveredReached(h, rest, env);
      DeliverOneMore(h, rest, t);
      assert rest + {t} == recipients;
      HomeSteps(Delivered(h, rest), t, LNotice, env);
    }
  }

  ghost predicate ReachableRouter(r: Router, bounds: Bounds) {
    exists rs: seq<Router> :: CallRun(rs, bounds) && rs[|rs| - 1] == r
  }

  lemma RouterReached(r: Router, bounds: Bounds)
    requires ReachableRouter(r, bounds)
    ensures CallTheorems.RouterInv(r, bounds)
  {
    var rs :| CallRun(rs, bounds) && rs[|rs| - 1] == r;
    CallTheorems.RunKeepsRouter(rs, bounds, |rs| - 1);
  }

  lemma NewRouterReached(bounds: Bounds)
    requires BoundsOK(bounds)
    ensures ReachableRouter(NewRouter(), bounds)
  {
    var rs := [NewRouter()];
    assert CallRun(rs, bounds) && rs[|rs| - 1] == NewRouter();
  }

  lemma EnabledApplies(r: Router, s: Session, l: CallLabel, bounds: Bounds)
    requires CallEnabled(r, s, l, bounds)
    ensures CallApplies(r, s, l)
  {
  }

  lemma RouterSteps(r: Router, s: Session, l: CallLabel, bounds: Bounds)
    requires ReachableRouter(r, bounds) && CallEnabled(r, s, l, bounds)
    ensures ReachableRouter(CallStep(r, s, l, bounds), bounds)
  {
    var rs :| CallRun(rs, bounds) && rs[|rs| - 1] == r;
    var r' := CallStep(r, s, l, bounds);
    var rs' := rs + [r'];
    assert CallSteps(r, r', bounds);
    forall i | 0 < i < |rs'| ensures CallStepsTo(rs', bounds, i) {
      if i < |rs| {
        assert CallStepsTo(rs, bounds, i);
      }
    }
    assert rs'[|rs'| - 1] == r';
  }

  // ---------- who is here ----------

  /** Names, roles and generations stay, and so do slots and membership. */
  ghost predicate SamePeople(h: Home, h': Home) {
    && h'.peers.Keys == h.peers.Keys && h'.users == h.users && h'.connections == h.connections
    && forall t :: t in h.peers ==>
         h'.peers[t].role == h.peers[t].role && h'.peers[t].name == h.peers[t].name && h'.peers[t].generation == h.peers[t].generation
  }

  lemma {:induction false} HandOverPeople(h: Home, sent: seq<Sent>)
    ensures SamePeople(h, HandOver(h, sent)) && HandOver(h, sent).slots == h.slots
  {
    if sent != [] {
      HandOverPeople(h, sent[..|sent| - 1]);
    }
  }

  lemma DeliveredPeople(h: Home, recipients: set<Session>)
    ensures SamePeople(h, Delivered(h, recipients)) && Delivered(h, recipients).slots == h.slots
  {
  }

  /** The same connections hold the same slots in the same generations. */
  ghost predicate SameHolders(h: Home, h': Home) {
    forall name, t: Session ::
      (name in h'.slots && h'.slots[name].connection == Some(t)) <==> (name in h.slots && h.slots[name].connection == Some(t))
  }

  ghost predicate SameGenerations(h: Home, h': Home) {
    forall name :: name in h.slots && name in h'.slots ==> h'.slots[name].generation == h.slots[name].generation
  }

  lemma SameHere(h: Home, h': Home, t: Session)
    requires SamePeople(h, h') && SameHolders(h, h') && SameGenerations(h, h') && t in h.peers
    ensures IsHere(h', t) <==> IsHere(h, t)
  {
    var name := h.peers[t].name;
    assert (name in h'.slots && h'.slots[name].connection == Some(t)) <==> (name in h.slots && h.slots[name].connection == Some(t));
  }

  lemma {:induction false} EnqueueAllPeople(p: Peer, fs: seq<Frame>)
    ensures var p' := EnqueueAll(p, fs); p'.role == p.role && p'.name == p.name && p'.generation == p.generation
    decreases |fs|
  {
    if fs != [] {
      EnqueueAllPeople(Enqueue(p, fs[0]), fs[1..]);
    }
  }

  lemma RefreshPeople(h: Home)
    ensures SamePeople(h, RefreshUsers(h)) && RefreshUsers(h).slots == h.slots
  {
    forall t | t in h.peers
      ensures var p' := RefreshUsers(h).peers[t];
              p'.role == h.peers[t].role && p'.name == h.peers[t].name && p'.generation == h.peers[t].generation
    {
      EnqueueAllPeople(Pruned(h.catalog, h.peers[t]).(lastStateRevision := h.catalog.revision), RecoveryFrames(h.catalog, h.peers[t].user));
    }
  }

  lemma ExpirePeople(h: Home, name: string, generation: int)
    ensures var h' := Expire(h, name, generation); SamePeople(h, h') && SameHolders(h, h') && SameGenerations(h, h')
  {
    RefreshPeople(h.(slots := h.slots - {name}, catalog := Remove(h.catalog, name), policy := h.policy + 1));
  }

  lemma CommitPeople(h: Home, s: Session, functions: set<string>, ids: map<string, int>, env: Env)
    requires s in h.peers && h.users <= h.peers.Keys
    requires SyncFunctions(h, s, functions, ids, env.limits, env.enc).1 == Ok
    ensures var h' := SyncFunctions(h, s, functions, ids, env.limits, env.enc).0;
            SamePeople(h, h') && SameHolders(h, h') && SameGenerations(h, h')
  {
    var p := h.peers[s];
    var burnt := h.(nextFunction := NextAfter(h.catalog.functions, h.nextFunction, ids));
    RefreshPeople(Committed(SetPeer(burnt, s, Enqueue(p, FunctionSyncOK(ids)).(stage := None)), p.name,
                            DeclarationOf(p.stage.value, functions, ids)));
  }

  lemma RefusedPeople(h: Home, s: Session, functions: set<string>, ids: map<string, int>, env: Env)
    requires s in h.peers && h.users <= h.peers.Keys
    requires SyncFunctions(h, s, functions, ids, env.limits, env.enc).1 != Ok
    ensures var h' := SyncFunctions(h, s, functions, ids, env.limits, env.enc).0; SamePeople(h, h') && h'.slots == h.slots
  {
    RefusedActivationChangesNothing(h, s, functions, ids, env);
    RefusedOne(h, s, functions, ids, env);
  }

  lemma RefusedOne(h: Home, s: Session, functions: set<string>, ids: map<string, int>, env: Env)
    requires s in h.peers && h.users <= h.peers.Keys
    requires SyncFunctions(h, s, functions, ids, env.limits, env.enc).1 != Ok
    ensures var h' := SyncFunctions(h, s, functions, ids, env.limits, env.enc).0;
            && h'.peers.Keys == h.peers.Keys
            && h'.peers[s].role == h.peers[s].role && h'.peers[s].name == h.peers[s].name && h'.peers[s].generation == h.peers[s].generation
  {
  }

  lemma SetStatePeople(h: Home, s: Session, epoch: int, ms: seq<Mutation>, env: Env)
    requires s in h.peers && h.users <= h.peers.Keys
    ensures var h' := SetState(h, s, epoch, ms, env.enc).0; SamePeople(h, h') && h'.slots == h.slots
  {
  }

  lemma OnePeople(h: Home, s: Session, h': Home)
    requires h' == h || (OnlyPeer(h, s, h') && h'.users == h.users && h'.connections == h.connections)
    ensures SamePeople(h, h')
  {
  }

  lemma ResyncPeople(h: Home, s: Session)
    requires s in h.peers
    ensures SamePeople(h, Resync(h, s).0)
  {
    var p := h.peers[s].(lastStateRevision := h.catalog.revision);
    EnqueueAllPeople(p, [StateDict(PathEntries(h.catalog, p.user)), StateSnapshot(h.catalog.revision, StateEntries(h.catalog, p.user))]);
  }

  lemma PlainPeople(h: Home, s: Session, l: Label, env: Env)
    requires h.users <= h.peers.Keys && Enabled(h, s, l) && Plain(l)
    ensures SamePeople(h, Step(h, s, l, env)) && Step(h, s, l, env).slots == h.slots
  {
    PlainSteps(h, s, l, env);
    if l.LResync? {
      ResyncPeople(h, s);
    } else {
      if IsSlice(l) {
        SliceTouchesOne(h, s, l, env);
      } else {
        ReplyTouchesOne(h, s, l, env);
      }
      OnePeople(h, s, Step(h, s, l, env));
    }
  }

  /** Only attachments and departures change who is here. */
  lemma StepPeople(h: Home, s: Session, l: Label, env: Env)
    requires h.users <= h.peers.Keys && Enabled(h, s, l) && !l.LAttach? && !l.LDetach?
    ensures var h' := Step(h, s, l, env); SamePeople(h, h') && SameHolders(h, h') && SameGenerations(h, h')
  {
    match l
    case LExpire(name, generation) => ExpirePeople(h, name, generation);
    case LSyncFunctions(functions, ids) =>
      if SyncFunctions(h, s, functions, ids, env.limits, env.enc).1 == Ok {
        CommitPeople(h, s, functions, ids, env);
      } else {
        RefusedPeople(h, s, functions, ids, env);
      }
    case LSetState(epoch, ms) => SetStatePeople(h, s, epoch, ms, env);
    case _ => PlainPeople(h, s, l, env);
  }
}
