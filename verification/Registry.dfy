/**
 The registry of homes and the references connections hold on them. A registry that is being closed
 is not modelled. What a home contains is reduced to its connections and the names of its slots.
 */
module Registry {
  import opened Basics

  datatype Record = Record(id: string, references: int, connections: set<nat>, slots: set<string>)

  /** A connection and the home it found: it holds a reference, is attached, has detached, or is done with it. */
  datatype Link = Fresh | Holding(home: nat) | Joined(home: nat) | Leaving(home: nat) | Gone(home: nat)

  /** `pending` are the deletions a fired grace timer still has to try. */
  datatype Registry = Registry(homes: map<string, nat>, records: seq<Record>, links: seq<Link>, pending: multiset<nat>)

  function NewRegistry(): Registry {
    Registry(map[], [], [], multiset{})
  }

  predicate IsEmpty(h: Record) {
    h.connections == {} && h.slots == {}
  }

  predicate Registered(r: Registry, h: nat) {
    h < |r.records| && r.records[h].id in r.homes && r.homes[r.records[h].id] == h
  }

  function DeleteIfUnused(r: Registry, h: nat): Registry
    requires h < |r.records|
  {
    var record := r.records[h];
    if Registered(r, h) && record.references == 0 && IsEmpty(record) then r.(homes := r.homes - {record.id}) else r
  }

  /** The registered home of an ID, or a new one if there is room. */
  function Acquire(r: Registry, id: string, capacity: int): (Registry, Option<nat>) {
    if id in r.homes && r.homes[id] < |r.records| then
      var h := r.homes[id];
      (r.(records := r.records[h := r.records[h].(references := r.records[h].references + 1)]), Some(h))
    else if |r.homes| >= capacity then (r, None)
    else
      var h := |r.records|;
      (r.(homes := r.homes[id := h], records := r.records + [Record(id, 1, {}, {})]), Some(h))
  }

  function Release(r: Registry, h: nat): Registry
    requires h < |r.records|
  {
    DeleteIfUnused(r.(records := r.records[h := r.records[h].(references := r.records[h].references - 1)]), h)
  }

  function SetRecord(r: Registry, h: nat, record: Record): Registry
    requires h < |r.records|
  {
    r.(records := r.records[h := record])
  }

  function SetLink(r: Registry, c: nat, l: Link): Registry
    requires c < |r.links|
  {
    r.(links := r.links[c := l])
  }

  // ---------- steps ----------

  datatype Visit =
    | Connect
    | Find(c: nat, id: string)
    | Attach(c: nat, slot: Option<string>)
    | Detach(c: nat, dropped: set<string>)
    | GiveBack(c: nat)
    | DropSlot(home: nat, name: string)
    | TryDelete(home: nat)

  predicate CanVisit(r: Registry, v: Visit) {
    match v
    case Connect => true
    case Find(c, _) => c < |r.links| && r.links[c].Fresh?
    case Attach(c, _) => c < |r.links| && !r.links[c].Fresh? && !r.links[c].Joined? && r.links[c].home < |r.records|
    case Detach(c, _) => c < |r.links| && (r.links[c].Holding? || r.links[c].Joined?) && r.links[c].home < |r.records|
    case GiveBack(c) => c < |r.links| && r.links[c].Leaving? && r.links[c].home < |r.records|
    case DropSlot(h, name) => h < |r.records| && name in r.records[h].slots
    case TryDelete(h) => h < |r.records| && h in r.pending
  }

  /** A connection enters a home, as a coordinator under the name of its slot. */
  function Entered(record: Record, c: nat, slot: Option<string>): Record {
    record.(connections := record.connections + {c}, slots := if slot.Some? then record.slots + {slot.value} else record.slots)
  }

  function Visited(r: Registry, v: Visit, capacity: int): Registry
    requires CanVisit(r, v)
  {
    match v
    case Connect => r.(links := r.links + [Fresh])
    case Find(c, id) =>
      var (found, h) := Acquire(r, id, capacity);
      if h.Some? then SetLink(found, c, Holding(h.value)) else r
    case Attach(c, slot) =>
      var h := r.links[c].home;
      SetLink(SetRecord(r, h, Entered(r.records[h], c, slot)), c, if r.links[c].Holding? then Joined(h) else r.links[c])
    case Detach(c, dropped) =>
      var h := r.links[c].home;
      var record := r.records[h];
      SetLink(SetRecord(r, h, record.(connections := record.connections - {c}, slots := record.slots - dropped)), c, Leaving(h))
    case GiveBack(c) => SetLink(Release(r, r.links[c].home), c, Gone(r.links[c].home))
    case DropSlot(h, name) =>
      SetRecord(r, h, r.records[h].(slots := r.records[h].slots - {name})).(pending := r.pending + multiset{h})
    case TryDelete(h) => DeleteIfUnused(r, h).(pending := r.pending - multiset{h})
  }

  /** Whoever attaches has not detached, and so still holds its home. */
  predicate Orderly(r: Registry, v: Visit)
    requires CanVisit(r, v)
  {
    v.Attach? ==> r.links[v.c].Holding?
  }

  ghost predicate RegistrySteps(r: Registry, r': Registry, capacity: int) {
    exists v :: CanVisit(r, v) && Orderly(r, v) && r' == Visited(r, v, capacity)
  }

  ghost predicate RegistryStepsTo(rs: seq<Registry>, capacity: int, i: int)
    requires 0 < i < |rs|
  {
    RegistrySteps(rs[i - 1], rs[i], capacity)
  }

  /** A run in which every connection attaches before it detaches. */
  ghost predicate RegistryRun(rs: seq<Registry>, capacity: int) {
    rs != [] && rs[0] == NewRegistry() && forall i :: 0 < i < |rs| ==> RegistryStepsTo(rs, capacity, i)
  }

  // ---------- invariants ----------

  predicate Refers(l: Link, h: nat) {
    !l.Fresh? && !l.Gone? && l.home == h
  }

  /** The connections that acquired a home and have not released it. */
  function Holders(links: seq<Link>, h: nat): nat {
    if links == [] then 0 else Holders(links[..|links| - 1], h) + if Refers(links[|links| - 1], h) then 1 else 0
  }

  lemma {:induction false} HoldersUpdate(links: seq<Link>, c: nat, l: Link, h: nat)
    requires c < |links|
    ensures Holders(links[c := l], h) == Holders(links, h) - (if Refers(links[c], h) then 1 else 0) + if Refers(l, h) then 1 else 0
  {
    var last := |links| - 1;
    if c == last {
      assert links[c := l][..last] == links[..last];
    } else {
      HoldersUpdate(links[..last], c, l, h);
      assert links[c := l][..last] == links[..last][c := l];
    }
  }

  lemma {:induction false} HolderCounts(links: seq<Link>, c: nat, h: nat)
    requires c < |links| && Refers(links[c], h)
    ensures Holders(links, h) > 0
  {
    if c < |links| - 1 {
      HolderCounts(links[..|links| - 1], c, h);
    }
  }

  /** Nobody refers to a home that does not exist yet. */
  lemma {:induction false} NobodyYet(links: seq<Link>, h: nat)
    requires forall c: nat :: c < |links| && !links[c].Fresh? ==> links[c].home < h
    ensures Holders(links, h) == 0
  {
    if links != [] {
      var before := links[..|links| - 1];
      forall c: nat | c < |before| && !before[c].Fresh? ensures before[c].home < h {
        assert before[c] == links[c];
      }
      NobodyYet(before, h);
      assert !links[|links| - 1].Fresh? ==> links[|links| - 1].home < h;
    }
  }

  /** The connections in a home are those attached to it. */
  ghost predicate Attached(r: Registry, h: nat)
    requires h < |r.records|
  {
    forall c: nat :: c in r.records[h].connections <==> c < |r.links| && r.links[c] == Joined(h)
  }

  /** A home is registered while anybody holds it; unregistered, it is empty; registered and unheld, it has a slot or a deletion due. */
  ghost predicate RecordOK(r: Registry, h: nat)
    requires h < |r.records|
  {
    && r.records[h].references == Holders(r.links, h)
    && (r.records[h].references > 0 ==> Registered(r, h))
    && (!Registered(r, h) ==> IsEmpty(r.records[h]))
    && (Registered(r, h) && r.records[h].references == 0 && h !in r.pending ==> !IsEmpty(r.records[h]))
  }

  ghost predicate RegistryInv(r: Registry) {
    && (forall h: nat :: h < |r.records| ==> Attached(r, h) && RecordOK(r, h))
    && (forall id :: id in r.homes ==> r.homes[id] < |r.records| && r.records[r.homes[id]].id == id)
    && (forall c: nat :: c < |r.links| && !r.links[c].Fresh? ==> r.links[c].home < |r.records|)
  }

  /** A step about one home and one connection leaves the other homes alone. */
  ghost predicate OthersStay(r: Registry, r': Registry, h: nat) {
    && |r'.records| == |r.records| && |r'.links| == |r.links|
    && (forall k: nat :: k < |r.records| && k != h ==>
      && r'.records[k] == r.records[k] && Holders(r'.links, k) == Holders(r.links, k)
      && (Registered(r', k) <==> Registered(r, k)) && (k in r'.pending <==> k in r.pending))
    && (forall k: nat, c: nat :: k != h && c < |r.links| ==> (r'.links[c] == Joined(k) <==> r.links[c] == Joined(k)))
    && (forall id :: id in r'.homes ==> id in r.homes && r'.homes[id] == r.homes[id])
    && (forall c: nat :: c < |r.links| && !r'.links[c].Fresh? ==> r'.links[c].home < |r.records|)
  }

  lemma OneHome(r: Registry, r': Registry, h: nat)
    requires RegistryInv(r) && h < |r.records| && OthersStay(r, r', h)
    requires r'.records[h].id == r.records[h].id
    requires Attached(r', h) && RecordOK(r', h)
    ensures RegistryInv(r')
  {
    forall k: nat | k < |r'.records| ensures Attached(r', k) && RecordOK(r', k) {
      if k != h {
        assert Attached(r, k) && RecordOK(r, k);
      }
    }
  }

  /** What changing one link to another of the same home means for the counts. */
  lemma Relinked(links: seq<Link>, c: nat, l: Link, h: nat)
    requires c < |links| && !l.Fresh? && l.home == h && (links[c].Fresh? || links[c].home == h)
    ensures forall k: nat :: k != h ==> Holders(links[c := l], k) == Holders(links, k)
    ensures Holders(links[c := l], h) == Holders(links, h) - (if Refers(links[c], h) then 1 else 0) + if Refers(l, h) then 1 else 0
  {
    forall k: nat ensures Holders(links[c := l], k)
                          == Holders(links, k) - (if Refers(links[c], k) then 1 else 0) + (if Refers(l, k) then 1 else 0)
    {
      HoldersUpdate(links, c, l, k);
    }
  }

  lemma FindKeeps(r: Registry, c: nat, id: string, capacity: int)
    requires RegistryInv(r) && CanVisit(r, Find(c, id))
    ensures RegistryInv(Visited(r, Find(c, id), capacity))
  {
    var r' := Visited(r, Find(c, id), capacity);
    if id in r.homes {
      var h := r.homes[id];
      assert Attached(r, h) && RecordOK(r, h);
      Relinked(r.links, c, Holding(h), h);
      OneHome(r, r', h);
    } else if |r.homes| < capacity {
      NewHomeKeeps(r, c, id, r');
    }
  }

  lemma NewHomeKeeps(r: Registry, c: nat, id: string, r': Registry)
    requires RegistryInv(r) && CanVisit(r, Find(c, id)) && id !in r.homes
    requires r' == r.(homes := r.homes[id := |r.records|], records := r.records + [Record(id, 1, {}, {})], links := r.links[c := Holding(|r.records|)])
    ensures RegistryInv(r')
  {
    var h := |r.records|;
    NobodyYet(r.links, h);
    Relinked(r.links, c, Holding(h), h);
    forall k: nat | k < |r'.records| ensures Attached(r', k) && RecordOK(r', k) {
      if k < h {
        assert Attached(r, k) && RecordOK(r, k);
        assert r'.records[k] == r.records[k];
        assert Registered(r', k) <==> Registered(r, k);
      }
    }
  }

  lemma AttachKeeps(r: Registry, c: nat, slot: Option<string>, capacity: int)
    requires RegistryInv(r) && CanVisit(r, Attach(c, slot)) && r.links[c].Holding?
    ensures RegistryInv(Visited(r, Attach(c, slot), capacity))
  {
    var h := r.links[c].home;
    var r' := Visited(r, Attach(c, slot), capacity);
    assert Attached(r, h) && RecordOK(r, h);
    HolderCounts(r.links, c, h);
    Relinked(r.links, c, Joined(h), h);
    OneHome(r, r', h);
  }

  lemma DetachKeeps(r: Registry, c: nat, dropped: set<string>, capacity: int)
    requires RegistryInv(r) && CanVisit(r, Detach(c, dropped))
    ensures RegistryInv(Visited(r, Detach(c, dropped), capacity))
  {
    var h := r.links[c].home;
    var r' := Visited(r, Detach(c, dropped), capacity);
    assert Attached(r, h) && RecordOK(r, h);
    HolderCounts(r.links, c, h);
    Relinked(r.links, c, Leaving(h), h);
    OneHome(r, r', h);
  }

  lemma GiveBackOthers(r: Registry, c: nat, capacity: int)
    requires RegistryInv(r) && CanVisit(r, GiveBack(c))
    ensures OthersStay(r, Visited(r, GiveBack(c), capacity), r.links[c].home)
  {
    Relinked(r.links, c, Gone(r.links[c].home), r.links[c].home);
  }

  lemma GiveBackRecord(r: Registry, c: nat, capacity: int)
    requires RegistryInv(r) && CanVisit(r, GiveBack(c))
    ensures var h, r' := r.links[c].home, Visited(r, GiveBack(c), capacity);
            h < |r'.records| && r'.records[h].id == r.records[h].id && Attached(r', h) && RecordOK(r', h)
  {
    var h := r.links[c].home;
    assert Attached(r, h) && RecordOK(r, h);
    HolderCounts(r.links, c, h);
    Relinked(r.links, c, Gone(h), h);
  }

  lemma GiveBackKeeps(r: Registry, c: nat, capacity: int)
    requires RegistryInv(r) && CanVisit(r, GiveBack(c))
    ensures RegistryInv(Visited(r, GiveBack(c), capacity))
  {
    GiveBackOthers(r, c, capacity);
    GiveBackRecord(r, c, capacity);
    OneHome(r, Visited(r, GiveBack(c), capacity), r.links[c].home);
  }

  lemma DropSlotKeeps(r: Registry, h: nat, name: string, capacity: int)
    requires RegistryInv(r) && CanVisit(r, DropSlot(h, name))
    ensures RegistryInv(Visited(r, DropSlot(h, name), capacity))
  {
    var r' := Visited(r, DropSlot(h, name), capacity);
    assert Attached(r, h) && RecordOK(r, h);
    OneHome(r, r', h);
  }

  lemma TryDeleteKeeps(r: Registry, h: nat, capacity: int)
    requires RegistryInv(r) && CanVisit(r, TryDelete(h))
    ensures RegistryInv(Visited(r, TryDelete(h), capacity))
  {
    var r' := Visited(r, TryDelete(h), capacity);
    assert Attached(r, h) && RecordOK(r, h);
    OneHome(r, r', h);
  }

  lemma VisitKeeps(r: Registry, v: Visit, capacity: int)
    requires RegistryInv(r) && CanVisit(r, v) && Orderly(r, v)
    ensures RegistryInv(Visited(r, v, capacity))
  {
    match v {
      case Connect =>
        var r' := Visited(r, v, capacity);
        forall h: nat | h < |r'.records| ensures Attached(r', h) && RecordOK(r', h) {
          assert Attached(r, h) && RecordOK(r, h);
          assert r'.links[..|r.links|] == r.links;
        }
      case Find(c, id) => FindKeeps(r, c, id, capacity);
      case Attach(c, slot) => AttachKeeps(r, c, slot, capacity);
      case Detach(c, dropped) => DetachKeeps(r, c, dropped, capacity);
      case GiveBack(c) => GiveBackKeeps(r, c, capacity);
      case DropSlot(h, name) => DropSlotKeeps(r, h, name, capacity);
      case TryDelete(h) => TryDeleteKeeps(r, h, capacity);
    }
  }

  lemma StepsKeep(r: Registry, r': Registry, capacity: int)
    requires RegistryInv(r) && RegistrySteps(r, r', capacity)
    ensures RegistryInv(r')
  {
    var v :| CanVisit(r, v) && Orderly(r, v) && r' == Visited(r, v, capacity);
    VisitKeeps(r, v, capacity);
  }

  lemma {:induction false} RunKeepsRegistry(rs: seq<Registry>, capacity: int, i: int)
    requires RegistryRun(rs, capacity) && 0 <= i < |rs|
    ensures RegistryInv(rs[i])
    decreases i
  {
    if i > 0 {
      RunKeepsRegistry(rs, capacity, i - 1);
      assert RegistryStepsTo(rs, capacity, i);
      StepsKeep(rs[i - 1], rs[i], capacity);
    }
  }

  /** References count exactly the connections that have not released, and whoever holds a home holds the registered one. */
  lemma ReferencesAreExact(rs: seq<Registry>, capacity: int, i: int, h: nat)
    requires RegistryRun(rs, capacity) && 0 <= i < |rs| && h < |rs[i].records|
    ensures rs[i].records[h].references == Holders(rs[i].links, h)
    ensures rs[i].records[h].references > 0 ==> Registered(rs[i], h)
  {
    RunKeepsRegistry(rs, capacity, i);
    assert RecordOK(rs[i], h);
  }

  /** Connections attached under one ID share one home. */
  lemma PeersShareOneHome(rs: seq<Registry>, capacity: int, i: int, c: nat, d: nat)
    requires RegistryRun(rs, capacity) && 0 <= i < |rs| && c < |rs[i].links| && d < |rs[i].links|
    requires rs[i].links[c].Joined? && rs[i].links[d].Joined?
    ensures rs[i].links[c].home < |rs[i].records| && rs[i].links[d].home < |rs[i].records|
    ensures rs[i].records[rs[i].links[c].home].id == rs[i].records[rs[i].links[d].home].id ==> rs[i].links[c].home == rs[i].links[d].home
  {
    RunKeepsRegistry(rs, capacity, i);
    var r := rs[i];
    HolderCounts(r.links, c, r.links[c].home);
    HolderCounts(r.links, d, r.links[d].home);
    assert RecordOK(r, r.links[c].home) && RecordOK(r, r.links[d].home);
  }

  /** No home leaks: a registered one that nobody holds has a slot, unless its deletion is still due. */
  lemma NoHomeLeaks(rs: seq<Registry>, capacity: int, i: int, h: nat)
    requires RegistryRun(rs, capacity) && 0 <= i < |rs| && Registered(rs[i], h)
    requires rs[i].records[h].references == 0 && h !in rs[i].pending
    ensures rs[i].records[h].connections == {} && rs[i].records[h].slots != {}
  {
    RunKeepsRegistry(rs, capacity, i);
    assert RecordOK(rs[i], h) && Attached(rs[i], h);
    forall c | c in rs[i].records[h].connections ensures Holders(rs[i].links, h) > 0 {
      HolderCounts(rs[i].links, c, h);
    }
  }

  // ---------- the drain race ----------

  /** The one detach of a connection may run before its attachment: then the home has a connection that nobody will remove. */
  lemma LateAttachOrphans(r: Registry, c: nat, slot: Option<string>, capacity: int)
    requires CanVisit(r, Attach(c, slot)) && !r.links[c].Holding?
    ensures !RegistryInv(Visited(r, Attach(c, slot), capacity))
  {
    var h := r.links[c].home;
    var r' := Visited(r, Attach(c, slot), capacity);
    assert c in r'.records[h].connections && r'.links[c] != Joined(h);
    assert !Attached(r', h);
  }

  /** A connection that has found its home keeps the registry sound by attaching exactly when it still holds it. */
  lemma AttachKeepsIffHolding(r: Registry, c: nat, slot: Option<string>, capacity: int)
    requires RegistryInv(r) && CanVisit(r, Attach(c, slot))
    ensures RegistryInv(Visited(r, Attach(c, slot), capacity)) <==> r.links[c].Holding?
  {
    if r.links[c].Holding? {
      AttachKeeps(r, c, slot, capacity);
    } else {
      LateAttachOrphans(r, c, slot, capacity);
    }
  }

  /** A connection finds the home of `id`, fails before it attaches, and gives its reference back; another one waits. */
  function FoundAndGone(id: string): seq<Visit> {
    [Connect, Connect, Find(0, id), Detach(0, {}), GiveBack(0)]
  }

  ghost predicate Leads(r: Registry, vs: seq<Visit>, r': Registry, capacity: int)
    decreases |vs|
  {
    if vs == [] then r' == r else CanVisit(r, vs[0]) && Leads(Visited(r, vs[0], capacity), vs[1..], r', capacity)
  }

  /** By then the home is deleted ... */
  lemma RaceDeletes(id: string)
    ensures Leads(NewRegistry(), FoundAndGone(id), Registry(map[], [Record(id, 0, {}, {})], [Gone(0), Fresh], multiset{}), 1)
  {
    var vs := FoundAndGone(id);
    var r2 := Registry(map[], [], [Fresh, Fresh], multiset{});
    var r3 := Registry(map[id := 0], [Record(id, 1, {}, {})], [Holding(0), Fresh], multiset{});
    var r4 := r3.(links := [Leaving(0), Fresh]);
    var r5 := Registry(map[], [Record(id, 0, {}, {})], [Gone(0), Fresh], multiset{});
    assert Visited(Visited(NewRegistry(), Connect, 1), Connect, 1) == r2;
    assert Visited(r2, vs[2], 1) == r3;
    assert Record(id, 1, {} - {0}, {} - {}) == Record(id, 1, {}, {});
    assert Visited(r3, vs[3], 1).records == r4.records;
    assert Visited(r3, vs[3], 1) == r4;
    assert Visited(r4, vs[4], 1) == r5;
    assert Leads(r4, [vs[4]], r5, 1) by {
      assert Leads(r5, [], r5, 1);
    }
    assert vs[3..] == [vs[3]] + [vs[4]] && Leads(r3, vs[3..], r5, 1);
    assert vs[2..] == [vs[2]] + vs[3..] && Leads(r2, vs[2..], r5, 1);
    assert vs[1..][1..] == vs[2..];
  }

  /** ... and attaching to it all the same leaves two homes under one ID, both with a connection, one of them held by nobody. */
  lemma RaceSplitsAHome(id: string)
    ensures var r5 := Registry(map[], [Record(id, 0, {}, {})], [Gone(0), Fresh], multiset{});
            var r6 := Visited(r5, Attach(0, None), 1);
            var r7 := Visited(r6, Find(1, id), 1);
            && CanVisit(r7, Attach(1, None))
            && var r8 := Visited(r7, Attach(1, None), 1);
               && |r8.records| == 2 && r8.records[0].id == r8.records[1].id == id
               && r8.records[0].connections == {0} && r8.records[1].connections == {1}
               && r8.records[0].references == 0 && !Registered(r8, 0) && Registered(r8, 1)
  {
  }

  // ---------- what is found, and what is deleted ----------

  lemma StepFits(r: Registry, v: Visit, capacity: int)
    requires CanVisit(r, v) && |r.homes| <= capacity
    ensures |Visited(r, v, capacity).homes| <= capacity
  {
    var r' := Visited(r, v, capacity);
    if v.Find? {
      assert r'.homes.Keys <= r.homes.Keys + {v.id};
    } else {
      assert r'.homes.Keys <= r.homes.Keys;
      SubsetSize(r'.homes.Keys, r.homes.Keys);
    }
  }

  lemma {:induction false} RegistryFits(rs: seq<Registry>, capacity: int, i: int)
    requires RegistryRun(rs, capacity) && 0 <= i < |rs| && capacity >= 0
    ensures |rs[i].homes| <= capacity
    decreases i
  {
    if i > 0 {
      RegistryFits(rs, capacity, i - 1);
      assert RegistryStepsTo(rs, capacity, i);
      var v :| CanVisit(rs[i - 1], v) && Orderly(rs[i - 1], v) && rs[i] == Visited(rs[i - 1], v, capacity);
      StepFits(rs[i - 1], v, capacity);
    }
  }

  /**
   Over every run: a connection finds a home exactly if one is registered under the ID or the registry is not full.
   It is the registered one, so whoever else holds a home of that ID holds the same, or else a new and empty one.
   */
  lemma HomeIsFoundIff(rs: seq<Registry>, capacity: int, i: int, id: string)
    requires RegistryRun(rs, capacity) && 0 <= i < |rs|
    ensures var (r', found) := Acquire(rs[i], id, capacity);
            && (found.Some? <==> id in rs[i].homes || |rs[i].homes| < capacity)
            && (found.None? ==> r' == rs[i])
            && (found.Some? ==>
                 && Registered(r', found.value) && r'.records[found.value].id == id
                 && (id in rs[i].homes ==> found.value == rs[i].homes[id])
                 && (id !in rs[i].homes ==> IsEmpty(r'.records[found.value]) && r'.records[found.value].references == 1))
  {
    RunKeepsRegistry(rs, capacity, i);
  }

  lemma {:induction false} NoHolderIff(links: seq<Link>, h: nat)
    ensures Holders(links, h) == 0 <==> forall c: nat :: c < |links| ==> !Refers(links[c], h)
  {
    if links != [] {
      var before := links[..|links| - 1];
      NoHolderIff(before, h);
      assert forall c: nat :: c < |before| ==> before[c] == links[c];
      if forall c: nat :: c < |before| ==> !Refers(before[c], h) {
        assert forall c: nat :: c < |links| && c != |links| - 1 ==> !Refers(links[c], h);
      } else {
        var c: nat :| c < |before| && Refers(before[c], h);
        assert Refers(links[c], h);
      }
    }
  }

  /** A registered home survives an attempt to delete it exactly if somebody refers to it or it has a slot. */
  lemma DeletedIffUnused(r: Registry, h: nat)
    requires RegistryInv(r) && h < |r.records| && Registered(r, h)
    ensures Registered(DeleteIfUnused(r, h), h) <==> r.records[h].slots != {} || exists c: nat :: c < |r.links| && Refers(r.links[c], h)
  {
    assert Attached(r, h) && RecordOK(r, h);
    NoHolderIff(r.links, h);
    if r.records[h].connections != {} {
      var c := Element(r.records[h].connections);
      assert Refers(r.links[c], h);
    }
  }

  /** Giving back the last reference deletes a home without slots, and only then is it deleted. */
  lemma GivenBackIsDeletedIff(rs: seq<Registry>, capacity: int, i: int, c: nat)
    requires RegistryRun(rs, capacity) && 0 <= i < |rs| && CanVisit(rs[i], GiveBack(c))
    ensures var r, h := rs[i], rs[i].links[c].home;
            var r' := Visited(r, GiveBack(c), capacity);
            && h < |r.records| && Registered(r, h)
            && (Registered(r', h) <==> r.records[h].slots != {} || exists d: nat :: d < |r.links| && d != c && Refers(r.links[d], h))
  {
    RunKeepsRegistry(rs, capacity, i);
    var r, h := rs[i], rs[i].links[c].home;
    assert Attached(r, h) && RecordOK(r, h);
    HolderCounts(r.links, c, h);
    HoldersUpdate(r.links, c, Gone(h), h);
    NoHolderIff(r.links[c := Gone(h)], h);
    var links := r.links[c := Gone(h)];
    if d: nat :| d < |r.links| && d != c && Refers(r.links[d], h) {
      assert Refers(links[d], h);
    } else {
      forall d: nat | d < |links| ensures !Refers(links[d], h) {
        assert d != c ==> links[d] == r.links[d];
      }
    }
    if r.records[h].connections != {} {
      var d := Element(r.records[h].connections);
      assert r.links[d] == Joined(h) && d != c;
    }
  }
}
