/** The loops of the home engine over maps, whose iteration order is arbitrary. */
module HomeLoops {
  import opened Basics
  import opened Catalogs
  import opened CatalogProofs
  import opened HomeModel
  import opened Covering

  method MatchesAnyPattern(patterns: seq<string>, name: string) returns (matches: bool)
    ensures matches == MatchesAny(patterns, name)
    ensures matches <==> SomeCovers(patterns, name)
  {
    MatchesAnyIffCovers(patterns, name);
    for index := 0 to |patterns|
      invariant forall i :: 0 <= i < index ==> !PatternMatches(patterns[i], name)
    {
      if PatternMatches(patterns[index], name) {
        return true;
      }
    }
    return false;
  }

  method DeleteAll<V>(entries: map<string, V>, gone: set<string>) returns (left: map<string, V>)
    ensures left == entries - gone
  {
    left := entries;
    var todo := gone;
    while todo != {}
      invariant todo <= gone
      invariant left == entries - (gone - todo)
      decreases todo
    {
      var name :| name in todo;
      left := left - {name};
      todo := todo - {name};
    }
  }

  /** One loop over paths deletes from two maps. */
  method DeleteBoth(owners: map<string, string>, state: map<string, Value>, gone: set<string>)
    returns (leftOwners: map<string, string>, leftState: map<string, Value>)
    ensures leftOwners == owners - gone && leftState == state - gone
  {
    leftOwners, leftState := owners, state;
    var todo := gone;
    while todo != {}
      invariant todo <= gone
      invariant leftOwners == owners - (gone - todo) && leftState == state - (gone - todo)
      decreases todo
    {
      var path :| path in todo;
      leftOwners, leftState := leftOwners - {path}, leftState - {path};
      todo := todo - {path};
    }
  }

  lemma ClaimOneMore(owners: map<string, string>, names: set<string>, todo: set<string>, slot: string, name: string)
    requires name in todo && todo <= names
    ensures (owners + (map n | n in names - todo :: slot))[name := slot] == owners + (map n | n in names - (todo - {name}) :: slot)
  {
  }

  lemma PutOneMore<V>(entries: map<string, V>, added: map<string, V>, todo: set<string>, name: string)
    requires name in todo && todo <= added.Keys
    ensures (entries + (added - todo))[name := added[name]] == entries + (added - (todo - {name}))
  {
  }

  lemma NothingClaimed(owners: map<string, string>, names: set<string>, slot: string)
    ensures owners + (map name | name in names - names :: slot) == owners
    ensures (map name | name in names - {} :: slot) == (map name | name in names :: slot)
  {
  }

  /** One loop over declared values writes to two maps. */
  method ClaimBoth(owners: map<string, string>, state: map<string, Value>, added: map<string, Value>, slot: string)
    returns (claimed: map<string, string>, all: map<string, Value>)
    ensures claimed == owners + (map path | path in added.Keys :: slot) && all == state + added
  {
    claimed, all := owners, state;
    var todo := added.Keys;
    NothingClaimed(owners, added.Keys, slot);
    assert all == state + (added - todo);
    while todo != {}
      invariant todo <= added.Keys
      invariant claimed == owners + (map path | path in added.Keys - todo :: slot)
      invariant all == state + (added - todo)
      decreases todo
    {
      var path :| path in todo;
      ClaimOneMore(owners, added.Keys, todo, slot, path);
      PutOneMore(state, added, todo, path);
      claimed, all := claimed[path := slot], all[path := added[path]];
      todo := todo - {path};
    }
    assert added - {} == added;
  }

  method ClaimAll(owners: map<string, string>, names: set<string>, slot: string) returns (claimed: map<string, string>)
    ensures claimed == owners + (map name | name in names :: slot)
  {
    claimed := owners;
    var todo := names;
    while todo != {}
      invariant todo <= names
      invariant claimed == owners + (map name | name in names - todo :: slot)
      decreases todo
    {
      var name :| name in todo;
      ClaimOneMore(owners, names, todo, slot, name);
      claimed := claimed[name := slot];
      todo := todo - {name};
    }
  }

  method BindAll(byName: map<string, int>, byID: map<int, string>, ids: map<string, int>)
    returns (names: map<string, int>, back: map<int, string>)
    requires Injective(ids)
    ensures Names(names, back) == Bind(Names(byName, byID), ids)
  {
    names, back := byName, byID;
    var todo := ids.Keys;
    while todo != {}
      invariant todo <= ids.Keys
      invariant names == byName + (ids - todo)
      invariant BackAfter(byID, ids, ids.Keys - todo, back)
      decreases todo
    {
      var name :| name in todo;
      OneMoreBack(byID, ids, ids.Keys - todo, back, name);
      names := names[name := ids[name]];
      back := back[ids[name] := name];
      assert ids.Keys - (todo - {name}) == ids.Keys - todo + {name};
      todo := todo - {name};
    }
    assert ids - {} == ids;
    BackIsBound(byID, ids, back);
  }

  /** `back` is `byID` with the IDs of the names in `done` bound to those names. */
  ghost predicate BackAfter(byID: map<int, string>, ids: map<string, int>, done: set<string>, back: map<int, string>)
    requires done <= ids.Keys
  {
    && (forall name :: name in done ==> ids[name] in back && back[ids[name]] == name)
    && (forall id :: id in byID ==> id in back)
    && (forall id :: id in back ==> (back[id] in done && ids[back[id]] == id) || (id in byID && back[id] == byID[id]))
  }

  lemma OneMoreBack(byID: map<int, string>, ids: map<string, int>, done: set<string>, back: map<int, string>, name: string)
    requires Injective(ids) && done <= ids.Keys && name in ids && name !in done
    requires BackAfter(byID, ids, done, back)
    ensures BackAfter(byID, ids, done + {name}, back[ids[name] := name])
  {
  }

  lemma BackIsBound(byID: map<int, string>, ids: map<string, int>, back: map<int, string>)
    requires Injective(ids)
    requires BackAfter(byID, ids, ids.Keys, back)
    ensures back == byID + Inverse(ids)
  {
    InverseLeadsBack(ids);
    var bound := byID + Inverse(ids);
    forall id | id in back ensures id in bound && back[id] == bound[id] {
      if back[id] in ids && ids[back[id]] == id {
        assert id in ids.Values;
      }
    }
    forall id | id in bound ensures id in back {
      if id in ids.Values {
        var name :| name in ids && ids[name] == id;
      }
    }
  }

  /** The names so far: known ones have their ID, those in `taken` the IDs from `next` up, one each. */
  ghost predicate ReservedSoFar(names: Names, next: int, ids: map<string, int>, taken: set<string>, next': int) {
    && taken == Unbound(names.byName, ids)
    && next' == next + |taken|
    && (forall name :: name in ids && name !in taken ==> ids[name] == names.byName[name])
    && (forall name :: name in taken ==> next <= ids[name] < next')
    && (forall a, b :: a in taken && b in taken && a != b ==> ids[a] != ids[b])
  }

  lemma KnownOneMore(names: Names, next: int, ids: map<string, int>, taken: set<string>, next': int, name: string)
    requires ReservedSoFar(names, next, ids, taken, next') && name !in ids && IdOf(names.byName, name) != 0
    ensures ReservedSoFar(names, next, ids[name := names.byName[name]], taken, next')
  {
    assert Unbound(names.byName, ids[name := names.byName[name]]) == Unbound(names.byName, ids);
  }

  lemma TakenOneMore(names: Names, next: int, ids: map<string, int>, taken: set<string>, next': int, name: string)
    requires ReservedSoFar(names, next, ids, taken, next') && name !in ids && IdOf(names.byName, name) == 0
    ensures ReservedSoFar(names, next, ids[name := next'], taken + {name}, next' + 1)
  {
    assert Unbound(names.byName, ids[name := next']) == taken + {name};
  }

  lemma AllReserved(names: Names, next: int, ids: map<string, int>, taken: set<string>, next': int)
    requires NamesInv(names, next) && ReservedSoFar(names, next, ids, taken, next')
    ensures Reserves(names, next, ids.Keys, ids) && next' == NextAfter(names, next, ids)
  {
  }

  /** Known names keep their ID, the others take the next ones in whatever order they come. */
  method ReserveIDs(names: Names, next: int, wanted: set<string>) returns (ids: map<string, int>, next': int)
    requires NamesInv(names, next)
    ensures Reserves(names, next, wanted, ids)
    ensures next' == NextAfter(names, next, ids)
  {
    ids, next' := map[], next;
    var todo := wanted;
    ghost var taken: set<string> := {};
    while todo != {}
      invariant todo <= wanted && ids.Keys == wanted - todo
      invariant ReservedSoFar(names, next, ids, taken, next')
      decreases todo
    {
      var name :| name in todo;
      if IdOf(names.byName, name) != 0 {
        KnownOneMore(names, next, ids, taken, next', name);
        ids := ids[name := names.byName[name]];
      } else {
        TakenOneMore(names, next, ids, taken, next', name);
        ids := ids[name := next'];
        next' := next' + 1;
        taken := taken + {name};
      }
      todo := todo - {name};
    }
    assert ids.Keys == wanted;
    AllReserved(names, next, ids, taken, next');
  }

  datatype SendAction = SendAction(to: Session, frame: Frame)

  /** The frames a batch of actions holds for one connection, in order. */
  function FramesFor(actions: seq<SendAction>, s: Session): seq<Frame> {
    if actions == [] then []
    else
      var rest := FramesFor(actions[..|actions| - 1], s);
      if actions[|actions| - 1].to == s then rest + [actions[|actions| - 1].frame] else rest
  }

  lemma {:induction false} EnqueueOneMore(p: Peer, fs: seq<Frame>, f: Frame)
    ensures EnqueueAll(p, fs + [f]) == Enqueue(EnqueueAll(p, fs), f)
    decreases |fs|
  {
    if fs != [] {
      EnqueueOneMore(Enqueue(p, fs[0]), fs[1..], f);
      assert (fs + [f])[1..] == fs[1..] + [f];
    } else {
      assert fs + [f] == [f];
      assert EnqueueAll(Enqueue(p, f), []) == Enqueue(p, f);
    }
  }

  /** Dispatching actions one after the other gives every connection its own frames in order. */
  method Dispatch(peers: map<Session, Peer>, actions: seq<SendAction>) returns (sent: map<Session, Peer>)
    requires forall i :: 0 <= i < |actions| ==> actions[i].to in peers
    ensures sent.Keys == peers.Keys
    ensures forall s :: s in peers ==> sent[s] == EnqueueAll(peers[s], FramesFor(actions, s))
  {
    sent := peers;
    for index := 0 to |actions|
      invariant sent.Keys == peers.Keys
      invariant forall s :: s in peers ==> sent[s] == EnqueueAll(peers[s], FramesFor(actions[..index], s))
    {
      var action := actions[index];
      assert actions[..index + 1] == actions[..index] + [action];
      EnqueueOneMore(peers[action.to], FramesFor(actions[..index], action.to), action.frame);
      assert forall s :: s in peers && s != action.to ==> FramesFor(actions[..index + 1], s) == FramesFor(actions[..index], s) by {
        forall s | s in peers && s != action.to ensures FramesFor(actions[..index + 1], s) == FramesFor(actions[..index], s) {
          assert actions[..index + 1][..index] == actions[..index];
        }
      }
      assert actions[..index + 1][..index] == actions[..index];
      sent := sent[action.to := Enqueue(sent[action.to], action.frame)];
    }
    assert actions[..|actions|] == actions;
  }
}
