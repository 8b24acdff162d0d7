/** The registry as the relay keeps it: a map from IDs to homes, and a count in every home. */
module RegistryEngine {
  import opened Basics
  import Registry

  class HomeRegistry {
    const capacity: int
    var homes: map<string, nat>
    var records: seq<Registry.Record>

    /** The registry's own fields; connections and due deletions belong to their callers. */
    function View(): Registry.Registry
      reads this
    {
      Registry.Registry(homes, records, [], multiset{})
    }

    /** The map leads to homes that exist. */
    predicate Valid()
      reads this
    {
      forall id :: id in homes ==> homes[id] < |records|
    }

    constructor (capacity: int)
      ensures Valid() && View() == Registry.NewRegistry() && this.capacity == capacity
    {
      this.capacity, homes, records := capacity, map[], [];
    }

    method Acquire(id: string) returns (home: Option<nat>)
      requires Valid()
      modifies `homes, `records
      ensures Valid()
      ensures (View(), home) == Registry.Acquire(old(View()), id, capacity)
      ensures home.Some? ==> home.value < |records| && id in homes && homes[id] == home.value
    {
      if id !in homes {
        if |homes| >= capacity {
          return None;
        }
        records := records + [Registry.Record(id, 0, {}, {})];
        homes := homes[id := |records| - 1];
      }
      var h := homes[id];
      assert (old(records) + [Registry.Record(id, 0, {}, {})])[|old(records)| := Registry.Record(id, 1, {}, {})]
             == old(records) + [Registry.Record(id, 1, {}, {})];
      records := records[h := records[h].(references := records[h].references + 1)];
      return Some(h);
    }

    method DeleteIfUnused(h: nat)
      requires Valid() && h < |records|
      modifies `homes
      ensures Valid() && View() == Registry.DeleteIfUnused(old(View()), h)
    {
      var id := records[h].id;
      if id in homes && homes[id] == h && records[h].references == 0 && records[h].connections == {} && records[h].slots == {} {
        homes := homes - {id};
      }
    }

    method Release(h: nat)
      requires Valid() && h < |records|
      modifies `homes, `records
      ensures Valid() && View() == Registry.Release(old(View()), h)
    {
      records := records[h := records[h].(references := records[h].references - 1)];
      DeleteIfUnused(h);
    }
  }
}
