/** The key cache as the relay keeps it: one record of fields, changed in two short critical sections around a fetch. */
module KeyCacheEngine {
  import opened Basics
  import opened KeyCache

  class SharedKeys {
    var keys: seq<int>
    var etag: Option<int>
    var expiresAt: Option<Time>
    var refreshing: bool
    var round: nat
    var nextFetch: Option<Time>
    var nextUnknownRefresh: Option<Time>
    var failed: bool

    function View(): Cache
      reads this
    {
      Cache(keys, etag, expiresAt, refreshing, round, nextFetch, nextUnknownRefresh, failed)
    }

    constructor ()
      ensures View() == NewCache()
    {
      keys, etag, expiresAt, refreshing, round := [], None, None, false, 0;
      nextFetch, nextUnknownRefresh, failed := None, None, false;
    }

    /** A forced refresh is answered at once while it is too early for another fetch and the keys are fresh. */
    method Peek(now: Time) returns (served: Option<seq<int>>)
      ensures served == if ServedAtOnce(View(), now) then Some(keys) else None
    {
      if keys != [] && Before(now, expiresAt) && !refreshing && Before(now, nextUnknownRefresh) {
        return Some(keys);
      }
      return None;
    }

    /** Decide under the lock; only the decision to fetch changes anything. */
    method Enter(force: bool, now: Time) returns (decision: Decision)
      modifies `refreshing, `round, `nextFetch, `nextUnknownRefresh
      ensures decision == Decide(old(View()), force, now)
      ensures View() == if decision == Fetch then Begun(old(View()), force, now) else old(View())
    {
      var fresh' := keys != [] && Before(now, expiresAt);
      if !force && fresh' {
        return Serve(keys);
      }
      if force && refreshing {
        return Wait(round);
      }
      if force && fresh' && Before(now, nextUnknownRefresh) {
        return Serve(keys);
      }
      if refreshing {
        return Wait(round);
      }
      if Before(now, nextFetch) {
        return if fresh' && force then Serve(keys) else Refuse;
      }
      refreshing := true;
      round := round + 1;
      nextFetch := Some(now + RETRY_DELAY);
      if force {
        nextUnknownRefresh := Some(now + UNKNOWN_KEY_DELAY);
      }
      return Fetch;
    }

    /** Record the outcome of a fetch: a success is served as it is, a failure only to a forced call whose keys are still fresh. */
    method Complete(f: Fetched, force: bool, now: Time, later: Time) returns (decision: Decision)
      modifies `keys, `etag, `expiresAt, `refreshing, `nextFetch, `failed
      ensures View() == Completed(old(View()), f, now)
      ensures decision == Answer(old(View()), View(), force, f, later)
      ensures FetchedOK(f) && later >= now && decision.Serve? ==>
                decision.keys != [] && (Before(now, expiresAt) || Before(later, expiresAt))
    {
      var ok := !f.Failure?;
      if f.NotModified? && keys == [] {
        ok := false;
      }
      if f.Fresh? {
        keys := f.keys;
        etag := Some(f.etag);
      }
      if ok {
        expiresAt := Some(now + f.ttl);
        failed := false;
        nextFetch := None;
      } else {
        failed := true;
      }
      refreshing := false;
      var fresh' := keys != [] && Before(later, expiresAt);
      return if ok || (force && fresh') then Serve(keys) else Refuse;
    }
  }
}
