/** The outbound queue of one connection: eviction of stream frames, order, and byte counts. */
module Outbound {
  import opened Basics

  /** An encoded frame. Stream frames may be dropped; a FATAL frame closes the connection once written. */
  datatype Message = Message(content: int, size: nat, droppable: bool, fatal: bool)

  function Bytes(ms: seq<Message>): nat {
    if ms == [] then 0 else Bytes(ms[..|ms| - 1]) + ms[|ms| - 1].size
  }

  lemma BytesOneMore(ms: seq<Message>, m: Message)
    ensures Bytes(ms + [m]) == Bytes(ms) + m.size
  {
    assert (ms + [m])[..|ms + [m]| - 1] == ms;
  }

  lemma {:induction false} BytesAppend(a: seq<Message>, b: seq<Message>)
    ensures Bytes(a + b) == Bytes(a) + Bytes(b)
  {
    if b == [] {
      assert a + b == a;
    } else {
      BytesAppend(a, b[..|b| - 1]);
      assert (a + b)[..|a + b| - 1] == a + b[..|b| - 1];
    }
  }

  // ---------- eviction ----------

  function Droppables(ms: seq<Message>): nat {
    if ms == [] then 0 else Droppables(ms[..|ms| - 1]) + if ms[|ms| - 1].droppable then 1 else 0
  }

  /** `ms` without its first `k` droppable messages. */
  function WithoutFirst(ms: seq<Message>, k: nat): seq<Message> {
    if ms == [] then []
    else
      var kept := WithoutFirst(ms[..|ms| - 1], k);
      if ms[|ms| - 1].droppable && Droppables(ms[..|ms| - 1]) < k then kept else kept + [ms[|ms| - 1]]
  }

  predicate Fits(ms: seq<Message>, required: nat, limit: int) {
    Bytes(ms) + required <= limit
  }

  /** Enough has been dropped, or nothing is left to drop; and with one message fewer it would not be so. */
  ghost predicate ShortestDrop(ms: seq<Message>, k: nat, required: nat, limit: int) {
    && k <= Droppables(ms)
    && (Fits(WithoutFirst(ms, k), required, limit) || k == Droppables(ms))
    && forall j: nat :: j < k ==> !Fits(WithoutFirst(ms, j), required, limit)
  }

  lemma {:induction false} WithoutNone(ms: seq<Message>)
    ensures WithoutFirst(ms, 0) == ms
  {
    if ms != [] {
      WithoutNone(ms[..|ms| - 1]);
      assert ms == ms[..|ms| - 1] + [ms[|ms| - 1]];
    }
  }

  /** What is left when every droppable message is gone. */
  function Undroppable(ms: seq<Message>): seq<Message> {
    if ms == [] then []
    else
      var kept := Undroppable(ms[..|ms| - 1]);
      if ms[|ms| - 1].droppable then kept else kept + [ms[|ms| - 1]]
  }

  lemma {:induction false} WithoutAll(ms: seq<Message>, k: nat)
    requires k >= Droppables(ms)
    ensures WithoutFirst(ms, k) == Undroppable(ms)
  {
    if ms != [] {
      WithoutAll(ms[..|ms| - 1], k);
    }
  }

  /** Dropping messages from the front of `done` and going on with `rest` untouched. */
  lemma {:induction false} WithoutFirstAppend(done: seq<Message>, rest: seq<Message>, k: nat)
    requires k <= Droppables(done)
    ensures WithoutFirst(done + rest, k) == WithoutFirst(done, k) + rest
    ensures Droppables(done + rest) >= Droppables(done)
  {
    if rest == [] {
      assert done + rest == done;
      assert WithoutFirst(done, k) + rest == WithoutFirst(done, k);
    } else {
      var last := rest[|rest| - 1];
      WithoutFirstAppend(done, rest[..|rest| - 1], k);
      assert (done + rest)[..|done + rest| - 1] == done + rest[..|rest| - 1];
      assert rest == rest[..|rest| - 1] + [last];
      assert WithoutFirst(done, k) + rest == (WithoutFirst(done, k) + rest[..|rest| - 1]) + [last];
    }
  }

  // ---------- histories ----------

  /** `kept` is `all` with some droppable messages left out, in the same order. */
  ghost predicate Retains(all: seq<Message>, kept: seq<Message>) {
    if all == [] then kept == []
    else
      || (kept != [] && kept[|kept| - 1] == all[|all| - 1] && Retains(all[..|all| - 1], kept[..|kept| - 1]))
      || (all[|all| - 1].droppable && Retains(all[..|all| - 1], kept))
  }

  lemma {:induction false} RetainsItself(ms: seq<Message>)
    ensures Retains(ms, ms)
  {
    if ms != [] {
      RetainsItself(ms[..|ms| - 1]);
    }
  }

  lemma RetainsOneMore(all: seq<Message>, kept: seq<Message>, m: Message)
    requires Retains(all, kept)
    ensures Retains(all + [m], kept + [m])
    ensures m.droppable ==> Retains(all + [m], kept)
  {
    assert (all + [m])[..|all + [m]| - 1] == all && (kept + [m])[..|kept + [m]| - 1] == kept;
  }

  lemma {:induction false} RetainsTransitive(a: seq<Message>, b: seq<Message>, c: seq<Message>)
    requires Retains(a, b) && Retains(b, c)
    ensures Retains(a, c)
    decreases |a|
  {
    if a != [] {
      var a', last := a[..|a| - 1], a[|a| - 1];
      if b != [] && b[|b| - 1] == last && Retains(a', b[..|b| - 1]) {
        if c != [] && c[|c| - 1] == last && Retains(b[..|b| - 1], c[..|c| - 1]) {
          RetainsTransitive(a', b[..|b| - 1], c[..|c| - 1]);
        } else {
          RetainsTransitive(a', b[..|b| - 1], c);
        }
      } else {
        RetainsTransitive(a', b, c);
      }
    }
  }

  /** Eviction leaves out droppable messages only. */
  lemma {:induction false} WithoutFirstRetains(front: seq<Message>, ms: seq<Message>, k: nat)
    ensures Retains(front + ms, front + WithoutFirst(ms, k))
  {
    if ms == [] {
      RetainsItself(front);
      assert front + ms == front && front + WithoutFirst(ms, k) == front;
    } else {
      var last := ms[|ms| - 1];
      WithoutFirstRetains(front, ms[..|ms| - 1], k);
      RetainsOneMore(front + ms[..|ms| - 1], front + WithoutFirst(ms[..|ms| - 1], k), last);
      assert front + ms == front + ms[..|ms| - 1] + [last];
      assert front + (WithoutFirst(ms[..|ms| - 1], k) + [last]) == front + WithoutFirst(ms[..|ms| - 1], k) + [last];
    }
  }

  lemma {:induction false} RetainedBytes(all: seq<Message>, kept: seq<Message>)
    requires Retains(all, kept)
    ensures Bytes(kept) <= Bytes(all)
    decreases |all|
  {
    if all != [] {
      if kept != [] && kept[|kept| - 1] == all[|all| - 1] && Retains(all[..|all| - 1], kept[..|kept| - 1]) {
        RetainedBytes(all[..|all| - 1], kept[..|kept| - 1]);
      } else {
        RetainedBytes(all[..|all| - 1], kept);
      }
    }
  }

  /** The number of messages an eviction drops: one at a time until the rest fits. */
  function DropCount(ms: seq<Message>, required: nat, limit: int, k: nat): (n: nat)
    requires k <= Droppables(ms)
    ensures k <= n <= Droppables(ms)
    decreases Droppables(ms) - k
  {
    if Fits(WithoutFirst(ms, k), required, limit) || k == Droppables(ms) then k else DropCount(ms, required, limit, k + 1)
  }

  lemma {:induction false} DropCountIsShortest(ms: seq<Message>, required: nat, limit: int, k: nat)
    requires k <= Droppables(ms)
    requires forall j: nat :: j < k ==> !Fits(WithoutFirst(ms, j), required, limit)
    ensures ShortestDrop(ms, DropCount(ms, required, limit, k), required, limit)
    decreases Droppables(ms) - k
  {
    if !Fits(WithoutFirst(ms, k), required, limit) && k < Droppables(ms) {
      DropCountIsShortest(ms, required, limit, k + 1);
    }
  }

  lemma ShortestDropIsUnique(ms: seq<Message>, j: nat, k: nat, required: nat, limit: int)
    requires ShortestDrop(ms, j, required, limit) && ShortestDrop(ms, k, required, limit)
    ensures j == k
  {
  }

  /** What an eviction leaves of a queue. */
  function Evicted(ms: seq<Message>, required: nat, limit: int): seq<Message> {
    WithoutFirst(ms, DropCount(ms, required, limit, 0))
  }

  /** After an eviction a priority message is too large only when what may not be dropped alone leaves no room. */
  lemma PriorityFailsOnlyOnUndroppable(ms: seq<Message>, required: nat, limit: int)
    ensures !Fits(Evicted(ms, required, limit), required, limit) <==> !Fits(Undroppable(ms), required, limit)
    ensures !Fits(Evicted(ms, required, limit), required, limit) ==> Evicted(ms, required, limit) == Undroppable(ms)
  {
    DropCountIsShortest(ms, required, limit, 0);
    WithoutAll(ms, Droppables(ms));
    FewerBytes(ms, DropCount(ms, required, limit, 0));
  }

  lemma {:induction false} FewerBytes(ms: seq<Message>, k: nat)
    ensures Bytes(Undroppable(ms)) <= Bytes(WithoutFirst(ms, k)) <= Bytes(ms)
  {
    if ms != [] {
      FewerBytes(ms[..|ms| - 1], k);
      BytesOneMore(Undroppable(ms[..|ms| - 1]), ms[|ms| - 1]);
      BytesOneMore(WithoutFirst(ms[..|ms| - 1], k), ms[|ms| - 1]);
    }
  }
}
