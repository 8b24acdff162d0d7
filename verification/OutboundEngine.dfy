/** The outbound queue as the relay keeps it: a slice compacted in place, sharing one byte budget. */
module OutboundEngine {
  import opened Basics
  import opened Outbound
  import opened OutboundLedger

  class ByteBudget {
    const aggregate: int
    var queued: int

    constructor (aggregate: int)
      ensures this.aggregate == aggregate && queued == 0
    {
      this.aggregate, queued := aggregate, 0;
    }

    method Reserve(size: int) returns (ok: bool)
      modifies this
      ensures ok <==> 0 <= size <= aggregate - old(queued)
      ensures queued == if ok then old(queued) + size else old(queued)
    {
      if size < 0 || size > aggregate - queued {
        return false;
      }
      queued := queued + size;
      return true;
    }

    method Release(size: int) returns (ok: bool)
      modifies this
      ensures ok <==> 0 <= size <= old(queued)
      ensures queued == if ok then old(queued) - size else old(queued)
    {
      if size < 0 || size > queued {
        return false;
      }
      queued := queued - size;
      return true;
    }
  }

  datatype EnqueueResult = Taken | AlreadyClosed | OverLimit | OverAggregate

  const NO_MESSAGE := Message(0, 0, false, false)

  class OutboundQueue {
    const limit: int
    const budget: ByteBudget

    var slots: array<Message>
    var head: nat
    var count: nat
    var bytes: int
    var closed: bool
    var closeQueued: bool
    var failed: bool
    ghost var overflow: Option<Message>
    ghost var written: seq<Message>
    ghost var accepted: seq<Message>
    ghost var cleared: bool

    ghost predicate Shaped()
      reads this
    {
      head + count <= slots.Length
    }

    ghost function Contents(): seq<Message>
      reads this, slots
      requires Shaped()
    {
      slots[head..head + count]
    }

    ghost function View(): Lane
      reads this, slots
      requires Shaped()
    {
      Lane(Contents(), bytes, closed, closeQueued, failed, overflow, Idle, written, accepted, cleared)
    }

    ghost function CapsOf(): Caps {
      Caps(limit, budget.aggregate)
    }

    /** The queue counts its own bytes, and the budget counts at least those. */
    ghost predicate Valid()
      reads this, slots, budget
    {
      Shaped() && LaneOK(View(), limit) && limit >= 0 && bytes <= budget.queued
    }

    constructor (limit: int, budget: ByteBudget)
      requires limit >= 0 && budget.queued >= 0
      ensures Valid() && View() == NewLane() && this.limit == limit && this.budget == budget
      ensures fresh(slots)
    {
      this.limit, this.budget := limit, budget;
      slots := new Message[4](_ => NO_MESSAGE);
      head, count, bytes := 0, 0, 0;
      closed, closeQueued, failed := false, false, false;
      overflow, written, accepted, cleared := None, [], [], false;
      new;
      RetainsItself([]);
    }

    /** Move the messages that stay to the front of the slice, counting down the bytes of the others. */
    static method Retain(slots: array<Message>, head: nat, end: nat, queuedBytes: int, required: nat, limit: int)
      returns (retained: nat, left: int, released: nat)
      requires head <= end <= slots.Length && queuedBytes == Bytes(slots[head..end])
      modifies slots
      ensures head <= retained <= end
      ensures slots[head..retained] == Evicted(old(slots[head..end]), required, limit)
      ensures left == Bytes(slots[head..retained]) && released == queuedBytes - left
    {
      ghost var ms := slots[head..end];
      ghost var kept: seq<Message> := [];
      retained, left, released := head, queuedBytes, 0;
      for index := head to end
        invariant head <= retained <= index && slots[head..retained] == kept
        invariant forall k :: index <= k < end ==> slots[k] == ms[k - head]
        invariant (kept, left) == Scan(ms[..index - head], queuedBytes, required, limit)
        invariant left <= queuedBytes && released == queuedBytes - left
      {
        var message := slots[index];
        assert ms[..index + 1 - head] == ms[..index - head] + [message];
        ScanOneMore(ms[..index - head], message, queuedBytes, required, limit);
        if message.droppable && left + required > limit {
          left := left - message.size;
          released := released + message.size;
        } else {
          Put(slots, head, retained, message);
          retained := retained + 1;
          kept := kept + [message];
        }
      }
      assert ms[..end - head] == ms;
      ScanEvicts(ms, required, limit);
    }

    /** Write behind what was kept so far, without touching what is still to be seen. */
    static method Put(slots: array<Message>, head: nat, retained: nat, message: Message)
      requires head <= retained < slots.Length
      modifies slots
      ensures slots[head..retained + 1] == old(slots[head..retained]) + [message]
      ensures forall k :: retained < k < slots.Length ==> slots[k] == old(slots[k])
    {
      slots[retained] := message;
    }

    /** Evict in place, and blank the places behind the messages that stay. */
    method Compact(required: nat) returns (released: nat)
      requires Shaped() && bytes == Bytes(Contents())
      modifies this`count, this`bytes, slots
      ensures Shaped() && Contents() == Evicted(old(Contents()), required, limit)
      ensures bytes == Bytes(Contents()) && released == old(bytes) - bytes
    {
      var retained, left, freed := Retain(slots, head, head + count, bytes, required, limit);
      released := freed;
      assert slots[head..retained] == slots[..retained][head..];
      Blank(retained, head + count);
      count, bytes := retained - head, left;
      assert Contents() == slots[..retained][head..];
    }

    method Blank(from: nat, to: nat)
      requires from <= to <= slots.Length
      modifies slots
      ensures slots[..from] == old(slots[..from]) && slots[to..] == old(slots[to..])
    {
      for index := from to to
        invariant slots[..from] == old(slots[..from]) && slots[to..] == old(slots[to..])
      {
        slots[index] := NO_MESSAGE;
      }
    }

    /** The same messages at the start of a larger slice. */
    method Grow()
      requires Shaped()
      modifies this`slots, this`head
      ensures Shaped() && Contents() == old(Contents()) && fresh(slots) && head + count < slots.Length
    {
      var larger := new Message[2 * count + 1](_ => NO_MESSAGE);
      for index := 0 to count
        invariant larger[..index] == slots[head..head + index]
        modifies larger
      {
        larger[index] := slots[head + index];
      }
      slots, head := larger, 0;
    }

    /** Append behind the queue, in a larger slice when this one is used up. */
    method Add(m: Message)
      requires Shaped()
      modifies this`slots, this`head, this`count, slots
      ensures Shaped() && Contents() == old(Contents()) + [m]
      ensures slots == old(slots) || fresh(slots)
    {
      if head + count == slots.Length {
        Grow();
      }
      ghost var before := slots[head..head + count];
      slots[head + count] := m;
      count := count + 1;
      assert Contents() == before + [m];
    }

    /** Make room for a priority message by dropping stream frames, and give their bytes back. */
    method EvictStreams(required: nat)
      requires Shaped() && bytes == Bytes(Contents()) && bytes <= budget.queued
      modifies this`count, this`bytes, slots, budget
      ensures Shaped() && bytes == Bytes(Contents())
      ensures Contents() == if old(bytes) + required <= limit then old(Contents()) else Evicted(old(Contents()), required, limit)
      ensures budget.queued == old(budget.queued) - (old(bytes) - bytes) && bytes <= old(bytes)
    {
      if bytes + required <= limit {
        return;
      }
      var released := Compact(required);
      var ok := budget.Release(released);
    }

    /** The messages that matter for the local limit: a priority message may push the stream frames out. */
    ghost function Resisting(priority: bool): seq<Message>
      reads this, slots
      requires Shaped()
    {
      if priority then Undroppable(Contents()) else Contents()
    }

    /** Ask the budget and append. */
    method ReserveAndAdd(m: Message) returns (ok: bool)
      requires Shaped()
      modifies this`slots, this`head, this`count, this`bytes, this`closeQueued, this`overflow, this`accepted, slots, budget
      ensures Shaped() && (slots == old(slots) || fresh(slots))
      ensures (View(), budget.queued) == Granted(old(View()), m, old(budget.queued), CapsOf())
      ensures ok <==> accepted == old(accepted) + [m]
    {
      ok := budget.Reserve(m.size);
      if !ok {
        overflow := if m.fatal then Some(m) else overflow;
        return;
      }
      bytes := bytes + m.size;
      if m.fatal {
        closeQueued := true;
      }
      Add(m);
      accepted := accepted + [m];
    }

    /** Evict for a priority message, and see whether a message of this size fits the queue. */
    method MakeRoom(required: nat, priority: bool) returns (fits: bool)
      requires Shaped() && bytes == Bytes(Contents()) && bytes <= budget.queued
      modifies this`count, this`bytes, slots, budget
      ensures Shaped() && bytes == Bytes(Contents())
      ensures Contents() == if priority && old(bytes) + required > limit then Evicted(old(Contents()), required, limit) else old(Contents())
      ensures budget.queued == old(budget.queued) - (old(bytes) - bytes)
      ensures fits <==> bytes + required <= limit
      ensures fits <==> Fits(old(Resisting(priority)), required, limit)
    {
      RoomAfterEviction(Contents(), required, limit);
      if priority {
        EvictStreams(required);
      }
      return bytes + required <= limit;
    }

    method EnqueueBytes(m: Message, priority: bool) returns (result: EnqueueResult)
      requires Shaped() && bytes == Bytes(Contents()) && bytes <= budget.queued && bytes <= limit
      modifies this`slots, this`head, this`count, this`bytes, this`closeQueued, this`overflow, this`accepted, slots, budget
      ensures Shaped() && (slots == old(slots) || fresh(slots))
      ensures (View(), budget.queued) == Enqueued(old(View()), m, priority, old(budget.queued), CapsOf())
      ensures result == AlreadyClosed <==> old(closed || closeQueued)
      ensures result == OverLimit <==> !old(closed || closeQueued) && !Fits(old(Resisting(priority)), m.size, limit)
      ensures result == Taken <==> accepted == old(accepted) + [m]
    {
      if closed || closeQueued {
        overflow := if m.fatal then Some(m) else overflow;
        return AlreadyClosed;
      }
      ghost var before, total := View(), budget.queued;
      var fits := MakeRoom(m.size, priority);
      ghost var freed, total' := View(), budget.queued;
      result := AddIf(m, fits);
      EnqueuedByParts(before, m, priority, total, CapsOf(), freed, total', fits, View(), budget.queued);
    }

    method AddIf(m: Message, fits: bool) returns (result: EnqueueResult)
      requires Shaped()
      modifies this`slots, this`head, this`count, this`bytes, this`closeQueued, this`overflow, this`accepted, slots, budget
      ensures Shaped() && (slots == old(slots) || fresh(slots))
      ensures (View(), budget.queued)
              == if fits then Granted(old(View()), m, old(budget.queued), CapsOf()) else (Refuse(old(View()), m), old(budget.queued))
      ensures result == OverLimit <==> !fits
      ensures result == Taken <==> accepted == old(accepted) + [m]
      ensures result != AlreadyClosed
    {
      if !fits {
        overflow := if m.fatal then Some(m) else overflow;
        return OverLimit;
      }
      var ok := ReserveAndAdd(m);
      result := if ok then Taken else OverAggregate;
    }

    /** An ordinary frame is queued, refused for a full queue, or refused for a full process. */
    method Enqueue(m: Message, priority: bool) returns (result: EnqueueResult)
      requires Valid() && !m.fatal && m.size <= limit
      modifies this`slots, this`head, this`count, this`bytes, this`closeQueued, this`overflow, this`accepted, slots, budget
      ensures Valid() && (slots == old(slots) || fresh(slots))
      ensures budget.queued - bytes == old(budget.queued - bytes)
      ensures (View(), budget.queued) == Enqueued(old(View()), m, priority, old(budget.queued), CapsOf())
      ensures result == OverLimit <==> !old(closed || closeQueued) && !Fits(old(Resisting(priority)), m.size, limit)
      ensures result == Taken <==> accepted == old(accepted) + [m]
    {
      EnqueuedKeeps(View(), m, priority, budget.queued, CapsOf());
      result := EnqueueBytes(m, priority);
    }

    method TakeFirst() returns (m: Message)
      requires Shaped() && count > 0
      modifies this`head, this`count, slots
      ensures Shaped() && m == old(Contents())[0] && Contents() == old(Contents())[1..]
    {
      ghost var rest := slots[head + 1..head + count];
      m := slots[head];
      slots[head] := NO_MESSAGE;
      head, count := head + 1, count - 1;
      assert Contents() == rest;
    }

    /** The writer takes the first message and gives its bytes back. */
    method NextMessage() returns (next: Option<Message>)
      requires Valid()
      modifies this`head, this`count, this`bytes, this`written, slots, budget
      ensures Valid()
      ensures old(Contents()) == [] ==> next == None && View() == old(View()) && budget.queued == old(budget.queued)
      ensures old(Contents()) != [] ==>
        var m := old(Contents())[0];
        && next == Some(m)
        && View() == old(View()).(messages := old(Contents())[1..], bytes := old(bytes) - m.size, written := old(written) + [m])
        && budget.queued == old(budget.queued) - m.size
    {
      if count == 0 {
        return None;
      }
      ghost var popped := View().(messages := Contents()[1..], bytes := bytes - Contents()[0].size, written := written + [Contents()[0]]);
      PopSettles(View(), limit);
      var m := PopFirst();
      assert View() == popped;
      return Some(m);
    }

    method PopFirst() returns (m: Message)
      requires Shaped() && count > 0 && Contents()[0].size <= budget.queued
      modifies this`head, this`count, this`bytes, this`written, slots, budget
      ensures Shaped() && m == old(Contents())[0]
      ensures View() == old(View()).(messages := old(Contents())[1..], bytes := old(bytes) - m.size, written := old(written) + [m])
      ensures budget.queued == old(budget.queued) - m.size
    {
      m := TakeFirst();
      bytes := bytes - m.size;
      written := written + [m];
      var ok := budget.Release(m.size);
    }

    /** Drop every message and give all bytes back. */
    method Empty()
      requires Shaped() && 0 <= bytes <= budget.queued
      modifies this`count, this`bytes, this`cleared, slots, budget
      ensures Shaped() && Contents() == [] && bytes == 0 && cleared
      ensures budget.queued == old(budget.queued) - old(bytes)
    {
      var released := bytes;
      Blank(head, head + count);
      count, bytes, cleared := 0, 0, true;
      var ok := budget.Release(released);
    }

    method Stop()
      requires Valid()
      modifies this`count, this`bytes, this`cleared, this`closed, slots, budget
      ensures Valid() && Contents() == [] && closed
      ensures View() == old(View()).(messages := [], bytes := 0, closed := true, cleared := true)
      ensures budget.queued == old(budget.queued) - old(bytes)
    {
      ClearKeeps(View(), limit);
      AfterReleaseKeeps(BeginStop(View()), limit);
      Empty();
      closed := true;
    }

    /** The second half of a failure whose FATAL frame was refused. */
    method ClearFor(m: Message) returns (queued: bool)
      requires Valid() && overflow == Some(m)
      modifies this`slots, this`head, this`count, this`bytes, this`cleared, this`closed, this`closeQueued, this`overflow, this`accepted, slots, budget
      ensures Shaped() && (slots == old(slots) || fresh(slots))
      ensures (View(), budget.queued) == Cleared(old(View()), m, old(budget.queued), CapsOf())
      ensures queued <==> !old(closed) && m.size <= CapsOf().aggregate - (old(budget.queued) - old(bytes))
    {
      overflow := None;
      if closed {
        return false;
      }
      Empty();
      queued := OnlyThis(m);
    }

    /** The queue is empty: the FATAL frame alone goes in, or the queue closes. */
    method OnlyThis(m: Message) returns (queued: bool)
      requires Shaped() && Contents() == [] && bytes == 0
      modifies this`slots, this`head, this`count, this`bytes, this`closed, this`closeQueued, this`accepted, slots, budget
      ensures Shaped() && (slots == old(slots) || fresh(slots))
      ensures queued <==> m.size <= CapsOf().aggregate - old(budget.queued)
      ensures View() == if queued then old(View()).(messages := [m], bytes := m.size, closeQueued := true, accepted := old(accepted) + [m])
                        else old(View()).(closed := true)
      ensures budget.queued == old(budget.queued) + if queued then m.size else 0
    {
      queued := budget.Reserve(m.size);
      if queued {
        Add(m);
        assert [] + [m] == [m];
        bytes := m.size;
        closeQueued := true;
        accepted := accepted + [m];
      } else {
        closed := true;
      }
    }

    method GiveUp(m: Message)
      requires Valid() && overflow == Some(m) && failed
      modifies this`slots, this`head, this`count, this`bytes, this`cleared, this`closed, this`closeQueued, this`overflow, this`accepted, slots, budget
      ensures Valid() && failed && (slots == old(slots) || fresh(slots))
      ensures budget.queued - bytes == old(budget.queued - bytes)
      ensures (closeQueued && !closed && Contents() == [m]) || (closed && Contents() == [])
    {
      ClearedKeeps(View(), m, budget.queued, CapsOf());
      var queued := ClearFor(m);
      if !queued {
        Stop();
      }
    }

    /** Once: queue a FATAL frame, at the price of the whole queue if need be; give the connection up if even that fails. */
    method Fail(m: Message)
      requires Valid() && m.fatal && !m.droppable && m.size <= limit
      modifies this, slots, budget
      ensures Valid() && failed && (slots == old(slots) || fresh(slots))
      ensures budget.queued - bytes == old(budget.queued - bytes)
      ensures old(failed) ==> View() == old(View())
      ensures !old(failed) ==>
        || (closeQueued && !closed && Contents() != [] && Contents()[|Contents()| - 1] == m)
        || (closed && Contents() == [])
    {
      if failed {
        return;
      }
      failed := true;
      var queued := EnqueueFatal(m);
      if !queued {
        GiveUp(m);
      }
    }

    method EnqueueFatal(m: Message) returns (queued: bool)
      requires Valid() && failed && overflow.None? && !closeQueued && m.fatal && !m.droppable && m.size <= limit
      modifies this`slots, this`head, this`count, this`bytes, this`closeQueued, this`overflow, this`accepted, slots, budget
      ensures Valid() && (slots == old(slots) || fresh(slots))
      ensures budget.queued - bytes == old(budget.queued - bytes)
      ensures queued ==> closeQueued && !closed && Contents() != [] && Contents()[|Contents()| - 1] == m
      ensures !queued ==> overflow == Some(m)
    {
      FatalGoesLast(View(), m, budget.queued, CapsOf());
      var result := EnqueueBytes(m, true);
      queued := result == Taken;
    }
  }

  lemma EnqueuedByParts(l: Lane, m: Message, priority: bool, total: int, caps: Caps,
                        freed: Lane, total': int, fits: bool, after: Lane, total'': int)
    requires !l.closed && !l.closeQueued && l.bytes == Bytes(l.messages)
    requires var left := if priority && l.bytes + m.size > caps.limit then Evicted(l.messages, m.size, caps.limit) else l.messages;
             freed == l.(messages := left, bytes := Bytes(left)) && total' == total - (l.bytes - Bytes(left))
    requires fits <==> freed.bytes + m.size <= caps.limit
    requires (after, total'') == if fits then Granted(freed, m, total', caps) else (Refuse(freed, m), total')
    requires l.task.Idle?
    ensures (after, total'') == Enqueued(l, m, priority, total, caps)
  {
  }

  /** A FATAL frame that is taken is the last message; one that is not overflows. */
  lemma FatalGoesLast(l: Lane, m: Message, total: int, caps: Caps)
    requires LaneOK(l, caps.limit) && l.task.Idle? && m.size <= caps.limit && l.bytes <= total
    requires m.fatal && l.failed && l.overflow.None? && !l.closeQueued && !m.droppable
    ensures var (l', total') := Enqueued(l, m, true, total, caps);
            && LaneOK(l', caps.limit) && total' - l'.bytes == total - l.bytes
            && (if l'.accepted == l.accepted + [m]
                then l'.closeQueued && !l'.closed && l'.messages != [] && l'.messages[|l'.messages| - 1] == m
                else l'.overflow == Some(m))
  {
    EnqueuedKeeps(l, m, true, total, caps);
  }

  /** Whether a priority message fits in the end depends on what may not be dropped. */
  lemma RoomAfterEviction(ms: seq<Message>, required: nat, limit: int)
    ensures var left := if Bytes(ms) + required > limit then Evicted(ms, required, limit) else ms;
            Bytes(left) + required > limit <==> !Fits(Undroppable(ms), required, limit)
  {
    PriorityFailsOnlyOnUndroppable(ms, required, limit);
    FewerBytes(ms, 0);
  }

  /** An eviction that has seen `seen` messages, dropped the first `dropped` droppable ones and kept `kept`. */
  ghost predicate Evicting(ms: seq<Message>, seen: int, dropped: nat, kept: seq<Message>, bytes: int, required: nat, limit: int) {
    && 0 <= seen <= |ms|
    && dropped <= Droppables(ms[..seen])
    && kept == WithoutFirst(ms[..seen], dropped)
    && bytes == Bytes(WithoutFirst(ms, dropped))
    && (forall j: nat :: j < dropped ==> !Fits(WithoutFirst(ms, j), required, limit))
    && (dropped < Droppables(ms[..seen]) ==> Fits(WithoutFirst(ms, dropped), required, limit))
  }

  lemma StartEviction(ms: seq<Message>, required: nat, limit: int)
    ensures Evicting(ms, 0, 0, [], Bytes(ms), required, limit)
  {
    WithoutNone(ms);
  }

  lemma Split(ms: seq<Message>, seen: nat)
    requires seen < |ms|
    ensures ms[..seen + 1] == ms[..seen] + [ms[seen]]
    ensures ms == ms[..seen] + [ms[seen]] + ms[seen + 1..]
  {
  }

  /** One more message is dropped while the rest does not fit, and kept otherwise. */
  lemma SeeOne(ms: seq<Message>, seen: nat, m: Message, dropped: nat, kept: seq<Message>, bytes: int, required: nat, limit: int)
    requires Evicting(ms, seen, dropped, kept, bytes, required, limit) && seen < |ms| && ms[seen] == m
    ensures if m.droppable && bytes + required > limit
            then Evicting(ms, seen + 1, dropped + 1, kept, bytes - m.size, required, limit) && m.size <= bytes
            else Evicting(ms, seen + 1, dropped, kept + [m], bytes, required, limit)
  {
    Split(ms, seen);
    OneMoreSeen(ms[..seen], m, ms[seen + 1..], dropped);
  }

  /** One pass over the queue: each message in turn is dropped or kept. */
  function Scan(ms: seq<Message>, total: int, required: nat, limit: int): (seq<Message>, int) {
    if ms == [] then ([], total)
    else
      var (kept, left) := Scan(ms[..|ms| - 1], total, required, limit);
      var last := ms[|ms| - 1];
      if last.droppable && left + required > limit then (kept, left - last.size) else (kept + [last], left)
  }

  lemma ScanOneMore(done: seq<Message>, m: Message, total: int, required: nat, limit: int)
    ensures var (kept, left) := Scan(done, total, required, limit);
            Scan(done + [m], total, required, limit)
            == if m.droppable && left + required > limit then (kept, left - m.size) else (kept + [m], left)
  {
    assert (done + [m])[..|done|] == done;
  }

  lemma {:induction false} ScanProgress(ms: seq<Message>, seen: nat, required: nat, limit: int) returns (dropped: nat)
    requires seen <= |ms|
    ensures var (kept, left) := Scan(ms[..seen], Bytes(ms), required, limit);
            Evicting(ms, seen, dropped, kept, left, required, limit)
  {
    if seen == 0 {
      dropped := 0;
      StartEviction(ms, required, limit);
    } else {
      dropped := ScanProgress(ms, seen - 1, required, limit);
      var (kept, left) := Scan(ms[..seen - 1], Bytes(ms), required, limit);
      SeeOne(ms, seen - 1, ms[seen - 1], dropped, kept, left, required, limit);
      assert ms[..seen][..seen - 1] == ms[..seen - 1];
      if ms[seen - 1].droppable && left + required > limit {
        dropped := dropped + 1;
      }
    }
  }

  /** The pass drops exactly the shortest run of droppable messages that makes room. */
  lemma ScanEvicts(ms: seq<Message>, required: nat, limit: int)
    ensures Scan(ms, Bytes(ms), required, limit) == (Evicted(ms, required, limit), Bytes(Evicted(ms, required, limit)))
  {
    var dropped := ScanProgress(ms, |ms|, required, limit);
    assert ms[..|ms|] == ms;
    var (kept, left) := Scan(ms, Bytes(ms), required, limit);
    EvictionEnds(ms, dropped, kept, left, required, limit);
  }

  lemma EvictionEnds(ms: seq<Message>, dropped: nat, kept: seq<Message>, bytes: int, required: nat, limit: int)
    requires Evicting(ms, |ms|, dropped, kept, bytes, required, limit)
    ensures kept == Evicted(ms, required, limit) && bytes == Bytes(kept)
  {
    assert ms[..|ms|] == ms;
    DropCountIsShortest(ms, required, limit, 0);
    ShortestDropIsUnique(ms, dropped, DropCount(ms, required, limit, 0), required, limit);
  }

  /** What seeing one more message means for both choices. */
  lemma OneMoreSeen(done: seq<Message>, m: Message, rest: seq<Message>, k: nat)
    requires k <= Droppables(done)
    ensures WithoutFirst(done + [m], k) == WithoutFirst(done, k) + [m]
    ensures Droppables(done + [m]) == Droppables(done) + if m.droppable then 1 else 0
    ensures m.droppable && k == Droppables(done) ==>
      && WithoutFirst(done + [m], k + 1) == WithoutFirst(done, k)
      && Bytes(WithoutFirst(done + [m] + rest, k + 1)) == Bytes(WithoutFirst(done + [m] + rest, k)) - m.size
  {
    assert (done + [m])[..|done|] == done;
    if m.droppable && k == Droppables(done) {
      WithoutAll(done, k);
      WithoutAll(done, k + 1);
      DroppingSaves(done, m, rest, k);
    }
  }

  lemma DroppingSaves(done: seq<Message>, m: Message, rest: seq<Message>, k: nat)
    requires k == Droppables(done) && k + 1 <= Droppables(done + [m])
    requires WithoutFirst(done + [m], k) == WithoutFirst(done, k) + [m] && WithoutFirst(done + [m], k + 1) == WithoutFirst(done, k)
    ensures Bytes(WithoutFirst(done + [m] + rest, k + 1)) == Bytes(WithoutFirst(done + [m] + rest, k)) - m.size
  {
    var kept := WithoutFirst(done, k);
    WithoutFirstAppend(done + [m], rest, k);
    WithoutFirstAppend(done + [m], rest, k + 1);
    BytesOneMore(kept, m);
    BytesAppend(kept + [m], rest);
    BytesAppend(kept, rest);
  }
}
