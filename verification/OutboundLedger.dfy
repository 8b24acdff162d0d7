/**
 All outbound queues and the process-wide byte budget. A connection holds its queue lock through an
 operation, but the budget has its own lock: between any two of the small steps below other
 connections may run.
 */
module OutboundLedger {
  import opened Basics
  import opened Outbound

  /** Where an operation on a queue stands with respect to the budget. */
  datatype Task =
    | Idle
    | Freeing(amount: nat, next: Option<Message>, clearing: bool)
    | Reserving(m: Message, clearing: bool)
    | Holding(m: Message, clearing: bool)

  /**
   One connection. `failed` says that its single failure has begun, `overflow` that the FATAL frame
   of that failure was refused and the queue has yet to be cleared for it. `written` and `accepted`
   are the history of what left and entered the queue, and `cleared` that messages were thrown away.
   */
  datatype Lane = Lane(
    messages: seq<Message>,
    bytes: int,
    closed: bool,
    closeQueued: bool,
    failed: bool,
    overflow: Option<Message>,
    task: Task,
    written: seq<Message>,
    accepted: seq<Message>,
    cleared: bool)

  datatype Ledger = Ledger(lanes: seq<Lane>, total: int)

  datatype Caps = Caps(limit: int, aggregate: int)

  function NewLane(): Lane {
    Lane([], 0, false, false, false, None, Idle, [], [], false)
  }

  // ---------- one lane ----------

  /** A refused FATAL frame sends the failure on to clear the queue. */
  function Refuse(l: Lane, m: Message): Lane {
    l.(task := Idle, overflow := if m.fatal then Some(m) else l.overflow)
  }

  function CheckLimit(l: Lane, m: Message, limit: int): Lane {
    if l.bytes + m.size > limit then Refuse(l, m) else l.(task := Reserving(m, false))
  }

  function BeginEnqueue(l: Lane, m: Message, priority: bool, limit: int): Lane {
    if l.closed || l.closeQueued then Refuse(l, m)
    else if priority && l.bytes + m.size > limit then
      var left := Evicted(l.messages, m.size, limit);
      l.(messages := left, bytes := Bytes(left),
         task := Freeing(if l.bytes >= Bytes(left) then l.bytes - Bytes(left) else 0, Some(m), false))
    else CheckLimit(l, m, limit)
  }

  /** The failure clears a queue that is still open, to make room for its FATAL frame. */
  function BeginClear(l: Lane, m: Message): Lane {
    if l.closed then l.(overflow := None)
    else l.(messages := [], bytes := 0, overflow := None, cleared := true,
            task := Freeing(if l.bytes >= 0 then l.bytes else 0, Some(m), true))
  }

  function BeginStop(l: Lane): Lane {
    l.(messages := [], bytes := 0, closed := true, cleared := true,
       task := Freeing(if l.bytes >= 0 then l.bytes else 0, None, false))
  }

  function BeginPop(l: Lane): Lane
    requires l.messages != []
  {
    l.(messages := l.messages[1..], bytes := l.bytes - l.messages[0].size, written := l.written + [l.messages[0]],
       task := Freeing(l.messages[0].size, None, false))
  }

  function AfterRelease(l: Lane, limit: int): Lane
    requires l.task.Freeing?
  {
    match l.task.next
    case None => l.(task := Idle)
    case Some(m) => if l.task.clearing then l.(task := Reserving(m, true)) else CheckLimit(l, m, limit)
  }

  function AfterReserve(l: Lane, granted: bool): Lane
    requires l.task.Reserving?
  {
    if granted then l.(task := Holding(l.task.m, l.task.clearing))
    else if l.task.clearing then l.(task := Idle, closed := true)
    else Refuse(l, l.task.m)
  }

  function Append(l: Lane): Lane
    requires l.task.Holding?
  {
    var m := l.task.m;
    l.(task := Idle, messages := l.messages + [m], bytes := l.bytes + m.size,
       closeQueued := l.closeQueued || m.fatal, accepted := l.accepted + [m])
  }

  // ---------- steps ----------

  datatype Move =
    | Open
    | Enqueue(m: Message, priority: bool)
    | Fail(m: Message)
    | Clear
    | Stop
    | Pop
    | Continue

  predicate CanMove(g: Ledger, i: nat, move: Move, caps: Caps) {
    match move
    case Open => i == |g.lanes|
    case Enqueue(m, _) => i < |g.lanes| && g.lanes[i].task.Idle? && !m.fatal && m.size <= caps.limit
    case Fail(m) => i < |g.lanes| && g.lanes[i].task.Idle? && !g.lanes[i].failed && m.fatal && !m.droppable && m.size <= caps.limit
    case Clear => i < |g.lanes| && g.lanes[i].task.Idle? && g.lanes[i].overflow.Some?
    case Stop => i < |g.lanes| && g.lanes[i].task.Idle?
    case Pop => i < |g.lanes| && g.lanes[i].task.Idle? && g.lanes[i].messages != []
    case Continue => i < |g.lanes| && !g.lanes[i].task.Idle?
  }

  predicate ReleaseSucceeds(g: Ledger, i: nat)
    requires i < |g.lanes| && g.lanes[i].task.Freeing?
  {
    g.lanes[i].task.amount <= g.total
  }

  predicate ReserveSucceeds(g: Ledger, size: nat, caps: Caps) {
    size <= caps.aggregate - g.total
  }

  /** The next access of a running operation to the budget; a release beyond the total changes nothing. */
  function Advance(g: Ledger, i: nat, caps: Caps): Ledger
    requires i < |g.lanes| && !g.lanes[i].task.Idle?
  {
    var l := g.lanes[i];
    match l.task
    case Freeing(amount, _, _) =>
      Ledger(g.lanes[i := AfterRelease(l, caps.limit)], if ReleaseSucceeds(g, i) then g.total - amount else g.total)
    case Reserving(m, _) =>
      var granted := ReserveSucceeds(g, m.size, caps);
      Ledger(g.lanes[i := AfterReserve(l, granted)], if granted then g.total + m.size else g.total)
    case Holding(_, _) => g.(lanes := g.lanes[i := Append(l)])
  }

  function Moved(g: Ledger, i: nat, move: Move, caps: Caps): Ledger
    requires CanMove(g, i, move, caps)
  {
    match move
    case Open => g.(lanes := g.lanes + [NewLane()])
    case Enqueue(m, priority) => g.(lanes := g.lanes[i := BeginEnqueue(g.lanes[i], m, priority, caps.limit)])
    case Fail(m) => g.(lanes := g.lanes[i := BeginEnqueue(g.lanes[i].(failed := true), m, true, caps.limit)])
    case Clear => g.(lanes := g.lanes[i := BeginClear(g.lanes[i], g.lanes[i].overflow.value)])
    case Stop => g.(lanes := g.lanes[i := BeginStop(g.lanes[i])])
    case Pop => g.(lanes := g.lanes[i := BeginPop(g.lanes[i])])
    case Continue => Advance(g, i, caps)
  }

  ghost predicate LedgerSteps(g: Ledger, g': Ledger, caps: Caps) {
    exists i, move :: CanMove(g, i, move, caps) && g' == Moved(g, i, move, caps)
  }

  ghost predicate LedgerStepsTo(gs: seq<Ledger>, caps: Caps, j: int)
    requires 0 < j < |gs|
  {
    LedgerSteps(gs[j - 1], gs[j], caps)
  }

  ghost predicate LedgerRun(gs: seq<Ledger>, caps: Caps) {
    && gs != [] && gs[0] == Ledger([], 0) && 0 <= caps.limit <= caps.aggregate
    && forall j :: 0 < j < |gs| ==> LedgerStepsTo(gs, caps, j)
  }

  // ---------- what a lane keeps ----------

  /** Bytes the budget counts for a lane beyond those of its queue. */
  function Transit(task: Task): nat {
    match task
    case Freeing(amount, _, _) => amount
    case Holding(m, _) => m.size
    case _ => 0
  }

  /** No message follows a FATAL one. */
  ghost predicate FatalLast(ms: seq<Message>) {
    forall k :: 0 <= k < |ms| - 1 ==> !ms[k].fatal
  }

  ghost predicate NoFatal(ms: seq<Message>) {
    forall k :: 0 <= k < |ms| ==> !ms[k].fatal
  }

  /** A message on its way in fits, and is either ordinary or the FATAL frame of the failure. */
  predicate Incoming(l: Lane, m: Message, clearing: bool, limit: int) {
    && m.size <= limit
    && !l.closed && !l.closeQueued
    && (m.fatal ==> l.failed && l.overflow.None? && !m.droppable)
    && (clearing ==> m.fatal && l.messages == [])
  }

  ghost predicate TaskOK(l: Lane, limit: int) {
    match l.task
    case Idle => true
    case Freeing(_, next, clearing) => (next.Some? ==> Incoming(l, next.value, clearing, limit)) && (clearing ==> next.Some?)
    case Reserving(m, clearing) => Incoming(l, m, clearing, limit) && l.bytes + m.size <= limit
    case Holding(m, clearing) => Incoming(l, m, clearing, limit) && l.bytes + m.size <= limit
  }

  ghost predicate OrderOK(l: Lane) {
    && FatalLast(l.written + l.messages)
    && (!l.closeQueued ==> NoFatal(l.written + l.messages))
    && (!l.cleared ==> Retains(l.accepted, l.written + l.messages))
  }

  ghost predicate LaneOK(l: Lane, limit: int) {
    && l.bytes == Bytes(l.messages) && l.bytes <= limit
    && (l.closeQueued ==> l.failed)
    && (l.overflow.Some? ==>
      l.failed && !l.closeQueued && l.overflow.value.fatal && !l.overflow.value.droppable && l.overflow.value.size <= limit)
    && TaskOK(l, limit)
    && OrderOK(l)
  }

  // ---------- every lane keeps its count, its limit and its order ----------

  lemma FatalLastOneMore(ms: seq<Message>, m: Message)
    requires NoFatal(ms)
    ensures FatalLast(ms + [m]) && (!m.fatal ==> NoFatal(ms + [m]))
  {
  }

  /** Leaving messages out of the queue keeps FATAL last and the history retained. */
  lemma EvictOrder(l: Lane, left: seq<Message>, k: nat)
    requires OrderOK(l) && !l.closeQueued && left == WithoutFirst(l.messages, k)
    ensures OrderOK(l.(messages := left))
  {
    WithoutFirstRetains(l.written, l.messages, k);
    KeptHasNoFatal(l.written + l.messages, l.written + left);
    if !l.cleared {
      RetainsTransitive(l.accepted, l.written + l.messages, l.written + left);
    }
  }

  lemma {:induction false} KeptHasNoFatal(all: seq<Message>, kept: seq<Message>)
    requires Retains(all, kept) && NoFatal(all)
    ensures NoFatal(kept)
    decreases |all|
  {
    if all != [] {
      if kept != [] && kept[|kept| - 1] == all[|all| - 1] && Retains(all[..|all| - 1], kept[..|kept| - 1]) {
        KeptHasNoFatal(all[..|all| - 1], kept[..|kept| - 1]);
      } else {
        KeptHasNoFatal(all[..|all| - 1], kept);
      }
    }
  }

  lemma BeginEnqueueKeeps(l: Lane, m: Message, priority: bool, limit: int)
    requires LaneOK(l, limit) && l.task.Idle? && m.size <= limit
    requires m.fatal ==> l.failed && l.overflow.None? && !l.closeQueued && !m.droppable
    ensures LaneOK(BeginEnqueue(l, m, priority, limit), limit)
  {
    if !l.closed && !l.closeQueued && priority && l.bytes + m.size > limit {
      var k := DropCount(l.messages, m.size, limit, 0);
      FewerBytes(l.messages, k);
      EvictOrder(l, Evicted(l.messages, m.size, limit), k);
    }
  }

  lemma PopKeeps(l: Lane, limit: int)
    requires LaneOK(l, limit) && l.task.Idle? && l.messages != []
    ensures LaneOK(BeginPop(l), limit)
  {
    assert l.messages == [l.messages[0]] + l.messages[1..];
    BytesAppend([l.messages[0]], l.messages[1..]);
    BytesOneMore([], l.messages[0]);
    assert [] + [l.messages[0]] == [l.messages[0]];
    assert l.written + [l.messages[0]] + l.messages[1..] == l.written + l.messages;
  }

  lemma PopSettles(l: Lane, limit: int)
    requires LaneOK(l, limit) && l.task.Idle? && l.messages != []
    ensures 0 <= l.bytes - l.messages[0].size
    ensures LaneOK(l.(messages := l.messages[1..], bytes := l.bytes - l.messages[0].size, written := l.written + [l.messages[0]]), limit)
  {
    PopKeeps(l, limit);
  }

  lemma ClearKeeps(l: Lane, limit: int)
    requires LaneOK(l, limit) && l.task.Idle? && limit >= 0
    ensures l.overflow.Some? ==> LaneOK(BeginClear(l, l.overflow.value), limit)
    ensures LaneOK(BeginStop(l), limit)
  {
    forall k | 0 <= k < |l.written| ensures (l.written + l.messages)[k] == l.written[k] {
    }
    assert l.written + [] == l.written;
  }

  lemma AppendKeeps(l: Lane, limit: int)
    requires LaneOK(l, limit) && l.task.Holding?
    ensures LaneOK(Append(l), limit)
  {
    var m := l.task.m;
    BytesOneMore(l.messages, m);
    assert l.written + (l.messages + [m]) == l.written + l.messages + [m];
    FatalLastOneMore(l.written + l.messages, m);
    if !l.cleared {
      RetainsOneMore(l.accepted, l.written + l.messages, m);
    }
  }

  lemma AfterReleaseKeeps(l: Lane, limit: int)
    requires LaneOK(l, limit) && l.task.Freeing?
    ensures LaneOK(AfterRelease(l, limit), limit)
  {
    assert Bytes([]) == 0;
  }

  lemma AfterReserveKeeps(l: Lane, granted: bool, limit: int)
    requires LaneOK(l, limit) && l.task.Reserving?
    ensures LaneOK(AfterReserve(l, granted), limit)
  {
    assert Bytes([]) == 0;
  }

  // ---------- the budget ----------

  /** Everything the budget has to count. */
  function Held(lanes: seq<Lane>): int {
    if lanes == [] then 0
    else Held(lanes[..|lanes| - 1]) + lanes[|lanes| - 1].bytes + Transit(lanes[|lanes| - 1].task)
  }

  lemma {:induction false} HeldUpdate(lanes: seq<Lane>, i: nat, l: Lane)
    requires i < |lanes|
    ensures Held(lanes[i := l]) == Held(lanes) - lanes[i].bytes - Transit(lanes[i].task) + l.bytes + Transit(l.task)
  {
    var last := |lanes| - 1;
    if i == last {
      assert lanes[i := l][..last] == lanes[..last];
    } else {
      HeldUpdate(lanes[..last], i, l);
      assert lanes[i := l][..last] == lanes[..last][i := l];
    }
  }

  lemma {:induction false} HeldCovers(lanes: seq<Lane>, i: nat)
    requires i < |lanes| && forall k :: 0 <= k < |lanes| ==> lanes[k].bytes >= 0
    ensures 0 <= lanes[i].bytes + Transit(lanes[i].task) <= Held(lanes)
  {
    var last := |lanes| - 1;
    HeldNonNegative(lanes[..last]);
    if i < last {
      HeldCovers(lanes[..last], i);
    }
  }

  lemma {:induction false} HeldNonNegative(lanes: seq<Lane>)
    requires forall k :: 0 <= k < |lanes| ==> lanes[k].bytes >= 0
    ensures Held(lanes) >= 0
  {
    if lanes != [] {
      HeldNonNegative(lanes[..|lanes| - 1]);
    }
  }

  /** The total is exactly what the connections hold, within the limit of each and of the process. */
  ghost predicate LedgerInv(g: Ledger, caps: Caps) {
    && (forall i :: 0 <= i < |g.lanes| ==> LaneOK(g.lanes[i], caps.limit))
    && g.total == Held(g.lanes) && 0 <= g.total <= caps.aggregate
  }

  lemma LaneMoves(g: Ledger, i: nat, move: Move, caps: Caps)
    requires LedgerInv(g, caps) && CanMove(g, i, move, caps) && !move.Open? && caps.limit >= 0
    ensures LaneOK(Moved(g, i, move, caps).lanes[i], caps.limit)
  {
    var l := g.lanes[i];
    assert LaneOK(l, caps.limit);
    match move
    case Enqueue(m, priority) => BeginEnqueueKeeps(l, m, priority, caps.limit);
    case Fail(m) => BeginEnqueueKeeps(l.(failed := true), m, true, caps.limit);
    case Clear => ClearKeeps(l, caps.limit);
    case Stop => ClearKeeps(l, caps.limit);
    case Pop => PopKeeps(l, caps.limit);
    case Continue =>
      if l.task.Holding? {
        AppendKeeps(l, caps.limit);
      } else if l.task.Reserving? {
        AfterReserveKeeps(l, ReserveSucceeds(g, l.task.m.size, caps), caps.limit);
      } else {
        AfterReleaseKeeps(l, caps.limit);
      }
  }

  /** Every release of a running operation is covered by the total. */
  lemma EveryReleaseSucceeds(g: Ledger, i: nat, caps: Caps)
    requires LedgerInv(g, caps) && i < |g.lanes| && g.lanes[i].task.Freeing?
    ensures ReleaseSucceeds(g, i)
  {
    forall k | 0 <= k < |g.lanes| ensures g.lanes[k].bytes >= 0 {
      assert LaneOK(g.lanes[k], caps.limit);
    }
    HeldCovers(g.lanes, i);
    assert LaneOK(g.lanes[i], caps.limit);
  }

  /** No step but an access to the budget changes what a lane holds. */
  lemma BeginHolds(l: Lane, m: Message, priority: bool, limit: int)
    requires LaneOK(l, limit) && l.task.Idle?
    ensures var l' := BeginEnqueue(l, m, priority, limit); l'.bytes + Transit(l'.task) == l.bytes
    ensures var l' := BeginClear(l, m); l'.bytes + Transit(l'.task) == l.bytes
    ensures var l' := BeginStop(l); l'.bytes + Transit(l'.task) == l.bytes
    ensures l.messages != [] ==> var l' := BeginPop(l); l'.bytes + Transit(l'.task) == l.bytes
  {
    FewerBytes(l.messages, DropCount(l.messages, m.size, limit, 0));
  }

  lemma TotalMoves(g: Ledger, i: nat, move: Move, caps: Caps)
    requires LedgerInv(g, caps) && CanMove(g, i, move, caps) && !move.Open?
    ensures var g' := Moved(g, i, move, caps); g'.total == Held(g'.lanes) && 0 <= g'.total <= caps.aggregate
  {
    var l := g.lanes[i];
    assert LaneOK(l, caps.limit);
    var g' := Moved(g, i, move, caps);
    HeldUpdate(g.lanes, i, g'.lanes[i]);
    match move
    case Enqueue(m, priority) => BeginHolds(l, m, priority, caps.limit);
    case Fail(m) => BeginHolds(l.(failed := true), m, true, caps.limit);
    case Clear => BeginHolds(l, l.overflow.value, true, caps.limit);
    case Stop => BeginHolds(l, Message(0, 0, false, false), true, caps.limit);
    case Pop => BeginHolds(l, Message(0, 0, false, false), true, caps.limit);
    case Continue => ContinueMovesTotal(g, i, caps);
  }

  /** What one access to the budget does to a lane, with what it was granted. */
  lemma LaneHolds(l: Lane, limit: int, granted: bool)
    requires LaneOK(l, limit)
    ensures l.task.Freeing? ==>
              AfterRelease(l, limit).bytes + Transit(AfterRelease(l, limit).task) == l.bytes + Transit(l.task) - l.task.amount
    ensures l.task.Reserving? ==>
              AfterReserve(l, granted).bytes + Transit(AfterReserve(l, granted).task)
              == l.bytes + Transit(l.task) + if granted then l.task.m.size else 0
    ensures l.task.Holding? ==> Append(l).bytes + Transit(Append(l).task) == l.bytes + Transit(l.task)
  {
  }

  lemma ContinueMovesTotal(g: Ledger, i: nat, caps: Caps)
    requires LedgerInv(g, caps) && i < |g.lanes| && !g.lanes[i].task.Idle?
    ensures var g' := Advance(g, i, caps); g'.total == Held(g'.lanes) && 0 <= g'.total <= caps.aggregate
  {
    var l := g.lanes[i];
    assert LaneOK(l, caps.limit);
    HeldUpdate(g.lanes, i, Advance(g, i, caps).lanes[i]);
    match l.task
    case Freeing(_, _, _) =>
      EveryReleaseSucceeds(g, i, caps);
      LaneHolds(l, caps.limit, true);
    case Reserving(m, _) => LaneHolds(l, caps.limit, ReserveSucceeds(g, m.size, caps));
    case Holding(_, _) => LaneHolds(l, caps.limit, true);
  }

  lemma LedgerMoves(g: Ledger, i: nat, move: Move, caps: Caps)
    requires LedgerInv(g, caps) && CanMove(g, i, move, caps) && 0 <= caps.limit
    ensures LedgerInv(Moved(g, i, move, caps), caps)
  {
    var g' := Moved(g, i, move, caps);
    if move.Open? {
      assert g'.lanes[..|g.lanes|] == g.lanes;
      RetainsItself([]);
      assert LaneOK(NewLane(), caps.limit);
    } else {
      LaneMoves(g, i, move, caps);
      TotalMoves(g, i, move, caps);
      forall k | 0 <= k < |g'.lanes| ensures LaneOK(g'.lanes[k], caps.limit) {
        assert k != i ==> LaneOK(g.lanes[k], caps.limit);
      }
    }
  }

  lemma {:induction false} LedgerRunKeeps(gs: seq<Ledger>, caps: Caps, j: int)
    requires LedgerRun(gs, caps) && 0 <= j < |gs|
    ensures LedgerInv(gs[j], caps)
    decreases j
  {
    if j > 0 {
      LedgerRunKeeps(gs, caps, j - 1);
      assert LedgerStepsTo(gs, caps, j);
      var i, move :| CanMove(gs[j - 1], i, move, caps) && gs[j] == Moved(gs[j - 1], i, move, caps);
      LedgerMoves(gs[j - 1], i, move, caps);
    }
  }

  /** In every reachable state: counts, limits, conservation, and releases that never fail. */
  lemma BytesAreConserved(gs: seq<Ledger>, caps: Caps, j: int)
    requires LedgerRun(gs, caps) && 0 <= j < |gs|
    ensures gs[j].total == Held(gs[j].lanes) && 0 <= gs[j].total <= caps.aggregate
    ensures forall i: nat :: i < |gs[j].lanes| ==>
      && gs[j].lanes[i].bytes == Bytes(gs[j].lanes[i].messages) && 0 <= gs[j].lanes[i].bytes <= caps.limit
      && (gs[j].lanes[i].task.Freeing? ==> ReleaseSucceeds(gs[j], i))
  {
    LedgerRunKeeps(gs, caps, j);
    forall i: nat | i < |gs[j].lanes|
      ensures gs[j].lanes[i].bytes == Bytes(gs[j].lanes[i].messages) && 0 <= gs[j].lanes[i].bytes <= caps.limit
      ensures gs[j].lanes[i].task.Freeing? ==> ReleaseSucceeds(gs[j], i)
    {
      assert LaneOK(gs[j].lanes[i], caps.limit);
      if gs[j].lanes[i].task.Freeing? {
        EveryReleaseSucceeds(gs[j], i, caps);
      }
    }
  }

  /** In every reachable state: first in, first out, less dropped stream frames, and nothing behind a FATAL frame. */
  lemma QueuesKeepOrder(gs: seq<Ledger>, caps: Caps, j: int, i: nat)
    requires LedgerRun(gs, caps) && 0 <= j < |gs| && i < |gs[j].lanes|
    ensures var l := gs[j].lanes[i];
            && FatalLast(l.written + l.messages)
            && (!l.cleared ==> Retains(l.accepted, l.written + l.messages))
  {
    LedgerRunKeeps(gs, caps, j);
    assert LaneOK(gs[j].lanes[i], caps.limit);
  }

  // ---------- an operation without interruption ----------

  function Remaining(task: Task): nat {
    match task
    case Idle => 0
    case Freeing(_, _, _) => 3
    case Reserving(_, _) => 2
    case Holding(_, _) => 1
  }

  /** The rest of a lane's operation and the total it leaves, when nobody else touches the budget meanwhile. */
  function Settle(l: Lane, total: int, caps: Caps): (Lane, int)
    decreases Remaining(l.task)
  {
    match l.task
    case Idle => (l, total)
    case Freeing(amount, _, _) => Settle(AfterRelease(l, caps.limit), if amount <= total then total - amount else total, caps)
    case Reserving(m, _) =>
      var granted := m.size <= caps.aggregate - total;
      Settle(AfterReserve(l, granted), if granted then total + m.size else total, caps)
    case Holding(_, _) => (Append(l), total)
  }

  /** A message that passed the local limit is counted and queued, or refused by the budget. */
  function Granted(l: Lane, m: Message, total: int, caps: Caps): (Lane, int) {
    if m.size > caps.aggregate - total then (Refuse(l, m), total)
    else (l.(task := Idle, messages := l.messages + [m], bytes := l.bytes + m.size,
             closeQueued := l.closeQueued || m.fatal, accepted := l.accepted + [m]), total + m.size)
  }

  /** A whole enqueue: evict for a priority message, check the queue's limit, then ask the budget. */
  function Enqueued(l: Lane, m: Message, priority: bool, total: int, caps: Caps): (Lane, int) {
    if l.closed || l.closeQueued then (Refuse(l, m), total)
    else
      var left := if priority && l.bytes + m.size > caps.limit then Evicted(l.messages, m.size, caps.limit) else l.messages;
      var freed := l.(messages := left, bytes := Bytes(left));
      var total' := total - (l.bytes - Bytes(left));
      if Bytes(left) + m.size > caps.limit then (Refuse(freed, m), total') else Granted(freed, m, total', caps)
  }

  lemma ReservingSettles(l: Lane, total: int, caps: Caps)
    requires l.task.Reserving? && !l.task.clearing
    ensures Settle(l, total, caps) == Granted(l.(task := Idle), l.task.m, total, caps)
  {
    var granted := l.task.m.size <= caps.aggregate - total;
    var l' := AfterReserve(l, granted);
    assert Settle(l, total, caps) == Settle(l', if granted then total + l.task.m.size else total, caps);
  }

  /** ... which is what its small steps come to. */
  lemma EnqueueSettles(l: Lane, m: Message, priority: bool, total: int, caps: Caps)
    requires l.task.Idle? && l.bytes == Bytes(l.messages) <= total
    ensures Settle(BeginEnqueue(l, m, priority, caps.limit), total, caps) == Enqueued(l, m, priority, total, caps)
  {
    if !l.closed && !l.closeQueued {
      if priority && l.bytes + m.size > caps.limit {
        EvictingSettles(l, m, Evicted(l.messages, m.size, caps.limit), total, caps);
      } else if l.bytes + m.size <= caps.limit {
        ReservingSettles(CheckLimit(l, m, caps.limit), total, caps);
      }
    }
  }

  lemma EvictingSettles(l: Lane, m: Message, left: seq<Message>, total: int, caps: Caps)
    requires l.task.Idle? && !l.closed && !l.closeQueued && l.bytes == Bytes(l.messages) <= total && l.bytes + m.size > caps.limit
    requires left == Evicted(l.messages, m.size, caps.limit)
    ensures Settle(BeginEnqueue(l, m, true, caps.limit), total, caps) == Enqueued(l, m, true, total, caps)
  {
    FewerBytes(l.messages, DropCount(l.messages, m.size, caps.limit, 0));
    var begun := BeginEnqueue(l, m, true, caps.limit);
    var freed := l.(messages := left, bytes := Bytes(left));
    assert begun == freed.(task := Freeing(l.bytes - Bytes(left), Some(m), false));
    EvictedSettles(l, m, freed, begun, total, caps);
  }

  lemma EvictedSettles(l: Lane, m: Message, freed: Lane, begun: Lane, total: int, caps: Caps)
    requires l.task.Idle? && !l.closed && !l.closeQueued && freed.bytes <= l.bytes <= total && l.bytes + m.size > caps.limit
    requires freed == l.(messages := Evicted(l.messages, m.size, caps.limit), bytes := Bytes(Evicted(l.messages, m.size, caps.limit)))
    requires begun == freed.(task := Freeing(l.bytes - freed.bytes, Some(m), false))
    ensures Settle(begun, total, caps) == Enqueued(l, m, true, total, caps)
  {
    FreeingSettles(begun, m, total, caps);
    TaskEnds(freed, begun.task, m, total - (l.bytes - freed.bytes), caps);
  }

  /** The end of an enqueue does not depend on where it stood. */
  lemma TaskEnds(l: Lane, task: Task, m: Message, total: int, caps: Caps)
    requires l.task.Idle?
    ensures Refuse(l.(task := task), m) == Refuse(l, m) && Granted(l.(task := task), m, total, caps) == Granted(l, m, total, caps)
  {
  }

  lemma FreeingSettles(l: Lane, m: Message, total: int, caps: Caps)
    requires l.task.Freeing? && l.task.next == Some(m) && !l.task.clearing && l.task.amount <= total
    ensures Settle(l, total, caps) ==
            if l.bytes + m.size > caps.limit then (Refuse(l, m), total - l.task.amount) else Granted(l, m, total - l.task.amount, caps)
  {
    var released := AfterRelease(l, caps.limit);
    assert Settle(l, total, caps) == Settle(released, total - l.task.amount, caps);
    if released.task.Reserving? {
      ReservingSettles(released, total - l.task.amount, caps);
    }
  }

  /** One access to the budget moves the total exactly with what the lane holds. */
  lemma AccessKeeps(l: Lane, granted: bool, caps: Caps)
    requires LaneOK(l, caps.limit)
    ensures l.task.Freeing? ==>
      var l' := AfterRelease(l, caps.limit);
      LaneOK(l', caps.limit) && l'.bytes + Transit(l'.task) == l.bytes
    ensures l.task.Reserving? ==>
      var l' := AfterReserve(l, granted);
      LaneOK(l', caps.limit) && l'.bytes + Transit(l'.task) == l.bytes + (if granted then l.task.m.size else 0)
  {
    if l.task.Freeing? {
      AfterReleaseKeeps(l, caps.limit);
    } else if l.task.Reserving? {
      AfterReserveKeeps(l, granted, caps.limit);
    }
  }

  /** Uninterrupted, an operation keeps its lane and moves the total exactly with what the lane holds. */
  lemma {:induction false} SettleKeeps(l: Lane, total: int, caps: Caps)
    requires LaneOK(l, caps.limit) && l.bytes + Transit(l.task) <= total
    ensures var (l', total') := Settle(l, total, caps);
            && LaneOK(l', caps.limit) && l'.task.Idle?
            && total' - l'.bytes == total - l.bytes - Transit(l.task)
    decreases Remaining(l.task)
  {
    match l.task {
      case Idle =>
      case Freeing(amount, _, _) =>
        AccessKeeps(l, true, caps);
        SettleKeeps(AfterRelease(l, caps.limit), total - amount, caps);
      case Reserving(m, _) =>
        var granted := m.size <= caps.aggregate - total;
        AccessKeeps(l, granted, caps);
        SettleKeeps(AfterReserve(l, granted), if granted then total + m.size else total, caps);
      case Holding(_, _) =>
        AppendKeeps(l, caps.limit);
    }
  }

  lemma EnqueuedKeeps(l: Lane, m: Message, priority: bool, total: int, caps: Caps)
    requires LaneOK(l, caps.limit) && l.task.Idle? && m.size <= caps.limit && l.bytes <= total
    requires m.fatal ==> l.failed && l.overflow.None? && !l.closeQueued && !m.droppable
    ensures var (l', total') := Enqueued(l, m, priority, total, caps);
            LaneOK(l', caps.limit) && l'.task.Idle? && total' - l'.bytes == total - l.bytes
  {
    BeginEnqueueKeeps(l, m, priority, caps.limit);
    BeginHolds(l, m, priority, caps.limit);
    SettleKeeps(BeginEnqueue(l, m, priority, caps.limit), total, caps);
    EnqueueSettles(l, m, priority, total, caps);
  }

  /** A failure clears the queue for its FATAL frame, or gives the queue up. */
  function Cleared(l: Lane, m: Message, total: int, caps: Caps): (Lane, int) {
    if l.closed then (l.(overflow := None), total)
    else
      var empty := l.(messages := [], bytes := 0, overflow := None, cleared := true);
      var total' := total - l.bytes;
      if m.size > caps.aggregate - total' then (empty.(closed := true), total')
      else (empty.(messages := [m], bytes := m.size, closeQueued := true, accepted := l.accepted + [m]), total' + m.size)
  }

  lemma ClearedKeeps(l: Lane, m: Message, total: int, caps: Caps)
    requires LaneOK(l, caps.limit) && l.task.Idle? && l.overflow == Some(m) && l.bytes <= total && caps.limit >= 0
    ensures var (l', total') := Cleared(l, m, total, caps);
            LaneOK(l', caps.limit) && l'.task.Idle? && total' - l'.bytes == total - l.bytes
  {
    ClearKeeps(l, caps.limit);
    var begun := BeginClear(l, m);
    SettleKeeps(begun, total, caps);
    if !l.closed {
      var released := AfterRelease(begun, caps.limit);
      assert Settle(begun, total, caps) == Settle(released, total - l.bytes, caps);
      var granted := m.size <= caps.aggregate - (total - l.bytes);
      var reserved := AfterReserve(released, granted);
      assert Settle(released, total - l.bytes, caps) == Settle(reserved, if granted then total - l.bytes + m.size else total - l.bytes, caps);
      assert [] + [m] == [m];
    }
  }
}
