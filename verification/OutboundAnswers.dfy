/** Which messages an outbound queue takes, what it drops for them, and that nothing enters it after its end. */
module OutboundAnswers {
  import opened Basics
  import opened Outbound
  import opened OutboundLedger

  /** What stays of a queue for a message: everything, or for a priority message what the shortest eviction that makes room leaves. */
  ghost predicate Stays(messages: seq<Message>, m: Message, priority: bool, limit: int, k: nat) {
    if priority && Bytes(messages) + m.size > limit then ShortestDrop(messages, k, m.size, limit) else k == 0
  }

  lemma SomeStay(messages: seq<Message>, m: Message, priority: bool, limit: int)
    ensures exists k: nat :: Stays(messages, m, priority, limit, k)
  {
    if priority && Bytes(messages) + m.size > limit {
      DropCountIsShortest(messages, m.size, limit, 0);
      assert Stays(messages, m, priority, limit, DropCount(messages, m.size, limit, 0));
    } else {
      assert Stays(messages, m, priority, limit, 0);
    }
  }

  /**
   A message is taken exactly if the queue is open and what stays of it leaves room, both within the queue's limit
   and, with what all the others hold, within the budget. What stays is in order before it; the total moves with it.
   */
  lemma TakenIff(l: Lane, m: Message, priority: bool, total: int, caps: Caps, k: nat)
    requires l.task.Idle? && l.bytes == Bytes(l.messages) && Stays(l.messages, m, priority, caps.limit, k)
    ensures var (l', total') := Enqueued(l, m, priority, total, caps);
            var open, kept, others := !l.closed && !l.closeQueued, WithoutFirst(l.messages, k), total - Bytes(l.messages);
            var taken := open && Fits(kept, m.size, caps.limit) && others + Bytes(kept) + m.size <= caps.aggregate;
            && l'.messages == (if open then kept else l.messages) + (if taken then [m] else [])
            && l'.accepted == l.accepted + (if taken then [m] else [])
            && l'.written == l.written && l'.closed == l.closed && (l'.closeQueued <==> l.closeQueued || (taken && m.fatal))
            && total' == others + Bytes(l'.messages)
  {
    WithoutNone(l.messages);
    BytesOneMore(WithoutFirst(l.messages, k), m);
    if priority && Bytes(l.messages) + m.size > caps.limit {
      DropCountIsShortest(l.messages, m.size, caps.limit, 0);
      ShortestDropIsUnique(l.messages, k, DropCount(l.messages, m.size, caps.limit, 0), m.size, caps.limit);
    }
  }

  /** With room in the budget, a priority message is taken exactly if it fits beside what may not be dropped, an ordinary one if it fits beside everything. */
  lemma TakenWithinLimit(l: Lane, m: Message, priority: bool, total: int, caps: Caps)
    requires l.task.Idle? && l.bytes == Bytes(l.messages) && !l.closed && !l.closeQueued && total + m.size <= caps.aggregate
    ensures Enqueued(l, m, priority, total, caps).0.accepted
            == l.accepted + if Fits(if priority then Undroppable(l.messages) else l.messages, m.size, caps.limit) then [m] else []
  {
    SomeStay(l.messages, m, priority, caps.limit);
    var k: nat :| Stays(l.messages, m, priority, caps.limit, k);
    TakenIff(l, m, priority, total, caps, k);
    FewerBytes(l.messages, k);
    WithoutNone(l.messages);
    if priority && Bytes(l.messages) + m.size > caps.limit {
      PriorityFailsOnlyOnUndroppable(l.messages, m.size, caps.limit);
      DropCountIsShortest(l.messages, m.size, caps.limit, 0);
      ShortestDropIsUnique(l.messages, k, DropCount(l.messages, m.size, caps.limit, 0), m.size, caps.limit);
    }
  }

  // ---------- after the end ----------

  /** Closed, or with its FATAL frame queued. */
  predicate Ended(l: Lane) {
    l.closed || l.closeQueued
  }

  /** Nothing enters an ended lane, and it stays ended. */
  predicate NothingEnters(l: Lane, l': Lane) {
    Ended(l) ==> Ended(l') && l'.accepted == l.accepted && l'.written + l'.messages <= l.written + l.messages
  }

  lemma MovedLane(g: Ledger, i: nat, move: Move, caps: Caps, n: nat)
    requires LedgerInv(g, caps) && CanMove(g, i, move, caps) && n < |g.lanes|
    ensures n < |Moved(g, i, move, caps).lanes| && NothingEnters(g.lanes[n], Moved(g, i, move, caps).lanes[n])
  {
    var l := g.lanes[n];
    assert LaneOK(l, caps.limit);
    if move.Pop? && n == i {
      assert l.messages == [l.messages[0]] + l.messages[1..];
      assert l.written + [l.messages[0]] + l.messages[1..] == l.written + l.messages;
    }
  }

  /** Over every interleaving: once a queue is closed or has its FATAL frame, no message is taken any more; what is written later was queued then. */
  lemma {:induction false} NothingAfterTheEnd(gs: seq<Ledger>, caps: Caps, i: int, j: int, n: nat)
    requires LedgerRun(gs, caps) && 0 <= i <= j < |gs| && n < |gs[i].lanes| && Ended(gs[i].lanes[n])
    ensures n < |gs[j].lanes| && NothingEnters(gs[i].lanes[n], gs[j].lanes[n])
    decreases j
  {
    if i < j {
      NothingAfterTheEnd(gs, caps, i, j - 1, n);
      LedgerRunKeeps(gs, caps, j - 1);
      assert LedgerStepsTo(gs, caps, j);
      var k, move :| CanMove(gs[j - 1], k, move, caps) && gs[j] == Moved(gs[j - 1], k, move, caps);
      MovedLane(gs[j - 1], k, move, caps, n);
    }
  }
}
