/**
  The delivery promises: at least once on the wire, exactly once on screen,
  delivered only once stored, and in send order.
 */
module DeliveryTheorems {
  import opened Names
  import opened Keys
  import opened MessageDb
  import opened Conversation
  import opened Delivery
  import opened DeliverySafety
  import opened DeliveryOrder

  /** A store never holds two rows with one id, so no id is listed twice. */
  lemma ArrivedDistinct(db: Db, peer: Name)
    requires Consistent(db)
    ensures Distinct(Arrived(db, peer))
  {
    var ms := Select(db.rows, Lower(peer), Inbound, db.last);
    SelectMeans(db, Lower(peer), Inbound, db.last);
    forall i, j | 0 <= i < j < |ms| ensures ms[i].id != ms[j].id {
      assert ms[i] in ms && ms[j] in ms;
      assert Has(db, ms[i]) && Has(db, ms[j]);
    }
  }

  /** Every disciplined run: stored is a duplicate-free prefix of queued, in both directions. */
  lemma {:induction false} StoredIsAPrefixOfQueued(left: Name, right: Name, run: seq<Action>)
    requires Trimmed(left) && Trimmed(right) && Disciplined(Start(left, right), run)
    ensures var n := Run(Start(left, right), run);
      && Arrived(n.right.db, n.right.peer) <= Sent(n.left.db, n.left.peer)
      && Arrived(n.left.db, n.left.peer) <= Sent(n.right.db, n.right.peer)
      && Distinct(Arrived(n.right.db, n.right.peer))
      && Distinct(Arrived(n.left.db, n.left.peer))
  {
    RunOrderly(left, right, run);
    var n := Run(Start(left, right), run);
    ArrivedDistinct(n.right.db, n.right.peer);
    ArrivedDistinct(n.left.db, n.left.peer);
  }

  /** Right never deletes a message in this run. */
  ghost predicate RightKeeps(run: seq<Action>) {
    forall i :: 0 <= i < |run| ==> !(run[i].Right? && run[i].e.Erase?)
  }

  /** A reader that deletes nothing still holds everything it ever stored. */
  lemma {:induction false} LogIsHeld(left: Name, right: Name, run: seq<Action>)
    requires Trimmed(left) && Trimmed(right) && RightKeeps(run)
    ensures var n := Run(Start(left, right), run); n.right.log == Arrived(n.right.db, n.right.peer)
    decreases |run|
  {
    if run != [] {
      var before, a := run[..|run| - 1], run[|run| - 1];
      LogIsHeld(left, right, before);
      RunSafe(left, right, before);
      var n := Run(Start(left, right), before);
      match a
      case Left(e) => OtherUntouched(n, e);
      case Right(e) => LogStep(Flip(n), e);
    }
  }

  lemma OtherUntouched(n: Net, e: Event)
    ensures var y, y' := n.right, Act(n, e).right; y'.log == y.log && y'.db == y.db && y'.peer == y.peer
  {
  }

  lemma LogStep(n: Net, e: Event)
    requires Safe(n) && !e.Erase? && n.left.log == Arrived(n.left.db, n.left.peer)
    ensures var n' := Act(n, e); n'.left.log == Arrived(n'.left.db, n'.left.peer)
  {
    var me := n.left;
    if !e.Receive? {
      ArrivedKept(n, e);
    } else if Act(n, e) != n {
      ReadLogs(me, e.ts);
    }
  }

  lemma ReadLogs(e: End, ts: int)
    requires Consistent(e.db) && Trimmed(e.peer) && e.log == Arrived(e.db, e.peer) && e.inbox != []
    ensures Read(e, ts).log == Arrived(Read(e, ts).db, Read(e, ts).peer)
  {
    match e.inbox[0]
    case Ack(id) => DeliverKeepsTalk(e.db, e.peer, id, e.peer);
    case Msg(p) =>
      if p.id !in e.db.idx {
        AddTalks(e.db, Message(p.id, e.peer, In, p.body, ts, Received, 0, 0, 0, p.replyTo), e.peer);
      }
  }

  /**
    Every run whatsoever, deletions at the sender included: a message turns
    delivered only once its addressee has stored it, and an addressee that
    deletes nothing still holds it, exactly once.
   */
  lemma DeliveredIsStored(left: Name, right: Name, run: seq<Action>, m: Message)
    requires Trimmed(left) && Trimmed(right)
    requires Addressed(Run(Start(left, right), run).left, m) && m.status == Delivered
    ensures var n := Run(Start(left, right), run);
      && PayloadOf(m) in n.right.log
      && (RightKeeps(run) ==> PayloadOf(m) in Arrived(n.right.db, n.right.peer))
      && Distinct(Arrived(n.right.db, n.right.peer))
  {
    RunSafe(left, right, run);
    var n := Run(Start(left, right), run);
    ArrivedDistinct(n.right.db, n.right.peer);
    if RightKeeps(run) {
      LogIsHeld(left, right, run);
    }
  }

  lemma RunSnoc(n: Net, run: seq<Action>, a: Action)
    ensures Run(n, run + [a]) == Step(Run(n, run), a)
  {
    assert (run + [a])[..|run|] == run;
  }
}
