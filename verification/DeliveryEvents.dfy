/**
  What single events of the delivery model do to a store, in terms of the messages
  it holds; and that whatever gets onto the wire is valid and fits a frame.
 */
module DeliveryEvents {
  import opened ByteOrder
  import opened Names
  import opened MessageDb
  import opened Delivery
  import opened DeliverySafety
  import opened Envelopes

  /** The store holds this message as well, under the next number, and the others as they were. */
  ghost predicate Gains(db: Db, db': Db, m: Message) {
    && (forall id :: Known(db', id) <==> Known(db, id) || id == m.id)
    && (forall id :: Known(db, id) ==> Lookup(db', id) == Lookup(db, id))
    && (!Known(db, m.id) ==> Lookup(db', m.id) == m.(num := db.last + 1))
  }

  lemma AddGains(db: Db, m: Message)
    requires Consistent(db) && Trimmed(m.peer)
    ensures Gains(db, Add(db, m), m)
  {
    AddKeeps(db, m);
    assert m.id in db.idx ==> IndexOk(db, m.id);
  }

  /** A message is queued, and recorded as sent to the peer, if and only if its id is new and its body valid. */
  lemma ComposeQueues(n: Net, id: Id, body: Bytes, replyTo: Id, ts: int)
    requires WellFormed(n.left, n.used)
    ensures var me, n' := n.left, Act(n, Compose(id, body, replyTo, ts));
      if id in n.used || !(1 <= |body| <= 4096 && ValidUtf8(body)) then n' == n else
        && Gains(me.db, n'.left.db, Message(id, me.peer, Out, body, ts, Queued, 0, 0, 0, replyTo))
        && n' == Net(me.(db := n'.left.db, sent := me.sent + [Payload(id, body, replyTo)]), n.right, n.used + {id})
  {
    AddGains(n.left.db, Message(id, n.left.peer, Out, body, ts, Queued, 0, 0, 0, replyTo));
  }

  /** A message with a third party is stored if its id is new; the pair's own conversation is not touched. */
  lemma ForeignIsStored(n: Net, m: Message)
    requires WellFormed(n.left, n.used)
    ensures var me, n' := n.left, Act(n, Foreign(m));
      if m.id in n.used || !Trimmed(m.peer) || EqualFold(m.peer, me.peer) then n' == n else
        Gains(me.db, n'.left.db, m) && n' == Net(me.(db := n'.left.db), n.right, n.used + {m.id})
  {
    if Trimmed(m.peer) {
      AddGains(n.left.db, m);
    }
  }

  /** An ack marks the message delivered if it is ours to the acking peer, and touches nothing else. */
  ghost predicate Acknowledges(db: Db, db': Db, from: Name, id: Id) {
    && (forall i :: Known(db', i) <==> Known(db, i))
    && (forall i :: Known(db, i) ==>
        var m := Lookup(db, i);
        Lookup(db', i) ==
          if i == id && m.dir == Out && EqualFold(m.peer, from) then m.(status := Delivered) else m)
  }

  lemma DeliverAcknowledges(db: Db, from: Name, id: Id)
    requires Consistent(db)
    ensures Acknowledges(db, Deliver(db, from, id), from, id)
  {
    DeliverKeeps(db, from, id);
  }

  /** The peer's ack, read off the wire. */
  lemma AckIsRead(n: Net, ts: int)
    requires Consistent(n.left.db) && n.left.open && n.left.owed == Nothing
    requires n.left.inbox != [] && n.left.inbox[0].Ack?
    ensures var me, n' := n.left, Act(n, Receive(ts));
      && Acknowledges(me.db, n'.left.db, me.peer, me.inbox[0].id)
      && n' == n.(left := me.(db := n'.left.db, inbox := me.inbox[1..]))
  {
    DeliverAcknowledges(n.left.db, n.left.peer, n.left.inbox[0].id);
  }

  /** The ack of a third party. */
  lemma ForeignAckIsTaken(n: Net, from: Name, id: Id)
    requires Consistent(n.left.db)
    ensures var me, n' := n.left, Act(n, ForeignAck(from, id));
      if EqualFold(from, me.peer) then n' == n else
        Acknowledges(me.db, n'.left.db, from, id) && n' == n.(left := me.(db := n'.left.db))
  {
    DeliverAcknowledges(n.left.db, from, id);
  }

  /** An attempt on the head of a flush is counted and dated before it is sent; a deleted message is passed by. */
  lemma TryRecords(n: Net, now: int)
    requires Consistent(n.left.db) && n.left.job.Flushing? && n.left.job.todo != [] && !n.left.job.tried
    ensures var me, n' := n.left, Act(n, Try(now));
      var m := me.job.todo[0];
      if !Known(me.db, m.id) then n' == n.(left := me.(job := me.job.(todo := me.job.todo[1..]))) else
        && n' == n.(left := me.(db := n'.left.db, job := me.job.(tried := true)))
        && (forall i :: Known(n'.left.db, i) <==> Known(me.db, i))
        && (forall i :: Known(me.db, i) ==>
            var r := Lookup(me.db, i);
            Lookup(n'.left.db, i) == if i == m.id then r.(attempts := r.attempts + 1, lastTry := now) else r)
  {
    AttemptKeeps(n.left.db, n.left.job.todo[0].id, now);
  }

  /** What each way of deleting takes away. */
  ghost predicate Doomed(d: Deletion, m: Message) {
    match d
    case One(id) => m.id == id
    case FromOutbox(id) => m.id == id && m.dir == Out && m.status != Delivered
    case OlderThan(cutoff) => !(m.dir == Out && m.status != Delivered) && m.ts < cutoff
    case WithPeer(name) => EqualFold(m.peer, name)
    case Everything => true
  }

  /** Deleting takes away exactly the messages it is about, and leaves the rest as they are. */
  lemma ErasedAre(db: Db, d: Deletion, id: Id)
    requires Consistent(db)
    ensures Known(Delete(db, d), id) <==> Known(db, id) && !Doomed(d, Lookup(db, id))
    ensures Known(Delete(db, d), id) ==> Lookup(Delete(db, d), id) == Lookup(db, id)
  {
    assert Known(db, id) ==> IndexOk(db, id);
    match d
    case One(x) => DeleteOneKeeps(db, x);
    case FromOutbox(x) => UnqueueKeeps(db, x);
    case OlderThan(cutoff) => PruneKeepsUnsent(db, cutoff);
    case WithPeer(name) => AboutKeeps(db, name);
    case Everything => DeleteWhereKeeps(db, Keys.Every);
  }

  lemma EraseOnlyDeletes(n: Net, d: Deletion)
    ensures Act(n, Erase(d)) == n.(left := n.left.(db := Delete(n.left.db, d)))
  {
  }

  // ---- what gets onto the wire ----

  /** What x has queued for y has a valid body and an id; what is on its way to y can be encoded as well. */
  ghost predicate Posted(x: End, y: End) {
    && (forall p :: p in x.sent ==> ValidBody(p.body) && IsId(p.id))
    && (forall p :: Msg(p) in y.inbox ==> Encodable(p))
  }

  /** The ids of composed messages are ids, as a node generates them. */
  ghost predicate ProperIds(run: seq<Action>) {
    forall i :: 0 <= i < |run| && run[i].e.Compose? ==> IsId(run[i].e.id)
  }

  lemma ActPosted(n: Net, e: Event)
    requires Posted(n.left, n.right) && Posted(n.right, n.left) && (e.Compose? ==> IsId(e.id))
    ensures Posted(Act(n, e).left, Act(n, e).right) && Posted(Act(n, e).right, Act(n, e).left)
  {
  }

  lemma {:induction false} RunPosted(left: Name, right: Name, run: seq<Action>)
    requires ProperIds(run)
    ensures var n := Run(Start(left, right), run); Posted(n.left, n.right) && Posted(n.right, n.left)
    decreases |run|
  {
    if run != [] {
      RunPosted(left, right, run[..|run| - 1]);
      var n, a := Run(Start(left, right), run[..|run| - 1]), run[|run| - 1];
      match a
      case Left(e) => ActPosted(n, e);
      case Right(e) => ActPosted(Flip(n), e);
    }
  }

  /** Every run: a message on the wire has its text, at whatever time, within a frame of 65535 bytes, tag included. */
  lemma {:induction false} WireFits(left: Name, right: Name, run: seq<Action>, p: Payload, ts: Bytes)
    requires Trimmed(left) && Trimmed(right) && ProperIds(run) && |ts| <= 20
    requires Msg(p) in Run(Start(left, right), run).right.inbox
    ensures |MsgText(p.id, ts, p.body, p.replyTo)| + 16 <= 65535
  {
    RunPosted(left, right, run);
    RunSafe(left, right, run);
    assert p in Run(Start(left, right), run).left.sent;
    MsgFits(p.id, ts, p.body, p.replyTo);
  }
}
