/**
  Delivered means stored: whatever is lost, repeated, flushed in whatever order,
  deleted or interrupted, a message turns delivered only after its addressee has
  stored it.
 */
module DeliverySafety {
  import opened Names
  import opened Keys
  import opened MessageDb
  import opened Conversation
  import opened Delivery

  ghost predicate Distinct(ps: seq<Payload>) {
    forall i, j :: 0 <= i < j < |ps| ==> ps[i].id != ps[j].id
  }

  ghost predicate Logged(ps: seq<Payload>, id: Id) {
    exists p :: p in ps && p.id == id
  }

  /** m is a message of e's owner to the other end. */
  ghost predicate Addressed(e: End, m: Message) {
    Has(e.db, m) && m.dir == Out && EqualFold(m.peer, e.peer)
  }

  ghost predicate WellFormed(e: End, used: set<Id>) {
    && Consistent(e.db)
    && Trimmed(e.peer)
    && (forall id :: id in e.db.idx ==> id in used)
    && (forall p :: p in e.sent ==> p.id in used)
    && Distinct(e.sent)
  }

  /** Only what x queued for y is on its way to y or held by y as x's. */
  ghost predicate Truthful(x: End, y: End) {
    && (forall m :: Addressed(x, m) ==> PayloadOf(m) in x.sent)
    && (x.job.Flushing? ==> forall m :: m in x.job.todo ==> PayloadOf(m) in x.sent)
    && (forall p :: Msg(p) in y.inbox ==> p in x.sent)
    && (forall p :: p in y.log ==> p in x.sent)
  }

  /** y owes or sends an ack, and x believes it, only for what y has stored. */
  ghost predicate Earned(x: End, y: End) {
    && (forall r, p :: Has(y.db, r) && p in x.sent && r.id == p.id ==> r.dir == In && PayloadOf(r) in y.log)
    && (y.owed.Owing? ==> Logged(y.log, y.owed.id))
    && (forall id :: Ack(id) in x.inbox ==> Logged(y.log, id))
    && (forall m :: Addressed(x, m) && m.status == Delivered ==> PayloadOf(m) in y.log)
  }

  ghost predicate Agree(x: End, y: End) {
    Truthful(x, y) && Truthful(y, x) && Earned(x, y) && Earned(y, x)
  }

  ghost predicate Safe(n: Net) {
    WellFormed(n.left, n.used) && WellFormed(n.right, n.used) && Agree(n.left, n.right)
  }

  /** In a list without repeated ids, the id decides the payload. */
  lemma SameId(ps: seq<Payload>, p: Payload, q: Payload)
    requires Distinct(ps) && p in ps && q in ps && p.id == q.id
    ensures p == q
  {
  }

  // ---- the rows each transaction can leave behind ----

  ghost predicate SameMessage(m: Message, r: Message) {
    m.id == r.id && m.peer == r.peer && m.dir == r.dir && PayloadOf(m) == PayloadOf(r)
  }

  /** r was already there, up to bookkeeping, and is delivered only if it already was. */
  ghost predicate Inherited(db: Db, r: Message) {
    exists m :: Has(db, m) && SameMessage(m, r) && (r.status == Delivered ==> m.status == Delivered)
  }

  ghost predicate Calm(db: Db, db': Db) {
    && (forall r :: Has(db', r) ==> Inherited(db, r))
    && (forall id :: id in db'.idx ==> id in db.idx)
  }

  lemma CalmSame(db: Db)
    ensures Calm(db, db)
  {
    forall r | Has(db, r) ensures Inherited(db, r) {
      assert SameMessage(r, r);
    }
  }

  lemma AttemptCalm(db: Db, id: Id, now: int)
    requires Consistent(db)
    ensures Consistent(Attempt(db, id, now)) && Calm(db, Attempt(db, id, now))
  {
    AttemptKeeps(db, id, now);
    var db' := Attempt(db, id, now);
    forall r | Has(db', r) ensures Inherited(db, r) {
      assert Has(db, Lookup(db, r.id)) && SameMessage(Lookup(db, r.id), r);
    }
  }

  lemma DeleteCalm(db: Db, d: Deletion)
    requires Consistent(db)
    ensures Consistent(Delete(db, d)) && Calm(db, Delete(db, d))
  {
    match d {
      case One(id) => DeleteOneKeeps(db, id);
      case FromOutbox(id) => DeleteOneKeeps(db, id);
      case OlderThan(cutoff) => DeleteWhereKeeps(db, Stale(cutoff));
      case WithPeer(name) => DeleteWhereKeeps(db, About(name));
      case Everything => DeleteWhereKeeps(db, Every);
    }
    forall r | Has(Delete(db, d), r) ensures Inherited(db, r) {
      assert Has(db, r) && SameMessage(r, r);
    }
  }

  /** An ack changes at most the one row it names, and only if the acking peer is its addressee. */
  lemma DeliverRowsAre(db: Db, from: Name, id: Id)
    requires Consistent(db)
    ensures Consistent(Deliver(db, from, id)) && Deliver(db, from, id).idx == db.idx
    ensures forall r :: Has(Deliver(db, from, id), r) ==>
      Inherited(db, r) || (Inherited(db, r.(status := Queued)) && r.id == id && EqualFold(r.peer, from))
  {
    DeliverKeeps(db, from, id);
    forall r | Has(Deliver(db, from, id), r)
      ensures Inherited(db, r) || (Inherited(db, r.(status := Queued)) && r.id == id && EqualFold(r.peer, from))
    {
      var m := Lookup(db, r.id);
      assert Has(db, m) && SameMessage(m, r) && SameMessage(m, r.(status := Queued));
    }
  }

  lemma AddRowsAre(db: Db, m: Message)
    requires Consistent(db) && Trimmed(m.peer) && m.id !in db.idx
    ensures Consistent(Add(db, m))
    ensures forall r :: Has(Add(db, m), r) <==> Has(db, r) || r == m.(num := db.last + 1)
    ensures forall id :: id in Add(db, m).idx <==> id in db.idx || id == m.id
  {
    AddKeeps(db, m);
  }

  // ---- agreement survives every kind of change ----

  ghost predicate TodoWithin(job: Job, job': Job) {
    job'.Flushing? ==> job.Flushing? && forall m :: m in job'.todo ==> m in job.todo
  }

  /** One end forgets, retries or falls silent. */
  lemma CalmAgree(x: End, y: End, x': End)
    requires Agree(x, y) && Calm(x.db, x'.db)
    requires x'.peer == x.peer && x'.sent == x.sent && x'.log == x.log
    requires TodoWithin(x.job, x'.job)
    requires forall e :: e in x'.inbox ==> e in x.inbox
    requires x'.owed == x.owed || x'.owed == Nothing
    ensures Agree(x', y)
  {
    forall m | Addressed(x', m)
      ensures PayloadOf(m) in x.sent && (m.status == Delivered ==> PayloadOf(m) in y.log)
    {
      assert Inherited(x.db, m);
    }
    forall r, p | Has(x'.db, r) && p in y.sent && r.id == p.id ensures r.dir == In && PayloadOf(r) in x.log {
      assert Inherited(x.db, r);
    }
  }

  lemma AgreeFlips(x: End, y: End)
    requires Agree(x, y)
    ensures Agree(y, x)
  {
  }

  /** An envelope its sender can vouch for goes on the wire. */
  lemma PushAgree(x: End, y: End, e: Envelope)
    requires Agree(x, y)
    requires e.Msg? ==> e.p in x.sent
    requires e.Ack? ==> Logged(x.log, e.id)
    ensures Agree(x, Push(y, e))
  {
  }

  lemma PendingAddressed(x: End)
    requires Consistent(x.db)
    ensures forall m :: m in Pending(x.db, x.peer) ==> Addressed(x, m)
  {
    SelectMeans(x.db, Lower(x.peer), Unsent, x.db.last);
  }

  lemma FlushAgree(x: End, y: End, job: Job, flushed: bool, mark: nat)
    requires Agree(x, y) && job.Flushing? && (forall m :: m in job.todo ==> Addressed(x, m))
    ensures Agree(x.(job := job, flushed := flushed, mark := mark), y)
  {
    assert forall m :: m in job.todo ==> PayloadOf(m) in x.sent;
  }

  lemma QueueAgree(x: End, y: End, p: Payload, ts: int)
    requires Agree(x, y) && Consistent(x.db) && Trimmed(x.peer)
    requires p.id !in x.db.idx && p.id !in y.db.idx && (forall q :: q in y.sent ==> q.id != p.id)
    ensures Consistent(Queue(x, p, ts).db)
    ensures Agree(Queue(x, p, ts), y)
  {
    var row := Message(p.id, x.peer, Out, p.body, ts, Queued, 0, 0, 0, p.replyTo);
    AddRowsAre(x.db, row);
    QueueTruthful(x, y, p, row.(num := x.db.last + 1), Queue(x, p, ts));
    QueueEarned(x, y, p, row.(num := x.db.last + 1), Queue(x, p, ts));
  }

  lemma QueueTruthful(x: End, y: End, p: Payload, row: Message, x': End)
    requires Truthful(x, y) && Truthful(y, x) && PayloadOf(row) == p
    requires forall r :: Has(x'.db, r) <==> Has(x.db, r) || r == row
    requires x' == x.(db := x'.db, sent := x.sent + [p])
    ensures Truthful(x', y) && Truthful(y, x')
  {
    assert p in x'.sent;
  }

  lemma QueueEarned(x: End, y: End, p: Payload, row: Message, x': End)
    requires Earned(x, y) && Earned(y, x) && PayloadOf(row) == p && row.status == Queued
    requires p.id !in y.db.idx && (forall q :: q in y.sent ==> q.id != p.id)
    requires forall r :: Has(x'.db, r) <==> Has(x.db, r) || r == row
    requires x' == x.(db := x'.db, sent := x.sent + [p])
    ensures Earned(x', y) && Earned(y, x')
  {
  }

  lemma ForeignAgree(x: End, y: End, m: Message)
    requires Agree(x, y) && Consistent(x.db) && Trimmed(m.peer) && !EqualFold(m.peer, x.peer)
    requires m.id !in x.db.idx && (forall q :: q in y.sent ==> q.id != m.id)
    ensures Consistent(Add(x.db, m))
    ensures Agree(x.(db := Add(x.db, m)), y)
  {
    AddRowsAre(x.db, m);
    ForeignRows(x, y, m.(num := x.db.last + 1), x.(db := Add(x.db, m)));
  }

  lemma ForeignRows(x: End, y: End, row: Message, x': End)
    requires Agree(x, y) && !EqualFold(row.peer, x.peer) && (forall q :: q in y.sent ==> q.id != row.id)
    requires forall r :: Has(x'.db, r) <==> Has(x.db, r) || r == row
    requires x' == x.(db := x'.db)
    ensures Agree(x', y)
  {
  }

  lemma DeliverAgree(x: End, y: End, from: Name, id: Id, x': End)
    requires Agree(x, y) && Consistent(x.db) && Distinct(x.sent)
    requires x' == x.(db := Deliver(x.db, from, id), inbox := x'.inbox)
    requires forall e :: e in x'.inbox ==> e in x.inbox
    requires EqualFold(from, x.peer) ==> Logged(y.log, id)
    ensures Consistent(x'.db) && x'.db.idx == x.db.idx
    ensures Agree(x', y)
  {
    DeliverRowsAre(x.db, from, id);
    DeliverRows(x, y, from, id, x');
  }

  lemma DeliverRows(x: End, y: End, from: Name, id: Id, x': End)
    requires Agree(x, y) && Distinct(x.sent)
    requires x' == x.(db := x'.db, inbox := x'.inbox)
    requires forall e :: e in x'.inbox ==> e in x.inbox
    requires forall r :: Has(x'.db, r) ==>
      Inherited(x.db, r) || (Inherited(x.db, r.(status := Queued)) && r.id == id && EqualFold(r.peer, from))
    requires EqualFold(from, x.peer) ==> Logged(y.log, id)
    ensures Agree(x', y)
  {
    forall m | Addressed(x', m)
      ensures PayloadOf(m) in x.sent && (m.status == Delivered ==> PayloadOf(m) in y.log)
    {
      if !Inherited(x.db, m) {
        var p :| p in y.log && p.id == id;
        SameId(x.sent, p, PayloadOf(m));
      }
    }
  }

  lemma StoreAgree(x: End, y: End, p: Payload, ts: int)
    requires Agree(x, y) && Consistent(x.db) && Trimmed(x.peer) && Distinct(y.sent) && p in y.sent
    ensures Consistent(Store(x, p, ts).db)
    ensures Agree(Store(x, p, ts), y)
  {
    if p.id in x.db.idx {
      assert Has(x.db, Lookup(x.db, p.id)) && p.id == Lookup(x.db, p.id).id;
      DuplicateRows(x, y, p, Lookup(x.db, p.id));
    } else {
      var row := Message(p.id, x.peer, In, p.body, ts, Received, 0, 0, 0, p.replyTo);
      AddRowsAre(x.db, row);
      StoreTruthful(x, y, p, row.(num := x.db.last + 1), Store(x, p, ts));
      StoreEarned(x, y, p, row.(num := x.db.last + 1), Store(x, p, ts));
    }
  }

  lemma DuplicateRows(x: End, y: End, p: Payload, row: Message)
    requires Agree(x, y) && p in y.sent && Has(x.db, row) && row.id == p.id
    ensures Agree(x.(owed := Owing(p.id)), y)
  {
    assert PayloadOf(row) in x.log && PayloadOf(row).id == p.id;
  }

  lemma StoreTruthful(x: End, y: End, p: Payload, row: Message, x': End)
    requires Truthful(x, y) && Truthful(y, x) && p in y.sent && PayloadOf(row) == p && row.dir == In
    requires forall r :: Has(x'.db, r) <==> Has(x.db, r) || r == row
    requires x' == x.(db := x'.db, log := x.log + [p], owed := Owing(p.id))
    ensures Truthful(x', y) && Truthful(y, x')
  {
  }

  lemma StoreEarned(x: End, y: End, p: Payload, row: Message, x': End)
    requires Earned(x, y) && Earned(y, x) && Distinct(y.sent) && p in y.sent
    requires PayloadOf(row) == p && row.dir == In
    requires forall r :: Has(x'.db, r) <==> Has(x.db, r) || r == row
    requires x' == x.(db := x'.db, log := x.log + [p], owed := Owing(p.id))
    ensures Earned(x', y) && Earned(y, x')
  {
    assert p in x'.log;
    forall r, q | Has(x'.db, r) && q in y.sent && r.id == q.id ensures r.dir == In && PayloadOf(r) in x'.log {
      if r == row {
        SameId(y.sent, p, q);
      }
    }
  }

  // ---- every event keeps the net safe ----

  lemma StoreOnlySafe(n: Net, e: Event)
    requires Safe(n) && (e.Erase? || e.Stray?)
    ensures Safe(Act(n, e))
  {
    match e {
      case Stray(id, now) => AttemptCalm(n.left.db, id, now);
      case Erase(d) => DeleteCalm(n.left.db, d);
    }
    CalmAgree(n.left, n.right, Act(n, e).left);
  }

  lemma QuietSafe(n: Net, e: Event)
    requires Safe(n) && (e.Disconnect? || e.Skip? || e.Finish?)
    ensures Safe(Act(n, e))
  {
    CalmSame(n.left.db);
    CalmAgree(n.left, n.right, Act(n, e).left);
  }

  lemma TrySafe(n: Net, now: int)
    requires Safe(n)
    ensures Safe(Act(n, Try(now)))
  {
    var me := n.left;
    if me.job.Flushing? && me.job.todo != [] {
      AttemptCalm(me.db, me.job.todo[0].id, now);
      CalmSame(me.db);
      CalmAgree(me, n.right, Act(n, Try(now)).left);
    }
  }

  lemma ConnectSafe(n: Net)
    requires Safe(n)
    ensures Safe(Act(n, Connect))
  {
    CalmSame(n.left.db);
    CalmSame(n.right.db);
    CalmAgree(n.left, n.right, Opened(n.left));
    AgreeFlips(Opened(n.left), n.right);
    CalmAgree(n.right, Opened(n.left), Opened(n.right));
    AgreeFlips(Opened(n.right), Opened(n.left));
  }

  lemma WireSafe(n: Net, e: Event)
    requires Safe(n) && (e.Transmit? || e.SendAck?)
    ensures Safe(Act(n, e))
  {
    var me, other := n.left, n.right;
    var n' := Act(n, e);
    CalmSame(me.db);
    CalmAgree(me, other, n'.left);
    if n' != n && (e.Transmit? ==> Encodable(PayloadOf(me.job.todo[0]))) {
      PushAgree(n'.left, other, if e.Transmit? then Msg(PayloadOf(me.job.todo[0])) else Ack(me.owed.id));
    }
  }

  lemma StoredIds(x: End, p: Payload, ts: int)
    requires Consistent(x.db) && Trimmed(x.peer)
    ensures forall id :: id in Store(x, p, ts).db.idx ==> id in x.db.idx || id == p.id
  {
  }

  /** Reading a message: it is stored, or was known, or the link closes. */
  lemma ReadMsgAgree(x: End, y: End, p: Payload, ts: int)
    requires Agree(x, y) && Consistent(x.db) && Trimmed(x.peer) && Distinct(y.sent)
    requires x.open && x.inbox != [] && x.inbox[0] == Msg(p)
    ensures p in y.sent && Consistent(Read(x, ts).db) && Agree(Read(x, ts), y)
    ensures forall id :: id in Read(x, ts).db.idx ==> id in x.db.idx || id == p.id
  {
    CalmSame(x.db);
    assert p in y.sent;
    if Read(x, ts).open {
      var rest := x.(inbox := x.inbox[1..], meter := Read(x, ts).meter);
      CalmAgree(x, y, rest);
      StoreAgree(rest, y, p, ts);
      StoredIds(rest, p, ts);
    } else {
      CalmAgree(x, y, Closed(x));
    }
  }

  lemma ReadSafe(n: Net, ts: int)
    requires Safe(n)
    ensures Safe(Act(n, Receive(ts)))
  {
    var me, other := n.left, n.right;
    var n' := Act(n, Receive(ts));
    if n' != n {
      match me.inbox[0]
      case Ack(id) => DeliverAgree(me, other, me.peer, id, n'.left);
      case Msg(p) => ReadMsgAgree(me, other, p, ts);
    }
  }

  lemma QueueWellFormed(x: End, p: Payload, ts: int, used: set<Id>)
    requires WellFormed(x, used) && p.id !in used
    ensures WellFormed(Queue(x, p, ts), used + {p.id})
  {
    AddRowsAre(x.db, Message(p.id, x.peer, Out, p.body, ts, Queued, 0, 0, 0, p.replyTo));
  }

  lemma ComposeSafe(n: Net, e: Event)
    requires Safe(n) && e.Compose?
    ensures Safe(Act(n, e))
  {
    if Act(n, e) != n {
      QueueAgree(n.left, n.right, Payload(e.id, e.body, e.replyTo), e.ts);
      QueueWellFormed(n.left, Payload(e.id, e.body, e.replyTo), e.ts, n.used);
    }
  }

  lemma FlushSafe(n: Net, force: bool)
    requires Safe(n)
    ensures Safe(Act(n, Flush(force)))
  {
    PendingAddressed(n.left);
    var me' := Flushed(n.left, force);
    FlushAgree(n.left, n.right, me'.job, me'.flushed, me'.mark);
  }

  lemma ForeignSafe(n: Net, m: Message)
    requires Safe(n)
    ensures Safe(Act(n, Foreign(m)))
  {
    if Act(n, Foreign(m)) != n {
      ForeignAgree(n.left, n.right, m);
      AddRowsAre(n.left.db, m);
    }
  }

  lemma ForeignAckSafe(n: Net, from: Name, id: Id)
    requires Safe(n)
    ensures Safe(Act(n, ForeignAck(from, id)))
  {
    if Act(n, ForeignAck(from, id)) != n {
      DeliverAgree(n.left, n.right, from, id, Act(n, ForeignAck(from, id)).left);
    }
  }

  lemma ActSafe(n: Net, e: Event)
    requires Safe(n)
    ensures Safe(Act(n, e))
  {
    if e.Connect? {
      ConnectSafe(n);
    } else if e.Transmit? || e.SendAck? {
      WireSafe(n, e);
    } else if e.Receive? {
      ReadSafe(n, e.ts);
    } else if e.Compose? {
      ComposeSafe(n, e);
    } else if e.Flush? {
      FlushSafe(n, e.force);
    } else if e.Foreign? {
      ForeignSafe(n, e.m);
    } else if e.ForeignAck? {
      ForeignAckSafe(n, e.from, e.ackId);
    } else if e.Erase? || e.Stray? {
      StoreOnlySafe(n, e);
    } else if e.Try? {
      TrySafe(n, e.now);
    } else {
      QuietSafe(n, e);
    }
  }

  lemma StepSafe(n: Net, a: Action)
    requires Safe(n)
    ensures Safe(Step(n, a))
  {
    match a
    case Left(e) => ActSafe(n, e);
    case Right(e) => ActSafe(Flip(n), e);
  }

  lemma {:induction false} RunStaysSafe(n: Net, run: seq<Action>)
    requires Safe(n)
    ensures Safe(Run(n, run))
    decreases |run|
  {
    if run != [] {
      RunStaysSafe(n, run[..|run| - 1]);
      StepSafe(Run(n, run[..|run| - 1]), run[|run| - 1]);
    }
  }

  lemma {:induction false} RunSafe(left: Name, right: Name, run: seq<Action>)
    requires Trimmed(left) && Trimmed(right)
    ensures Safe(Run(Start(left, right), run))
  {
    RunStaysSafe(Start(left, right), run);
  }
}
