/**
  A message is checked when it is encoded, not when it is queued, and the id it
  quotes is checked only then. One with a malformed quoted id closes every
  session that tries to send it: it is never delivered, and neither is anything
  queued after it. Without such a message everything queued can be delivered.
 */
module DeliveryBlocking {
  import opened Names
  import opened MessageDb
  import opened Conversation
  import opened Delivery
  import opened DeliverySafety
  import opened DeliveryOrder
  import opened DeliveryTheorems
  import opened DeliveryProgress

  // ---- only encodable messages travel ----

  ghost predicate Clean(e: End) {
    && (forall p :: Msg(p) in e.inbox ==> Encodable(p))
    && (forall p :: p in e.log ==> Encodable(p))
  }

  lemma ActClean(n: Net, e: Event)
    requires Clean(n.left) && Clean(n.right)
    ensures Clean(Act(n, e).left) && Clean(Act(n, e).right)
  {
    if e.Receive? && Act(n, e) != n {
      ReadClean(n.left, e.ts);
    }
  }

  lemma ReadClean(x: End, ts: int)
    requires Clean(x) && x.inbox != []
    ensures Clean(Read(x, ts))
  {
    assert x.inbox[0] in x.inbox;
  }

  lemma {:induction false} RunClean(left: Name, right: Name, run: seq<Action>)
    ensures var n := Run(Start(left, right), run); Clean(n.left) && Clean(n.right)
    decreases |run|
  {
    if run != [] {
      var n := Run(Start(left, right), run[..|run| - 1]);
      RunClean(left, right, run[..|run| - 1]);
      match run[|run| - 1]
      case Left(e) => ActClean(n, e);
      case Right(e) => ActClean(Flip(n), e);
    }
  }

  /** In every run: a message that cannot be encoded is never delivered. */
  lemma {:induction false} UnencodableStays(left: Name, right: Name, run: seq<Action>, m: Message)
    requires Trimmed(left) && Trimmed(right)
    requires Addressed(Run(Start(left, right), run).left, m) && !Encodable(PayloadOf(m))
    ensures var n := Run(Start(left, right), run); Unsent(m) && m in Pending(n.left.db, n.left.peer)
  {
    var n := Run(Start(left, right), run);
    RunSafe(left, right, run);
    RunClean(left, right, run);
    if m.status == Delivered {
      DeliveredIsStored(left, right, run, m);
    }
    RowAt(n.left.db, Lower(n.left.peer), m.num, m);
    SelectMember(n.left.db, Lower(n.left.peer), Unsent, n.left.db.last, m);
  }

  ghost predicate QueuedUnencodable(x: End, i: nat) {
    i < |Sent(x.db, x.peer)| && !Encodable(Sent(x.db, x.peer)[i])
  }

  /** In every disciplined run: nothing from such a message on ever arrives. */
  lemma {:induction false} UnencodableBlocks(left: Name, right: Name, run: seq<Action>, i: nat)
    requires Trimmed(left) && Trimmed(right) && Disciplined(Start(left, right), run)
    requires QueuedUnencodable(Run(Start(left, right), run).left, i)
    ensures var n := Run(Start(left, right), run); |Arrived(n.right.db, n.right.peer)| <= i
  {
    var n := Run(Start(left, right), run);
    RunOrderly(left, right, run);
    RunClean(left, right, run);
    assert forall j :: 0 <= j < |n.right.log| ==> n.left.sent[j] in n.right.log;
  }

  // ---- rows persist where nobody deletes ----

  ghost predicate Keeping(run: seq<Action>) {
    forall i :: 0 <= i < |run| ==> !run[i].e.Erase?
  }

  ghost predicate Persists(db: Db, db': Db) {
    forall id :: Known(db, id) ==> Known(db', id) && SameMessage(Lookup(db, id), Lookup(db', id))
  }

  lemma AddPersists(db: Db, m: Message)
    requires Consistent(db) && Trimmed(m.peer)
    ensures Persists(db, Add(db, m))
  {
    AddKeeps(db, m);
  }

  lemma AttemptPersists(db: Db, id: Id, now: int)
    requires Consistent(db)
    ensures Persists(db, Attempt(db, id, now))
  {
    AttemptBook(db, id, now);
  }

  lemma DeliverPersists(db: Db, from: Name, id: Id)
    requires Consistent(db)
    ensures Persists(db, Deliver(db, from, id))
  {
    DeliverBook(db, from, id);
  }

  lemma ReadPersists(e: End, ts: int)
    requires Consistent(e.db) && Trimmed(e.peer) && e.inbox != []
    ensures Persists(e.db, Read(e, ts).db)
  {
    match e.inbox[0]
    case Ack(id) => DeliverPersists(e.db, e.peer, id);
    case Msg(p) => AddPersists(e.db, Message(p.id, e.peer, In, p.body, ts, Received, 0, 0, 0, p.replyTo));
  }

  lemma NewRowPersists(n: Net, e: Event)
    requires Consistent(n.left.db) && Trimmed(n.left.peer) && (e.Compose? || e.Foreign?)
    ensures Persists(n.left.db, Act(n, e).left.db)
  {
    var db, db' := n.left.db, Act(n, e).left.db;
    if db' == db {
    } else if e.Compose? {
      var row := Message(e.id, n.left.peer, Out, e.body, e.ts, Queued, 0, 0, 0, e.replyTo);
      assert db' == Add(db, row);
      AddPersists(db, row);
    } else {
      assert db' == Add(db, e.m);
      AddPersists(db, e.m);
    }
  }

  lemma TryPersists(n: Net, now: int)
    requires Consistent(n.left.db)
    ensures Persists(n.left.db, Act(n, Try(now)).left.db)
  {
    if Act(n, Try(now)).left.db != n.left.db {
      AttemptPersists(n.left.db, n.left.job.todo[0].id, now);
    }
  }

  lemma ActPersists(n: Net, e: Event)
    requires Consistent(n.left.db) && Trimmed(n.left.peer) && !e.Erase?
    ensures Persists(n.left.db, Act(n, e).left.db)
  {
    var me := n.left;
    if e.Compose? || e.Foreign? {
      NewRowPersists(n, e);
    } else if e.Try? {
      TryPersists(n, e.now);
    } else if Act(n, e).left.db != me.db {
      match e
      case Stray(id, now) => AttemptPersists(me.db, id, now);
      case Receive(ts) => ReadPersists(me, ts);
      case ForeignAck(from, id) => DeliverPersists(me.db, from, id);
    }
  }

  lemma PeersFixed(n: Net, e: Event)
    ensures Act(n, e).left.peer == n.left.peer && Act(n, e).right.peer == n.right.peer
  {
  }

  lemma {:induction false} RunPersists(n: Net, run: seq<Action>)
    requires Safe(n) && Keeping(run)
    ensures Safe(Run(n, run)) && Run(n, run).left.peer == n.left.peer
    ensures Persists(n.left.db, Run(n, run).left.db)
    decreases |run|
  {
    if run != [] {
      var before, a := run[..|run| - 1], run[|run| - 1];
      RunPersists(n, before);
      StepSafe(Run(n, before), a);
      match a
      case Left(e) =>
        PeersFixed(Run(n, before), e);
        ActPersists(Run(n, before), e);
      case Right(e) =>
        PeersFixed(Flip(Run(n, before)), e);
        OtherUntouched(Flip(Run(n, before)), e);
    }
  }

  /** What was addressed to the peer still is, as the same message. */
  lemma StillAddressed(n: Net, run: seq<Action>, m: Message) returns (m': Message)
    requires Safe(n) && Keeping(run) && Addressed(n.left, m)
    ensures Addressed(Run(n, run).left, m') && PayloadOf(m') == PayloadOf(m)
  {
    RunPersists(n, run);
    m' := Lookup(Run(n, run).left.db, m.id);
  }

  // ---- exactly when everything can be delivered ----

  /** Some continuation in which nobody deletes anything leaves nothing pending. */
  ghost predicate CanFinish(n: Net) {
    exists rest :: Keeping(rest) && var n' := Run(n, rest); Pending(n'.left.db, n'.left.peer) == []
  }

  /** A run that finished has stored, at the right, all the left had queued. */
  lemma {:induction false} FinishedMeansStored(left: Name, right: Name, run: seq<Action>, rest: seq<Action>, m: Message)
    requires Trimmed(left) && Trimmed(right) && Keeping(rest) && Addressed(Run(Start(left, right), run).left, m)
    requires var n := Run(Start(left, right), run + rest); Pending(n.left.db, n.left.peer) == []
    ensures PayloadOf(m) in Run(Start(left, right), run + rest).right.log
  {
    RunSafe(left, right, run);
    RunConcat(Start(left, right), run, rest);
    var m' := StillAddressed(Run(Start(left, right), run), rest, m);
    var x := Run(Start(left, right), run + rest).left;
    RunSafe(left, right, run + rest);
    RowAt(x.db, Lower(x.peer), m'.num, m');
    SelectMember(x.db, Lower(x.peer), Unsent, x.db.last, m');
    DeliveredIsStored(left, right, run + rest, m');
  }

  /** After every run: what is pending can all be delivered if and only if all of it can be encoded. */
  lemma {:induction false} CanFinishIffEncodable(left: Name, right: Name, run: seq<Action>)
    requires Trimmed(left) && Trimmed(right)
    ensures var n := Run(Start(left, right), run);
      CanFinish(n) <==> AllEncodable(Pending(n.left.db, n.left.peer))
  {
    var n := Run(Start(left, right), run);
    RunSafe(left, right, run);
    if AllEncodable(Pending(n.left.db, n.left.peer)) {
      var n' := OneSessionDelivers(n);
      var rest :| AllPlain(rest) && Run(n, rest) == n';
      assert Keeping(rest);
    } else {
      var todo := Pending(n.left.db, n.left.peer);
      var i :| 0 <= i < |todo| && !Encodable(PayloadOf(todo[i]));
      PendingAddressed(n.left);
      assert todo[i] in todo;
      forall rest | Keeping(rest) ensures var n' := Run(n, rest); Pending(n'.left.db, n'.left.peer) != [] {
        var m' := StillAddressed(n, rest, todo[i]);
        RunConcat(Start(left, right), run, rest);
        UnencodableStays(left, right, run + rest, m');
      }
    }
  }

  /** The user's first message, quoting something that is no id. */
  lemma BadQuoteNeverFinishes(left: Name, right: Name, id: Id, quoted: Id)
    requires Trimmed(left) && Trimmed(right) && quoted != [] && !IsId(quoted)
    ensures !CanFinish(Run(Start(left, right), [Left(Compose(id, [104], quoted, 0))]))
  {
    var run := [Left(Compose(id, [104], quoted, 0))];
    var n := Run(Start(left, right), run);
    RunSnoc(Start(left, right), [], run[0]);
    assert n.left.db == Add(EMPTY, Message(id, right, Out, [104], 0, Queued, 0, 0, 0, quoted));
    AddKeeps(EMPTY, Message(id, right, Out, [104], 0, Queued, 0, 0, 0, quoted));
    var m := Lookup(n.left.db, id);
    assert Addressed(n.left, m);
    UnencodableStays(left, right, run, m);
    CanFinishIffEncodable(left, right, run);
  }
}
