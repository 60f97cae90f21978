/**
  Send order: in every run without deletions in which each session begins with
  its forced flush, what the receiver has stored from the sender is a prefix,
  without repetitions, of what the sender queued.
 */
module DeliveryOrder {
  import opened Names
  import opened Keys
  import opened Sorting
  import opened MessageDb
  import opened Conversation
  import opened Delivery
  import opened DeliverySafety

  // ---- what is on the wire, seen from the receiver's next expected message ----

  /** No envelope on the wire runs ahead of a reader that already holds q[..k]. */
  ghost predicate NoGap(q: seq<Payload>, k: nat, wire: seq<Envelope>)
    decreases |wire|
  {
    && k <= |q|
    && (wire == [] ||
        match wire[0]
        case Ack(_) => NoGap(q, k, wire[1..])
        case Msg(p) =>
          if p in q[..k] then NoGap(q, k, wire[1..]) else k < |q| && q[k] == p && NoGap(q, k + 1, wire[1..]))
  }

  /** How much of q the reader holds once the wire is drained. */
  ghost function Caught(q: seq<Payload>, k: nat, wire: seq<Envelope>): (c: nat)
    requires NoGap(q, k, wire)
    ensures k <= c <= |q|
    decreases |wire|
  {
    if wire == [] then k else
      match wire[0]
      case Ack(_) => Caught(q, k, wire[1..])
      case Msg(p) => if p in q[..k] then Caught(q, k, wire[1..]) else Caught(q, k + 1, wire[1..])
  }

  lemma {:induction false} WireGrows(q: seq<Payload>, k: nat, wire: seq<Envelope>, e: Envelope)
    requires NoGap(q, k, wire)
    requires e.Msg? ==> e.p in q[..Caught(q, k, wire)] || (Caught(q, k, wire) < |q| && q[Caught(q, k, wire)] == e.p)
    ensures NoGap(q, k, wire + [e])
    ensures Caught(q, k, wire + [e]) >= Caught(q, k, wire)
    ensures e.Ack? ==> Caught(q, k, wire + [e]) == Caught(q, k, wire)
    ensures e.Msg? ==> e.p in q[..Caught(q, k, wire + [e])]
    decreases |wire|
  {
    if wire == [] {
      assert wire + [e] == [e];
      assert [e][1..] == [];
    } else {
      assert (wire + [e])[1..] == wire[1..] + [e];
      match wire[0]
      case Ack(_) => WireGrows(q, k, wire[1..], e);
      case Msg(p) => WireGrows(q, if p in q[..k] then k else k + 1, wire[1..], e);
    }
  }

  lemma {:induction false} QueueGrows(q: seq<Payload>, k: nat, wire: seq<Envelope>, p: Payload)
    requires NoGap(q, k, wire)
    ensures NoGap(q + [p], k, wire) && Caught(q + [p], k, wire) == Caught(q, k, wire)
    decreases |wire|
  {
    assert (q + [p])[..k] == q[..k];
    if wire != [] {
      match wire[0]
      case Ack(_) => QueueGrows(q, k, wire[1..], p);
      case Msg(x) => QueueGrows(q, if x in q[..k] then k else k + 1, wire[1..], p);
    }
  }

  // ---- the order invariant, one direction ----

  /** id names a message of x's owner to the other end. */
  ghost predicate Ours(x: End, id: Id) {
    && Known(x.db, id)
    && var m := Lookup(x.db, id);
       m.id == id && m.dir == Out && EqualFold(m.peer, x.peer)
  }

  ghost function Todo(x: End): seq<Message> {
    if x.job.Idle? then [] else x.job.todo
  }

  ghost predicate InTodo(x: End, id: Id) {
    exists t :: t in Todo(x) && t.id == id
  }

  /** The flush snapshot is in send order and still matches the rows it was taken from. */
  ghost predicate TodoOk(x: End) {
    && Increasing(Todo(x), RowNum)
    && forall t :: t in Todo(x) ==>
        && Ours(x, t.id)
        && PayloadOf(Lookup(x.db, t.id)) == PayloadOf(t)
        && Lookup(x.db, t.id).num == t.num <= x.db.last
  }

  /** m was composed after the forced flush and after the running one took their snapshots, and was never tried. */
  ghost predicate Untouched(x: End, m: Message) {
    m.attempts == 0 && x.mark < m.num && forall t :: t in Todo(x) ==> t.num < m.num
  }

  /**
    done is what the receiver holds or is about to. Anything else still waits in
    the running flush, or is newer than its snapshot and has never been tried. An
    unforced flush may skip only what is done.
   */
  ghost predicate Covered(x: End, done: seq<Payload>) {
    && (forall id :: Ours(x, id) ==>
        PayloadOf(Lookup(x.db, id)) in done || InTodo(x, id) || Untouched(x, Lookup(x.db, id)))
    && (x.job.Flushing? && !x.job.force ==> forall t :: t in x.job.todo ==> t.attempts == 0 || PayloadOf(t) in done)
  }

  ghost predicate InOrder(x: End, y: End) {
    && x.sent == Sent(x.db, x.peer)
    && y.log == Arrived(y.db, y.peer)
    && y.log <= x.sent
    && (x.job.Flushing? ==> x.open && x.flushed)
    && x.mark <= x.db.last
    && TodoOk(x)
    && (y.open ==>
        && NoGap(x.sent, |y.log|, y.inbox)
        && (x.open && x.flushed ==> Covered(x, x.sent[..Caught(x.sent, |y.log|, y.inbox)])))
  }

  // ---- the sent list and the rows behind it ----

  ghost predicate Booked(x: End) {
    && (forall i :: 0 <= i < |x.sent| ==> Ours(x, x.sent[i].id) && PayloadOf(Lookup(x.db, x.sent[i].id)) == x.sent[i])
    && (forall i, j :: 0 <= i < j < |x.sent| ==> Lookup(x.db, x.sent[i].id).num < Lookup(x.db, x.sent[j].id).num)
  }

  lemma SentIsBooked(x: End)
    requires Consistent(x.db) && x.sent == Sent(x.db, x.peer)
    ensures Booked(x)
  {
    var ms := Select(x.db.rows, Lower(x.peer), Outbound, x.db.last);
    SelectMeans(x.db, Lower(x.peer), Outbound, x.db.last);
    forall i | 0 <= i < |ms|
      ensures x.sent[i] == PayloadOf(ms[i]) && Known(x.db, x.sent[i].id) && Lookup(x.db, x.sent[i].id) == ms[i]
      ensures Ours(x, x.sent[i].id)
    {
      assert ms[i] in ms;
      assert Has(x.db, ms[i]);
    }
  }

  lemma ArrivedIsKnown(y: End, p: Payload)
    requires Consistent(y.db) && p in Arrived(y.db, y.peer)
    ensures p.id in y.db.idx
  {
    var ms := Select(y.db.rows, Lower(y.peer), Inbound, y.db.last);
    SelectMeans(y.db, Lower(y.peer), Inbound, y.db.last);
    var i :| 0 <= i < |ms| && PayloadOf(ms[i]) == p;
    assert ms[i] in ms;
    assert Has(y.db, ms[i]);
  }

  // ---- the sender's steps ----

  /** Everything queued before the head of the snapshot is done. */
  lemma EarlierDone(x: End, done: seq<Payload>, i: nat)
    requires Booked(x) && TodoOk(x) && Covered(x, done)
    requires Todo(x) != [] && i < |x.sent| && Lookup(x.db, x.sent[i].id).num < Todo(x)[0].num
    ensures x.sent[i] in done
  {
    var t, id := Todo(x)[0], x.sent[i].id;
    assert Ours(x, id);
    assert t in Todo(x);
    assert forall u :: u in Todo(x) ==> u.num >= t.num;
    assert !InTodo(x, id);
  }

  /** The head of the snapshot is either done already or exactly the next message the receiver lacks. */
  lemma HeadIsNext(x: End, c: nat)
    requires Booked(x) && TodoOk(x) && Distinct(x.sent) && c <= |x.sent|
    requires Todo(x) != [] && Covered(x, x.sent[..c])
    requires PayloadOf(Todo(x)[0]) in x.sent
    ensures PayloadOf(Todo(x)[0]) in x.sent[..c] || (c < |x.sent| && x.sent[c] == PayloadOf(Todo(x)[0]))
  {
    var t := Todo(x)[0];
    assert t in Todo(x);
    var i :| 0 <= i < |x.sent| && x.sent[i] == PayloadOf(t);
    if c < i {
      EarlierDone(x, x.sent[..c], c);
    }
    assert i < c ==> x.sent[..c][i] == PayloadOf(t);
  }

  /** Dropping a head that is done keeps the rest covered. */
  lemma DropHead(x: End, x': End, done: seq<Payload>, done': seq<Payload>)
    requires x.job.Flushing? && x.job.todo != [] && TodoOk(x) && Covered(x, done)
    requires x' == x.(job := x.job.(todo := x.job.todo[1..], tried := false))
    requires done <= done' && PayloadOf(x.job.todo[0]) in done'
    ensures TodoOk(x') && Covered(x', done')
  {
    var t := x.job.todo[0];
    assert x.job.todo == [t] + x'.job.todo;
    assert forall u :: u in x'.job.todo ==> u in x.job.todo;
    assert forall p :: p in done ==> p in done';
    forall id | Ours(x', id)
      ensures PayloadOf(Lookup(x'.db, id)) in done' || InTodo(x', id) || Untouched(x', Lookup(x'.db, id))
    {
      assert Ours(x, id);
      if InTodo(x, id) && !InTodo(x', id) {
        assert t.id == id;
      }
    }
  }

  /** The head is put on the wire: it leaves no gap, and what is left of the snapshot is covered. */
  lemma TransmitCovers(x: End, x': End, y: End)
    requires Booked(x) && TodoOk(x) && Distinct(x.sent) && NoGap(x.sent, |y.log|, y.inbox)
    requires Covered(x, x.sent[..Caught(x.sent, |y.log|, y.inbox)])
    requires x.job.Flushing? && x.job.todo != [] && PayloadOf(x.job.todo[0]) in x.sent
    requires x' == x.(job := x.job.(todo := x.job.todo[1..], tried := false))
    ensures var wire := y.inbox + [Msg(PayloadOf(x.job.todo[0]))];
      && NoGap(x.sent, |y.log|, wire) && TodoOk(x')
      && Covered(x', x.sent[..Caught(x.sent, |y.log|, wire)])
  {
    var t, k, c := x.job.todo[0], |y.log|, Caught(x.sent, |y.log|, y.inbox);
    HeadIsNext(x, c);
    WireGrows(x.sent, k, y.inbox, Msg(PayloadOf(t)));
    DropHead(x, x', x.sent[..c], x.sent[..Caught(x.sent, k, y.inbox + [Msg(PayloadOf(t))])]);
  }

  lemma TransmitInOrder(x: End, y: End)
    requires InOrder(x, y) && Booked(x) && Distinct(x.sent)
    requires x.job.Flushing? && x.job.todo != [] && PayloadOf(x.job.todo[0]) in x.sent
    ensures InOrder(x.(job := x.job.(todo := x.job.todo[1..], tried := false)), Push(y, Msg(PayloadOf(x.job.todo[0]))))
  {
    var x' := x.(job := x.job.(todo := x.job.todo[1..], tried := false));
    if y.open {
      TransmitCovers(x, x', y);
    } else {
      assert x.job.todo == [x.job.todo[0]] + x'.job.todo;
    }
  }

  lemma SkipInOrder(x: End, y: End)
    requires InOrder(x, y)
    requires x.job.Flushing? && x.job.todo != [] && !x.job.tried && !x.job.force && x.job.todo[0].attempts > 0
    ensures InOrder(x.(job := x.job.(todo := x.job.todo[1..])), y)
  {
    var x' := x.(job := x.job.(todo := x.job.todo[1..]));
    if y.open {
      var done := x.sent[..Caught(x.sent, |y.log|, y.inbox)];
      DropHead(x, x', done, done);
    } else {
      assert x.job.todo == [x.job.todo[0]] + x'.job.todo;
    }
  }

  lemma SnapshotOk(x: End, force: bool)
    requires Consistent(x.db)
    ensures TodoOk(Flushed(x, force))
    ensures forall t :: t in Pending(x.db, x.peer) ==> Ours(x, t.id) && Lookup(x.db, t.id) == t
  {
    var todo := Pending(x.db, x.peer);
    SelectMeans(x.db, Lower(x.peer), Unsent, x.db.last);
    forall t | t in todo ensures Ours(x, t.id) && Lookup(x.db, t.id) == t {
      assert Has(x.db, t);
    }
  }

  /** A flush may begin if it is forced, or if a forced one has begun on this session. */
  lemma FlushInOrder(x: End, y: End, force: bool)
    requires InOrder(x, y) && Consistent(x.db) && Earned(x, y) && x.open && x.job.Idle?
    requires force || x.flushed
    ensures InOrder(Flushed(x, force), y)
  {
    var todo := Pending(x.db, x.peer);
    var x' := Flushed(x, force);
    SnapshotOk(x, force);
    if y.open {
      var done := x.sent[..Caught(x.sent, |y.log|, y.inbox)];
      forall id | Ours(x', id)
        ensures PayloadOf(Lookup(x.db, id)) in done || InTodo(x', id)
      {
        FlushTakes(x, y, id, done, todo);
      }
      if !force {
        forall t | t in todo ensures t.attempts == 0 || PayloadOf(t) in done {
          assert Ours(x, t.id);
        }
      }
    }
  }

  lemma FlushTakes(x: End, y: End, id: Id, done: seq<Payload>, todo: seq<Message>)
    requires Consistent(x.db) && Earned(x, y) && Ours(x, id) && y.log <= done
    requires todo == Pending(x.db, x.peer)
    ensures PayloadOf(Lookup(x.db, id)) in done || exists t :: t in todo && t.id == id
  {
    var m := Lookup(x.db, id);
    assert Has(x.db, m);
    RowAt(x.db, Lower(x.peer), m.num, m);
    if m.status == Delivered {
      assert Addressed(x, m);
      assert PayloadOf(m) in y.log;
    } else {
      SelectMember(x.db, Lower(x.peer), Unsent, x.db.last, m);
    }
  }

  /** Same messages, keys and numbers; only status and attempts may differ. */
  ghost predicate SameBook(db: Db, db': Db) {
    && db'.last == db.last
    && (forall id :: Known(db', id) <==> Known(db, id))
    && (forall id :: Known(db, id) ==>
        SameMessage(Lookup(db, id), Lookup(db', id)) && Lookup(db, id).num == Lookup(db', id).num)
  }

  /** A further attempt on this message can do no harm: a flush of this session has or had it in its snapshot. */
  ghost predicate Settled(x: End, id: Id) {
    Known(x.db, id) && (Lookup(x.db, id).num <= x.mark || InTodo(x, id))
  }

  /** Acks, and attempts on what the running flush is about to send, do not disturb the order. */
  lemma BookkeepingInOrder(x: End, y: End, x': End)
    requires InOrder(x, y) && SameBook(x.db, x'.db) && Sent(x'.db, x.peer) == Sent(x.db, x.peer)
    requires x'.peer == x.peer && x'.sent == x.sent && x'.open == x.open && x'.flushed == x.flushed && x'.mark == x.mark
    requires x'.job == x.job || (x.job.Flushing? && x'.job == x.job.(tried := true))
    requires x.open && x.flushed ==> forall id :: Ours(x, id) ==>
      Lookup(x'.db, id).attempts == Lookup(x.db, id).attempts || Settled(x, id)
    ensures InOrder(x', y)
  {
    assert Todo(x') == Todo(x);
    if x.open && x.flushed && y.open {
      var done := x.sent[..Caught(x.sent, |y.log|, y.inbox)];
      forall id | Ours(x', id)
        ensures PayloadOf(Lookup(x'.db, id)) in done || InTodo(x', id) || Untouched(x', Lookup(x'.db, id))
      {
        assert Ours(x, id);
      }
    }
  }

  lemma AttemptBook(db: Db, id: Id, now: int)
    requires Consistent(db)
    ensures SameBook(db, Attempt(db, id, now))
    ensures forall i :: Known(db, i) && i != id ==> Lookup(Attempt(db, id, now), i).attempts == Lookup(db, i).attempts
  {
    AttemptKeeps(db, id, now);
  }

  lemma DeliverBook(db: Db, from: Name, id: Id)
    requires Consistent(db)
    ensures SameBook(db, Deliver(db, from, id))
    ensures forall i :: Known(db, i) ==> Lookup(Deliver(db, from, id), i).attempts == Lookup(db, i).attempts
  {
    DeliverKeeps(db, from, id);
  }

  /** One row more, numbered after all others. */
  ghost predicate OneMore(db: Db, db': Db, row: Message) {
    && db'.last == db.last + 1 == row.num
    && (forall id :: Known(db', id) <==> Known(db, id) || id == row.id)
    && (forall id :: Known(db, id) ==> Lookup(db', id) == Lookup(db, id))
    && !Known(db, row.id) && Lookup(db', row.id) == row
  }

  lemma AddOneMore(db: Db, m: Message)
    requires Consistent(db) && Trimmed(m.peer) && m.id !in db.idx
    ensures OneMore(db, Add(db, m), m.(num := db.last + 1))
  {
    AddKeeps(db, m);
  }

  /** A new row, queued for the peer and untried or foreign to it, waits for the next flush. */
  lemma NewRowInOrder(x: End, y: End, x': End, row: Message)
    requires InOrder(x, y) && OneMore(x.db, x'.db, row)
    requires x' == x.(db := x'.db, sent := x'.sent) && x'.sent == Sent(x'.db, x.peer)
    requires x'.sent == x.sent || (x'.sent == x.sent + [PayloadOf(row)] && row.attempts == 0)
    requires x'.sent == x.sent ==> !(row.dir == Out && EqualFold(row.peer, x.peer))
    ensures InOrder(x', y)
  {
    assert Todo(x') == Todo(x);
    forall t | t in Todo(x') ensures Ours(x', t.id) {
      assert Ours(x, t.id);
    }
    if y.open {
      if x'.sent != x.sent {
        QueueGrows(x.sent, |y.log|, y.inbox, PayloadOf(row));
      }
      var c := Caught(x.sent, |y.log|, y.inbox);
      assert x'.sent[..c] == x.sent[..c];
      if x.open && x.flushed {
        forall id | Ours(x', id)
          ensures PayloadOf(Lookup(x'.db, id)) in x.sent[..c] || InTodo(x', id) || Untouched(x', Lookup(x'.db, id))
        {
          if id != row.id {
            assert Ours(x, id);
          }
        }
      }
    }
  }

  lemma AckInOrder(x: End, y: End, id: Id)
    requires InOrder(x, y)
    ensures InOrder(x, Push(y, Ack(id)))
  {
    if y.open {
      WireGrows(x.sent, |y.log|, y.inbox, Ack(id));
    }
  }

  lemma FinishInOrder(x: End, y: End)
    requires InOrder(x, y) && x.job.Flushing? && x.job.todo == []
    ensures InOrder(x.(job := Idle), y)
  {
    var x' := x.(job := Idle);
    if y.open && x.open && x.flushed {
      var done := x.sent[..Caught(x.sent, |y.log|, y.inbox)];
      forall id | Ours(x', id)
        ensures PayloadOf(Lookup(x'.db, id)) in done || InTodo(x', id) || Untouched(x', Lookup(x'.db, id))
      {
        assert Ours(x, id);
      }
    }
  }

  /** The sender's inbox, log and owed ack play no part in the order of what it sends. */
  lemma SenderSilent(x: End, y: End, x': End)
    requires InOrder(x, y)
    requires x' == x.(inbox := x'.inbox, log := x'.log, owed := x'.owed, meter := x'.meter)
    ensures InOrder(x', y)
  {
    assert Todo(x') == Todo(x);
    if y.open && x.open && x.flushed {
      var done := x.sent[..Caught(x.sent, |y.log|, y.inbox)];
      forall id | Ours(x', id)
        ensures PayloadOf(Lookup(x'.db, id)) in done || InTodo(x', id) || Untouched(x', Lookup(x'.db, id))
      {
        assert Ours(x, id);
      }
    }
  }

  /** A sender whose session is down or has not flushed yet has nothing to keep. */
  lemma SenderResets(x: End, y: End, x': End, y': End)
    requires InOrder(x, y)
    requires x'.job == Idle && x'.db == x.db && x'.peer == x.peer && x'.sent == x.sent && x'.mark <= x.mark
    requires y'.log == y.log && y'.db == y.db && y'.peer == y.peer
    requires !x'.open || !x'.flushed
    requires y'.open ==> y'.inbox == [] || (y.open && y'.inbox == y.inbox)
    ensures InOrder(x', y')
  {
  }

  // ---- the reader's steps ----

  /** Nothing the reader does outside its read loop touches the order. */
  lemma ReaderIdle(x: End, y: End, y': End)
    requires InOrder(x, y)
    requires y'.log == y.log && Arrived(y'.db, y'.peer) == Arrived(y.db, y.peer)
    requires y'.open ==> y.open && y'.inbox == y.inbox
    ensures InOrder(x, y')
  {
  }

  lemma KnownIsLogged(x: End, y: End, p: Payload)
    requires Consistent(y.db) && Earned(x, y) && Truthful(x, y) && Distinct(x.sent)
    requires p in x.sent && p.id in y.db.idx
    ensures p in y.log
  {
    var r := Lookup(y.db, p.id);
    assert Has(y.db, r);
    SameId(x.sent, p, PayloadOf(r));
  }

  /** Taking the first envelope off the wire does not change what the reader will hold in the end. */
  lemma NextRead(q: seq<Payload>, k: nat, wire: seq<Envelope>)
    requires NoGap(q, k, wire) && wire != []
    ensures var k' := if wire[0].Msg? && wire[0].p !in q[..k] then k + 1 else k;
      && NoGap(q, k', wire[1..]) && Caught(q, k', wire[1..]) == Caught(q, k, wire)
      && (k' == k + 1 ==> k < |q| && q[k] == wire[0].p)
  {
  }

  /** What the log is once the first envelope has been read. */
  ghost function Grown(y: End): seq<Payload>
    requires y.inbox != []
  {
    if y.inbox[0].Msg? && y.inbox[0].p !in y.log then y.log + [y.inbox[0].p] else y.log
  }

  lemma ReaderMoves(x: End, y: End, y': End)
    requires InOrder(x, y) && y.open && y.inbox != []
    requires y'.open && y'.inbox == y.inbox[1..] && y'.log == Grown(y) == Arrived(y'.db, y'.peer)
    ensures InOrder(x, y')
    ensures Caught(x.sent, |y'.log|, y'.inbox) == Caught(x.sent, |y.log|, y.inbox)
  {
    var k := |y.log|;
    assert x.sent[..k] == y.log;
    NextRead(x.sent, k, y.inbox);
    if |y'.log| == k + 1 {
      assert x.sent[..k + 1] == x.sent[..k] + [x.sent[k]];
    }
  }

  /** A message off the wire is stored if and only if it is not in the log yet. */
  lemma StoreGrows(x: End, y: End, p: Payload, ts: int)
    requires y.log == Arrived(y.db, y.peer) && p in x.sent
    requires Consistent(y.db) && Trimmed(y.peer) && Agree(x, y) && Distinct(x.sent)
    ensures var y' := Store(y, p, ts);
      y'.log == Arrived(y'.db, y'.peer) == if p in y.log then y.log else y.log + [p]
  {
    if p in y.log {
      ArrivedIsKnown(y, p);
    } else {
      if p.id in y.db.idx {
        KnownIsLogged(x, y, p);
      }
      AddTalks(y.db, Message(p.id, y.peer, In, p.body, ts, Received, 0, 0, 0, p.replyTo), y.peer);
    }
  }

  /** Unless the rate limit closes the link, reading one envelope keeps the log in step. */
  lemma ReadGrows(x: End, y: End, ts: int)
    requires y.log == Arrived(y.db, y.peer) && y.inbox != [] && y.open && Read(y, ts).open
    requires Consistent(y.db) && Trimmed(y.peer) && Agree(x, y) && Distinct(x.sent)
    ensures var y' := Read(y, ts);
      y'.log == Grown(y) == Arrived(y'.db, y'.peer) && y'.inbox == y.inbox[1..]
  {
    match y.inbox[0]
    case Ack(id) => DeliverKeepsTalk(y.db, y.peer, id, y.peer);
    case Msg(p) =>
      var rest := y.(inbox := y.inbox[1..], meter := Read(y, ts).meter);
      CalmSame(y.db);
      AgreeFlips(x, y);
      CalmAgree(y, x, rest);
      assert p in x.sent;
      StoreGrows(x, rest, p, ts);
  }

  lemma ReadInOrder(x: End, y: End, ts: int)
    requires InOrder(x, y) && Consistent(y.db) && Trimmed(y.peer) && Agree(x, y) && Distinct(x.sent)
    requires y.open && y.inbox != []
    ensures InOrder(x, Read(y, ts))
    ensures var y' := Read(y, ts);
      y'.open ==> Caught(x.sent, |y'.log|, y'.inbox) == Caught(x.sent, |y.log|, y.inbox)
  {
    if Read(y, ts).open {
      ReadGrows(x, y, ts);
      ReaderMoves(x, y, Read(y, ts));
    } else {
      ReaderIdle(x, y, Closed(y));
    }
  }

  // ---- whole runs ----

  ghost predicate Orderly(n: Net) {
    Safe(n) && InOrder(n.left, n.right) && InOrder(n.right, n.left)
  }

  /**
    The hypotheses on what the left end does: nothing is deleted, an unforced
    flush runs only on a session whose forced flush has begun, and a flush left
    over from an earlier session records attempts from then on only on messages of
    other peers, or on those that a flush of this session has had in its snapshot.
   */
  ghost predicate Permitted(n: Net, e: Event) {
    && !e.Erase?
    && (e.Flush? && !e.force ==> n.left.flushed)
    && (e.Stray? && n.left.open && n.left.flushed && Ours(n.left, e.strayId) ==> Settled(n.left, e.strayId))
  }

  /** The acting end walks its snapshot. */
  lemma WalkActs(n: Net, e: Event)
    requires Orderly(n) && (e.Skip? || e.Transmit? || e.Finish?) && Act(n, e) != n
    ensures InOrder(Act(n, e).left, Act(n, e).right)
  {
    var me, other := n.left, n.right;
    match e
    case Skip => SkipInOrder(me, other);
    case Finish => FinishInOrder(me, other);
    case Transmit =>
      if Encodable(PayloadOf(me.job.todo[0])) {
        SentIsBooked(me);
        TransmitInOrder(me, other);
      } else {
        SenderResets(me, other, Closed(me), other);
      }
  }

  /** The acting end queues, flushes or records an attempt. */
  lemma SenderActs(n: Net, e: Event)
    requires Orderly(n) && Permitted(n, e) && (e.Compose? || e.Flush? || e.Try? || e.Stray?) && Act(n, e) != n
    ensures InOrder(Act(n, e).left, Act(n, e).right)
  {
    var me, other := n.left, n.right;
    match e
    case Compose(id, body, replyTo, ts) =>
      var row := Message(id, me.peer, Out, body, ts, Queued, 0, 0, 0, replyTo);
      AddOneMore(me.db, row);
      AddTalks(me.db, row, me.peer);
      NewRowInOrder(me, other, Act(n, e).left, row.(num := me.db.last + 1));
    case Flush(force) => FlushInOrder(me, other, force);
    case Try(now) =>
      assert me.job.todo[0] in Todo(me);
      AttemptInOrder(me, other, me.job.todo[0].id, now, Act(n, e).left);
    case Stray(id, now) => AttemptInOrder(me, other, id, now, Act(n, e).left);
  }

  lemma AttemptInOrder(x: End, y: End, id: Id, now: int, x': End)
    requires InOrder(x, y) && Consistent(x.db)
    requires x'.db == Attempt(x.db, id, now) && x' == x.(db := x'.db, job := x'.job)
    requires x'.job == x.job || (x.job.Flushing? && x'.job == x.job.(tried := true))
    requires x.open && x.flushed && Ours(x, id) ==> Settled(x, id)
    ensures InOrder(x', y)
  {
    AttemptBook(x.db, id, now);
    AttemptKeepsTalk(x.db, id, now, x.peer);
    BookkeepingInOrder(x, y, x');
  }

  lemma DeliverInOrder(x: End, y: End, from: Name, id: Id, x': End)
    requires InOrder(x, y) && Consistent(x.db)
    requires x'.db == Deliver(x.db, from, id) && x' == x.(db := x'.db, inbox := x'.inbox)
    ensures InOrder(x', y)
  {
    DeliverBook(x.db, from, id);
    DeliverKeepsTalk(x.db, from, id, x.peer);
    BookkeepingInOrder(x, y, x');
  }

  lemma LinkActs(n: Net, e: Event)
    requires Orderly(n) && (e.Connect? || e.Disconnect?)
    ensures InOrder(Act(n, e).left, Act(n, e).right)
  {
    if Act(n, e) != n {
      SenderResets(n.left, n.right, Act(n, e).left, Act(n, e).right);
    }
  }

  /** Storing an inbound message leaves the sender's own queue as it was. */
  lemma StoredInOrder(x: End, y: End, p: Payload, ts: int)
    requires InOrder(x, y) && Consistent(x.db) && Trimmed(x.peer)
    ensures InOrder(Store(x, p, ts), y)
  {
    if p.id !in x.db.idx {
      var row := Message(p.id, x.peer, In, p.body, ts, Received, 0, 0, 0, p.replyTo);
      AddOneMore(x.db, row);
      AddTalks(x.db, row, x.peer);
      NewRowInOrder(x, y, x.(db := Add(x.db, row)), row.(num := x.db.last + 1));
      SenderSilent(x.(db := Add(x.db, row)), y, Store(x, p, ts));
    } else {
      SenderSilent(x, y, Store(x, p, ts));
    }
  }

  lemma SendAckInOrder(x: End, y: End, id: Id)
    requires InOrder(x, y)
    ensures InOrder(x.(owed := Nothing), Push(y, Ack(id)))
  {
    SenderSilent(x, y, x.(owed := Nothing));
    AckInOrder(x.(owed := Nothing), y, id);
  }

  /** Reading leaves the order of what the reading end sends alone. */
  lemma ReceiveActs(n: Net, ts: int)
    requires Orderly(n) && n.left.inbox != []
    ensures InOrder(Read(n.left, ts), n.right)
  {
    var me := n.left;
    match me.inbox[0]
    case Ack(id) => DeliverInOrder(me, n.right, me.peer, id, Read(me, ts));
    case Msg(p) =>
      if RateLimit.Exceeded(RateLimit.Tick(me.meter, ts)) {
        SenderResets(me, n.right, Closed(me), n.right);
      } else {
        var rest := me.(inbox := me.inbox[1..], meter := RateLimit.Tick(me.meter, ts));
        SenderSilent(me, n.right, rest);
        StoredInOrder(rest, n.right, p, ts);
      }
  }

  lemma ForeignInOrder(x: End, y: End, m: Message)
    requires InOrder(x, y) && Consistent(x.db)
    requires m.id !in x.db.idx && Trimmed(m.peer) && !EqualFold(m.peer, x.peer)
    ensures InOrder(x.(db := Add(x.db, m)), y)
  {
    AddOneMore(x.db, m);
    AddTalks(x.db, m, x.peer);
    NewRowInOrder(x, y, x.(db := Add(x.db, m)), m.(num := x.db.last + 1));
  }

  /** The acting end as reader. */
  lemma ReaderActs(n: Net, e: Event)
    requires Orderly(n) && !e.Erase?
    ensures InOrder(Act(n, e).right, Act(n, e).left)
  {
    var me, other := n.left, n.right;
    var n' := Act(n, e);
    if n' == n {
    } else if e.Connect? {
      SenderResets(other, me, n'.right, n'.left);
    } else if e.Receive? {
      ReadInOrder(other, me, e.ts);
    } else {
      ReaderWaits(n, e);
    }
  }

  /** Without reading, an end neither logs nor consumes, and touches the other end only through its inbox. */
  lemma OnlyItsOwn(n: Net, e: Event)
    requires !e.Receive? && !e.Connect?
    ensures var me, me' := n.left, Act(n, e).left;
      me'.log == me.log && me'.peer == me.peer && (me'.open ==> me.open && me'.inbox == me.inbox)
    ensures Act(n, e).right == n.right.(inbox := Act(n, e).right.inbox)
  {
  }

  lemma ReaderWaits(n: Net, e: Event)
    requires Orderly(n) && !e.Receive? && !e.Erase? && !e.Connect?
    ensures InOrder(Act(n, e).right, Act(n, e).left)
  {
    var me, other := n.left, n.right;
    ArrivedKept(n, e);
    OnlyItsOwn(n, e);
    var me', other' := Act(n, e).left, Act(n, e).right;
    ReaderIdle(other, me, me');
    SenderSilent(other, me', other');
  }

  lemma ArrivedKept(n: Net, e: Event)
    requires Safe(n) && !e.Receive? && !e.Erase?
    ensures Arrived(Act(n, e).left.db, n.left.peer) == Arrived(n.left.db, n.left.peer)
  {
    var me := n.left;
    if Act(n, e) != n {
      match e
      case Compose(id, body, replyTo, ts) =>
        AddTalks(me.db, Message(id, me.peer, Out, body, ts, Queued, 0, 0, 0, replyTo), me.peer);
      case Try(now) => AttemptKeepsTalk(me.db, me.job.todo[0].id, now, me.peer);
      case Stray(id, now) => AttemptKeepsTalk(me.db, id, now, me.peer);
      case Foreign(m) => AddTalks(me.db, m, me.peer);
      case ForeignAck(from, id) => DeliverKeepsTalk(me.db, from, id, me.peer);
      case _ =>
    }
  }

  lemma ActOrderly(n: Net, e: Event)
    requires Orderly(n) && Permitted(n, e)
    ensures Orderly(Act(n, e))
  {
    ActSafe(n, e);
    ReaderActs(n, e);
    if Act(n, e) == n {
    } else if e.Skip? || e.Transmit? || e.Finish? {
      WalkActs(n, e);
    } else if e.Compose? || e.Flush? || e.Try? || e.Stray? {
      SenderActs(n, e);
    } else if e.Connect? || e.Disconnect? {
      LinkActs(n, e);
    } else if e.Receive? {
      ReceiveActs(n, e.ts);
    } else if e.SendAck? {
      SendAckInOrder(n.left, n.right, n.left.owed.id);
    } else if e.Foreign? {
      ForeignInOrder(n.left, n.right, e.m);
    } else {
      DeliverInOrder(n.left, n.right, e.from, e.ackId, Act(n, e).left);
    }
  }

  ghost predicate Disciplined(n: Net, run: seq<Action>)
    decreases |run|
  {
    run == [] || (
      var before, a := run[..|run| - 1], run[|run| - 1];
      Disciplined(n, before) &&
      match a
      case Left(e) => Permitted(Run(n, before), e)
      case Right(e) => Permitted(Flip(Run(n, before)), e))
  }

  lemma {:induction false} RunOrderly(left: Name, right: Name, run: seq<Action>)
    requires Trimmed(left) && Trimmed(right) && Disciplined(Start(left, right), run)
    ensures Orderly(Run(Start(left, right), run))
    decreases |run|
  {
    if run != [] {
      var n := Run(Start(left, right), run[..|run| - 1]);
      RunOrderly(left, right, run[..|run| - 1]);
      match run[|run| - 1]
      case Left(e) => ActOrderly(n, e);
      case Right(e) => ActOrderly(Flip(n), e);
    }
  }
}
