/**
  At least once: one undisturbed session empties the outbox. Reconnecting,
  flushing by force, reading and acking is all it takes, provided every message
  that waits can be encoded.
 */
module DeliveryProgress {
  import opened Names
  import opened MessageDb
  import opened Conversation
  import opened Delivery
  import opened DeliveryTheorems

  /** The ends only connect, flush by force, read and ack. */
  predicate Plain(e: Event) {
    && !e.Erase? && !e.Compose? && !e.Stray? && !e.Foreign? && !e.ForeignAck?
    && (e.Flush? ==> e.force)
  }

  ghost predicate AllPlain(run: seq<Action>) {
    forall i :: 0 <= i < |run| ==> Plain(run[i].e)
  }

  ghost predicate Reaches(n: Net, n': Net) {
    exists run :: AllPlain(run) && Run(n, run) == n'
  }

  lemma Stays(n: Net)
    ensures Reaches(n, n)
  {
    assert AllPlain([]) && Run(n, []) == n;
  }

  lemma {:induction false} RunConcat(n: Net, r: seq<Action>, s: seq<Action>)
    ensures Run(n, r + s) == Run(Run(n, r), s)
    decreases |s|
  {
    if s == [] {
      assert r + s == r;
    } else {
      var s', a := s[..|s| - 1], s[|s| - 1];
      RunConcat(n, r, s');
      assert r + s == (r + s') + [a];
      RunSnoc(n, r + s', a);
    }
  }

  lemma ReachesTransitive(a: Net, b: Net, c: Net)
    requires Reaches(a, b) && Reaches(b, c)
    ensures Reaches(a, c)
  {
    var r :| AllPlain(r) && Run(a, r) == b;
    var s :| AllPlain(s) && Run(b, s) == c;
    RunConcat(a, r, s);
    assert AllPlain(r + s);
  }

  lemma OneStep(n: Net, a: Action)
    requires Plain(a.e)
    ensures Reaches(n, Step(n, a))
  {
    RunSnoc(n, [], a);
    assert AllPlain([] + [a]) && Run(n, []) == n;
  }

  lemma TwoSteps(n: Net, a: Action, b: Action)
    requires Plain(a.e) && Plain(b.e)
    ensures Reaches(n, Step(Step(n, a), b))
  {
    OneStep(n, a);
    OneStep(Step(n, a), b);
    ReachesTransitive(n, Step(n, a), Step(Step(n, a), b));
  }

  /** Row by row: what is unsent afterwards was unsent before and is not among the acked ids. */
  ghost predicate LeavesUnsent(db: Db, db': Db, peer: Name, acked: set<Id>) {
    forall m :: Has(db', m) && Unsent(m) && EqualFold(m.peer, peer) ==>
      m.id !in acked && exists w :: Has(db, w) && w.id == m.id && Unsent(w) && EqualFold(w.peer, peer)
  }

  lemma LeavesUnsentTransitive(a: Db, b: Db, c: Db, peer: Name, s: set<Id>, t: set<Id>)
    requires LeavesUnsent(a, b, peer, s) && LeavesUnsent(b, c, peer, t)
    ensures LeavesUnsent(a, c, peer, s + t)
  {
  }

  function Ids(ms: seq<Message>): seq<Id> {
    seq(|ms|, i requires 0 <= i < |ms| => ms[i].id)
  }

  ghost predicate AllKnown(db: Db, ms: seq<Message>) {
    forall i :: 0 <= i < |ms| ==> Known(db, ms[i].id)
  }

  ghost predicate AllEncodable(ms: seq<Message>) {
    forall i :: 0 <= i < |ms| ==> Encodable(PayloadOf(ms[i]))
  }

  function MsgIds(wire: seq<Envelope>): seq<Id>
    requires forall i :: 0 <= i < |wire| ==> wire[i].Msg?
  {
    seq(|wire|, i requires 0 <= i < |wire| => wire[i].p.id)
  }

  function Acks(ids: seq<Id>): seq<Envelope> {
    seq(|ids|, i requires 0 <= i < |ids| => Ack(ids[i]))
  }

  function Msgs(ms: seq<Message>): seq<Envelope> {
    seq(|ms|, i requires 0 <= i < |ms| => Msg(PayloadOf(ms[i])))
  }

  lemma MsgsCons(wire: seq<Envelope>, ms: seq<Message>)
    requires ms != []
    ensures wire + Msgs(ms) == (wire + [Msg(PayloadOf(ms[0]))]) + Msgs(ms[1..])
  {
  }

  // ---- the sender walks its snapshot ----

  lemma AttemptLeaves(db: Db, id: Id, now: int, peer: Name)
    requires Consistent(db)
    ensures Consistent(Attempt(db, id, now)) && LeavesUnsent(db, Attempt(db, id, now), peer, {})
  {
    AttemptKeeps(db, id, now);
    var db' := Attempt(db, id, now);
    forall m | Has(db', m) && Unsent(m) && EqualFold(m.peer, peer)
      ensures exists w :: Has(db, w) && w.id == m.id && Unsent(w) && EqualFold(w.peer, peer)
    {
      assert Has(db, Lookup(db, m.id));
    }
  }

  lemma SendOne(n: Net) returns (m: Net)
    requires n.left.job.Flushing? && !n.left.job.tried && n.right.open
    requires n.left.job.todo != [] && Known(n.left.db, n.left.job.todo[0].id)
    requires Encodable(PayloadOf(n.left.job.todo[0]))
    ensures Reaches(n, m)
    ensures m.left == n.left.(
        db := Attempt(n.left.db, n.left.job.todo[0].id, 0), job := n.left.job.(todo := n.left.job.todo[1..]))
    ensures m.right == n.right.(inbox := n.right.inbox + [Msg(PayloadOf(n.left.job.todo[0]))])
  {
    TwoSteps(n, Left(Try(0)), Left(Transmit));
    m := Step(Step(n, Left(Try(0))), Left(Transmit));
  }

  lemma AttemptKnows(db: Db, id: Id, now: int, ms: seq<Message>)
    requires AllKnown(db, ms)
    ensures AllKnown(Attempt(db, id, now), ms)
  {
  }

  /** Every message of a snapshot tried once, in order. */
  function AttemptAll(db: Db, ms: seq<Message>): Db
    decreases |ms|
  {
    if ms == [] then db else AttemptAll(Attempt(db, ms[0].id, 0), ms[1..])
  }

  lemma {:induction false} AttemptAllLeaves(db: Db, ms: seq<Message>, peer: Name)
    requires Consistent(db)
    ensures Consistent(AttemptAll(db, ms)) && LeavesUnsent(db, AttemptAll(db, ms), peer, {})
    decreases |ms|
  {
    if ms != [] {
      var next := Attempt(db, ms[0].id, 0);
      AttemptLeaves(db, ms[0].id, 0, peer);
      AttemptAllLeaves(next, ms[1..], peer);
      LeavesUnsentTransitive(db, next, AttemptAll(db, ms), peer, {}, {});
    }
  }

  lemma {:induction false} SendAll(n: Net) returns (n': Net)
    requires n.left.job.Flushing? && !n.left.job.tried && n.right.open
    requires AllKnown(n.left.db, n.left.job.todo) && AllEncodable(n.left.job.todo)
    ensures Reaches(n, n')
    ensures n'.right == n.right.(inbox := n.right.inbox + Msgs(n.left.job.todo))
    ensures n'.left == n.left.(db := AttemptAll(n.left.db, n.left.job.todo), job := n'.left.job)
    decreases |n.left.job.todo|
  {
    var todo := n.left.job.todo;
    if todo == [] {
      n' := n;
      Stays(n);
      assert n.right.inbox + Msgs(todo) == n.right.inbox;
    } else {
      var m := SendOne(n);
      AttemptKnows(n.left.db, todo[0].id, 0, todo[1..]);
      n' := SendAll(m);
      ReachesTransitive(n, m, n');
      MsgsCons(n.right.inbox, todo);
    }
  }

  // ---- the receiver reads and acks ----

  /** Read late enough, a message stays within the rate limit. */
  lemma ReadOne(n: Net) returns (m: Net)
    requires n.right.open && n.left.open && n.right.owed == Nothing && n.right.inbox != [] && n.right.inbox[0].Msg?
    ensures Reaches(n, m)
    ensures m.left == n.left.(inbox := n.left.inbox + [Ack(n.right.inbox[0].p.id)])
    ensures m.right.open && m.right.owed == Nothing && m.right.inbox == n.right.inbox[1..]
  {
    var ts := RateLimit.LaterThan(n.right.meter);
    TwoSteps(n, Right(Receive(ts)), Right(SendAck));
    m := Step(Step(n, Right(Receive(ts))), Right(SendAck));
  }

  lemma {:induction false} ReadAll(n: Net) returns (n': Net)
    requires n.right.open && n.left.open && n.right.owed == Nothing
    requires forall i :: 0 <= i < |n.right.inbox| ==> n.right.inbox[i].Msg?
    ensures Reaches(n, n')
    ensures n'.left == n.left.(inbox := n.left.inbox + Acks(MsgIds(n.right.inbox)))
    decreases |n.right.inbox|
  {
    var wire := n.right.inbox;
    if wire == [] {
      n' := n;
      Stays(n);
      assert n.left.inbox + Acks(MsgIds(wire)) == n.left.inbox;
    } else {
      var m := ReadOne(n);
      n' := ReadAll(m);
      ReachesTransitive(n, m, n');
      assert Acks(MsgIds(wire)) == [Ack(wire[0].p.id)] + Acks(MsgIds(wire[1..]));
    }
  }

  // ---- the sender believes the acks ----

  lemma DeliverLeaves(db: Db, peer: Name, id: Id)
    requires Consistent(db)
    ensures Consistent(Deliver(db, peer, id)) && LeavesUnsent(db, Deliver(db, peer, id), peer, {id})
  {
    DeliverKeeps(db, peer, id);
    var db' := Deliver(db, peer, id);
    forall m | Has(db', m) && Unsent(m) && EqualFold(m.peer, peer)
      ensures m.id != id && exists w :: Has(db, w) && w.id == m.id && Unsent(w) && EqualFold(w.peer, peer)
    {
      assert Has(db, Lookup(db, m.id));
    }
  }

  lemma {:induction false} BelieveAll(n: Net, ids: seq<Id>) returns (n': Net)
    requires n.left.open && n.left.owed == Nothing && n.left.inbox == Acks(ids) && Consistent(n.left.db)
    ensures Reaches(n, n')
    ensures n'.left.peer == n.left.peer && Consistent(n'.left.db)
    ensures LeavesUnsent(n.left.db, n'.left.db, n.left.peer, set id | id in ids)
    decreases |ids|
  {
    if ids == [] {
      n' := n;
      Stays(n);
    } else {
      OneStep(n, Left(Receive(0)));
      var m := Step(n, Left(Receive(0)));
      assert Acks(ids)[1..] == Acks(ids[1..]);
      DeliverLeaves(n.left.db, n.left.peer, ids[0]);
      n' := BelieveAll(m, ids[1..]);
      ReachesTransitive(n, m, n');
      LeavesUnsentTransitive(n.left.db, m.left.db, n'.left.db, n.left.peer, {ids[0]}, set id | id in ids[1..]);
      assert {ids[0]} + (set id | id in ids[1..]) == set id | id in ids;
    }
  }

  // ---- one session ----

  /** Both ends drop whatever they had, reconnect, and the left begins its forced flush. */
  lemma Reconnect(n: Net) returns (up: Net)
    ensures Reaches(n, up)
    ensures up.left == Flushed(Opened(n.left), true)
    ensures up.right == Opened(n.right)
  {
    TwoSteps(n, Left(Disconnect), Right(Disconnect));
    var down := Step(Step(n, Left(Disconnect)), Right(Disconnect));
    TwoSteps(down, Left(Connect), Left(Flush(true)));
    up := Step(Step(down, Left(Connect)), Left(Flush(true)));
    ReachesTransitive(n, down, up);
  }

  lemma PendingKnown(db: Db, peer: Name)
    requires Consistent(db)
    ensures AllKnown(db, Pending(db, peer))
  {
    var todo := Pending(db, peer);
    SelectMeans(db, Lower(peer), Unsent, db.last);
    forall i | 0 <= i < |todo| ensures Known(db, todo[i].id) {
      assert todo[i] in todo;
    }
  }

  /**
    Whatever has happened, what is queued and can be encoded is delivered by one
    session: nothing is pending after it.
   */
  lemma OneSessionDelivers(n: Net) returns (n': Net)
    requires Consistent(n.left.db) && AllEncodable(Pending(n.left.db, n.left.peer))
    ensures Reaches(n, n')
    ensures Pending(n'.left.db, n'.left.peer) == []
  {
    var todo := Pending(n.left.db, n.left.peer);
    var up := Reconnect(n);
    PendingKnown(n.left.db, n.left.peer);
    var sent := SendAll(up);
    ReachesTransitive(n, up, sent);
    AttemptAllLeaves(n.left.db, todo, n.left.peer);
    assert sent.right.inbox == Msgs(todo);
    var read := ReadAll(sent);
    ReachesTransitive(n, sent, read);
    assert MsgIds(sent.right.inbox) == Ids(todo);
    assert read.left.inbox == Acks(Ids(todo));
    n' := BelieveAll(read, Ids(todo));
    ReachesTransitive(n, read, n');
    LeavesUnsentTransitive(n.left.db, sent.left.db, n'.left.db, n.left.peer, {}, set id | id in Ids(todo));
    NothingLeft(n.left.db, n'.left.db, n.left.peer);
  }

  lemma NothingLeft(db: Db, db': Db, peer: Name)
    requires Consistent(db) && Consistent(db')
    requires LeavesUnsent(db, db', peer, {} + set id | id in Ids(Pending(db, peer)))
    ensures Pending(db', peer) == []
  {
    var todo, rest := Pending(db, peer), Pending(db', peer);
    SelectMeans(db', Lower(peer), Unsent, db'.last);
    forall w | Has(db, w) && Unsent(w) && EqualFold(w.peer, peer) ensures w.id in Ids(todo) {
      RowAt(db, Lower(peer), w.num, w);
      SelectMember(db, Lower(peer), Unsent, db.last, w);
      var i :| 0 <= i < |todo| && todo[i] == w;
      assert Ids(todo)[i] == w.id;
    }
    forall m ensures m !in rest {
      assert m in rest ==> Has(db', m) && Unsent(m) && EqualFold(m.peer, peer);
    }
    if rest != [] {
      Inhabited(rest);
    }
  }

  lemma Inhabited(s: seq<Message>)
    requires s != []
    ensures exists m :: m in s
  {
    assert s[0] in s;
  }
}
