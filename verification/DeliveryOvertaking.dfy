/**
  When an unforced flush breaks the send order. It may skip what has been tried
  before; if such a message is not already with the receiver and a later one can
  still be sent past it, the later one can arrive first. Otherwise no way of
  walking the snapshot, and no way of reading meanwhile, breaks the order.
 */
module DeliveryOvertaking {
  import opened Names
  import opened Keys
  import opened Sorting
  import opened MessageDb
  import opened Conversation
  import opened Delivery
  import opened DeliverySafety
  import opened DeliveryOrder

  /** The sender walks its snapshot; the receiver reads and acks. */
  predicate Walking(a: Action) {
    match a
    case Left(e) => e.Skip? || e.Try? || e.Transmit?
    case Right(e) => e.Receive? || e.SendAck?
  }

  ghost predicate AllWalking(run: seq<Action>) {
    forall i :: 0 <= i < |run| ==> Walking(run[i])
  }

  /** What the receiver holds once it has read the wire. */
  ghost function DoneOf(n: Net): seq<Payload>
    requires NoGap(n.left.sent, |n.right.log|, n.right.inbox)
  {
    n.left.sent[..Caught(n.left.sent, |n.right.log|, n.right.inbox)]
  }

  ghost predicate Broken(n: Net) {
    !(Arrived(n.right.db, n.right.peer) <= Sent(n.left.db, n.left.peer))
  }

  /** The sender with its flushes forgotten. */
  function Quiet(x: End): End {
    x.(job := Idle, flushed := false, mark := 0)
  }

  /** The receiver is in step with the sender, whatever is being flushed. */
  ghost predicate Level(n: Net) {
    InOrder(Quiet(n.left), n.right)
  }

  /** Every message before j can be passed: skipped, because it was tried before, or sent. */
  ghost predicate Passable(todo: seq<Message>, j: nat) {
    forall k :: 0 <= k < j && k < |todo| ==> todo[k].attempts > 0 || Encodable(PayloadOf(todo[k]))
  }

  /** A message the flush may leave out although the receiver does not have it. */
  ghost predicate Hole(todo: seq<Message>, done: seq<Payload>, i: nat) {
    i < |todo| && todo[i].attempts > 0 && PayloadOf(todo[i]) !in done
  }

  ghost predicate Sendable(todo: seq<Message>, j: nat) {
    j < |todo| && Encodable(PayloadOf(todo[j])) && Passable(todo, j)
  }

  ghost predicate Overtakable(todo: seq<Message>, done: seq<Payload>) {
    exists i, j :: i < j && Hole(todo, done, i) && Sendable(todo, j)
  }

  // ---- no overtaking: whatever the walk, the order holds ----

  /** The messages of a snapshot, as they stand in the store; all others are done. */
  ghost predicate Snapshot(x: End, todo: seq<Message>, done: seq<Payload>) {
    && Increasing(todo, RowNum)
    && (forall t :: t in todo ==>
        Ours(x, t.id) && PayloadOf(Lookup(x.db, t.id)) == PayloadOf(t) && Lookup(x.db, t.id).num == t.num)
    && (forall id :: Ours(x, id) ==> PayloadOf(Lookup(x.db, id)) in done || exists t :: t in todo && t.id == id)
  }

  lemma SnapshotTaken(x: End, y: End, done: seq<Payload>)
    requires Consistent(x.db) && Earned(x, y) && y.log <= done
    ensures Snapshot(x, Pending(x.db, x.peer), done)
  {
    var todo := Pending(x.db, x.peer);
    SelectMeans(x.db, Lower(x.peer), Unsent, x.db.last);
    forall t | t in todo ensures Ours(x, t.id) && Lookup(x.db, t.id) == t {
      assert Has(x.db, t);
    }
    forall id | Ours(x, id) ensures PayloadOf(Lookup(x.db, id)) in done || exists t :: t in todo && t.id == id {
      FlushTakes(x, y, id, done, todo);
    }
  }

  lemma SnapshotKept(x: End, x': End, todo: seq<Message>, done: seq<Payload>)
    requires Snapshot(x, todo, done) && x'.peer == x.peer && (x'.db == x.db || SameBook(x.db, x'.db))
    ensures Snapshot(x', todo, done)
  {
    forall id | Ours(x', id) ensures Ours(x, id) && PayloadOf(Lookup(x'.db, id)) == PayloadOf(Lookup(x.db, id)) {
    }
  }

  /** The flush, if it is still running, has p messages of the snapshot behind it. */
  ghost predicate Position(job: Job, todo: seq<Message>, p: nat) {
    p <= |todo| && (job.Flushing? ==> !job.force && job.todo == todo[p..] && Passable(todo, p))
  }

  /** Each of the first p messages is among those held, or was left out. */
  ghost predicate Behind(todo: seq<Message>, done: seq<Payload>, held: seq<Payload>, p: nat) {
    p <= |todo| && done <= held && forall k :: 0 <= k < p ==> PayloadOf(todo[k]) in held || Hole(todo, done, k)
  }

  lemma BehindGrows(todo: seq<Message>, done: seq<Payload>, held: seq<Payload>, held': seq<Payload>, p: nat)
    requires Behind(todo, done, held, p) && held <= held' && p < |todo|
    requires PayloadOf(todo[p]) in held' || Hole(todo, done, p)
    ensures Behind(todo, done, held', p + 1)
  {
    assert forall q :: q in held ==> q in held';
  }

  ghost predicate Strolling(n: Net, todo: seq<Message>, done: seq<Payload>, p: nat) {
    && Level(n) && Snapshot(n.left, todo, done) && Position(n.left.job, todo, p)
    && (n.right.open ==> Behind(todo, done, DoneOf(n), p))
  }

  lemma FlushStrolls(n: Net)
    requires Consistent(n.left.db) && Earned(n.left, n.right)
    requires Level(n) && n.left.open && n.right.open && n.left.job.Idle?
    ensures Strolling(Act(n, Flush(false)), Pending(n.left.db, n.left.peer), DoneOf(n), 0)
  {
    SnapshotTaken(n.left, n.right, DoneOf(n));
    SnapshotKept(n.left, Flushed(n.left, false), Pending(n.left.db, n.left.peer), DoneOf(n));
  }

  lemma Advance(job: Job, todo: seq<Message>, p: nat)
    requires Position(job, todo, p) && job.Flushing? && job.todo != []
    ensures p < |todo| && job.todo[0] == todo[p] && job.todo[1..] == todo[p + 1..]
  {
  }

  lemma SkipStrolls(n: Net, todo: seq<Message>, done: seq<Payload>, p: nat)
    requires Strolling(n, todo, done, p) && Act(n, Skip) != n
    ensures Strolling(Act(n, Skip), todo, done, p + 1)
  {
    SnapshotKept(n.left, Act(n, Skip).left, todo, done);
    Advance(n.left.job, todo, p);
    if n.right.open {
      assert PayloadOf(todo[p]) in done ==> PayloadOf(todo[p]) in DoneOf(n);
      BehindGrows(todo, done, DoneOf(n), DoneOf(n), p);
    }
  }

  lemma TriedKeeps(x: End, y: End, todo: seq<Message>, done: seq<Payload>, id: Id, now: int, x': End)
    requires Consistent(x.db) && InOrder(Quiet(x), y) && Snapshot(x, todo, done)
    requires x' == x.(db := Attempt(x.db, id, now), job := x'.job)
    ensures InOrder(Quiet(x'), y) && Snapshot(x', todo, done)
  {
    AttemptBook(x.db, id, now);
    SnapshotKept(x, x', todo, done);
    AttemptInOrder(Quiet(x), y, id, now, Quiet(x'));
  }

  lemma TryStrolls(n: Net, todo: seq<Message>, done: seq<Payload>, p: nat, now: int)
    requires Consistent(n.left.db) && Strolling(n, todo, done, p) && Act(n, Try(now)) != n
    ensures Strolling(Act(n, Try(now)), todo, done, p)
  {
    var x := n.left;
    Advance(x.job, todo, p);
    assert todo[p] in todo && Known(x.db, todo[p].id);
    var x' := x.(db := Attempt(x.db, todo[p].id, now), job := x.job.(tried := true));
    assert Act(n, Try(now)) == n.(left := x');
    TriedKeeps(x, n.right, todo, done, todo[p].id, now, x');
  }

  /** With no way past a hole, everything queued before a message that can be sent is held. */
  lemma NothingMissing(x: End, todo: seq<Message>, done: seq<Payload>, held: seq<Payload>, p: nat, i: nat)
    requires Snapshot(x, todo, done) && Behind(todo, done, held, p) && !Overtakable(todo, done) && Sendable(todo, p)
    requires Booked(x) && i < |x.sent| && Lookup(x.db, x.sent[i].id).num < todo[p].num
    ensures x.sent[i] in held
  {
    var id := x.sent[i].id;
    assert Ours(x, id);
    if x.sent[i] !in done {
      var k :| 0 <= k < |todo| && todo[k].id == id;
      assert todo[k] in todo;
      assert k < p;
      assert !Hole(todo, done, k);
    }
  }

  /** So that message is held itself, or the next one the receiver lacks. */
  lemma NextInLine(x: End, todo: seq<Message>, done: seq<Payload>, c: nat, p: nat)
    requires Snapshot(x, todo, done) && c <= |x.sent| && Behind(todo, done, x.sent[..c], p)
    requires Booked(x) && !Overtakable(todo, done) && Sendable(todo, p) && PayloadOf(todo[p]) in x.sent
    ensures PayloadOf(todo[p]) in x.sent[..c] || (c < |x.sent| && x.sent[c] == PayloadOf(todo[p]))
  {
    var i :| 0 <= i < |x.sent| && x.sent[i] == PayloadOf(todo[p]);
    assert todo[p] in todo;
    assert Ours(x, x.sent[i].id);
    if c < i {
      assert Lookup(x.db, x.sent[c].id).num < Lookup(x.db, x.sent[i].id).num;
      EarlierIsOther(x, c);
      NothingMissing(x, todo, done, x.sent[..c], p, c);
    } else if i < c {
      assert x.sent[..c][i] == PayloadOf(todo[p]);
    }
  }

  lemma EarlierIsOther(x: End, c: nat)
    requires Booked(x) && c < |x.sent|
    ensures x.sent[c] !in x.sent[..c]
  {
    forall i | 0 <= i < c ensures x.sent[i] != x.sent[c] {
      assert Lookup(x.db, x.sent[i].id).num < Lookup(x.db, x.sent[c].id).num;
    }
  }

  /** What is ours has been sent. */
  lemma OursIsSent(x: End, id: Id)
    requires Consistent(x.db) && x.sent == Sent(x.db, x.peer) && Ours(x, id)
    ensures PayloadOf(Lookup(x.db, id)) in x.sent
  {
    var m, ms := Lookup(x.db, id), Select(x.db.rows, Lower(x.peer), Outbound, x.db.last);
    RowAt(x.db, Lower(x.peer), m.num, m);
    SelectMember(x.db, Lower(x.peer), Outbound, x.db.last, m);
    var i :| 0 <= i < |ms| && ms[i] == m;
    assert Payloads(ms)[i] == PayloadOf(m);
  }

  /** A message that is held or next in line goes on the wire without leaving a gap. */
  lemma PushLevel(x: End, y: End, p: Payload)
    requires InOrder(x, y) && y.open && x.job.Idle? && !x.flushed
    requires var c := Caught(x.sent, |y.log|, y.inbox); p in x.sent[..c] || (c < |x.sent| && x.sent[c] == p)
    ensures InOrder(x, Push(y, Msg(p)))
    ensures var y' := Push(y, Msg(p));
      var c, c' := Caught(x.sent, |y.log|, y.inbox), Caught(x.sent, |y'.log|, y'.inbox);
      c <= c' && p in x.sent[..c']
  {
    WireGrows(x.sent, |y.log|, y.inbox, Msg(p));
  }

  /** The head of the walk, if it can be sent and nothing can be overtaken, goes to a receiver in step with it. */
  lemma HeadGoes(x: End, y: End, todo: seq<Message>, done: seq<Payload>, p: nat)
    requires Consistent(x.db) && InOrder(Quiet(x), y) && y.open && Snapshot(x, todo, done)
    requires Behind(todo, done, x.sent[..Caught(x.sent, |y.log|, y.inbox)], p)
    requires !Overtakable(todo, done) && Sendable(todo, p)
    ensures var y' := Push(y, Msg(PayloadOf(todo[p])));
      && InOrder(Quiet(x), y')
      && Behind(todo, done, x.sent[..Caught(x.sent, |y'.log|, y'.inbox)], p + 1)
  {
    var c, y' := Caught(x.sent, |y.log|, y.inbox), Push(y, Msg(PayloadOf(todo[p])));
    assert todo[p] in todo;
    OursIsSent(x, todo[p].id);
    SentIsBooked(x);
    NextInLine(x, todo, done, c, p);
    PushLevel(Quiet(x), y, PayloadOf(todo[p]));
    BehindGrows(todo, done, x.sent[..c], x.sent[..Caught(x.sent, |y'.log|, y'.inbox)], p);
  }

  lemma TransmitStrolls(n: Net, todo: seq<Message>, done: seq<Payload>, p: nat)
    requires Consistent(n.left.db) && Strolling(n, todo, done, p) && !Overtakable(todo, done)
    requires Act(n, Transmit) != n && Encodable(PayloadOf(n.left.job.todo[0]))
    ensures Strolling(Act(n, Transmit), todo, done, p + 1)
  {
    var x, y, n' := n.left, n.right, Act(n, Transmit);
    Advance(x.job, todo, p);
    SnapshotKept(x, n'.left, todo, done);
    assert n'.right == Push(y, Msg(PayloadOf(todo[p])));
    if y.open {
      HeadGoes(x, y, todo, done, p);
    }
  }

  /** A message that cannot be encoded ends the walk. */
  lemma FailureStrolls(n: Net, todo: seq<Message>, done: seq<Payload>, p: nat)
    requires Strolling(n, todo, done, p) && n.left.job.Flushing?
    ensures Strolling(n.(left := Closed(n.left)), todo, done, p)
  {
    SnapshotKept(n.left, Closed(n.left), todo, done);
    SenderResets(Quiet(n.left), n.right, Quiet(Closed(n.left)), n.right);
  }

  lemma QuietAgrees(n: Net)
    requires Safe(n)
    ensures Agree(Quiet(n.left), n.right)
  {
    CalmSame(n.left.db);
    CalmAgree(n.left, n.right, Quiet(n.left));
  }

  lemma ReadLevel(n: Net, ts: int)
    requires Safe(n) && Level(n) && n.right.open && n.right.inbox != []
    ensures var x, y, y' := n.left, n.right, Read(n.right, ts);
      && InOrder(Quiet(x), y')
      && (y'.open ==> Caught(x.sent, |y'.log|, y'.inbox) == Caught(x.sent, |y.log|, y.inbox))
  {
    QuietAgrees(n);
    ReadInOrder(Quiet(n.left), n.right, ts);
  }

  lemma ReadStrolls(n: Net, todo: seq<Message>, done: seq<Payload>, p: nat, y': End)
    requires Strolling(n, todo, done, p) && InOrder(Quiet(n.left), y')
    requires y'.open ==> n.right.open
    requires y'.open ==>
      Caught(n.left.sent, |y'.log|, y'.inbox) == Caught(n.left.sent, |n.right.log|, n.right.inbox)
    ensures Strolling(n.(right := y'), todo, done, p)
  {
  }

  lemma AckStrolls(n: Net, todo: seq<Message>, done: seq<Payload>, p: nat)
    requires Strolling(n, todo, done, p) && n.right.owed.Owing?
    ensures Strolling(Step(n, Right(SendAck)), todo, done, p)
  {
    var n' := Step(n, Right(SendAck));
    ReaderIdle(Quiet(n.left), n.right, n'.right);
    SenderSilent(Quiet(n.left), n'.right, Quiet(n'.left));
    SnapshotKept(n.left, n'.left, todo, done);
  }

  lemma SenderStrolls(n: Net, todo: seq<Message>, done: seq<Payload>, p: nat, e: Event) returns (p': nat)
    requires Consistent(n.left.db) && Strolling(n, todo, done, p) && !Overtakable(todo, done)
    requires (e.Skip? || e.Try? || e.Transmit?) && Act(n, e) != n
    ensures Strolling(Act(n, e), todo, done, p')
  {
    p' := p;
    if e.Skip? {
      SkipStrolls(n, todo, done, p);
      p' := p + 1;
    } else if e.Try? {
      TryStrolls(n, todo, done, p, e.now);
    } else if Encodable(PayloadOf(n.left.job.todo[0])) {
      TransmitStrolls(n, todo, done, p);
      p' := p + 1;
    } else {
      FailureStrolls(n, todo, done, p);
    }
  }

  lemma ReaderStrolls(n: Net, todo: seq<Message>, done: seq<Payload>, p: nat, e: Event)
    requires Safe(n) && Strolling(n, todo, done, p) && (e.Receive? || e.SendAck?) && Step(n, Right(e)) != n
    ensures Strolling(Step(n, Right(e)), todo, done, p)
  {
    if e.Receive? {
      ReadLevel(n, e.ts);
      ReadStrolls(n, todo, done, p, Read(n.right, e.ts));
    } else {
      AckStrolls(n, todo, done, p);
    }
  }

  lemma {:induction false} RunStrolls(n: Net, todo: seq<Message>, done: seq<Payload>, run: seq<Action>) returns (p: nat)
    requires Safe(n) && Strolling(n, todo, done, 0) && !Overtakable(todo, done) && AllWalking(run)
    ensures Strolling(Run(n, run), todo, done, p)
    decreases |run|
  {
    if run == [] {
      p := 0;
    } else {
      var before, a := run[..|run| - 1], run[|run| - 1];
      p := RunStrolls(n, todo, done, before);
      RunStaysSafe(n, before);
      if Step(Run(n, before), a) == Run(n, before) {
      } else if a.Left? {
        p := SenderStrolls(Run(n, before), todo, done, p, a.e);
      } else {
        ReaderStrolls(Run(n, before), todo, done, p, a.e);
      }
    }
  }
}
