/**
  The converse: where a flush can overtake, some walk of it breaks the order. With
  it, the exact condition, and two runs in which it is met.
 */
module DeliveryReordering {
  import opened Names
  import opened Keys
  import opened MessageDb
  import opened Conversation
  import opened Delivery
  import opened DeliverySafety
  import opened DeliveryOrder
  import opened DeliveryTheorems
  import opened DeliveryProgress
  import opened DeliveryOvertaking

  ghost predicate WalksTo(n: Net, n': Net) {
    exists run :: AllWalking(run) && Run(n, run) == n'
  }

  lemma NoWalk(n: Net)
    ensures WalksTo(n, n)
  {
    assert AllWalking([]) && Run(n, []) == n;
  }

  lemma OneWalk(n: Net, a: Action)
    requires Walking(a)
    ensures WalksTo(n, Step(n, a))
  {
    RunSnoc(n, [], a);
    assert AllWalking([] + [a]) && Run(n, []) == n;
  }

  lemma WalkOn(a: Net, b: Net, c: Net)
    requires WalksTo(a, b) && WalksTo(b, c)
    ensures WalksTo(a, c)
  {
    var r :| AllWalking(r) && Run(a, r) == b;
    var s :| AllWalking(s) && Run(b, s) == c;
    RunConcat(a, r, s);
    assert AllWalking(r + s);
  }

  // ---- what every walk keeps ----

  ghost predicate Synced(n: Net) {
    && n.right.log == Arrived(n.right.db, n.right.peer)
    && n.left.sent == Sent(n.left.db, n.left.peer)
  }

  lemma SenderSynced(n: Net, e: Event)
    requires Synced(n) && (e.Skip? || e.Try? || e.Transmit?)
    ensures Synced(Act(n, e)) && Act(n, e).left.sent == n.left.sent
  {
    OtherUntouched(n, e);
    if Act(n, e).left.db != n.left.db {
      AttemptKeepsTalk(n.left.db, n.left.job.todo[0].id, e.now, n.left.peer);
    }
  }

  lemma ReaderSynced(n: Net, e: Event)
    requires Safe(n) && Synced(n) && (e.Receive? || e.SendAck?)
    ensures Synced(Step(n, Right(e))) && Step(n, Right(e)).left.sent == n.left.sent
  {
    OtherUntouched(Flip(n), e);
    LogStep(Flip(n), e);
  }

  lemma {:induction false} RunSynced(n: Net, run: seq<Action>)
    requires Safe(n) && Synced(n) && AllWalking(run)
    ensures Synced(Run(n, run)) && Run(n, run).left.sent == n.left.sent
    decreases |run|
  {
    if run != [] {
      var before, a := run[..|run| - 1], run[|run| - 1];
      RunSynced(n, before);
      RunStaysSafe(n, before);
      if a.Left? {
        SenderSynced(Run(n, before), a.e);
      } else {
        ReaderSynced(Run(n, before), a.e);
      }
    }
  }

  lemma WalkSynced(n: Net, n': Net)
    requires Safe(n) && Synced(n) && WalksTo(n, n')
    ensures Safe(n') && Synced(n') && n'.left.sent == n.left.sent
  {
    var run :| AllWalking(run) && Run(n, run) == n';
    RunSynced(n, run);
    RunStaysSafe(n, run);
  }

  // ---- the sender leaves out what it tried before ----

  /** The receiver has no way to hold p. */
  ghost predicate Missing(y: End, p: Payload) {
    p !in y.log && Msg(p) !in y.inbox
  }

  /** The walk stands before message p of the snapshot. */
  ghost predicate Before(n: Net, todo: seq<Message>, p: nat) {
    && p <= |todo| && n.right.open
    && n.left.job == Flushing(false, todo[p..], false)
    && AllKnown(n.left.db, todo)
  }

  lemma TryNext(n: Net, todo: seq<Message>, p: nat) returns (m: Net)
    requires Before(n, todo, p) && p < |todo|
    ensures WalksTo(n, m) && m.right == n.right && AllKnown(m.left.db, todo)
    ensures m.left.job == Flushing(false, todo[p..], true)
  {
    m := Act(n, Try(0));
    OneWalk(n, Left(Try(0)));
    assert n.left.job.todo[0] == todo[p];
    AttemptKnows(n.left.db, todo[p].id, 0, todo);
  }

  lemma SendNext(n: Net, todo: seq<Message>, p: nat) returns (n': Net)
    requires Before(n, todo, p) && p < |todo| && Encodable(PayloadOf(todo[p]))
    ensures WalksTo(n, n') && Before(n', todo, p + 1)
    ensures n'.right == n.right.(inbox := n.right.inbox + [Msg(PayloadOf(todo[p]))])
  {
    var m := TryNext(n, todo, p);
    n' := Act(m, Transmit);
    OneWalk(m, Left(Transmit));
    WalkOn(n, m, n');
    assert todo[p..][1..] == todo[p + 1..];
  }

  lemma PassOne(n: Net, todo: seq<Message>, p: nat, miss: Payload) returns (n': Net)
    requires Before(n, todo, p) && p < |todo| && Passable(todo, p + 1) && Missing(n.right, miss)
    requires todo[p].attempts > 0 || PayloadOf(todo[p]) != miss
    ensures WalksTo(n, n') && Before(n', todo, p + 1) && Missing(n'.right, miss)
  {
    if todo[p].attempts > 0 {
      n' := Act(n, Skip);
      OneWalk(n, Left(Skip));
      assert todo[p..][1..] == todo[p + 1..];
    } else {
      n' := SendNext(n, todo, p);
    }
  }

  lemma {:induction false} Pass(n: Net, todo: seq<Message>, p: nat, j: nat, miss: Payload) returns (n': Net)
    requires Before(n, todo, p) && p <= j <= |todo| && Passable(todo, j) && Missing(n.right, miss)
    requires forall k :: p <= k < j ==> todo[k].attempts > 0 || PayloadOf(todo[k]) != miss
    ensures WalksTo(n, n') && Before(n', todo, j) && Missing(n'.right, miss)
    decreases j - p
  {
    if p == j {
      n' := n;
      NoWalk(n);
    } else {
      var m := PassOne(n, todo, p, miss);
      n' := Pass(m, todo, p + 1, j, miss);
      WalkOn(n, m, n');
    }
  }

  // ---- the receiver reads what there is ----

  lemma AckNext(n: Net) returns (m: Net)
    ensures WalksTo(n, m) && m.right == n.right.(owed := Nothing)
  {
    m := Step(n, Right(SendAck));
    OneWalk(n, Right(SendAck));
  }

  lemma SyncedGrows(n: Net, ts: int)
    requires Safe(n) && Synced(n) && n.right.open && n.right.inbox != [] && Read(n.right, ts).open
    ensures Read(n.right, ts).log == Grown(n.right) && Read(n.right, ts).inbox == n.right.inbox[1..]
  {
    ReadGrows(n.left, n.right, ts);
  }

  lemma TakeNext(n: Net) returns (n': Net, ts: int)
    requires n.right.open && n.right.inbox != [] && n.right.owed == Nothing
    ensures WalksTo(n, n') && n' == n.(right := Read(n.right, ts)) && n'.right.open
  {
    ts := RateLimit.LaterThan(n.right.meter);
    n' := Step(n, Right(Receive(ts)));
    OneWalk(n, Right(Receive(ts)));
  }

  lemma ReadNext(n: Net) returns (n': Net)
    requires Safe(n) && Synced(n) && n.right.open && n.right.inbox != []
    ensures WalksTo(n, n') && n'.right.open
    ensures n'.right.inbox == n.right.inbox[1..] && n'.right.log == Grown(n.right)
  {
    var m := AckNext(n);
    WalkSynced(n, m);
    var ts;
    n', ts := TakeNext(m);
    WalkOn(n, m, n');
    SyncedGrows(m, ts);
  }

  lemma {:induction false} Drain(n: Net, hit: Payload, miss: Payload) returns (n': Net)
    requires Safe(n) && Synced(n) && n.right.open && hit != miss && Missing(n.right, miss)
    requires hit in n.right.log || Msg(hit) in n.right.inbox
    ensures WalksTo(n, n') && hit in n'.right.log && miss !in n'.right.log
    decreases |n.right.inbox|
  {
    if hit in n.right.log {
      n' := n;
      NoWalk(n);
    } else {
      var m := ReadNext(n);
      WalkSynced(n, m);
      HeadOff(n.right, m.right, hit, miss);
      n' := Drain(m, hit, miss);
      WalkOn(n, m, n');
    }
  }

  lemma HeadOff(y: End, y': End, hit: Payload, miss: Payload)
    requires y.inbox != [] && y'.inbox == y.inbox[1..] && y'.log == Grown(y)
    requires hit !in y.log && Msg(hit) in y.inbox && hit != miss && Missing(y, miss)
    ensures (hit in y'.log || Msg(hit) in y'.inbox) && Missing(y', miss)
  {
    assert y.inbox == [y.inbox[0]] + y'.inbox;
  }

  // ---- the exact condition ----

  /** A prefix that holds a later element holds the earlier ones. */
  lemma PrefixHoldsEarlier(sent: seq<Payload>, log: seq<Payload>, i: nat, j: nat)
    requires i < j < |sent| && Distinct(sent) && sent[j] in log && log <= sent
    ensures sent[i] in log
  {
    var k :| 0 <= k < |log| && log[k] == sent[j];
    assert k == j && log[i] == sent[i];
  }

  /** Messages of a snapshot stand in the sent list in the same order. */
  lemma SnapshotIndex(x: End, todo: seq<Message>, i: nat, j: nat) returns (a: nat, b: nat)
    requires Consistent(x.db) && x.sent == Sent(x.db, x.peer) && todo == Pending(x.db, x.peer) && i < j < |todo|
    ensures a < b < |x.sent| && x.sent[a] == PayloadOf(todo[i]) && x.sent[b] == PayloadOf(todo[j])
  {
    var ms := Select(x.db.rows, Lower(x.peer), Outbound, x.db.last);
    SelectMeans(x.db, Lower(x.peer), Outbound, x.db.last);
    SelectMeans(x.db, Lower(x.peer), Unsent, x.db.last);
    assert todo[i] in todo && todo[j] in todo;
    a :| 0 <= a < |ms| && ms[a] == todo[i];
    b :| 0 <= b < |ms| && ms[b] == todo[j];
  }

  lemma FlushBegins(n: Net, up: Net)
    requires up == n.(left := Flushed(n.left, false)) && Consistent(n.left.db) && Level(n) && n.right.open
    ensures Before(up, Pending(n.left.db, n.left.peer), 0) && Synced(up)
  {
    PendingKnown(n.left.db, n.left.peer);
  }

  /** What is on the wire is what the receiver will hold. */
  lemma {:induction false} WireIsDone(q: seq<Payload>, k: nat, wire: seq<Envelope>, p: Payload)
    requires NoGap(q, k, wire) && Msg(p) in wire
    ensures p in q[..Caught(q, k, wire)]
    decreases |wire|
  {
    if wire[0] == Msg(p) {
      var k' := if p in q[..k] then k else k + 1;
      assert p in q[..k'];
      assert q[..k'] <= q[..Caught(q, k', wire[1..])];
    } else {
      NextRead(q, k, wire);
      WireIsDone(q, if wire[0].Msg? && wire[0].p !in q[..k] then k + 1 else k, wire[1..], p);
    }
  }

  lemma NotDoneIsMissing(n: Net, p: Payload)
    requires Level(n) && n.right.open && p !in DoneOf(n)
    ensures Missing(n.right, p)
  {
    if Msg(p) in n.right.inbox {
      WireIsDone(n.left.sent, |n.right.log|, n.right.inbox, p);
    }
    assert forall i :: 0 <= i < |n.right.log| ==> n.right.log[i] == DoneOf(n)[i];
  }

  /** Leave out what was tried, and send the rest up to and including j. */
  lemma SendPast(up: Net, todo: seq<Message>, i: nat, j: nat) returns (out: Net)
    requires Before(up, todo, 0) && i < j && Sendable(todo, j) && todo[i].attempts > 0
    requires Missing(up.right, PayloadOf(todo[i]))
    requires forall k :: 0 <= k <= j && k != i ==> PayloadOf(todo[k]) != PayloadOf(todo[i])
    ensures WalksTo(up, out) && out.right.open
    ensures Msg(PayloadOf(todo[j])) in out.right.inbox && Missing(out.right, PayloadOf(todo[i]))
  {
    var at := Pass(up, todo, 0, j, PayloadOf(todo[i]));
    out := SendNext(at, todo, j);
    WalkOn(up, at, out);
    assert out.right.inbox[|out.right.inbox| - 1] == Msg(PayloadOf(todo[j]));
  }

  lemma OvertakingWalk(up: Net, todo: seq<Message>, i: nat, j: nat) returns (n': Net)
    requires Before(up, todo, 0) && Safe(up) && Synced(up) && i < j && Sendable(todo, j) && todo[i].attempts > 0
    requires Missing(up.right, PayloadOf(todo[i]))
    requires forall k :: 0 <= k <= j && k != i ==> PayloadOf(todo[k]) != PayloadOf(todo[i])
    ensures WalksTo(up, n') && Synced(n') && n'.left.sent == up.left.sent
    ensures PayloadOf(todo[j]) in n'.right.log && PayloadOf(todo[i]) !in n'.right.log
  {
    var out := SendPast(up, todo, i, j);
    WalkSynced(up, out);
    n' := Drain(out, PayloadOf(todo[j]), PayloadOf(todo[i]));
    WalkOn(up, out, n');
    WalkSynced(up, n');
  }

  lemma OvertakingBreaks(n: Net, up: Net, i: nat, j: nat) returns (n': Net)
    requires Level(n) && n.right.open && Consistent(n.left.db) && Distinct(n.left.sent)
    requires up.right == n.right && up.left.sent == n.left.sent && Safe(up) && Synced(up)
    requires var todo := Pending(n.left.db, n.left.peer);
      Before(up, todo, 0) && i < j && Hole(todo, DoneOf(n), i) && Sendable(todo, j)
    ensures WalksTo(up, n') && Broken(n')
  {
    var todo := Pending(n.left.db, n.left.peer);
    NotDoneIsMissing(n, PayloadOf(todo[i]));
    SnapshotDiffers(n.left, i);
    n' := OvertakingWalk(up, todo, i, j);
    MissingBreaks(n.left, n', i, j);
  }

  lemma MissingBreaks(x: End, n': Net, i: nat, j: nat)
    requires Consistent(x.db) && x.sent == Sent(x.db, x.peer) && Distinct(x.sent)
    requires Synced(n') && n'.left.sent == x.sent
    requires var todo := Pending(x.db, x.peer);
      i < j < |todo| && PayloadOf(todo[j]) in n'.right.log && PayloadOf(todo[i]) !in n'.right.log
    ensures Broken(n')
  {
    var a, b := SnapshotIndex(x, Pending(x.db, x.peer), i, j);
    if n'.right.log <= x.sent {
      PrefixHoldsEarlier(x.sent, n'.right.log, a, b);
    }
  }

  lemma SnapshotDiffers(x: End, i: nat)
    requires Consistent(x.db) && i < |Pending(x.db, x.peer)|
    ensures var todo := Pending(x.db, x.peer);
      forall k :: 0 <= k < |todo| && k != i ==> PayloadOf(todo[k]) != PayloadOf(todo[i])
  {
    var todo := Pending(x.db, x.peer);
    SelectMeans(x.db, Lower(x.peer), Unsent, x.db.last);
    forall k | 0 <= k < |todo| && k != i ensures PayloadOf(todo[k]) != PayloadOf(todo[i]) {
      assert todo[k] in todo && todo[i] in todo;
    }
  }

  /** Some walk of an unforced flush, read in some way, ends out of order. */
  ghost predicate CanBreak(n: Net) {
    exists run :: AllWalking(run) && Broken(Run(Act(n, Flush(false)), run))
  }

  lemma FlushOvertakes(n: Net, up: Net, i: nat, j: nat)
    requires up == n.(left := Flushed(n.left, false)) && Safe(up) && Level(n) && n.right.open
    requires Consistent(n.left.db) && Distinct(n.left.sent)
    requires var todo := Pending(n.left.db, n.left.peer); i < j && Hole(todo, DoneOf(n), i) && Sendable(todo, j)
    ensures exists run :: AllWalking(run) && Broken(Run(up, run))
  {
    FlushBegins(n, up);
    var n' := OvertakingBreaks(n, up, i, j);
    var run :| AllWalking(run) && Run(up, run) == n';
  }

  lemma StrollingIsWhole(n: Net, todo: seq<Message>, done: seq<Payload>, p: nat)
    requires Strolling(n, todo, done, p)
    ensures !Broken(n)
  {
  }

  lemma WalkKeepsOrder(up: Net, todo: seq<Message>, done: seq<Payload>, run: seq<Action>)
    requires Safe(up) && Strolling(up, todo, done, 0) && !Overtakable(todo, done) && AllWalking(run)
    ensures !Broken(Run(up, run))
  {
    var p := RunStrolls(up, todo, done, run);
    StrollingIsWhole(Run(up, run), todo, done, p);
  }

  lemma BreaksIfOvertakable(n: Net, i: nat, j: nat)
    requires Safe(n) && Level(n) && n.left.open && n.right.open && n.left.job.Idle?
    requires var todo := Pending(n.left.db, n.left.peer); i < j && Hole(todo, DoneOf(n), i) && Sendable(todo, j)
    ensures CanBreak(n)
  {
    ActSafe(n, Flush(false));
    FlushOvertakes(n, Act(n, Flush(false)), i, j);
  }

  lemma KeepsUnlessOvertakable(n: Net)
    requires Safe(n) && Level(n) && n.left.open && n.right.open && n.left.job.Idle?
    requires !Overtakable(Pending(n.left.db, n.left.peer), DoneOf(n))
    ensures !CanBreak(n)
  {
    ActSafe(n, Flush(false));
    FlushStrolls(n);
    forall run | AllWalking(run) ensures !Broken(Run(Act(n, Flush(false)), run)) {
      WalkKeepsOrder(Act(n, Flush(false)), Pending(n.left.db, n.left.peer), DoneOf(n), run);
    }
  }

  /**
    From every state in which the receiver is in step: an unforced flush can break
    the order if and only if it finds a message that was tried before, that the
    receiver will not hold, and that a later one can be sent past.
   */
  lemma UnforcedFlushBreaksOrderIff(n: Net)
    requires Safe(n) && Level(n) && n.left.open && n.right.open && n.left.job.Idle?
    ensures CanBreak(n) <==> Overtakable(Pending(n.left.db, n.left.peer), DoneOf(n))
  {
    var todo, done := Pending(n.left.db, n.left.peer), DoneOf(n);
    if Overtakable(todo, done) {
      var i, j :| i < j && Hole(todo, done, i) && Sendable(todo, j);
      BreaksIfOvertakable(n, i, j);
    } else {
      KeepsUnlessOvertakable(n);
    }
  }

  /** Disciplined runs are in step, so there the condition decides. */
  lemma OrderlyIsLevel(n: Net)
    requires Orderly(n)
    ensures Level(n)
  {
    SenderResets(n.left, n.right, Quiet(n.left), n.right);
  }

  // ---- two runs after which the order can break ----

  function Greeting(id: Id): Payload {
    Payload(id, [104], [])
  }

  function Row(p: Payload, peer: Name, attempts: nat, num: nat): Message {
    Message(p.id, peer, Out, p.body, 0, Queued, attempts, 0, num, p.replyTo)
  }

  /** An end with one message queued, and tried so many times. */
  function OneQueued(e: End, one: Id, attempts: nat): End {
    var k := RowKey(Lower(e.peer), 1);
    e.(db := Db(map[k := Row(Greeting(one), e.peer, attempts, 1)], map[one := k], map[one := k], 1),
       sent := [Greeting(one)])
  }

  /** The same with a second message that has not been tried. */
  function TwoQueued(e: End, one: Id, two: Id, attempts: nat): End {
    var k1, k2 := RowKey(Lower(e.peer), 1), RowKey(Lower(e.peer), 2);
    e.(db := Db(map[k1 := Row(Greeting(one), e.peer, attempts, 1), k2 := Row(Greeting(two), e.peer, 0, 2)],
                map[one := k1, two := k2], map[one := k1, two := k2], 2),
       sent := [Greeting(one), Greeting(two)])
  }

  lemma QueueingOne(e: End, one: Id)
    requires Trimmed(e.peer) && e.db == EMPTY && e.sent == []
    ensures Queue(e, Greeting(one), 0) == OneQueued(e, one, 0)
  {
  }

  lemma Queueing(e: End, one: Id, two: Id, attempts: nat)
    requires Trimmed(e.peer) && one != two
    ensures Queue(OneQueued(e, one, attempts), Greeting(two), 0) == TwoQueued(e, one, two, attempts)
  {
  }

  lemma TryingOne(e: End, one: Id)
    ensures Attempt(OneQueued(e, one, 0).db, one, 0) == OneQueued(e, one, 1).db
  {
  }

  lemma Trying(e: End, one: Id, two: Id)
    requires one != two
    ensures Attempt(TwoQueued(e, one, two, 0).db, one, 0) == TwoQueued(e, one, two, 1).db
  {
  }

  lemma PendingOne(e: End, one: Id)
    ensures Pending(OneQueued(e, one, 0).db, e.peer) == [Row(Greeting(one), e.peer, 0, 1)]
  {
    assert Select(OneQueued(e, one, 0).db.rows, Lower(e.peer), Unsent, 0) == [];
  }

  lemma PendingTwo(e: End, one: Id, two: Id)
    ensures Pending(TwoQueued(e, one, two, 1).db, e.peer) ==
      [Row(Greeting(one), e.peer, 1, 1), Row(Greeting(two), e.peer, 0, 2)]
  {
    var db := TwoQueued(e, one, two, 1).db;
    assert Select(db.rows, Lower(e.peer), Unsent, 0) == [];
    assert Select(db.rows, Lower(e.peer), Unsent, 1) == [Row(Greeting(one), e.peer, 1, 1)];
  }

  /** With the first message tried and the receiver empty-handed, the second can overtake it. */
  lemma TwoQueuedBreaks(n: Net, e: End, one: Id, two: Id)
    requires one != two
    requires Safe(n) && Level(n) && n.left == TwoQueued(e, one, two, 1) && e.open && e.job.Idle?
    requires n.right.open && n.right.inbox == [] && n.right.log == []
    ensures CanBreak(n)
  {
    PendingTwo(e, one, two);
    var todo := Pending(n.left.db, n.left.peer);
    assert DoneOf(n) == [];
    assert Hole(todo, DoneOf(n), 0) && Sendable(todo, 1);
    UnforcedFlushBreaksOrderIff(n);
  }

  /** The session dies between recording the first attempt and sending. */
  function DyingRun(one: Id): seq<Action> {
    [Left(Compose(one, [104], [], 0)), Left(Connect), Left(Flush(true)), Left(Try(0)), Left(Disconnect)]
  }

  /** The next session is up, and a message is queued before its forced flush. */
  function NextRun(two: Id): seq<Action> {
    [Right(Disconnect), Left(Connect), Left(Compose(two, [104], [], 0))]
  }

  lemma Three(n: Net, a: Action, b: Action, c: Action)
    ensures Run(n, [a, b, c]) == Step(Step(Step(n, a), b), c)
  {
    RunSnoc(n, [], a);
    RunSnoc(n, [a], b);
    RunSnoc(n, [a, b], c);
    assert [] + [a] == [a] && [a] + [b] == [a, b] && [a, b] + [c] == [a, b, c];
  }

  lemma FlushStarted(left: Name, right: Name, one: Id)
    requires Trimmed(right)
    ensures Run(Start(left, right), DyingRun(one)[..3]) ==
      Net(Flushed(OneQueued(Opened(Fresh(right)), one, 0), true), Opened(Fresh(left)), {one})
  {
    var r := DyingRun(one);
    QueueingOne(Fresh(right), one);
    assert r[..3] == [r[0], r[1], r[2]];
    Three(Start(left, right), r[0], r[1], r[2]);
  }

  lemma DyingFlush(left: Name, right: Name, one: Id)
    requires Trimmed(right)
    ensures Run(Start(left, right), DyingRun(one)) ==
      Net(Closed(OneQueued(Opened(Fresh(right)), one, 1).(flushed := true, mark := 1)), Opened(Fresh(left)), {one})
  {
    var n0, r, x := Start(left, right), DyingRun(one), Opened(Fresh(right));
    FlushStarted(left, right, one);
    PendingOne(x, one);
    TryingOne(x, one);
    RunSnoc(n0, r[..3], r[3]);
    RunSnoc(n0, r[..4], r[4]);
    assert r[..3] + [r[3]] == r[..4] && r[..4] + [r[4]] == r;
  }

  lemma NextSession(left: Name, right: Name, one: Id, two: Id)
    requires one != two
    requires Trimmed(right)
    ensures Run(Start(left, right), DyingRun(one) + NextRun(two)) ==
      Net(TwoQueued(Opened(Fresh(right)), one, two, 1), Opened(Fresh(left)), {one, two})
  {
    var r := NextRun(two);
    var n := Run(Start(left, right), DyingRun(one));
    RunConcat(Start(left, right), DyingRun(one), r);
    DyingFlush(left, right, one);
    Three(n, r[0], r[1], r[2]);
    assert Step(Step(n, r[0]), r[1]) == Net(OneQueued(Opened(Fresh(right)), one, 1), Opened(Fresh(left)), {one});
    Queueing(Opened(Fresh(right)), one, two, 1);
  }

  /** A disciplined run after which an unforced first flush of the session can break the order. */
  lemma UnforcedFlushReorders(left: Name, right: Name, one: Id, two: Id)
    requires one != two
    requires Trimmed(left) && Trimmed(right)
    ensures Disciplined(Start(left, right), DyingRun(one) + NextRun(two))
    ensures var n := Run(Start(left, right), DyingRun(one) + NextRun(two)); !n.left.flushed && CanBreak(n)
  {
    var r := DyingRun(one) + NextRun(two);
    NoFlushIsDisciplined(Start(left, right), r);
    RunOrderly(left, right, r);
    NextSession(left, right, one, two);
    OrderlyIsLevel(Run(Start(left, right), r));
    TwoQueuedBreaks(Run(Start(left, right), r), Opened(Fresh(right)), one, two);
  }

  lemma {:induction false} NoFlushIsDisciplined(n: Net, run: seq<Action>)
    requires forall i :: 0 <= i < |run| ==>
      !run[i].e.Erase? && !run[i].e.Stray? && (run[i].e.Flush? ==> run[i].e.force)
    ensures Disciplined(n, run)
    decreases |run|
  {
    if run != [] {
      NoFlushIsDisciplined(n, run[..|run| - 1]);
    }
  }

  /** One session, its forced flush first and finished, then two messages. */
  function FlushedRun(one: Id, two: Id): seq<Action> {
    [Left(Connect), Left(Flush(true)), Left(Finish), Left(Compose(one, [104], [], 0)), Left(Compose(two, [104], [], 0))]
  }

  lemma FlushedFirst(left: Name, right: Name, one: Id, two: Id)
    requires one != two
    requires Trimmed(right)
    ensures Run(Start(left, right), FlushedRun(one, two)) ==
      Net(TwoQueued(Opened(Fresh(right)).(flushed := true), one, two, 0), Opened(Fresh(left)), {one, two})
  {
    var n0, r, x := Start(left, right), FlushedRun(one, two), Opened(Fresh(right)).(flushed := true);
    Three(n0, r[0], r[1], r[2]);
    assert Pending(EMPTY, right) == [];
    assert Run(n0, [r[0], r[1], r[2]]) == Net(x, Opened(Fresh(left)), {});
    RunSnoc(n0, [r[0], r[1], r[2]], r[3]);
    QueueingOne(x, one);
    Queueing(x, one, two, 0);
    RunSnoc(n0, [r[0], r[1], r[2], r[3]], r[4]);
    assert [r[0], r[1], r[2]] + [r[3]] == [r[0], r[1], r[2], r[3]] && [r[0], r[1], r[2], r[3]] + [r[4]] == r;
  }

  lemma StrayLevel(n: Net, id: Id, now: int)
    requires Consistent(n.left.db) && Level(n)
    ensures Level(Act(n, Stray(id, now)))
  {
    AttemptInOrder(Quiet(n.left), n.right, id, now, Quiet(Act(n, Stray(id, now)).left));
  }

  lemma TriedIsDone(x: End, done: seq<Payload>, i: nat)
    requires Consistent(x.db) && x.job.Idle? && Covered(x, done)
    ensures !Hole(Pending(x.db, x.peer), done, i)
  {
    var todo := Pending(x.db, x.peer);
    SelectMeans(x.db, Lower(x.peer), Unsent, x.db.last);
    if i < |todo| {
      assert todo[i] in todo;
      assert Has(x.db, todo[i]) && Ours(x, todo[i].id);
    }
  }

  lemma NoHoleNoOvertaking(todo: seq<Message>, done: seq<Payload>)
    requires forall i: nat :: !Hole(todo, done, i)
    ensures !Overtakable(todo, done)
  {
  }

  /** Once the forced flush of the session has begun, a disciplined run leaves nothing to overtake. */
  lemma FlushedNeverBreaks(n: Net)
    requires Orderly(n) && n.left.open && n.right.open && n.left.job.Idle? && n.left.flushed
    ensures !CanBreak(n)
  {
    OrderlyIsLevel(n);
    UnforcedFlushBreaksOrderIff(n);
    forall i: nat ensures !Hole(Pending(n.left.db, n.left.peer), DoneOf(n), i) {
      TriedIsDone(n.left, DoneOf(n), i);
    }
    NoHoleNoOvertaking(Pending(n.left.db, n.left.peer), DoneOf(n));
  }

  lemma FlushedFirstIsSafe(left: Name, right: Name, one: Id, two: Id)
    requires one != two
    requires Trimmed(left) && Trimmed(right)
    ensures var n := Run(Start(left, right), FlushedRun(one, two));
      Safe(n) && Level(n) && n.left.flushed && !CanBreak(n)
    ensures Disciplined(Start(left, right), FlushedRun(one, two))
  {
    NoFlushIsDisciplined(Start(left, right), FlushedRun(one, two));
    RunOrderly(left, right, FlushedRun(one, two));
    FlushedFirst(left, right, one, two);
    OrderlyIsLevel(Run(Start(left, right), FlushedRun(one, two)));
    FlushedNeverBreaks(Run(Start(left, right), FlushedRun(one, two)));
  }

  lemma LateState(n: Net, e: End, one: Id, two: Id)
    requires one != two
    requires n.left == TwoQueued(e, one, two, 0)
    ensures Act(n, Stray(one, 0)) == n.(left := TwoQueued(e, one, two, 1))
  {
    Trying(e, one, two);
  }

  lemma LateAttemptBreaks(n: Net, e: End, one: Id, two: Id)
    requires one != two
    requires Safe(n) && Level(n) && n.left == TwoQueued(e, one, two, 0) && e.open && e.job.Idle?
    requires n.right.open && n.right.inbox == [] && n.right.log == []
    ensures CanBreak(Act(n, Stray(one, 0)))
  {
    ActSafe(n, Stray(one, 0));
    StrayLevel(n, one, 0);
    LateState(n, e, one, two);
    TwoQueuedBreaks(Act(n, Stray(one, 0)), e, one, two);
  }

  /**
    Forced flush first is not enough. A flush that waited on a replaced link takes
    its snapshot late, records an attempt on a message of this session and fails on
    the dead connection; the next unforced flush can then send past that message.
   */
  lemma LateAttemptReorders(left: Name, right: Name, one: Id, two: Id)
    requires one != two
    requires Trimmed(left) && Trimmed(right)
    ensures Disciplined(Start(left, right), FlushedRun(one, two))
    ensures var n := Run(Start(left, right), FlushedRun(one, two));
      n.left.flushed && !CanBreak(n) && CanBreak(Act(n, Stray(one, 0)))
  {
    FlushedFirstIsSafe(left, right, one, two);
    FlushedFirst(left, right, one, two);
    LateAttemptBreaks(Run(Start(left, right), FlushedRun(one, two)), Opened(Fresh(right)).(flushed := true), one, two);
  }
}
