/**
  What "delivered" says about the members a room message was sent to. A send stores
  the message in one transaction and queues it for one member after the other in
  further ones, so an ack can come while some of them have not been reached.
 */
module RoomSends {
  import opened OptionType
  import opened ByteOrder
  import opened Names
  import opened Members
  import opened RoomDb
  import opened RoomRows
  import opened RoomRaces
  import opened RoomDelivery

  // ---- one send in a run ----

  /** At tick p handler j stores the message, to go on and queue it for these members. */
  ghost predicate Sending(me: Name, run: seq<Tick>, p: nat, j: nat, room: Id, id: Id, ms: seq<Name>) {
    && p < |run| && run[p] == Land(j)
    && j in At(me, run, p).jobs && At(me, run, p).jobs[j].Looked?
    && After(At(me, run, p).w, At(me, run, p).jobs[j]) == Some(Queueing(room, id, ms))
  }

  /** The message has been there ever since. */
  ghost predicate Since(me: Name, run: seq<Tick>, p: nat, t: nat, id: Id)
    requires t <= |run|
  {
    forall i :: p < i <= t ==> Known(At(me, run, i).w, id)
  }

  ghost predicate Busy(n: Node, j: nat, room: Id, id: Id, rest: seq<Name>) {
    j in n.jobs && n.jobs[j] == Queueing(room, id, rest)
  }

  /** Handler j does nothing about the message. */
  ghost predicate Idle(n: Node, j: nat, id: Id) {
    j in n.jobs && n.jobs[j].Queueing? ==> n.jobs[j].msg != id
  }

  /** Tick a queues the message for the member. */
  ghost predicate Queues(me: Name, run: seq<Tick>, a: nat, j: nat, room: Id, id: Id, member: Name) {
    && a < |run| && run[a] == Land(j)
    && exists rest :: Busy(At(me, run, a), j, room, id, [member] + rest)
  }

  /** The send has got to the member. */
  ghost predicate Reached(me: Name, run: seq<Tick>, p: nat, t: nat, j: nat, room: Id, id: Id, member: Name) {
    exists a :: p < a < t && Queues(me, run, a, j, room, id, member)
  }

  /** The send ended before it got to these members. */
  ghost predicate Cut(me: Name, run: seq<Tick>, p: nat, t: nat, j: nat, room: Id, id: Id, rest: seq<Name>) {
    exists d :: p < d < t <= |run| && run[d] == Die(j) && Busy(At(me, run, d), j, room, id, rest)
  }

  lemma AtNext(me: Name, run: seq<Tick>, i: nat)
    requires i < |run|
    ensures At(me, run, i + 1) == Advance(At(me, run, i), run[i])
  {
    assert run[..i + 1][..i] == run[..i];
  }

  /** The message is then stored, and the members are those of a good list. */
  lemma SendingStores(me: Name, run: seq<Tick>, p: nat, j: nat, room: Id, id: Id, ms: seq<Name>)
    requires Sending(me, run, p, j, room, id, ms)
    ensures var w := At(me, run, p + 1).w; Known(w, id) && Lookup(w, id).room == room && Lookup(w, id).sender == me
    ensures Busy(At(me, run, p + 1), j, room, id, ms) && GoodList(ms)
  {
    AtNext(me, run, p);
    RacesKeepGood(me, run[..p]);
    MeIsFixed(me, run[..p]);
  }

  lemma ReachedNext(me: Name, run: seq<Tick>, p: nat, t: nat, j: nat, room: Id, id: Id, member: Name)
    requires p < t
    ensures Reached(me, run, p, t + 1, j, room, id, member) <==>
      Reached(me, run, p, t, j, room, id, member) || Queues(me, run, t, j, room, id, member)
  {
  }

  /** A handler that is idle about a known message stays so: sending it again stores nothing. */
  lemma StaysIdle(n: Node, t: Tick, j: nat, id: Id)
    requires Idle(n, j, id) && Known(n.w, id)
    ensures Idle(Advance(n, t), j, id)
  {
  }

  /** One tick of a send that is at work: whom it queues for, and what is left. */
  lemma BusyTick(me: Name, run: seq<Tick>, t: nat, j: nat, room: Id, id: Id, rest: seq<Name>)
    requires t < |run| && Busy(At(me, run, t), j, room, id, rest)
    ensures var n' := At(me, run, t + 1);
      && (run[t] == Land(j) && rest != [] ==> Busy(n', j, room, id, rest[1..]))
      && ((run[t] == Land(j) && rest == []) || run[t] == Die(j) ==> j !in n'.jobs)
      && (run[t] != Land(j) && run[t] != Die(j) ==> Busy(n', j, room, id, rest))
    ensures forall m :: Queues(me, run, t, j, room, id, m) <==> run[t] == Land(j) && rest != [] && rest[0] == m
  {
    AtNext(me, run, t);
    if run[t] == Land(j) && rest != [] {
      assert rest == [rest[0]] + rest[1..];
    }
  }

  /** The send has got to the first k members and no others. */
  ghost predicate ReachedFirst(
    me: Name, run: seq<Tick>, p: nat, t: nat, j: nat, room: Id, id: Id, ms: seq<Name>, k: nat)
  {
    k <= |ms| && forall m :: Reached(me, run, p, t, j, room, id, m) <==> m in ms[..k]
  }

  /** It is still at work on the rest, or there are none, or it was cut off. */
  ghost predicate LeftAt(me: Name, run: seq<Tick>, p: nat, t: nat, j: nat, room: Id, id: Id, ms: seq<Name>, k: nat)
    requires t <= |run| && k <= |ms|
  {
    || Busy(At(me, run, t), j, room, id, ms[k..])
    || (Idle(At(me, run, t), j, id) && (k == |ms| || Cut(me, run, p, t, j, room, id, ms[k..])))
  }

  lemma BusyProgress(me: Name, run: seq<Tick>, p: nat, t: nat, j: nat, room: Id, id: Id, ms: seq<Name>, k: nat)
    returns (k': nat)
    requires p < t < |run| && ReachedFirst(me, run, p, t, j, room, id, ms, k)
    requires Busy(At(me, run, t), j, room, id, ms[k..])
    ensures ReachedFirst(me, run, p, t + 1, j, room, id, ms, k') && LeftAt(me, run, p, t + 1, j, room, id, ms, k')
  {
    BusyTick(me, run, t, j, room, id, ms[k..]);
    k' := if run[t] == Land(j) && k < |ms| then k + 1 else k;
    if k' == k + 1 {
      assert ms[k..][1..] == ms[k'..] && ms[..k'] == ms[..k] + [ms[k]];
    }
    forall m ensures Reached(me, run, p, t + 1, j, room, id, m) <==> m in ms[..k'] {
      ReachedNext(me, run, p, t, j, room, id, m);
    }
  }

  lemma IdleProgress(me: Name, run: seq<Tick>, p: nat, t: nat, j: nat, room: Id, id: Id, ms: seq<Name>, k: nat)
    requires p < t < |run| && ReachedFirst(me, run, p, t, j, room, id, ms, k) && Known(At(me, run, t).w, id)
    requires LeftAt(me, run, p, t, j, room, id, ms, k) && Idle(At(me, run, t), j, id)
    ensures ReachedFirst(me, run, p, t + 1, j, room, id, ms, k) && LeftAt(me, run, p, t + 1, j, room, id, ms, k)
  {
    AtNext(me, run, t);
    StaysIdle(At(me, run, t), run[t], j, id);
    forall m ensures Reached(me, run, p, t + 1, j, room, id, m) <==> m in ms[..k] {
      ReachedNext(me, run, p, t, j, room, id, m);
    }
    if k < |ms| {
      var d :| p < d < t && run[d] == Die(j) && Busy(At(me, run, d), j, room, id, ms[k..]);
      assert d < t + 1;
    }
  }

  /** At any time after the send set out, it has got so far. */
  lemma {:induction false} Progress(me: Name, run: seq<Tick>, p: nat, t: nat, j: nat, room: Id, id: Id, ms: seq<Name>)
    returns (k: nat)
    requires p < t <= |run| && Busy(At(me, run, p + 1), j, room, id, ms) && Since(me, run, p, t, id)
    ensures ReachedFirst(me, run, p, t, j, room, id, ms, k) && LeftAt(me, run, p, t, j, room, id, ms, k)
    decreases t
  {
    if t == p + 1 {
      k := 0;
      assert ms[0..] == ms;
    } else {
      k := Progress(me, run, p, t - 1, j, room, id, ms);
      if Idle(At(me, run, t - 1), j, id) {
        IdleProgress(me, run, p, t - 1, j, room, id, ms, k);
      } else {
        k := BusyProgress(me, run, p, t - 1, j, room, id, ms, k);
      }
    }
  }

  // ---- every message of ours was sent ----

  /** A row that stays keeps its room, sender and direction. */
  ghost predicate SameRow(w: World, w': World, id: Id) {
    && Known(w, id) && Known(w', id)
    && Lookup(w', id).room == Lookup(w, id).room && Lookup(w', id).sender == Lookup(w, id).sender
    && Lookup(w', id).dir == Lookup(w, id).dir
  }

  lemma ConfirmKeepsRow(w: World, room: Id, member: Name, msg: Id, id: Id)
    requires Indexed(w) && Known(w, id)
    ensures SameRow(w, MarkDelivered(w, room, member, msg), id)
  {
    assert IdIndexed(w, id);
    if Known(w, msg) {
      assert IdIndexed(w, msg);
    }
  }

  lemma FlipKeepsRow(w: World, room: Id, msg: Id, sender: Name, emoji: Bytes, id: Id)
    requires Indexed(w) && Known(w, id)
    ensures SameRow(w, Toggle(w, room, msg, sender, emoji), id)
  {
    assert IdIndexed(w, id);
    if Known(w, msg) {
      assert IdIndexed(w, msg);
    }
  }

  lemma RowStays(w: World, wr: Write, id: Id)
    requires Indexed(w) && Known(w, id) && Known(Apply(w, wr), id)
    ensures SameRow(w, Apply(w, wr), id)
  {
    match wr
    case NoWrite =>
    case SaveRoom(_, _) =>
    case DropRoom(room) => DropGoes(w, room, id);
    case Post(row) => PostTouchesNone(w, row, id);
    case Enter(_, _, _) =>
    case Confirm(room, member, msg) => ConfirmKeepsRow(w, room, member, msg, id);
    case Flip(room, msg, sender, emoji) => FlipKeepsRow(w, room, msg, sender, emoji, id);
  }

  /** A tick that brings a message of ours stores one we send. */
  lemma SendStores(n: Node, t: Tick, id: Id)
    requires Indexed(n.w) && !Known(n.w, id) && Known(Advance(n, t).w, id)
    requires Lookup(Advance(n, t).w, id).dir == M.Out
    ensures t.Land? && t.j in n.jobs && n.jobs[t.j].Looked?
    ensures After(n.w, n.jobs[t.j]).Some?
    ensures var job := After(n.w, n.jobs[t.j]).value;
      job.Queueing? && job.msg == id && job.room == Lookup(Advance(n, t).w, id).room
  {
    assert id in n.w.idx ==> IdIndexed(n.w, id);
  }

  lemma RowNext(me: Name, run: seq<Tick>, i: nat, id: Id)
    requires i < |run| && Known(At(me, run, i).w, id) && Known(At(me, run, i + 1).w, id)
    ensures SameRow(At(me, run, i).w, At(me, run, i + 1).w, id)
  {
    AtNext(me, run, i);
    RacesKeepGood(me, run[..i]);
    RowStays(At(me, run, i).w, WriteOf(At(me, run, i), run[i]), id);
  }

  lemma SentNow(me: Name, run: seq<Tick>, p: nat, id: Id) returns (j: nat, ms: seq<Name>)
    requires p < |run| && !Known(At(me, run, p).w, id) && Known(At(me, run, p + 1).w, id)
    requires Lookup(At(me, run, p + 1).w, id).dir == M.Out
    ensures Sending(me, run, p, j, Lookup(At(me, run, p + 1).w, id).room, id, ms)
  {
    AtNext(me, run, p);
    RacesKeepGood(me, run[..p]);
    SendStores(At(me, run, p), run[p], id);
    j, ms := run[p].j, After(At(me, run, p).w, At(me, run, p).jobs[run[p].j]).value.rest;
  }

  /** Every interleaving: a message of ours that is there was sent at some tick and has been there since. */
  lemma {:induction false} SentEarlier(me: Name, run: seq<Tick>, t: nat, id: Id)
    returns (p: nat, j: nat, ms: seq<Name>)
    requires t <= |run| && Known(At(me, run, t).w, id) && Lookup(At(me, run, t).w, id).dir == M.Out
    ensures p < t && Sending(me, run, p, j, Lookup(At(me, run, t).w, id).room, id, ms) && Since(me, run, p, t, id)
    decreases t
  {
    if Known(At(me, run, t - 1).w, id) {
      RowNext(me, run, t - 1, id);
      p, j, ms := SentEarlier(me, run, t - 1, id);
    } else {
      p := t - 1;
      j, ms := SentNow(me, run, p, id);
    }
  }

  /** While a message is there, its row stays the same row. */
  lemma {:induction false} RowFixed(me: Name, run: seq<Tick>, i: nat, t: nat, id: Id)
    requires i <= t <= |run| && forall h :: i <= h <= t ==> Known(At(me, run, h).w, id)
    ensures SameRow(At(me, run, i).w, At(me, run, t).w, id)
    decreases t
  {
    if i < t {
      RowFixed(me, run, i, t - 1, id);
      RowNext(me, run, t - 1, id);
    }
  }

  /** A send of ours, with what it found and what has stayed of it. */
  ghost predicate Sent(me: Name, run: seq<Tick>, p: nat, t: nat, j: nat, room: Id, id: Id, ms: seq<Name>)
    requires p < t <= |run|
  {
    && Since(me, run, p, t, id) && Busy(At(me, run, p + 1), j, room, id, ms) && GoodList(ms)
    && Lookup(At(me, run, p + 1).w, id).room == room && Lookup(At(me, run, t).w, id).sender == me
  }

  lemma OwnMessage(me: Name, run: seq<Tick>, t: nat, id: Id) returns (p: nat, j: nat, ms: seq<Name>)
    requires t <= |run| && Known(At(me, run, t).w, id) && Lookup(At(me, run, t).w, id).dir == M.Out
    ensures p < t && Sending(me, run, p, j, Lookup(At(me, run, t).w, id).room, id, ms)
    ensures Sent(me, run, p, t, j, Lookup(At(me, run, t).w, id).room, id, ms)
  {
    p, j, ms := SentEarlier(me, run, t, id);
    SendingStores(me, run, p, j, Lookup(At(me, run, t).w, id).room, id, ms);
    RowFixed(me, run, p + 1, t, id);
  }

  // ---- delivered, and who has acked ----

  /** The message was queued for the member, who has acked it since. */
  ghost predicate Served(me: Name, run: seq<Tick>, p: nat, t: nat, j: nat, room: Id, id: Id, member: Name) {
    exists a, b :: p < a < b <= t < |run|
      && Queues(me, run, a, j, room, id, member) && Acks(WriteOf(At(me, run, b), run[b]), room, member, id)
  }

  lemma QueuesEntry(me: Name, run: seq<Tick>, a: nat, j: nat, room: Id, id: Id, member: Name)
    requires Queues(me, run, a, j, room, id, member) && member != me
    ensures OutboxKey(room, member, id) in At(me, run, a + 1).w.outbox
  {
    AtNext(me, run, a);
    MeIsFixed(me, run[..a]);
    var rest :| Busy(At(me, run, a), j, room, id, [member] + rest);
    assert ([member] + rest)[0] == member;
  }

  lemma NotDropped(me: Name, run: seq<Tick>, b: nat, room: Id, id: Id)
    requires b < |run| && Known(At(me, run, b).w, id) && Known(At(me, run, b + 1).w, id)
    requires Lookup(At(me, run, b).w, id).room == room
    ensures var wr := WriteOf(At(me, run, b), run[b]); wr.DropRoom? ==> !EqualFold(wr.id, room)
  {
    var wr := WriteOf(At(me, run, b), run[b]);
    AtNext(me, run, b);
    RacesKeepGood(me, run[..b]);
    if wr.DropRoom? {
      DropGoes(At(me, run, b).w, wr.id, id);
    }
  }

  /** An entry that is gone while its message has always been there was acked. */
  lemma GoneMeansAcked(me: Name, run: seq<Tick>, a: nat, t: nat, room: Id, id: Id, member: Name) returns (b: nat)
    requires SizedRun(run) && a < t < |run| && |room| == ID_LENGTH && |id| == ID_LENGTH
    requires forall h :: a < h <= t + 1 ==> Known(At(me, run, h).w, id)
    requires Lookup(At(me, run, a + 1).w, id).room == room
    requires OutboxKey(room, member, id) in At(me, run, a + 1).w.outbox
    requires OutboxKey(room, member, id) !in At(me, run, t + 1).w.outbox
    ensures a < b <= t && Acks(WriteOf(At(me, run, b), run[b]), room, member, id)
  {
    var upto := run[..t + 1];
    assert upto[..a + 1] == run[..a + 1];
    b := EntriesGoOnlyByAck(me, upto, a + 1, room, member, id);
    assert upto[..b] == run[..b];
    RowFixed(me, run, a + 1, b, id);
    NotDropped(me, run, b, room, id);
  }

  /** The tick is an ack under the message's own room, and turns it delivered. */
  ghost predicate OwnAckDelivers(me: Name, run: seq<Tick>, t: nat, id: Id) {
    && t < |run| && TurnsDelivered(At(me, run, t).w, At(me, run, t + 1).w, id)
    && WriteOf(At(me, run, t), run[t]).Confirm?
    && WriteOf(At(me, run, t), run[t]).room == Lookup(At(me, run, t).w, id).room
  }

  /** It leaves no entry of anybody in the room. */
  lemma OwnAckLeavesNone(me: Name, run: seq<Tick>, t: nat, id: Id)
    requires SizedRun(run) && OwnAckDelivers(me, run, t, id) && Lookup(At(me, run, t).w, id).sender == me
    ensures var room := Lookup(At(me, run, t).w, id).room;
      && |room| == ID_LENGTH && |id| == ID_LENGTH && room in At(me, run, t).w.rooms
      && forall m :: Includes(At(me, run, t).w.rooms[room].members, m, me) ==>
           OutboxKey(room, m, id) !in At(me, run, t + 1).w.outbox
  {
    var n, room := At(me, run, t), Lookup(At(me, run, t).w, id).room;
    var wr := WriteOf(n, run[t]);
    AtNext(me, run, t);
    RacesKeepGood(me, run[..t]);
    OnlyConfirmDelivers(n.w, wr, id);
    assert SizedRun(run[..t]);
    TickSized(me, run[..t], run[t]);
    ConfirmDelivers(n.w, room, wr.member, id);
    forall m | Includes(n.w.rooms[room].members, m, me)
      ensures OutboxKey(room, m, id) !in At(me, run, t + 1).w.outbox
    {
      var i :| 0 <= i < |n.w.rooms[room].members| && n.w.rooms[room].members[i] != me
        && EqualFold(n.w.rooms[room].members[i], m);
      assert OutboxKey(room, m, id) == OutboxKey(room, n.w.rooms[room].members[i], id);
    }
  }

  /** A member the message was queued for, who has no entry left, has acked. */
  lemma QueuedIsServed(me: Name, run: seq<Tick>, p: nat, t: nat, a: nat, j: nat, room: Id, id: Id, member: Name)
    requires SizedRun(run) && p < a < t < |run| && |room| == ID_LENGTH && |id| == ID_LENGTH
    requires Since(me, run, p, t + 1, id) && Lookup(At(me, run, p + 1).w, id).room == room
    requires Queues(me, run, a, j, room, id, member) && member != me
    requires OutboxKey(room, member, id) !in At(me, run, t + 1).w.outbox
    ensures Served(me, run, p, t, j, room, id, member)
  {
    QueuesEntry(me, run, a, j, room, id, member);
    RowFixed(me, run, p + 1, a + 1, id);
    var b := GoneMeansAcked(me, run, a, t, room, id, member);
  }

  /** When no entry of the member is left, it has acked exactly if the send has got to it. */
  lemma ServedIffReached(
    me: Name, run: seq<Tick>, p: nat, t: nat, j: nat, room: Id, id: Id, ms: seq<Name>, k: nat, member: Name)
    requires SizedRun(run) && p < t < |run| && |room| == ID_LENGTH && |id| == ID_LENGTH
    requires Since(me, run, p, t + 1, id) && Lookup(At(me, run, p + 1).w, id).room == room
    requires ReachedFirst(me, run, p, t, j, room, id, ms, k) && FoldDistinct(ms) && member in ms && member != me
    requires OutboxKey(room, member, id) !in At(me, run, t + 1).w.outbox
    ensures Served(me, run, p, t, j, room, id, member) <==> member !in ms[k..]
  {
    assert ms == ms[..k] + ms[k..];
    if member in ms[..k] {
      var a :| p < a < t && Queues(me, run, a, j, room, id, member);
      QueuedIsServed(me, run, p, t, a, j, room, id, member);
      var i :| 0 <= i < k && ms[i] == member;
      assert forall h :: k <= h < |ms| ==> !EqualFold(ms[i], ms[h]);
    }
  }

  /** Everybody the message was sent to, and who is in the room now, has acked. */
  ghost predicate AllServed(
    me: Name, run: seq<Tick>, p: nat, t: nat, j: nat, room: Id, id: Id, ms: seq<Name>, now: seq<Name>)
  {
    forall m :: m in ms && m != me && Includes(now, m, me) ==> Served(me, run, p, t, j, room, id, m)
  }

  lemma AllServedIff(
    me: Name, run: seq<Tick>, p: nat, t: nat, j: nat, room: Id, id: Id, ms: seq<Name>, now: seq<Name>, k: nat)
    requires SizedRun(run) && p < t < |run| && |room| == ID_LENGTH && |id| == ID_LENGTH
    requires Since(me, run, p, t + 1, id) && Lookup(At(me, run, p + 1).w, id).room == room
    requires ReachedFirst(me, run, p, t, j, room, id, ms, k) && FoldDistinct(ms)
    requires forall m :: Includes(now, m, me) ==> OutboxKey(room, m, id) !in At(me, run, t + 1).w.outbox
    ensures AllServed(me, run, p, t, j, room, id, ms, now) <==>
      forall m :: m in ms[k..] ==> m == me || !Includes(now, m, me)
  {
    forall m | m in ms && m != me && Includes(now, m, me)
      ensures Served(me, run, p, t, j, room, id, m) <==> m !in ms[k..]
    {
      ServedIffReached(me, run, p, t, j, room, id, ms, k, m);
    }
  }

  /**
    Every interleaving: when an ack under its own room turns a message of ours
    delivered, the message was sent at some tick p and its room not dropped since.
    Everybody it was sent to who is in the room has acked if and only if nobody in
    the room is among those the send had not got to: it was still at work on them,
    or had died.
   */
  lemma DeliveredMeansAckedIff(me: Name, run: seq<Tick>, t: nat, id: Id)
    returns (p: nat, j: nat, ms: seq<Name>, k: nat)
    requires SizedRun(run) && OwnAckDelivers(me, run, t, id) && Lookup(At(me, run, t).w, id).dir == M.Out
    ensures var room := Lookup(At(me, run, t).w, id).room;
      && p < t && Sending(me, run, p, j, room, id, ms) && Since(me, run, p, t, id)
      && k <= |ms| && LeftAt(me, run, p, t, j, room, id, ms, k) && room in At(me, run, t).w.rooms
      && (var now := At(me, run, t).w.rooms[room].members;
          AllServed(me, run, p, t, j, room, id, ms, now) <==>
          forall m :: m in ms[k..] ==> m == me || !Includes(now, m, me))
  {
    var room := Lookup(At(me, run, t).w, id).room;
    p, j, ms := OwnMessage(me, run, t, id);
    OwnAckLeavesNone(me, run, t, id);
    k := Progress(me, run, p, t, j, room, id, ms);
    AllServedIff(me, run, p, t, j, room, id, ms, At(me, run, t).w.rooms[room].members, k);
  }

  /** So unless that is too early, everybody has acked, or the send has died. */
  lemma DeliveredInTime(me: Name, run: seq<Tick>, t: nat, id: Id) returns (p: nat, j: nat, ms: seq<Name>, k: nat)
    requires SizedRun(run) && OwnAckDelivers(me, run, t, id) && Lookup(At(me, run, t).w, id).dir == M.Out
    requires !TooEarly(At(me, run, t), At(me, run, t + 1), id)
    ensures var room := Lookup(At(me, run, t).w, id).room;
      && p < t && Sending(me, run, p, j, room, id, ms) && room in At(me, run, t).w.rooms && k <= |ms|
      && (|| AllServed(me, run, p, t, j, room, id, ms, At(me, run, t).w.rooms[room].members)
          || Cut(me, run, p, t, j, room, id, ms[k..]))
  {
    p, j, ms, k := DeliveredMeansAckedIff(me, run, t, id);
    var n, room := At(me, run, t), Lookup(At(me, run, t).w, id).room;
    AtNext(me, run, t);
    RacesKeepGood(me, run[..t]);
    MeIsFixed(me, run[..t]);
    OnlyConfirmDelivers(n.w, WriteOf(n, run[t]), id);
    TooEarlyIff(n, run[t], id);
    ConfirmDelivers(n.w, room, WriteOf(n, run[t]).member, id);
    if Busy(n, j, room, id, ms[k..]) {
      forall m | m in ms[k..] && m != me ensures !Includes(n.w.rooms[room].members, m, me) {
        assert QueuesLater(n, j, room, id, m);
      }
    }
  }
}
