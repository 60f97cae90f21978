/**
  Room messages: one outbox entry per member, and "delivered" once nobody of the
  room an ack names is waiting any more. All of it under every interleaving.
 */
module RoomDelivery {
  import opened OptionType
  import opened ByteOrder
  import opened Names
  import opened Members
  import opened RoomDb
  import opened RoomRows
  import opened RoomRules
  import opened RoomRaces

  // ---- what an outbox key says ----

  const ID_LENGTH: nat := 32

  /** Ids of one length make the flat key unambiguous, colons in names notwithstanding. */
  lemma OutboxKeyInjective(room: Id, member: Name, msg: Id, room': Id, member': Name, msg': Id)
    requires |room| == |room'| && |msg| == |msg'|
    requires OutboxKey(room, member, msg) == OutboxKey(room', member', msg')
    ensures EqualFold(room, room') && EqualFold(member, member') && EqualFold(msg, msg')
  {
    var k, n := OutboxKey(room, member, msg), |room|;
    assert k[..n] == Lower(room) && k[..n] == Lower(room');
    assert k[|k| - |msg|..] == Lower(msg) && k[|k| - |msg|..] == Lower(msg');
    assert k[n + 1..|k| - |msg| - 1] == Lower(member) && k[n + 1..|k| - |msg| - 1] == Lower(member');
  }

  lemma PrefixNamesRoom(id: Id, room: Id, member: Name, msg: Id)
    requires |id| == |room|
    ensures RoomPrefix(id) <= OutboxKey(room, member, msg) <==> EqualFold(id, room)
  {
    var k := OutboxKey(room, member, msg);
    assert k[..|room|] == Lower(room) && k[|room|] == 0x3A;
    if RoomPrefix(id) <= k {
      assert RoomPrefix(id)[..|id|] == Lower(id);
      assert k[..|id|] == RoomPrefix(id)[..|id|];
    }
    if EqualFold(id, room) {
      assert k == RoomPrefix(id) + (Lower(member) + SEP + Lower(msg));
    }
  }

  /** An entry of a member makes that member wait. */
  lemma EntryWaits(outbox: map<Bytes, Id>, room: Id, member: Name, msg: Id)
    requires OutboxKey(room, member, msg) in outbox
    ensures Waiting(outbox, room, member)
  {
    assert MemberPrefix(room, member) <= OutboxKey(room, member, msg);
  }

  // ---- turning delivered ----

  /** A member of the room, other than the sender, has an entry for the message. */
  ghost predicate Owed(w: World, room: Id, id: Id) {
    && Known(w, id) && room in w.rooms
    && exists i :: 0 <= i < |w.rooms[room].members| && w.rooms[room].members[i] != Lookup(w, id).sender
        && OutboxKey(room, w.rooms[room].members[i], id) in w.outbox
  }

  ghost predicate TurnsDelivered(w: World, w': World, id: Id) {
    && Known(w, id) && Lookup(w, id).status != M.Delivered
    && Known(w', id) && Lookup(w', id).status == M.Delivered
  }

  /** A message turns delivered in exactly these circumstances, and nobody of the room the ack names is then owed it. */
  lemma ConfirmDelivers(w: World, room: Id, member: Name, id: Id)
    requires Indexed(w) && Known(w, id) && Lookup(w, id).status != M.Delivered
    ensures var w' := MarkDelivered(w, room, member, id);
      && w'.rooms == w.rooms && Known(w', id)
      && (TurnsDelivered(w, w', id) <==>
          && room in w.rooms
          && NobodyWaits(w.outbox - {OutboxKey(room, member, id)}, room, w.rooms[room].members, Lookup(w, id).sender))
      && (TurnsDelivered(w, w', id) ==> !Owed(w', room, id) && w'.outbox == w.outbox - {OutboxKey(room, member, id)})
      && Lookup(w', id) == Lookup(w, id).(status := Lookup(w', id).status)
  {
    var w' := MarkDelivered(w, room, member, id);
    if TurnsDelivered(w, w', id) {
      var ms := w.rooms[room].members;
      forall i | 0 <= i < |ms| && OutboxKey(room, ms[i], id) in w'.outbox ensures Waiting(w'.outbox, room, ms[i]) {
        EntryWaits(w'.outbox, room, ms[i], id);
      }
    }
  }

  lemma ConfirmTouchesOne(w: World, room: Id, member: Name, msg: Id, id: Id)
    requires Indexed(w) && Known(w, id) && msg != id
    ensures Known(MarkDelivered(w, room, member, msg), id)
    ensures Lookup(MarkDelivered(w, room, member, msg), id) == Lookup(w, id)
  {
    assert IdIndexed(w, id);
    if Known(w, msg) {
      assert IdIndexed(w, msg);
    }
  }

  lemma FlipKeepsStatus(w: World, room: Id, msg: Id, sender: Name, emoji: Bytes, id: Id)
    requires Indexed(w) && Known(w, id)
    ensures Known(Toggle(w, room, msg, sender, emoji), id)
    ensures Lookup(Toggle(w, room, msg, sender, emoji), id).status == Lookup(w, id).status
  {
    assert IdIndexed(w, id);
    if Known(w, msg) {
      assert IdIndexed(w, msg);
    }
  }

  lemma PostTouchesNone(w: World, m: Row, id: Id)
    requires Indexed(w) && Known(w, id)
    ensures Known(AddRow(w, m), id) && Lookup(AddRow(w, m), id) == Lookup(w, id)
  {
    assert RowIndexed(w, w.idx[id]);
  }

  /** Every write but the confirmation of that very message leaves its status alone. */
  lemma OnlyConfirmDelivers(w: World, wr: Write, id: Id)
    requires Indexed(w) && TurnsDelivered(w, Apply(w, wr), id)
    ensures wr.Confirm? && wr.msg == id
  {
    match wr
    case NoWrite =>
    case SaveRoom(_, _) =>
    case DropRoom(_) =>
    case Post(row) => PostTouchesNone(w, row, id);
    case Enter(_, _, _) =>
    case Confirm(room, member, msg) =>
      if msg != id {
        ConfirmTouchesOne(w, room, member, msg, id);
      }
    case Flip(room, msg, sender, emoji) => FlipKeepsStatus(w, room, msg, sender, emoji, id);
  }

  /** A confirmation is the ack of the member it is for, who was in the room when the ack was looked at. */
  lemma ConfirmIsAck(n: Node, t: Tick)
    requires WriteOf(n, t).Confirm?
    ensures var wr := WriteOf(n, t);
      && t.Land? && t.j in n.jobs && n.jobs[t.j].Looked?
      && n.jobs[t.j].e == AckFrom(wr.member, wr.room, wr.msg)
      && n.jobs[t.j].cap.Some? && IsMember(n.jobs[t.j].cap.value.members, wr.member)
  {
  }

  /**
    Every interleaving: a room message turns delivered only by an ack for it, and
    only at a moment when no member of the room that ack names, other than the
    sender, has an entry for it.
   */
  lemma {:induction false} DeliveredWhenNobodyWaits(me: Name, run: seq<Tick>, t: Tick, id: Id)
    requires var n := Interleave(Begin(me), run); TurnsDelivered(n.w, Advance(n, t).w, id)
    ensures var n := Interleave(Begin(me), run);
      && t.Land? && t.j in n.jobs && n.jobs[t.j].Looked? && n.jobs[t.j].e.AckFrom? && n.jobs[t.j].e.id == id
      && n.jobs[t.j].e.room in n.w.rooms && !Owed(Advance(n, t).w, n.jobs[t.j].e.room, id)
  {
    RacesKeepGood(me, run);
    var n := Interleave(Begin(me), run);
    var wr := WriteOf(n, t);
    OnlyConfirmDelivers(n.w, wr, id);
    ConfirmIsAck(n, t);
    ConfirmDelivers(n.w, wr.room, wr.member, id);
  }

  // ---- delivered too early ----

  /** Somebody other than us is in the list under this name. */
  predicate Includes(ms: seq<Name>, member: Name, me: Name) {
    exists i :: 0 <= i < |ms| && ms[i] != me && EqualFold(ms[i], member)
  }

  /** The handler is a send that has still to queue the message for the member. */
  ghost predicate QueuesLater(n: Node, j: nat, room: Id, id: Id, member: Name) {
    && j in n.jobs && n.jobs[j].Queueing? && n.jobs[j].room == room && n.jobs[j].msg == id
    && member in n.jobs[j].rest && member != n.w.me
  }

  /** Some send has still to queue the message for somebody who is a member now. */
  ghost predicate InQueue(n: Node, room: Id, id: Id) {
    && room in n.w.rooms
    && exists j, m :: QueuesLater(n, j, room, id, m) && Includes(n.w.rooms[room].members, m, n.w.me)
  }

  /** The message turns delivered although a member of its own room waits for it, or has yet to be queued for. */
  ghost predicate TooEarly(n: Node, n': Node, id: Id) {
    && TurnsDelivered(n.w, n'.w, id)
    && (Owed(n'.w, Lookup(n'.w, id).room, id) || InQueue(n', Lookup(n'.w, id).room, id))
  }

  lemma SameOwed(w: World, w': World, room: Id, id: Id)
    requires w'.rooms == w.rooms && w'.outbox == w.outbox && Known(w, id) && Known(w', id)
    requires Lookup(w', id).sender == Lookup(w, id).sender
    ensures Owed(w', room, id) <==> Owed(w, room, id)
  {
  }

  /** A confirmation leaves the sends at work as they are. */
  lemma SameQueue(n: Node, t: Tick, room: Id, id: Id)
    requires WriteOf(n, t).Confirm?
    ensures InQueue(Advance(n, t), room, id) <==> InQueue(n, room, id)
  {
    var n' := Advance(n, t);
    ConfirmIsAck(n, t);
    assert n'.w.me == n.w.me && n'.w.rooms == n.w.rooms;
    forall j, m ensures QueuesLater(n', j, room, id, m) <==> QueuesLater(n, j, room, id, m) {
    }
    assert InQueue(n, room, id) ==> InQueue(n', room, id);
  }

  /**
    An ack for the message, under a held room where nobody waits once its own entry
    is gone; and either that is another room and a member of the own room has an
    entry left, or some send has not yet queued the message for everybody.
   */
  ghost predicate AcksTooSoon(n: Node, wr: Write, id: Id)
    requires Known(n.w, id)
  {
    var own := Lookup(n.w, id).room;
    && wr.Confirm? && wr.msg == id && wr.room in n.w.rooms
    && (var outbox := n.w.outbox - {OutboxKey(wr.room, wr.member, id)};
        && NobodyWaits(outbox, wr.room, n.w.rooms[wr.room].members, Lookup(n.w, id).sender)
        && ((wr.room != own && Owed(n.w.(outbox := outbox), own, id)) || InQueue(n, own, id)))
  }

  /** Whatever sends are at work, a tick delivers a message too early if and only if it writes such an ack. */
  lemma TooEarlyIff(n: Node, t: Tick, id: Id)
    requires Indexed(n.w) && Known(n.w, id) && Lookup(n.w, id).status != M.Delivered
    ensures TooEarly(n, Advance(n, t), id) <==> AcksTooSoon(n, WriteOf(n, t), id)
  {
    var wr, own, n' := WriteOf(n, t), Lookup(n.w, id).room, Advance(n, t);
    if TurnsDelivered(n.w, n'.w, id) {
      OnlyConfirmDelivers(n.w, wr, id);
    }
    if wr.Confirm? && wr.msg == id {
      ConfirmDelivers(n.w, wr.room, wr.member, id);
      if TurnsDelivered(n.w, n'.w, id) {
        SameOwed(n.w.(outbox := n'.w.outbox), n'.w, own, id);
        SameQueue(n, t, own, id);
      }
    }
  }

  /** The same for every state any interleaving reaches. */
  lemma {:induction false} TooEarlyIffReached(me: Name, run: seq<Tick>, t: Tick, id: Id)
    requires var w := Interleave(Begin(me), run).w; Known(w, id) && Lookup(w, id).status != M.Delivered
    ensures var n := Interleave(Begin(me), run); TooEarly(n, Advance(n, t), id) <==> AcksTooSoon(n, WriteOf(n, t), id)
  {
    RacesKeepGood(me, run);
    TooEarlyIff(Interleave(Begin(me), run), t, id);
  }

  // ---- how an entry goes ----

  ghost predicate SizedEvent(e: Event) {
    |RoomOf(e)| == ID_LENGTH && (e.AckFrom? ==> |e.id| == ID_LENGTH)
  }

  /** Room and message ids have their length, as the wire format demands. */
  ghost predicate SizedRun(run: seq<Tick>) {
    forall i :: 0 <= i < |run| && run[i].Look? ==> SizedEvent(run[i].e)
  }

  /** The write confirms this entry. */
  ghost predicate Acks(wr: Write, room: Id, member: Name, msg: Id) {
    wr.Confirm? && EqualFold(wr.room, room) && EqualFold(wr.member, member) && EqualFold(wr.msg, msg)
  }

  /** The write confirms this entry, or drops its room or one whose id is the same but for letter case. */
  ghost predicate Releases(wr: Write, room: Id, member: Name, msg: Id) {
    Acks(wr, room, member, msg) || (wr.DropRoom? && EqualFold(wr.id, room))
  }

  ghost predicate SizedWrite(wr: Write) {
    && (wr.Confirm? ==> |wr.room| == ID_LENGTH && |wr.msg| == ID_LENGTH)
    && (wr.DropRoom? ==> |wr.id| == ID_LENGTH)
  }

  lemma EntryGoes(w: World, wr: Write, room: Id, member: Name, msg: Id)
    requires SizedWrite(wr) && |room| == ID_LENGTH && |msg| == ID_LENGTH
    requires OutboxKey(room, member, msg) in w.outbox && OutboxKey(room, member, msg) !in Apply(w, wr).outbox
    ensures Releases(wr, room, member, msg)
  {
    if wr.Confirm? {
      assert OutboxKey(room, member, msg) == OutboxKey(wr.room, wr.member, wr.msg);
      OutboxKeyInjective(room, member, msg, wr.room, wr.member, wr.msg);
    } else {
      assert wr.DropRoom?;
      PrefixNamesRoom(wr.id, room, member, msg);
    }
  }

  lemma DecideSized(me: Name, e: Event, cap: Option<Room>)
    requires SizedEvent(e)
    ensures SizedWrite(Decide(me, e, cap))
  {
    DecideTarget(me, e, cap);
  }

  lemma TickSized(me: Name, run: seq<Tick>, t: Tick)
    requires SizedRun(run)
    ensures SizedWrite(WriteOf(Interleave(Begin(me), run), t))
  {
    var n := Interleave(Begin(me), run);
    if t.Land? && t.j in n.jobs && n.jobs[t.j].Looked? {
      var i := LookedEarlier(me, run, t.j);
      DecideSized(n.w.me, n.jobs[t.j].e, n.jobs[t.j].cap);
    }
  }

  /**
    Every interleaving: an entry that is gone went through its own member's ack, or
    with its room, or with a room whose id is the same but for letter case.
   */
  lemma {:induction false} EntriesGoOnlyByAck(
    me: Name, run: seq<Tick>, from: nat, room: Id, member: Name, msg: Id) returns (i: nat)
    requires SizedRun(run) && from <= |run| && |room| == ID_LENGTH && |msg| == ID_LENGTH
    requires OutboxKey(room, member, msg) in At(me, run, from).w.outbox
    requires OutboxKey(room, member, msg) !in Interleave(Begin(me), run).w.outbox
    ensures from <= i < |run| && Releases(WriteOf(At(me, run, i), run[i]), room, member, msg)
    decreases |run|
  {
    assert run[..|run|] == run;
    var k := |run| - 1;
    var before := run[..k];
    assert SizedRun(before);
    if OutboxKey(room, member, msg) in Interleave(Begin(me), before).w.outbox {
      TickSized(me, before, run[k]);
      EntryGoes(Interleave(Begin(me), before).w, WriteOf(Interleave(Begin(me), before), run[k]), room, member, msg);
      i := k;
    } else {
      assert before[..from] == run[..from];
      i := EntriesGoOnlyByAck(me, before, from, room, member, msg);
      assert before[..i] == run[..i];
    }
  }

  // ---- queueing a message for the members ----

  /** The lands of one handler, with nothing else in between. */
  function Lands(j: nat, k: nat): seq<Tick> {
    seq(k, _ => Land(j))
  }

  /** The entries of a message for those of a list who are not us. */
  function EntryKeys(me: Name, room: Id, ms: seq<Name>, msg: Id): set<Bytes> {
    if ms == [] then {} else
      EntryKeys(me, room, ms[..|ms| - 1], msg) +
      if ms[|ms| - 1] == me then {} else {OutboxKey(room, ms[|ms| - 1], msg)}
  }

  lemma {:induction false} EntryKeysMean(me: Name, room: Id, ms: seq<Name>, msg: Id, k: Bytes)
    ensures k in EntryKeys(me, room, ms, msg) <==> exists m :: m in ms && m != me && k == OutboxKey(room, m, msg)
  {
    if ms != [] {
      EntryKeysMean(me, room, ms[..|ms| - 1], msg, k);
      assert ms == ms[..|ms| - 1] + [ms[|ms| - 1]];
    }
  }

  lemma QueueOne(n: Node, j: nat, room: Id, msg: Id, rest: seq<Name>)
    requires j in n.jobs && n.jobs[j] == Queueing(room, msg, rest) && rest != []
    ensures var n' := Advance(n, Land(j));
      && n'.w == n.w.(outbox := n'.w.outbox) && n'.jobs == n.jobs[j := Queueing(room, msg, rest[1..])]
      && n'.w.outbox.Keys == n.w.outbox.Keys + if rest[0] == n.w.me then {} else {OutboxKey(room, rest[0], msg)}
  {
  }

  lemma {:induction false} QueueAll(n: Node, j: nat, room: Id, msg: Id, ms: seq<Name>, k: nat)
    requires j in n.jobs && n.jobs[j] == Queueing(room, msg, ms) && k <= |ms|
    ensures var n' := Interleave(n, Lands(j, k));
      && n'.w == n.w.(outbox := n'.w.outbox) && n'.jobs == n.jobs[j := Queueing(room, msg, ms[k..])]
      && n'.w.outbox.Keys == n.w.outbox.Keys + EntryKeys(n.w.me, room, ms[..k], msg)
  {
    if k > 0 {
      QueueAll(n, j, room, msg, ms, k - 1);
      var m := Interleave(n, Lands(j, k - 1));
      assert Lands(j, k)[..k - 1] == Lands(j, k - 1);
      QueueOne(m, j, room, msg, ms[k - 1..]);
      assert Interleave(n, Lands(j, k)) == Advance(m, Land(j));
      assert ms[..k][..k - 1] == ms[..k - 1] && ms[k - 1..][1..] == ms[k..];
    }
  }

  /** A send stores the message and queues it for one after the other of the members it saw, but not for us. */
  lemma SendQueues(n: Node, j: nat, c: Command, cap: Room, k: nat)
    requires j in n.jobs && n.jobs[j] == Looked(User(c), Some(cap)) && c.Send? && c.id !in n.w.idx
    requires 0 < |c.body| <= Envelopes.MAX_BODY && IsMember(cap.members, n.w.me) && cap.state == Joined
    requires k <= |cap.members|
    ensures var n' := Interleave(n, Lands(j, 1 + k));
      && n'.w.rooms == n.w.rooms && n'.w.me == n.w.me && Known(n'.w, c.id)
      && Lookup(n'.w, c.id) == OutgoingRow(n.w.me, c).(num := n.w.last + 1)
      && n'.w.outbox.Keys == n.w.outbox.Keys + EntryKeys(n.w.me, c.room, cap.members[..k], c.id)
      && n'.jobs == n.jobs[j := Queueing(c.room, c.id, cap.members[k..])]
  {
    var n1 := Advance(n, Land(j));
    assert Lands(j, 1 + k) == [Land(j)] + Lands(j, k);
    Then(n, [Land(j)], Lands(j, k));
    assert [Land(j)][..0] == [] && Interleave(n, []) == n;
    QueueAll(n1, j, c.room, c.id, cap.members, k);
  }
}
