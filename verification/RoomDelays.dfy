/**
  The check behind "delivered" looks for any entry of a member, not for one of the
  message acked. A message that is acked while a later one still waits is therefore
  not marked, and nothing asks again: its entry is gone.
 */
module RoomDelays {
  import opened ByteOrder
  import opened Names
  import opened Members
  import opened RoomDb
  import opened RoomRows
  import opened RoomRules
  import opened RoomRaces
  import opened RoomDelivery

  /** We make a room with bob and send two messages, and bob acks them in order. */
  function TwoMessages(bob: Name, room: Id, one: Id, two: Id): seq<Event> {
    [User(NewRoom(room, [1], [bob], 0)),
     User(Send(room, one, [104], 0, 1)), Queued(room, bob, one),
     User(Send(room, two, [104], 0, 2)), Queued(room, bob, two),
     AckFrom(bob, room, one), AckFrom(bob, room, two)]
  }

  lemma Members2(me: Name, bob: Name)
    ensures IsMember(Dedupe([me, bob]), me) && IsMember(Dedupe([me, bob]), bob)
  {
    var l := [me, bob];
    assert EqualFold(l[0], me) && EqualFold(l[1], bob);
    DedupeMeans(l);
  }

  lemma TwoMore(w: World, run: seq<Event>, a: Event, b: Event)
    ensures Run(w, run + [a, b]) == Step(Step(Run(w, run), a), b)
  {
    SerialSnoc(w, run, a);
    SerialSnoc(w, run + [a], b);
    assert run + [a] + [b] == run + [a, b];
  }

  /** A room with bob in which one and two are queued, and these entries wait. */
  ghost predicate Queue2(w: World, bob: Name, room: Id, one: Id, two: Id, keys: set<Bytes>) {
    && room in w.rooms && w.rooms[room].members == Dedupe([w.me, bob]) && !EqualFold(w.me, bob)
    && Known(w, one) && Known(w, two) && one != two && Indexed(w)
    && Lookup(w, one).sender == w.me && Lookup(w, two).sender == w.me
    && Lookup(w, one).status == M.Queued && Lookup(w, two).status == M.Queued
    && w.outbox.Keys == keys
  }

  lemma MakeRoom(me: Name, bob: Name, room: Id)
    ensures Step(Start(me), User(NewRoom(room, [1], [bob], 0))) == NewlyMade(me, bob, room)
  {
    assert [me] + [bob] == [me, bob];
  }

  /** One message sent to the room and queued for bob. */
  lemma SendOne(w: World, bob: Name, room: Id, id: Id, n: nat)
    requires room in w.rooms && w.rooms[room].members == Dedupe([w.me, bob]) && w.rooms[room].state == Joined
    requires !EqualFold(w.me, bob)
    ensures var c := Send(room, id, [104], 0, n);
      Step(Step(w, User(c)), Queued(room, bob, id)) == PutEntry(AddRow(w, OutgoingRow(w.me, c)), room, bob, id)
  {
    Members2(w.me, bob);
    var c := Send(room, id, [104], 0, n);
    assert Decide(w.me, User(c), Find(w, room)) == Post(OutgoingRow(w.me, c));
  }

  function Sent(w: World, bob: Name, room: Id, id: Id, n: nat): World {
    PutEntry(AddRow(w, OutgoingRow(w.me, Send(room, id, [104], 0, n))), room, bob, id)
  }

  function NewlyMade(me: Name, bob: Name, room: Id): World {
    Start(me).(rooms := map[room := Room([1], Dedupe([me, bob]), me, 0, Joined)])
  }

  lemma TwoSent(me: Name, bob: Name, room: Id, one: Id, two: Id)
    requires !EqualFold(me, bob)
    ensures Run(Start(me), TwoMessages(bob, room, one, two)[..5]) ==
      Sent(Sent(NewlyMade(me, bob, room), bob, room, one, 1), bob, room, two, 2)
  {
    var r, w := TwoMessages(bob, room, one, two), NewlyMade(me, bob, room);
    assert r[..3] == r[..1] + [r[1], r[2]] && r[..5] == r[..3] + [r[3], r[4]] && r[..1][..0] == [];
    MakeRoom(me, bob, room);
    assert Run(Start(me), r[..1]) == w;
    TwoMore(Start(me), r[..1], r[1], r[2]);
    SendOne(w, bob, room, one, 1);
    TwoMore(Start(me), r[..3], r[3], r[4]);
    SendOne(Sent(w, bob, room, one, 1), bob, room, two, 2);
  }

  lemma SentFacts(me: Name, bob: Name, room: Id, one: Id, two: Id)
    requires one != two
    ensures var w := Sent(Sent(NewlyMade(me, bob, room), bob, room, one, 1), bob, room, two, 2);
      && w.outbox.Keys == {OutboxKey(room, bob, one), OutboxKey(room, bob, two)}
      && Known(w, one) && Known(w, two) && w.rooms == NewlyMade(me, bob, room).rooms && w.me == me
      && Lookup(w, one) == OutgoingRow(me, Send(room, one, [104], 0, 1)).(num := 1)
      && Lookup(w, two) == OutgoingRow(me, Send(room, two, [104], 0, 2)).(num := 2)
  {
  }

  lemma BothQueued(me: Name, bob: Name, room: Id, one: Id, two: Id)
    requires one != two && !EqualFold(me, bob)
    ensures Queue2(Run(Start(me), TwoMessages(bob, room, one, two)[..5]), bob, room, one, two,
                   {OutboxKey(room, bob, one), OutboxKey(room, bob, two)})
  {
    TwoSent(me, bob, room, one, two);
    SentFacts(me, bob, room, one, two);
    RunGood(me, TwoMessages(bob, room, one, two)[..5]);
  }

  /** The first ack takes its entry, but finds bob waiting for the second message. */
  lemma FirstAck(w: World, bob: Name, room: Id, one: Id, two: Id)
    requires OutboxKey(room, bob, one) != OutboxKey(room, bob, two)
    requires Queue2(w, bob, room, one, two, {OutboxKey(room, bob, one), OutboxKey(room, bob, two)})
    ensures Queue2(Step(w, AckFrom(bob, room, one)), bob, room, one, two, {OutboxKey(room, bob, two)})
  {
    Members2(w.me, bob);
    var outbox, ms := w.outbox - {OutboxKey(room, bob, one)}, w.rooms[room].members;
    assert OutboxKey(room, bob, two) in outbox.Keys;
    EntryWaits(outbox, room, bob, two);
    var i :| 0 <= i < |ms| && EqualFold(ms[i], bob);
    assert MemberPrefix(room, ms[i]) == MemberPrefix(room, bob);
    assert Waiting(outbox, room, ms[i]) && ms[i] != w.me;
    assert Step(w, AckFrom(bob, room, one)) == w.(outbox := outbox);
    SameRowsIndexed(w, w.(outbox := outbox));
  }

  /** The second ack empties the outbox and delivers the second message alone. */
  lemma SecondAck(w: World, bob: Name, room: Id, one: Id, two: Id)
    requires Queue2(w, bob, room, one, two, {OutboxKey(room, bob, two)})
    ensures var w' := Step(w, AckFrom(bob, room, two));
      && w'.outbox == map[] && Known(w', one) && Known(w', two)
      && Lookup(w', one).status == M.Queued && Lookup(w', two).status == M.Delivered
  {
    Members2(w.me, bob);
    var outbox := w.outbox - {OutboxKey(room, bob, two)};
    assert outbox.Keys == {};
    assert forall k :: k !in outbox;
    ConfirmDelivers(w, room, bob, two);
    ConfirmTouchesOne(w, room, bob, two, one);
  }

  /** A run in which every ack has come and no entry waits, but the first message is not, and never was, delivered. */
  lemma AckedButNotDelivered(me: Name, bob: Name, room: Id, one: Id, two: Id)
    requires !EqualFold(me, bob) && |one| == |two| && !EqualFold(one, two)
    ensures var w := Run(Start(me), TwoMessages(bob, room, one, two));
      && w.outbox == map[] && Known(w, one) && Known(w, two)
      && Lookup(w, one).status == M.Queued && Lookup(w, two).status == M.Delivered
  {
    var r := TwoMessages(bob, room, one, two);
    BothQueued(me, bob, room, one, two);
    if OutboxKey(room, bob, one) == OutboxKey(room, bob, two) {
      OutboxKeyInjective(room, bob, one, room, bob, two);
    }
    FirstAck(Run(Start(me), r[..5]), bob, room, one, two);
    SecondAck(Step(Run(Start(me), r[..5]), r[5]), bob, room, one, two);
    TwoMore(Start(me), r[..5], r[5], r[6]);
    assert r == r[..5] + [r[5], r[6]];
  }
}
