/**
  Runs in which a room message turns delivered too early: an ack under another
  room, an ack while the send is still queueing, and one after the send has died.
 */
module RoomEarly {
  import opened OptionType
  import opened ByteOrder
  import opened Names
  import opened Members
  import opened RoomDb
  import opened RoomRows
  import opened RoomRaces
  import opened RoomDelivery

  // ---- two peers in a room of ours ----

  /** Three people distinct up to case are a member list as they are, but for the order. */
  lemma ThreeOf(me: Name, bob: Name, carol: Name)
    requires FoldDistinct([me, bob, carol])
    ensures var ms := Dedupe([me, bob, carol]); FoldDistinct(ms) && forall m :: m in ms <==> m in {me, bob, carol}
    ensures IsMember(Dedupe([me, bob, carol]), me) && bob != me && carol != me
  {
    var l, ms := [me, bob, carol], Dedupe([me, bob, carol]);
    DedupeMeans(l);
    assert !EqualFold(l[0], l[1]) && !EqualFold(l[0], l[2]) && !EqualFold(l[1], l[2]);
    forall m | m in l ensures m in ms {
      var h :| 0 <= h < |l| && l[h] == m;
      assert EqualFold(l[h], m) && IsMember(ms, m);
      var i :| 0 <= i < |ms| && EqualFold(ms[i], m);
      assert ms[i] in l;
    }
    assert EqualFold(l[0], me);
  }

  function OwnRoom(me: Name, others: seq<Name>, name: Bytes): Room {
    Room(name, Dedupe([me] + others), me, 0, Joined)
  }

  /** We make a room. */
  function Makes(room: Id, name: Bytes, others: seq<Name>): seq<Tick> {
    [Look(0, User(NewRoom(room, name, others, 0))), Land(0)]
  }

  lemma RoomMade(w: World, room: Id, name: Bytes, others: seq<Name>)
    requires room !in w.rooms && name != [] && 0 < |others| < MAX_MEMBERS
    ensures Interleave(Node(w, map[]), Makes(room, name, others)) ==
      Node(PutRoom(w, room, OwnRoom(w.me, others, name)), map[])
  {
    Whole(w, User(NewRoom(room, name, others, 0)));
  }

  /** We send a message, and it is stored and queued for the first k members. */
  function Sends(room: Id, id: Id, k: nat): seq<Tick> {
    [Look(0, User(Send(room, id, [104], 0, 1)))] + Lands(0, 1 + k)
  }

  /** The node while the message is queued for the first k members of the room. */
  ghost predicate Halfway(n: Node, w: World, room: Id, id: Id, k: nat)
    requires room in w.rooms && k <= |w.rooms[room].members|
  {
    var ms := w.rooms[room].members;
    && n.w.me == w.me && n.w.rooms == w.rooms && Known(n.w, id)
    && Lookup(n.w, id) == OutgoingRow(w.me, Send(room, id, [104], 0, 1)).(num := w.last + 1)
    && n.w.outbox.Keys == EntryKeys(w.me, room, ms[..k], id)
    && n.jobs == map[0 := Queueing(room, id, ms[k..])]
  }

  lemma SendGetsHalfway(w: World, room: Id, id: Id, k: nat)
    requires HasJoined(w, room) && IsMember(w.rooms[room].members, w.me) && k <= |w.rooms[room].members|
    requires w.idx == map[] && w.outbox == map[]
    ensures Halfway(Interleave(Node(w, map[]), Sends(room, id, k)), w, room, id, k)
  {
    var n, c := Node(w, map[]), Send(room, id, [104], 0, 1);
    var look: seq<Tick> := [Look(0, User(c))];
    var n1 := Node(w, map[0 := Looked(User(c), Some(w.rooms[room]))]);
    assert look[..0] == [] && Interleave(n, []) == n;
    assert Interleave(n, look) == n1;
    Then(n, look, Lands(0, 1 + k));
    SendQueues(n1, 0, c, w.rooms[room], k);
  }

  /** An ack, looked at and written with nothing in between. */
  function Acked(peer: Name, room: Id, id: Id): seq<Tick> {
    [Look(1, AckFrom(peer, room, id)), Land(1)]
  }

  lemma AckRun(me: Name, first: seq<Tick>, peer: Name, room: Id, id: Id)
    requires var n := Interleave(Begin(me), first);
      1 !in n.jobs && room in n.w.rooms && IsMember(n.w.rooms[room].members, peer)
    ensures var run, n := first + Acked(peer, room, id), Interleave(Begin(me), first);
      var n1 := n.(jobs := n.jobs[1 := Looked(AckFrom(peer, room, id), Some(n.w.rooms[room]))]);
      && Interleave(Begin(me), run[..|run| - 1]) == n1
      && Interleave(Begin(me), run) == Advance(n1, Land(1)) && WriteOf(n1, Land(1)) == Confirm(room, peer, id)
      && Interleave(Begin(me), run) == Node(MarkDelivered(n.w, room, peer, id), n.jobs)
  {
    var look: Tick := Look(1, AckFrom(peer, room, id));
    var run, n := first + Acked(peer, room, id), Interleave(Begin(me), first);
    assert run[..|run| - 1] == first + [look] && (first + [look])[..|first|] == first;
    assert Interleave(Begin(me), first + [look]) == Advance(n, look);
    var n1 := Advance(n, look);
    assert n1.jobs - {1} == n.jobs;
  }

  /** From a state that a run has led to, the message is sent and queued for the first k members. */
  lemma SendAfter(me: Name, made: seq<Tick>, w: World, room: Id, id: Id, k: nat)
    requires Interleave(Begin(me), made) == Node(w, map[])
    requires HasJoined(w, room) && IsMember(w.rooms[room].members, w.me) && k <= |w.rooms[room].members|
    requires w.idx == map[] && w.outbox == map[]
    ensures Halfway(Interleave(Begin(me), made + Sends(room, id, k)), w, room, id, k)
  {
    Then(Begin(me), made, Sends(room, id, k));
    SendGetsHalfway(w, room, id, k);
  }

  // ---- an ack under another room ----

  /** A room of ours with bob and carol, and one with bob alone. */
  function TwoRooms(me: Name, bob: Name, carol: Name, one: Id, two: Id): World {
    Start(me).(rooms := map[one := OwnRoom(me, [bob, carol], [1]), two := OwnRoom(me, [bob], [2])])
  }

  lemma TwoRoomsMade(me: Name, bob: Name, carol: Name, one: Id, two: Id)
    requires one != two
    ensures Interleave(Begin(me), Makes(one, [1], [bob, carol]) + Makes(two, [2], [bob])) ==
      Node(TwoRooms(me, bob, carol, one, two), map[])
  {
    RoomMade(Start(me), one, [1], [bob, carol]);
    RoomMade(PutRoom(Start(me), one, OwnRoom(me, [bob, carol], [1])), two, [2], [bob]);
    Then(Begin(me), Makes(one, [1], [bob, carol]), Makes(two, [2], [bob]));
  }

  lemma NobodyWaitsElsewhere(outbox: map<Bytes, Id>, me: Name, one: Id, two: Id, id: Id, sent: seq<Name>, ms: seq<Name>)
    requires |one| == |two| && !EqualFold(one, two) && outbox.Keys <= EntryKeys(me, one, sent, id)
    ensures NobodyWaits(outbox, two, ms, me)
  {
    forall k, m: Name | k in outbox ensures !(MemberPrefix(two, m) <= k) {
      assert k in outbox.Keys;
      EntryKeysMean(me, one, sent, id, k);
      var x :| x in sent && k == OutboxKey(one, x, id);
      PrefixNamesRoom(two, one, x, id);
      assert RoomPrefix(two) <= MemberPrefix(two, m);
    }
  }

  lemma StillOwed(w: World, me: Name, bob: Name, carol: Name, one: Id, two: Id, id: Id)
    requires |one| == |two| && !EqualFold(one, two) && Known(w, id) && Lookup(w, id).sender == me && carol != me
    requires one in w.rooms && carol in w.rooms[one].members
    requires w.outbox.Keys == EntryKeys(me, one, w.rooms[one].members, id)
    ensures Owed(w.(outbox := w.outbox - {OutboxKey(two, bob, id)}), one, id)
  {
    var ms := w.rooms[one].members;
    var i :| 0 <= i < |ms| && ms[i] == carol;
    EntryKeysMean(me, one, ms, id, OutboxKey(one, carol, id));
    assert OutboxKey(one, carol, id) in w.outbox.Keys;
    if OutboxKey(one, carol, id) == OutboxKey(two, bob, id) {
      OutboxKeyInjective(one, carol, id, two, bob, id);
    }
  }

  /** A message of ours has been queued for everybody in one room, carol among them; bob is in the other, too. */
  ghost predicate SentToOne(w: World, me: Name, bob: Name, carol: Name, one: Id, two: Id, id: Id) {
    && Known(w, id) && Lookup(w, id).room == one && Lookup(w, id).sender == me && Lookup(w, id).status == M.Queued
    && one in w.rooms && carol in w.rooms[one].members && carol != me
    && two in w.rooms && IsMember(w.rooms[two].members, bob)
    && w.outbox.Keys == EntryKeys(me, one, w.rooms[one].members, id)
  }

  lemma ElsewhereTooSoon(n: Node, me: Name, bob: Name, carol: Name, one: Id, two: Id, id: Id)
    requires |one| == |two| && !EqualFold(one, two) && SentToOne(n.w, me, bob, carol, one, two, id)
    ensures AcksTooSoon(n, Confirm(two, bob, id), id)
  {
    var outbox := n.w.outbox - {OutboxKey(two, bob, id)};
    NobodyWaitsElsewhere(outbox, me, one, two, id, n.w.rooms[one].members, n.w.rooms[two].members);
    StillOwed(n.w, me, bob, carol, one, two, id);
  }

  lemma SendToOne(me: Name, bob: Name, carol: Name, one: Id, two: Id, id: Id) returns (run: seq<Tick>)
    requires FoldDistinct([me, bob, carol]) && one != two
    ensures SentToOne(Interleave(Begin(me), run).w, me, bob, carol, one, two, id)
    ensures 1 !in Interleave(Begin(me), run).jobs
  {
    var w, made := TwoRooms(me, bob, carol, one, two), Makes(one, [1], [bob, carol]) + Makes(two, [2], [bob]);
    var ms := w.rooms[one].members;
    ThreeOf(me, bob, carol);
    assert [me] + [bob, carol] == [me, bob, carol] && ms[..|ms|] == ms;
    BobIsThere(me, bob);
    TwoRoomsMade(me, bob, carol, one, two);
    SendAfter(me, made, w, one, id, |ms|);
    run := made + Sends(one, id, |ms|);
  }

  /** bob's ack, sent under the other room, marks the message delivered while carol is still owed it. */
  lemma AckForAnotherRoomDelivers(me: Name, bob: Name, carol: Name, one: Id, two: Id, id: Id) returns (run: seq<Tick>)
    requires FoldDistinct([me, bob, carol]) && |one| == |two| && !EqualFold(one, two)
    ensures run != [] && TooEarly(Interleave(Begin(me), run[..|run| - 1]), Interleave(Begin(me), run), id)
  {
    var first := SendToOne(me, bob, carol, one, two, id);
    AckRun(me, first, bob, two, id);
    run := first + Acked(bob, two, id);
    ElsewhereTooSoon(Interleave(Begin(me), run[..|run| - 1]), me, bob, carol, one, two, id);
    TooEarlyIffReached(me, run[..|run| - 1], Land(1), id);
  }

  lemma BobIsThere(me: Name, bob: Name)
    ensures IsMember(Dedupe([me] + [bob]), bob)
  {
    var l := [me] + [bob];
    assert EqualFold(l[1], bob);
    DedupeMeans(l);
  }

  // ---- an ack while the send is still queueing ----

  function OneRoom(me: Name, bob: Name, carol: Name, room: Id): World {
    Start(me).(rooms := map[room := OwnRoom(me, [bob, carol], [1])])
  }

  /** Which of the two comes first, and where. */
  lemma FirstOfTwo(me: Name, bob: Name, carol: Name) returns (i: nat, o: nat)
    requires FoldDistinct([me, bob, carol])
    ensures var ms := Dedupe([me, bob, carol]);
      && i < o < |ms| && {ms[i], ms[o]} == {bob, carol}
      && (forall h :: 0 <= h < |ms| ==> ms[h] == me || h == i || h == o)
  {
    var ms, l := Dedupe([me, bob, carol]), [me, bob, carol];
    ThreeOf(me, bob, carol);
    assert bob in ms && carol in ms && !EqualFold(l[1], l[2]);
    var b :| 0 <= b < |ms| && ms[b] == bob;
    var c :| 0 <= c < |ms| && ms[c] == carol;
    i, o := if b < c then b else c, if b < c then c else b;
    forall h | 0 <= h < |ms| ensures ms[h] == me || h == i || h == o {
      assert ms[h] in ms;
      assert h < b ==> !EqualFold(ms[h], ms[b]);
      assert b < h ==> !EqualFold(ms[b], ms[h]);
      assert h < c ==> !EqualFold(ms[h], ms[c]);
      assert c < h ==> !EqualFold(ms[c], ms[h]);
    }
  }

  lemma OneEntry(me: Name, room: Id, id: Id, ms: seq<Name>, i: nat)
    requires i < |ms| && ms[i] != me && forall h :: 0 <= h < |ms| ==> ms[h] == me || h == i
    ensures EntryKeys(me, room, ms, id) == {OutboxKey(room, ms[i], id)}
  {
    forall k ensures k in EntryKeys(me, room, ms, id) <==> k == OutboxKey(room, ms[i], id) {
      EntryKeysMean(me, room, ms, id, k);
    }
  }

  /** A room of three in which the message waits for one of the other two alone. */
  ghost predicate OneWaits(w: World, me: Name, room: Id, id: Id, first: Name, other: Name) {
    && w.me == me && room in w.rooms && first in w.rooms[room].members && other in w.rooms[room].members
    && first != me && other != me && !EqualFold(first, other)
    && Known(w, id) && Lookup(w, id).room == room && Lookup(w, id).sender == me && Lookup(w, id).status == M.Queued
    && w.outbox.Keys == {OutboxKey(room, first, id)}
  }

  /** The send has just got to the first of the two, and has the other one still to go. */
  lemma HalfSent(me: Name, bob: Name, carol: Name, room: Id, id: Id)
    returns (run: seq<Tick>, first: Name, other: Name, rest: seq<Name>)
    requires FoldDistinct([me, bob, carol])
    ensures var n := Interleave(Begin(me), run);
      && OneWaits(n.w, me, room, id, first, other) && {first, other} == {bob, carol}
      && n.jobs == map[0 := Queueing(room, id, rest)] && other in rest
  {
    var w := OneRoom(me, bob, carol, room);
    var ms := w.rooms[room].members;
    ThreeOf(me, bob, carol);
    assert [me] + [bob, carol] == [me, bob, carol];
    var i, o := FirstOfTwo(me, bob, carol);
    first, other, rest := ms[i], ms[o], ms[i + 1..];
    assert rest[o - i - 1] == other;
    OneEntry(me, room, id, ms[..i + 1], i);
    RoomMade(Start(me), room, [1], [bob, carol]);
    SendAfter(me, Makes(room, [1], [bob, carol]), w, room, id, i + 1);
    run := Makes(room, [1], [bob, carol]) + Sends(room, id, i + 1);
  }

  /** The ack of the one it waits for turns the message delivered. */
  lemma OnlyEntryAcked(w: World, me: Name, room: Id, id: Id, first: Name, other: Name)
    requires Indexed(w) && OneWaits(w, me, room, id, first, other)
    ensures var w' := MarkDelivered(w, room, first, id);
      && TurnsDelivered(w, w', id) && w'.outbox == map[] && w'.rooms == w.rooms && w'.me == me
      && Lookup(w', id) == Lookup(w, id).(status := M.Delivered)
  {
    var outbox := w.outbox - {OutboxKey(room, first, id)};
    assert outbox.Keys == {} && forall k :: k !in outbox;
    ConfirmDelivers(w, room, first, id);
  }

  lemma Named(ms: seq<Name>, m: Name, me: Name)
    requires m in ms
    ensures IsMember(ms, m) && (m != me ==> Includes(ms, m, me))
  {
    var i :| 0 <= i < |ms| && ms[i] == m;
    assert EqualFold(ms[i], m);
  }

  /** The message is delivered, nothing waits, and a send may have members left. */
  ghost predicate Delivered(n: Node, me: Name, room: Id, id: Id, jobs: map<nat, Job>, ms: seq<Name>) {
    && n.w.me == me && n.w.outbox == map[] && n.jobs == jobs && room in n.w.rooms && n.w.rooms[room].members == ms
    && Known(n.w, id) && Lookup(n.w, id).status == M.Delivered && Lookup(n.w, id).room == room
  }

  lemma FirstAcks(me: Name, run: seq<Tick>, room: Id, id: Id, first: Name, other: Name)
    requires var n := Interleave(Begin(me), run); OneWaits(n.w, me, room, id, first, other) && 1 !in n.jobs
    ensures var n, run' := Interleave(Begin(me), run), run + Acked(first, room, id);
      var before, after := Interleave(Begin(me), run'[..|run'| - 1]), Interleave(Begin(me), run');
      && WriteOf(before, run'[|run'| - 1]) == Confirm(room, first, id) && TurnsDelivered(before.w, after.w, id)
      && Delivered(after, me, room, id, n.jobs, n.w.rooms[room].members)
  {
    var n := Interleave(Begin(me), run);
    Named(n.w.rooms[room].members, first, me);
    AckRun(me, run, first, room, id);
    RacesKeepGood(me, run);
    OnlyEntryAcked(n.w, me, room, id, first, other);
  }

  /** Once delivered, a member who is queued for has an entry that its ack leaves where it is. */
  ghost predicate LateEntry(n: Node, room: Id, id: Id, other: Name) {
    && Known(n.w, id) && Lookup(n.w, id).status == M.Delivered && OutboxKey(room, other, id) in n.w.outbox
    && 1 !in n.jobs && room in n.w.rooms && other in n.w.rooms[room].members
  }

  lemma RestQueued(n: Node, me: Name, room: Id, id: Id, rest: seq<Name>, ms: seq<Name>, other: Name)
    requires Delivered(n, me, room, id, map[0 := Queueing(room, id, rest)], ms)
    requires other in rest && other != me && other in ms
    ensures LateEntry(Interleave(n, Lands(0, |rest|)), room, id, other)
  {
    QueueAll(n, 0, room, id, rest, |rest|);
    var n' := Interleave(n, Lands(0, |rest|));
    assert rest[..|rest|] == rest;
    EntryKeysMean(me, room, rest, id, OutboxKey(room, other, id));
    assert OutboxKey(room, other, id) in n'.w.outbox.Keys;
  }

  lemma LateEntryStays(me: Name, run: seq<Tick>, room: Id, id: Id, other: Name)
    requires LateEntry(Interleave(Begin(me), run), room, id, other)
    ensures var run' := run + Acked(other, room, id);
      && WriteOf(Interleave(Begin(me), run'[..|run'| - 1]), run'[|run'| - 1]) == Confirm(room, other, id)
      && LateEntry(Interleave(Begin(me), run'), room, id, other)
  {
    var n := Interleave(Begin(me), run);
    Named(n.w.rooms[room].members, other, me);
    AckRun(me, run, other, room, id);
  }

  lemma AckIsEarly(me: Name, bob: Name, carol: Name, room: Id, id: Id)
    returns (early: seq<Tick>, first: Name, other: Name, rest: seq<Name>, ms: seq<Name>)
    requires FoldDistinct([me, bob, carol])
    ensures {first, other} == {bob, carol} && other in rest && other != me && other in ms && early != []
    ensures var before, after := Interleave(Begin(me), early[..|early| - 1]), Interleave(Begin(me), early);
      && WriteOf(before, early[|early| - 1]) == Confirm(room, first, id) && TooEarly(before, after, id)
      && Delivered(after, me, room, id, map[0 := Queueing(room, id, rest)], ms)
  {
    var half;
    half, first, other, rest := HalfSent(me, bob, carol, room, id);
    ms := Interleave(Begin(me), half).w.rooms[room].members;
    FirstAcks(me, half, room, id, first, other);
    early := half + Acked(first, room, id);
    Named(ms, other, me);
    assert QueuesLater(Interleave(Begin(me), early), 0, room, id, other);
  }

  /**
    One member's ack, under the message's own room, comes before the send has queued
    it for the other: the message turns delivered. The other's entry is then put, and
    its ack, when it comes, does not remove it.
   */
  lemma AckDuringSendDelivers(me: Name, bob: Name, carol: Name, room: Id, id: Id)
    returns (early: seq<Tick>, run: seq<Tick>, first: Name, other: Name)
    requires FoldDistinct([me, bob, carol])
    ensures {first, other} == {bob, carol} && early != [] && early < run
    ensures var before := Interleave(Begin(me), early[..|early| - 1]);
      && WriteOf(before, early[|early| - 1]) == Confirm(room, first, id)
      && TooEarly(before, Interleave(Begin(me), early), id)
    ensures WriteOf(Interleave(Begin(me), run[..|run| - 1]), run[|run| - 1]) == Confirm(room, other, id)
    ensures OutboxKey(room, other, id) in Interleave(Begin(me), run).w.outbox
  {
    var rest, ms;
    early, first, other, rest, ms := AckIsEarly(me, bob, carol, room, id);
    RestQueued(Interleave(Begin(me), early), me, room, id, rest, ms, other);
    Then(Begin(me), early, Lands(0, |rest|));
    LateEntryStays(me, early + Lands(0, |rest|), room, id, other);
    run := early + Lands(0, |rest|) + Acked(other, room, id);
  }

  /** The send dies in between: the message turns delivered, and the other member was never queued for. */
  lemma AckAfterDeadSendDelivers(me: Name, bob: Name, carol: Name, room: Id, id: Id)
    returns (run: seq<Tick>, first: Name, other: Name)
    requires FoldDistinct([me, bob, carol])
    ensures {first, other} == {bob, carol} && run != []
    ensures var before, after := Interleave(Begin(me), run[..|run| - 1]), Interleave(Begin(me), run);
      && WriteOf(before, run[|run| - 1]) == Confirm(room, first, id) && TurnsDelivered(before.w, after.w, id)
      && room in after.w.rooms && other in after.w.rooms[room].members
      && after.jobs == map[] && after.w.outbox == map[]
  {
    var half, rest;
    half, first, other, rest := HalfSent(me, bob, carol, room, id);
    var dead := half + [Die(0)];
    assert dead[..|dead| - 1] == half;
    FirstAcks(me, dead, room, id, first, other);
    run := dead + Acked(first, room, id);
  }
}
