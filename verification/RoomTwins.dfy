/**
  Records are kept under the room id as it is spelled, messages and outbox entries
  under its lower-case form, and ids may come in upper case. So the messages of a
  room go with any room whose id is the same but for letter case.
 */
module RoomTwins {
  import opened OptionType
  import opened ByteOrder
  import opened Names
  import opened Members
  import opened RoomDb
  import opened RoomRows
  import opened RoomRules
  import opened RoomRaces

  /** Every message of the room, and every entry of its outbox, is as it was. */
  ghost predicate Spared(w: World, w': World, room: Id) {
    && (forall id :: Known(w, id) && Lookup(w, id).room == room ==> Known(w', id) && Lookup(w', id) == Lookup(w, id))
    && (forall k :: k in w.outbox && RoomPrefix(room) <= k ==> k in w'.outbox && w'.outbox[k] == w.outbox[k])
  }

  /** The room has neither messages nor entries. */
  ghost predicate Bare(w: World, room: Id) {
    && (forall id :: Known(w, id) ==> Lookup(w, id).room != room)
    && (forall k :: k in w.outbox ==> !(RoomPrefix(room) <= k))
  }

  lemma SamePrefix(a: Id, b: Id, k: Bytes)
    requires |a| == |b| && RoomPrefix(a) <= k && RoomPrefix(b) <= k
    ensures EqualFold(a, b)
  {
    assert RoomPrefix(a)[..|a|] == Lower(a) && RoomPrefix(b)[..|b|] == Lower(b);
    assert RoomPrefix(a) == k[..|a| + 1] == RoomPrefix(b);
  }

  /** Dropping a room spares another exactly when the ids differ in more than case, or there is nothing to spare. */
  lemma DropSparesIff(w: World, id: Id, room: Id)
    requires Indexed(w) && |id| == |room|
    ensures Spared(w, DeleteRoom(w, id), room) <==> !EqualFold(id, room) || Bare(w, room)
  {
    var w' := DeleteRoom(w, id);
    if !EqualFold(id, room) {
      forall x | Known(w, x) && Lookup(w, x).room == room ensures Known(w', x) && Lookup(w', x) == Lookup(w, x) {
        DropGoes(w, id, x);
      }
      forall k | k in w.outbox && RoomPrefix(room) <= k ensures k in w'.outbox && w'.outbox[k] == w.outbox[k] {
        if RoomPrefix(id) <= k {
          SamePrefix(id, room, k);
        }
      }
    } else if !Bare(w, room) {
      assert RoomPrefix(id) == RoomPrefix(room);
      if x :| Known(w, x) && Lookup(w, x).room == room {
        DropGoes(w, id, x);
      }
    }
  }

  /** What a room event drops: the room its creator removes us from, or that we ourselves leave. */
  predicate Drops(me: Name, peer: Name, e: RoomEvent, cap: Option<Room>) {
    && cap.Some?
    && ((e.Remove? && e.actor == me && peer == cap.value.creator) || (e.Leave? && peer == me))
  }

  /**
    Any room event, with whatever it looked up and however late it is written: the
    messages and entries of a room are spared if and only if the event does not drop
    a room whose id is the same but for letter case, or there are none.
   */
  lemma EventSparesIff(w: World, peer: Name, e: RoomEvent, cap: Option<Room>, room: Id)
    requires Indexed(w) && |e.room| == |room|
    ensures Spared(w, Apply(w, Decide(w.me, FromPeer(peer, e), cap)), room) <==>
      !(Drops(w.me, peer, e, cap) && EqualFold(e.room, room)) || Bare(w, room)
  {
    var wr := Decide(w.me, FromPeer(peer, e), cap);
    DecideTarget(w.me, FromPeer(peer, e), cap);
    assert wr.DropRoom? <==> Drops(w.me, peer, e, cap);
    if wr.DropRoom? {
      DropSparesIff(w, e.room, room);
    }
  }

  /**
    An outsider's event, handled at once: it spares the messages and entries of a
    held room if and only if it is not the removal of us, by its creator, from a
    room whose id is the same but for letter case, or there are none.
   */
  lemma OutsiderSparesIff(w: World, peer: Name, e: RoomEvent, room: Id)
    requires Indexed(w) && |e.room| == |room|
    requires room in w.rooms && peer != w.rooms[room].creator && peer != w.me
    ensures Spared(w, Step(w, FromPeer(peer, e)), room) <==>
      || !(e.Remove? && e.actor == w.me && e.room in w.rooms && w.rooms[e.room].creator == peer
           && EqualFold(e.room, room))
      || Bare(w, room)
  {
    EventSparesIff(w, peer, e, Find(w, e.room), room);
  }

  lemma SparedTransitive(a: World, b: World, c: World, room: Id)
    requires Spared(a, b, room) && Spared(b, c, room)
    ensures Spared(a, c, room)
  {
  }

  lemma {:induction false} HandleAllIndexed(w: World, events: seq<(Name, RoomEvent)>)
    requires Indexed(w)
    ensures Indexed(HandleAll(w, events))
    decreases |events|
  {
    if events != [] {
      var n := |events| - 1;
      var w1 := HandleAll(w, events[..n]);
      HandleAllIndexed(w, events[..n]);
      ApplyIndexed(w1, Decide(w1.me, FromPeer(events[n].0, events[n].1), Find(w1, events[n].1.room)));
    }
  }

  /** Any sequence of outsiders' events, none of them on a room of the same id in other letter case, spares it all. */
  lemma {:induction false} OutsidersSpareMessages(w: World, events: seq<(Name, RoomEvent)>, room: Id)
    requires Indexed(w) && room in w.rooms
    requires forall i :: 0 <= i < |events| ==> events[i].0 != w.rooms[room].creator && events[i].0 != w.me
    requires forall i :: 0 <= i < |events| ==> |events[i].1.room| == |room|
    requires forall i :: 0 <= i < |events| && EqualFold(events[i].1.room, room) ==> events[i].1.room == room
    ensures Spared(w, HandleAll(w, events), room)
    decreases |events|
  {
    if events != [] {
      var n := |events| - 1;
      OutsidersSpareMessages(w, events[..n], room);
      OutsidersCannotTouchARoom(w, events[..n], room);
      HandleAllIndexed(w, events[..n]);
      var w1 := HandleAll(w, events[..n]);
      OutsiderSparesIff(w1, events[n].0, events[n].1, room);
      SparedTransitive(w, w1, HandleAll(w, events), room);
    }
  }

  // ---- a run in which it happens ----

  /** alice's room with a message of hers; then a room of mallory's under the twin id, and our removal from it. */
  function TwinRun(me: Name, alice: Name, mallory: Name, room: Id, twin: Id, id: Id): seq<Event> {
    [FromPeer(alice, Create(room, [1], [me, alice], 0)), User(AcceptInvite(room)),
     MsgFrom(alice, room, id, [104], 0, 1),
     FromPeer(mallory, Create(twin, [2], [me, mallory], 0)), FromPeer(mallory, Remove(twin, me))]
  }

  lemma TwoOf(me: Name, peer: Name)
    ensures var ms := Dedupe([me, peer]);
      && IsMember(ms, me) && IsMember(ms, peer) && |ms| <= MAX_MEMBERS
      && forall x :: IsMember(ms, x) ==> EqualFold(me, x) || EqualFold(peer, x)
  {
    var l := [me, peer];
    assert EqualFold(l[0], me) && EqualFold(l[1], peer);
    DedupeMeans(l);
  }

  function RoomOfTwo(me: Name, peer: Name, name: Bytes, state: Membership): Room {
    Room(name, Dedupe([me, peer]), peer, 0, state)
  }

  /** An invitation from a peer, into a room we do not hold. */
  lemma Invites(w: World, peer: Name, room: Id, name: Bytes)
    requires room !in w.rooms
    ensures Step(w, FromPeer(peer, Create(room, name, [w.me, peer], 0))) ==
      PutRoom(w, room, RoomOfTwo(w.me, peer, name, Invited))
  {
    TwoOf(w.me, peer);
  }

  lemma AcceptedAndTold(w: World, alice: Name, room: Id, id: Id)
    requires room in w.rooms && w.rooms[room] == RoomOfTwo(w.me, alice, [1], Invited)
    ensures var joined := PutRoom(w, room, RoomOfTwo(w.me, alice, [1], Joined));
      Step(Step(w, User(AcceptInvite(room))), MsgFrom(alice, room, id, [104], 0, 1)) ==
      AddRow(joined, Row(id, room, alice, M.In, [104], 0, M.Received, 0, 1, []))
  {
    TwoOf(w.me, alice);
    assert Step(w, User(AcceptInvite(room))) == PutRoom(w, room, RoomOfTwo(w.me, alice, [1], Joined));
  }

  /**
    Somebody who is in no room of ours, by inviting us to a room with the same id in
    other letter case and removing us from it, erases the messages of a room we have
    joined; its record stays.
   */
  lemma TwinErasesMessages(me: Name, alice: Name, mallory: Name, room: Id, twin: Id, id: Id)
    requires FoldDistinct([me, alice, mallory]) && IsId(room) && IsId(twin) && room != twin && EqualFold(room, twin)
    ensures var r := TwinRun(me, alice, mallory, room, twin, id);
      var w, w' := Run(Start(me), r[..4]), Run(Start(me), r);
      && HasJoined(w, room) && !IsMember(w.rooms[room].members, mallory) && w.rooms[room].creator == alice
      && Known(w, id) && Lookup(w, id).room == room
      && room in w'.rooms && w'.rooms[room] == w.rooms[room] && !Known(w', id)
  {
    var r := TwinRun(me, alice, mallory, room, twin, id);
    TwinBefore(me, alice, mallory, room, twin, id);
    var w := Run(Start(me), r[..4]);
    assert r[..|r| - 1] == r[..4];
    RunGood(me, r[..4]);
    assert Step(w, r[4]) == DeleteRoom(w, twin);
    DropGoes(w, twin, id);
    assert !Known(DeleteRoom(w, twin), id);
  }

  lemma TwinBefore(me: Name, alice: Name, mallory: Name, room: Id, twin: Id, id: Id)
    requires FoldDistinct([me, alice, mallory]) && room != twin
    ensures var w := Run(Start(me), TwinRun(me, alice, mallory, room, twin, id)[..4]);
      && w.me == me && HasJoined(w, room) && !IsMember(w.rooms[room].members, mallory) && w.rooms[room].creator == alice
      && twin in w.rooms && w.rooms[twin].creator == mallory
      && Known(w, id) && Lookup(w, id).room == room
  {
    var l := [me, alice, mallory];
    assert !EqualFold(l[0], l[2]) && !EqualFold(l[1], l[2]);
    var r := TwinRun(me, alice, mallory, room, twin, id);
    TwoOf(me, alice);
    assert r[..1] == [] + [r[0]] && r[..2] == r[..1] + [r[1]] && r[..3] == r[..2] + [r[2]] && r[..4] == r[..3] + [r[3]];
    SerialSnoc(Start(me), [], r[0]);
    SerialSnoc(Start(me), r[..1], r[1]);
    SerialSnoc(Start(me), r[..2], r[2]);
    SerialSnoc(Start(me), r[..3], r[3]);
    Invites(Start(me), alice, room, [1]);
    AcceptedAndTold(Run(Start(me), r[..1]), alice, room, id);
    Invites(Run(Start(me), r[..3]), mallory, twin, [2]);
  }
}
