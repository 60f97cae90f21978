/**
  What overlapping handlers can break, when exactly a late write breaks it, and
  runs in which it happens: the record is saved as it was looked up, whatever has
  become of the room since.
 */
module RoomConflicts {
  import opened OptionType
  import opened Names
  import opened Members
  import opened RoomDb
  import opened RoomRows
  import opened RoomRules
  import opened RoomRaces

  // ---- exactly when a late write does harm ----

  /** The handler behind j looked up cap for e. */
  ghost predicate Waits(n: Node, j: nat, e: Event, cap: Option<Room>) {
    j in n.jobs && n.jobs[j] == Looked(e, cap)
  }

  /** A message stored late is in a joined room if and only if the room is still joined then. */
  lemma LatePostIff(n: Node, j: nat, e: Event, cap: Option<Room>)
    requires Waits(n, j, e, cap) && Indexed(n.w) && Held(n.w) && Decide(n.w.me, e, cap).Post?
    requires Decide(n.w.me, e, cap).row.id !in n.w.idx
    ensures Held(Advance(n, Land(j)).w) <==> HasJoined(n.w, Decide(n.w.me, e, cap).row.room)
  {
    WriteKeepsHeldIff(n.w, Decide(n.w.me, e, cap));
  }

  /** Whether a handler saves the room as joined: it found it so, or the user consents. */
  ghost predicate SavesJoined(e: Event, cap: Option<Room>) {
    (cap.Some? && cap.value.state == Joined) || Consents(e, RoomOf(e))
  }

  lemma SavedState(me: Name, e: Event, cap: Option<Room>)
    requires Decide(me, e, cap).SaveRoom?
    ensures Decide(me, e, cap).record.state == Joined <==> SavesJoined(e, cap)
  {
    if Decide(me, e, cap).record.state == Joined {
      OnlyConsentJoins(me, e, cap);
    } else if cap.Some? && cap.value.state == Joined {
      StaysJoined(me, e, cap);
    }
  }

  /**
    A record saved late keeps every message in a joined room if and only if the
    room has none, or was joined when looked up, or the user consents.
   */
  lemma LateSaveIff(n: Node, j: nat, e: Event, cap: Option<Room>)
    requires Waits(n, j, e, cap) && Indexed(n.w) && Held(n.w) && Decide(n.w.me, e, cap).SaveRoom?
    ensures Held(Advance(n, Land(j)).w) <==> !HasRows(n.w, RoomOf(e)) || SavesJoined(e, cap)
  {
    WriteKeepsHeldIff(n.w, Decide(n.w.me, e, cap));
    DecideTarget(n.w.me, e, cap);
    SavedState(n.w.me, e, cap);
  }

  /**
    With or without messages: a room joined now is joined after a late write if
    and only if the write does not drop it, and what it saves was joined when
    looked up or is the user's consent.
   */
  lemma LateStateIff(n: Node, j: nat, e: Event, cap: Option<Room>)
    requires Waits(n, j, e, cap) && HasJoined(n.w, RoomOf(e))
    ensures var wr := Decide(n.w.me, e, cap);
      HasJoined(Advance(n, Land(j)).w, RoomOf(e)) <==> !wr.DropRoom? && (wr.SaveRoom? ==> SavesJoined(e, cap))
  {
    DecideTarget(n.w.me, e, cap);
    if Decide(n.w.me, e, cap).SaveRoom? {
      SavedState(n.w.me, e, cap);
    }
  }

  /** Whom a remote event that saves a room saves as its creator: the one it found, or else its sender. */
  function SavedCreator(e: Event, cap: Option<Room>): Name
    requires e.FromPeer?
  {
    if cap.Some? then cap.value.creator else e.peer
  }

  /**
    Any remote event, with whatever it looked up: a room held now keeps its creator
    through the late write if and only if the write does not drop it, and what it
    saves names that creator.
   */
  lemma LateCreatorIff(n: Node, j: nat, peer: Name, e: RoomEvent, cap: Option<Room>)
    requires Waits(n, j, FromPeer(peer, e), cap) && e.room in n.w.rooms
    ensures var wr, w' := Decide(n.w.me, FromPeer(peer, e), cap), Advance(n, Land(j)).w;
      e.room in w'.rooms && w'.rooms[e.room].creator == n.w.rooms[e.room].creator <==>
      !wr.DropRoom? && (wr.SaveRoom? ==> SavedCreator(FromPeer(peer, e), cap) == n.w.rooms[e.room].creator)
  {
    DecideTarget(n.w.me, FromPeer(peer, e), cap);
    if Decide(n.w.me, FromPeer(peer, e), cap).SaveRoom? {
      RemoteKeepsCreator(n.w.me, FromPeer(peer, e), cap);
    }
  }

  /** Envelopes that are no room events never save or drop a room, however late. */
  lemma LateTraffic(n: Node, j: nat, e: Event, cap: Option<Room>)
    requires Waits(n, j, e, cap) && !e.FromPeer? && !e.User?
    ensures Advance(n, Land(j)).w.rooms == n.w.rooms
  {
    ApplyKeepsRooms(n.w, Decide(n.w.me, e, cap));
  }

  lemma ApplyKeepsRooms(w: World, wr: Write)
    requires !wr.SaveRoom? && !wr.DropRoom?
    ensures Apply(w, wr).rooms == w.rooms
  {
  }

  /**
    A late write makes a room joined without the user's consent if and only if it
    saves a record that was joined when looked up.
   */
  lemma RevivesIff(n: Node, j: nat, e: Event, cap: Option<Room>)
    requires Waits(n, j, e, cap) && !HasJoined(n.w, RoomOf(e)) && !Consents(e, RoomOf(e))
    ensures HasJoined(Advance(n, Land(j)).w, RoomOf(e)) <==>
      cap.Some? && cap.value.state == Joined && Decide(n.w.me, e, cap).SaveRoom?
  {
    var wr := Decide(n.w.me, e, cap);
    DecideTarget(n.w.me, e, cap);
    if wr.SaveRoom? && wr.record.state == Joined {
      OnlyConsentJoins(n.w.me, e, cap);
    }
    if wr.SaveRoom? && cap.Some? && cap.value.state == Joined {
      StaysJoined(n.w.me, e, cap);
    }
  }

  /** Two records agree on everything but the membership of one peer. */
  ghost predicate AgreeBut(r: Room, cap: Room, peer: Name) {
    && cap.name == r.name && cap.creator == r.creator && cap.state == r.state
    && forall m :: !EqualFold(m, peer) ==> (m in cap.members <==> m in r.members)
  }

  /**
    A late leave leaves the room as it is but for the leaver if and only if
    nothing else has changed since it looked.
   */
  lemma LateLeaveIff(n: Node, j: nat, peer: Name, room: Id, cap: Room)
    requires Waits(n, j, FromPeer(peer, Leave(room)), Some(cap)) && room in n.w.rooms
    requires peer != n.w.me && IsMember(cap.members, peer)
    ensures var w' := Advance(n, Land(j)).w;
      && room in w'.rooms
      && (Untouched(n.w.rooms[room], w'.rooms[room], {peer}) <==> AgreeBut(n.w.rooms[room], cap, peer))
  {
    var r, r' := n.w.rooms[room], Advance(n, Land(j)).w.rooms[room];
    assert r' == cap.(members := RemovePeer(cap.members, peer));
    forall m ensures m in r'.members <==> m in cap.members && !EqualFold(m, peer) {
      FilterMember(cap.members, FoldsTo(peer), m);
    }
    LostOnlyIff(r.members, cap.members, r'.members, peer);
  }

  /**
    Any late event of a peer who is not the creator now, whatever it looked up: the
    room stays held and as it is but for that peer if and only if nothing is
    written, or it is a leave and nothing else has changed since it looked. So a
    create, join, remove or rename by somebody who is no longer, or never was, the
    creator does harm exactly when it is written at all.
   */
  lemma LateOutsiderIff(n: Node, j: nat, peer: Name, e: RoomEvent, cap: Option<Room>)
    requires Waits(n, j, FromPeer(peer, e), cap) && e.room in n.w.rooms
    requires peer != n.w.me && peer != n.w.rooms[e.room].creator
    ensures var w' := Advance(n, Land(j)).w;
      e.room in w'.rooms && Untouched(n.w.rooms[e.room], w'.rooms[e.room], {peer}) <==>
      Decide(n.w.me, FromPeer(peer, e), cap).NoWrite? || (e.Leave? && AgreeBut(n.w.rooms[e.room], cap.value, peer))
  {
    var wr := Decide(n.w.me, FromPeer(peer, e), cap);
    DecideTarget(n.w.me, FromPeer(peer, e), cap);
    if wr.SaveRoom? && e.Leave? {
      LateLeaveIff(n, j, peer, e.room, cap.value);
    } else if wr.SaveRoom? {
      OnlyCreatorSaves(n.w.me, peer, e, cap);
    }
  }

  /** What is not a leave is saved only with its sender for a creator. */
  lemma OnlyCreatorSaves(me: Name, peer: Name, e: RoomEvent, cap: Option<Room>)
    requires Decide(me, FromPeer(peer, e), cap).SaveRoom? && !e.Leave?
    ensures Decide(me, FromPeer(peer, e), cap).record.creator == peer
  {
  }

  lemma LostOnlyIff(before: seq<Name>, seen: seq<Name>, after: seq<Name>, peer: Name)
    requires forall m :: m in after <==> m in seen && !EqualFold(m, peer)
    ensures LostOnly(before, after, {peer}) <==> forall m :: !EqualFold(m, peer) ==> (m in seen <==> m in before)
  {
    if LostOnly(before, after, {peer}) {
      forall m | !EqualFold(m, peer) ensures m in seen <==> m in before {
        assert m in seen ==> m in after;
      }
    }
    if forall m :: !EqualFold(m, peer) ==> (m in seen <==> m in before) {
      forall m | m in before && m !in after ensures exists g :: g in {peer} && EqualFold(m, g) {
        assert peer in {peer} && EqualFold(m, peer);
      }
    }
  }

  // ---- runs in which it happens ----

  /** alice invites us and the others, and we accept or not. */
  function Founding(room: Id, alice: Name, ms: seq<Name>, accept: bool): seq<Tick> {
    [Look(0, FromPeer(alice, Create(room, [], ms, 0))), Land(0)] +
    if accept then [Look(0, User(AcceptInvite(room))), Land(0)] else []
  }

  function Founded(me: Name, room: Id, alice: Name, ms: seq<Name>, state: Membership): Node {
    Begin(me).(w := Start(me).(rooms := map[room := Room([], Dedupe(ms), alice, 0, state)]))
  }

  lemma Invitation(me: Name, room: Id, alice: Name, ms: seq<Name>)
    requires ms != [] && |ms| <= MAX_MEMBERS && IsMember(ms, me)
    ensures var create, agree := FromPeer(alice, Create(room, [], ms, 0)), User(AcceptInvite(room));
      && Step(Start(me), create) == Founded(me, room, alice, ms, Invited).w
      && Step(Step(Start(me), create), agree) == Founded(me, room, alice, ms, Joined).w
  {
    DedupeMeans(ms);
  }

  lemma FoundingRun(me: Name, room: Id, alice: Name, ms: seq<Name>, accept: bool)
    requires ms != [] && |ms| <= MAX_MEMBERS && IsMember(ms, me)
    ensures Interleave(Begin(me), Founding(room, alice, ms, accept)) ==
      Founded(me, room, alice, ms, if accept then Joined else Invited)
  {
    var create, agree := FromPeer(alice, Create(room, [], ms, 0)), User(AcceptInvite(room));
    Invitation(me, room, alice, ms);
    Whole(Start(me), create);
    if accept {
      Whole(Step(Start(me), create), agree);
      Then(Begin(me), [Look(0, create), Land(0)], [Look(0, agree), Land(0)]);
    } else {
      assert Founding(room, alice, ms, accept) == [Look(0, create), Land(0)];
    }
  }

  /** One handler looks, another runs from lookup to write, and then the first one writes. */
  function Overtaken(slow: Event, quick: Event): seq<Tick> {
    [Look(1, slow), Look(2, quick)] + [Land(2), Land(1)]
  }

  lemma OvertakenRun(n: Node, slow: Event, quick: Event)
    requires n.jobs == map[] && !slow.Queued? && !quick.Queued? && !(quick.User? && quick.c.Send?)
    ensures Interleave(n, [Look(1, slow), Look(2, quick), Land(2)]).w == Step(n.w, quick)
    ensures Interleave(n, Overtaken(slow, quick)).w ==
      Apply(Step(n.w, quick), Decide(n.w.me, slow, Find(n.w, RoomOf(slow))))
  {
    var looks := [Look(1, slow), Look(2, quick)];
    Two(n, looks[0], looks[1]);
    var n2 := Interleave(n, looks);
    var slowCap, quickCap := Find(n.w, RoomOf(slow)), Find(n.w, RoomOf(quick));
    assert n2 == Node(n.w, map[1 := Looked(slow, slowCap), 2 := Looked(quick, quickCap)]);
    assert [Look(1, slow), Look(2, quick), Land(2)][..2] == looks;
    Two(n2, Land(2), Land(1));
    Then(n, looks, [Land(2), Land(1)]);
    ApplyKeepsMe(n.w, Decide(n.w.me, quick, Find(n.w, RoomOf(quick))));
  }

  /** The same at the end of a run: the states before and after the late write. */
  lemma OvertakenAfter(me: Name, first: seq<Tick>, slow: Event, quick: Event) returns (run: seq<Tick>)
    requires Interleave(Begin(me), first).jobs == map[]
    requires !slow.Queued? && !quick.Queued? && !(quick.User? && quick.c.Send?)
    ensures run == first + Overtaken(slow, quick)
    ensures var w := Interleave(Begin(me), first).w;
      && Interleave(Begin(me), run[..|run| - 1]).w == Step(w, quick)
      && Interleave(Begin(me), run).w == Apply(Step(w, quick), Decide(w.me, slow, Find(w, RoomOf(slow))))
  {
    var n := Interleave(Begin(me), first);
    run := first + Overtaken(slow, quick);
    assert run[..|run| - 1] == first + [Look(1, slow), Look(2, quick), Land(2)];
    OvertakenRun(n, slow, quick);
    Then(Begin(me), first, Overtaken(slow, quick));
    Then(Begin(me), first, [Look(1, slow), Look(2, quick), Land(2)]);
  }

  ghost predicate Apart(me: Name, alice: Name, bob: Name, carol: Name) {
    FoldDistinct([me, alice, bob, carol])
  }

  lemma Company(me: Name, alice: Name, bob: Name, carol: Name)
    requires Apart(me, alice, bob, carol)
    ensures var ms := Dedupe([me, alice, bob, carol]);
      IsMember(ms, me) && IsMember(ms, alice) && IsMember(ms, bob) && IsMember(ms, carol)
    ensures alice != bob && alice != me && bob != me && carol != me && !EqualFold(bob, carol)
  {
    var l := [me, alice, bob, carol];
    assert EqualFold(l[0], me) && EqualFold(l[1], alice) && EqualFold(l[2], bob) && EqualFold(l[3], carol);
    assert !EqualFold(l[0], l[1]) && !EqualFold(l[0], l[2]) && !EqualFold(l[0], l[3]);
    assert !EqualFold(l[1], l[2]) && !EqualFold(l[2], l[3]);
    DedupeMeans(l);
  }

  /** alice has invited us all, and we have answered as state says. */
  lemma Gathered(me: Name, alice: Name, bob: Name, carol: Name, room: Id, accept: bool) returns (run: seq<Tick>)
    requires Apart(me, alice, bob, carol)
    ensures Interleave(Begin(me), run) ==
      Founded(me, room, alice, [me, alice, bob, carol], if accept then Joined else Invited)
  {
    var ms := [me, alice, bob, carol];
    assert IsMember(ms, me) by {
      assert EqualFold(ms[0], me);
    }
    FoundingRun(me, room, alice, ms, accept);
    run := Founding(room, alice, ms, accept);
  }

  /** bob's message is checked, alice removes us, and the message is stored: it belongs to no room. */
  lemma MessageWithoutARoom(me: Name, alice: Name, bob: Name, carol: Name, room: Id, id: Id) returns (run: seq<Tick>)
    requires Apart(me, alice, bob, carol)
    ensures var w := Interleave(Begin(me), run).w;
      Known(w, id) && Lookup(w, id).room == room && room !in w.rooms && !Held(w)
  {
    Company(me, alice, bob, carol);
    run := Gathered(me, alice, bob, carol, room, true);
    run := OvertakenAfter(me, run, MsgFrom(bob, room, id, [104], 0, 1), FromPeer(alice, Remove(room, me)));
    var w := Interleave(Begin(me), run).w;
    assert w.rows[w.idx[id]].room == room;
  }

  /** bob is leaving, alice removes carol, and bob's leave is saved: carol is back, although only bob wrote. */
  lemma RemovedMemberReturns(me: Name, alice: Name, bob: Name, carol: Name, room: Id) returns (run: seq<Tick>)
    requires Apart(me, alice, bob, carol)
    ensures run != []
    ensures var before, after := Interleave(Begin(me), run[..|run| - 1]).w, Interleave(Begin(me), run).w;
      && room in before.rooms && room in after.rooms && !IsMember(before.rooms[room].members, carol)
      && IsMember(after.rooms[room].members, carol) && before.rooms[room].creator == alice
      && !Untouched(before.rooms[room], after.rooms[room], {bob})
  {
    Company(me, alice, bob, carol);
    run := Gathered(me, alice, bob, carol, room, true);
    run := OvertakenAfter(me, run, FromPeer(bob, Leave(room)), FromPeer(alice, Remove(room, carol)));
    WithAndWithout(Dedupe([me, alice, bob, carol]), bob, carol);
  }

  lemma WithAndWithout(ms: seq<Name>, bob: Name, carol: Name)
    requires IsMember(ms, carol) && !EqualFold(bob, carol)
    ensures !IsMember(RemovePeer(ms, carol), carol) && IsMember(RemovePeer(ms, bob), carol)
    ensures !LostOnly(RemovePeer(ms, carol), RemovePeer(ms, bob), {bob})
  {
    var i :| 0 <= i < |ms| && EqualFold(ms[i], carol);
    forall m ensures m in RemovePeer(ms, carol) <==> m in ms && !EqualFold(m, carol) {
      FilterMember(ms, FoldsTo(carol), m);
    }
    FilterMember(ms, FoldsTo(bob), ms[i]);
    var kept, lost := RemovePeer(ms, bob), RemovePeer(ms, carol);
    var j :| 0 <= j < |kept| && kept[j] == ms[i];
    assert EqualFold(kept[j], carol);
    forall k | 0 <= k < |lost| ensures !EqualFold(lost[k], carol) {
      assert lost[k] in lost;
    }
    assert ms[i] in kept && ms[i] !in lost;
  }

  /** bob is leaving, alice removes us, and bob's leave is saved: the deleted room is back, and joined. */
  lemma DeletedRoomReturns(me: Name, alice: Name, bob: Name, carol: Name, room: Id) returns (run: seq<Tick>)
    requires Apart(me, alice, bob, carol)
    ensures run != []
    ensures var before, after := Interleave(Begin(me), run[..|run| - 1]).w, Interleave(Begin(me), run).w;
      room !in before.rooms && HasJoined(after, room)
  {
    Company(me, alice, bob, carol);
    run := Gathered(me, alice, bob, carol, room, true);
    run := OvertakenAfter(me, run, FromPeer(bob, Leave(room)), FromPeer(alice, Remove(room, me)));
  }

  /** bob is leaving, we accept, and bob's leave is saved: the room is pending again. */
  lemma AcceptanceIsLost(me: Name, alice: Name, bob: Name, carol: Name, room: Id) returns (run: seq<Tick>)
    requires Apart(me, alice, bob, carol)
    ensures run != []
    ensures var before, after := Interleave(Begin(me), run[..|run| - 1]).w, Interleave(Begin(me), run).w;
      HasJoined(before, room) && room in after.rooms && after.rooms[room].state == Invited
  {
    Company(me, alice, bob, carol);
    run := Gathered(me, alice, bob, carol, room, false);
    run := OvertakenAfter(me, run, FromPeer(bob, Leave(room)), User(AcceptInvite(room)));
  }

  /** bob's create looks before we hold the room, alice's create is handled, and bob's is saved: the room is his. */
  lemma RoomIsSeized(me: Name, alice: Name, bob: Name, carol: Name, room: Id) returns (run: seq<Tick>)
    requires Apart(me, alice, bob, carol)
    ensures run != []
    ensures var before, after := Interleave(Begin(me), run[..|run| - 1]).w, Interleave(Begin(me), run).w;
      && room in before.rooms && before.rooms[room].creator == alice && before.rooms[room].name == [1]
      && room in after.rooms && after.rooms[room].creator == bob && after.rooms[room].name == [2]
  {
    var ms := [me, alice, bob, carol];
    Company(me, alice, bob, carol);
    DedupeMeans(ms);
    assert Interleave(Begin(me), []) == Begin(me);
    run := OvertakenAfter(me, [], FromPeer(bob, Create(room, [2], ms, 0)), FromPeer(alice, Create(room, [1], ms, 0)));
  }
}
