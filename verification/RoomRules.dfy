/**
  Who may change a room: what each handler decides, given the record it looked
  up, and what follows for every run in which handlers do not overlap.
 */
module RoomRules {
  import opened OptionType
  import opened Names
  import opened Members
  import opened RoomDb
  import opened RoomRows

  // ---- decisions, whatever record was looked up ----

  ghost predicate GoodRoom(cap: Option<Room>) {
    cap.Some? ==> GoodList(cap.value.members)
  }

  lemma CreateGood(me: Name, peer: Name, e: RoomEvent, cap: Option<Room>)
    requires e.Create? && DecideCreate(me, peer, e, cap).SaveRoom?
    ensures GoodList(DecideCreate(me, peer, e, cap).record.members)
  {
    DedupeMeans(if e.members == [] then [peer, me] else e.members);
  }

  lemma MembershipGood(me: Name, peer: Name, e: RoomEvent, r: Room)
    requires GoodList(r.members) && !e.Create? && DecideMembership(me, peer, e, r).SaveRoom?
    ensures GoodList(DecideMembership(me, peer, e, r).record.members)
  {
    match e
    case Join(_, actor) => AddMemberKeeps(r.members, actor);
    case Remove(_, actor) => FilterKeeps(r.members, FoldsTo(actor));
    case Leave(_) => FilterKeeps(r.members, FoldsTo(peer));
    case Rename(_, _) =>
  }

  lemma CommandGood(me: Name, c: Command, r: Room)
    requires GoodList(r.members) && !c.NewRoom? && DecideCommand(me, c, r).SaveRoom?
    ensures GoodList(DecideCommand(me, c, r).record.members)
  {
    if c.AddMember? {
      AddMemberKeeps(r.members, c.member);
    } else if c.DropMember? {
      FilterKeeps(r.members, (m: Name) => m == c.member);
    } else if c.Quit? {
      FilterKeeps(r.members, (m: Name) => m == me);
    }
  }

  /**
    Whatever good record a handler looked up, what it saves is good: at most 32
    members, sorted, distinct up to case.
   */
  lemma DecideGood(me: Name, e: Event, cap: Option<Room>)
    requires GoodRoom(cap) && Decide(me, e, cap).SaveRoom?
    ensures GoodList(Decide(me, e, cap).record.members)
  {
    if e.FromPeer? && e.e.Create? {
      CreateGood(me, e.peer, e.e, cap);
    } else if e.FromPeer? {
      MembershipGood(me, e.peer, e.e, cap.value);
    } else if e.c.NewRoom? {
      DedupeMeans([me] + e.c.members);
    } else {
      CommandGood(me, e.c, cap.value);
    }
  }

  /** A handler writes about the room it looked up and no other. */
  lemma DecideTarget(me: Name, e: Event, cap: Option<Room>)
    ensures Decide(me, e, cap).SaveRoom? || Decide(me, e, cap).DropRoom? ==> Decide(me, e, cap).id == RoomOf(e)
  {
  }

  /**
    Whatever was looked up, a remote event saves the creator and the state it
    found; a room it did not find is its sender's, and pending.
   */
  lemma RemoteKeepsCreator(me: Name, e: Event, cap: Option<Room>)
    requires !e.User? && Decide(me, e, cap).SaveRoom?
    ensures var r := Decide(me, e, cap).record;
      && e.FromPeer?
      && (cap.Some? ==> r.creator == cap.value.creator && r.state == cap.value.state)
      && (cap.None? ==> e.e.Create? && r.creator == e.peer && r.state == Invited)
  {
  }

  /** The user accepts the room, or creates it. */
  predicate Consents(e: Event, room: Id) {
    e == User(AcceptInvite(room)) || (e.User? && e.c.NewRoom? && e.c.id == room)
  }

  /** Only consent turns a record that was found pending, or not found, into a joined one. */
  lemma OnlyConsentJoins(me: Name, e: Event, cap: Option<Room>)
    requires Decide(me, e, cap).SaveRoom? && Decide(me, e, cap).record.state == Joined
    ensures Consents(e, RoomOf(e)) || (cap.Some? && cap.value.state == Joined)
  {
    if !e.User? {
      RemoteKeepsCreator(me, e, cap);
    }
  }

  /** From anyone but the creator, at most a leave is written. */
  lemma OutsiderDecides(me: Name, peer: Name, e: RoomEvent, r: Room)
    requires peer != r.creator && peer != me
    ensures DecideEvent(me, peer, e, Some(r)).NoWrite? ||
      (e.Leave? && DecideEvent(me, peer, e, Some(r)) == SaveRoom(e.room, r.(members := RemovePeer(r.members, peer))))
  {
  }

  // ---- one handler after the other: authorisation ----

  /** Members may only have lost people from a given set of names. */
  ghost predicate LostOnly(before: seq<Name>, after: seq<Name>, gone: set<Name>) {
    && (forall m :: m in after ==> m in before)
    && (forall m :: m in before && m !in after ==> exists g :: g in gone && EqualFold(m, g))
  }

  /** Same room but for members who left of their own accord. */
  ghost predicate Untouched(r: Room, r': Room, gone: set<Name>) {
    r'.name == r.name && r'.creator == r.creator && r'.state == r.state && LostOnly(r.members, r'.members, gone)
  }

  lemma RemovedPeer(ms: seq<Name>, peer: Name)
    ensures LostOnly(ms, RemovePeer(ms, peer), {peer})
  {
    forall m ensures m in RemovePeer(ms, peer) <==> m in ms && !EqualFold(m, peer) {
      FilterMember(ms, FoldsTo(peer), m);
    }
    assert peer in {peer};
  }

  /** One event from anyone but the creator: at most that peer itself leaves. */
  lemma OutsiderEvent(w: World, peer: Name, e: RoomEvent, room: Id)
    requires room in w.rooms && peer != w.rooms[room].creator && peer != w.me
    ensures var w' := Step(w, FromPeer(peer, e));
      && w'.me == w.me && room in w'.rooms
      && Untouched(w.rooms[room], w'.rooms[room], {peer})
      && (w'.rooms[room] == w.rooms[room] ||
          (e == Leave(room) && w'.rooms[room].members == RemovePeer(w.rooms[room].members, peer)))
  {
    DecideTarget(w.me, FromPeer(peer, e), Find(w, e.room));
    if e.room == room {
      OutsiderDecides(w.me, peer, e, w.rooms[room]);
      RemovedPeer(w.rooms[room].members, peer);
    }
  }

  function Outsiders(events: seq<(Name, RoomEvent)>): set<Name> {
    set i | 0 <= i < |events| :: events[i].0
  }

  function HandleAll(w: World, events: seq<(Name, RoomEvent)>): World
    decreases |events|
  {
    if events == [] then w else
      Step(HandleAll(w, events[..|events| - 1]), FromPeer(events[|events| - 1].0, events[|events| - 1].1))
  }

  /**
    Any sequence of room events from peers other than the recorded creator, each
    handled to its end before the next, leaves the room held, with its name,
    creator and state, and with all its members but those among the senders who
    left.
   */
  lemma {:induction false} OutsidersCannotTouchARoom(w: World, events: seq<(Name, RoomEvent)>, room: Id)
    requires room in w.rooms
    requires forall i :: 0 <= i < |events| ==> events[i].0 != w.rooms[room].creator && events[i].0 != w.me
    ensures var w' := HandleAll(w, events);
      && w'.me == w.me && room in w'.rooms && Untouched(w.rooms[room], w'.rooms[room], Outsiders(events))
    decreases |events|
  {
    if events != [] {
      var n := |events| - 1;
      var before, peer, e := events[..n], events[n].0, events[n].1;
      OutsidersCannotTouchARoom(w, before, room);
      OutsiderEvent(HandleAll(w, before), peer, e, room);
      forall g | g in Outsiders(before) ensures g in Outsiders(events) {
        var i :| 0 <= i < |before| && before[i].0 == g;
        assert events[i].0 == g;
      }
      assert peer == events[n].0 && peer in Outsiders(events);
    }
  }

  /** No remote event, from the creator or anyone else, changes the creator of a room that stays held. */
  lemma CreatorIsFixed(w: World, e: Event, room: Id)
    requires room in w.rooms && !e.User? && room in Step(w, e).rooms
    ensures Step(w, e).rooms[room].creator == w.rooms[room].creator
  {
    DecideTarget(w.me, e, Find(w, RoomOf(e)));
    if Decide(w.me, e, Find(w, RoomOf(e))).SaveRoom? {
      RemoteKeepsCreator(w.me, e, Find(w, RoomOf(e)));
    }
  }

  /** However many remote events arrive, one handled after the other, a room that stays held keeps its creator. */
  lemma {:induction false} CreatorIsFixedThroughout(w: World, run: seq<Event>, room: Id)
    requires forall i :: 0 <= i < |run| ==> !run[i].User?
    requires room in w.rooms && forall i :: 0 <= i <= |run| ==> room in Run(w, run[..i]).rooms
    ensures room in Run(w, run).rooms && Run(w, run).rooms[room].creator == w.rooms[room].creator
    decreases |run|
  {
    assert run[..|run|] == run;
    if run != [] {
      var before := run[..|run| - 1];
      forall i | 0 <= i <= |before| ensures room in Run(w, before[..i]).rooms {
        assert before[..i] == run[..i];
      }
      CreatorIsFixedThroughout(w, before, room);
      CreatorIsFixed(Run(w, before), run[|run| - 1], room);
    }
  }

  /** A room becomes joined only by the user's own acceptance, or creation. */
  lemma JoinsByConsent(w: World, e: Event, room: Id)
    requires !HasJoined(w, room) && HasJoined(Step(w, e), room)
    ensures Consents(e, room)
  {
    DecideTarget(w.me, e, Find(w, RoomOf(e)));
    OnlyConsentJoins(w.me, e, Find(w, RoomOf(e)));
  }

  /** In every such run: a joined room was accepted or created by the user, and has been held as joined ever since. */
  lemma {:induction false} JoinedByConsent(me: Name, run: seq<Event>, room: Id) returns (i: nat)
    requires HasJoined(Run(Start(me), run), room)
    ensures i < |run| && Consents(run[i], room)
    ensures forall j :: i < j <= |run| ==> HasJoined(Run(Start(me), run[..j]), room)
    decreases |run|
  {
    var n := |run| - 1;
    assert run[..|run|] == run;
    if HasJoined(Run(Start(me), run[..n]), room) {
      i := JoinedByConsent(me, run[..n], room);
      forall j | i < j <= n ensures HasJoined(Run(Start(me), run[..j]), room) {
        assert run[..n][..j] == run[..j];
      }
    } else {
      i := n;
      JoinsByConsent(Run(Start(me), run[..n]), run[n], room);
    }
  }

  // ---- what the user's own commands may do ----

  /** In a room somebody else created, a command leaves name and creator alone and removes at most ourselves. */
  lemma GuestsOnlyLeave(w: World, c: Command, room: Id)
    requires room in w.rooms && w.rooms[room].creator != w.me && room in Step(w, User(c)).rooms
    ensures var r, r' := w.rooms[room], Step(w, User(c)).rooms[room];
      && r'.name == r.name && r'.creator == r.creator
      && (r'.members == r.members || (c == Quit(room) && r'.members == RemoveExact(r.members, w.me)))
  {
    DecideTarget(w.me, User(c), Find(w, RoomOf(User(c))));
  }

  lemma {:induction false} FilterConcat(a: seq<Name>, b: seq<Name>, drop: Name -> bool)
    ensures Filter(a + b, drop) == Filter(a, drop) + Filter(b, drop)
    decreases |b|
  {
    if b == [] {
      assert a + b == a;
    } else {
      assert (a + b)[..|a + b| - 1] == a + b[..|b| - 1];
      FilterConcat(a, b[..|b| - 1], drop);
    }
  }

  /** The heir is the first of those who stay. */
  lemma {:induction false} HeirIsFirst(ms: seq<Name>, me: Name)
    ensures Heir(ms, me) == if RemoveExact(ms, me) == [] then None else Some(RemoveExact(ms, me)[0])
  {
    if ms != [] {
      HeirIsFirst(ms[1..], me);
      assert ms == [ms[0]] + ms[1..];
      var first: seq<Name> := [ms[0]];
      assert first[..0] == [];
      FilterConcat(first, ms[1..], (m: Name) => m == me);
    }
  }

  lemma QuitDecides(me: Name, room: Id, r: Room)
    requires r.creator == me && me in r.members
    ensures var rest := RemoveExact(r.members, me);
      DecideQuit(me, room, r) ==
      if rest == [] then DropRoom(room) else SaveRoom(room, r.(members := rest, creator := rest[0]))
  {
    var ms, rest := r.members, RemoveExact(r.members, me);
    HeirIsFirst(ms, me);
    assert EqualFold(me, me) && IsMember(ms, me);
    if rest != [] {
      FilterMember(ms, (x: Name) => x == me, rest[0]);
      assert rest[0] in ms && rest[0] != me;
    }
  }

  /** A creator who leaves hands the room to the first of the others, or deletes it when there are none. */
  lemma LeavingHandsOver(w: World, room: Id)
    requires room in w.rooms && w.rooms[room].creator == w.me && w.me in w.rooms[room].members
    ensures var w', ms := Step(w, User(Quit(room))), w.rooms[room].members;
      && (room in w'.rooms <==> exists m :: m in ms && m != w.me)
      && (room in w'.rooms ==>
          var r' := w'.rooms[room];
          && r'.members != [] && r'.creator == r'.members[0] && r'.name == w.rooms[room].name
          && forall m :: m in r'.members <==> m in ms && m != w.me)
  {
    var ms := w.rooms[room].members;
    var rest := RemoveExact(ms, w.me);
    QuitDecides(w.me, room, w.rooms[room]);
    forall m ensures m in rest <==> m in ms && m != w.me {
      FilterMember(ms, (x: Name) => x == w.me, m);
    }
    if rest != [] {
      assert rest[0] in rest;
    }
  }

  // ---- what holds in every state, one handler after the other ----

  ghost predicate RoomsGood(w: World) {
    forall id :: id in w.rooms ==> GoodList(w.rooms[id].members)
  }

  lemma ApplyRoomsGood(w: World, wr: Write)
    requires RoomsGood(w) && (wr.SaveRoom? ==> GoodList(wr.record.members))
    ensures RoomsGood(Apply(w, wr))
  {
  }

  lemma StepGood(w: World, e: Event)
    requires RoomsGood(w) && Indexed(w) && Held(w)
    ensures RoomsGood(Step(w, e)) && Indexed(Step(w, e)) && Held(Step(w, e))
  {
    var cap := Find(w, RoomOf(e));
    var wr := Decide(w.me, e, cap);
    if wr.SaveRoom? {
      DecideGood(w.me, e, cap);
    }
    ApplyRoomsGood(w, wr);
    ApplyIndexed(w, wr);
    WriteKeepsHeldIff(w, wr);
    DecideHarmless(w, e);
  }

  /** A decision on the record as it stands is harmless. */
  lemma DecideHarmless(w: World, e: Event)
    requires Held(w)
    ensures Harmless(w, Decide(w.me, e, Find(w, RoomOf(e))))
  {
    var cap := Find(w, RoomOf(e));
    var wr := Decide(w.me, e, cap);
    if wr.SaveRoom? && wr.record.state != Joined && HasRows(w, wr.id) {
      DecideTarget(w.me, e, cap);
      var k :| k in w.rows && w.rows[k].room == wr.id;
      assert HasJoined(w, w.rows[k].room);
      StaysJoined(w.me, e, cap);
    }
  }

  /** No handler saves as pending a room that it found joined. */
  lemma StaysJoined(me: Name, e: Event, cap: Option<Room>)
    requires cap.Some? && cap.value.state == Joined && Decide(me, e, cap).SaveRoom?
    ensures Decide(me, e, cap).record.state == Joined
  {
  }

  /** In every state: good member lists, rows and index in agreement, every message in a room we joined. */
  lemma {:induction false} RunGood(me: Name, run: seq<Event>)
    ensures var w := Run(Start(me), run); RoomsGood(w) && Indexed(w) && Held(w)
    decreases |run|
  {
    if run != [] {
      RunGood(me, run[..|run| - 1]);
      StepGood(Run(Start(me), run[..|run| - 1]), run[|run| - 1]);
    }
  }
}
