/**
  What each room event and each command does when it is handled at once: who has to
  send it, what it changes, and that it changes nothing else. People are counted up
  to case, with the source's own limits.
 */
module RoomEffects {
  import opened ByteOrder
  import opened Names
  import opened Sorting
  import opened Members
  import opened RoomDb
  import opened RoomRows
  import opened Reactions

  /** The room's record is r, and everything else is as it was. */
  ghost predicate Becomes(w: World, w': World, room: Id, r: Room) {
    w' == w.(rooms := w.rooms[room := r])
  }

  // ---- what the creator of a room may send ----

  /** The creator's rename gives the room that name, and changes nothing else. */
  lemma CreatorRenames(w: World, room: Id, name: Bytes)
    requires room in w.rooms
    ensures var r := w.rooms[room];
      Becomes(w, Step(w, FromPeer(r.creator, Rename(room, name))), room, r.(name := name))
  {
  }

  /** A sorted list of the same names and one more. */
  ghost predicate With(ms: seq<Name>, ms': seq<Name>, name: Name) {
    multiset(ms') == multiset(ms) + multiset{name} && Sorted(ms', Less)
  }

  lemma AddedIs(ms: seq<Name>, name: Name)
    ensures With(ms, SortNames(ms + [name]), name)
  {
    SortKeeps(ms + [name]);
  }

  /**
    The creator's join puts the newcomer among the members, in order, unless they are
    there already, are the creator, or there are 32; nothing else changes.
   */
  lemma CreatorAdds(w: World, room: Id, actor: Name)
    requires room in w.rooms
    ensures var r := w.rooms[room];
      var w' := Step(w, FromPeer(r.creator, Join(room, actor)));
      if Lower(actor) in People(r.members) || EqualFold(actor, r.creator) || |r.members| >= 32 then w' == w else
        && room in w'.rooms && Becomes(w, w', room, r.(members := w'.rooms[room].members))
        && With(r.members, w'.rooms[room].members, actor)
  {
    PeopleAre(w.rooms[room].members, actor);
    AddedIs(w.rooms[room].members, actor);
  }

  /** A list without those who fold to a name, and otherwise as it was. */
  ghost predicate Without(ms: seq<Name>, ms': seq<Name>, name: Name) {
    && (forall m :: m in ms' <==> m in ms && !EqualFold(m, name))
    && (GoodList(ms) ==> GoodList(ms'))
  }

  lemma RemovedAre(ms: seq<Name>, name: Name)
    ensures Without(ms, RemovePeer(ms, name), name)
  {
    forall m ensures m in RemovePeer(ms, name) <==> m in ms && !EqualFold(m, name) {
      FilterMember(ms, FoldsTo(name), m);
    }
    if GoodList(ms) {
      FilterKeeps(ms, FoldsTo(name));
    }
  }

  /**
    The creator's remove takes that member, in whatever spelling, off the list and
    nobody else; of us it deletes the room; of somebody who is no member, nothing.
   */
  lemma CreatorRemoves(w: World, room: Id, actor: Name)
    requires room in w.rooms
    ensures var r := w.rooms[room];
      var w' := Step(w, FromPeer(r.creator, Remove(room, actor)));
      if actor == w.me then w' == DeleteRoom(w, room)
      else if Lower(actor) !in People(r.members) then w' == w else
        && room in w'.rooms && Becomes(w, w', room, r.(members := w'.rooms[room].members))
        && Without(r.members, w'.rooms[room].members, actor)
  {
    PeopleAre(w.rooms[room].members, actor);
    RemovedAre(w.rooms[room].members, actor);
  }

  /** A good list of the people given, in spellings that were given. */
  ghost predicate ListOf(ms: seq<Name>, given: seq<Name>) {
    GoodList(ms) && People(ms) == People(given) && forall m :: m in ms ==> m in given
  }

  /** Whom a create is about: those it lists, or its sender and us. */
  function Listed(me: Name, peer: Name, ms: seq<Name>): seq<Name> {
    if ms == [] then [peer, me] else ms
  }

  /** A create is taken up only if it is about us and at most 32 people. */
  ghost predicate Acceptable(me: Name, given: seq<Name>) {
    Lower(me) in People(given) && |People(given)| <= 32
  }

  lemma DedupedIs(me: Name, given: seq<Name>)
    ensures Acceptable(me, given) <==> IsMember(Dedupe(given), me) && |Dedupe(given)| <= 32
    ensures Acceptable(me, given) ==> ListOf(Dedupe(given), given)
  {
    DedupePeople(given);
    DedupeMeans(given);
    PeopleAre(Dedupe(given), me);
  }

  /** The creator's repeated create sets name and people to those given, and changes nothing else. */
  lemma CreatorRecreates(w: World, room: Id, name: Bytes, ms: seq<Name>, ts: int)
    requires room in w.rooms
    ensures var r := w.rooms[room];
      var given, w' := Listed(w.me, r.creator, ms), Step(w, FromPeer(r.creator, Create(room, name, ms, ts)));
      if !Acceptable(w.me, given) then w' == w else
        && room in w'.rooms && ListOf(w'.rooms[room].members, given)
        && Becomes(w, w', room, r.(name := name, members := w'.rooms[room].members))
  {
    DedupedIs(w.me, Listed(w.me, w.rooms[room].creator, ms));
  }

  /** A create of a room we do not hold is an invitation: the room is its sender's, with those people, and pending. */
  lemma CreateInvites(w: World, peer: Name, room: Id, name: Bytes, ms: seq<Name>, ts: int)
    requires room !in w.rooms
    ensures var given, w' := Listed(w.me, peer, ms), Step(w, FromPeer(peer, Create(room, name, ms, ts)));
      if !Acceptable(w.me, given) then w' == w else
        && room in w'.rooms && ListOf(w'.rooms[room].members, given)
        && Becomes(w, w', room, Room(name, w'.rooms[room].members, peer, ts, Invited))
  {
    DedupedIs(w.me, Listed(w.me, peer, ms));
  }

  // ---- what others may send ----

  /** Whoever leaves is taken off the list and nobody else; who is no member changes nothing. */
  lemma PeerLeaves(w: World, peer: Name, room: Id)
    requires room in w.rooms && peer != w.me
    ensures var r, w' := w.rooms[room], Step(w, FromPeer(peer, Leave(room)));
      if Lower(peer) !in People(r.members) then w' == w else
        && room in w'.rooms && Becomes(w, w', room, r.(members := w'.rooms[room].members))
        && Without(r.members, w'.rooms[room].members, peer)
  {
    PeopleAre(w.rooms[room].members, peer);
    RemovedAre(w.rooms[room].members, peer);
  }

  /** A leave under our own name deletes the room. */
  lemma OwnLeaveDeletes(w: World, room: Id)
    requires room in w.rooms
    ensures Step(w, FromPeer(w.me, Leave(room))) == DeleteRoom(w, room)
  {
  }

  /** Anything else from somebody who is not the creator, or about a room we do not hold, changes nothing at all. */
  lemma NobodyElseMatters(w: World, peer: Name, e: RoomEvent)
    requires if e.room in w.rooms then peer != w.rooms[e.room].creator && !e.Leave? else !e.Create?
    ensures Step(w, FromPeer(peer, e)) == w
  {
  }

  // ---- what the user may do ----

  /** A new room has the given name, us and the people given, and is ours and joined. */
  lemma MakesRoom(w: World, id: Id, name: Bytes, others: seq<Name>, ts: int)
    ensures var w' := Step(w, User(NewRoom(id, name, others, ts)));
      if name == [] || !(1 <= |others| <= 31) || id in w.rooms then w' == w else
        && id in w'.rooms && ListOf(w'.rooms[id].members, [w.me] + others)
        && Becomes(w, w', id, Room(name, w'.rooms[id].members, w.me, ts, Joined))
  {
    var given := [w.me] + others;
    DedupePeople(given);
    DedupeMeans(given);
  }

  /** The owner adds somebody new while there are fewer than 32; nobody else adds anybody. */
  lemma OwnerAdds(w: World, room: Id, member: Name)
    requires room in w.rooms
    ensures var r, w' := w.rooms[room], Step(w, User(AddMember(room, member)));
      if r.creator != w.me || Lower(member) in People(r.members) || |r.members| >= 32 then w' == w else
        && room in w'.rooms && Becomes(w, w', room, r.(members := w'.rooms[room].members))
        && With(r.members, w'.rooms[room].members, member)
  {
    PeopleAre(w.rooms[room].members, member);
    AddedIs(w.rooms[room].members, member);
  }

  /** A list without one exact spelling, and otherwise as it was. */
  ghost predicate WithoutExactly(ms: seq<Name>, ms': seq<Name>, name: Name) {
    && (forall m :: m in ms' <==> m in ms && m != name)
    && (GoodList(ms) ==> GoodList(ms'))
  }

  lemma RemovedExactly(ms: seq<Name>, name: Name)
    ensures WithoutExactly(ms, RemoveExact(ms, name), name)
  {
    var same := (m: Name) => m == name;
    forall m ensures m in RemoveExact(ms, name) <==> m in ms && m != name {
      FilterMember(ms, same, m);
    }
    if GoodList(ms) {
      FilterKeeps(ms, same);
    }
  }

  /**
    The owner drops a member other than themselves. The member is looked for up to
    case but taken off by exact spelling, so another spelling drops nobody.
   */
  lemma OwnerDrops(w: World, room: Id, member: Name)
    requires room in w.rooms
    ensures var r, w' := w.rooms[room], Step(w, User(DropMember(room, member)));
      if r.creator != w.me || member == w.me || Lower(member) !in People(r.members) then w' == w else
        && room in w'.rooms && Becomes(w, w', room, r.(members := w'.rooms[room].members))
        && WithoutExactly(r.members, w'.rooms[room].members, member)
  {
    PeopleAre(w.rooms[room].members, member);
    RemovedExactly(w.rooms[room].members, member);
  }

  /** The owner gives the room another name that is not empty; nobody else does. */
  lemma OwnerRetitles(w: World, room: Id, name: Bytes)
    requires room in w.rooms
    ensures var r, w' := w.rooms[room], Step(w, User(Retitle(room, name)));
      if r.creator != w.me || name == [] then w' == w else Becomes(w, w', room, r.(name := name))
  {
  }

  /** Accepting turns a pending room we are in into a joined one, and changes nothing else. */
  lemma AcceptJoins(w: World, room: Id)
    requires room in w.rooms
    ensures var r, w' := w.rooms[room], Step(w, User(AcceptInvite(room)));
      if r.state == Joined || Lower(w.me) !in People(r.members) then w' == w
      else Becomes(w, w', room, r.(state := Joined))
  {
    PeopleAre(w.rooms[room].members, w.me);
  }

  /** Declining deletes a pending room, and leaves a joined one alone. */
  lemma DeclineDeletes(w: World, room: Id)
    requires room in w.rooms
    ensures Step(w, User(DeclineInvite(room))) == if w.rooms[room].state == Joined then w else DeleteRoom(w, room)
  {
  }

  lemma GuestDecides(me: Name, room: Id, r: Room)
    requires r.creator != me
    ensures var rest := RemoveExact(r.members, me);
      DecideQuit(me, room, r) ==
      if !IsMember(r.members, me) then NoWrite
      else if rest == [] then DropRoom(room) else SaveRoom(room, r.(members := rest))
  {
  }

  /** A guest who leaves is taken off the list, and the room is kept for the others; with nobody left it is deleted. */
  lemma GuestQuits(w: World, room: Id)
    requires room in w.rooms && w.rooms[room].creator != w.me
    ensures var r, w' := w.rooms[room], Step(w, User(Quit(room)));
      if Lower(w.me) !in People(r.members) then w' == w
      else if forall m :: m in r.members ==> m == w.me then w' == DeleteRoom(w, room) else
        && room in w'.rooms && Becomes(w, w', room, r.(members := w'.rooms[room].members))
        && WithoutExactly(r.members, w'.rooms[room].members, w.me)
  {
    var ms := w.rooms[room].members;
    PeopleAre(ms, w.me);
    RemovedExactly(ms, w.me);
    GuestDecides(w.me, room, w.rooms[room]);
    var rest := RemoveExact(ms, w.me);
    assert rest != [] ==> rest[0] in rest;
    assert Decide(w.me, User(Quit(room)), Find(w, room)) == DecideQuit(w.me, room, w.rooms[room]);
  }

  /** A command on a room we do not hold changes nothing. */
  lemma NoRoomNoCommand(w: World, c: Command)
    requires !c.NewRoom? && c.room !in w.rooms
    ensures Step(w, User(c)) == w
  {
  }

  // ---- messages ----

  /** We and the author are in the room, and we have joined it. */
  ghost predicate Open(w: World, room: Id, author: Name) {
    && room in w.rooms && w.rooms[room].state == Joined
    && Lower(author) in People(w.rooms[room].members) && Lower(w.me) in People(w.rooms[room].members)
  }

  lemma OpenIs(w: World, room: Id, author: Name)
    ensures Open(w, room, author) <==> Admitted(w.me, author, Find(w, room))
  {
    if room in w.rooms {
      PeopleAre(w.rooms[room].members, author);
      PeopleAre(w.rooms[room].members, w.me);
    }
  }

  /** The message is stored as it is, under the next number, and nothing else changes; a known one changes nothing. */
  ghost predicate Stores(w: World, w': World, m: Row) {
    && w' == w.(rows := w'.rows, idx := w'.idx, last := w'.last)
    && (forall id :: Known(w', id) <==> Known(w, id) || id == m.id)
    && (forall id :: Known(w, id) ==> Lookup(w', id) == Lookup(w, id))
    && (!Known(w, m.id) ==> Lookup(w', m.id) == m.(num := w.last + 1))
    && (Known(w, m.id) ==> w' == w)
  }

  /** A peer's message is stored, as theirs and received, if and only if the room is open to both of us. */
  lemma MessageArrives(w: World, peer: Name, room: Id, id: Id, body: Bytes, ts: int, num: nat)
    requires Indexed(w)
    ensures var w' := Step(w, MsgFrom(peer, room, id, body, ts, num));
      if Open(w, room, peer)
      then Stores(w, w', Row(id, room, peer, M.In, body, ts, M.Received, 0, num, [])) else w' == w
  {
    OpenIs(w, room, peer);
    AddRowMeans(w, Row(id, room, peer, M.In, body, ts, M.Received, 0, num, []));
  }

  /** Our own message is stored, queued, if and only if it has 1 to 4096 bytes and the room is open to us. */
  lemma MessageLeaves(w: World, room: Id, id: Id, body: Bytes, ts: int, num: nat)
    requires Indexed(w)
    ensures var w' := Step(w, User(Send(room, id, body, ts, num)));
      if 1 <= |body| <= 4096 && Open(w, room, w.me)
      then Stores(w, w', Row(id, room, w.me, M.Out, body, ts, M.Queued, 0, num, [])) else w' == w
  {
    OpenIs(w, room, w.me);
    AddRowMeans(w, Row(id, room, w.me, M.Out, body, ts, M.Queued, 0, num, []));
  }

  /** Queueing for a member puts one entry, under room, member and message, each folded and parted by colons. */
  lemma EntryPut(w: World, room: Id, member: Name, msg: Id)
    ensures Step(w, Queued(room, member, msg)) ==
      if member == w.me then w else
        w.(outbox := w.outbox[Lower(room) + [0x3A] + Lower(member) + [0x3A] + Lower(msg) := msg])
  {
  }

  /** Nobody of the room but the sender has an entry left, of whatever message. */
  ghost predicate NoneLeft(outbox: map<Bytes, Id>, room: Id, ms: seq<Name>, sender: Name) {
    forall i, k :: 0 <= i < |ms| && ms[i] != sender && k in outbox ==>
      !(Lower(room) + [0x3A] + Lower(ms[i]) + [0x3A] <= k)
  }

  /**
    An ack counts if its sender is in the room it names and the message is known and
    not delivered yet: it removes the sender's entry, marks the message delivered if
    nobody of that room has an entry left, and changes nothing else.
   */
  lemma AckCounts(w: World, peer: Name, room: Id, id: Id)
    requires Indexed(w)
    ensures var w' := Step(w, AckFrom(peer, room, id));
      if !(Known(w, id) && Lookup(w, id).status != M.Delivered
           && room in w.rooms && Lower(peer) in People(w.rooms[room].members)) then w' == w else
        var m, outbox := Lookup(w, id), w.outbox - {Lower(room) + [0x3A] + Lower(peer) + [0x3A] + Lower(id)};
        w' == w.(outbox := outbox, rows := w.rows[w.idx[id] :=
          if NoneLeft(outbox, room, w.rooms[room].members, m.sender) then m.(status := M.Delivered) else m])
  {
    if room in w.rooms {
      PeopleAre(w.rooms[room].members, peer);
    }
    if Known(w, id) && room in w.rooms {
      var outbox := w.outbox - {Lower(room) + [0x3A] + Lower(peer) + [0x3A] + Lower(id)};
      var m, ms := Lookup(w, id), w.rooms[room].members;
      NoneLeftIs(outbox, room, ms, m.sender);
      assert w.rows[w.idx[id] := m] == w.rows;
    }
  }

  lemma NoneLeftIs(outbox: map<Bytes, Id>, room: Id, ms: seq<Name>, sender: Name)
    ensures NoneLeft(outbox, room, ms, sender) <==> NobodyWaits(outbox, room, ms, sender)
  {
    forall i | 0 <= i < |ms| ensures MemberPrefix(room, ms[i]) == Lower(room) + [0x3A] + Lower(ms[i]) + [0x3A] {
    }
  }

  // ---- reactions ----

  /** The toggle of this pair finds it there, or room for it. */
  ghost predicate HasRoom(rs: seq<Reaction>, p: Pair) {
    Present(rs, p) || |rs| < 128
  }

  lemma ToggledIff(rs: seq<Reaction>, sender: Name, emoji: Bytes)
    ensures Toggled(rs, sender, emoji).Some? <==> HasRoom(rs, Pair(Lower(sender), emoji))
  {
    var i := FindReaction(rs, sender, emoji);
    if Present(rs, Pair(Lower(sender), emoji)) {
      var j :| 0 <= j < |rs| && PairOf(rs[j]) == Pair(Lower(sender), emoji);
      assert i <= j;
    }
    assert i < |rs| ==> PairOf(rs[i]) == Pair(Lower(sender), emoji);
  }

  /** The one with this pair is taken out, or it is put at the end; the others keep their order. */
  ghost predicate ListFlips(rs: seq<Reaction>, rs': seq<Reaction>, r: Reaction) {
    if Present(rs, PairOf(r))
    then exists i :: 0 <= i < |rs| && PairOf(rs[i]) == PairOf(r) && rs' == rs[..i] + rs[i + 1..]
    else rs' == rs + [r]
  }

  lemma ToggledFlipsList(rs: seq<Reaction>, sender: Name, emoji: Bytes)
    requires Toggled(rs, sender, emoji).Some?
    ensures ListFlips(rs, Toggled(rs, sender, emoji).value, Reaction(sender, emoji))
  {
    var i := FindReaction(rs, sender, emoji);
    assert i < |rs| ==> PairOf(rs[i]) == Pair(Lower(sender), emoji);
  }

  /** The message's reactions are as they were but for one pair, which is flipped; all else is as it was. */
  ghost predicate Flips(w: World, w': World, id: Id, r: Reaction) {
    var flipped := PairOf(r);
    && Known(w, id) && Known(w', id)
    && w' == w.(rows := w.rows[w.idx[id] := Lookup(w, id).(reactions := Lookup(w', id).reactions)])
    && ListFlips(Lookup(w, id).reactions, Lookup(w', id).reactions, r)
    && forall p :: Present(Lookup(w', id).reactions, p) <==>
        if p == flipped then !Present(Lookup(w, id).reactions, p) else Present(Lookup(w, id).reactions, p)
  }

  lemma ToggleFlipsIff(w: World, room: Id, id: Id, sender: Name, emoji: Bytes)
    requires Known(w, id) ==> NoRepeats(Lookup(w, id).reactions)
    ensures var w', p := Toggle(w, room, id, sender, emoji), Pair(Lower(sender), emoji);
      if Known(w, id) && EqualFold(Lookup(w, id).room, room) && HasRoom(Lookup(w, id).reactions, p)
      then Flips(w, w', id, Reaction(sender, emoji)) else w' == w
  {
    if Known(w, id) {
      var rs := Lookup(w, id).reactions;
      ToggledIff(rs, sender, emoji);
      if Toggled(rs, sender, emoji).Some? {
        ToggledFlipsList(rs, sender, emoji);
        forall p
          ensures Present(Toggled(rs, sender, emoji).value, p) <==>
            if p == Pair(Lower(sender), emoji) then !Present(rs, p) else Present(rs, p)
        {
          ToggleFlips(rs, Reaction(sender, emoji), Toggled(rs, sender, emoji).value, p);
        }
      }
    }
  }

  /** A peer's reaction counts if and only if the room is open to both, the message is of that room, and it has room. */
  lemma ReactionArrives(w: World, peer: Name, room: Id, id: Id, emoji: Bytes)
    requires Known(w, id) ==> NoRepeats(Lookup(w, id).reactions)
    ensures var w', p := Step(w, ReactionFrom(peer, room, id, emoji)), Pair(Lower(peer), emoji);
      if Open(w, room, peer) && Known(w, id) && EqualFold(Lookup(w, id).room, room)
         && HasRoom(Lookup(w, id).reactions, p)
      then Flips(w, w', id, Reaction(peer, emoji)) else w' == w
  {
    OpenIs(w, room, peer);
    ToggleFlipsIff(w, room, id, peer, emoji);
  }

  /** Our own reaction counts under the same conditions, if there is an emoji at all. */
  lemma WeReact(w: World, room: Id, id: Id, emoji: Bytes)
    requires Known(w, id) ==> NoRepeats(Lookup(w, id).reactions)
    ensures var w', p := Step(w, User(React(room, id, emoji))), Pair(Lower(w.me), emoji);
      if emoji != [] && Open(w, room, w.me) && Known(w, id) && EqualFold(Lookup(w, id).room, room)
         && HasRoom(Lookup(w, id).reactions, p)
      then Flips(w, w', id, Reaction(w.me, emoji)) else w' == w
  {
    OpenIs(w, room, w.me);
    ToggleFlipsIff(w, room, id, w.me, emoji);
  }
}
