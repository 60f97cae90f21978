/**
  Who can put a message into a room and who can change its reactions, under every
  interleaving: whoever was a member when the node looked, each in their own name.
  And what the reactions of a message are: the toggles admitted for it.
 */
module RoomTraffic {
  import opened OptionType
  import opened ByteOrder
  import opened Names
  import opened Members
  import opened RoomDb
  import opened RoomRows
  import opened RoomRaces
  import opened RoomDelivery
  import opened Reactions

  /** The author and we are in the room, and we have joined it. */
  ghost predicate Rightful(w: World, room: Id, author: Name) {
    && HasJoined(w, room)
    && IsMember(w.rooms[room].members, author) && IsMember(w.rooms[room].members, w.me)
  }

  // ---- messages ----

  /** A message appears only by being posted. */
  lemma OnlyPostsAppear(w: World, wr: Write, id: Id)
    requires Indexed(w) && !Known(w, id) && Known(Apply(w, wr), id)
    ensures wr.Post? && wr.row.id == id && Lookup(Apply(w, wr), id) == wr.row.(num := w.last + 1)
  {
    if wr.Post? && wr.row.id != id {
    }
  }

  /** What a post says: a message of the authenticated peer, or ours. */
  ghost predicate Says(me: Name, e: Event, m: Row) {
    || (e == MsgFrom(m.sender, m.room, m.id, m.body, m.ts, m.senderSeq) && m.dir == M.In && m.status == M.Received)
    || (e == User(Send(m.room, m.id, m.body, m.ts, m.senderSeq)) && m.sender == me
        && m.dir == M.Out && m.status == M.Queued)
  }

  lemma PostDecided(w: World, e: Event)
    requires Decide(w.me, e, Find(w, RoomOf(e))).Post?
    ensures var m := Decide(w.me, e, Find(w, RoomOf(e))).row;
      Says(w.me, e, m) && Rightful(w, m.room, m.sender) && m.reactions == []
  {
  }

  /**
    Every interleaving: a message appears only through a handler that looked at some
    earlier tick i, when its author and we were in the room and we had joined it;
    the author is the authenticated peer, or us, and the content is what was sent.
   */
  lemma {:induction false} OnlyMembersPost(me: Name, run: seq<Tick>, t: Tick, id: Id) returns (i: nat)
    requires var n := Interleave(Begin(me), run); !Known(n.w, id) && Known(Advance(n, t).w, id)
    ensures var n := Interleave(Begin(me), run);
      var m := Lookup(Advance(n, t).w, id);
      && i < |run| && run[i].Look? && t == Land(run[i].j)
      && m.id == id && m.num == n.w.last + 1 && m.reactions == []
      && Says(me, run[i].e, m) && Rightful(At(me, run, i).w, m.room, m.sender)
  {
    var n := Interleave(Begin(me), run);
    RacesKeepGood(me, run);
    OnlyPostsAppear(n.w, WriteOf(n, t), id);
    i := LookedEarlier(me, run, t.j);
    MeIsFixed(me, run);
    MeIsFixed(me, run[..i]);
    PostDecided(At(me, run, i).w, run[i].e);
  }

  // ---- reactions ----

  /** The reactions of a message change only by a toggle of it, named with its room. */
  lemma OnlyFlipsChange(w: World, wr: Write, id: Id)
    requires Indexed(w) && Known(w, id) && Known(Apply(w, wr), id)
    requires Lookup(Apply(w, wr), id).reactions != Lookup(w, id).reactions
    ensures wr.Flip? && wr.msg == id && EqualFold(Lookup(w, id).room, wr.room)
    ensures Toggled(Lookup(w, id).reactions, wr.sender, wr.emoji) == Some(Lookup(Apply(w, wr), id).reactions)
  {
    match wr
    case NoWrite =>
    case SaveRoom(_, _) =>
    case DropRoom(_) =>
    case Enter(_, _, _) =>
    case Post(row) => PostTouchesNone(w, row, id);
    case Confirm(room, member, msg) => ConfirmKeepsReactions(w, room, member, msg, id);
    case Flip(room, msg, sender, emoji) => FlipTouchesOne(w, room, msg, sender, emoji, id);
  }

  lemma ConfirmKeepsReactions(w: World, room: Id, member: Name, msg: Id, id: Id)
    requires Indexed(w) && Known(w, id)
    ensures Known(MarkDelivered(w, room, member, msg), id)
    ensures Lookup(MarkDelivered(w, room, member, msg), id).reactions == Lookup(w, id).reactions
  {
    if msg != id {
      ConfirmTouchesOne(w, room, member, msg, id);
    }
  }

  lemma FlipTouchesOne(w: World, room: Id, msg: Id, sender: Name, emoji: Bytes, id: Id)
    requires Indexed(w) && Known(w, id)
    ensures var w' := Toggle(w, room, msg, sender, emoji);
      && Known(w', id)
      && (msg != id ==> Lookup(w', id) == Lookup(w, id))
  {
    assert IdIndexed(w, id);
    if Known(w, msg) {
      assert IdIndexed(w, msg);
    }
  }

  /** One pair is flipped, all others are as they were. */
  ghost predicate FlipsOnly(rs: seq<Reaction>, rs': seq<Reaction>, flipped: Pair) {
    forall p :: Present(rs', p) <==> if p == flipped then !Present(rs, p) else Present(rs, p)
  }

  lemma ToggleFlipsOnly(rs: seq<Reaction>, author: Name, emoji: Bytes, rs': seq<Reaction>)
    requires NoRepeats(rs) && Toggled(rs, author, emoji) == Some(rs')
    ensures FlipsOnly(rs, rs', Pair(Lower(author), emoji))
  {
    forall p ensures Present(rs', p) <==> if p == Pair(Lower(author), emoji) then !Present(rs, p) else Present(rs, p) {
      ToggleFlips(rs, Reaction(author, emoji), rs', p);
    }
  }

  /** The event toggles a reaction in the name of author. */
  ghost predicate TogglesFor(me: Name, e: Event, author: Name, room: Id, id: Id, emoji: Bytes) {
    || e == ReactionFrom(author, room, id, emoji)
    || (e == User(React(room, id, emoji)) && author == me)
  }

  lemma FlipDecided(w: World, e: Event)
    requires Decide(w.me, e, Find(w, RoomOf(e))).Flip?
    ensures var f := Decide(w.me, e, Find(w, RoomOf(e)));
      TogglesFor(w.me, e, f.sender, f.room, f.msg, f.emoji) && Rightful(w, f.room, f.sender)
  {
  }

  /**
    Every interleaving: the reactions of a message change only through a toggle
    whose author was, when the node looked, a member of the joined room; it flips
    that author's own pair and no other.
   */
  lemma {:induction false} OnlyOwnReactions(me: Name, run: seq<Tick>, t: Tick, id: Id) returns (i: nat, f: Write)
    requires var n := Interleave(Begin(me), run);
      && Known(n.w, id) && Known(Advance(n, t).w, id)
      && Lookup(Advance(n, t).w, id).reactions != Lookup(n.w, id).reactions
    ensures var n := Interleave(Begin(me), run);
      && f.Flip? && f.msg == id && EqualFold(f.room, Lookup(n.w, id).room)
      && i < |run| && run[i].Look? && t == Land(run[i].j)
      && TogglesFor(me, run[i].e, f.sender, f.room, id, f.emoji) && Rightful(At(me, run, i).w, f.room, f.sender)
      && FlipsOnly(Lookup(n.w, id).reactions, Lookup(Advance(n, t).w, id).reactions, Pair(Lower(f.sender), f.emoji))
  {
    var n := Interleave(Begin(me), run);
    RacesKeepGood(me, run);
    f := WriteOf(n, t);
    OnlyFlipsChange(n.w, f, id);
    i := LookedEarlier(me, run, t.j);
    MeIsFixed(me, run);
    MeIsFixed(me, run[..i]);
    FlipDecided(At(me, run, i).w, run[i].e);
    RunTidy(me, run, id);
    ToggleFlipsOnly(Lookup(n.w, id).reactions, f.sender, f.emoji, Lookup(Advance(n, t).w, id).reactions);
  }

  // ---- what the reactions are ----

  /** The toggle of message id that a write makes in w, if it is one. */
  function ToggleOf(w: World, wr: Write, id: Id): seq<Reaction> {
    if wr.Flip? && wr.msg == id && Known(w, id) && EqualFold(Lookup(w, id).room, wr.room)
    then [Reaction(wr.sender, wr.emoji)] else []
  }

  /** The toggles admitted for a message since it was last stored. */
  function Toggles(me: Name, ws: seq<Write>, id: Id): seq<Reaction> {
    if ws == [] then [] else
      var w, wr := ApplyAll(Start(me), ws[..|ws| - 1]), ws[|ws| - 1];
      if !Known(w, id) then [] else Toggles(me, ws[..|ws| - 1], id) + ToggleOf(w, wr, id)
  }

  lemma AfterOne(ts: seq<Reaction>, t: Reaction)
    ensures AfterToggles(ts + [t]) ==
      var rs := AfterToggles(ts);
      if Toggled(rs, t.sender, t.emoji).Some? then Toggled(rs, t.sender, t.emoji).value else rs
  {
    assert (ts + [t])[..|ts|] == ts;
  }

  lemma FlipApplies(w: World, room: Id, id: Id, sender: Name, emoji: Bytes)
    requires Known(w, id) && EqualFold(Lookup(w, id).room, room)
    ensures var w', rs := Toggle(w, room, id, sender, emoji), Lookup(w, id).reactions;
      && Known(w', id)
      && Lookup(w', id).reactions == if Toggled(rs, sender, emoji).Some? then Toggled(rs, sender, emoji).value else rs
  {
  }

  lemma {:induction false} WriteToggles(w: World, wr: Write, id: Id, ts: seq<Reaction>)
    requires Indexed(w) && Known(w, id) && Known(Apply(w, wr), id) && Lookup(w, id).reactions == AfterToggles(ts)
    ensures Lookup(Apply(w, wr), id).reactions == AfterToggles(ts + ToggleOf(w, wr, id))
  {
    if ToggleOf(w, wr, id) == [] {
      assert ts + [] == ts;
      if Lookup(Apply(w, wr), id).reactions != Lookup(w, id).reactions {
        OnlyFlipsChange(w, wr, id);
      }
    } else {
      FlipApplies(w, wr.room, id, wr.sender, wr.emoji);
      AfterOne(ts, Reaction(wr.sender, wr.emoji));
    }
  }

  /** Messages are posted without reactions. */
  ghost predicate BarePosts(ws: seq<Write>) {
    forall i :: 0 <= i < |ws| && ws[i].Post? ==> ws[i].row.reactions == []
  }

  /** Any such writes in any order: the reactions of a message are its toggles since it was stored, one by one. */
  lemma {:induction false} ReactionsAreToggles(me: Name, ws: seq<Write>, id: Id)
    requires BarePosts(ws) && Known(ApplyAll(Start(me), ws), id)
    ensures Lookup(ApplyAll(Start(me), ws), id).reactions == AfterToggles(Toggles(me, ws, id))
    decreases |ws|
  {
    var before, wr := ws[..|ws| - 1], ws[|ws| - 1];
    var w := ApplyAll(Start(me), before);
    WritesIndexed(me, before);
    if Known(w, id) {
      ReactionsAreToggles(me, before, id);
      WriteToggles(w, wr, id, Toggles(me, before, id));
    } else {
      OnlyPostsAppear(w, wr, id);
    }
  }

  lemma {:induction false} RunPostsBare(me: Name, run: seq<Tick>)
    ensures BarePosts(Writes(me, run))
    decreases |run|
  {
    if run != [] {
      var n, t := Interleave(Begin(me), run[..|run| - 1]), run[|run| - 1];
      RunPostsBare(me, run[..|run| - 1]);
      if t.Land? && t.j in n.jobs && n.jobs[t.j].Looked? {
        DecidePostsBare(n.w.me, n.jobs[t.j].e, n.jobs[t.j].cap);
      }
    }
  }

  lemma DecidePostsBare(me: Name, e: Event, cap: Option<Room>)
    ensures Decide(me, e, cap).Post? ==> Decide(me, e, cap).row.reactions == []
  {
  }

  ghost predicate Tidy(rs: seq<Reaction>) {
    NoRepeats(rs) && |rs| <= MAX_REACTIONS
  }

  lemma {:induction false} ToggledIsTidy(ts: seq<Reaction>)
    ensures Tidy(AfterToggles(ts))
  {
    if ts != [] {
      var rs, t := AfterToggles(ts[..|ts| - 1]), ts[|ts| - 1];
      ToggledIsTidy(ts[..|ts| - 1]);
      if Toggled(rs, t.sender, t.emoji).Some? {
        ToggleFlips(rs, t, Toggled(rs, t.sender, t.emoji).value, PairOf(t));
      }
    }
  }

  /** The toggles of a message that a run has admitted since it was stored. */
  function AdmittedToggles(me: Name, run: seq<Tick>, id: Id): seq<Reaction> {
    Toggles(me, Writes(me, run), id)
  }

  /**
    Every interleaving: no message carries a reaction twice or more than 128 of
    them, and they are its admitted toggles.
   */
  lemma {:induction false} RunTidy(me: Name, run: seq<Tick>, id: Id)
    requires Known(Interleave(Begin(me), run).w, id)
    ensures var rs := Lookup(Interleave(Begin(me), run).w, id).reactions;
      Tidy(rs) && rs == AfterToggles(AdmittedToggles(me, run, id))
  {
    RunIsItsWrites(me, run);
    RunPostsBare(me, run);
    ReactionsAreToggles(me, Writes(me, run), id);
    ToggledIsTidy(AdmittedToggles(me, run, id));
  }

  /**
    Two nodes, each with its own interleaving: if they have admitted the same
    toggles of a message, in whatever orders and spellings, and at most 128
    different ones, they show the same reactions.
   */
  lemma {:induction false} MembersShowTheSame(me: Name, run: seq<Tick>, you: Name, run': seq<Tick>, id: Id)
    requires Known(Interleave(Begin(me), run).w, id) && Known(Interleave(Begin(you), run').w, id)
    requires multiset(Pairs(AdmittedToggles(me, run, id))) == multiset(Pairs(AdmittedToggles(you, run', id)))
    requires |PairSet(AdmittedToggles(me, run, id))| <= MAX_REACTIONS
    ensures forall p ::
      Present(Lookup(Interleave(Begin(me), run).w, id).reactions, p) <==>
      Present(Lookup(Interleave(Begin(you), run').w, id).reactions, p)
  {
    RunTidy(me, run, id);
    RunTidy(you, run', id);
    MembersAgreeWithin(AdmittedToggles(me, run, id), AdmittedToggles(you, run', id));
  }
}
