/**
  Rooms as one node holds them: the transactions of the store, and what each
  remote envelope and each local command decides to write, given the room record
  it looked up first.
 */
module RoomDb {
  import opened OptionType
  import opened ByteOrder
  import opened Names
  import opened Keys
  import opened Members
  import Envelopes
  import M = MessageDb

  datatype Membership = Joined | Invited

  datatype Room = Room(name: Bytes, members: seq<Name>, creator: Name, createdAt: int, state: Membership)

  datatype Reaction = Reaction(sender: Name, emoji: Bytes)

  const MAX_REACTIONS: nat := 128

  datatype Row = Row(
    id: Id, room: Id, sender: Name, dir: M.Direction, body: Bytes, ts: int,
    status: M.Status, num: nat, senderSeq: nat, reactions: seq<Reaction>)

  /** me: our own display name; outbox: per message and member, under a flat string key. */
  datatype World = World(
    me: Name, rooms: map<Id, Room>, rows: map<RowKey, Row>, idx: map<Id, RowKey>, last: nat, outbox: map<Bytes, Id>)

  /** A colon. */
  const SEP: Bytes := [0x3A]

  function RoomPrefix(room: Id): Bytes {
    Lower(room) + SEP
  }

  function MemberPrefix(room: Id, member: Name): Bytes {
    RoomPrefix(room) + Lower(member) + SEP
  }

  function OutboxKey(room: Id, member: Name, msg: Id): Bytes {
    MemberPrefix(room, member) + Lower(msg)
  }

  function Start(me: Name): World {
    World(me, map[], map[], map[], 0, map[])
  }

  // ---- the transactions of the store ----

  /** GetRoom. */
  function Find(w: World, id: Id): Option<Room> {
    if id in w.rooms then Some(w.rooms[id]) else None
  }

  /** CreateRoom and UpdateRoom put whatever record they are given. */
  function PutRoom(w: World, id: Id, r: Room): World {
    w.(rooms := w.rooms[id := r])
  }

  /** The room, its rows with their index entries, and its outbox entries. */
  function DeleteRoom(w: World, id: Id): World {
    var ids := set k | k in w.rows && k.peer == Lower(id) :: w.rows[k].id;
    w.(rooms := w.rooms - {id},
       rows := map k | k in w.rows && k.peer != Lower(id) :: w.rows[k],
       idx := w.idx - ids,
       outbox := map k | k in w.outbox && !(RoomPrefix(id) <= k) :: w.outbox[k])
  }

  function AddRow(w: World, m: Row): World {
    if m.id in w.idx then w else
      var n := w.last + 1;
      var k := RowKey(Lower(m.room), n);
      w.(rows := w.rows[k := m.(num := n)], idx := w.idx[m.id := k], last := n)
  }

  predicate Known(w: World, id: Id) {
    id in w.idx && w.idx[id] in w.rows
  }

  function Lookup(w: World, id: Id): Row
    requires Known(w, id)
  {
    w.rows[w.idx[id]]
  }

  function PutRow(w: World, id: Id, m: Row): World
    requires Known(w, id)
  {
    w.(rows := w.rows[w.idx[id] := m])
  }

  function PutEntry(w: World, room: Id, member: Name, msg: Id): World {
    w.(outbox := w.outbox[OutboxKey(room, member, msg) := msg])
  }

  /** Some outbox entry, for whatever message, still waits for this member. */
  predicate Waiting(outbox: map<Bytes, Id>, room: Id, member: Name) {
    exists k :: k in outbox && MemberPrefix(room, member) <= k
  }

  predicate NobodyWaits(outbox: map<Bytes, Id>, room: Id, members: seq<Name>, sender: Name) {
    forall i :: 0 <= i < |members| && members[i] != sender ==> !Waiting(outbox, room, members[i])
  }

  function MarkDelivered(w: World, room: Id, member: Name, id: Id): World {
    if !Known(w, id) || Lookup(w, id).status == M.Delivered || room !in w.rooms then w else
      var outbox := w.outbox - {OutboxKey(room, member, id)};
      var w' := w.(outbox := outbox);
      if NobodyWaits(outbox, room, w.rooms[room].members, Lookup(w, id).sender)
      then PutRow(w', id, Lookup(w, id).(status := M.Delivered)) else w'
  }

  /** Position of a reaction, or the length of the list. */
  function FindReaction(rs: seq<Reaction>, sender: Name, emoji: Bytes): (i: nat)
    ensures i <= |rs|
    ensures i < |rs| ==> EqualFold(rs[i].sender, sender) && rs[i].emoji == emoji
    ensures forall j :: 0 <= j < i ==> !(EqualFold(rs[j].sender, sender) && rs[j].emoji == emoji)
  {
    if rs == [] then 0
    else if EqualFold(rs[0].sender, sender) && rs[0].emoji == emoji then 0
    else FindReaction(rs[1..], sender, emoji) + 1
  }

  /** Remove the reaction if it is there, add it if not; None when the message is full. */
  function Toggled(rs: seq<Reaction>, sender: Name, emoji: Bytes): Option<seq<Reaction>> {
    var i := FindReaction(rs, sender, emoji);
    if i < |rs| then Some(rs[..i] + rs[i + 1..])
    else if |rs| >= MAX_REACTIONS then None
    else Some(rs + [Reaction(sender, emoji)])
  }

  function Toggle(w: World, room: Id, id: Id, sender: Name, emoji: Bytes): World {
    if !Known(w, id) || !EqualFold(Lookup(w, id).room, room) then w else
      match Toggled(Lookup(w, id).reactions, sender, emoji)
      case None => w
      case Some(rs) => PutRow(w, id, Lookup(w, id).(reactions := rs))
  }

  /** One write transaction, or none. */
  datatype Write =
    | NoWrite
    | SaveRoom(id: Id, record: Room)
    | DropRoom(id: Id)
    | Post(row: Row)
    | Enter(room: Id, member: Name, msg: Id)
    | Confirm(room: Id, member: Name, msg: Id)
    | Flip(room: Id, msg: Id, sender: Name, emoji: Bytes)

  function Apply(w: World, wr: Write): World {
    match wr
    case NoWrite => w
    case SaveRoom(id, record) => PutRoom(w, id, record)
    case DropRoom(id) => DeleteRoom(w, id)
    case Post(row) => AddRow(w, row)
    case Enter(room, member, msg) => PutEntry(w, room, member, msg)
    case Confirm(room, member, msg) => MarkDelivered(w, room, member, msg)
    case Flip(room, msg, sender, emoji) => Toggle(w, room, msg, sender, emoji)
  }

  function ApplyAll(w: World, ws: seq<Write>): World {
    if ws == [] then w else Apply(ApplyAll(w, ws[..|ws| - 1]), ws[|ws| - 1])
  }

  // ---- what other nodes send us; peer is the authenticated name of the link ----

  datatype RoomEvent =
    | Create(room: Id, name: Bytes, members: seq<Name>, ts: int)
    | Join(room: Id, actor: Name)
    | Remove(room: Id, actor: Name)
    | Leave(room: Id)
    | Rename(room: Id, name: Bytes)

  function DecideCreate(me: Name, peer: Name, e: RoomEvent, cap: Option<Room>): Write
    requires e.Create?
  {
    var ms := Dedupe(if e.members == [] then [peer, me] else e.members);
    if !IsMember(ms, me) || |ms| > MAX_MEMBERS then NoWrite
    else if cap.None? then SaveRoom(e.room, Room(e.name, ms, peer, e.ts, Invited))
    else if peer != cap.value.creator then NoWrite
    else SaveRoom(e.room, cap.value.(name := e.name, members := ms))
  }

  /** The room as it was looked up; the answer is written without looking again. */
  function DecideMembership(me: Name, peer: Name, e: RoomEvent, r: Room): Write
    requires !e.Create?
  {
    match e
    case Join(room, actor) =>
      if EqualFold(peer, actor) || peer != r.creator || IsMember(r.members, actor) || |r.members| >= MAX_MEMBERS
      then NoWrite else SaveRoom(room, r.(members := SortNames(r.members + [actor])))
    case Remove(room, actor) =>
      if peer != r.creator then NoWrite
      else if actor == me then DropRoom(room)
      else if IsMember(r.members, actor) then SaveRoom(room, r.(members := RemovePeer(r.members, actor))) else NoWrite
    case Leave(room) =>
      if peer == me then DropRoom(room)
      else if IsMember(r.members, peer) then SaveRoom(room, r.(members := RemovePeer(r.members, peer))) else NoWrite
    case Rename(room, name) =>
      if peer != r.creator then NoWrite else SaveRoom(room, r.(name := name))
  }

  function DecideEvent(me: Name, peer: Name, e: RoomEvent, cap: Option<Room>): Write {
    if e.Create? then DecideCreate(me, peer, e, cap)
    else if cap.None? then NoWrite
    else DecideMembership(me, peer, e, cap.value)
  }

  /** A peer and we are both in the room, and we have accepted it. */
  predicate Admitted(me: Name, peer: Name, cap: Option<Room>) {
    && cap.Some?
    && IsMember(cap.value.members, peer) && IsMember(cap.value.members, me)
    && cap.value.state != Invited
  }

  // ---- what the user does ----

  datatype Command =
    | NewRoom(id: Id, name: Bytes, members: seq<Name>, ts: int)
    | AddMember(room: Id, member: Name)
    | DropMember(room: Id, member: Name)
    | Quit(room: Id)
    | Retitle(room: Id, name: Bytes)
    | AcceptInvite(room: Id)
    | DeclineInvite(room: Id)
    | Send(room: Id, id: Id, body: Bytes, ts: int, senderSeq: nat)
    | React(room: Id, msg: Id, emoji: Bytes)

  /** On leaving, the creator hands the room to the first other member. */
  function Heir(ms: seq<Name>, me: Name): Option<Name> {
    if ms == [] then None else if ms[0] != me then Some(ms[0]) else Heir(ms[1..], me)
  }

  function DecideQuit(me: Name, room: Id, r: Room): Write {
    if !IsMember(r.members, me) then NoWrite else
      var heir := if r.creator == me && |r.members| > 1 then Heir(r.members, me) else None;
      var ms := RemoveExact(r.members, me);
      if ms == [] then DropRoom(room)
      else SaveRoom(room, r.(members := ms, creator := if heir.Some? then heir.value else r.creator))
  }

  function OutgoingRow(me: Name, c: Command): Row
    requires c.Send?
  {
    Row(c.id, c.room, me, M.Out, c.body, c.ts, M.Queued, 0, c.senderSeq, [])
  }

  /** Commands on a room that was found. */
  function DecideCommand(me: Name, c: Command, r: Room): Write
    requires !c.NewRoom?
  {
    match c
    case AddMember(room, member) =>
      if r.creator != me || IsMember(r.members, member) || |r.members| >= MAX_MEMBERS then NoWrite
      else SaveRoom(room, r.(members := SortNames(r.members + [member])))
    case DropMember(room, member) =>
      if r.creator != me || member == me || !IsMember(r.members, member) then NoWrite
      else SaveRoom(room, r.(members := RemoveExact(r.members, member)))
    case Quit(room) => DecideQuit(me, room, r)
    case Retitle(room, name) =>
      if name == [] || r.creator != me then NoWrite else SaveRoom(room, r.(name := name))
    case AcceptInvite(room) =>
      if r.state != Invited || !IsMember(r.members, me) then NoWrite else SaveRoom(room, r.(state := Joined))
    case DeclineInvite(room) =>
      if r.state != Invited then NoWrite else DropRoom(room)
    case Send(room, id, body, ts, senderSeq) =>
      if body == [] || |body| > Envelopes.MAX_BODY || !IsMember(r.members, me) || r.state == Invited then NoWrite
      else Post(OutgoingRow(me, c))
    case React(room, msg, emoji) =>
      if emoji == [] || !IsMember(r.members, me) || r.state == Invited then NoWrite
      else Flip(room, msg, me, emoji)
  }

  /** A new room carries a fresh id. */
  function DecideUser(me: Name, c: Command, cap: Option<Room>): Write {
    if c.NewRoom? then
      if c.name == [] || |c.members| == 0 || |c.members| > MAX_MEMBERS - 1 || cap.Some? then NoWrite
      else SaveRoom(c.id, Room(c.name, Dedupe([me] + c.members), me, c.ts, Joined))
    else if cap.None? then NoWrite
    else DecideCommand(me, c, cap.value)
  }

  // ---- everything that happens to a node's rooms ----

  /** Queued: the send loop reaches one more member. */
  datatype Event =
    | FromPeer(peer: Name, e: RoomEvent)
    | MsgFrom(peer: Name, room: Id, id: Id, body: Bytes, ts: int, senderSeq: nat)
    | AckFrom(peer: Name, room: Id, id: Id)
    | ReactionFrom(peer: Name, room: Id, id: Id, emoji: Bytes)
    | User(c: Command)
    | Queued(room: Id, member: Name, msg: Id)

  /** The room whose record is looked up. */
  function RoomOf(e: Event): Id {
    match e
    case FromPeer(_, ev) => ev.room
    case MsgFrom(_, room, _, _, _, _) => room
    case AckFrom(_, room, _) => room
    case ReactionFrom(_, room, _, _) => room
    case User(c) => if c.NewRoom? then c.id else c.room
    case Queued(room, _, _) => room
  }

  function Decide(me: Name, e: Event, cap: Option<Room>): Write {
    match e
    case FromPeer(peer, ev) => DecideEvent(me, peer, ev, cap)
    case MsgFrom(peer, room, id, body, ts, senderSeq) =>
      if Admitted(me, peer, cap)
      then Post(Row(id, room, peer, M.In, body, ts, M.Received, 0, senderSeq, [])) else NoWrite
    case AckFrom(peer, room, id) =>
      if cap.Some? && IsMember(cap.value.members, peer) then Confirm(room, peer, id) else NoWrite
    case ReactionFrom(peer, room, id, emoji) =>
      if Admitted(me, peer, cap) then Flip(room, id, peer, emoji) else NoWrite
    case User(c) => DecideUser(me, c, cap)
    case Queued(room, member, msg) => if member == me then NoWrite else Enter(room, member, msg)
  }

  // ---- one handler after the other ----

  /** A handler that runs from its lookup to its write without anything in between. */
  function Step(w: World, e: Event): World {
    Apply(w, Decide(w.me, e, Find(w, RoomOf(e))))
  }

  function Run(w: World, run: seq<Event>): World
    decreases |run|
  {
    if run == [] then w else Step(Run(w, run[..|run| - 1]), run[|run| - 1])
  }
}
