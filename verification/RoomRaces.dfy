/**
  Handlers that overlap. Each looks up the room in one transaction and writes in
  another, and nothing keeps the rest of the node still in between: every link has
  its own read loop, and the user's commands run beside them. A send goes on to
  queue the message for one member after the other.
 */
module RoomRaces {
  import opened OptionType
  import opened Names
  import opened RoomDb
  import opened RoomRows
  import opened RoomRules

  /** A handler between its lookup and its write, or a send with members still to queue for. */
  datatype Job = Looked(e: Event, cap: Option<Room>) | Queueing(room: Id, msg: Id, rest: seq<Name>)

  datatype Node = Node(w: World, jobs: map<nat, Job>)

  /** Die: the handler fails, or the process does. */
  datatype Tick = Look(j: nat, e: Event) | Land(j: nat) | Die(j: nat)

  function Begin(me: Name): Node {
    Node(Start(me), map[])
  }

  /** What a tick writes. */
  function WriteOf(n: Node, t: Tick): Write {
    if !t.Land? || t.j !in n.jobs then NoWrite else
      match n.jobs[t.j]
      case Looked(e, cap) => Decide(n.w.me, e, cap)
      case Queueing(room, msg, rest) =>
        if rest == [] then NoWrite else Decide(n.w.me, Queued(room, rest[0], msg), None)
  }

  /** What the handler goes on to do after its write. */
  function After(w: World, job: Job): Option<Job> {
    match job
    case Looked(e, cap) =>
      if e.User? && e.c.Send? && cap.Some? && Decide(w.me, e, cap).Post? && e.c.id !in w.idx
      then Some(Queueing(e.c.room, e.c.id, cap.value.members)) else None
    case Queueing(room, msg, rest) =>
      if rest == [] then None else Some(Queueing(room, msg, rest[1..]))
  }

  function NextJobs(n: Node, t: Tick): map<nat, Job> {
    match t
    case Look(j, e) => if j in n.jobs || e.Queued? then n.jobs else n.jobs[j := Looked(e, Find(n.w, RoomOf(e)))]
    case Land(j) =>
      if j !in n.jobs then n.jobs else
        (match After(n.w, n.jobs[j])
         case None => n.jobs - {j}
         case Some(job) => n.jobs[j := job])
    case Die(j) => n.jobs - {j}
  }

  function Advance(n: Node, t: Tick): Node {
    Node(Apply(n.w, WriteOf(n, t)), NextJobs(n, t))
  }

  function Interleave(n: Node, run: seq<Tick>): Node
    decreases |run|
  {
    if run == [] then n else Advance(Interleave(n, run[..|run| - 1]), run[|run| - 1])
  }

  /** The state after the first i ticks of a run from the start. */
  function At(me: Name, run: seq<Tick>, i: nat): Node
    requires i <= |run|
  {
    Interleave(Begin(me), run[..i])
  }

  lemma Two(n: Node, a: Tick, b: Tick)
    ensures Interleave(n, [a, b]) == Advance(Advance(n, a), b)
  {
    assert [a, b][..1] == [a] && [a][..0] == [];
    assert Interleave(n, []) == n && Interleave(n, [a]) == Advance(n, a);
  }

  lemma {:induction false} Then(n: Node, a: seq<Tick>, b: seq<Tick>)
    ensures Interleave(n, a + b) == Interleave(Interleave(n, a), b)
    decreases |b|
  {
    if b == [] {
      assert a + b == a;
    } else {
      var k := |b| - 1;
      assert (a + b)[..|a| + k] == a + b[..k] && (a + b)[|a| + k] == b[k];
      Then(n, a, b[..k]);
    }
  }

  /** A handler that nothing comes between, while no other is at work. */
  lemma Whole(w: World, e: Event)
    requires !e.Queued? && !(e.User? && e.c.Send?)
    ensures Interleave(Node(w, map[]), [Look(0, e), Land(0)]) == Node(Step(w, e), map[])
  {
    Two(Node(w, map[]), Look(0, e), Land(0));
    assert Advance(Node(w, map[]), Look(0, e)) == Node(w, map[0 := Looked(e, Find(w, RoomOf(e)))]);
  }

  // ---- a run is the sequence of its writes ----

  function Writes(me: Name, run: seq<Tick>): seq<Write>
    decreases |run|
  {
    if run == [] then [] else
      Writes(me, run[..|run| - 1]) + [WriteOf(Interleave(Begin(me), run[..|run| - 1]), run[|run| - 1])]
  }

  lemma {:induction false} RunIsItsWrites(me: Name, run: seq<Tick>)
    ensures Interleave(Begin(me), run).w == ApplyAll(Start(me), Writes(me, run))
    decreases |run|
  {
    if run != [] {
      var before := run[..|run| - 1];
      RunIsItsWrites(me, before);
      var ws := Writes(me, run);
      assert ws[..|ws| - 1] == Writes(me, before);
    }
  }

  lemma ApplyKeepsMe(w: World, wr: Write)
    ensures Apply(w, wr).me == w.me
  {
  }

  lemma {:induction false} MeIsFixed(me: Name, run: seq<Tick>)
    ensures Interleave(Begin(me), run).w.me == me
    decreases |run|
  {
    if run != [] {
      var n := Interleave(Begin(me), run[..|run| - 1]);
      MeIsFixed(me, run[..|run| - 1]);
      ApplyKeepsMe(n.w, WriteOf(n, run[|run| - 1]));
    }
  }

  // ---- what survives every interleaving ----

  ghost predicate CapturesGood(jobs: map<nat, Job>) {
    forall j :: j in jobs && jobs[j].Looked? ==> GoodRoom(jobs[j].cap)
  }

  lemma StepMembersGood(n: Node, t: Tick)
    requires RoomsGood(n.w) && CapturesGood(n.jobs)
    ensures RoomsGood(Advance(n, t).w) && CapturesGood(Advance(n, t).jobs)
  {
    if t.Land? && t.j in n.jobs && n.jobs[t.j].Looked? && WriteOf(n, t).SaveRoom? {
      DecideGood(n.w.me, n.jobs[t.j].e, n.jobs[t.j].cap);
    }
    ApplyRoomsGood(n.w, WriteOf(n, t));
  }

  /** Every interleaving: at most 32 members, sorted, distinct up to case; rows and index in agreement. */
  lemma {:induction false} RacesKeepGood(me: Name, run: seq<Tick>)
    ensures var n := Interleave(Begin(me), run); RoomsGood(n.w) && CapturesGood(n.jobs) && Indexed(n.w)
    decreases |run|
  {
    if run != [] {
      var n, t := Interleave(Begin(me), run[..|run| - 1]), run[|run| - 1];
      RacesKeepGood(me, run[..|run| - 1]);
      StepMembersGood(n, t);
      ApplyIndexed(n.w, WriteOf(n, t));
    }
  }

  /**
    A handler about to write looked up the room at some earlier tick, and what it
    holds is the record of that moment.
   */
  lemma {:induction false} LookedEarlier(me: Name, run: seq<Tick>, j: nat) returns (i: nat)
    requires j in Interleave(Begin(me), run).jobs && Interleave(Begin(me), run).jobs[j].Looked?
    ensures var job := Interleave(Begin(me), run).jobs[j];
      && i < |run| && run[i] == Look(j, job.e) && job.cap == Find(At(me, run, i).w, RoomOf(job.e))
    decreases |run|
  {
    var k := |run| - 1;
    var before := run[..k];
    var n := Interleave(Begin(me), before);
    if j in n.jobs && n.jobs[j] == Interleave(Begin(me), run).jobs[j] {
      i := LookedEarlier(me, before, j);
      assert before[..i] == run[..i];
    } else {
      i := k;
    }
  }

  // -- nobody joins us, and nobody owns a room, without having said so --

  /** Somebody looked up the room for an event with this property. */
  ghost predicate Happened(run: seq<Tick>, p: Event -> bool) {
    exists i :: 0 <= i < |run| && run[i].Look? && p(run[i].e)
  }

  lemma HappenedBefore(run: seq<Tick>, p: Event -> bool)
    requires run != [] && Happened(run[..|run| - 1], p)
    ensures Happened(run, p)
  {
    var i :| 0 <= i < |run| - 1 && run[..|run| - 1][i].Look? && p(run[..|run| - 1][i].e);
    assert run[i] == run[..|run| - 1][i];
  }

  function ConsentTo(room: Id): Event -> bool {
    (e: Event) => Consents(e, room)
  }

  ghost predicate CaptureJoined(n: Node, j: nat, room: Id) {
    && j in n.jobs && n.jobs[j].Looked? && RoomOf(n.jobs[j].e) == room
    && n.jobs[j].cap.Some? && n.jobs[j].cap.value.state == Joined
  }

  ghost predicate ConsentPending(n: Node, j: nat, room: Id) {
    j in n.jobs && n.jobs[j].Looked? && ConsentTo(room)(n.jobs[j].e)
  }

  ghost predicate AnyJoined(n: Node, room: Id) {
    || HasJoined(n.w, room)
    || (exists j :: CaptureJoined(n, j, room))
    || (exists j :: ConsentPending(n, j, room))
  }

  lemma StepJoined(n: Node, t: Tick, room: Id)
    requires AnyJoined(Advance(n, t), room)
    ensures AnyJoined(n, room) || (t.Look? && ConsentTo(room)(t.e))
  {
    var n' := Advance(n, t);
    if HasJoined(n'.w, room) && !HasJoined(n.w, room) {
      var job := n.jobs[t.j];
      DecideTarget(n.w.me, job.e, job.cap);
      OnlyConsentJoins(n.w.me, job.e, job.cap);
      assert CaptureJoined(n, t.j, room) || ConsentPending(n, t.j, room);
    } else if exists j :: CaptureJoined(n', j, room) {
      var j :| CaptureJoined(n', j, room);
      assert CaptureJoined(n, j, room) || HasJoined(n.w, room);
    } else if exists j :: ConsentPending(n', j, room) {
      var j :| ConsentPending(n', j, room);
      assert ConsentPending(n, j, room) || t == Look(j, n'.jobs[j].e);
    }
  }

  /** Every interleaving: a room we have joined is one the user accepted or created at some time. */
  lemma {:induction false} JoinedOnlyAfterConsent(me: Name, run: seq<Tick>, room: Id)
    requires AnyJoined(Interleave(Begin(me), run), room)
    ensures Happened(run, ConsentTo(room))
    decreases |run|
  {
    if run != [] {
      var k := |run| - 1;
      StepJoined(Interleave(Begin(me), run[..k]), run[k], room);
      if AnyJoined(Interleave(Begin(me), run[..k]), room) {
        JoinedOnlyAfterConsent(me, run[..k], room);
        HappenedBefore(run, ConsentTo(room));
      }
    }
  }

  /** c sent us the room, or created it here. */
  function FoundedBy(me: Name, room: Id, c: Name): Event -> bool {
    (e: Event) =>
      || (e.FromPeer? && e.peer == c && e.e.Create? && e.e.room == room)
      || (e.User? && e.c.NewRoom? && e.c.id == room && c == me)
  }

  /** We quit a room of our own, in which c is the first of the others. */
  ghost predicate Bequeaths(me: Name, e: Event, cap: Option<Room>, room: Id, c: Name) {
    e == User(Quit(room)) && cap.Some? && cap.value.creator == me && Heir(cap.value.members, me) == Some(c)
  }

  /** A handler that may save c as the room's creator. */
  ghost predicate Promises(me: Name, e: Event, cap: Option<Room>, room: Id, c: Name) {
    || (RoomOf(e) == room && cap.Some? && cap.value.creator == c)
    || FoundedBy(me, room, c)(e)
    || Bequeaths(me, e, cap, room, c)
  }

  ghost predicate Promised(n: Node, j: nat, room: Id, c: Name) {
    j in n.jobs && n.jobs[j].Looked? && Promises(n.w.me, n.jobs[j].e, n.jobs[j].cap, room, c)
  }

  ghost predicate Owned(w: World, room: Id, c: Name) {
    room in w.rooms && w.rooms[room].creator == c
  }

  ghost predicate AnyOwned(n: Node, room: Id, c: Name) {
    Owned(n.w, room, c) || exists j :: Promised(n, j, room, c)
  }

  /** Whatever was looked up, what is saved keeps the creator found, or has its founder, or our heir, for one. */
  lemma DecideCreator(me: Name, e: Event, cap: Option<Room>)
    requires Decide(me, e, cap).SaveRoom?
    ensures Promises(me, e, cap, RoomOf(e), Decide(me, e, cap).record.creator)
  {
    if !e.User? {
      RemoteKeepsCreator(me, e, cap);
    }
  }

  lemma LandOwned(n: Node, t: Tick, room: Id, c: Name)
    requires Owned(Advance(n, t).w, room, c) && !Owned(n.w, room, c)
    ensures Promised(n, t.j, room, c)
  {
    var job := n.jobs[t.j];
    DecideTarget(n.w.me, job.e, job.cap);
    DecideCreator(n.w.me, job.e, job.cap);
  }

  /** The tick that makes c an owner to be. */
  ghost predicate Makes(n: Node, t: Tick, room: Id, c: Name) {
    t.Look? && (FoundedBy(n.w.me, room, c)(t.e) || Bequeaths(n.w.me, t.e, Find(n.w, room), room, c))
  }

  lemma StepOwned(n: Node, t: Tick, room: Id, c: Name)
    requires AnyOwned(Advance(n, t), room, c)
    ensures AnyOwned(n, room, c) || Makes(n, t, room, c)
  {
    var n' := Advance(n, t);
    ApplyKeepsMe(n.w, WriteOf(n, t));
    if Owned(n'.w, room, c) && !Owned(n.w, room, c) {
      LandOwned(n, t, room, c);
    } else if exists j :: Promised(n', j, room, c) {
      var j :| Promised(n', j, room, c);
      assert Promised(n, j, room, c) || Owned(n.w, room, c) || t == Look(j, n'.jobs[j].e);
    }
  }

  /**
    Every interleaving: the creator of a room is a peer who sent it to us, or we who
    made it, or the first other member of a record of ours that we looked up to quit.
   */
  lemma {:induction false} CreatorHasFounded(me: Name, run: seq<Tick>, room: Id, c: Name) returns (i: nat)
    requires AnyOwned(Interleave(Begin(me), run), room, c)
    ensures i < |run| && Makes(At(me, run, i), run[i], room, c)
    decreases |run|
  {
    var k := |run| - 1;
    if AnyOwned(At(me, run, k), room, c) {
      i := CreatorHasFounded(me, run[..k], room, c);
      assert run[..k][..i] == run[..i];
    } else {
      StepOwned(At(me, run, k), run[k], room, c);
      i := k;
    }
  }

  // ---- when nothing comes in between ----

  /** A write lands on the very record its handler looked up. */
  ghost predicate LandsUnchanged(n: Node, t: Tick) {
    t.Land? && t.j in n.jobs && n.jobs[t.j].Looked? ==>
      n.jobs[t.j].cap == Find(n.w, RoomOf(n.jobs[t.j].e))
  }

  /** Every write of the run does. */
  ghost predicate Undisturbed(me: Name, run: seq<Tick>)
    decreases |run|
  {
    run == [] || (
      var before := run[..|run| - 1];
      Undisturbed(me, before) && LandsUnchanged(Interleave(Begin(me), before), run[|run| - 1]))
  }

  /** The handler whose write a tick is. */
  function LandedBy(n: Node, t: Tick): Option<Event> {
    if !t.Land? || t.j !in n.jobs then None else
      match n.jobs[t.j]
      case Looked(e, _) => Some(e)
      case Queueing(room, msg, rest) => if rest == [] then None else Some(Queued(room, rest[0], msg))
  }

  /** The handlers that have written, in the order of their writes. */
  function Landed(me: Name, run: seq<Tick>): seq<Event>
    decreases |run|
  {
    if run == [] then [] else
      var last := LandedBy(Interleave(Begin(me), run[..|run| - 1]), run[|run| - 1]);
      Landed(me, run[..|run| - 1]) + if last.Some? then [last.value] else []
  }

  /** A write that lands on the record its handler saw is the whole handler, run at that moment. */
  lemma LandsAsHandled(n: Node, t: Tick)
    requires LandsUnchanged(n, t)
    ensures Advance(n, t).w == if LandedBy(n, t).Some? then Step(n.w, LandedBy(n, t).value) else n.w
  {
  }

  lemma SerialSnoc(w: World, run: seq<Event>, e: Event)
    ensures Run(w, run + [e]) == Step(Run(w, run), e)
  {
    assert (run + [e])[..|run|] == run;
  }

  /** If every write lands on the record its handler saw, the handlers might as well have run one after the other. */
  lemma {:induction false} UndisturbedIsSerial(me: Name, run: seq<Tick>)
    requires Undisturbed(me, run)
    ensures Interleave(Begin(me), run).w == Run(Start(me), Landed(me, run))
    decreases |run|
  {
    if run != [] {
      var before, t := run[..|run| - 1], run[|run| - 1];
      UndisturbedIsSerial(me, before);
      LandsAsHandled(Interleave(Begin(me), before), t);
      var last := LandedBy(Interleave(Begin(me), before), t);
      if last.Some? {
        SerialSnoc(Start(me), Landed(me, before), last.value);
      } else {
        assert Landed(me, run) == Landed(me, before);
      }
    }
  }

  /** So every message is then in a room we have joined. */
  lemma {:induction false} UndisturbedIsHeld(me: Name, run: seq<Tick>)
    requires Undisturbed(me, run)
    ensures Held(Interleave(Begin(me), run).w)
  {
    UndisturbedIsSerial(me, run);
    RunGood(me, Landed(me, run));
  }

  /** A joined room was then accepted or created at some write, and has been held as joined ever since. */
  lemma {:induction false} UndisturbedConsent(me: Name, run: seq<Tick>, room: Id) returns (i: nat)
    requires Undisturbed(me, run) && HasJoined(Interleave(Begin(me), run).w, room)
    ensures var landed := Landed(me, run);
      && i < |landed| && Consents(landed[i], room)
      && forall j :: i < j <= |landed| ==> HasJoined(Run(Start(me), landed[..j]), room)
  {
    UndisturbedIsSerial(me, run);
    i := JoinedByConsent(me, Landed(me, run), room);
  }

  /** The tick writes nothing, or what somebody other than the creator sent, on the record its handler saw. */
  ghost predicate OutsiderTick(n: Node, t: Tick, creator: Name, senders: set<Name>) {
    && LandsUnchanged(n, t)
    && (LandedBy(n, t).Some? ==>
        var e := LandedBy(n, t).value;
        e.FromPeer? && e.peer in senders && e.peer != creator && e.peer != n.w.me)
  }

  ghost predicate OutsiderRun(n: Node, run: seq<Tick>, creator: Name, senders: set<Name>) {
    forall i :: 0 <= i < |run| ==> OutsiderTick(Interleave(n, run[..i]), run[i], creator, senders)
  }

  /**
    However outsiders' events overlap, if each write lands on the record its
    handler saw the room stays as it is but for those of them who leave.
   */
  lemma {:induction false} OverlappingOutsiders(n: Node, run: seq<Tick>, room: Id, senders: set<Name>)
    requires room in n.w.rooms && OutsiderRun(n, run, n.w.rooms[room].creator, senders)
    ensures var w' := Interleave(n, run).w;
      w'.me == n.w.me && room in w'.rooms && Untouched(n.w.rooms[room], w'.rooms[room], senders)
    decreases |run|
  {
    if run != [] {
      var k := |run| - 1;
      var before, n1 := run[..k], Interleave(n, run[..k]);
      forall i | 0 <= i < k
        ensures OutsiderTick(Interleave(n, before[..i]), before[i], n.w.rooms[room].creator, senders)
      {
        assert before[..i] == run[..i];
      }
      OverlappingOutsiders(n, before, room, senders);
      assert OutsiderTick(Interleave(n, run[..k]), run[k], n.w.rooms[room].creator, senders);
      LandsAsHandled(n1, run[k]);
      if LandedBy(n1, run[k]).Some? {
        OutsiderEvent(n1.w, LandedBy(n1, run[k]).value.peer, LandedBy(n1, run[k]).value.e, room);
      }
    }
  }
}
