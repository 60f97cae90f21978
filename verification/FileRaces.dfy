/**
  File calls that overlap. Every link and every command of the user runs its calls
  beside the others, and each call is a series of reads and writes with anything in
  between. Complete still means verified as long as no two calls are at work on the
  same file; what a completion that is overtaken does, and when.
 */
module FileRaces {
  import opened OptionType
  import opened ByteOrder
  import opened Names
  import opened FileDb

  /** What a header announces. */
  datatype Offer = Offer(id: Id, peer: Name, name: Bytes, hash: Bytes, size: nat)

  /** A call, by the read or write it does next and what it holds from the earlier ones. */
  datatype Job =
    // BeginReceive
    | Opening(o: Offer)
    | Recalling(o: Offer)
    | Sizing(o: Offer, prev: Option<File>)
    | Truncating(o: Offer)
    | Recording(o: Offer, resume: nat)
    // WriteChunk; size is the link's own idea of the whole
    | Writing(id: Id, off: nat, data: Bytes, size: nat)
    | Counting(id: Id, off: nat, len: nat, size: nat)
    // CompleteFile
    | Reviewing(id: Id)
    | Hashing(id: Id, rec: File)
    | Keeping(id: Id, rec: File, data: Bytes)
    | Marking(id: Id, rec: File, data: Bytes)
    | Rejecting(id: Id)
    | Clearing(id: Id)
    // AddOutboundFile
    | Preparing(o: Offer, data: Bytes)
    | Storing(o: Offer, data: Bytes)
    | Listing(o: Offer, data: Bytes)
    // the other commands: a transaction, and for two of them the removal of the directory
    | Deciding(op: Local)
    | Removing(id: Id)

  function IdOf(job: Job): Id {
    match job
    case Opening(o) => o.id
    case Recalling(o) => o.id
    case Sizing(o, _) => o.id
    case Truncating(o) => o.id
    case Recording(o, _) => o.id
    case Preparing(o, _) => o.id
    case Storing(o, _) => o.id
    case Listing(o, _) => o.id
    case Deciding(op) => op.id
    case _ => job.id
  }

  function OfferedFile(o: Offer, resume: nat): File {
    File(o.peer, In, o.name, o.size, o.hash, Receiving, resume, 0)
  }

  /** The disk after the next read or write of a call. Without its directory a file cannot be written. */
  function Landed(d: Disk, job: Job): Disk {
    match job
    case Opening(o) => d.(dirs := d.dirs + {o.id})
    case Truncating(o) => if o.id in d.dirs then d.(temp := d.temp[o.id := []]) else d
    case Recording(o, resume) => d.(files := d.files[o.id := OfferedFile(o, resume)])
    case Writing(id, off, data, _) => ChunkTemp(d, id, off, data)
    case Counting(id, off, len, _) =>
      if id !in d.files || off > d.files[id].received then d
      else d.(files := d.files[id := Advance(d.files[id], off, len)])
    case Keeping(id, _, data) => if id in d.dirs then d.(data := d.data[id := data]) else d
    case Marking(id, _, _) => SetStatus(d, id, Complete)
    case Rejecting(id) => SetStatus(d, id, Failed)
    case Clearing(id) => d.(temp := d.temp - {id})
    case Preparing(o, _) => d.(dirs := d.dirs + {o.id})
    case Storing(o, data) => if o.id in d.dirs then d.(data := d.data[o.id := data]) else d
    case Listing(o, data) =>
      d.(files := d.files[o.id := File(o.peer, Out, o.name, |data|, o.hash, Queued, 0, 0)], outbox := d.outbox + {o.id})
    case Deciding(op) => if op.AddOutbound? then d else After(d, LocalWrites(d, op), 1)
    case Removing(id) => RemoveAll(d, id)
    case _ => d
  }

  /** What remains of the call after that. */
  function Next(d: Disk, job: Job, h: Hasher): Option<Job> {
    match job
    case Opening(o) => Some(Recalling(o))
    case Recalling(o) => Some(Sizing(o, if o.id in d.files then Some(d.files[o.id]) else None))
    case Sizing(o, prev) =>
      var resume :=
        if prev.Some? && prev.value.status == Receiving && prev.value.hash == o.hash && prev.value.size == o.size
           && o.id in d.temp && Min(prev.value.received, |d.temp[o.id]|) <= o.size
        then Min(prev.value.received, |d.temp[o.id]|) else 0;
      Some(if resume == 0 then Truncating(o) else Recording(o, resume))
    case Truncating(o) => if o.id in d.dirs then Some(Recording(o, 0)) else None
    case Writing(id, off, data, size) => if id in d.dirs then Some(Counting(id, off, |data|, size)) else None
    case Counting(id, off, len, size) =>
      if id in d.files && off <= d.files[id].received && Advance(d.files[id], off, len).received >= size
      then Some(Reviewing(id)) else None
    case Reviewing(id) =>
      if id in d.files && d.files[id].status == Receiving && d.files[id].received == d.files[id].size
      then Some(Hashing(id, d.files[id])) else None
    case Hashing(id, rec) =>
      if id !in d.temp then None
      else Some(if h(d.temp[id]) == rec.hash then Keeping(id, rec, d.temp[id]) else Rejecting(id))
    case Keeping(id, rec, data) => if id in d.dirs then Some(Marking(id, rec, data)) else None
    case Marking(id, _, _) => if id in d.files then Some(Clearing(id)) else None
    case Rejecting(id) => Some(Clearing(id))
    case Preparing(o, data) => Some(Storing(o, data))
    case Storing(o, data) => if o.id in d.dirs then Some(Listing(o, data)) else None
    case Deciding(op) =>
      if op.Delete? || (op.Cancel? && op.id in d.files && d.files[op.id].status == Receiving)
      then Some(Removing(op.id)) else None
    case _ => None
  }

  // ---- a call that nothing comes between is the call as one step ----

  /** How many reads and writes a call has at most to go. */
  function Left(job: Job): nat {
    match job
    case Opening(_) => 4
    case Recalling(_) => 3
    case Sizing(_, _) => 2
    case Truncating(_) => 1
    case Recording(_, _) => 0
    case Writing(_, _, _, _) => 6
    case Counting(_, _, _, _) => 5
    case Reviewing(_) => 4
    case Hashing(_, _) => 3
    case Keeping(_, _, _) => 2
    case Marking(_, _, _) => 1
    case Rejecting(_) => 1
    case Clearing(_) => 0
    case Preparing(_, _) => 2
    case Storing(_, _) => 1
    case Listing(_, _) => 0
    case Deciding(_) => 1
    case Removing(_) => 0
  }

  /** What a link is in the middle of when its call has ended. */
  function RxAfter(d: Disk, job: Job, rx: Rx): Rx {
    match job
    case Recording(o, _) => Taking(o.id, o.size)
    case Counting(id, off, _, _) => if id in d.files && off <= d.files[id].received then rx else Idle
    case Listing(_, _) => rx
    case Storing(_, _) => rx
    case Deciding(_) => rx
    case Removing(_) => rx
    case _ => Idle
  }

  /** A call run to its end. */
  function Finish(d: Disk, job: Job, rx: Rx, h: Hasher): State
    decreases Left(job)
  {
    match Next(d, job, h)
    case None => State(Landed(d, job), RxAfter(d, job, rx))
    case Some(rest) => Finish(Landed(d, job), rest, rx, h)
  }

  lemma BeginAlone(d: Disk, o: Offer, rx: Rx, h: Hasher)
    ensures Finish(d, Opening(o), rx, h) ==
      State(Last(d, BeginWrites(d, o.id, o.peer, o.name, o.hash, o.size)), Taking(o.id, o.size))
  {
    var d1 := Landed(d, Opening(o));
    var prev := if o.id in d.files then Some(d.files[o.id]) else None;
    var resume := ResumeOffset(d, o.id, o.hash, o.size);
    assert Finish(d, Opening(o), rx, h) == Finish(d1, Recalling(o), rx, h);
    assert Finish(d1, Recalling(o), rx, h) == Finish(d1, Sizing(o, prev), rx, h);
    if resume == 0 {
      var d2 := Landed(d1, Truncating(o));
      assert Finish(d1, Sizing(o, prev), rx, h) == Finish(d1, Truncating(o), rx, h);
      assert Finish(d1, Truncating(o), rx, h) == Finish(d2, Recording(o, 0), rx, h);
    } else {
      assert Finish(d1, Sizing(o, prev), rx, h) == Finish(d1, Recording(o, resume), rx, h);
    }
  }

  lemma KeepAlone(d: Disk, id: Id, rec: File, data: Bytes, rx: Rx, h: Hasher)
    requires id in d.dirs && id in d.files
    ensures var d2 := SetStatus(d.(data := d.data[id := data]), id, Complete);
      Finish(d, Keeping(id, rec, data), rx, h) == State(d2.(temp := d2.temp - {id}), Idle)
  {
    var d1 := d.(data := d.data[id := data]);
    var d2 := SetStatus(d1, id, Complete);
    assert Finish(d, Keeping(id, rec, data), rx, h) == Finish(d1, Marking(id, rec, data), rx, h);
    assert Finish(d1, Marking(id, rec, data), rx, h) == Finish(d2, Clearing(id), rx, h);
  }

  lemma RejectAlone(d: Disk, id: Id, rx: Rx, h: Hasher)
    ensures var d1 := SetStatus(d, id, Failed);
      Finish(d, Rejecting(id), rx, h) == State(d1.(temp := d1.temp - {id}), Idle)
  {
    assert Finish(d, Rejecting(id), rx, h) == Finish(SetStatus(d, id, Failed), Clearing(id), rx, h);
  }

  lemma HashAlone(d: Disk, id: Id, rx: Rx, h: Hasher)
    requires id in d.dirs && id in d.files && Finished(d, id)
    ensures Finish(d, Hashing(id, d.files[id]), rx, h) == State(Last(d, CompleteWrites(d, id, h)), Idle)
  {
    var rec := d.files[id];
    if h(d.temp[id]) == rec.hash {
      assert Finish(d, Hashing(id, rec), rx, h) == Finish(d, Keeping(id, rec, d.temp[id]), rx, h);
      KeepAlone(d, id, rec, d.temp[id], rx, h);
    } else {
      assert Finish(d, Hashing(id, rec), rx, h) == Finish(d, Rejecting(id), rx, h);
      RejectAlone(d, id, rx, h);
    }
  }

  lemma UnfinishedAlone(d: Disk, id: Id, rx: Rx, h: Hasher)
    requires !Finished(d, id)
    ensures Finish(d, Reviewing(id), rx, h) == State(d, Idle)
  {
    if Next(d, Reviewing(id), h).Some? {
      assert Finish(d, Reviewing(id), rx, h) == Finish(d, Hashing(id, d.files[id]), rx, h);
    }
  }

  lemma CompleteAlone(d: Disk, id: Id, rx: Rx, h: Hasher)
    requires id in d.dirs
    ensures Finish(d, Reviewing(id), rx, h) == State(Last(d, CompleteWrites(d, id, h)), Idle)
  {
    if Finished(d, id) {
      assert Finish(d, Reviewing(id), rx, h) == Finish(d, Hashing(id, d.files[id]), rx, h);
      HashAlone(d, id, rx, h);
    } else {
      UnfinishedAlone(d, id, rx, h);
    }
  }

  lemma ChunkAlone(s: State, id: Id, off: nat, data: Bytes, h: Hasher)
    requires s.rx.Taking? && s.rx.id == id
    ensures Finish(s.disk, Writing(id, off, data, s.rx.size), s.rx, h) == Step(s, Chunk(id, off, data), h)
  {
    var d, size := s.disk, s.rx.size;
    if id in d.dirs {
      var d1 := ChunkTemp(d, id, off, data);
      assert Finish(d, Writing(id, off, data, size), s.rx, h) == Finish(d1, Counting(id, off, |data|, size), s.rx, h);
      if ChunkResultOf(d, id, off, |data|).Accepted? && ChunkResultOf(d, id, off, |data|).f.received >= size {
        CompleteAlone(Last(d, ChunkWrites(d, id, off, data)), id, s.rx, h);
      }
    }
  }

  lemma StoreAlone(d: Disk, o: Offer, data: Bytes, rx: Rx, h: Hasher)
    ensures Finish(d, Preparing(o, data), rx, h) ==
      State(Last(d, LocalWrites(d, AddOutbound(o.id, o.peer, o.name, o.hash, data))), rx)
  {
    var d1 := Landed(d, Preparing(o, data));
    var d2 := Landed(d1, Storing(o, data));
    assert Finish(d, Preparing(o, data), rx, h) == Finish(d1, Storing(o, data), rx, h);
    assert Finish(d1, Storing(o, data), rx, h) == Finish(d2, Listing(o, data), rx, h);
  }

  lemma DecideAlone(d: Disk, op: Local, rx: Rx, h: Hasher)
    requires !op.AddOutbound?
    ensures Finish(d, Deciding(op), rx, h) == State(Last(d, LocalWrites(d, op)), rx)
  {
    var d1 := Landed(d, Deciding(op));
    if Next(d, Deciding(op), h).Some? {
      assert Finish(d, Deciding(op), rx, h) == Finish(d1, Removing(op.id), rx, h);
    }
  }

  /** The call an event starts, on a link that is in the middle of rx. */
  function Starts(rx: Rx, e: Event): Option<Job> {
    match e
    case Header(id, peer, name, hash, size) => Some(Opening(Offer(id, peer, name, hash, size)))
    case Chunk(id, off, data) =>
      if rx.Taking? && rx.id == id then Some(Writing(id, off, data, rx.size)) else None
    case User(op) =>
      Some(if op.AddOutbound? then Preparing(Offer(op.id, op.peer, op.name, op.hash, |op.data|), op.data)
           else Deciding(op))
    case Close => None
  }

  /** Run to its end without interruption, a call does what the event does when it is taken as one step. */
  lemma AloneIsStep(s: State, e: Event, h: Hasher)
    requires Starts(s.rx, e).Some?
    ensures Finish(s.disk, Starts(s.rx, e).value, s.rx, h) == Step(s, e, h)
  {
    match e
    case Header(id, peer, name, hash, size) => BeginAlone(s.disk, Offer(id, peer, name, hash, size), s.rx, h);
    case Chunk(id, off, data) => ChunkAlone(s, id, off, data, h);
    case User(op) =>
      if op.AddOutbound? {
        StoreAlone(s.disk, Offer(op.id, op.peer, op.name, op.hash, |op.data|), op.data, s.rx, h);
      } else {
        DecideAlone(s.disk, op, s.rx, h);
      }
  }

  // ---- overlapping calls ----

  /** links: what each is in the middle of; jobs: the call each is in. */
  datatype Race = Race(disk: Disk, links: map<LinkId, Rx>, jobs: map<LinkId, Job>)

  /** Tear: the process dies inside the temp write of a chunk, after part of its bytes. Halt: it dies anywhere else. */
  datatype Tick =
    | Arrive(link: LinkId, e: Event)
    | Land(link: LinkId)
    | Die(link: LinkId)
    | Tear(link: LinkId, cut: nat)
    | Halt

  const READY := Race(BLANK, map[], map[])

  function RxOf(n: Race, link: LinkId): Rx {
    if link in n.links then n.links[link] else Idle
  }

  /** A link takes up an event once its last call has ended. */
  function Taken(n: Race, link: LinkId, e: Event): Race {
    if link in n.jobs then n
    else if e.Close? then n.(links := n.links - {link})
    else match Starts(RxOf(n, link), e)
      case None => n
      case Some(job) => n.(jobs := n.jobs[link := job])
  }

  function LandOne(n: Race, link: LinkId, h: Hasher): Race
    requires link in n.jobs
  {
    var job := n.jobs[link];
    match Next(n.disk, job, h)
    case None =>
      Race(Landed(n.disk, job), n.links[link := RxAfter(n.disk, job, RxOf(n, link))], n.jobs - {link})
    case Some(rest) => Race(Landed(n.disk, job), n.links, n.jobs[link := rest])
  }

  function Torn(n: Race, link: LinkId, cut: nat): Disk {
    if link in n.jobs && n.jobs[link].Writing?
    then var job := n.jobs[link]; ChunkTemp(n.disk, job.id, job.off, job.data[..Min(cut, |job.data|)])
    else n.disk
  }

  function Go(n: Race, t: Tick, h: Hasher): Race {
    match t
    case Arrive(link, e) => Taken(n, link, e)
    case Land(link) => if link in n.jobs then LandOne(n, link, h) else n
    case Die(link) => Race(n.disk, n.links - {link}, n.jobs - {link})
    case Tear(link, cut) => Race(Torn(n, link, cut), map[], map[])
    case Halt => Race(n.disk, map[], map[])
  }

  function Interleave(n: Race, run: seq<Tick>, h: Hasher): Race
    decreases |run|
  {
    if run == [] then n else Go(Interleave(n, run[..|run| - 1], h), run[|run| - 1], h)
  }

  lemma {:induction false} Then(n: Race, a: seq<Tick>, b: seq<Tick>, h: Hasher)
    ensures Interleave(n, a + b, h) == Interleave(Interleave(n, a, h), b, h)
    decreases |b|
  {
    if b == [] {
      assert a + b == a;
    } else {
      var k := |b| - 1;
      assert (a + b)[..|a| + k] == a + b[..k] && (a + b)[|a| + k] == b[k];
      Then(n, a, b[..k], h);
    }
  }

  lemma One(n: Race, t: Tick, h: Hasher)
    ensures Interleave(n, [t], h) == Go(n, t, h)
  {
    assert [t][..0] == [] && Interleave(n, [], h) == n;
  }

  function Lands(link: LinkId, k: nat): seq<Tick> {
    seq(k, _ => Land(link))
  }

  /** While nothing else moves, a call gets to its end in so many ticks. */
  lemma {:induction false} CallEnds(n: Race, link: LinkId, h: Hasher) returns (k: nat)
    requires link in n.jobs
    ensures var s := Finish(n.disk, n.jobs[link], RxOf(n, link), h);
      Interleave(n, Lands(link, k), h) == Race(s.disk, n.links[link := s.rx], n.jobs - {link})
    decreases Left(n.jobs[link])
  {
    var n1 := LandOne(n, link, h);
    One(n, Land(link), h);
    if Next(n.disk, n.jobs[link], h).Some? {
      k := CallEnds(n1, link, h);
      assert n1.jobs - {link} == n.jobs - {link};
    } else {
      k := 0;
      assert Interleave(n1, [], h) == n1;
    }
    assert Lands(link, k + 1) == [Land(link)] + Lands(link, k);
    Then(n, [Land(link)], Lands(link, k), h);
    k := k + 1;
  }

  /** So any event can be handled from start to end as it is when file calls are taken one at a time. */
  lemma HandledAlone(n: Race, link: LinkId, e: Event, h: Hasher) returns (run: seq<Tick>)
    requires link !in n.jobs && Starts(RxOf(n, link), e).Some?
    ensures var s := Step(State(n.disk, RxOf(n, link)), e, h);
      Interleave(n, run, h) == Race(s.disk, n.links[link := s.rx], n.jobs)
  {
    AloneIsStep(State(n.disk, RxOf(n, link)), e, h);
    var n1 := Go(n, Arrive(link, e), h);
    One(n, Arrive(link, e), h);
    var k := CallEnds(n1, link, h);
    assert n1.jobs - {link} == n.jobs;
    Then(n, [Arrive(link, e)], Lands(link, k), h);
    run := [Arrive(link, e)] + Lands(link, k);
  }

  // ---- complete means verified ----

  ghost predicate Hashed(d: Disk, id: Id, h: Hasher) {
    id in d.files && d.files[id].status == Complete ==> id in d.data && h(d.data[id]) == d.files[id].hash
  }

  ghost predicate AllHashed(d: Disk, h: Hasher) {
    forall id :: Hashed(d, id, h)
  }

  /** What the next write of a call must find. */
  ghost predicate Harmless(d: Disk, job: Job, h: Hasher) {
    match job
    case Marking(id, _, _) => id in d.files ==> id in d.data && h(d.data[id]) == d.files[id].hash
    case Keeping(id, _, data) =>
      id in d.dirs && id in d.files && d.files[id].status == Complete ==> h(data) == d.files[id].hash
    case Storing(o, data) =>
      o.id in d.dirs && o.id in d.files && d.files[o.id].status == Complete ==> h(data) == d.files[o.id].hash
    case Removing(id) => id in d.files ==> d.files[id].status != Complete
    case _ => true
  }

  /** A call touches record and data of its own file alone. */
  lemma LandsOnOwn(d: Disk, job: Job, x: Id)
    requires x != IdOf(job)
    ensures var d' := Landed(d, job);
      && (x in d'.files <==> x in d.files) && (x in d.files ==> d'.files[x] == d.files[x])
      && (x in d'.data <==> x in d.data) && (x in d.data ==> d'.data[x] == d.data[x])
  {
  }

  lemma OwnHashedIff(d: Disk, job: Job, h: Hasher)
    requires Hashed(d, IdOf(job), h)
    ensures Hashed(Landed(d, job), IdOf(job), h) <==> Harmless(d, job, h)
  {
  }

  /** Exactly the harmless writes keep complete files verified. */
  lemma LandKeepsHashedIff(d: Disk, job: Job, h: Hasher)
    requires AllHashed(d, h)
    ensures AllHashed(Landed(d, job), h) <==> Harmless(d, job, h)
  {
    var d' := Landed(d, job);
    assert Hashed(d, IdOf(job), h);
    OwnHashedIff(d, job, h);
    forall x | x != IdOf(job) ensures Hashed(d', x, h) {
      assert Hashed(d, x, h);
      LandsOnOwn(d, job, x);
    }
  }

  // ---- no two calls on one file ----

  /** A call starts only while no other is at work on the same file; an outbound file has a fresh id. */
  ghost predicate Calm(n: Race, t: Tick) {
    t.Arrive? && t.link !in n.jobs && Starts(RxOf(n, t.link), t.e).Some? ==>
      var job := Starts(RxOf(n, t.link), t.e).value;
      && (forall l :: l in n.jobs ==> IdOf(n.jobs[l]) != IdOf(job))
      && (job.Preparing? ==> job.o.id !in n.disk.files)
  }

  ghost predicate CalmRun(run: seq<Tick>, h: Hasher)
    decreases |run|
  {
    run == [] ||
    (CalmRun(run[..|run| - 1], h) && Calm(Interleave(READY, run[..|run| - 1], h), run[|run| - 1]))
  }

  /** What a call relies on, from the moment it has read it. */
  ghost predicate Relies(d: Disk, job: Job, h: Hasher) {
    match job
    case Hashing(id, rec) => id in d.files && d.files[id] == rec && rec.status == Receiving
    case Keeping(id, rec, data) =>
      id in d.files && d.files[id] == rec && rec.status == Receiving && h(data) == rec.hash
    case Marking(id, rec, data) =>
      && id in d.files && d.files[id] == rec && rec.status == Receiving && h(data) == rec.hash
      && id in d.data && d.data[id] == data
    case Preparing(o, _) => o.id !in d.files
    case Storing(o, _) => o.id !in d.files
    case Listing(o, _) => o.id !in d.files
    case Removing(id) => id !in d.files
    case _ => true
  }

  lemma ReliesOn(d: Disk, job: Job, h: Hasher)
    requires Relies(d, job, h) && Next(d, job, h).Some?
    ensures IdOf(Next(d, job, h).value) == IdOf(job) && Relies(Landed(d, job), Next(d, job, h).value, h)
  {
  }

  lemma ReliesStill(d: Disk, job: Job, other: Job, h: Hasher)
    requires Relies(d, other, h) && IdOf(other) != IdOf(job)
    ensures Relies(Landed(d, job), other, h)
  {
    LandsOnOwn(d, job, IdOf(other));
  }

  ghost predicate Steady(n: Race, h: Hasher) {
    && AllHashed(n.disk, h)
    && (forall l :: l in n.jobs ==> Relies(n.disk, n.jobs[l], h))
    && (forall l, m :: l in n.jobs && m in n.jobs && l != m ==> IdOf(n.jobs[l]) != IdOf(n.jobs[m]))
  }

  lemma LandSteady(n: Race, link: LinkId, h: Hasher)
    requires Steady(n, h) && link in n.jobs
    ensures Steady(LandOne(n, link, h), h)
  {
    var job, n' := n.jobs[link], LandOne(n, link, h);
    LandKeepsHashedIff(n.disk, job, h);
    if Next(n.disk, job, h).Some? {
      ReliesOn(n.disk, job, h);
    }
    forall l | l in n'.jobs && l != link ensures Relies(n'.disk, n'.jobs[l], h) {
      ReliesStill(n.disk, job, n.jobs[l], h);
    }
  }

  lemma TempHashed(d: Disk, id: Id, off: nat, data: Bytes, h: Hasher)
    requires AllHashed(d, h)
    ensures AllHashed(ChunkTemp(d, id, off, data), h)
  {
    forall x ensures Hashed(ChunkTemp(d, id, off, data), x, h) {
      assert Hashed(d, x, h);
    }
  }

  lemma GoSteady(n: Race, t: Tick, h: Hasher)
    requires Steady(n, h) && Calm(n, t)
    ensures Steady(Go(n, t, h), h)
  {
    match t
    case Arrive(link, e) =>
    case Land(link) =>
      if link in n.jobs {
        LandSteady(n, link, h);
      }
    case Die(link) =>
    case Tear(link, cut) =>
      if link in n.jobs && n.jobs[link].Writing? {
        var job := n.jobs[link];
        TempHashed(n.disk, job.id, job.off, job.data[..Min(cut, |job.data|)], h);
      }
    case Halt =>
  }

  lemma {:induction false} CalmIsSteady(run: seq<Tick>, h: Hasher)
    requires CalmRun(run, h)
    ensures Steady(Interleave(READY, run, h), h)
    decreases |run|
  {
    if run != [] {
      CalmIsSteady(run[..|run| - 1], h);
      GoSteady(Interleave(READY, run[..|run| - 1], h), run[|run| - 1], h);
    }
  }

  /**
    However the calls of any number of links and of the user overlap, and wherever
    the process dies: if no two are ever at work on the same file, FileData yields
    only bytes that hash as recorded.
   */
  lemma {:induction false} OverlappingIsVerified(run: seq<Tick>, h: Hasher, id: Id)
    requires CalmRun(run, h)
    ensures var d := Interleave(READY, run, h).disk;
      && (id in d.files && d.files[id].status == Complete ==> FileData(d, id).Some?)
      && (FileData(d, id).Some? ==> h(FileData(d, id).value) == d.files[id].hash)
  {
    CalmIsSteady(run, h);
    assert Hashed(Interleave(READY, run, h).disk, id, h);
  }

  // ---- a completion that is overtaken ----

  /** A completion that has got as far as writing holds bytes that hash as the record it read says. */
  ghost predicate Checked(job: Job, h: Hasher) {
    job.Keeping? || job.Marking? ==> h(job.data) == job.rec.hash
  }

  lemma {:induction false} AlwaysChecked(run: seq<Tick>, h: Hasher, link: LinkId)
    requires link in Interleave(READY, run, h).jobs
    ensures Checked(Interleave(READY, run, h).jobs[link], h)
    decreases |run|
  {
    var n := Interleave(READY, run[..|run| - 1], h);
    if link in n.jobs {
      AlwaysChecked(run[..|run| - 1], h, link);
    }
  }

  /**
    Every interleaving, overlapping calls on one file included: a completion whose
    bytes are still in place marks the file complete rightly if and only if the
    record, should there be one, still names the hash that was checked.
   */
  lemma {:induction false} LateCompletionIff(run: seq<Tick>, h: Hasher, link: LinkId)
    requires var n := Interleave(READY, run, h);
      && AllHashed(n.disk, h) && link in n.jobs && n.jobs[link].Marking?
      && n.jobs[link].id in n.disk.data && n.disk.data[n.jobs[link].id] == n.jobs[link].data
    ensures var n := Interleave(READY, run, h);
      var id, rec := n.jobs[link].id, n.jobs[link].rec;
      AllHashed(Go(n, Land(link), h).disk, h) <==> (id in n.disk.files ==> n.disk.files[id].hash == rec.hash)
  {
    var n := Interleave(READY, run, h);
    AlwaysChecked(run, h, link);
    LandKeepsHashedIff(n.disk, n.jobs[link], h);
  }

  // ---- a run in which it happens ----

  /** The only file is one that is being received, with this hash. */
  ghost predicate Takes(n: Race, id: Id, hash: Bytes, size: nat, received: nat, temp: Bytes) {
    && n.disk.files.Keys == {id} && n.disk.files[id].status == Receiving && n.disk.files[id].hash == hash
    && n.disk.files[id].size == size && n.disk.files[id].received == received
    && id in n.disk.dirs && id in n.disk.temp && n.disk.temp[id] == temp
  }

  /** A header under an id that is not being received with the same hash starts over. */
  lemma HeaderRun(n: Race, link: LinkId, o: Offer, h: Hasher) returns (run: seq<Tick>)
    requires link !in n.jobs && n.disk.files.Keys <= {o.id}
    requires o.id in n.disk.files ==> n.disk.files[o.id].hash != o.hash
    ensures var n' := Interleave(n, run, h);
      && Takes(n', o.id, o.hash, o.size, 0, []) && n'.disk.data == n.disk.data
      && n'.jobs == n.jobs && RxOf(n', link) == Taking(o.id, o.size)
  {
    run := HandledAlone(n, link, Header(o.id, o.peer, o.name, o.hash, o.size), h);
  }

  lemma LandMore(n: Race, run: seq<Tick>, link: LinkId, h: Hasher) returns (more: seq<Tick>)
    requires link in Interleave(n, run, h).jobs
    ensures more == run + [Land(link)] && Interleave(n, more, h) == LandOne(Interleave(n, run, h), link, h)
  {
    more := run + [Land(link)];
    assert more[..|run|] == run;
  }

  /** The only chunk of a file is written and counted, and the file is full. */
  lemma ChunkCounted(n: Race, link: LinkId, id: Id, data: Bytes, h: Hasher) returns (run: seq<Tick>)
    requires link !in n.jobs && RxOf(n, link) == Taking(id, |data|) && data != []
    requires Takes(n, id, h(data), |data|, 0, [])
    ensures var n' := Interleave(n, run, h);
      && Takes(n', id, h(data), |data|, |data|, data) && n'.disk.data == n.disk.data
      && n'.jobs == n.jobs[link := Reviewing(id)]
  {
    run := [Arrive(link, Chunk(id, 0, data))];
    One(n, run[0], h);
    run := LandMore(n, run, link, h);
    assert Interleave(n, run, h).jobs[link] == Counting(id, 0, |data|, |data|);
    run := LandMore(n, run, link, h);
  }

  /** It is then read, checked and kept, and only the status is left to be set. */
  lemma CheckedAndKept(n: Race, link: LinkId, id: Id, data: Bytes, h: Hasher) returns (run: seq<Tick>)
    requires link in n.jobs && n.jobs[link] == Reviewing(id) && Takes(n, id, h(data), |data|, |data|, data)
    ensures var n' := Interleave(n, run, h);
      && n'.disk == n.disk.(data := n.disk.data[id := data])
      && n'.jobs == n.jobs[link := Marking(id, n.disk.files[id], data)]
  {
    run := [];
    run := LandMore(n, run, link, h);
    assert Interleave(n, run, h).jobs[link] == Hashing(id, n.disk.files[id]);
    run := LandMore(n, run, link, h);
    assert Interleave(n, run, h).jobs[link] == Keeping(id, n.disk.files[id], data);
    run := LandMore(n, run, link, h);
  }

  lemma AlmostComplete(id: Id, peer: Name, name: Bytes, data: Bytes, h: Hasher) returns (run: seq<Tick>, rec: File)
    requires data != []
    ensures var n := Interleave(READY, run, h);
      && Takes(n, id, h(data), |data|, |data|, data) && n.disk.data == map[id := data]
      && n.jobs == map[1 := Marking(id, rec, data)]
  {
    var a := HeaderRun(READY, 1, Offer(id, peer, name, h(data), |data|), h);
    var n1 := Interleave(READY, a, h);
    var b := ChunkCounted(n1, 1, id, data, h);
    var n2 := Interleave(n1, b, h);
    var c := CheckedAndKept(n2, 1, id, data, h);
    run, rec := a + b + c, n2.disk.files[id];
    Then(READY, a, b, h);
    Then(READY, a + b, c, h);
  }

  /**
    One link has checked and kept a file and has only its status left to set; another
    link's header starts a file with a different hash under the same id; and the
    status is set: the file is complete, and its bytes are not those its hash names.
   */
  lemma CompletionIsOvertaken(id: Id, peer: Name, name: Bytes, data: Bytes, hash: Bytes, size: nat, h: Hasher)
    returns (run: seq<Tick>)
    requires data != [] && h(data) != hash
    ensures run != [] && AllHashed(Interleave(READY, run[..|run| - 1], h).disk, h)
    ensures var d := Interleave(READY, run, h).disk;
      id in d.files && d.files[id].hash == hash && FileData(d, id) == Some(data) && h(data) != hash
  {
    var first, rec := AlmostComplete(id, peer, name, data, h);
    var n := Interleave(READY, first, h);
    var second := HeaderRun(n, 2, Offer(id, peer, name, hash, size), h);
    Then(READY, first, second, h);
    run := LandMore(READY, first + second, 1, h);
    assert run[..|run| - 1] == first + second;
    var d := Interleave(READY, first + second, h).disk;
    forall x ensures Hashed(d, x, h) {
      assert x in d.files ==> x in d.files.Keys;
    }
  }
}
