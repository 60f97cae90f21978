/**
  Received files: the record in the database and the bytes on disk are separate
  state. Each operation is the list of states its successive atomic writes leave
  behind, so a crash is stopping somewhere in that list.
 */
module FileDb {
  import opened OptionType
  import opened ByteOrder
  import opened Names

  datatype Direction = In | Out
  datatype FileStatus = Queued | Sending | Sent | Receiving | Complete | Failed

  /** hash stands for the advertised SHA-256 of the whole file. */
  datatype File = File(
    peer: Name, dir: Direction, name: Bytes, size: nat, hash: Bytes,
    status: FileStatus, received: nat, sent: nat)

  /** files and outbox are buckets; dirs, temp and data are the directories, data.tmp and data.enc files. */
  datatype Disk = Disk(
    files: map<Id, File>, outbox: set<Id>, dirs: set<Id>, temp: map<Id, Bytes>, data: map<Id, Bytes>)

  const BLANK := Disk(map[], {}, {}, map[], map[])

  type Hasher = Bytes -> Bytes

  // ---- byte files ----

  function Zeros(n: nat): Bytes {
    seq(n, _ => 0)
  }

  /** pwrite: writing past the end fills the hole with zeros. */
  function WriteAt(file: Bytes, off: nat, data: Bytes): Bytes {
    if data == [] then file
    else if off > |file| then file + Zeros(off - |file|) + data
    else if off + |data| >= |file| then file[..off] + data
    else file[..off] + data + file[off + |data|..]
  }

  function TempOf(d: Disk, id: Id): Bytes {
    if id in d.temp then d.temp[id] else []
  }

  function Min(a: nat, b: nat): nat {
    if a < b then a else b
  }

  // ---- BeginReceive ----

  function ResumeOffset(d: Disk, id: Id, hash: Bytes, size: nat): nat {
    if id in d.files && d.files[id].status == Receiving && d.files[id].hash == hash && d.files[id].size == size
       && id in d.temp then
      var r := Min(d.files[id].received, |d.temp[id]|);
      if r > size then 0 else r
    else 0
  }

  function BeginWrites(d: Disk, id: Id, peer: Name, name: Bytes, hash: Bytes, size: nat): seq<Disk> {
    var resume := ResumeOffset(d, id, hash, size);
    var d1 := d.(dirs := d.dirs + {id});
    var d2 := d1.(temp := d1.temp[id := []]);
    var f := File(peer, In, name, size, hash, Receiving, resume, 0);
    if resume == 0
    then [d1, d2, d2.(files := d2.files[id := f])]
    else [d1, d1.(files := d1.files[id := f])]
  }

  // ---- WriteChunk ----

  datatype ChunkResult = Refused | Accepted(f: File)

  function Advance(f: File, off: nat, len: nat): File {
    var r := if off + len > f.received then off + len else f.received;
    f.(received := Min(r, f.size))
  }

  function ChunkResultOf(d: Disk, id: Id, off: nat, len: nat): ChunkResult {
    if id !in d.dirs || id !in d.files || off > d.files[id].received then Refused
    else Accepted(Advance(d.files[id], off, len))
  }

  /** The bytes go to the temp file before the record decides whether they fit. */
  function ChunkTemp(d: Disk, id: Id, off: nat, data: Bytes): Disk {
    if id !in d.dirs then d else d.(temp := d.temp[id := WriteAt(TempOf(d, id), off, data)])
  }

  function ChunkWrites(d: Disk, id: Id, off: nat, data: Bytes): seq<Disk> {
    if id !in d.dirs then [] else
      var d1 := ChunkTemp(d, id, off, data);
      match ChunkResultOf(d, id, off, |data|)
      case Refused => [d1]
      case Accepted(f) => [d1, d1.(files := d1.files[id := f])]
  }

  // ---- CompleteFile ----

  function SetStatus(d: Disk, id: Id, s: FileStatus): Disk {
    if id in d.files then d.(files := d.files[id := d.files[id].(status := s)]) else d
  }

  predicate Finished(d: Disk, id: Id) {
    && id in d.files && d.files[id].status == Receiving
    && d.files[id].received == d.files[id].size
    && id in d.temp
  }

  function CompleteWrites(d: Disk, id: Id, h: Hasher): seq<Disk> {
    if !Finished(d, id) then []
    else if h(d.temp[id]) != d.files[id].hash then
      var d1 := SetStatus(d, id, Failed);
      [d1, d1.(temp := d1.temp - {id})]
    else
      var d1 := d.(data := d.data[id := d.temp[id]]);
      var d2 := SetStatus(d1, id, Complete);
      [d1, d2, d2.(temp := d2.temp - {id})]
  }

  function FileData(d: Disk, id: Id): Option<Bytes> {
    if id in d.files && d.files[id].status == Complete && id in d.data then Some(d.data[id]) else None
  }

  // ---- the operations a user starts ----

  datatype Local =
    | AddOutbound(id: Id, peer: Name, name: Bytes, hash: Bytes, data: Bytes)
    | MarkSent(id: Id)
    | MarkSending(id: Id)
    | DropOutbox(id: Id)
    | Cancel(id: Id)
    | Delete(id: Id)

  function RemoveAll(d: Disk, id: Id): Disk {
    d.(dirs := d.dirs - {id}, temp := d.temp - {id}, data := d.data - {id})
  }

  function LocalWrites(d: Disk, op: Local): seq<Disk> {
    match op
    case AddOutbound(id, peer, name, hash, data) =>
      var d1 := d.(dirs := d.dirs + {id});
      var d2 := d1.(data := d1.data[id := data]);
      var f := File(peer, Out, name, |data|, hash, Queued, 0, 0);
      [d1, d2, d2.(files := d2.files[id := f], outbox := d2.outbox + {id})]
    case MarkSent(id) =>
      [if id in d.files
       then d.(files := d.files[id := d.files[id].(status := Sent, sent := d.files[id].size)],
               outbox := d.outbox - {id})
       else d.(outbox := d.outbox - {id})]
    case MarkSending(id) =>
      if id !in d.files then [] else
        var f := d.files[id];
        [d.(files := d.files[id := f.(status := if f.status == Queued then Sending else f.status, sent := 0)])]
    case DropOutbox(id) =>
      [SetStatus(d.(outbox := d.outbox - {id}), id, Queued)]
    case Cancel(id) =>
      if id in d.files && d.files[id].status == Receiving then
        var d1 := d.(files := d.files - {id});
        [d1, RemoveAll(d1, id)]
      else []
    case Delete(id) =>
      var d1 := d.(files := d.files - {id}, outbox := d.outbox - {id});
      [d1, RemoveAll(d1, id)]
  }

  // ---- a receiving link ----

  /** The transfer the link is in the middle of. */
  datatype Rx = Idle | Taking(id: Id, size: nat)

  datatype State = State(disk: Disk, rx: Rx)

  datatype Event =
    | Header(id: Id, peer: Name, name: Bytes, hash: Bytes, size: nat)
    | Chunk(id: Id, off: nat, data: Bytes)
    | User(op: Local)
    | Close

  /** The state after the first stop writes, or after all of them. */
  function After(d: Disk, writes: seq<Disk>, stop: nat): Disk {
    if stop == 0 || writes == [] then d
    else if stop <= |writes| then writes[stop - 1]
    else writes[|writes| - 1]
  }

  function Last(d: Disk, writes: seq<Disk>): Disk {
    After(d, writes, |writes|)
  }

  /** All writes a chunk leads to, including completion when the file is full. */
  function ChunkAll(d: Disk, id: Id, off: nat, data: Bytes, size: nat, h: Hasher): seq<Disk> {
    var w := ChunkWrites(d, id, off, data);
    match ChunkResultOf(d, id, off, |data|)
    case Refused => w
    case Accepted(f) => if f.received >= size then w + CompleteWrites(Last(d, w), id, h) else w
  }

  function Writes(s: State, e: Event, h: Hasher): seq<Disk> {
    match e
    case Header(id, peer, name, hash, size) => BeginWrites(s.disk, id, peer, name, hash, size)
    case Chunk(id, off, data) =>
      if s.rx.Taking? && s.rx.id == id then ChunkAll(s.disk, id, off, data, s.rx.size, h) else []
    case User(op) => LocalWrites(s.disk, op)
    case Close => []
  }

  /** What the link is doing once the event has run to its end. */
  function NextRx(s: State, e: Event): Rx {
    match e
    case Header(id, _, _, _, size) => Taking(id, size)
    case Chunk(id, off, data) =>
      if !s.rx.Taking? || s.rx.id != id then s.rx else
        (match ChunkResultOf(s.disk, id, off, |data|)
         case Refused => Idle
         case Accepted(f) => if f.received >= s.rx.size then Idle else s.rx)
    case User(_) => s.rx
    case Close => Idle
  }

  function Step(s: State, e: Event, h: Hasher): State {
    State(Last(s.disk, Writes(s, e, h)), NextRx(s, e))
  }

  /** The process dies after the first stop writes of the event; the link dies with it. */
  function Crash(s: State, e: Event, stop: nat, h: Hasher): State {
    State(After(s.disk, Writes(s, e, h), stop), Idle)
  }

  /** The process dies inside the temp write of a chunk, after part of its bytes. */
  function Torn(s: State, id: Id, off: nat, part: Bytes): State {
    State(if s.rx.Taking? && s.rx.id == id then ChunkTemp(s.disk, id, off, part) else s.disk, Idle)
  }

  // ---- the whole node: one store, any number of links ----

  type LinkId = nat

  datatype Node = Node(disk: Disk, links: map<LinkId, Rx>)

  /** The store as one link sees it. */
  function At(n: Node, link: LinkId): State {
    State(n.disk, if link in n.links then n.links[link] else Idle)
  }

  datatype Action =
    | Do(link: LinkId, e: Event)
    | CrashIn(link: LinkId, e: Event, stop: nat)
    | TornWrite(link: LinkId, id: Id, off: nat, data: Bytes, cut: nat)

  /** A crash takes every link with it. */
  function Act(n: Node, a: Action, h: Hasher): Node {
    match a
    case Do(link, e) => var s := Step(At(n, link), e, h); Node(s.disk, n.links[link := s.rx])
    case CrashIn(link, e, stop) => Node(Crash(At(n, link), e, stop, h).disk, map[])
    case TornWrite(link, id, off, data, cut) => Node(Torn(At(n, link), id, off, data[..Min(cut, |data|)]).disk, map[])
  }

  function Run(n: Node, run: seq<Action>, h: Hasher): Node
    decreases |run|
  {
    if run == [] then n else Act(Run(n, run[..|run| - 1], h), run[|run| - 1], h)
  }

  const START := Node(BLANK, map[])
}
