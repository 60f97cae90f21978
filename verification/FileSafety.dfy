/**
  What can be relied on whoever sends: a complete file is the file its hash
  names. And what can be relied on when the sender is honest: a partial is a
  prefix of that file, whatever crashes in between.
 */
module FileSafety {
  import opened ByteOrder
  import opened Names
  import opened FileDb

  // ---- any sender: complete means verified ----

  ghost predicate Verified(d: Disk, id: Id, h: Hasher)
    requires id in d.files
  {
    d.files[id].status == Complete ==>
      id in d.data && h(d.data[id]) == d.files[id].hash && |d.data[id]| >= d.files[id].size
  }

  ghost predicate Genuine(d: Disk, h: Hasher) {
    forall id :: id in d.files ==> Verified(d, id, h)
  }

  /** While a link is taking a file, the temp file is at least as long as the record says. */
  ghost predicate Backed(d: Disk, rx: Rx) {
    rx.Taking? && rx.id in d.files && d.files[rx.id].status == Receiving ==>
      rx.id in d.temp && |d.temp[rx.id]| >= d.files[rx.id].received
  }

  /** Ids of outbound files have never been used before. */
  predicate FreshIds(s: State, e: Event) {
    e.User? && e.op.AddOutbound? ==> e.op.id !in s.disk.files && !(s.rx.Taking? && s.rx.id == e.op.id)
  }

  ghost predicate AllGenuine(ws: seq<Disk>, h: Hasher) {
    forall i :: 0 <= i < |ws| ==> Genuine(ws[i], h)
  }

  lemma BeginGenuine(d: Disk, id: Id, peer: Name, name: Bytes, hash: Bytes, size: nat, h: Hasher)
    requires Genuine(d, h)
    ensures var w := BeginWrites(d, id, peer, name, hash, size);
      AllGenuine(w, h) && Backed(Last(d, w), Taking(id, size))
  {
    var w := BeginWrites(d, id, peer, name, hash, size);
    forall i, x | 0 <= i < |w| && x in w[i].files ensures Verified(w[i], x, h) {
      assert x in d.files ==> Verified(d, x, h);
    }
  }

  lemma ChunkGenuine(d: Disk, rx: Rx, id: Id, off: nat, data: Bytes, h: Hasher)
    requires Genuine(d, h) && Backed(d, rx) && rx.Taking? && rx.id == id
    ensures var w := ChunkWrites(d, id, off, data);
      AllGenuine(w, h) && (ChunkResultOf(d, id, off, |data|).Accepted? ==> Backed(Last(d, w), rx))
  {
    var w := ChunkWrites(d, id, off, data);
    forall i, x | 0 <= i < |w| && x in w[i].files ensures Verified(w[i], x, h) {
      assert Verified(d, x, h);
    }
  }

  lemma CompleteGenuine(d: Disk, rx: Rx, id: Id, h: Hasher)
    requires Genuine(d, h) && Backed(d, rx) && rx.Taking? && rx.id == id
    ensures AllGenuine(CompleteWrites(d, id, h), h)
  {
    var w := CompleteWrites(d, id, h);
    forall i, x | 0 <= i < |w| && x in w[i].files ensures Verified(w[i], x, h) {
      assert Verified(d, x, h);
    }
  }

  lemma LocalGenuine(d: Disk, rx: Rx, op: Local, h: Hasher)
    requires Genuine(d, h) && Backed(d, rx) && FreshIds(State(d, rx), User(op))
    ensures AllGenuine(LocalWrites(d, op), h) && Backed(Last(d, LocalWrites(d, op)), rx)
  {
    var w := LocalWrites(d, op);
    forall i, x | 0 <= i < |w| && x in w[i].files ensures Verified(w[i], x, h) {
      assert x in d.files ==> Verified(d, x, h);
    }
  }

  lemma EventGenuine(s: State, e: Event, h: Hasher)
    requires Genuine(s.disk, h) && Backed(s.disk, s.rx) && FreshIds(s, e)
    ensures AllGenuine(Writes(s, e, h), h)
    ensures Backed(Step(s, e, h).disk, Step(s, e, h).rx)
  {
    var d := s.disk;
    match e
    case Header(id, peer, name, hash, size) => BeginGenuine(d, id, peer, name, hash, size, h);
    case Chunk(id, off, data) =>
      if s.rx.Taking? && s.rx.id == id {
        ChunkGenuine(d, s.rx, id, off, data, h);
        var w := ChunkWrites(d, id, off, data);
        if ChunkResultOf(d, id, off, |data|).Accepted? {
          CompleteGenuine(Last(d, w), s.rx, id, h);
        }
      }
    case User(op) => LocalGenuine(d, s.rx, op, h);
    case Close =>
  }

  lemma TornGenuine(s: State, id: Id, off: nat, part: Bytes, h: Hasher)
    requires Genuine(s.disk, h)
    ensures Genuine(Torn(s, id, off, part).disk, h)
  {
    var d := Torn(s, id, off, part).disk;
    forall x | x in d.files ensures Verified(d, x, h) {
      assert Verified(s.disk, x, h);
    }
  }

  // ---- what one link does leaves the others backed ----

  lemma CompleteLeavesBacked(d: Disk, id: Id, h: Hasher, other: Rx)
    requires Backed(d, other)
    ensures Backed(Last(d, CompleteWrites(d, id, h)), other)
  {
  }

  lemma ChunkLeavesBacked(d: Disk, rx: Rx, off: nat, data: Bytes, other: Rx)
    requires rx.Taking? && Backed(d, rx) && Backed(d, other)
    ensures Backed(Last(d, ChunkWrites(d, rx.id, off, data)), other)
  {
  }

  lemma OthersBacked(s: State, e: Event, h: Hasher, other: Rx)
    requires Genuine(s.disk, h) && Backed(s.disk, s.rx) && Backed(s.disk, other) && FreshIds(State(s.disk, other), e)
    ensures Backed(Step(s, e, h).disk, other)
  {
    var d := s.disk;
    match e
    case Header(_, _, _, _, _) =>
    case Chunk(id, off, data) =>
      if s.rx.Taking? && s.rx.id == id {
        ChunkLeavesBacked(d, s.rx, off, data, other);
        CompleteLeavesBacked(Last(d, ChunkWrites(d, id, off, data)), id, h, other);
      }
    case User(op) => LocalGenuine(d, other, op, h);
    case Close =>
  }

  // ---- whole runs ----

  ghost predicate Sound(n: Node, h: Hasher) {
    Genuine(n.disk, h) && forall link :: Backed(n.disk, At(n, link).rx)
  }

  ghost predicate FreshAction(n: Node, a: Action) {
    a.TornWrite? || forall link :: FreshIds(At(n, link), a.e)
  }

  ghost predicate FreshRun(n: Node, run: seq<Action>, h: Hasher)
    decreases |run|
  {
    run == [] || (FreshRun(n, run[..|run| - 1], h) && FreshAction(Run(n, run[..|run| - 1], h), run[|run| - 1]))
  }

  lemma ActSound(n: Node, a: Action, h: Hasher)
    requires Sound(n, h) && FreshAction(n, a)
    ensures Sound(Act(n, a, h), h)
  {
    var s, n' := At(n, a.link), Act(n, a, h);
    assert Backed(s.disk, s.rx);
    match a
    case Do(link, e) =>
      assert FreshIds(s, e);
      EventGenuine(s, e, h);
      forall other ensures Backed(n'.disk, At(n', other).rx) {
        assert Backed(n.disk, At(n, other).rx) && FreshIds(At(n, other), e);
        OthersBacked(s, e, h, At(n, other).rx);
      }
    case CrashIn(_, e, _) =>
      assert FreshIds(s, e);
      EventGenuine(s, e, h);
    case TornWrite(_, id, off, data, cut) => TornGenuine(s, id, off, data[..Min(cut, |data|)], h);
  }

  lemma {:induction false} RunSound(run: seq<Action>, h: Hasher)
    requires FreshRun(START, run, h)
    ensures Sound(Run(START, run, h), h)
    decreases |run|
  {
    if run != [] {
      RunSound(run[..|run| - 1], h);
      ActSound(Run(START, run[..|run| - 1], h), run[|run| - 1], h);
    }
  }

  /** Whatever any sender does and wherever the process dies, FileData yields only bytes that hash as recorded. */
  lemma {:induction false} FileDataIsVerified(run: seq<Action>, h: Hasher, id: Id)
    requires FreshRun(START, run, h)
    ensures var d := Run(START, run, h).disk;
      && (id in d.files && d.files[id].status == Complete ==> FileData(d, id).Some?)
      && (FileData(d, id).Some? ==>
          h(FileData(d, id).value) == d.files[id].hash && |FileData(d, id).value| >= d.files[id].size)
  {
    RunSound(run, h);
  }

  // ---- an honest sender: a partial is a prefix ----

  /** The file a hash names. */
  type Library = Bytes -> Bytes

  ghost predicate IsSlice(file: Bytes, off: nat, data: Bytes) {
    off + |data| <= |file| && data == file[off..off + |data|]
  }

  /** Headers announce the size of the file they name; chunks are slices of it. */
  ghost predicate HonestEvent(s: State, e: Event, lib: Library) {
    match e
    case Header(_, _, _, hash, size) => size == |lib(hash)|
    case Chunk(id, off, data) =>
      s.rx.Taking? && s.rx.id == id && id in s.disk.files ==> IsSlice(lib(s.disk.files[id].hash), off, data)
    case User(_) => true
    case Close => true
  }

  ghost predicate IsPrefix(t: Bytes, n: nat, file: Bytes) {
    n <= |t| && n <= |file| && t[..n] == file[..n]
  }

  ghost predicate PartialOk(d: Disk, id: Id, lib: Library)
    requires id in d.files
  {
    var f := d.files[id];
    f.status == Receiving ==>
      && f.size == |lib(f.hash)|
      && f.received <= f.size
      && (id in d.temp ==>
          |d.temp[id]| <= f.size && IsPrefix(d.temp[id], Min(f.received, |d.temp[id]|), lib(f.hash)))
  }

  ghost predicate Partials(d: Disk, lib: Library) {
    forall id :: id in d.files ==> PartialOk(d, id, lib)
  }

  ghost predicate AllPartials(ws: seq<Disk>, lib: Library) {
    forall i :: 0 <= i < |ws| ==> Partials(ws[i], lib)
  }

  /** Writing a slice of the file keeps what was right and makes the slice right. */
  lemma WriteSlice(t: Bytes, r: nat, off: nat, data: Bytes, file: Bytes)
    requires IsPrefix(t, r, file) && |t| <= |file| && IsSlice(file, off, data)
    ensures var t' := WriteAt(t, off, data);
      && |t| <= |t'| <= |file|
      && IsPrefix(t', r, file)
      && (off <= r && off + |data| > r ==> IsPrefix(t', off + |data|, file))
  {
    var t' := WriteAt(t, off, data);
    forall i | 0 <= i < r ensures t'[i] == file[i] {
      assert t[..r][i] == file[..r][i];
    }
    if off <= r && off + |data| > r {
      forall i | 0 <= i < off + |data| ensures t'[i] == file[i] {
        assert i < off ==> t[..r][i] == file[..r][i];
      }
    }
  }

  lemma BeginPartials(d: Disk, id: Id, peer: Name, name: Bytes, hash: Bytes, size: nat, lib: Library)
    requires Partials(d, lib) && size == |lib(hash)|
    ensures AllPartials(BeginWrites(d, id, peer, name, hash, size), lib)
  {
    var w := BeginWrites(d, id, peer, name, hash, size);
    forall i, x | 0 <= i < |w| && x in w[i].files ensures PartialOk(w[i], x, lib) {
      assert x in d.files ==> PartialOk(d, x, lib);
    }
  }

  lemma ChunkPartials(d: Disk, rx: Rx, id: Id, off: nat, data: Bytes, lib: Library)
    requires Partials(d, lib) && Backed(d, rx) && rx.Taking? && rx.id == id
    requires id in d.files ==> IsSlice(lib(d.files[id].hash), off, data)
    ensures AllPartials(ChunkWrites(d, id, off, data), lib)
  {
    var w := ChunkWrites(d, id, off, data);
    if id in d.files && d.files[id].status == Receiving {
      assert PartialOk(d, id, lib);
      WriteSlice(d.temp[id], d.files[id].received, off, data, lib(d.files[id].hash));
    }
    forall i, x | 0 <= i < |w| && x in w[i].files ensures PartialOk(w[i], x, lib) {
      assert PartialOk(d, x, lib);
    }
  }

  lemma TempPartials(d: Disk, rx: Rx, id: Id, off: nat, data: Bytes, lib: Library)
    requires Partials(d, lib) && Backed(d, rx) && rx.Taking? && rx.id == id
    requires id in d.files ==> IsSlice(lib(d.files[id].hash), off, data)
    ensures Partials(ChunkTemp(d, id, off, data), lib)
  {
    if id in d.files && d.files[id].status == Receiving {
      assert PartialOk(d, id, lib);
      WriteSlice(d.temp[id], d.files[id].received, off, data, lib(d.files[id].hash));
    }
    var d1 := ChunkTemp(d, id, off, data);
    forall x | x in d1.files ensures PartialOk(d1, x, lib) {
      assert PartialOk(d, x, lib);
    }
  }

  lemma CompletePartials(d: Disk, id: Id, h: Hasher, lib: Library)
    requires Partials(d, lib)
    ensures AllPartials(CompleteWrites(d, id, h), lib)
  {
    var w := CompleteWrites(d, id, h);
    forall i, x | 0 <= i < |w| && x in w[i].files ensures PartialOk(w[i], x, lib) {
      assert PartialOk(d, x, lib);
    }
  }

  lemma LocalPartials(d: Disk, op: Local, lib: Library)
    requires Partials(d, lib)
    ensures AllPartials(LocalWrites(d, op), lib)
  {
    var w := LocalWrites(d, op);
    forall i, x | 0 <= i < |w| && x in w[i].files ensures PartialOk(w[i], x, lib) {
      assert x in d.files ==> PartialOk(d, x, lib);
    }
  }

  lemma EventPartials(s: State, e: Event, h: Hasher, lib: Library)
    requires Partials(s.disk, lib) && Backed(s.disk, s.rx) && HonestEvent(s, e, lib)
    ensures AllPartials(Writes(s, e, h), lib)
  {
    var d := s.disk;
    match e
    case Header(id, peer, name, hash, size) => BeginPartials(d, id, peer, name, hash, size, lib);
    case Chunk(id, off, data) =>
      if s.rx.Taking? && s.rx.id == id {
        ChunkPartials(d, s.rx, id, off, data, lib);
        CompletePartials(Last(d, ChunkWrites(d, id, off, data)), id, h, lib);
      }
    case User(op) => LocalPartials(d, op, lib);
    case Close =>
  }

  ghost predicate Honest(n: Node, a: Action, lib: Library) {
    match a
    case Do(link, e) => HonestEvent(At(n, link), e, lib)
    case CrashIn(link, e, _) => HonestEvent(At(n, link), e, lib)
    case TornWrite(link, id, off, data, _) => HonestEvent(At(n, link), Chunk(id, off, data), lib)
  }

  ghost predicate HonestRun(n: Node, run: seq<Action>, h: Hasher, lib: Library)
    decreases |run|
  {
    run == [] ||
    (HonestRun(n, run[..|run| - 1], h, lib) && Honest(Run(n, run[..|run| - 1], h), run[|run| - 1], lib))
  }

  lemma ActPartials(n: Node, a: Action, h: Hasher, lib: Library)
    requires Sound(n, h) && Partials(n.disk, lib) && Honest(n, a, lib)
    ensures Partials(Act(n, a, h).disk, lib)
  {
    var s := At(n, a.link);
    assert Backed(s.disk, s.rx);
    match a
    case Do(_, e) => EventPartials(s, e, h, lib);
    case CrashIn(_, e, _) => EventPartials(s, e, h, lib);
    case TornWrite(_, id, off, data, cut) =>
      if s.rx.Taking? && s.rx.id == id {
        TempPartials(s.disk, s.rx, id, off, data[..Min(cut, |data|)], lib);
      }
  }

  lemma {:induction false} RunPartials(run: seq<Action>, h: Hasher, lib: Library)
    requires FreshRun(START, run, h) && HonestRun(START, run, h, lib)
    ensures Partials(Run(START, run, h).disk, lib)
    decreases |run|
  {
    if run != [] {
      RunPartials(run[..|run| - 1], h, lib);
      RunSound(run[..|run| - 1], h);
      ActPartials(Run(START, run[..|run| - 1], h), run[|run| - 1], h, lib);
    }
  }

  /** Every resume offset ever answered counts bytes that are on disk and are the file's own. */
  lemma {:induction false} ResumeOffsetIsCorrect(
    run: seq<Action>, h: Hasher, lib: Library, link: LinkId, id: Id, peer: Name, name: Bytes, hash: Bytes)
    requires FreshRun(START, run, h) && HonestRun(START, run, h, lib)
    ensures var s := At(Run(START, run, h), link);
      var s' := Step(s, Header(id, peer, name, hash, |lib(hash)|), h);
      var r := ResumeOffset(s.disk, id, hash, |lib(hash)|);
      && id in s'.disk.temp && IsPrefix(s'.disk.temp[id], r, lib(hash))
      && id in s'.disk.files && s'.disk.files[id].received == r
  {
    RunPartials(run, h, lib);
    var d := Run(START, run, h).disk;
    assert id in d.files ==> PartialOk(d, id, lib);
  }
}
