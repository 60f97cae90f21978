/**
  The whole transfer: the sender's chunk loop fed into the receiver. It finishes
  with the file intact exactly when there is a chunk left to send.
 */
module FileTransfer {
  import opened OptionType
  import opened ByteOrder
  import opened Names
  import opened FileDb
  import opened FileSafety
  import Envelopes

  /** The chunk envelopes flushFile sends from an offset on. */
  function Chunks(id: Id, file: Bytes, off: nat): seq<Event>
    decreases |file| - off
  {
    if off >= |file| then [] else
      var end := Min(off + Envelopes.CHUNK_SIZE, |file|);
      [Chunk(id, off, file[off..end])] + Chunks(id, file, end)
  }

  /** The bytes of some chunks, one after the other. */
  function Joined(es: seq<Event>): Bytes {
    if es == [] then [] else (if es[0].Chunk? then es[0].data else []) + Joined(es[1..])
  }

  /** The chunk at position i is of this file, at the place its predecessors lead up to, with 1 to 32768 bytes. */
  ghost predicate ChunkAt(es: seq<Event>, i: nat, id: Id, off: nat)
    requires i < |es|
  {
    es[i].Chunk? && es[i].id == id && es[i].off == off + |Joined(es[..i])| && 0 < |es[i].data| <= 32768
  }

  lemma JoinedCons(es: seq<Event>, i: nat)
    requires 0 < i <= |es| && es[0].Chunk?
    ensures Joined(es[..i]) == es[0].data + Joined(es[1..][..i - 1])
  {
    assert es[..i][1..] == es[1..][..i - 1];
  }

  /** The chunks, of 32 KB but for the last, join up to the file from the offset on. */
  lemma {:induction false} ChunksJoinUp(id: Id, file: Bytes, off: nat)
    requires off <= |file|
    ensures var es := Chunks(id, file, off);
      && Joined(es) == file[off..]
      && (forall i :: 0 <= i < |es| ==> ChunkAt(es, i, id, off))
      && (forall i :: 0 <= i < |es| - 1 ==> es[i].Chunk? && |es[i].data| == 32768)
    decreases |file| - off
  {
    if off < |file| {
      var end := Min(off + Envelopes.CHUNK_SIZE, |file|);
      var es, rest := Chunks(id, file, off), Chunks(id, file, end);
      ChunksJoinUp(id, file, end);
      assert es[1..] == rest && es[0] == Chunk(id, off, file[off..end]);
      assert file[off..] == file[off..end] + file[end..];
      forall i | 0 <= i < |es| ensures ChunkAt(es, i, id, off) {
        if i == 0 {
          assert es[..0] == [];
        } else {
          JoinedCons(es, i);
          assert ChunkAt(rest, i - 1, id, end);
        }
      }
      forall i | 0 <= i < |es| - 1 ensures es[i].Chunk? && |es[i].data| == 32768 {
        assert end == |file| ==> rest == [];
        if i > 0 {
          assert es[i] == rest[i - 1];
        }
      }
    }
  }

  lemma Associate(a: seq<Event>, e: Event, b: seq<Event>)
    ensures a + ([e] + b) == (a + [e]) + b
  {
  }

  /** flushFile after the header: resume where the receiver says, unless that is out of range. */
  method SendChunks(id: Id, file: Bytes, answer: int) returns (sent: seq<Event>)
    ensures sent == Chunks(id, file, if answer < 0 || answer > |file| then 0 else answer)
  {
    var off := answer;
    if off < 0 || off > |file| {
      off := 0;
    }
    ghost var from := off;
    sent := [];
    while off < |file|
      invariant from <= off <= |file|
      invariant sent + Chunks(id, file, off) == Chunks(id, file, from)
    {
      var end := off + Envelopes.CHUNK_SIZE;
      if end > |file| {
        end := |file|;
      }
      assert Chunks(id, file, off) == [Chunk(id, off, file[off..end])] + Chunks(id, file, end);
      Associate(sent, Chunk(id, off, file[off..end]), Chunks(id, file, end));
      sent := sent + [Chunk(id, off, file[off..end])];
      off := end;
    }
  }

  function Feed(s: State, es: seq<Event>, h: Hasher): State
    decreases |es|
  {
    if es == [] then s else Feed(Step(s, es[0], h), es[1..], h)
  }

  /** The link holds the first bytes of the file and no others, and says so. */
  ghost predicate Holding(s: State, id: Id, file: Bytes, h: Hasher) {
    && s.rx == Taking(id, |file|)
    && id in s.disk.dirs && id in s.disk.files && id in s.disk.temp
    && s.disk.files[id].status == Receiving && s.disk.files[id].size == |file| && s.disk.files[id].hash == h(file)
    && |s.disk.temp[id]| <= |file|
    && IsPrefix(s.disk.temp[id], s.disk.files[id].received, file)
  }

  ghost predicate Done(s: State, id: Id, file: Bytes) {
    id in s.disk.files && s.disk.files[id].status == Complete && FileData(s.disk, id) == Some(file)
  }

  /** Once the link is done with a file, further chunks are ignored. */
  lemma {:induction false} IdleIgnores(s: State, id: Id, file: Bytes, off: nat, h: Hasher)
    requires s.rx == Idle
    ensures Feed(s, Chunks(id, file, off), h) == s
    decreases |file| - off
  {
    if off < |file| {
      IdleIgnores(s, id, file, Min(off + Envelopes.CHUNK_SIZE, |file|), h);
    }
  }

  /** One chunk from at most the high-water mark: either the file is full and verified, or the mark moves on. */
  lemma ChunkAdvances(s: State, id: Id, file: Bytes, off: nat, end: nat, h: Hasher)
    requires Holding(s, id, file, h) && off <= s.disk.files[id].received && off < end <= |file|
    ensures var s' := Step(s, Chunk(id, off, file[off..end]), h);
      if end == |file| || s.disk.files[id].received == |file|
      then s'.rx == Idle && Done(s', id, file)
      else Holding(s', id, file, h) && end <= s'.disk.files[id].received < |file|
  {
    var d, data := s.disk, file[off..end];
    WriteSlice(d.temp[id], d.files[id].received, off, data, file);
    var w := ChunkWrites(d, id, off, data);
    var d' := Last(d, w);
    assert d'.temp[id] == WriteAt(d.temp[id], off, data);
    if end == |file| || d.files[id].received == |file| {
      assert d'.temp[id] == d'.temp[id][..|file|] == file[..|file|] == file;
    }
  }

  lemma {:induction false} FeedCompletes(s: State, id: Id, file: Bytes, off: nat, h: Hasher)
    requires Holding(s, id, file, h) && off <= s.disk.files[id].received && off < |file|
    ensures Done(Feed(s, Chunks(id, file, off), h), id, file)
    decreases |file| - off
  {
    var end := Min(off + Envelopes.CHUNK_SIZE, |file|);
    ChunkAdvances(s, id, file, off, end, h);
    var s' := Step(s, Chunk(id, off, file[off..end]), h);
    assert Chunks(id, file, off)[1..] == Chunks(id, file, end);
    if s'.rx == Idle {
      IdleIgnores(s', id, file, end, h);
    } else {
      FeedCompletes(s', id, file, end, h);
    }
  }

  /** After a header, the link holds exactly the prefix it reports. */
  lemma HeaderHolds(
    run: seq<Action>, h: Hasher, lib: Library, link: LinkId, id: Id, peer: Name, name: Bytes, hash: Bytes)
    requires FreshRun(START, run, h) && HonestRun(START, run, h, lib) && h(lib(hash)) == hash
    ensures var s := At(Run(START, run, h), link);
      var s' := Step(s, Header(id, peer, name, hash, |lib(hash)|), h);
      && Holding(s', id, lib(hash), h)
      && s'.disk.files[id].received == ResumeOffset(s.disk, id, hash, |lib(hash)|)
  {
    ResumeOffsetIsCorrect(run, h, lib, link, id, peer, name, hash);
    RunPartials(run, h, lib);
    var d := Run(START, run, h).disk;
    assert id in d.files ==> PartialOk(d, id, lib);
  }

  /**
    From every reachable partial, resuming at the answered offset completes the
    file if and only if that offset is short of its end: at the end the sender
    has no chunk to send and the receiver waits for one.
   */
  lemma {:induction false} ResumedTransfer(
    run: seq<Action>, h: Hasher, lib: Library, link: LinkId, id: Id, peer: Name, name: Bytes, hash: Bytes)
    requires FreshRun(START, run, h) && HonestRun(START, run, h, lib) && h(lib(hash)) == hash
    ensures var s := At(Run(START, run, h), link);
      var s' := Step(s, Header(id, peer, name, hash, |lib(hash)|), h);
      var r := ResumeOffset(s.disk, id, hash, |lib(hash)|);
      Done(Feed(s', Chunks(id, lib(hash), r), h), id, lib(hash)) <==> r < |lib(hash)|
  {
    HeaderHolds(run, h, lib, link, id, peer, name, hash);
    var s := At(Run(START, run, h), link);
    var s' := Step(s, Header(id, peer, name, hash, |lib(hash)|), h);
    var r := ResumeOffset(s.disk, id, hash, |lib(hash)|);
    if r < |lib(hash)| {
      FeedCompletes(s', id, lib(hash), r, h);
    } else {
      assert Chunks(id, lib(hash), r) == [];
    }
  }

  /** Without the resume capability the sender starts at zero, and a non-empty file always completes. */
  lemma {:induction false} UnresumedTransfer(
    run: seq<Action>, h: Hasher, lib: Library, link: LinkId, id: Id, peer: Name, name: Bytes, hash: Bytes)
    requires FreshRun(START, run, h) && HonestRun(START, run, h, lib) && h(lib(hash)) == hash && lib(hash) != []
    ensures var s' := Step(At(Run(START, run, h), link), Header(id, peer, name, hash, |lib(hash)|), h);
      Done(Feed(s', Chunks(id, lib(hash), 0), h), id, lib(hash))
  {
    HeaderHolds(run, h, lib, link, id, peer, name, hash);
    var s := At(Run(START, run, h), link);
    FeedCompletes(Step(s, Header(id, peer, name, hash, |lib(hash)|), h), id, lib(hash), 0, h);
  }

  /**
    Dying between recording the last chunk and verifying the file: the header
    after that is answered with the full size.
   */
  lemma {:induction false} FullPartialIsReachable(h: Hasher, lib: Library, id: Id, hash: Bytes)
    returns (run: seq<Action>)
    requires 0 < |lib(hash)| <= Envelopes.CHUNK_SIZE && h(lib(hash)) == hash
    ensures FreshRun(START, run, h) && HonestRun(START, run, h, lib)
    ensures ResumeOffset(Run(START, run, h).disk, id, hash, |lib(hash)|) == |lib(hash)|
  {
    var file := lib(hash);
    var a, b := Do(0, Header(id, [], [], hash, |file|)), CrashIn(0, Chunk(id, 0, file), 2);
    run := [a, b];
    assert run[..|run| - 1] == [a] && [a][..|[a]| - 1] == [];
    assert Run(START, [], h) == START && FreshRun(START, [], h) && HonestRun(START, [], h, lib);
    var n := Run(START, [a], h);
    assert n == Act(START, a, h);
    assert At(n, 0).rx == Taking(id, |file|) && n.disk.files[id].received == 0 && n.disk.temp[id] == [];
    assert FreshRun(START, [a], h) && HonestRun(START, [a], h, lib);
    assert file[0..0 + |file|] == file;
    assert WriteAt([], 0, file) == file;
    assert Run(START, run, h).disk == Crash(At(n, 0), Chunk(id, 0, file), 2, h).disk;
  }
}
