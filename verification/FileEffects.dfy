/**
  What each file event does, taken as one step: the record, the outbox and the bytes
  of its own file, and nothing of any other.
 */
module FileEffects {
  import opened OptionType
  import opened ByteOrder
  import opened Names
  import opened FileDb

  ghost predicate SameAt<V>(m: map<Id, V>, m': map<Id, V>, x: Id) {
    (x in m' <==> x in m) && (x in m ==> m'[x] == m[x])
  }

  /** Nothing of any other file changes. */
  ghost predicate OthersStay(d: Disk, d': Disk, id: Id) {
    forall x :: x != id ==>
      && SameAt(d.files, d'.files, x) && SameAt(d.temp, d'.temp, x) && SameAt(d.data, d'.data, x)
      && (x in d'.outbox <==> x in d.outbox) && (x in d'.dirs <==> x in d.dirs)
  }

  /** The bytes and the directory of the file are as they were. */
  ghost predicate BytesStay(d: Disk, d': Disk, id: Id) {
    SameAt(d.temp, d'.temp, id) && SameAt(d.data, d'.data, id) && (id in d'.dirs <==> id in d.dirs)
  }

  /** Nothing is left of the file. */
  ghost predicate Gone(d: Disk, id: Id) {
    id !in d.files && id !in d.outbox && id !in d.dirs && id !in d.temp && id !in d.data
  }

  // ---- the sender's side ----

  /** A file to be sent has its bytes, a queued record that describes them, and a place in the outbox. */
  lemma OutboundIsQueued(s: State, id: Id, peer: Name, name: Bytes, hash: Bytes, data: Bytes, h: Hasher)
    ensures var d, s' := s.disk, Step(s, User(AddOutbound(id, peer, name, hash, data)), h);
      && s'.rx == s.rx && OthersStay(d, s'.disk, id) && SameAt(d.temp, s'.disk.temp, id)
      && id in s'.disk.data && s'.disk.data[id] == data && id in s'.disk.outbox && id in s'.disk.dirs
      && id in s'.disk.files && s'.disk.files[id] == File(peer, Out, name, |data|, hash, Queued, 0, 0)
  {
  }

  /** A file that has been sent leaves the outbox, and its record says so, and that all of it was sent. */
  lemma SentIsMarked(s: State, id: Id, h: Hasher)
    ensures var d, s' := s.disk, Step(s, User(MarkSent(id)), h);
      && s'.rx == s.rx && OthersStay(d, s'.disk, id) && BytesStay(d, s'.disk, id) && id !in s'.disk.outbox
      && (id in s'.disk.files <==> id in d.files)
      && (id in d.files ==> s'.disk.files[id] == d.files[id].(status := Sent, sent := d.files[id].size))
  {
  }

  /** An attempt starts from nothing sent; only a queued file turns sending. */
  lemma AttemptIsMarked(s: State, id: Id, h: Hasher)
    ensures var d, s' := s.disk, Step(s, User(MarkSending(id)), h);
      && s'.rx == s.rx && OthersStay(d, s'.disk, id) && BytesStay(d, s'.disk, id)
      && (id in s'.disk.outbox <==> id in d.outbox) && (id in s'.disk.files <==> id in d.files)
      && (id in d.files ==>
          var f := d.files[id];
          s'.disk.files[id] == f.(sent := 0, status := if f.status == Queued then Sending else f.status))
  {
  }

  /** Taking a file out of the outbox leaves it queued, and keeps its bytes. */
  lemma OutboxIsLeft(s: State, id: Id, h: Hasher)
    ensures var d, s' := s.disk, Step(s, User(DropOutbox(id)), h);
      && s'.rx == s.rx && OthersStay(d, s'.disk, id) && BytesStay(d, s'.disk, id) && id !in s'.disk.outbox
      && (id in s'.disk.files <==> id in d.files)
      && (id in d.files ==> s'.disk.files[id] == d.files[id].(status := Queued))
  {
  }

  // ---- removal ----

  /** Deleting leaves nothing of the file. */
  lemma DeletedIsGone(s: State, id: Id, h: Hasher)
    ensures var s' := Step(s, User(Delete(id)), h);
      s'.rx == s.rx && OthersStay(s.disk, s'.disk, id) && Gone(s'.disk, id)
  {
  }

  /** Cancelling removes record and bytes of a file that is being received, and of no other. */
  lemma CancelledIsGone(s: State, id: Id, h: Hasher)
    ensures var d, s' := s.disk, Step(s, User(Cancel(id)), h);
      if !(id in d.files && d.files[id].status == Receiving) then s' == s else
        && s'.rx == s.rx && OthersStay(d, s'.disk, id) && (id in s'.disk.outbox <==> id in d.outbox)
        && id !in s'.disk.files && id !in s'.disk.dirs && id !in s'.disk.temp && id !in s'.disk.data
  {
  }

  // ---- the receiver's side ----

  /** How much of a partial a header can reuse: what is both counted and on disk, if hash and size are the same. */
  ghost predicate ReusesUpTo(d: Disk, id: Id, hash: Bytes, size: nat, r: nat) {
    if id in d.files && d.files[id].status == Receiving && d.files[id].hash == hash && d.files[id].size == size
       && id in d.temp && (d.files[id].received <= size || |d.temp[id]| <= size)
    then r <= d.files[id].received && r <= |d.temp[id]| && (r == d.files[id].received || r == |d.temp[id]|)
    else r == 0
  }

  /** A header makes the link take the file, from the bytes that can be reused on, and keeps those bytes. */
  lemma HeaderTakes(s: State, id: Id, peer: Name, name: Bytes, hash: Bytes, size: nat, h: Hasher)
    ensures var d, s' := s.disk, Step(s, Header(id, peer, name, hash, size), h);
      && s'.rx == Taking(id, size) && OthersStay(d, s'.disk, id) && SameAt(d.data, s'.disk.data, id)
      && (id in s'.disk.outbox <==> id in d.outbox) && id in s'.disk.dirs && id in s'.disk.files && id in s'.disk.temp
      && (var r := s'.disk.files[id].received;
          && ReusesUpTo(d, id, hash, size, r)
          && s'.disk.files[id] == File(peer, In, name, size, hash, Receiving, r, 0)
          && (r > 0 ==> id in d.temp && s'.disk.temp[id] == d.temp[id]) && (r == 0 ==> s'.disk.temp[id] == []))
  {
  }

  /** A chunk of a file the link is not taking is ignored. */
  lemma ForeignChunkIsIgnored(s: State, id: Id, off: nat, data: Bytes, h: Hasher)
    requires !(s.rx.Taking? && s.rx.id == id)
    ensures Step(s, Chunk(id, off, data), h) == s
  {
  }

  /** A chunk that would leave a gap, or has no record, ends the transfer; records and data stay as they are. */
  lemma GapEndsTheTransfer(s: State, id: Id, off: nat, data: Bytes, h: Hasher)
    requires s.rx.Taking? && s.rx.id == id
    requires id !in s.disk.dirs || id !in s.disk.files || off > s.disk.files[id].received
    ensures var s' := Step(s, Chunk(id, off, data), h);
      s'.rx == Idle && s'.disk == s.disk.(temp := s'.disk.temp) && OthersStay(s.disk, s'.disk, id)
  {
  }

  /** The high-water mark after a chunk: the end of the chunk if that is further, but not past the size. */
  function MarkAfter(f: File, off: nat, len: nat): nat {
    Min(f.size, if off + len > f.received then off + len else f.received)
  }

  /** A write at an offset puts its bytes there, keeps the others, and fills a hole with zeros. */
  lemma WriteAtMeans(file: Bytes, off: nat, data: Bytes)
    requires data != []
    ensures var t := WriteAt(file, off, data);
      && |t| == (if off + |data| > |file| then off + |data| else |file|)
      && forall i :: 0 <= i < |t| ==>
          t[i] == if off <= i < off + |data| then data[i - off] else if i < |file| then file[i] else 0
  {
  }

  /** Any other chunk is written at its place and counted; while it leaves the file short of its end, that is all. */
  lemma ChunkCounts(s: State, id: Id, off: nat, data: Bytes, h: Hasher)
    requires s.rx.Taking? && s.rx.id == id && id in s.disk.dirs && id in s.disk.files
    requires off <= s.disk.files[id].received && MarkAfter(s.disk.files[id], off, |data|) < s.rx.size
    ensures var d, s' := s.disk, Step(s, Chunk(id, off, data), h);
      && s'.rx == s.rx && OthersStay(d, s'.disk, id) && id in s'.disk.files && id in s'.disk.temp
      && s'.disk.files[id] == d.files[id].(received := MarkAfter(d.files[id], off, |data|))
      && s'.disk == d.(files := s'.disk.files, temp := s'.disk.temp)
      && (forall i :: off <= i < off + |data| ==> i < |s'.disk.temp[id]| && s'.disk.temp[id][i] == data[i - off])
      && (forall i :: 0 <= i < |TempOf(d, id)| && !(off <= i < off + |data|) ==>
            i < |s'.disk.temp[id]| && s'.disk.temp[id][i] == TempOf(d, id)[i])
  {
  }

  /** A full file is either kept, complete and readable, or found wrong and discarded. */
  ghost predicate Settled(d: Disk, d': Disk, id: Id, bytes: Bytes, h: Hasher)
    requires id in d.files
  {
    && id in d'.files && id !in d'.temp
    && if h(bytes) == d.files[id].hash
       then d'.files[id].status == Complete && FileData(d', id) == Some(bytes)
       else d'.files[id].status == Failed && SameAt(d.data, d'.data, id) && FileData(d', id) == None
  }

  /** The chunk that fills the file has it settled by its hash, and the link is done with it. */
  lemma LastChunkSettles(s: State, id: Id, off: nat, data: Bytes, h: Hasher)
    requires s.rx.Taking? && s.rx.id == id && id in s.disk.dirs && id in s.disk.files
    requires s.disk.files[id].status == Receiving && off <= s.disk.files[id].received
    requires s.disk.files[id].size == s.rx.size && MarkAfter(s.disk.files[id], off, |data|) == s.rx.size
    ensures var s' := Step(s, Chunk(id, off, data), h);
      && s'.rx == Idle && OthersStay(s.disk, s'.disk, id)
      && Settled(s.disk, s'.disk, id, WriteAt(TempOf(s.disk, id), off, data), h)
  {
  }
}
