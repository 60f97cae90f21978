/**
  The file part of the store and the receiving half of a link, as the objects
  they are, proved against FileDb.
 */
module FileStore {
  import opened OptionType
  import opened ByteOrder
  import opened Names
  import opened FileDb

  class Files {
    var files: map<Id, File>
    var outbox: set<Id>
    var dirs: set<Id>
    var temp: map<Id, Bytes>
    var data: map<Id, Bytes>
    const hash: Hasher

    ghost function OnDisk(): Disk
      reads this
    {
      Disk(files, outbox, dirs, temp, data)
    }

    constructor (h: Hasher)
      ensures OnDisk() == BLANK && hash == h
    {
      files, outbox, dirs, temp, data := map[], {}, {}, map[], map[];
      hash := h;
    }

    method BeginReceive(id: Id, peer: Name, name: Bytes, digest: Bytes, size: nat) returns (resume: nat)
      modifies this
      ensures resume == ResumeOffset(old(OnDisk()), id, digest, size)
      ensures OnDisk() == Last(old(OnDisk()), BeginWrites(old(OnDisk()), id, peer, name, digest, size))
    {
      dirs := dirs + {id};
      resume := 0;
      if id in files && files[id].status == Receiving && files[id].hash == digest && files[id].size == size {
        if id in temp {
          resume := files[id].received;
          if |temp[id]| < resume {
            resume := |temp[id]|;
          }
          if resume > size {
            resume := 0;
          }
        }
      }
      if resume == 0 {
        temp := temp[id := []];
      }
      files := files[id := File(peer, In, name, size, digest, Receiving, resume, 0)];
    }

    method WriteChunk(id: Id, off: nat, bytes: Bytes) returns (r: ChunkResult)
      modifies this
      ensures r == ChunkResultOf(old(OnDisk()), id, off, |bytes|)
      ensures OnDisk() == Last(old(OnDisk()), ChunkWrites(old(OnDisk()), id, off, bytes))
    {
      if id !in dirs {
        return Refused;
      }
      temp := temp[id := WriteAt(if id in temp then temp[id] else [], off, bytes)];
      if id !in files {
        return Refused;
      }
      var f := files[id];
      if off > f.received {
        return Refused;
      }
      if off + |bytes| > f.received {
        f := f.(received := off + |bytes|);
      }
      if f.received > f.size {
        f := f.(received := f.size);
      }
      files := files[id := f];
      r := Accepted(f);
    }

    /** True when the bytes hashed as advertised and the file is now complete. */
    method CompleteFile(id: Id) returns (ok: bool)
      modifies this
      ensures OnDisk() == Last(old(OnDisk()), CompleteWrites(old(OnDisk()), id, hash))
      ensures ok <==> Finished(old(OnDisk()), id) && hash(old(temp)[id]) == old(files)[id].hash
      ensures ok ==> FileData(OnDisk(), id) == Some(old(temp)[id])
    {
      if id !in files || files[id].status != Receiving || files[id].received != files[id].size || id !in temp {
        return false;
      }
      var bytes := temp[id];
      if hash(bytes) != files[id].hash {
        files := files[id := files[id].(status := Failed)];
        temp := temp - {id};
        return false;
      }
      data := data[id := bytes];
      files := files[id := files[id].(status := Complete)];
      temp := temp - {id};
      ok := true;
    }

    method ReadFile(id: Id) returns (r: Option<Bytes>)
      ensures r == FileData(OnDisk(), id)
    {
      if id !in files || files[id].status != Complete || id !in data {
        return None;
      }
      r := Some(data[id]);
    }

    method AddOutboundFile(id: Id, peer: Name, name: Bytes, digest: Bytes, bytes: Bytes)
      modifies this
      ensures OnDisk() == Last(old(OnDisk()), LocalWrites(old(OnDisk()), AddOutbound(id, peer, name, digest, bytes)))
    {
      dirs := dirs + {id};
      data := data[id := bytes];
      files := files[id := File(peer, Out, name, |bytes|, digest, Queued, 0, 0)];
      outbox := outbox + {id};
    }

    method MarkFileSent(id: Id)
      modifies this
      ensures OnDisk() == Last(old(OnDisk()), LocalWrites(old(OnDisk()), MarkSent(id)))
      ensures outbox == old(outbox) - {id} && dirs == old(dirs) && temp == old(temp) && data == old(data)
      ensures files.Keys == old(files).Keys && forall x :: x in files && x != id ==> files[x] == old(files)[x]
      ensures id in files ==> files[id] == old(files)[id].(status := Sent, sent := old(files)[id].size)
    {
      outbox := outbox - {id};
      if id in files {
        var f := files[id];
        files := files[id := f.(status := Sent, sent := f.size)];
      }
    }

    method CancelReceive(id: Id) returns (ok: bool)
      modifies this
      ensures ok <==> id in old(files) && old(files)[id].status == Receiving
      ensures OnDisk() == Last(old(OnDisk()), LocalWrites(old(OnDisk()), Cancel(id)))
    {
      if id !in files || files[id].status != Receiving {
        return false;
      }
      files := files - {id};
      dirs, temp, data := dirs - {id}, temp - {id}, data - {id};
      ok := true;
    }
  }

  /** The file fields of a link and the file cases of its read loop. */
  class Link {
    const store: Files
    var rxFileID: Option<Id>
    var rxFileSize: nat

    ghost function Now(): State
      reads this, store
    {
      State(store.OnDisk(), if rxFileID.Some? then Taking(rxFileID.value, rxFileSize) else Idle)
    }

    constructor (s: Files)
      ensures store == s && rxFileID == None
    {
      store, rxFileID, rxFileSize := s, None, 0;
    }

    /** A file header: answers with the offset to resume from. */
    method TakeHeader(id: Id, peer: Name, name: Bytes, digest: Bytes, size: nat) returns (resume: nat)
      modifies this, store
      ensures resume == ResumeOffset(old(store.OnDisk()), id, digest, size)
      ensures Now() == Step(old(Now()), Header(id, peer, name, digest, size), store.hash)
    {
      resume := store.BeginReceive(id, peer, name, digest, size);
      rxFileID, rxFileSize := Some(id), size;
    }

    /** A chunk: false when the link must close. */
    method TakeChunk(id: Id, off: nat, bytes: Bytes) returns (alive: bool)
      modifies this, store
      ensures Now() == Step(old(Now()), Chunk(id, off, bytes), store.hash)
      ensures !alive <==> old(rxFileID) == Some(id) && ChunkResultOf(old(store.OnDisk()), id, off, |bytes|).Refused?
    {
      if rxFileID != Some(id) {
        return true;
      }
      var r := store.WriteChunk(id, off, bytes);
      if r.Refused? {
        rxFileID := None;
        return false;
      }
      if r.f.received >= rxFileSize {
        var _ := store.CompleteFile(id);
        rxFileID, rxFileSize := None, 0;
      }
      alive := true;
    }
  }
}
