/**
  The message part of the store as the object it is: four fields rewritten in
  place by each transaction, proved against the functions of MessageDb.
 */
module MessageStore {
  import opened OptionType
  import opened ByteOrder
  import opened Names
  import opened Keys
  import opened Sorting
  import opened Cursor
  import opened MessageDb
  import C = Conversation

  predicate Earlier(a: Message, b: Message) {
    a.num < b.num
  }

  /** The test of the pruning loop, as it is written there. */
  function Older(cutoff: int): Message -> bool {
    (m: Message) => if m.dir == Out && m.status != Delivered then false else m.ts < cutoff
  }

  ghost predicate MatchesPeer(m: Message, peer: Name) {
    peer == [] || EqualFold(m.peer, peer)
  }

  lemma {:induction false} TrimKeepsOut(s: Bytes, c: Byte)
    requires c !in s
    ensures c !in TrimLeft(s) && c !in TrimRight(s)
    decreases |s|
  {
    if s != [] {
      if IsSpace(s[0]) {
        TrimKeepsOut(s[1..], c);
      }
      if IsSpace(s[|s| - 1]) {
        TrimKeepsOut(s[..|s| - 1], c);
      }
    }
  }

  lemma KeyHasNoNul(name: Name)
    requires 0 !in name
    ensures 0 !in PeerKey(name)
  {
    TrimKeepsOut(name, 0);
    TrimKeepsOut(TrimLeft(name), 0);
  }

  /** The buckets agree, names hold no NUL and the 64-bit sequence is not exhausted. */
  ghost predicate Sound(db: Db) {
    Consistent(db) && forall k :: k in db.rows ==> Regular(k) && 1 <= k.num <= db.last
  }

  lemma AddSound(db: Db, m: Message)
    requires Sound(db) && ValidName(m.peer) && db.last + 1 < Pow256(8) - 1
    ensures Sound(Add(db, m))
  {
    AddKeeps(db, m);
    ValidNameKey(m.peer);
  }

  class Store {
    var rows: map<RowKey, Message>
    var idx: map<Id, RowKey>
    var outbox: map<Id, RowKey>
    var last: nat

    ghost function State(): Db
      reads this
    {
      Db(rows, idx, outbox, last)
    }

    ghost predicate Valid()
      reads this
    {
      Sound(State())
    }

    constructor ()
      ensures Valid() && State() == EMPTY
    {
      rows, idx, outbox, last := map[], map[], map[], 0;
    }

    /** The writes of one accepted message: sequence, row, index, outbox. */
    method Put(m: Message) returns (row: Message)
      requires m.id !in idx
      modifies this
      ensures State() == Add(old(State()), m) && row == m.(num := old(last) + 1)
    {
      last := last + 1;
      var k := MsgKey(m.peer, last);
      row := m.(num := last);
      rows := rows[k := row];
      idx := idx[m.id := k];
      if m.dir == Out && m.status != Delivered {
        outbox := outbox[m.id := k];
      }
    }

    method AddMessage(m: Message) returns (stored: Option<Message>)
      requires Valid() && ValidName(m.peer) && last + 1 < Pow256(8) - 1
      modifies this
      ensures Valid() && State() == Add(old(State()), m)
      ensures stored == if m.id in old(idx) then None else Some(m.(num := old(last) + 1))
    {
      AddSound(State(), m);
      if m.id in idx {
        return None;
      }
      var row := Put(m);
      stored := Some(row);
    }

    /** None for an unknown message or one the peer may not ack; otherwise the message and whether it changed. */
    method MarkDelivered(peer: Name, id: Id) returns (r: Option<(Message, bool)>)
      requires Valid()
      modifies this
      ensures Valid() && State() == Deliver(old(State()), peer, id)
      ensures r.Some? <==>
        && Known(old(State()), id)
        && Lookup(old(State()), id).dir == Out && EqualFold(Lookup(old(State()), id).peer, peer)
      ensures r.Some? ==> Lookup(State(), id).status == Delivered && r.value.0 == Lookup(State(), id)
      ensures r.Some? ==> (r.value.1 <==> Unsent(Lookup(old(State()), id)))
    {
      DeliverKeeps(State(), peer, id);
      if id !in idx || idx[id] !in rows {
        return None;
      }
      var k := idx[id];
      var m := rows[k];
      if m.dir != Out || !EqualFold(m.peer, peer) {
        return None;
      }
      if m.status == Delivered {
        return Some((m, false));
      }
      var m' := m.(status := Delivered);
      rows := rows[k := m'];
      outbox := outbox - {id};
      r := Some((m', true));
    }

    method RecordAttempt(id: Id, now: int) returns (r: Option<Message>)
      requires Valid()
      modifies this
      ensures Valid() && State() == Attempt(old(State()), id, now)
      ensures r == if Known(old(State()), id) then Some(Lookup(State(), id)) else None
    {
      AttemptKeeps(State(), id, now);
      if id !in idx || idx[id] !in rows {
        return None;
      }
      var m := rows[idx[id]];
      m := m.(attempts := m.attempts + 1, lastTry := now);
      rows := rows[idx[id] := m];
      r := Some(m);
    }

    /** deleteMessages: collect first, then delete row, index and outbox entry one by one. */
    method DeleteMessages(p: Message -> bool) returns (n: nat)
      requires Valid()
      modifies this
      ensures Valid() && State() == DeleteWhere(old(State()), p)
      ensures n == |set k | k in old(rows) && p(old(rows)[k])|
    {
      var keys := CollectMatching(p);
      DropKeys(keys);
      n := |keys|;
    }

    method CollectMatching(p: Message -> bool) returns (keys: set<RowKey>)
      ensures keys == set k | k in rows && p(rows[k])
    {
      var rest := rows.Keys;
      keys := {};
      while rest != {}
        invariant rest <= rows.Keys
        invariant keys == set k | k in rows && k !in rest && p(rows[k])
      {
        var k :| k in rest;
        if p(rows[k]) {
          keys := keys + {k};
        }
        rest := rest - {k};
      }
    }

    method DropKeys(keys: set<RowKey>)
      requires Valid() && keys <= rows.Keys
      modifies this
      ensures Valid() && State() == Drop(old(State()), keys)
    {
      DropKeeps(State(), keys);
      DropLoop(keys);
    }

    method DropLoop(keys: set<RowKey>)
      requires keys <= rows.Keys
      modifies this
      ensures State() == Drop(old(State()), keys)
    {
      DropNone(State());
      var rest := keys;
      ghost var gone: set<RowKey> := {};
      while rest != {}
        invariant gone !! rest && gone + rest == keys
        invariant State() == Drop(old(State()), gone)
      {
        var k :| k in rest;
        DropOneMore(old(State()), gone, k);
        var id := rows[k].id;
        rows := rows - {k};
        idx := idx - {id};
        outbox := outbox - {id};
        gone, rest := gone + {k}, rest - {k};
      }
      assert gone == keys;
    }

    method PruneOlder(cutoff: int) returns (n: nat)
      requires Valid()
      modifies this
      ensures Valid() && State() == Prune(old(State()), cutoff)
      ensures outbox == old(outbox)
      ensures n == |set k | k in old(rows) && Stale(cutoff)(old(rows)[k])|
    {
      PruneKeepsUnsent(State(), cutoff);
      n := DeleteMessages(Older(cutoff));
      SamePredicate(old(State()), cutoff);
      assert (set k | k in old(rows) && Stale(cutoff)(old(rows)[k])) ==
        set k | k in old(rows) && Older(cutoff)(old(rows)[k]);
    }

    method DeleteMessage(id: Id) returns (found: bool)
      requires Valid()
      modifies this
      ensures Valid() && State() == DeleteOne(old(State()), id)
      ensures found == Known(old(State()), id)
    {
      DeleteOneKeeps(State(), id);
      if id !in idx || idx[id] !in rows {
        return false;
      }
      var k := idx[id];
      var m := rows[k];
      DropOneMore(State(), {}, k);
      DropNone(State());
      assert {} + {k} == {k};
      idx := idx - {m.id};
      outbox := outbox - {m.id};
      rows := rows - {k};
      found := true;
    }

    method DeleteFromOutbox(id: Id) returns (ok: bool)
      requires Valid()
      modifies this
      ensures Valid() && State() == Unqueue(old(State()), id)
      ensures ok <==>
        && Known(old(State()), id)
        && Lookup(old(State()), id).dir == Out && Lookup(old(State()), id).status != Delivered
      ensures forall i :: Known(State(), i) <==> Known(old(State()), i) && !(ok && i == id)
    {
      UnqueueKeeps(State(), id);
      if id !in idx || idx[id] !in rows {
        return false;
      }
      var m := rows[idx[id]];
      if m.dir != Out || m.status == Delivered {
        return false;
      }
      ok := DeleteMessage(id);
    }

    /** Up to limit most recent messages with a peer, oldest first. */
    method Messages(peer: Name, limit: int) returns (out: seq<Message>)
      requires Valid() && 0 !in peer
      ensures var all := C.History(State(), peer);
        IsEnd(out, all) && |out| == if 1 <= limit <= 1000 then Least(limit, |all|) else Least(200, |all|)
    {
      KeyHasNoNul(peer);
      var ks := BucketKeys(rows.Keys);
      var recent := Recent(ks, rows.Keys, PeerKey(peer), Clamp(limit), last);
      RecentRows(rows, PeerKey(peer), recent, Clamp(limit), last);
      out := RowsAt(rows, recent);
      assert out == LastOf(C.History(State(), peer), Clamp(limit));
      ClampedEnd(C.History(State(), peer), limit);
    }

    /** Undelivered outbound messages in store order; an empty peer name means all peers. */
    method PendingMessages(peer: Name) returns (out: seq<Message>)
      requires Valid()
      ensures Sorted(out, Earlier)
      ensures forall m :: m in out <==> C.Has(State(), m) && Unsent(m) && MatchesPeer(m, peer)
      ensures forall i, j :: 0 <= i < j < |out| ==> out[i].id != out[j].id
      ensures peer != [] ==> out == C.Pending(State(), peer)
    {
      var found := CollectPending(peer);
      var a := new Message[|found|](i requires 0 <= i < |found| => found[i]);
      assert a[..] == found;
      InsertionSort(a, Earlier);
      out := a[..];
      SortedPending(State(), peer, found, out);
    }

    method CollectPending(peer: Name) returns (found: seq<Message>)
      requires Valid()
      ensures forall m :: m in found <==> C.Has(State(), m) && Unsent(m) && MatchesPeer(m, peer)
      ensures forall i, j :: 0 <= i < j < |found| ==> found[i].id != found[j].id
    {
      forall m | C.Has(State(), m) && Unsent(m) ensures m.id in outbox {
        assert OutboxOk(State(), m.id);
      }
      var rest := outbox.Keys;
      found := [];
      while rest != {}
        invariant rest <= outbox.Keys
        invariant forall m :: m in found <==> m.id !in rest && C.Has(State(), m) && Unsent(m) && MatchesPeer(m, peer)
        invariant forall i, j :: 0 <= i < j < |found| ==> found[i].id != found[j].id
      {
        var id :| id in rest;
        assert OutboxOk(State(), id);
        if outbox[id] in rows {
          var m := rows[outbox[id]];
          if peer == [] || EqualFold(m.peer, peer) {
            found := found + [m];
          }
        }
        rest := rest - {id};
      }
    }
  }

  lemma DropOneMore(db: Db, gone: set<RowKey>, k: RowKey)
    requires k in db.rows && k !in gone
    ensures k in Drop(db, gone).rows
    ensures var d, id := Drop(db, gone), db.rows[k].id;
      Drop(db, gone + {k}) == Db(d.rows - {k}, d.idx - {id}, d.outbox - {id}, d.last)
  {
    var ids := set j | j in gone && j in db.rows :: db.rows[j].id;
    assert (set j | j in gone + {k} && j in db.rows :: db.rows[j].id) == ids + {db.rows[k].id};
  }

  lemma DropNone(db: Db)
    ensures Drop(db, {}) == db
  {
  }

  lemma SamePredicate(db: Db, cutoff: int)
    ensures DeleteWhere(db, Older(cutoff)) == Prune(db, cutoff)
  {
  }

  lemma SortedPending(db: Db, peer: Name, found: seq<Message>, out: seq<Message>)
    requires Consistent(db) && multiset(out) == multiset(found) && Sorted(out, Earlier)
    requires forall m :: m in found <==> C.Has(db, m) && Unsent(m) && MatchesPeer(m, peer)
    requires forall i, j :: 0 <= i < j < |found| ==> found[i].id != found[j].id
    ensures forall m :: m in out <==> C.Has(db, m) && Unsent(m) && MatchesPeer(m, peer)
    ensures forall i, j :: 0 <= i < j < |out| ==> out[i].id != out[j].id
    ensures peer != [] ==> out == C.Pending(db, peer)
  {
    forall m ensures m in out <==> m in found {
      assert m in multiset(out) <==> m in multiset(found);
    }
    SameSizeDistinct(out, found);
    if peer != [] {
      C.SelectMeans(db, Lower(peer), Unsent, db.last);
      forall i, j | 0 <= i < j < |out| ensures out[i].num < out[j].num {
        assert out[i] in out && out[j] in out;
        C.RowAt(db, Lower(peer), out[i].num, out[i]);
        C.RowAt(db, Lower(peer), out[i].num, out[j]);
      }
      forall m ensures m in out <==> m in C.Pending(db, peer) {
        C.RowAt(db, Lower(peer), m.num, m);
      }
      IncreasingUnique(out, C.Pending(db, peer), C.RowNum);
    }
  }

  /** A rearrangement of a list without repeated ids has none either. */
  lemma SameSizeDistinct(out: seq<Message>, found: seq<Message>)
    requires multiset(out) == multiset(found)
    requires forall i, j :: 0 <= i < j < |found| ==> found[i].id != found[j].id
    ensures forall i, j :: 0 <= i < j < |out| ==> out[i].id != out[j].id
  {
    forall i, j | 0 <= i < j < |out| ensures out[i].id != out[j].id {
      assert out == out[..j] + out[j..] && out[i] in out[..j] && out[j] in out[j..];
      assert out[i] in multiset(found) && out[j] in multiset(found);
      AtMostOnce(found, out[j]);
      assert multiset(out)[out[j]] == multiset(out[..j])[out[j]] + multiset(out[j..])[out[j]];
    }
  }

  lemma {:induction false} AtMostOnce(s: seq<Message>, m: Message)
    requires forall i, j :: 0 <= i < j < |s| ==> s[i].id != s[j].id
    ensures multiset(s)[m] <= 1
  {
    if s != [] {
      assert s == [s[0]] + s[1..];
      AtMostOnce(s[1..], m);
      assert s[0] !in s[1..];
    }
  }
}
