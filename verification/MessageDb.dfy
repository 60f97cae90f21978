/**
  The three message buckets and the effect of every transaction on them, as
  functions from one database value to the next.
 */
module MessageDb {
  import opened ByteOrder
  import opened Names
  import opened Keys

  datatype Direction = In | Out
  datatype Status = Queued | Delivered | Received

  datatype Message = Message(
    id: Id, peer: Name, dir: Direction, body: Bytes, ts: int,
    status: Status, attempts: nat, lastTry: int, num: nat, replyTo: Id)

  /** The part of a message that travels and never changes afterwards. */
  datatype Payload = Payload(id: Id, body: Bytes, replyTo: Id)

  /** rows: bucket msgs; idx: msgidx; outbox: outbox; last: the bucket sequence of msgs. */
  datatype Db = Db(rows: map<RowKey, Message>, idx: map<Id, RowKey>, outbox: map<Id, RowKey>, last: nat)

  const EMPTY := Db(map[], map[], map[], 0)

  function PayloadOf(m: Message): Payload {
    Payload(m.id, m.body, m.replyTo)
  }

  function MsgKey(peer: Name, num: nat): RowKey {
    RowKey(PeerKey(peer), num)
  }

  predicate Unsent(m: Message) {
    m.dir == Out && m.status != Delivered
  }

  // ---- agreement of the three buckets ----

  ghost predicate RowOk(db: Db, k: RowKey)
    requires k in db.rows
  {
    var m := db.rows[k];
    && k == RowKey(Lower(m.peer), m.num)
    && 1 <= m.num <= db.last
    && m.id in db.idx && db.idx[m.id] == k
  }

  ghost predicate IndexOk(db: Db, id: Id) {
    Known(db, id) && Lookup(db, id).id == id
  }

  ghost predicate OutboxOk(db: Db, id: Id) {
    && (id in db.outbox <==> Known(db, id) && Unsent(Lookup(db, id)))
    && (id in db.outbox ==> db.outbox[id] == db.idx[id])
  }

  /** The index is a bijection between ids and rows; the outbox is the index cut down to unsent messages. */
  ghost predicate Consistent(db: Db) {
    && (forall k :: k in db.rows ==> RowOk(db, k))
    && (forall id :: id in db.idx ==> IndexOk(db, id))
    && (forall id :: OutboxOk(db, id))
  }

  predicate Known(db: Db, id: Id) {
    id in db.idx && db.idx[id] in db.rows
  }

  function Lookup(db: Db, id: Id): Message
    requires Known(db, id)
  {
    db.rows[db.idx[id]]
  }

  // ---- transactions ----

  function Add(db: Db, m: Message): Db {
    if m.id in db.idx then db else
      var n := db.last + 1;
      var k := MsgKey(m.peer, n);
      Db(db.rows[k := m.(num := n)],
         db.idx[m.id := k],
         if Unsent(m) then db.outbox[m.id := k] else db.outbox,
         n)
  }

  /** MarkDelivered succeeds on outbound messages addressed to the acking peer. */
  predicate CanDeliver(db: Db, peer: Name, id: Id) {
    Known(db, id) && Lookup(db, id).dir == Out && EqualFold(Lookup(db, id).peer, peer)
  }

  function Deliver(db: Db, peer: Name, id: Id): Db {
    if !CanDeliver(db, peer, id) || Lookup(db, id).status == Delivered then db else
      db.(rows := db.rows[db.idx[id] := Lookup(db, id).(status := Delivered)],
          outbox := db.outbox - {id})
  }

  function Attempt(db: Db, id: Id, now: int): Db {
    if !Known(db, id) then db else
      var m := Lookup(db, id);
      db.(rows := db.rows[db.idx[id] := m.(attempts := m.attempts + 1, lastTry := now)])
  }

  /** Drop rows by key, each with the index and outbox entries of its message. */
  function Drop(db: Db, gone: set<RowKey>): Db {
    var ids := set k | k in gone && k in db.rows :: db.rows[k].id;
    Db(db.rows - gone, db.idx - ids, db.outbox - ids, db.last)
  }

  function DeleteWhere(db: Db, p: Message -> bool): Db {
    Drop(db, set k | k in db.rows && p(db.rows[k]))
  }

  function DeleteOne(db: Db, id: Id): Db {
    if Known(db, id) then Drop(db, {db.idx[id]}) else db
  }

  function Unqueue(db: Db, id: Id): Db {
    if Known(db, id) && Unsent(Lookup(db, id)) then DeleteOne(db, id) else db
  }

  function About(name: Name): Message -> bool {
    (m: Message) => EqualFold(m.peer, name)
  }

  function Stale(cutoff: int): Message -> bool {
    (m: Message) => !Unsent(m) && m.ts < cutoff
  }

  function Prune(db: Db, cutoff: int): Db {
    DeleteWhere(db, Stale(cutoff))
  }

  // ---- every transaction keeps the buckets in agreement ----

  lemma AddKeeps(db: Db, m: Message)
    requires Consistent(db) && Trimmed(m.peer)
    ensures Consistent(Add(db, m))
    ensures Known(Add(db, m), m.id)
    ensures m.id !in db.idx ==> Lookup(Add(db, m), m.id) == m.(num := db.last + 1)
    ensures forall id :: Known(db, id) ==> Known(Add(db, m), id) && Lookup(Add(db, m), id) == Lookup(db, id)
    ensures forall id :: Known(Add(db, m), id) ==> Known(db, id) || id == m.id
  {
    if m.id !in db.idx {
      var db', key := Add(db, m), MsgKey(m.peer, db.last + 1);
      assert key !in db.rows;
      forall k | k in db'.rows ensures RowOk(db', k) {
        assert k != key ==> RowOk(db, k);
      }
      forall id | id in db'.idx ensures IndexOk(db', id) {
        assert id != m.id ==> IndexOk(db, id);
      }
      forall id ensures OutboxOk(db', id) {
        assert OutboxOk(db, id);
      }
    }
  }

  /** Rewriting one row in place disturbs neither keys nor index. */
  lemma RewriteRow(db: Db, id: Id, m: Message, db': Db)
    requires Consistent(db) && Known(db, id)
    requires m.id == id && m.peer == Lookup(db, id).peer && m.num == Lookup(db, id).num
    requires db'.rows == db.rows[db.idx[id] := m] && db'.idx == db.idx && db'.last == db.last
    ensures forall k :: k in db'.rows ==> RowOk(db', k)
    ensures forall i :: i in db'.idx ==> IndexOk(db', i)
    ensures forall i :: i != id && Known(db, i) ==> Known(db', i) && Lookup(db', i) == Lookup(db, i)
    ensures Known(db', id) && Lookup(db', id) == m
  {
    forall k | k in db'.rows ensures RowOk(db', k) {
      assert RowOk(db, k);
    }
    forall i | i in db'.idx ensures IndexOk(db', i) {
      assert IndexOk(db, i) && IndexOk(db, id);
    }
    forall i | i != id && Known(db, i) ensures Known(db', i) && Lookup(db', i) == Lookup(db, i) {
      assert IndexOk(db, i) && IndexOk(db, id);
    }
  }

  lemma DeliverKeeps(db: Db, peer: Name, id: Id)
    requires Consistent(db)
    ensures Consistent(Deliver(db, peer, id))
    ensures forall i :: Known(db, i) && i != id ==>
      Known(Deliver(db, peer, id), i) && Lookup(Deliver(db, peer, id), i) == Lookup(db, i)
    ensures Deliver(db, peer, id) != db ==>
      && CanDeliver(db, peer, id)
      && Known(Deliver(db, peer, id), id)
      && Lookup(Deliver(db, peer, id), id) == Lookup(db, id).(status := Delivered)
    ensures forall i :: Known(Deliver(db, peer, id), i) <==> Known(db, i)
    ensures Known(db, id) ==>
      var m, m' := Lookup(db, id), Lookup(Deliver(db, peer, id), id);
      m' == if m.dir == Out && EqualFold(m.peer, peer) then m.(status := Delivered) else m
  {
    var db' := Deliver(db, peer, id);
    if db' != db {
      RewriteRow(db, id, Lookup(db, id).(status := Delivered), db');
      forall i ensures OutboxOk(db', i) {
        assert OutboxOk(db, i);
      }
    }
  }

  lemma AttemptKeeps(db: Db, id: Id, now: int)
    requires Consistent(db)
    ensures Consistent(Attempt(db, id, now))
    ensures forall i :: Known(db, i) && i != id ==>
      Known(Attempt(db, id, now), i) && Lookup(Attempt(db, id, now), i) == Lookup(db, i)
    ensures Known(db, id) ==>
      && Known(Attempt(db, id, now), id)
      && Lookup(Attempt(db, id, now), id) == Lookup(db, id).(attempts := Lookup(db, id).attempts + 1, lastTry := now)
    ensures forall i :: Known(Attempt(db, id, now), i) <==> Known(db, i)
  {
    var db' := Attempt(db, id, now);
    if Known(db, id) {
      RewriteRow(db, id, Lookup(db, id).(attempts := Lookup(db, id).attempts + 1, lastTry := now), db');
      forall i ensures OutboxOk(db', i) {
        assert OutboxOk(db, i);
      }
    }
  }

  lemma DropKeeps(db: Db, gone: set<RowKey>)
    requires Consistent(db)
    ensures Consistent(Drop(db, gone))
    ensures forall id :: id in Drop(db, gone).idx <==> id in db.idx && db.idx[id] !in gone
    ensures forall id :: id in Drop(db, gone).idx ==> Drop(db, gone).idx[id] == db.idx[id]
  {
    var db' := Drop(db, gone);
    var ids := set k | k in gone && k in db.rows :: db.rows[k].id;
    forall id | id in db.idx ensures id in ids <==> db.idx[id] in gone {
      assert IndexOk(db, id);
      if id in ids {
        var k :| k in gone && k in db.rows && db.rows[k].id == id;
        assert RowOk(db, k);
      }
    }
    forall k | k in db'.rows ensures RowOk(db', k) {
      assert RowOk(db, k);
    }
    forall id | id in db'.idx ensures IndexOk(db', id) {
      assert IndexOk(db, id);
    }
    forall id ensures OutboxOk(db', id) {
      assert OutboxOk(db, id);
    }
  }

  /** Exactly the selected messages disappear, from all three buckets at once. */
  lemma DeleteWhereKeeps(db: Db, p: Message -> bool)
    requires Consistent(db)
    ensures Consistent(DeleteWhere(db, p))
    ensures forall id :: Known(DeleteWhere(db, p), id) <==> Known(db, id) && !p(Lookup(db, id))
    ensures forall id :: Known(DeleteWhere(db, p), id) ==> Lookup(DeleteWhere(db, p), id) == Lookup(db, id)
  {
    DropKeeps(db, set k | k in db.rows && p(db.rows[k]));
  }

  lemma DeleteOneKeeps(db: Db, id: Id)
    requires Consistent(db)
    ensures Consistent(DeleteOne(db, id)) && id !in DeleteOne(db, id).idx
    ensures forall i :: Known(db, i) && i != id ==>
      Known(DeleteOne(db, id), i) && Lookup(DeleteOne(db, id), i) == Lookup(db, i)
    ensures forall i :: Known(DeleteOne(db, id), i) <==> Known(db, i) && i != id
  {
    if Known(db, id) {
      DropKeeps(db, {db.idx[id]});
    }
  }

  /** Taking a message out of the outbox deletes it if it is ours and not delivered, and nothing otherwise. */
  lemma UnqueueKeeps(db: Db, id: Id)
    requires Consistent(db)
    ensures Consistent(Unqueue(db, id))
    ensures forall i :: Known(Unqueue(db, id), i) <==>
      Known(db, i) && !(i == id && Lookup(db, i).dir == Out && Lookup(db, i).status != Delivered)
    ensures forall i :: Known(Unqueue(db, id), i) ==> Lookup(Unqueue(db, id), i) == Lookup(db, i)
  {
    DeleteOneKeeps(db, id);
  }

  /** Deleting what is about a peer removes the messages with that name, up to case, and no others. */
  lemma AboutKeeps(db: Db, name: Name)
    requires Consistent(db)
    ensures Consistent(DeleteWhere(db, About(name)))
    ensures forall id :: Known(DeleteWhere(db, About(name)), id) <==>
      Known(db, id) && !EqualFold(Lookup(db, id).peer, name)
    ensures forall id :: Known(DeleteWhere(db, About(name)), id) ==>
      Lookup(DeleteWhere(db, About(name)), id) == Lookup(db, id)
  {
    DeleteWhereKeeps(db, About(name));
  }

  /** Pruning removes exactly the sent or received messages older than the cutoff. */
  lemma PruneKeepsUnsent(db: Db, cutoff: int)
    requires Consistent(db)
    ensures Consistent(Prune(db, cutoff))
    ensures Prune(db, cutoff).outbox == db.outbox
    ensures forall id :: Known(Prune(db, cutoff), id) <==>
      && Known(db, id)
      && ((Lookup(db, id).dir == Out && Lookup(db, id).status != Delivered) || Lookup(db, id).ts >= cutoff)
    ensures forall id :: Known(Prune(db, cutoff), id) ==> Lookup(Prune(db, cutoff), id) == Lookup(db, id)
  {
    DeleteWhereKeeps(db, Stale(cutoff));
    var db' := Prune(db, cutoff);
    forall id ensures id in db'.outbox <==> id in db.outbox {
      assert OutboxOk(db, id) && OutboxOk(db', id);
    }
  }
}
