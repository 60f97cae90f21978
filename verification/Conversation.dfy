/**
  A conversation is the rows held with one peer, in the order they were stored.
  Everything a caller sees (history, what was queued, what arrived, what is
  still unsent) is a selection of it.
 */
module Conversation {
  import opened ByteOrder
  import opened Names
  import opened Keys
  import opened Sorting
  import opened MessageDb

  function RowNum(m: Message): int {
    m.num
  }

  ghost predicate Has(db: Db, m: Message) {
    Known(db, m.id) && Lookup(db, m.id) == m
  }

  predicate Inbound(m: Message) { m.dir == In }

  predicate Outbound(m: Message) { m.dir == Out }

  function History(db: Db, peer: Name): seq<Message> {
    Select(db.rows, PeerKey(peer), Every, db.last)
  }

  function Pending(db: Db, peer: Name): seq<Message> {
    Select(db.rows, Lower(peer), Unsent, db.last)
  }

  function Payloads(ms: seq<Message>): seq<Payload> {
    seq(|ms|, i requires 0 <= i < |ms| => PayloadOf(ms[i]))
  }

  /** Everything queued for the peer, in send order. */
  function Sent(db: Db, peer: Name): seq<Payload> {
    Payloads(Select(db.rows, Lower(peer), Outbound, db.last))
  }

  /** Everything stored from the peer, in arrival order. */
  function Arrived(db: Db, peer: Name): seq<Payload> {
    Payloads(Select(db.rows, Lower(peer), Inbound, db.last))
  }

  /** Key (who, n) leads to the one row with that name and number, if there is one. */
  lemma RowAt(db: Db, who: Bytes, n: nat, m: Message)
    requires Consistent(db)
    ensures RowKey(who, n) in db.rows && db.rows[RowKey(who, n)] == m <==>
      Has(db, m) && Lower(m.peer) == who && m.num == n
    ensures Has(db, m) ==> 1 <= m.num <= db.last
  {
    var k := RowKey(who, n);
    if k in db.rows {
      assert RowOk(db, k);
    }
    if Has(db, m) {
      assert RowOk(db, db.idx[m.id]);
    }
  }

  lemma SelectMember(db: Db, who: Bytes, p: Message -> bool, n: nat, m: Message)
    requires Consistent(db) && n <= db.last
    ensures m in Select(db.rows, who, p, n) <==> Has(db, m) && Lower(m.peer) == who && p(m) && m.num <= n
  {
    SelectHolds(db.rows, who, p, n, m);
    RowAt(db, who, m.num, m);
    forall i: nat | IsRow(db.rows, who, i, m) ensures i == m.num {
      RowAt(db, who, i, m);
    }
    assert Has(db, m) && Lower(m.peer) == who ==> IsRow(db.rows, who, m.num, m);
  }

  lemma SelectOrdered(db: Db, who: Bytes, p: Message -> bool, n: nat)
    requires Consistent(db) && n <= db.last
    ensures Increasing(Select(db.rows, who, p, n), RowNum)
    ensures forall i :: 0 <= i < |Select(db.rows, who, p, n)| ==> Select(db.rows, who, p, n)[i].num <= n
  {
    forall k | k in db.rows && k.peer == who ensures RowNum(db.rows[k]) == k.num {
      assert RowOk(db, k);
    }
    SelectRises(db.rows, who, p, n, RowNum);
    var s := Select(db.rows, who, p, n);
    forall i | 0 <= i < |s| ensures s[i].num <= n {
      assert RowNum(s[i]) <= n;
    }
  }

  /** A selection holds exactly the rows it describes, in strictly increasing order. */
  lemma SelectMeans(db: Db, who: Bytes, p: Message -> bool, n: nat)
    requires Consistent(db) && n <= db.last
    ensures Increasing(Select(db.rows, who, p, n), RowNum)
    ensures forall m :: m in Select(db.rows, who, p, n) <==> Has(db, m) && Lower(m.peer) == who && p(m) && m.num <= n
  {
    SelectOrdered(db, who, p, n);
    forall m ensures m in Select(db.rows, who, p, n) <==> Has(db, m) && Lower(m.peer) == who && p(m) && m.num <= n {
      SelectMember(db, who, p, n, m);
    }
  }

  /** The history with a peer is exactly the messages under that name, trimmed and up to case, oldest first. */
  lemma HistoryMeans(db: Db, peer: Name)
    requires Consistent(db)
    ensures Increasing(History(db, peer), RowNum)
    ensures forall m :: m in History(db, peer) <==> Has(db, m) && EqualFold(m.peer, TrimSpace(peer))
  {
    SelectMeans(db, PeerKey(peer), Every, db.last);
    forall m | Has(db, m) ensures m.num <= db.last {
      RowAt(db, Lower(m.peer), m.num, m);
    }
  }

  // ---- how the transactions move a conversation ----

  /** Rows that agree on what a selection looks at give the same payload list. */
  lemma {:induction false} PayloadsAgree(db: Db, db': Db, who: Bytes, p: Message -> bool, n: nat)
    requires forall i :: 1 <= i <= n ==> (RowKey(who, i) in db.rows <==> RowKey(who, i) in db'.rows)
    requires forall i :: 1 <= i <= n && RowKey(who, i) in db.rows ==>
      && p(db.rows[RowKey(who, i)]) == p(db'.rows[RowKey(who, i)])
      && PayloadOf(db.rows[RowKey(who, i)]) == PayloadOf(db'.rows[RowKey(who, i)])
    ensures Payloads(Select(db.rows, who, p, n)) == Payloads(Select(db'.rows, who, p, n))
  {
    if n > 0 {
      PayloadsAgree(db, db', who, p, n - 1);
      PayloadsSnoc(db, who, p, n);
      PayloadsSnoc(db', who, p, n);
    }
  }

  lemma PayloadsSnoc(db: Db, who: Bytes, p: Message -> bool, n: nat)
    requires n > 0
    ensures Payloads(Select(db.rows, who, p, n)) ==
      Payloads(Select(db.rows, who, p, n - 1)) +
      if RowKey(who, n) in db.rows && p(db.rows[RowKey(who, n)]) then [PayloadOf(db.rows[RowKey(who, n)])] else []
  {
  }

  /** Storing a message appends it to the conversation it belongs to and to no other. */
  lemma AddAppends(db: Db, m: Message, who: Bytes, p: Message -> bool)
    requires Consistent(db) && m.id !in db.idx && Trimmed(m.peer)
    requires p(m) == p(m.(num := db.last + 1))
    ensures Payloads(Select(Add(db, m).rows, who, p, db.last + 1)) ==
      Payloads(Select(db.rows, who, p, db.last)) + if Lower(m.peer) == who && p(m) then [PayloadOf(m)] else []
  {
    var n := db.last + 1;
    PayloadsAgree(db, Add(db, m), who, p, db.last);
    PayloadsSnoc(Add(db, m), who, p, n);
    if RowKey(who, n) in db.rows {
      RowAt(db, who, n, db.rows[RowKey(who, n)]);
    }
  }

  /** Acks and attempts leave both payload lists alone. */
  lemma StatusChangeKeepsTalk(db: Db, db': Db, peer: Name)
    requires db'.rows.Keys == db.rows.Keys && db'.last == db.last
    requires forall k :: k in db.rows ==>
      db'.rows[k].dir == db.rows[k].dir && PayloadOf(db'.rows[k]) == PayloadOf(db.rows[k])
    ensures Sent(db', peer) == Sent(db, peer) && Arrived(db', peer) == Arrived(db, peer)
  {
    PayloadsAgree(db, db', Lower(peer), Outbound, db.last);
    PayloadsAgree(db, db', Lower(peer), Inbound, db.last);
  }

  lemma AttemptKeepsTalk(db: Db, id: Id, now: int, peer: Name)
    ensures Sent(Attempt(db, id, now), peer) == Sent(db, peer)
    ensures Arrived(Attempt(db, id, now), peer) == Arrived(db, peer)
  {
    StatusChangeKeepsTalk(db, Attempt(db, id, now), peer);
  }

  lemma DeliverKeepsTalk(db: Db, from: Name, id: Id, peer: Name)
    ensures Sent(Deliver(db, from, id), peer) == Sent(db, peer)
    ensures Arrived(Deliver(db, from, id), peer) == Arrived(db, peer)
  {
    StatusChangeKeepsTalk(db, Deliver(db, from, id), peer);
  }

  /** A stored message joins the sent or the arrived list of its own peer. */
  lemma AddTalks(db: Db, m: Message, peer: Name)
    requires Consistent(db) && m.id !in db.idx && Trimmed(m.peer)
    ensures Sent(Add(db, m), peer) == Sent(db, peer) +
      if EqualFold(m.peer, peer) && m.dir == Out then [PayloadOf(m)] else []
    ensures Arrived(Add(db, m), peer) == Arrived(db, peer) +
      if EqualFold(m.peer, peer) && m.dir == In then [PayloadOf(m)] else []
  {
    AddAppends(db, m, Lower(peer), Outbound);
    AddAppends(db, m, Lower(peer), Inbound);
  }
}
