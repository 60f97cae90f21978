/**
  Room messages and their index, under any sequence of writes whatever, and when
  a write keeps every message inside a room we have joined.
 */
module RoomRows {
  import opened ByteOrder
  import opened Names
  import opened Keys
  import opened RoomDb

  ghost predicate RowIndexed(w: World, k: RowKey)
    requires k in w.rows
  {
    var m := w.rows[k];
    && k == RowKey(Lower(m.room), m.num) && 1 <= m.num <= w.last
    && m.id in w.idx && w.idx[m.id] == k
  }

  ghost predicate IdIndexed(w: World, id: Id) {
    Known(w, id) && Lookup(w, id).id == id
  }

  /** The index is a bijection between ids and rows. */
  ghost predicate Indexed(w: World) {
    && (forall k :: k in w.rows ==> RowIndexed(w, k))
    && (forall id :: id in w.idx ==> IdIndexed(w, id))
  }

  lemma AddRowIndexed(w: World, m: Row)
    requires Indexed(w)
    ensures Indexed(AddRow(w, m))
  {
    var w' := AddRow(w, m);
    if m.id !in w.idx {
      var key := RowKey(Lower(m.room), w.last + 1);
      forall k | k in w.rows ensures k != key {
        assert RowIndexed(w, k);
      }
      forall k | k in w'.rows ensures RowIndexed(w', k) {
        assert k != key ==> RowIndexed(w, k);
      }
      forall id | id in w'.idx ensures IdIndexed(w', id) {
        assert id != m.id ==> IdIndexed(w, id);
      }
    }
  }

  /** Rewriting one row in place disturbs neither keys nor index. */
  lemma PutRowIndexed(w: World, id: Id, m: Row)
    requires Indexed(w) && Known(w, id)
    requires m.id == id && m.room == Lookup(w, id).room && m.num == Lookup(w, id).num
    ensures Indexed(PutRow(w, id, m))
  {
    var w' := PutRow(w, id, m);
    assert RowIndexed(w, w.idx[id]);
    forall k | k in w'.rows ensures RowIndexed(w', k) {
      assert RowIndexed(w, k);
    }
    forall x | x in w'.idx ensures IdIndexed(w', x) {
      assert IdIndexed(w, x);
    }
  }

  /** Storing a message makes it known as it is, under the next number, and disturbs no other; a known id is refused. */
  lemma AddRowMeans(w: World, m: Row)
    requires Indexed(w)
    ensures var w' := AddRow(w, m);
      && w' == w.(rows := w'.rows, idx := w'.idx, last := w'.last)
      && (forall id :: Known(w', id) <==> Known(w, id) || id == m.id)
      && (forall id :: Known(w, id) ==> Lookup(w', id) == Lookup(w, id))
      && (!Known(w, m.id) ==> Lookup(w', m.id) == m.(num := w.last + 1) && w'.last == w.last + 1)
      && (Known(w, m.id) ==> w' == w)
  {
    assert m.id in w.idx ==> IdIndexed(w, m.id);
    forall id | Known(w, id) && m.id !in w.idx ensures Lookup(AddRow(w, m), id) == Lookup(w, id) {
      assert RowIndexed(w, w.idx[id]);
    }
  }

  lemma DeletedIds(w: World, id: Id, x: Id)
    requires Indexed(w) && x in w.idx
    ensures x in (set k | k in w.rows && k.peer == Lower(id) :: w.rows[k].id) <==> w.idx[x].peer == Lower(id)
  {
    assert IdIndexed(w, x);
    var ids := set k | k in w.rows && k.peer == Lower(id) :: w.rows[k].id;
    if x in ids {
      var k :| k in w.rows && k.peer == Lower(id) && w.rows[k].id == x;
      assert RowIndexed(w, k);
    }
  }

  lemma DropGoes(w: World, id: Id, x: Id)
    requires Indexed(w) && Known(w, x)
    ensures var w' := DeleteRoom(w, id);
      && (Known(w', x) <==> !EqualFold(Lookup(w, x).room, id))
      && (Known(w', x) ==> Lookup(w', x) == Lookup(w, x))
  {
    DeletedIds(w, id, x);
    assert RowIndexed(w, w.idx[x]);
  }

  /** Deleting a room removes its record, its messages and its outbox entries, by the folded id, and nothing else. */
  lemma DropMeans(w: World, id: Id)
    requires Indexed(w)
    ensures var w' := DeleteRoom(w, id);
      && w'.me == w.me && w'.last == w.last
      && (forall x :: x in w'.rooms <==> x in w.rooms && x != id)
      && (forall x :: x in w'.rooms ==> w'.rooms[x] == w.rooms[x])
      && (forall x :: Known(w', x) <==> Known(w, x) && !EqualFold(Lookup(w, x).room, id))
      && (forall x :: Known(w', x) ==> Lookup(w', x) == Lookup(w, x))
      && (forall k :: k in w'.outbox <==> k in w.outbox && !(Lower(id) + [0x3A] <= k))
      && (forall k :: k in w'.outbox ==> w'.outbox[k] == w.outbox[k])
  {
    forall x | Known(w, x)
      ensures Known(DeleteRoom(w, id), x) <==> !EqualFold(Lookup(w, x).room, id)
      ensures Known(DeleteRoom(w, id), x) ==> Lookup(DeleteRoom(w, id), x) == Lookup(w, x)
    {
      DropGoes(w, id, x);
    }
  }

  lemma DeleteRoomIndexed(w: World, id: Id)
    requires Indexed(w)
    ensures Indexed(DeleteRoom(w, id))
  {
    var w' := DeleteRoom(w, id);
    forall k | k in w'.rows ensures RowIndexed(w', k) {
      assert RowIndexed(w, k);
      DeletedIds(w, id, w.rows[k].id);
    }
    forall x | x in w'.idx ensures IdIndexed(w', x) {
      assert IdIndexed(w, x);
      DeletedIds(w, id, x);
    }
  }

  /** Rows do not depend on rooms and outbox. */
  lemma SameRowsIndexed(w: World, w': World)
    requires Indexed(w) && w'.rows == w.rows && w'.idx == w.idx && w'.last == w.last
    ensures Indexed(w')
  {
    forall k | k in w'.rows ensures RowIndexed(w', k) {
      assert RowIndexed(w, k);
    }
    forall x | x in w'.idx ensures IdIndexed(w', x) {
      assert IdIndexed(w, x);
    }
  }

  lemma ConfirmIndexed(w: World, room: Id, member: Name, msg: Id)
    requires Indexed(w)
    ensures Indexed(MarkDelivered(w, room, member, msg))
  {
    var w1 := w.(outbox := w.outbox - {OutboxKey(room, member, msg)});
    SameRowsIndexed(w, w1);
    var w' := MarkDelivered(w, room, member, msg);
    if w'.rows != w.rows {
      assert IdIndexed(w, msg);
      PutRowIndexed(w1, msg, Lookup(w', msg));
    }
  }

  lemma FlipIndexed(w: World, room: Id, msg: Id, sender: Name, emoji: Bytes)
    requires Indexed(w)
    ensures Indexed(Toggle(w, room, msg, sender, emoji))
  {
    var w' := Toggle(w, room, msg, sender, emoji);
    if w' != w {
      assert IdIndexed(w, msg);
      PutRowIndexed(w, msg, Lookup(w', msg));
    }
  }

  lemma ApplyIndexed(w: World, wr: Write)
    requires Indexed(w)
    ensures Indexed(Apply(w, wr))
  {
    match wr
    case NoWrite =>
    case SaveRoom(id, record) => SameRowsIndexed(w, PutRoom(w, id, record));
    case DropRoom(id) => DeleteRoomIndexed(w, id);
    case Post(row) => AddRowIndexed(w, row);
    case Enter(room, member, msg) => SameRowsIndexed(w, PutEntry(w, room, member, msg));
    case Confirm(room, member, msg) => ConfirmIndexed(w, room, member, msg);
    case Flip(room, msg, sender, emoji) => FlipIndexed(w, room, msg, sender, emoji);
  }

  /** Any writes in any order keep rows and index in agreement. */
  lemma {:induction false} WritesIndexed(me: Name, ws: seq<Write>)
    ensures Indexed(ApplyAll(Start(me), ws))
    decreases |ws|
  {
    if ws != [] {
      WritesIndexed(me, ws[..|ws| - 1]);
      ApplyIndexed(ApplyAll(Start(me), ws[..|ws| - 1]), ws[|ws| - 1]);
    }
  }

  // ---- every message in a room we have joined ----

  ghost predicate HasJoined(w: World, room: Id) {
    room in w.rooms && w.rooms[room].state == Joined
  }

  ghost predicate Held(w: World) {
    forall k :: k in w.rows ==> HasJoined(w, w.rows[k].room)
  }

  ghost predicate HasRows(w: World, room: Id) {
    exists k :: k in w.rows && w.rows[k].room == room
  }

  /** The write posts only into a room that is joined now, and takes that away from no room with messages. */
  ghost predicate Harmless(w: World, wr: Write) {
    match wr
    case SaveRoom(id, record) => record.state == Joined || !HasRows(w, id)
    case Post(row) => row.id in w.idx || HasJoined(w, row.room)
    case _ => true
  }

  lemma SaveHeldIff(w: World, id: Id, record: Room)
    requires Held(w)
    ensures Held(PutRoom(w, id, record)) <==> record.state == Joined || !HasRows(w, id)
  {
    var w' := PutRoom(w, id, record);
    if record.state != Joined && HasRows(w, id) {
      var k :| k in w.rows && w.rows[k].room == id;
      assert !HasJoined(w', w'.rows[k].room);
    } else {
      forall k | k in w'.rows ensures HasJoined(w', w'.rows[k].room) {
        assert HasJoined(w, w.rows[k].room);
      }
    }
  }

  lemma PostHeldIff(w: World, m: Row)
    requires Indexed(w) && Held(w)
    ensures Held(AddRow(w, m)) <==> m.id in w.idx || HasJoined(w, m.room)
  {
    var w' := AddRow(w, m);
    if m.id !in w.idx {
      var key := RowKey(Lower(m.room), w.last + 1);
      assert w'.rows[key].room == m.room;
      forall k | k in w'.rows && k != key ensures HasJoined(w', w'.rows[k].room) {
        assert HasJoined(w, w.rows[k].room);
      }
    }
  }

  lemma DropHeld(w: World, id: Id)
    requires Indexed(w) && Held(w)
    ensures Held(DeleteRoom(w, id))
  {
    var w' := DeleteRoom(w, id);
    forall k | k in w'.rows ensures HasJoined(w', w'.rows[k].room) {
      assert RowIndexed(w, k) && HasJoined(w, w.rows[k].room);
    }
  }

  /** Neither rooms nor the room of any row change. */
  lemma SameRoomsHeld(w: World, w': World)
    requires Held(w) && w'.rooms == w.rooms && w'.rows.Keys == w.rows.Keys
    requires forall k :: k in w.rows ==> w'.rows[k].room == w.rows[k].room
    ensures Held(w')
  {
    forall k | k in w'.rows ensures HasJoined(w', w'.rows[k].room) {
      assert HasJoined(w, w.rows[k].room);
    }
  }

  /** Exactly the harmless writes keep every message inside a joined room. */
  lemma WriteKeepsHeldIff(w: World, wr: Write)
    requires Indexed(w) && Held(w)
    ensures Held(Apply(w, wr)) <==> Harmless(w, wr)
  {
    match wr
    case NoWrite =>
    case SaveRoom(id, record) => SaveHeldIff(w, id, record);
    case DropRoom(id) => DropHeld(w, id);
    case Post(row) => PostHeldIff(w, row);
    case Enter(_, _, _) => SameRoomsHeld(w, Apply(w, wr));
    case Confirm(_, _, _) => SameRoomsHeld(w, Apply(w, wr));
    case Flip(_, _, _, _) => SameRoomsHeld(w, Apply(w, wr));
  }
}
