/**
  The rooms of a node as mutable state: one method per store transaction, with its
  cursor loops, and the handlers' decisions with their member loops, proved against
  RoomDb.
 */
module RoomStore {
  import opened OptionType
  import opened ByteOrder
  import opened Names
  import opened Keys
  import opened Sorting
  import opened Cursor
  import opened Members
  import opened RoomDb
  import opened RoomRows

  // ---- seeking a prefix in byte order ----

  lemma {:induction false} PrefixIsNotAfter(p: Bytes, k: Bytes)
    requires p <= k
    ensures !Less(k, p)
  {
    if p != [] {
      assert p[1..] <= k[1..];
      PrefixIsNotAfter(p[1..], k[1..]);
    }
  }

  lemma BetweenPrefixes(p: Bytes, f: Bytes, k: Bytes)
    requires !Less(f, p) && !Less(k, f) && p <= k
    ensures p <= f
  {
    LessTotal(f, p);
    LessTotal(f, k);
    if Less(p, f) && Less(f, k) {
      PrefixBlock(p, p, f, k);
    }
  }

  /** From the first key not before the prefix to the first without it: exactly the keys that have it. */
  lemma PrefixRun(bs: seq<Bytes>, p: Bytes, start: nat, end: nat, j: nat)
    requires Sorted(bs, Less) && start <= end <= |bs| && j < |bs|
    requires forall i :: 0 <= i < start ==> Less(bs[i], p)
    requires start < |bs| ==> !Less(bs[start], p)
    requires forall i :: start <= i < end ==> p <= bs[i]
    requires end < |bs| ==> !(p <= bs[end])
    ensures p <= bs[j] <==> start <= j < end
  {
    if p <= bs[j] {
      PrefixIsNotAfter(p, bs[j]);
      if end <= j {
        LessIrreflexive(bs[j]);
        if start < end {
          NotLessTransitive(p, bs[start], bs[end]);
        }
        BetweenPrefixes(p, bs[end], bs[j]);
      }
    }
  }

  ghost predicate Lists(ks: seq<Bytes>, keys: set<Bytes>) {
    (forall k :: k in ks <==> k in keys) && Sorted(ks, Less)
  }

  /** The order a bucket of flat keys is walked in. */
  method SortedKeys(keys: set<Bytes>) returns (ks: seq<Bytes>)
    ensures Lists(ks, keys)
  {
    var rest, s: seq<Bytes> := keys, [];
    while rest != {}
      invariant rest <= keys && forall k :: k in s <==> k in keys && k !in rest
    {
      var k :| k in rest;
      s, rest := s + [k], rest - {k};
    }
    var a := new Bytes[|s|](i requires 0 <= i < |s| => s[i]);
    assert a[..] == s;
    SortInPlace(a);
    ks := a[..];
    SortKeeps(s);
    forall k ensures k in ks <==> k in s {
      assert k in multiset(ks) <==> k in multiset(s);
    }
  }

  method SeekKey(ks: seq<Bytes>, p: Bytes) returns (i: nat)
    ensures i <= |ks| && (forall j :: 0 <= j < i ==> Less(ks[j], p)) && (i < |ks| ==> !Less(ks[i], p))
  {
    i := 0;
    while i < |ks| && Less(ks[i], p)
      invariant i <= |ks| && forall j :: 0 <= j < i ==> Less(ks[j], p)
    {
      i := i + 1;
    }
  }

  /** The first key at or after the prefix decides whether any key has it. */
  lemma SeekDecides(ks: seq<Bytes>, keys: set<Bytes>, p: Bytes, i: nat)
    requires Lists(ks, keys) && i <= |ks|
    requires (forall j :: 0 <= j < i ==> Less(ks[j], p)) && (i < |ks| ==> !Less(ks[i], p))
    ensures (i < |ks| && p <= ks[i]) <==> exists k :: k in keys && p <= k
  {
    if i < |ks| && p <= ks[i] {
      assert ks[i] in ks;
    } else {
      forall k | k in keys ensures !(p <= k) {
        var j :| 0 <= j < |ks| && ks[j] == k;
        PrefixRun(ks, p, i, i, j);
      }
    }
  }

  method AnyWithPrefix(keys: set<Bytes>, p: Bytes) returns (found: bool)
    ensures found <==> exists k :: k in keys && p <= k
  {
    var ks := SortedKeys(keys);
    var i := SeekKey(ks, p);
    SeekDecides(ks, keys, p, i);
    found := i < |ks| && p <= ks[i];
  }

  // ---- the store ----

  /** The messages of a room, in the order they were stored. */
  function RoomHistory(w: World, room: Id): seq<Row> {
    Select(w.rows, Lower(room), Every, w.last)
  }

  function SeqOf(m: Row): int {
    m.num
  }

  ghost predicate InRoom(w: World, room: Id, m: Row) {
    Known(w, m.id) && Lookup(w, m.id) == m && EqualFold(m.room, room)
  }

  /** The history of a room is exactly its messages, oldest first. */
  lemma RoomHistoryMeans(w: World, room: Id)
    requires Indexed(w)
    ensures Increasing(RoomHistory(w, room), SeqOf)
    ensures forall m :: m in RoomHistory(w, room) <==> InRoom(w, room, m)
  {
    forall k | k in w.rows ensures SeqOf(w.rows[k]) == k.num {
      assert RowIndexed(w, k);
    }
    SelectRises(w.rows, Lower(room), Every, w.last, SeqOf);
    forall m ensures m in RoomHistory(w, room) <==> InRoom(w, room, m) {
      SelectHolds(w.rows, Lower(room), Every, w.last, m);
      forall i: nat | IsRow(w.rows, Lower(room), i, m) ensures InRoom(w, room, m) {
        assert RowIndexed(w, RowKey(Lower(room), i));
      }
      if InRoom(w, room, m) {
        assert RowIndexed(w, w.idx[m.id]);
        assert IsRow(w.rows, Lower(room), m.num, m);
      }
    }
  }

  /** Rows and index agree, ids hold no NUL and the 64-bit sequence is not exhausted. */
  ghost predicate Sound(w: World) {
    Indexed(w) && forall k :: k in w.rows ==> Regular(k)
  }

  lemma LowerKeepsNul(s: Bytes)
    requires 0 !in s
    ensures 0 !in Lower(s)
  {
  }

  lemma AddSound(w: World, m: Row)
    requires Sound(w) && 0 !in m.room && w.last + 1 < Pow256(8) - 1
    ensures Sound(AddRow(w, m))
  {
    AddRowIndexed(w, m);
    LowerKeepsNul(m.room);
  }

  class Rooms {
    const me: Name
    var rooms: map<Id, Room>
    var rows: map<RowKey, Row>
    var idx: map<Id, RowKey>
    var last: nat
    var outbox: map<Bytes, Id>

    ghost function Now(): World
      reads this
    {
      World(me, rooms, rows, idx, last, outbox)
    }

    ghost predicate Valid()
      reads this
    {
      Sound(Now())
    }

    constructor (name: Name)
      ensures Valid() && Now() == Start(name)
    {
      me, rooms, rows, idx, last, outbox := name, map[], map[], map[], 0, map[];
    }

    method GetRoom(id: Id) returns (r: Option<Room>)
      ensures r == Find(Now(), id)
    {
      r := if id in rooms then Some(rooms[id]) else None;
    }

    method UpdateRoom(id: Id, r: Room)
      requires Valid()
      modifies this
      ensures Valid() && Now() == PutRoom(old(Now()), id, r)
    {
      SameRowsIndexed(Now(), PutRoom(Now(), id, r));
      rooms := rooms[id := r];
    }

    method AddRoomMessage(m: Row) returns (stored: Option<Row>)
      requires Valid() && 0 !in m.room && last + 1 < Pow256(8) - 1
      modifies this
      ensures Valid() && Now() == AddRow(old(Now()), m)
      ensures stored == if m.id in old(idx) then None else Some(m.(num := old(last) + 1))
    {
      AddSound(Now(), m);
      if m.id in idx {
        return None;
      }
      var row := PutNew(m);
      stored := Some(row);
    }

    /** The writes of one accepted message: sequence, row, index. */
    method PutNew(m: Row) returns (row: Row)
      requires m.id !in idx
      modifies this
      ensures Now() == AddRow(old(Now()), m) && row == m.(num := old(last) + 1)
    {
      last := last + 1;
      var k := RowKey(Lower(m.room), last);
      row := m.(num := last);
      rows := rows[k := row];
      idx := idx[m.id := k];
    }

    /** Up to limit most recent messages of a room, oldest first. */
    method RoomMessages(room: Id, limit: int) returns (out: seq<Row>)
      requires Valid() && 0 !in room
      ensures var all := RoomHistory(Now(), room);
        IsEnd(out, all) && |out| == if 1 <= limit <= 1000 then Least(limit, |all|) else Least(200, |all|)
    {
      LowerKeepsNul(room);
      assert forall k :: k in rows ==> RowIndexed(Now(), k);
      var all := BucketKeys(rows.Keys);
      var recent := Recent(all, rows.Keys, Lower(room), Clamp(limit), last);
      RecentRows(rows, Lower(room), recent, Clamp(limit), last);
      out := RowsAt(rows, recent);
      assert out == LastOf(RoomHistory(Now(), room), Clamp(limit));
      ClampedEnd(RoomHistory(Now(), room), limit);
    }

    method AddRoomMemberToOutbox(room: Id, member: Name, msg: Id)
      requires Valid()
      modifies this
      ensures Valid() && Now() == PutEntry(old(Now()), room, member, msg)
    {
      SameRowsIndexed(Now(), PutEntry(Now(), room, member, msg));
      outbox := outbox[OutboxKey(room, member, msg) := msg];
    }

    method EveryoneServed(waiting: map<Bytes, Id>, room: Id, members: seq<Name>, sender: Name) returns (all: bool)
      ensures all <==> NobodyWaits(waiting, room, members, sender)
    {
      for i := 0 to |members|
        invariant forall j :: 0 <= j < i && members[j] != sender ==> !Waiting(waiting, room, members[j])
      {
        if members[i] != sender {
          var found := AnyWithPrefix(waiting.Keys, MemberPrefix(room, members[i]));
          if found {
            assert Waiting(waiting, room, members[i]);
            return false;
          }
        }
      }
      return true;
    }

    /** Whether the ack completed the delivery. */
    method MarkRoomDelivered(room: Id, member: Name, id: Id) returns (changed: bool)
      requires Valid()
      modifies this
      ensures Valid() && Now() == MarkDelivered(old(Now()), room, member, id)
      ensures changed <==> rows != old(rows)
    {
      ConfirmIndexed(Now(), room, member, id);
      if id !in idx || idx[id] !in rows || rows[idx[id]].status == M.Delivered || room !in rooms {
        return false;
      }
      var m := rows[idx[id]];
      outbox := outbox - {OutboxKey(room, member, id)};
      changed := EveryoneServed(outbox, room, rooms[room].members, m.sender);
      if changed {
        rows := rows[idx[id] := m.(status := M.Delivered)];
        assert rows[idx[id]] != old(rows)[idx[id]];
      }
    }

    method ToggleRoomReaction(room: Id, id: Id, sender: Name, emoji: Bytes) returns (changed: bool)
      requires Valid()
      modifies this
      ensures Valid() && Now() == Toggle(old(Now()), room, id, sender, emoji)
      ensures changed <==>
        && Known(old(Now()), id) && EqualFold(Lookup(old(Now()), id).room, room)
        && Toggled(Lookup(old(Now()), id).reactions, sender, emoji).Some?
    {
      FlipIndexed(Now(), room, id, sender, emoji);
      if id !in idx || idx[id] !in rows || !EqualFold(rows[idx[id]].room, room) {
        return false;
      }
      var m := rows[idx[id]];
      var rs := ToggleIn(m.reactions, sender, emoji);
      if rs.None? {
        return false;
      }
      rows := rows[idx[id] := m.(reactions := rs.value)];
      changed := true;
    }

    method RemoveRoom(id: Id)
      requires Valid() && 0 !in id
      modifies this
      ensures Valid() && Now() == DeleteRoom(old(Now()), id)
    {
      DeleteRoomIndexed(Now(), id);
      rows, idx := DropRows(rows, idx, id);
      outbox := DropEntries(outbox, RoomPrefix(id));
      rooms := rooms - {id};
    }

    /** One write transaction. */
    method Perform(wr: Write)
      requires Valid()
      requires wr.Post? ==> 0 !in wr.row.room && last + 1 < Pow256(8) - 1
      requires wr.DropRoom? ==> 0 !in wr.id
      modifies this
      ensures Valid() && Now() == Apply(old(Now()), wr)
    {
      match wr
      case NoWrite =>
      case SaveRoom(id, record) => UpdateRoom(id, record);
      case DropRoom(id) => RemoveRoom(id);
      case Post(row) => var _ := AddRoomMessage(row);
      case Enter(room, member, msg) => AddRoomMemberToOutbox(room, member, msg);
      case Confirm(room, member, msg) => var _ := MarkRoomDelivered(room, member, msg);
      case Flip(room, msg, sender, emoji) => var _ := ToggleRoomReaction(room, msg, sender, emoji);
    }

    /** A room event when nothing comes between its lookup and its write. */
    method HandleRoomEvent(peer: Name, e: RoomEvent)
      requires Valid() && 0 !in e.room
      modifies this
      ensures Valid() && Now() == Step(old(Now()), FromPeer(peer, e))
    {
      var cap := GetRoom(e.room);
      var wr := NoWrite;
      if e.Create? {
        wr := ChooseCreate(me, peer, e, cap);
      } else if cap.Some? {
        wr := ChooseMembership(me, peer, e, cap.value);
      }
      Perform(wr);
    }
  }

  /** The scan of a message's reactions: remove the first match, or append below the cap. */
  method ToggleIn(rs: seq<Reaction>, sender: Name, emoji: Bytes) returns (r: Option<seq<Reaction>>)
    ensures r == Toggled(rs, sender, emoji)
  {
    for i := 0 to |rs|
      invariant i <= FindReaction(rs, sender, emoji)
    {
      if EqualFold(rs[i].sender, sender) && rs[i].emoji == emoji {
        return Some(rs[..i] + rs[i + 1..]);
      }
    }
    if |rs| >= MAX_REACTIONS {
      return None;
    }
    r := Some(rs + [Reaction(sender, emoji)]);
  }

  /** A bucket after deleting some of its keys, one by one. */
  function Without<K, V>(m: map<K, V>, ks: seq<K>): map<K, V> {
    if ks == [] then m else Without(m, ks[..|ks| - 1]) - {ks[|ks| - 1]}
  }

  lemma {:induction false} WithoutMeans<K(!new), V>(m: map<K, V>, ks: seq<K>, k: K)
    ensures k in Without(m, ks) <==> k in m && k !in ks
    ensures k in Without(m, ks) ==> Without(m, ks)[k] == m[k]
  {
    if ks != [] {
      WithoutMeans(m, ks[..|ks| - 1], k);
      assert ks == ks[..|ks| - 1] + [ks[|ks| - 1]];
    }
  }

  lemma WithoutNext<K, V>(m: map<K, V>, ks: seq<K>, start: nat, i: nat)
    requires start <= i < |ks|
    ensures Without(m, ks[start..i + 1]) == Without(m, ks[start..i]) - {ks[i]}
  {
    assert ks[start..i + 1][..i - start] == ks[start..i] && ks[start..i + 1][i - start] == ks[i];
  }

  /** The index after deleting the entries of some rows, one by one. */
  function IdxWithout(idx: map<Id, RowKey>, rows: map<RowKey, Row>, ks: seq<RowKey>): map<Id, RowKey> {
    if ks == [] then idx else
      var k := ks[|ks| - 1];
      IdxWithout(idx, rows, ks[..|ks| - 1]) - if k in rows then {rows[k].id} else {}
  }

  lemma {:induction false} IdxWithoutMeans(idx: map<Id, RowKey>, rows: map<RowKey, Row>, ks: seq<RowKey>, x: Id)
    ensures x in IdxWithout(idx, rows, ks) <==> x in idx && !exists k :: k in ks && k in rows && rows[k].id == x
    ensures x in IdxWithout(idx, rows, ks) ==> IdxWithout(idx, rows, ks)[x] == idx[x]
  {
    if ks != [] {
      IdxWithoutMeans(idx, rows, ks[..|ks| - 1], x);
      assert ks == ks[..|ks| - 1] + [ks[|ks| - 1]];
    }
  }

  lemma IdxWithoutNext(idx: map<Id, RowKey>, rows: map<RowKey, Row>, ks: seq<RowKey>, start: nat, i: nat)
    requires start <= i < |ks| && ks[i] in rows
    ensures IdxWithout(idx, rows, ks[start..i + 1]) == IdxWithout(idx, rows, ks[start..i]) - {rows[ks[i]].id}
  {
    assert ks[start..i + 1][..i - start] == ks[start..i] && ks[start..i + 1][i - start] == ks[i];
  }

  lemma RowsDropped(rows: map<RowKey, Row>, idx: map<Id, RowKey>, ks: seq<RowKey>, id: Id)
    requires forall k :: k in rows ==> (k in ks <==> k.peer == Lower(id))
    ensures Without(rows, ks) == map k | k in rows && k.peer != Lower(id) :: rows[k]
    ensures IdxWithout(idx, rows, ks) == idx - set k | k in rows && k.peer == Lower(id) :: rows[k].id
  {
    forall k ensures k in Without(rows, ks) <==> k in rows && k.peer != Lower(id) {
      WithoutMeans(rows, ks, k);
    }
    forall k | k in Without(rows, ks) ensures Without(rows, ks)[k] == rows[k] {
      WithoutMeans(rows, ks, k);
    }
    var ids := set k | k in rows && k.peer == Lower(id) :: rows[k].id;
    forall x ensures x in IdxWithout(idx, rows, ks) <==> x in idx && x !in ids {
      IdxWithoutMeans(idx, rows, ks, x);
    }
    forall x | x in IdxWithout(idx, rows, ks) ensures IdxWithout(idx, rows, ks)[x] == idx[x] {
      IdxWithoutMeans(idx, rows, ks, x);
    }
  }

  lemma EntriesDropped(outbox: map<Bytes, Id>, ks: seq<Bytes>, p: Bytes, start: nat, end: nat)
    requires Lists(ks, outbox.Keys) && start <= end <= |ks|
    requires forall i :: 0 <= i < start ==> Less(ks[i], p)
    requires start < |ks| ==> !Less(ks[start], p)
    requires forall i :: start <= i < end ==> p <= ks[i]
    requires end < |ks| ==> !(p <= ks[end])
    ensures Without(outbox, ks[start..end]) == map k | k in outbox && !(p <= k) :: outbox[k]
  {
    forall k ensures k in Without(outbox, ks[start..end]) <==> k in outbox && !(p <= k) {
      WithoutMeans(outbox, ks[start..end], k);
      if k in outbox {
        assert k in outbox.Keys;
        var j :| 0 <= j < |ks| && ks[j] == k;
        PrefixRun(ks, p, start, end, j);
        assert start <= j < end ==> ks[start..end][j - start] == k;
      }
    }
    forall k | k in Without(outbox, ks[start..end]) ensures Without(outbox, ks[start..end])[k] == outbox[k] {
      WithoutMeans(outbox, ks[start..end], k);
    }
  }

  /** The loop over the rows with a prefix: each goes with its index entry. */
  method DropFrom(rows: map<RowKey, Row>, idx: map<Id, RowKey>, ks: seq<RowKey>, p: Bytes, start: nat)
    returns (rows': map<RowKey, Row>, idx': map<Id, RowKey>, ghost end: nat)
    requires start <= |ks| && forall i :: start <= i < |ks| ==> ks[i] in rows && ks[i] !in ks[start..i]
    ensures start <= end <= |ks| && (forall j :: start <= j < end ==> p <= KeyBytes(ks[j]))
    ensures end < |ks| ==> !(p <= KeyBytes(ks[end]))
    ensures rows' == Without(rows, ks[start..end]) && idx' == IdxWithout(idx, rows, ks[start..end])
  {
    var i := start;
    rows', idx' := rows, idx;
    while i < |ks| && p <= KeyBytes(ks[i])
      invariant start <= i <= |ks| && forall j :: start <= j < i ==> p <= KeyBytes(ks[j])
      invariant rows' == Without(rows, ks[start..i]) && idx' == IdxWithout(idx, rows, ks[start..i])
    {
      WithoutMeans(rows, ks[start..i], ks[i]);
      WithoutNext(rows, ks, start, i);
      IdxWithoutNext(idx, rows, ks, start, i);
      idx' := idx' - {rows'[ks[i]].id};
      rows' := rows' - {ks[i]};
      i := i + 1;
    }
    end := i;
  }

  method DropRows(rows: map<RowKey, Row>, idx: map<Id, RowKey>, id: Id)
    returns (rows': map<RowKey, Row>, idx': map<Id, RowKey>)
    requires (forall k :: k in rows ==> Regular(k)) && 0 !in id
    ensures rows' == map k | k in rows && k.peer != Lower(id) :: rows[k]
    ensures idx' == idx - set k | k in rows && k.peer == Lower(id) :: rows[k].id
  {
    LowerKeepsNul(id);
    var ks := BucketKeys(rows.Keys);
    var start := Seek(ks, Prefix(Lower(id)));
    StillThere(ks, rows.Keys, start);
    ghost var end;
    rows', idx', end := DropFrom(rows, idx, ks, Prefix(Lower(id)), start);
    VisitedRows(ks, rows.Keys, id, start, end);
    RowsDropped(rows, idx, ks[start..end], id);
  }

  /** The loop over the outbox entries with a prefix. */
  method DropEntriesFrom(outbox: map<Bytes, Id>, ks: seq<Bytes>, p: Bytes, start: nat)
    returns (outbox': map<Bytes, Id>, ghost end: nat)
    requires start <= |ks|
    ensures start <= end <= |ks| && (forall j :: start <= j < end ==> p <= ks[j])
    ensures end < |ks| ==> !(p <= ks[end])
    ensures outbox' == Without(outbox, ks[start..end])
  {
    var i := start;
    outbox' := outbox;
    while i < |ks| && p <= ks[i]
      invariant start <= i <= |ks| && forall j :: start <= j < i ==> p <= ks[j]
      invariant outbox' == Without(outbox, ks[start..i])
    {
      WithoutNext(outbox, ks, start, i);
      outbox' := outbox' - {ks[i]};
      i := i + 1;
    }
    end := i;
  }

  method DropEntries(outbox: map<Bytes, Id>, p: Bytes) returns (outbox': map<Bytes, Id>)
    ensures outbox' == map k | k in outbox && !(p <= k) :: outbox[k]
  {
    var ks := SortedKeys(outbox.Keys);
    var start := SeekKey(ks, p);
    ghost var end;
    outbox', end := DropEntriesFrom(outbox, ks, p, start);
    EntriesDropped(outbox, ks, p, start, end);
  }

  /** The keys of a bucket occur once, so the next one has not been deleted yet. */
  lemma StillThere(ks: seq<RowKey>, keys: set<RowKey>, start: nat)
    requires InByteOrder(ks, keys) && start <= |ks|
    ensures forall i :: start <= i < |ks| ==> ks[i] in keys && ks[i] !in ks[start..i]
  {
    forall i | start <= i < |ks| ensures ks[i] in keys && ks[i] !in ks[start..i] {
      assert ks[i] in ks;
      LessIrreflexive(KeyBytes(ks[i]));
    }
  }

  /** The walk from the prefix on passes exactly the rows of the room. */
  lemma VisitedRows(ks: seq<RowKey>, keys: set<RowKey>, id: Id, start: nat, end: nat)
    requires InByteOrder(ks, keys) && (forall k :: k in keys ==> Regular(k)) && 0 !in Lower(id)
    requires start <= end <= |ks|
    requires forall j :: 0 <= j < start ==> Less(KeyBytes(ks[j]), Prefix(Lower(id)))
    requires start < |ks| ==> !Less(KeyBytes(ks[start]), Prefix(Lower(id)))
    requires forall j :: start <= j < end ==> Prefix(Lower(id)) <= KeyBytes(ks[j])
    requires end < |ks| ==> !(Prefix(Lower(id)) <= KeyBytes(ks[end]))
    ensures forall k :: k in keys ==> (k in ks[start..end] <==> k.peer == Lower(id))
  {
    var bs := seq(|ks|, j requires 0 <= j < |ks| => KeyBytes(ks[j]));
    forall i, j | 0 <= i < j < |bs| ensures !Less(bs[j], bs[i]) {
      LessAsymmetric(KeyBytes(ks[i]), KeyBytes(ks[j]));
    }
    forall k | k in keys ensures k in ks[start..end] <==> k.peer == Lower(id) {
      var j :| 0 <= j < |ks| && ks[j] == k;
      PrefixRun(bs, Prefix(Lower(id)), start, end, j);
      HasPrefix(k, Lower(id));
      assert start <= j < end ==> ks[start..end][j - start] == k;
    }
  }

  // ---- what the handlers decide ----

  method SortedWith(ms: seq<Name>, extra: Name) returns (out: seq<Name>)
    ensures out == SortNames(ms + [extra])
  {
    var s := ms + [extra];
    var a := new Bytes[|s|](i requires 0 <= i < |s| => s[i]);
    assert a[..] == s;
    SortInPlace(a);
    out := a[..];
  }

  method ChooseCreate(me: Name, peer: Name, e: RoomEvent, cap: Option<Room>) returns (wr: Write)
    requires e.Create?
    ensures wr == DecideCreate(me, peer, e, cap)
  {
    var ms := DedupeMembers(if e.members == [] then [peer, me] else e.members);
    var included := Contains(ms, me);
    if !included || |ms| > MAX_MEMBERS {
      return NoWrite;
    }
    if cap.Some? {
      if peer != cap.value.creator {
        return NoWrite;
      }
      return SaveRoom(e.room, cap.value.(name := e.name, members := ms));
    }
    wr := SaveRoom(e.room, Room(e.name, ms, peer, e.ts, Invited));
  }

  method ChooseMembership(me: Name, peer: Name, e: RoomEvent, r: Room) returns (wr: Write)
    requires !e.Create?
    ensures wr == DecideMembership(me, peer, e, r)
  {
    wr := NoWrite;
    match e
    case Join(room, actor) =>
      var already := Contains(r.members, actor);
      if !EqualFold(peer, actor) && peer == r.creator && !already && |r.members| < MAX_MEMBERS {
        var ms := SortedWith(r.members, actor);
        wr := SaveRoom(room, r.(members := ms));
      }
    case Remove(room, actor) =>
      if peer == r.creator {
        var present := Contains(r.members, actor);
        if actor == me {
          wr := DropRoom(room);
        } else if present {
          var ms := WithoutPeer(r.members, actor);
          wr := SaveRoom(room, r.(members := ms));
        }
      }
    case Leave(room) =>
      var present := Contains(r.members, peer);
      if peer == me {
        wr := DropRoom(room);
      } else if present {
        var ms := WithoutPeer(r.members, peer);
        wr := SaveRoom(room, r.(members := ms));
      }
    case Rename(room, name) =>
      if peer == r.creator {
        wr := SaveRoom(room, r.(name := name));
      }
  }
}
