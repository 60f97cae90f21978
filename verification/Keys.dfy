/**
  Row keys. A row lives under a folded name and a bucket sequence number; on disk
  the key is the name, a NUL and eight big-endian bytes, and the bucket is walked
  in byte order.
 */
module Keys {
  import opened ByteOrder
  import opened Sorting

  datatype RowKey = RowKey(peer: Bytes, num: nat)

  function Prefix(who: Bytes): Bytes {
    who + [0]
  }

  function KeyBytes(k: RowKey): Bytes {
    Prefix(k.peer) + BigEndian(k.num, 8)
  }

  /** The bound a walk seeks to: prefix and eight 0xff bytes. */
  function Upper(who: Bytes): Bytes {
    Prefix(who) + [0xFF, 0xFF, 0xFF, 0xFF, 0xFF, 0xFF, 0xFF, 0xFF]
  }

  /** Names hold no NUL, and the sequence has not reached its last value. */
  predicate Regular(k: RowKey) {
    0 !in k.peer && k.num < Pow256(8) - 1
  }

  lemma {:induction false} LastCounter(w: nat)
    ensures BigEndian(Pow256(w) - 1, w) == seq(w, _ => 0xFF)
  {
    if w > 0 {
      LastCounter(w - 1);
      assert (Pow256(w) - 1) / 256 == Pow256(w - 1) - 1 && (Pow256(w) - 1) % 256 == 0xFF;
      assert seq(w, _ => 0xFF) == seq(w - 1, _ => 0xFF) + [0xFF];
    }
  }

  lemma UpperIsLastKey(who: Bytes)
    ensures Upper(who) == KeyBytes(RowKey(who, Pow256(8) - 1))
  {
    LastCounter(8);
  }

  /** A NUL-terminated prefix picks out one name only. */
  lemma {:induction false} PrefixIsolates(who: Bytes, peer: Bytes, tail: Bytes)
    requires 0 !in who && 0 !in peer
    ensures Prefix(who) <= Prefix(peer) + tail <==> who == peer
  {
    if who == peer {
    } else if who == [] || peer == [] || who[0] != peer[0] {
      assert Prefix(who)[0] != (Prefix(peer) + tail)[0];
    } else {
      PrefixIsolates(who[1..], peer[1..], tail);
      assert Prefix(who)[1..] == Prefix(who[1..]);
      assert (Prefix(peer) + tail)[1..] == Prefix(peer[1..]) + tail;
      assert who == [who[0]] + who[1..] && peer == [peer[0]] + peer[1..];
      assert Prefix(who) <= Prefix(peer) + tail <==> Prefix(who)[1..] <= (Prefix(peer) + tail)[1..];
    }
  }

  /** Within one name, byte order is sequence order. */
  lemma SameNameOrder(a: RowKey, b: RowKey)
    requires a.peer == b.peer && a.num < Pow256(8) && b.num < Pow256(8)
    ensures Less(KeyBytes(a), KeyBytes(b)) <==> a.num < b.num
  {
    LessAfterPrefix(Prefix(a.peer), BigEndian(a.num, 8), BigEndian(b.num, 8));
    BigEndianOrder(a.num, b.num, 8);
  }

  /** Different rows have different keys on disk. */
  lemma KeyBytesInjective(a: RowKey, b: RowKey)
    requires Regular(a) && Regular(b) && KeyBytes(a) == KeyBytes(b)
    ensures a == b
  {
    PrefixIsolates(a.peer, b.peer, BigEndian(b.num, 8));
    SameNameOrder(a, b);
    SameNameOrder(b, a);
    LessIrreflexive(KeyBytes(a));
  }

  // ---- the keys of one name ----

  /** The keys held under a name and numbered at most n, in sequence order. */
  function KeysUpTo(keys: set<RowKey>, who: Bytes, n: nat): seq<RowKey> {
    if n == 0 then [] else
      KeysUpTo(keys, who, n - 1) + if RowKey(who, n) in keys then [RowKey(who, n)] else []
  }

  function KeyNum(k: RowKey): int {
    k.num
  }

  predicate Every<T>(x: T) {
    true
  }

  /** The rows held under a name that satisfy p and are numbered at most n, oldest first. */
  function Select<T>(rows: map<RowKey, T>, who: Bytes, p: T -> bool, n: nat): seq<T> {
    if n == 0 then [] else
      var k := RowKey(who, n);
      Select(rows, who, p, n - 1) + if k in rows && p(rows[k]) then [rows[k]] else []
  }

  /** Row number i of the name is m. */
  ghost predicate IsRow<T(!new)>(rows: map<RowKey, T>, who: Bytes, i: nat, m: T) {
    RowKey(who, i) in rows && rows[RowKey(who, i)] == m
  }

  lemma {:induction false} SelectHolds<T(!new)>(rows: map<RowKey, T>, who: Bytes, p: T -> bool, n: nat, m: T)
    ensures m in Select(rows, who, p, n) <==> p(m) && exists i: nat :: 1 <= i <= n && IsRow(rows, who, i, m)
  {
    if n > 0 {
      SelectHolds(rows, who, p, n - 1, m);
      assert m in Select(rows, who, p, n) <==> m in Select(rows, who, p, n - 1) || (p(m) && IsRow(rows, who, n, m));
    }
  }

  /** A selection rises with whatever number the keys carry. */
  lemma {:induction false} SelectRises<T(!new)>(rows: map<RowKey, T>, who: Bytes, p: T -> bool, n: nat, num: T -> int)
    requires forall k :: k in rows && k.peer == who ==> num(rows[k]) == k.num
    ensures Increasing(Select(rows, who, p, n), num)
    ensures forall i :: 0 <= i < |Select(rows, who, p, n)| ==> num(Select(rows, who, p, n)[i]) <= n
  {
    if n > 0 {
      SelectRises(rows, who, p, n - 1, num);
    }
  }

  /** The key walk and the row selection are the same walk. */
  lemma {:induction false} SelectKeys<T>(rows: map<RowKey, T>, who: Bytes, n: nat)
    ensures var ks, all := KeysUpTo(rows.Keys, who, n), Select(rows, who, Every, n);
      |all| == |ks| && forall i :: 0 <= i < |ks| ==> ks[i] in rows && all[i] == rows[ks[i]]
  {
    if n > 0 {
      SelectKeys(rows, who, n - 1);
    }
  }

  lemma {:induction false} KeysUpToMeans(keys: set<RowKey>, who: Bytes, n: nat)
    ensures Increasing(KeysUpTo(keys, who, n), KeyNum)
    ensures forall k :: k in KeysUpTo(keys, who, n) <==> k in keys && k.peer == who && 1 <= k.num <= n
  {
    if n > 0 {
      KeysUpToMeans(keys, who, n - 1);
      var s, k := KeysUpTo(keys, who, n - 1), RowKey(who, n);
      assert forall i :: 0 <= i < |s| ==> s[i] in s;
      forall x ensures x in KeysUpTo(keys, who, n) <==> x in keys && x.peer == who && 1 <= x.num <= n {
        assert x in KeysUpTo(keys, who, n) <==> x in s || (k in keys && x == k);
      }
    }
  }

  lemma HeadIsLeast(s: seq<RowKey>, k: RowKey)
    requires Increasing(s, KeyNum) && k in s
    ensures s[0].num <= k.num
  {
    var i :| 0 <= i < |s| && s[i] == k;
    assert i > 0 ==> KeyNum(s[0]) < KeyNum(s[i]);
  }

  lemma TailRises(s: seq<RowKey>)
    requires Increasing(s, KeyNum) && s != []
    ensures Increasing(s[1..], KeyNum)
  {
  }

  /** A list of keys that misses only smaller members of another is its tail. */
  lemma {:induction false} TailUnique(s: seq<RowKey>, all: seq<RowKey>)
    requires Increasing(s, KeyNum) && Increasing(all, KeyNum) && s != []
    requires forall k :: k in s ==> k in all
    requires forall k :: k in all ==> k in s || k.num < s[0].num
    ensures |s| <= |all| && s == all[|all| - |s|..]
  {
    assert s[0] in s && s[0] in all;
    var rest := all[1..];
    assert all == [all[0]] + rest;
    if all[0] in s {
      HeadIsLeast(s, all[0]);
      forall k | k in all ensures k in s {
        HeadIsLeast(all, k);
      }
      IncreasingUnique(s, all, KeyNum);
    } else {
      TailRises(all);
      TailUnique(s, rest);
      assert rest[|rest| - |s|..] == all[|all| - |s|..];
    }
  }
}
