/**
  The backward cursor walk behind Messages and RoomMessages: seek past the last
  possible key of a name, step back while the prefix matches, reverse.
 */
module Cursor {
  import opened ByteOrder
  import opened Keys
  import opened Sorting

  predicate KeyLess(a: RowKey, b: RowKey) {
    Less(KeyBytes(a), KeyBytes(b))
  }

  lemma KeyLessIsOrder()
    ensures Order(KeyLess)
  {
    forall a, b | KeyLess(a, b) ensures !KeyLess(b, a) {
      LessAsymmetric(KeyBytes(a), KeyBytes(b));
    }
    forall a, b, c | !KeyLess(b, a) && !KeyLess(c, b) ensures !KeyLess(c, a) {
      NotLessTransitive(KeyBytes(a), KeyBytes(b), KeyBytes(c));
    }
  }

  /** ks lists the keys of a bucket in byte order. */
  ghost predicate InByteOrder(ks: seq<RowKey>, keys: set<RowKey>) {
    && (forall k :: k in ks <==> k in keys)
    && (forall i, j :: 0 <= i < j < |ks| ==> KeyLess(ks[i], ks[j]))
  }

  lemma NoRepeats(ks: seq<RowKey>, keys: set<RowKey>)
    requires multiset(ks) == multiset(keys)
    ensures forall k :: k in ks <==> k in keys
    ensures forall i, j :: 0 <= i < j < |ks| ==> ks[i] != ks[j]
  {
    forall k ensures k in ks <==> k in keys {
      assert k in multiset(ks) <==> k in multiset(keys);
    }
    forall i, j | 0 <= i < j < |ks| ensures ks[i] != ks[j] {
      var a, b := ks[..j], ks[j..];
      assert ks == a + b;
      assert ks[i] in a && ks[j] in b;
      assert multiset(ks)[ks[j]] == multiset(a)[ks[j]] + multiset(b)[ks[j]];
      assert multiset(keys)[ks[j]] <= 1;
      assert multiset(b)[ks[j]] >= 1;
    }
  }

  method ListKeys(keys: set<RowKey>) returns (s: seq<RowKey>)
    ensures multiset(s) == multiset(keys)
  {
    var rest := keys;
    s := [];
    while rest != {}
      invariant rest <= keys && multiset(s) == multiset(keys - rest)
    {
      var k :| k in rest;
      assert keys - (rest - {k}) == (keys - rest) + {k};
      s, rest := s + [k], rest - {k};
    }
    assert keys - rest == keys;
  }

  lemma StrictlyOrdered(ks: seq<RowKey>, keys: set<RowKey>)
    requires multiset(ks) == multiset(keys) && Sorted(ks, KeyLess) && (forall k :: k in keys ==> Regular(k))
    ensures InByteOrder(ks, keys)
  {
    NoRepeats(ks, keys);
    forall i, j | 0 <= i < j < |ks| ensures KeyLess(ks[i], ks[j]) {
      assert ks[i] in ks && ks[j] in ks;
      LessTotal(KeyBytes(ks[i]), KeyBytes(ks[j]));
      if KeyBytes(ks[i]) == KeyBytes(ks[j]) {
        KeyBytesInjective(ks[i], ks[j]);
      }
    }
  }

  /** The order a bucket yields its keys in. */
  method BucketKeys(keys: set<RowKey>) returns (ks: seq<RowKey>)
    requires forall k :: k in keys ==> Regular(k)
    ensures InByteOrder(ks, keys)
  {
    var s := ListKeys(keys);
    var a := new RowKey[|s|](i requires 0 <= i < |s| => s[i]);
    assert a[..] == s;
    KeyLessIsOrder();
    InsertionSort(a, KeyLess);
    ks := a[..];
    StrictlyOrdered(ks, keys);
  }

  /** Position of the first key that is not before the target. */
  method Seek(ks: seq<RowKey>, target: Bytes) returns (i: nat)
    ensures i <= |ks|
    ensures forall p :: 0 <= p < i ==> Less(KeyBytes(ks[p]), target)
    ensures i < |ks| ==> !Less(KeyBytes(ks[i]), target)
  {
    i := 0;
    while i < |ks| && Less(KeyBytes(ks[i]), target)
      invariant i <= |ks|
      invariant forall p :: 0 <= p < i ==> Less(KeyBytes(ks[p]), target)
    {
      i := i + 1;
    }
  }

  function LastOf<T>(s: seq<T>, n: nat): seq<T> {
    if |s| <= n then s else s[|s| - n..]
  }

  /** The keys of one name all lie before its upper bound. */
  lemma BelowUpper(k: RowKey)
    requires Regular(k)
    ensures Less(KeyBytes(k), Upper(k.peer))
  {
    UpperIsLastKey(k.peer);
    SameNameOrder(k, RowKey(k.peer, Pow256(8) - 1));
  }

  lemma HasPrefix(k: RowKey, who: Bytes)
    requires Regular(k) && 0 !in who
    ensures Prefix(who) <= KeyBytes(k) <==> k.peer == who
  {
    PrefixIsolates(who, k.peer, BigEndian(k.num, 8));
  }

  /** A walk that stopped at a foreign key has passed every key of the name. */
  lemma NothingBehind(ks: seq<RowKey>, keys: set<RowKey>, who: Bytes, i: nat, pos: nat, p: nat)
    requires InByteOrder(ks, keys) && (forall k :: k in keys ==> Regular(k)) && 0 !in who
    requires p < i <= pos <= |ks| && ks[i - 1].peer != who
    requires forall q :: 0 <= q < pos ==> Less(KeyBytes(ks[q]), Upper(who))
    ensures ks[p].peer != who
  {
    assert ks[p] in ks && ks[i - 1] in ks;
    if ks[p].peer == who && p < i - 1 {
      HasPrefix(ks[p], who);
      PrefixBlock(Prefix(who), KeyBytes(ks[p]), KeyBytes(ks[i - 1]), Upper(who));
      HasPrefix(ks[i - 1], who);
    }
  }

  /** ks[i..pos] was walked back from the last key before the upper bound of the name. */
  ghost predicate Walked(ks: seq<RowKey>, keys: set<RowKey>, who: Bytes, i: nat, pos: nat) {
    && InByteOrder(ks, keys) && (forall k :: k in keys ==> Regular(k)) && 0 !in who
    && i <= pos <= |ks|
    && (forall p :: 0 <= p < pos ==> Less(KeyBytes(ks[p]), Upper(who)))
    && (pos < |ks| ==> !Less(KeyBytes(ks[pos]), Upper(who)))
    && (forall p :: i <= p < pos ==> ks[p].peer == who)
  }

  lemma WalkOrdered(ks: seq<RowKey>, keys: set<RowKey>, who: Bytes, i: nat, pos: nat)
    requires Walked(ks, keys, who, i, pos)
    ensures Increasing(ks[i..pos], KeyNum)
    ensures forall k :: k in ks[i..pos] ==> k in keys && k.peer == who
  {
    forall p, q | i <= p < q < pos ensures ks[p].num < ks[q].num {
      assert ks[p] in ks && ks[q] in ks;
      SameNameOrder(ks[p], ks[q]);
    }
    forall k | k in ks[i..pos] ensures k in keys && k.peer == who {
      assert k in ks;
    }
  }

  /** A key of the name that was not walked over precedes all that were. */
  lemma WalkMisses(ks: seq<RowKey>, keys: set<RowKey>, who: Bytes, i: nat, pos: nat, k: RowKey)
    requires Walked(ks, keys, who, i, pos) && k in keys && k.peer == who
    ensures k in ks[i..pos] || (i < pos ==> k.num < ks[i].num)
    ensures k in ks[i..pos] || (i > 0 && ks[i - 1].peer == who)
  {
    FoundBefore(ks, keys, who, pos, k);
    var p :| 0 <= p < pos && ks[p] == k;
    if p < i {
      if i < pos {
        assert ks[i] in ks;
        SameNameOrder(k, ks[i]);
      }
      if ks[i - 1].peer != who {
        NothingBehind(ks, keys, who, i, pos, p);
      }
    } else {
      assert ks[i..pos][p - i] == k;
    }
  }

  /** What was walked over is the end of the name's keys. */
  lemma WalkIsTail(ks: seq<RowKey>, keys: set<RowKey>, who: Bytes, n: nat, i: nat, pos: nat)
    requires Walked(ks, keys, who, i, pos) && (forall k :: k in keys ==> 1 <= k.num <= n)
    ensures var all := KeysUpTo(keys, who, n);
      pos - i <= |all| && ks[i..pos] == all[|all| - (pos - i)..]
  {
    var all, s := KeysUpTo(keys, who, n), ks[i..pos];
    KeysUpToMeans(keys, who, n);
    WalkOrdered(ks, keys, who, i, pos);
    if s != [] {
      forall k | k in all ensures k in s || k.num < s[0].num {
        WalkMisses(ks, keys, who, i, pos, k);
      }
      TailUnique(s, all);
    }
  }

  /** A walk that ran into a foreign key, or off the bucket, has seen them all. */
  lemma WalkIsAll(ks: seq<RowKey>, keys: set<RowKey>, who: Bytes, n: nat, i: nat, pos: nat)
    requires Walked(ks, keys, who, i, pos) && (forall k :: k in keys ==> 1 <= k.num <= n)
    requires i == 0 || ks[i - 1].peer != who
    ensures ks[i..pos] == KeysUpTo(keys, who, n)
  {
    var all, s := KeysUpTo(keys, who, n), ks[i..pos];
    KeysUpToMeans(keys, who, n);
    WalkOrdered(ks, keys, who, i, pos);
    forall k | k in all ensures k in s {
      WalkMisses(ks, keys, who, i, pos, k);
    }
    IncreasingUnique(s, all, KeyNum);
  }

  lemma FoundBefore(ks: seq<RowKey>, keys: set<RowKey>, who: Bytes, pos: nat, k: RowKey)
    requires InByteOrder(ks, keys) && k in keys && k.peer == who && Regular(k)
    requires pos <= |ks| && (pos < |ks| ==> !Less(KeyBytes(ks[pos]), Upper(who)))
    ensures exists p :: 0 <= p < pos && ks[p] == k
  {
    BelowUpper(k);
    var p :| 0 <= p < |ks| && ks[p] == k;
    if pos < p {
      LessTransitive(KeyBytes(ks[pos]), KeyBytes(k), Upper(who));
    }
  }

  /** Step back from pos while the prefix matches; newest first. */
  method WalkBack(ks: seq<RowKey>, pos: nat, who: Bytes, limit: nat) returns (newest: seq<RowKey>, ghost i: nat)
    requires pos <= |ks| && (forall p :: 0 <= p < |ks| ==> Regular(ks[p])) && 0 !in who
    ensures i <= pos && newest == Reversed(ks[i..pos])
    ensures forall p :: i <= p < pos ==> ks[p].peer == who
    ensures |newest| == limit || (|newest| < limit && (i == 0 || ks[i - 1].peer != who))
  {
    var j := pos;
    newest := [];
    while j > 0 && Prefix(who) <= KeyBytes(ks[j - 1]) && |newest| < limit
      invariant 0 <= j <= pos && |newest| == pos - j <= limit
      invariant forall p :: 0 <= p < |newest| ==> newest[p] == ks[pos - 1 - p]
      invariant forall p :: j <= p < pos ==> ks[p].peer == who
    {
      HasPrefix(ks[j - 1], who);
      j := j - 1;
      newest := newest + [ks[j]];
    }
    i := j;
    if j > 0 {
      HasPrefix(ks[j - 1], who);
    }
  }

  method OldestFirst(newest: seq<RowKey>) returns (out: seq<RowKey>)
    ensures out == Reversed(newest)
  {
    var a := new RowKey[|newest|](p requires 0 <= p < |newest| => newest[p]);
    assert a[..] == newest;
    ReverseInPlace(a);
    out := a[..];
  }

  lemma WalkIsRecent(ks: seq<RowKey>, keys: set<RowKey>, who: Bytes, n: nat, i: nat, pos: nat, limit: nat)
    requires Walked(ks, keys, who, i, pos) && (forall k :: k in keys ==> 1 <= k.num <= n)
    requires pos - i == limit || (pos - i < limit && (i == 0 || ks[i - 1].peer != who))
    ensures ks[i..pos] == LastOf(KeysUpTo(keys, who, n), limit)
  {
    WalkIsTail(ks, keys, who, n, i, pos);
    if i == 0 || ks[i - 1].peer != who {
      WalkIsAll(ks, keys, who, n, i, pos);
    }
  }

  /** The last limit keys of the name, oldest first. */
  method Recent(ks: seq<RowKey>, ghost keys: set<RowKey>, who: Bytes, limit: nat, ghost n: nat)
    returns (out: seq<RowKey>)
    requires InByteOrder(ks, keys) && (forall k :: k in keys ==> Regular(k) && 1 <= k.num <= n) && 0 !in who
    ensures out == LastOf(KeysUpTo(keys, who, n), limit)
  {
    assert forall p :: 0 <= p < |ks| ==> ks[p] in ks;
    var pos := Seek(ks, Upper(who));
    ghost var i;
    var newest;
    newest, i := WalkBack(ks, pos, who, limit);
    out := OldestFirst(newest);
    assert out == ks[i..pos];
    WalkIsRecent(ks, keys, who, n, i, pos, limit);
  }

  function Least(a: nat, b: nat): nat {
    if a <= b then a else b
  }

  /** out is the end of the list. */
  ghost predicate IsEnd<T>(out: seq<T>, all: seq<T>) {
    |out| <= |all| && out == all[|all| - |out|..]
  }

  /** limit as the source clamps it. */
  function Clamp(limit: int): nat {
    if limit <= 0 || limit > 1000 then 200 else limit
  }

  lemma ClampedEnd<T>(all: seq<T>, limit: int)
    ensures var out := LastOf(all, Clamp(limit));
      IsEnd(out, all) && |out| == if 1 <= limit <= 1000 then Least(limit, |all|) else Least(200, |all|)
  {
  }

  lemma RecentRows<T>(rows: map<RowKey, T>, who: Bytes, recent: seq<RowKey>, n: nat, last: nat)
    requires recent == LastOf(KeysUpTo(rows.Keys, who, last), n)
    ensures forall i :: 0 <= i < |recent| ==> recent[i] in rows
    ensures var all := LastOf(Select(rows, who, Every, last), n);
      |all| == |recent| && forall i :: 0 <= i < |recent| ==> all[i] == rows[recent[i]]
  {
    SelectKeys(rows, who, last);
  }

  method RowsAt<T>(rows: map<RowKey, T>, ks: seq<RowKey>) returns (out: seq<T>)
    requires forall i :: 0 <= i < |ks| ==> ks[i] in rows
    ensures |out| == |ks| && forall i :: 0 <= i < |ks| ==> out[i] == rows[ks[i]]
  {
    out := [];
    for i := 0 to |ks|
      invariant |out| == i && forall j :: 0 <= j < i ==> out[j] == rows[ks[j]]
    {
      out := out + [rows[ks[i]]];
    }
  }
}
