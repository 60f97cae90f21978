/**
  Trust on first use. The store keeps one record per folded name and updates it
  event by event; the same answers can be read off the history directly.
 */
module Peers {
  import opened OptionType
  import opened ByteOrder
  import opened Names
  import opened MessageDb
  import opened MessageStore

  type Key = Bytes

  /** fp is the fingerprint shown to the user; pending is another key that claimed the name. */
  datatype Peer = Peer(
    name: Name, key: Key, fp: Bytes, firstSeen: int, lastSeen: int,
    verified: bool, pending: Option<Key>, pendingAt: int)

  type Table = map<Bytes, Peer>

  type Fingerprint = Key -> Bytes

  datatype Event =
    | Observe(name: Name, key: Key, now: int)
    | SetVerified(name: Name, v: bool)
    | AcceptPending(name: Name)
    | Forget(name: Name)

  /** An authenticated handshake: pin an unknown name, refresh a matching key, flag any other; never replace. */
  function Observed(t: Table, name: Name, key: Key, now: int, f: Fingerprint): (Table, bool) {
    var w := PeerKey(name);
    if w !in t then (t[w := Peer(name, key, f(key), now, now, false, None, 0)], true)
    else if t[w].key == key then (t[w := t[w].(lastSeen := now, pending := None, pendingAt := 0)], true)
    else (t[w := t[w].(pending := Some(key), pendingAt := now)], false)
  }

  function Step(t: Table, e: Event, f: Fingerprint): Table {
    var w := PeerKey(e.name);
    match e
    case Observe(name, key, now) => Observed(t, name, key, now, f).0
    case SetVerified(_, v) => if w in t then t[w := t[w].(verified := v)] else t
    case AcceptPending(_) =>
      if w in t && t[w].pending.Some? then
        var key := t[w].pending.value;
        t[w := t[w].(key := key, fp := f(key), pending := None, pendingAt := 0, verified := false)]
      else t
    case Forget(_) => t - {w}
  }

  function Run(h: seq<Event>, f: Fingerprint): Table {
    if h == [] then map[] else Step(Run(h[..|h| - 1], f), h[|h| - 1], f)
  }

  // ---- the history of one name, and what it says ----

  /** The events about a name since it was last forgotten. */
  function Story(h: seq<Event>, w: Bytes): seq<Event> {
    if h == [] then [] else
      var s, e := Story(h[..|h| - 1], w), h[|h| - 1];
      if PeerKey(e.name) != w then s else if e.Forget? then [] else s + [e]
  }

  function FirstKey(s: seq<Event>): Option<Key> {
    if s == [] then None
    else if FirstKey(s[..|s| - 1]).Some? then FirstKey(s[..|s| - 1])
    else if s[|s| - 1].Observe? then Some(s[|s| - 1].key) else None
  }

  function LastKey(s: seq<Event>): Option<Key> {
    if s == [] then None
    else if s[|s| - 1].Observe? then Some(s[|s| - 1].key)
    else LastKey(s[..|s| - 1])
  }

  /** Length of the story up to and including its last accept, not counting accepts before any key was seen. */
  function LastAccept(s: seq<Event>): (n: nat)
    ensures n <= |s|
  {
    if s == [] then 0
    else if s[|s| - 1].AcceptPending? && FirstKey(s[..|s| - 1]).Some? then |s|
    else LastAccept(s[..|s| - 1])
  }

  /** The pinned key: the first key seen, or the key last seen when the user last accepted one. */
  function Pin(s: seq<Event>): Option<Key> {
    if LastAccept(s) > 0 then LastKey(s[..LastAccept(s)]) else FirstKey(s)
  }

  /** Length of the story up to and including the last verification call on a known name. */
  function LastVerify(s: seq<Event>): (n: nat)
    ensures n <= |s|
    ensures n > 0 ==> s[n - 1].SetVerified?
  {
    if s == [] then 0
    else if s[|s| - 1].SetVerified? && FirstKey(s[..|s| - 1]).Some? then |s|
    else LastVerify(s[..|s| - 1])
  }

  /** The accept at position n of the story replaced the pin. */
  ghost predicate Replaces(s: seq<Event>, n: nat) {
    0 < n <= |s| && s[n - 1].AcceptPending? && LastKey(s[..n - 1]) != Pin(s[..n - 1])
  }

  /** The last verification said yes, and no accept has replaced the pin since. */
  ghost predicate Vouched(s: seq<Event>) {
    var n := LastVerify(s);
    n > 0 && s[n - 1].v && forall m :: n < m <= |s| ==> !Replaces(s, m)
  }

  // ---- the record always says what the history says ----

  ghost predicate Faithful(t: Table, w: Bytes, s: seq<Event>, f: Fingerprint) {
    && (w in t <==> FirstKey(s).Some?)
    && (FirstKey(s).Some? <==> LastKey(s).Some?)
    && (w in t ==>
        && Pin(s) == Some(t[w].key)
        && t[w].fp == f(t[w].key)
        && t[w].pending == (if LastKey(s) == Pin(s) then None else LastKey(s))
        && (t[w].verified <==> Vouched(s)))
  }

  lemma PrefixOfSnoc(s: seq<Event>, e: Event, n: nat)
    requires n <= |s|
    ensures (s + [e])[..n] == s[..n]
  {
  }

  lemma VouchedSnoc(s: seq<Event>, e: Event)
    ensures e.SetVerified? && FirstKey(s).Some? ==> (Vouched(s + [e]) <==> e.v)
    ensures !(e.SetVerified? && FirstKey(s).Some?) ==>
      (Vouched(s + [e]) <==> Vouched(s) && !(e.AcceptPending? && LastKey(s) != Pin(s)))
  {
    var t := s + [e];
    PrefixOfSnoc(s, e, |s|);
    assert t[..|s|] == s;
    forall m | 0 < m <= |s| ensures Replaces(t, m) <==> Replaces(s, m) {
      PrefixOfSnoc(s, e, m - 1);
    }
    assert Replaces(t, |t|) <==> e.AcceptPending? && LastKey(s) != Pin(s);
    if !(e.SetVerified? && FirstKey(s).Some?) {
      assert LastVerify(t) == LastVerify(s);
    }
  }

  lemma PinSnoc(s: seq<Event>, e: Event)
    ensures FirstKey(s + [e]) == if FirstKey(s).Some? then FirstKey(s) else if e.Observe? then Some(e.key) else None
    ensures LastKey(s + [e]) == if e.Observe? then Some(e.key) else LastKey(s)
    ensures Pin(s + [e]) ==
      if e.AcceptPending? && FirstKey(s).Some? then LastKey(s)
      else if LastAccept(s) > 0 then Pin(s) else FirstKey(s + [e])
  {
    var t := s + [e];
    assert t[..|t| - 1] == s;
    if e.AcceptPending? && FirstKey(s).Some? {
      assert t[..|t|] == t;
    } else {
      PrefixOfSnoc(s, e, LastAccept(s));
    }
  }

  lemma {:induction false} AcceptedHasKey(s: seq<Event>)
    ensures LastAccept(s) > 0 ==> FirstKey(s).Some?
  {
    if s != [] {
      AcceptedHasKey(s[..|s| - 1]);
    }
  }

  lemma StepFaithful(t: Table, s: seq<Event>, e: Event, f: Fingerprint)
    requires Faithful(t, PeerKey(e.name), s, f) && !e.Forget?
    ensures Faithful(Step(t, e, f), PeerKey(e.name), s + [e], f)
  {
    PinSnoc(s, e);
    VouchedSnoc(s, e);
    AcceptedHasKey(s);
    AcceptedHasKey(s + [e]);
    UnknownIsUnvouched(s);
  }

  lemma {:induction false} UnknownIsUnvouched(s: seq<Event>)
    ensures FirstKey(s).None? ==> LastVerify(s) == 0 && LastAccept(s) == 0
  {
    if s != [] {
      UnknownIsUnvouched(s[..|s| - 1]);
    }
  }

  /** Over any history of handshakes, verifications, accepts and forgets, for every name. */
  lemma {:induction false} PinFollowsHistory(h: seq<Event>, w: Bytes, f: Fingerprint)
    ensures Faithful(Run(h, f), w, Story(h, w), f)
  {
    if h != [] {
      var before, e := h[..|h| - 1], h[|h| - 1];
      PinFollowsHistory(before, w, f);
      if PeerKey(e.name) == w && !e.Forget? {
        StepFaithful(Run(before, f), Story(before, w), e, f);
      }
    }
  }

  // ---- and so do its name and its dates ----

  /** The first handshake of the story. */
  function FirstSight(s: seq<Event>): (r: Option<Event>)
    ensures r.Some? ==> r.value.Observe?
  {
    if s == [] then None
    else if FirstSight(s[..|s| - 1]).Some? then FirstSight(s[..|s| - 1])
    else if s[|s| - 1].Observe? then Some(s[|s| - 1]) else None
  }

  /** The latest handshake. */
  function LastSight(s: seq<Event>): (r: Option<Event>)
    ensures r.Some? ==> r.value.Observe?
  {
    if s == [] then None else if s[|s| - 1].Observe? then Some(s[|s| - 1]) else LastSight(s[..|s| - 1])
  }

  /** The latest handshake with the key that was pinned at the time. */
  function LastMatch(s: seq<Event>): (r: Option<Event>)
    ensures r.Some? ==> r.value.Observe?
  {
    if s == [] then None else
      var init, e := s[..|s| - 1], s[|s| - 1];
      if e.Observe? && (Pin(init).None? || Pin(init) == Some(e.key)) then Some(e) else LastMatch(init)
  }

  ghost predicate Dated(t: Table, w: Bytes, s: seq<Event>) {
    w in t ==>
      && FirstSight(s).Some? && LastSight(s).Some? && LastMatch(s).Some?
      && t[w].name == FirstSight(s).value.name && t[w].firstSeen == FirstSight(s).value.now
      && t[w].lastSeen == LastMatch(s).value.now
      && t[w].pendingAt == if t[w].pending.Some? then LastSight(s).value.now else 0
  }

  lemma {:induction false} SightKey(s: seq<Event>)
    ensures FirstKey(s).Some? <==> FirstSight(s).Some?
  {
    if s != [] {
      SightKey(s[..|s| - 1]);
    }
  }

  lemma StepDated(t: Table, s: seq<Event>, e: Event, f: Fingerprint)
    requires Faithful(t, PeerKey(e.name), s, f) && Dated(t, PeerKey(e.name), s) && !e.Forget?
    ensures Dated(Step(t, e, f), PeerKey(e.name), s + [e])
  {
    assert (s + [e])[..|s|] == s;
    UnknownIsUnvouched(s);
    SightKey(s);
  }

  /**
    Over any history: the name and the first date are those of the first handshake,
    the last date is that of the latest one with the pinned key, and a pending key
    carries the date of the handshake that brought it.
   */
  lemma {:induction false} DatesFollowHistory(h: seq<Event>, w: Bytes, f: Fingerprint)
    ensures Dated(Run(h, f), w, Story(h, w))
  {
    if h != [] {
      var before, e := h[..|h| - 1], h[|h| - 1];
      DatesFollowHistory(before, w, f);
      PinFollowsHistory(before, w, f);
      if PeerKey(e.name) == w && !e.Forget? {
        StepDated(Run(before, f), Story(before, w), e, f);
      }
    }
  }

  /** The pin does not move while no accept replaces it. */
  lemma {:induction false} PinStays(s: seq<Event>, n: nat)
    requires n <= |s| && FirstKey(s[..n]).Some? && (forall m :: n < m <= |s| ==> !Replaces(s, m))
    ensures Pin(s) == Pin(s[..n])
  {
    if n == |s| {
      assert s[..n] == s;
    } else {
      var init, e := s[..|s| - 1], s[|s| - 1];
      assert s == init + [e] && init[..n] == s[..n];
      forall m | n < m <= |init| ensures !Replaces(init, m) {
        assert init[..m - 1] == s[..m - 1];
        assert !Replaces(s, m);
      }
      PinStays(init, n);
      PinSnoc(init, e);
      KeyStays(init, n);
      assert !Replaces(s, |s|);
    }
  }

  lemma {:induction false} KeyStays(s: seq<Event>, n: nat)
    requires n <= |s| && FirstKey(s[..n]).Some?
    ensures FirstKey(s) == FirstKey(s[..n])
  {
    if n == |s| {
      assert s[..n] == s;
    } else {
      assert s[..|s| - 1][..n] == s[..n];
      KeyStays(s[..|s| - 1], n);
    }
  }

  lemma {:induction false} VerifyKnewKey(s: seq<Event>)
    requires LastVerify(s) > 0
    ensures FirstKey(s[..LastVerify(s)]).Some? && FirstKey(s).Some?
  {
    if s[|s| - 1].SetVerified? && FirstKey(s[..|s| - 1]).Some? {
      assert s[..|s|] == s;
    } else {
      VerifyKnewKey(s[..|s| - 1]);
      assert s[..|s| - 1][..LastVerify(s)] == s[..LastVerify(s)];
    }
  }

  /** A record is marked verified only if the user's last verification said yes to the very key that is pinned now. */
  lemma {:induction false} VerifiedIsAboutThisKey(h: seq<Event>, w: Bytes, f: Fingerprint)
    requires w in Run(h, f) && Run(h, f)[w].verified
    ensures var s := Story(h, w);
      var n := LastVerify(s);
      n > 0 && s[n - 1].v && Pin(s[..n]) == Some(Run(h, f)[w].key)
  {
    PinFollowsHistory(h, w, f);
    var s := Story(h, w);
    VerifyKnewKey(s);
    PinStays(s, LastVerify(s));
  }

  class Pins {
    var table: Table
    const fingerprint: Fingerprint
    const messages: Store

    constructor (f: Fingerprint, s: Store)
      ensures table == map[] && fingerprint == f && messages == s
    {
      table, fingerprint, messages := map[], f, s;
    }

    /** Whether the presented key is the pinned one afterwards. */
    method Handshake(name: Name, key: Key, now: int) returns (ok: bool)
      modifies this
      ensures (table, ok) == Observed(old(table), name, key, now, fingerprint)
      ensures ok <==> table[PeerKey(name)].key == key
      ensures PeerKey(name) in old(table) ==> table[PeerKey(name)].key == old(table)[PeerKey(name)].key
    {
      var w := PeerKey(name);
      if w !in table {
        table := table[w := Peer(name, key, fingerprint(key), now, now, false, None, 0)];
        return true;
      }
      var p := table[w];
      if p.key == key {
        p := p.(lastSeen := now, pending := None, pendingAt := 0);
        ok := true;
      } else {
        p := p.(pending := Some(key), pendingAt := now);
        ok := false;
      }
      table := table[w := p];
    }

    method AcceptPendingKey(name: Name) returns (ok: bool)
      modifies this
      ensures table == Step(old(table), AcceptPending(name), fingerprint)
      ensures ok <==> PeerKey(name) in old(table) && old(table)[PeerKey(name)].pending.Some?
    {
      var w := PeerKey(name);
      if w !in table || table[w].pending.None? {
        return false;
      }
      var key := table[w].pending.value;
      var p := table[w].(key := key, fp := fingerprint(key), pending := None, pendingAt := 0, verified := false);
      table := table[w := p];
      ok := true;
    }

    method MarkVerified(name: Name, v: bool) returns (ok: bool)
      modifies this
      ensures table == Step(old(table), SetVerified(name, v), fingerprint) && (ok <==> PeerKey(name) in old(table))
    {
      var w := PeerKey(name);
      if w !in table {
        return false;
      }
      table := table[w := table[w].(verified := v)];
      ok := true;
    }

    /** Deletes the pin and every message with that peer. */
    method ForgetPeer(name: Name) returns (ok: bool)
      requires messages.Valid()
      modifies this, messages
      ensures table == Step(old(table), Forget(name), fingerprint) && (ok <==> PeerKey(name) in old(table))
      ensures messages.Valid()
      ensures !ok ==> messages.State() == old(messages.State())
      ensures ok ==> forall id :: Known(messages.State(), id) <==>
        Known(old(messages.State()), id) && !EqualFold(Lookup(old(messages.State()), id).peer, name)
      ensures forall id :: Known(messages.State(), id) ==>
        Lookup(messages.State(), id) == Lookup(old(messages.State()), id)
    {
      AboutKeeps(messages.State(), name);
      ok := PeerKey(name) in table;
      if ok {
        var _ := messages.DeleteMessages(About(name));
        table := table - {PeerKey(name)};
      }
    }
  }
}
