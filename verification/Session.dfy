/**
  The encrypted session. Nonces are never sent: both sides count. The cipher is
  ideal: a ciphertext opens under one key and one nonce, and only the holder of
  the key can have made it. The network may drop, repeat, reorder and alter.
 */
module Session {
  import opened OptionType
  import opened ByteOrder

  /** What a frame carries: a ciphertext made under some key and nonce, or bytes nobody sealed. */
  datatype Cipher = Sealed(key: nat, nonce: nat, plain: Bytes) | Garbage(bytes: Bytes)

  /** The sending half: enc counts the nonces used. */
  datatype Sender = Sender(key: nat, enc: nat)

  /** The receiving half: dec is the nonce expected next; a failed read is fatal. */
  datatype Receiver = Receiver(key: nat, dec: nat, dead: bool)

  function Seal(s: Sender, plain: Bytes): (Sender, Cipher) {
    (s.(enc := s.enc + 1), Sealed(s.key, s.enc, plain))
  }

  predicate Opens(r: Receiver, c: Cipher) {
    c.Sealed? && c.key == r.key && c.nonce == r.dec
  }

  /** Recv: wrong key, wrong nonce, altered bytes or an envelope that does not decode end the session. */
  function Open(r: Receiver, c: Cipher, decodes: Bytes -> bool): (Receiver, Option<Bytes>) {
    if r.dead then (r, None)
    else if !Opens(r, c) then (r.(dead := true), None)
    else if !decodes(c.plain) then (r.(dec := r.dec + 1, dead := true), None)
    else (r.(dec := r.dec + 1), Some(c.plain))
  }

  /** One direction of a session with everything the network could have seen. */
  datatype Tunnel = Tunnel(s: Sender, r: Receiver, wire: set<Cipher>, sent: seq<Bytes>, got: seq<Bytes>)

  /**
    Pass hands an encoded envelope to Send; fits says whether its frame could be
    written. Arrive is any frame the network makes up.
   */
  datatype Event = Pass(plain: Bytes, fits: bool) | Arrive(c: Cipher)

  /** The network cannot seal under the session key; it can only repeat what it saw. */
  predicate Possible(t: Tunnel, e: Event) {
    e.Arrive? && e.c.Sealed? && e.c.key == t.s.key ==> e.c in t.wire
  }

  function Step(t: Tunnel, e: Event, decodes: Bytes -> bool): Tunnel {
    match e
    case Pass(plain, fits) =>
      var (s, c) := Seal(t.s, plain);
      t.(s := s, sent := t.sent + [plain], wire := if fits then t.wire + {c} else t.wire)
    case Arrive(c) =>
      var (r, out) := Open(t.r, c, decodes);
      t.(r := r, got := if out.Some? then t.got + [out.value] else t.got)
  }

  function Run(t: Tunnel, run: seq<Event>, decodes: Bytes -> bool): Tunnel
    decreases |run|
  {
    if run == [] then t else Step(Run(t, run[..|run| - 1], decodes), run[|run| - 1], decodes)
  }

  ghost predicate PossibleRun(t: Tunnel, run: seq<Event>, decodes: Bytes -> bool)
    decreases |run|
  {
    run == [] ||
    (PossibleRun(t, run[..|run| - 1], decodes) && Possible(Run(t, run[..|run| - 1], decodes), run[|run| - 1]))
  }

  function Fresh(key: nat): Tunnel {
    Tunnel(Sender(key, 0), Receiver(key, 0, false), {}, [], [])
  }

  /**
    Counters in lockstep: frame i on the wire seals message i, and the reader
    holds the messages below its own count.
   */
  ghost predicate Lockstep(t: Tunnel) {
    && t.s.key == t.r.key
    && t.s.enc == |t.sent|
    && (forall c :: c in t.wire ==> c.Sealed? && c.key == t.s.key && c.nonce < |t.sent| && c.plain == t.sent[c.nonce])
    && t.got <= t.sent
    && (!t.r.dead ==> t.r.dec == |t.got|)
  }

  lemma {:induction false} RunLockstep(key: nat, run: seq<Event>, decodes: Bytes -> bool)
    requires PossibleRun(Fresh(key), run, decodes)
    ensures Lockstep(Run(Fresh(key), run, decodes))
    decreases |run|
  {
    if run != [] {
      RunLockstep(key, run[..|run| - 1], decodes);
      var t := Run(Fresh(key), run[..|run| - 1], decodes);
      var t' := Step(t, run[|run| - 1], decodes);
      if run[|run| - 1].Arrive? && t'.got != t.got {
        assert t'.got == t.sent[..|t.got|] + [t.sent[|t.got|]] == t.sent[..|t.got| + 1];
      }
    }
  }

  /** Whatever the network does, what Recv returned is a prefix of what was passed to Send. */
  lemma ReceivedIsPrefixOfSent(key: nat, run: seq<Event>, decodes: Bytes -> bool)
    requires PossibleRun(Fresh(key), run, decodes)
    ensures Run(Fresh(key), run, decodes).got <= Run(Fresh(key), run, decodes).sent
  {
    RunLockstep(key, run, decodes);
  }

  /** A frame that was skipped can never be made up for: from then on nothing is received. */
  lemma GapIsFatal(t: Tunnel, e: Event, decodes: Bytes -> bool)
    requires Lockstep(t) && e.Arrive? && !t.r.dead
    requires !(e.c.Sealed? && e.c.key == t.r.key && e.c.nonce == |t.got|)
    ensures Step(t, e, decodes).r.dead && Step(t, e, decodes).got == t.got
  {
  }

  lemma {:induction false} DeadStaysSilent(t: Tunnel, run: seq<Event>, decodes: Bytes -> bool)
    requires t.r.dead
    ensures Run(t, run, decodes).got == t.got && Run(t, run, decodes).r.dead
    decreases |run|
  {
    if run != [] {
      DeadStaysSilent(t, run[..|run| - 1], decodes);
    }
  }

  /** An undisturbed network delivers everything: the prefix is not empty by accident. */
  lemma {:induction false} InOrderDeliversAll(key: nat, msgs: seq<Bytes>, decodes: Bytes -> bool)
    returns (run: seq<Event>)
    requires forall i :: 0 <= i < |msgs| ==> decodes(msgs[i])
    ensures PossibleRun(Fresh(key), run, decodes)
    ensures var t := Run(Fresh(key), run, decodes); t.got == t.sent == msgs && !t.r.dead && Lockstep(t)
  {
    if msgs == [] {
      run := [];
    } else {
      var n := |msgs| - 1;
      var before := InOrderDeliversAll(key, msgs[..n], decodes);
      var t := Run(Fresh(key), before, decodes);
      var c := Sealed(key, n, msgs[n]);
      var mid := before + [Pass(msgs[n], true)];
      assert mid[..|mid| - 1] == before;
      KeyIsFixed(key, before, decodes);
      assert Run(Fresh(key), mid, decodes) ==
        t.(s := Sender(key, n + 1), sent := t.sent + [msgs[n]], wire := t.wire + {c});
      run := mid + [Arrive(c)];
      assert run[..|run| - 1] == mid;
      assert msgs[..n] + [msgs[n]] == msgs;
      RunLockstep(key, run, decodes);
    }
  }

  lemma {:induction false} KeyIsFixed(key: nat, run: seq<Event>, decodes: Bytes -> bool)
    ensures Run(Fresh(key), run, decodes).s.key == key
    decreases |run|
  {
    if run != [] {
      KeyIsFixed(key, run[..|run| - 1], decodes);
    }
  }

  /** The connection object: one counter each way. */
  class Conn {
    const sendKey: nat
    const recvKey: nat
    var enc: nat
    var dec: nat
    var dead: bool

    constructor (sendKey: nat, recvKey: nat)
      ensures this.sendKey == sendKey && this.recvKey == recvKey && enc == 0 && dec == 0 && !dead
    {
      this.sendKey, this.recvKey, enc, dec, dead := sendKey, recvKey, 0, 0, false;
    }

    ghost function Sending(): Sender
      reads this
    {
      Sender(sendKey, enc)
    }

    ghost function Receiving(): Receiver
      reads this
    {
      Receiver(recvKey, dec, dead)
    }

    method Send(plain: Bytes) returns (c: Cipher)
      modifies this
      ensures (Sending(), c) == Seal(old(Sending()), plain) && Receiving() == old(Receiving())
    {
      c := Sealed(sendKey, enc, plain);
      enc := enc + 1;
    }

    method Recv(c: Cipher, decodes: Bytes -> bool) returns (out: Option<Bytes>)
      modifies this
      ensures (Receiving(), out) == Open(old(Receiving()), c, decodes) && Sending() == old(Sending())
    {
      if dead {
        return None;
      }
      if c.Garbage? || c.key != recvKey || c.nonce != dec {
        dead := true;
        return None;
      }
      dec := dec + 1;
      if !decodes(c.plain) {
        dead := true;
        return None;
      }
      out := Some(c.plain);
    }
  }
}
