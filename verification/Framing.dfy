/**
  Length-prefixed frames: two big-endian length bytes and a payload of 1 to 65535
  bytes. A stream of frames has exactly one reading.
 */
module Framing {
  import opened OptionType
  import opened ByteOrder

  const MAX_FRAME: nat := 65535

  predicate Framable(p: Bytes) {
    0 < |p| <= MAX_FRAME
  }

  function Frame(p: Bytes): Bytes {
    BigEndian(|p|, 2) + p
  }

  /** Frames written back to back. */
  function Stream(ps: seq<Bytes>): Bytes {
    if ps == [] then [] else Frame(ps[0]) + Stream(ps[1..])
  }

  /** What one read finds at the head of a stream. EndOfStream covers a clean end as well as a cut header or payload. */
  datatype Read = EndOfStream | EmptyFrame | Payload(p: Bytes, rest: Bytes)

  function ReadFrame(s: Bytes): (r: Read)
    ensures r.Payload? ==> |r.rest| < |s|
  {
    if |s| < 2 then EndOfStream else
      var n := Value(s[..2]);
      if n == 0 then EmptyFrame
      else if |s| < 2 + n then EndOfStream
      else Payload(s[2..2 + n], s[2 + n..])
  }

  /** Read until nothing can be read: the frames and what is left over. */
  function ReadAll(s: Bytes): (seq<Bytes>, Bytes)
    decreases |s|
  {
    match ReadFrame(s)
    case Payload(p, rest) => var (ps, left) := ReadAll(rest); ([p] + ps, left)
    case EndOfStream => ([], s)
    case EmptyFrame => ([], s)
  }

  lemma LengthBytes(n: nat)
    requires n <= MAX_FRAME
    ensures |BigEndian(n, 2)| == 2 && Value(BigEndian(n, 2)) == n
  {
    assert Pow256(2) == 256 * Pow256(1) && Pow256(1) == 256 * Pow256(0);
    BigEndianRoundTrip(n, 2);
  }

  lemma {:induction false} BigEndianOfValue(b: Bytes)
    ensures Value(b) < Pow256(|b|) && BigEndian(Value(b), |b|) == b
  {
    if b != [] {
      BigEndianOfValue(b[..|b| - 1]);
      assert b == b[..|b| - 1] + [b[|b| - 1]];
    }
  }

  /** A payload has 1 to 65535 bytes; its frame is two bytes that say how many, the higher first, and the payload. */
  lemma FrameIs(p: Bytes)
    ensures Framable(p) <==> 1 <= |p| <= 65535
    ensures Framable(p) ==>
      |Frame(p)| == 2 + |p| && Frame(p)[2..] == p && Frame(p)[0] == |p| / 256 && Frame(p)[1] == |p| % 256
  {
    if Framable(p) {
      LengthBytes(|p|);
      assert BigEndian(|p|, 2) == BigEndian(|p| / 256, 1) + [|p| % 256];
      assert BigEndian(|p| / 256, 1) == [|p| / 256];
    }
  }

  /** A frame reads back as its payload, whatever follows. */
  lemma FrameReads(p: Bytes, rest: Bytes)
    requires Framable(p)
    ensures ReadFrame(Frame(p) + rest) == Payload(p, rest)
  {
    LengthBytes(|p|);
    var s := Frame(p) + rest;
    assert s[..2] == BigEndian(|p|, 2);
    assert s[2..2 + |p|] == p && s[2 + |p|..] == rest;
  }

  /** A payload that was read sits in the stream as its frame. */
  lemma ReadIsFrame(s: Bytes)
    requires ReadFrame(s).Payload?
    ensures Framable(ReadFrame(s).p) && s == Frame(ReadFrame(s).p) + ReadFrame(s).rest
  {
    BigEndianOfValue(s[..2]);
    assert Pow256(2) == 256 * Pow256(1) && Pow256(1) == 256 * Pow256(0);
    var n := Value(s[..2]);
    assert s == s[..2] + s[2..2 + n] + s[2 + n..];
  }

  /** Any list of frames reads back as the same list, up to whatever incomplete tail follows. */
  lemma {:induction false} StreamReadsBack(ps: seq<Bytes>, tail: Bytes)
    requires (forall i :: 0 <= i < |ps| ==> Framable(ps[i])) && !ReadFrame(tail).Payload?
    ensures ReadAll(Stream(ps) + tail) == (ps, tail)
  {
    if ps == [] {
      assert Stream(ps) + tail == tail;
    } else {
      var rest := Stream(ps[1..]) + tail;
      assert Stream(ps) + tail == Frame(ps[0]) + rest;
      FrameReads(ps[0], rest);
      StreamReadsBack(ps[1..], tail);
      assert [ps[0]] + ps[1..] == ps;
    }
  }

  /** And there is no other reading: every byte string is the frames it reads as, followed by the leftover. */
  lemma {:induction false} OnlyReading(s: Bytes)
    ensures var (ps, left) := ReadAll(s);
      && s == Stream(ps) + left && !ReadFrame(left).Payload?
      && forall i :: 0 <= i < |ps| ==> Framable(ps[i])
    decreases |s|
  {
    if ReadFrame(s).Payload? {
      ReadIsFrame(s);
      OnlyReading(ReadFrame(s).rest);
    }
  }

  /** Two frame lists with the same bytes are the same list. */
  lemma {:induction false} StreamInjective(ps: seq<Bytes>, qs: seq<Bytes>)
    requires forall i :: 0 <= i < |ps| ==> Framable(ps[i])
    requires forall i :: 0 <= i < |qs| ==> Framable(qs[i])
    requires Stream(ps) == Stream(qs)
    ensures ps == qs
  {
    StreamReadsBack(ps, []);
    StreamReadsBack(qs, []);
    assert Stream(ps) + [] == Stream(ps) && Stream(qs) + [] == Stream(qs);
  }

  /** A connection that dies mid-stream delivers a prefix of the frames, never a wrong one. */
  lemma {:induction false} CutStream(ps: seq<Bytes>, n: nat)
    requires (forall i :: 0 <= i < |ps| ==> Framable(ps[i])) && n <= |Stream(ps)|
    ensures ReadAll(Stream(ps)[..n]).0 <= ps
  {
    var s := Stream(ps)[..n];
    if ps != [] {
      LengthBytes(|ps[0]|);
      var f := Frame(ps[0]);
      if n >= |f| {
        var rest := Stream(ps[1..])[..n - |f|];
        assert s == f + rest;
        FrameReads(ps[0], rest);
        CutStream(ps[1..], n - |f|);
        var qs := ReadAll(rest).0;
        assert ReadAll(s).0 == [ps[0]] + qs && ps == [ps[0]] + ps[1..];
      } else if n >= 2 {
        assert s[..2] == BigEndian(|ps[0]|, 2);
      }
    }
  }

  /** A byte stream that is written at one end and consumed at the other. */
  class Pipe {
    var bytes: Bytes

    constructor ()
      ensures bytes == []
    {
      bytes := [];
    }

    /** Builds header and payload in one buffer and writes it at once; false for an empty or oversized payload. */
    method WriteFrame(p: Bytes) returns (ok: bool)
      modifies this
      ensures ok <==> Framable(p)
      ensures bytes == if ok then old(bytes) + Frame(p) else old(bytes)
    {
      if |p| == 0 || |p| > MAX_FRAME {
        return false;
      }
      LengthBytes(|p|);
      var buf := new Byte[2 + |p|](_ => 0);
      buf[0], buf[1] := |p| / 256, |p| % 256;
      for i := 0 to |p|
        invariant bytes == old(bytes) && buf[0] == |p| / 256 && buf[1] == |p| % 256
        invariant forall j :: 0 <= j < i ==> buf[2 + j] == p[j]
      {
        buf[2 + i] := p[i];
      }
      assert BigEndian(|p|, 2) == BigEndian(|p| / 256, 1) + [|p| % 256];
      assert BigEndian(|p| / 256, 1) == [|p| / 256];
      assert buf[..] == Frame(p);
      bytes := bytes + buf[..];
      ok := true;
    }

    /** Consumes one frame. A failed read consumes what it looked at: an empty frame's header, or all there is. */
    method NextFrame() returns (r: Option<Bytes>)
      modifies this
      ensures r.Some? <==> ReadFrame(old(bytes)).Payload?
      ensures r.Some? ==> old(bytes) == Frame(r.value) + bytes && Framable(r.value)
      ensures r.None? ==> bytes == if ReadFrame(old(bytes)).EmptyFrame? then old(bytes)[2..] else []
    {
      if |bytes| < 2 {
        bytes := [];
        return None;
      }
      var high: int, low: int := bytes[0], bytes[1];
      var n := 256 * high + low;
      assert Value(bytes[..2]) == n by {
        assert bytes[..2][..1] == [bytes[0]] && [bytes[0]][..0] == [];
        assert Value([bytes[0]]) == bytes[0];
      }
      if n == 0 {
        bytes := bytes[2..];
        return None;
      }
      if |bytes| < 2 + n {
        bytes := [];
        return None;
      }
      ReadIsFrame(bytes);
      r := Some(bytes[2..2 + n]);
      bytes := bytes[2 + n..];
    }
  }
}
