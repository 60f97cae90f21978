/**
  What the texts on the wire mean: UTF-8, JSON strings and base64 read back, and an
  envelope's text determines its fields.
 */
module Encodings {
  import opened ByteOrder
  import opened Names
  import opened Envelopes

  // ---- UTF-8 ----

  /** A Unicode scalar value. */
  predicate Scalar(c: nat) {
    c < 0xD800 || 0xE000 <= c < 0x110000
  }

  /** Section 3 of RFC 3629. */
  function Utf8(c: nat): (b: Bytes)
    requires c < 0x110000
    ensures 1 <= |b| <= 4
  {
    if c < 0x80 then [c]
    else if c < 0x800 then [0xC0 + c / 0x40, 0x80 + c % 0x40]
    else if c < 0x10000 then [0xE0 + c / 0x40 / 0x40, 0x80 + c / 0x40 % 0x40, 0x80 + c % 0x40]
    else [0xF0 + c / 0x40 / 0x40 / 0x40, 0x80 + c / 0x40 / 0x40 % 0x40, 0x80 + c / 0x40 % 0x40, 0x80 + c % 0x40]
  }

  lemma SixMoreBits(high: nat, low: nat)
    requires low < 0x40
    ensures (0x40 * high + low) / 0x40 == high && (0x40 * high + low) % 0x40 == low
  {
  }

  lemma ThreeBytes(a: nat, b: nat, d: nat)
    requires a < 16 && b < 0x40 && d < 0x40 && (a == 0 ==> b >= 0x20)
    ensures var c := 0x40 * (0x40 * a + b) + d;
      0x800 <= c < 0x10000 && Utf8(c) == [0xE0 + a, 0x80 + b, 0x80 + d]
  {
    SixMoreBits(0x40 * a + b, d);
    SixMoreBits(a, b);
  }

  lemma FourBytes(a: nat, b: nat, d: nat, e: nat)
    requires a < 5 && b < 0x40 && d < 0x40 && e < 0x40 && (a == 0 ==> b >= 0x10) && (a == 4 ==> b <= 0xF)
    ensures var c := 0x40 * (0x40 * (0x40 * a + b) + d) + e;
      0x10000 <= c < 0x110000 && Utf8(c) == [0xF0 + a, 0x80 + b, 0x80 + d, 0x80 + e]
  {
    SixMoreBits(0x40 * (0x40 * a + b) + d, e);
    SixMoreBits(0x40 * a + b, d);
    SixMoreBits(a, b);
  }

  /** What is taken for a character is the encoding of one. */
  lemma RuneIsScalar(s: Bytes) returns (c: nat)
    requires s != [] && RuneLength(s) > 0
    ensures Scalar(c) && |Utf8(c)| == RuneLength(s) && Utf8(c) == s[..RuneLength(s)]
  {
    var n, a: int := RuneLength(s), s[0];
    if n == 1 {
      c := a;
    } else if n == 2 {
      var b: int := s[1] - 0x80;
      c := 0x40 * (a - 0xC0) + b;
      SixMoreBits(a - 0xC0, b);
    } else if n == 3 {
      var b: int, d: int := s[1] - 0x80, s[2] - 0x80;
      c := 0x40 * (0x40 * (a - 0xE0) + b) + d;
      ThreeBytes(a - 0xE0, b, d);
    } else {
      var b: int, d: int, e: int := s[1] - 0x80, s[2] - 0x80, s[3] - 0x80;
      c := 0x40 * (0x40 * (0x40 * (a - 0xF0) + b) + d) + e;
      FourBytes(a - 0xF0, b, d, e);
    }
  }

  /** And every encoding of one is taken for a character. */
  lemma ScalarIsRune(c: nat, rest: Bytes)
    requires Scalar(c)
    ensures RuneLength(Utf8(c) + rest) == |Utf8(c)|
  {
  }

  ghost predicate AllScalar(cs: seq<nat>) {
    forall i :: 0 <= i < |cs| ==> Scalar(cs[i])
  }

  function Utf8Text(cs: seq<nat>): Bytes
    requires forall i :: 0 <= i < |cs| ==> cs[i] < 0x110000
  {
    if cs == [] then [] else Utf8(cs[0]) + Utf8Text(cs[1..])
  }

  lemma {:induction false} ValidIsText(s: Bytes) returns (cs: seq<nat>)
    requires ValidUtf8(s)
    ensures AllScalar(cs) && Utf8Text(cs) == s
    decreases |s|
  {
    if s == [] {
      cs := [];
    } else {
      var c := RuneIsScalar(s);
      var rest := ValidIsText(s[RuneLength(s)..]);
      cs := [c] + rest;
      assert cs[1..] == rest;
      assert s == s[..RuneLength(s)] + s[RuneLength(s)..];
    }
  }

  lemma {:induction false} TextIsValid(cs: seq<nat>)
    requires AllScalar(cs)
    ensures ValidUtf8(Utf8Text(cs))
  {
    if cs != [] {
      TextIsValid(cs[1..]);
      ScalarIsRune(cs[0], Utf8Text(cs[1..]));
      assert Utf8Text(cs)[|Utf8(cs[0])|..] == Utf8Text(cs[1..]);
    }
  }

  /** A body may be queued if and only if it is the UTF-8 of some characters, 1 to 4096 bytes in all. */
  lemma BodyIsText(body: Bytes)
    ensures ValidBody(body) <==> 1 <= |body| <= 4096 && exists cs :: AllScalar(cs) && Utf8Text(cs) == body
  {
    if ValidUtf8(body) {
      var cs := ValidIsText(body);
    } else if cs :| AllScalar(cs) && Utf8Text(cs) == body {
      TextIsValid(cs);
    }
  }

  // ---- JSON strings ----

  datatype Text = Bad | Text(s: Bytes, rest: Bytes)

  function Then(head: Bytes, t: Text): Text {
    if t.Bad? then Bad else Text(head + t.s, t.rest)
  }

  /** The value of a hexadecimal digit; 16 for anything else. */
  function HexValue(c: Byte): nat {
    if 0x30 <= c <= 0x39 then c - 0x30
    else if 0x41 <= c <= 0x46 then c - 0x41 + 10
    else if 0x61 <= c <= 0x66 then c - 0x61 + 10
    else 16
  }

  /** What a backslash and one character stand for (section 7 of RFC 8259); none for \u. */
  function Short(c: Byte): Bytes {
    if c == 0x22 || c == 0x5C || c == 0x2F then [c]
    else if c == 0x62 then [0x08] else if c == 0x66 then [0x0C] else if c == 0x6E then [0x0A]
    else if c == 0x72 then [0x0D] else if c == 0x74 then [0x09] else []
  }

  /** Reads a JSON string, without its opening quote, up to its closing one; surrogates are not read. */
  function ReadString(t: Bytes): Text
    decreases |t|
  {
    if t == [] || t[0] < 0x20 then Bad
    else if t[0] == 0x22 then Text([], t[1..])
    else if t[0] != 0x5C then Then([t[0]], ReadString(t[1..]))
    else if |t| >= 2 && Short(t[1]) != [] then Then(Short(t[1]), ReadString(t[2..]))
    else if |t| >= 6 && t[1] == 0x75 && forall i :: 2 <= i < 6 ==> HexValue(t[i]) < 16 then
      Then(Utf8(0x1000 * HexValue(t[2]) + 0x100 * HexValue(t[3]) + 0x10 * HexValue(t[4]) + HexValue(t[5])),
           ReadString(t[6..]))
    else Bad
  }

  predicate PlainByte(c: Byte) {
    c >= 0x20 && c != 0x22 && c != 0x5C
  }

  lemma {:induction false} ReadsOne(c: Byte, t: Bytes)
    requires PlainByte(c)
    ensures ReadString([c] + t) == Then([c], ReadString(t))
  {
    assert ([c] + t)[1..] == t;
  }

  lemma ThenThen(a: Bytes, b: Bytes, t: Text)
    ensures Then(a, Then(b, t)) == Then(a + b, t)
  {
    if !t.Bad? {
      assert a + (b + t.s) == (a + b) + t.s;
    }
  }

  /** Bytes that need no escape are read as they are. */
  lemma {:induction false} ReadsPlain(raw: Bytes, t: Bytes)
    requires forall i :: 0 <= i < |raw| ==> PlainByte(raw[i])
    ensures ReadString(raw + t) == Then(raw, ReadString(t))
  {
    if raw == [] {
      assert raw + t == t;
    } else {
      assert raw + t == [raw[0]] + (raw[1..] + t) && raw == [raw[0]] + raw[1..];
      ReadsOne(raw[0], raw[1..] + t);
      ReadsPlain(raw[1..], t);
      ThenThen([raw[0]], raw[1..], ReadString(t));
    }
  }

  lemma {:induction false} ReadsUnicode(c: Byte, t: Bytes)
    requires c < 0x80
    ensures ReadString(UnicodeEscape(c) + t) == Then([c], ReadString(t))
  {
    var u := UnicodeEscape(c) + t;
    assert u[6..] == t && u[..6] == UnicodeEscape(c);
    assert HexValue(HexDigit(c / 16)) == c / 16 && HexValue(HexDigit(c % 16)) == c % 16;
  }

  lemma {:induction false} ReadsShort(c: Byte, e: Byte, t: Bytes)
    requires Short(e) == [c]
    ensures ReadString([0x5C, e] + t) == Then([c], ReadString(t))
  {
    assert ([0x5C, e] + t)[2..] == t;
  }

  lemma {:induction false} ReadsByte(c: Byte, t: Bytes)
    requires c < 0x80
    ensures ReadString(EscapeByte(c) + t) == Then([c], ReadString(t))
  {
    var e := EscapeByte(c);
    if |e| == 1 {
      ReadsPlain([c], t);
    } else if |e| == 2 {
      ReadsShort(c, e[1], t);
    } else {
      ReadsUnicode(c, t);
    }
  }

  lemma {:induction false} ReadsSeparator(last: Byte, t: Bytes)
    requires last == 0x38 || last == 0x39
    ensures ReadString([0x5C, 0x75, 0x32, 0x30, 0x32, last] + t) ==
      Then([0xE2, 0x80, 0xA8 + (last - 0x38)], ReadString(t))
  {
    var u := [0x5C, 0x75, 0x32, 0x30, 0x32, last] + t;
    assert u[6..] == t;
  }

  /** How the character at the head of a text is escaped. */
  function EscapeRune(s: Bytes): Bytes
    requires s != [] && RuneLength(s) > 0
  {
    var n := RuneLength(s);
    if n == 1 then EscapeByte(s[0])
    else if n == 3 && s[0] == 0xE2 && s[1] == 0x80 && (s[2] == 0xA8 || s[2] == 0xA9) then
      [0x5C, 0x75, 0x32, 0x30, 0x32, if s[2] == 0xA8 then 0x38 else 0x39]
    else s[..n]
  }

  lemma {:induction false} EscapesRuneByRune(s: Bytes)
    requires s != [] && RuneLength(s) > 0
    ensures Escape(s) == EscapeRune(s) + Escape(s[RuneLength(s)..])
  {
  }

  lemma LongRunesAreHigh(s: Bytes)
    requires s != [] && RuneLength(s) > 1
    ensures forall i :: 0 <= i < RuneLength(s) ==> s[i] >= 0x80
  {
  }

  lemma {:induction false} ReadsRune(s: Bytes, t: Bytes)
    requires s != [] && RuneLength(s) > 0
    ensures ReadString(EscapeRune(s) + t) == Then(s[..RuneLength(s)], ReadString(t))
  {
    var n := RuneLength(s);
    if n == 1 {
      ReadsByte(s[0], t);
    } else if n == 3 && s[0] == 0xE2 && s[1] == 0x80 && (s[2] == 0xA8 || s[2] == 0xA9) {
      var last: Byte := if s[2] == 0xA8 then 0x38 else 0x39;
      ReadsSeparator(last, t);
      assert s[..3] == [0xE2, 0x80, 0xA8 + (last - 0x38)];
    } else {
      LongRunesAreHigh(s);
      ReadsPlain(s[..n], t);
    }
  }

  /** Whatever follows its closing quote, an escaped text reads back as itself. */
  lemma {:induction false} EscapeReadsBack(s: Bytes, rest: Bytes)
    requires ValidUtf8(s)
    ensures ReadString(Escape(s) + [0x22] + rest) == Text(s, rest)
    decreases |s|
  {
    if s == [] {
      var t := [0x22] + rest;
      assert Escape(s) + [0x22] + rest == t && t[1..] == rest;
    } else {
      var n := RuneLength(s);
      var t := Escape(s[n..]) + [0x22] + rest;
      EscapesRuneByRune(s);
      assert Escape(s) + [0x22] + rest == EscapeRune(s) + t;
      EscapeReadsBack(s[n..], rest);
      ReadsThen(s, t, n, rest);
    }
  }

  lemma {:induction false} ReadsThen(s: Bytes, t: Bytes, n: nat, rest: Bytes)
    requires s != [] && n == RuneLength(s) > 0 && ReadString(t) == Text(s[n..], rest)
    ensures ReadString(EscapeRune(s) + t) == Text(s, rest)
  {
    ReadsRune(s, t);
    assert s == s[..n] + s[n..];
  }

  // ---- base64 ----

  /** The six bits a base64 character stands for (table 1 of RFC 4648); 64 for anything else. */
  function SixBits(c: Byte): nat {
    if 0x41 <= c <= 0x5A then c - 0x41
    else if 0x61 <= c <= 0x7A then c - 0x61 + 26
    else if 0x30 <= c <= 0x39 then c - 0x30 + 52
    else if c == 0x2B then 62 else if c == 0x2F then 63 else 64
  }

  function Bits(c: Byte): (n: nat)
    ensures n < 64
  {
    if SixBits(c) < 64 then SixBits(c) else 0
  }

  /** The three bytes that four times six bits hold. */
  function Bytes3(p: nat, q: nat, r: nat, u: nat): (b: Bytes)
    requires p < 64 && q < 64 && r < 64 && u < 64
    ensures |b| == 3
  {
    [4 * p + q / 16, 16 * (q % 16) + r / 4, 64 * (r % 4) + u]
  }

  /** Reads groups of four characters; padding says how many bytes the last one holds. */
  function Unbase64(t: Bytes): Bytes {
    if |t| < 4 then [] else
      var n := if t[2] == 0x3D then 1 else if t[3] == 0x3D then 2 else 3;
      Bytes3(Bits(t[0]), Bits(t[1]), Bits(t[2]), Bits(t[3]))[..n] + Unbase64(t[4..])
  }

  lemma DigitBits(n: nat)
    requires n < 64
    ensures Bits(Digit64(n)) == n && Digit64(n) != 0x3D && Digit64(n) != 0x22
  {
  }

  lemma FourMoreBits(high: nat, low: nat)
    requires low < 16
    ensures (high * 16 + low) / 16 == high && (high * 16 + low) % 16 == low
  {
  }

  lemma TwoMoreBits(high: nat, low: nat)
    requires low < 4
    ensures (high * 4 + low) / 4 == high && (high * 4 + low) % 4 == low
  {
  }

  /** Three bytes cut into four times six bits, and put together again. */
  lemma BitsJoinUp(a: Byte, b: Byte, c: Byte)
    ensures var p: int, q: int, r: int, u: int := a / 4, a % 4 * 16 + b / 16, b % 16 * 4 + c / 64, c % 64;
      0 <= p < 64 && 0 <= q < 64 && 0 <= r < 64 && 0 <= u < 64 && Bytes3(p, q, r, u) == [a, b, c]
  {
    FourMoreBits(a % 4, b / 16);
    TwoMoreBits(b % 16, c / 64);
    var q: int, r: int := a % 4 * 16 + b / 16, b % 16 * 4 + c / 64;
    assert 0 <= q < 64 && 0 <= r < 64;
    assert q / 16 == a % 4 && q % 16 == b / 16 && r / 4 == b % 16 && r % 4 == c / 64;
  }

  function Group4(p: nat, q: nat, r: nat, u: nat, n: nat): Bytes
    requires p < 64 && q < 64 && r < 64 && u < 64
  {
    [Digit64(p), Digit64(q), if n > 1 then Digit64(r) else 0x3D, if n > 2 then Digit64(u) else 0x3D]
  }

  /** The padded places do not reach into the bytes that are kept. */
  lemma PaddingIsOutside(p: nat, q: nat, r: nat, u: nat, n: nat)
    requires p < 64 && q < 64 && r < 64 && u < 64 && 1 <= n <= 3
    ensures Bytes3(p, q, if n > 1 then r else 0, if n > 2 then u else 0)[..n] == Bytes3(p, q, r, u)[..n]
  {
  }

  lemma {:induction false} ReadsFour(g: Bytes, n: nat, t: Bytes)
    requires |g| == 4 && n == if g[2] == 0x3D then 1 else if g[3] == 0x3D then 2 else 3
    ensures Unbase64(g + t) == Bytes3(Bits(g[0]), Bits(g[1]), Bits(g[2]), Bits(g[3]))[..n] + Unbase64(t)
  {
    assert (g + t)[4..] == t && forall i :: 0 <= i < 4 ==> (g + t)[i] == g[i];
  }

  lemma {:induction false} FourReadBack(p: nat, q: nat, r: nat, u: nat, n: nat, t: Bytes)
    requires p < 64 && q < 64 && r < 64 && u < 64 && 1 <= n <= 3
    ensures 0x22 !in Group4(p, q, r, u, n)
    ensures Unbase64(Group4(p, q, r, u, n) + t) == Bytes3(p, q, r, u)[..n] + Unbase64(t)
  {
    var g := Group4(p, q, r, u, n);
    DigitBits(p);
    DigitBits(q);
    DigitBits(r);
    DigitBits(u);
    ReadsFour(g, n, t);
    PaddingIsOutside(p, q, r, u, n);
    assert Bits(0x3D) == 0;
  }

  lemma {:induction false} GroupReadsBack(a: Byte, b: Byte, c: Byte, n: nat, t: Bytes)
    requires 1 <= n <= 3
    ensures Unbase64(Group(a, b, c, n) + t) == [a, b, c][..n] + Unbase64(t)
    ensures 0x22 !in Group(a, b, c, n)
  {
    BitsJoinUp(a, b, c);
    FourReadBack(a / 4, a % 4 * 16 + b / 16, b % 16 * 4 + c / 64, c % 64, n, t);
  }

  /** Base64 reads back, and holds no quote. */
  lemma {:induction false} Base64ReadsBack(s: Bytes)
    ensures Unbase64(Base64(s)) == s && 0x22 !in Base64(s)
  {
    if |s| == 1 {
      GroupReadsBack(s[0], 0, 0, 1, []);
      assert Base64(s) == Group(s[0], 0, 0, 1) + [];
    } else if |s| == 2 {
      GroupReadsBack(s[0], s[1], 0, 2, []);
      assert Base64(s) == Group(s[0], s[1], 0, 2) + [];
    } else if |s| >= 3 {
      Base64ReadsBack(s[3..]);
      Base64OneMore(s);
    }
  }

  lemma {:induction false} Base64OneMore(s: Bytes)
    requires |s| >= 3 && Unbase64(Base64(s[3..])) == s[3..] && 0x22 !in Base64(s[3..])
    ensures Unbase64(Base64(s)) == s && 0x22 !in Base64(s)
  {
    GroupReadsBack(s[0], s[1], s[2], 3, Base64(s[3..]));
    assert s == [s[0], s[1], s[2]][..3] + s[3..];
  }

  // ---- envelopes ----

  /** Text up to the first comma is decided by the whole. */
  lemma CutAtComma(a: Bytes, x: Bytes, b: Bytes, y: Bytes)
    requires 0x2C !in a && 0x2C !in b && a + [0x2C] + x == b + [0x2C] + y
    ensures a == b && x == y
  {
    var s := a + [0x2C] + x;
    assert s[|a|] == 0x2C && s[|b|] == 0x2C;
    assert forall i :: 0 <= i < |a| ==> s[i] == a[i] && a[i] in a;
    assert forall i :: 0 <= i < |b| ==> s[i] == b[i] && b[i] in b;
    assert |a| == |b|;
    assert a == s[..|a|] && b == s[..|a|] && x == s[|a| + 1..] && y == s[|a| + 1..];
  }

  /** What follows the same beginning is decided by the whole. */
  lemma CutPrefix(p: Bytes, x: Bytes, q: Bytes, y: Bytes)
    requires |p| == |q| && p + x == q + y
    ensures p == q && x == y
  {
    assert p == (p + x)[..|p|] && q == (q + y)[..|p|] && x == (p + x)[|p|..] && y == (q + y)[|p|..];
  }

  /** And so is an escaped text with what follows its quote. */
  lemma {:induction false} CutText(s: Bytes, x: Bytes, t: Bytes, y: Bytes)
    requires ValidUtf8(s) && ValidUtf8(t) && Escape(s) + [0x22] + x == Escape(t) + [0x22] + y
    ensures s == t && x == y
  {
    EscapeReadsBack(s, x);
    EscapeReadsBack(t, y);
  }

  function ReplyPart(replyTo: Bytes): Bytes {
    if replyTo == [] then [] else Key("replyTo") + Quoted(replyTo)
  }

  /** From the time on, a text cut where the reader cuts it. */
  lemma {:induction false} TimeAndBody(ts: Bytes, body: Bytes, tail: Bytes)
    ensures ts + Key("body") + Quoted(Escape(body)) + tail ==
      ts + [0x2C] + ((Key("body")[1..] + [0x22]) + (Escape(body) + [0x22] + tail))
  {
    assert Key("body") == [0x2C] + Key("body")[1..];
  }

  /** A message's text cut where the reader cuts it. */
  lemma MsgParts(id: Bytes, ts: Bytes, body: Bytes, replyTo: Bytes)
    ensures MsgText(id, ts, body, replyTo) ==
      (Ascii("{\"t\":\"msg\"") + Key("id") + Quoted(id) + Key("ts"))
      + (ts + [0x2C] + ((Key("body")[1..] + [0x22]) + (Escape(body) + [0x22] + (ReplyPart(replyTo) + [0x7D]))))
  {
    var head := Ascii("{\"t\":\"msg\"") + Key("id") + Quoted(id) + Key("ts");
    TimeAndBody(ts, body, ReplyPart(replyTo) + [0x7D]);
    Regroup(head, ts, Key("body"), Quoted(Escape(body)), [], ReplyPart(replyTo), [], [], [0x7D]);
    Unpad(head + ts + Key("body") + Quoted(Escape(body)), ReplyPart(replyTo), [0x7D]);
  }

  lemma Unpad(x: Bytes, r: Bytes, z: Bytes)
    ensures x + [] + r + [] + [] + z == x + r + z && ([] + r + []) + ([] + z) == r + z
  {
  }

  lemma ReplyDetermined(r: Bytes, r': Bytes)
    requires (r == [] || |r| == 32) && (r' == [] || |r'| == 32)
    requires ReplyPart(r) + [0x7D] == ReplyPart(r') + [0x7D]
    ensures r == r'
  {
    CutPrefix(ReplyPart(r), [0x7D], ReplyPart(r'), [0x7D]);
    if r != [] {
      var k := |Key("replyTo")| + 1;
      assert ReplyPart(r)[k..k + 32] == r && ReplyPart(r')[k..k + 32] == r';
    }
  }

  /** The text of a message determines its id, time, body and quoted id. */
  lemma MsgTextDetermines(
    id: Bytes, ts: Bytes, body: Bytes, replyTo: Bytes, id': Bytes, ts': Bytes, body': Bytes, replyTo': Bytes)
    requires |id| == 32 && |id'| == 32 && 0x2C !in ts && 0x2C !in ts' && ValidUtf8(body) && ValidUtf8(body')
    requires (replyTo == [] || |replyTo| == 32) && (replyTo' == [] || |replyTo'| == 32)
    requires MsgText(id, ts, body, replyTo) == MsgText(id', ts', body', replyTo')
    ensures id == id' && ts == ts' && body == body' && replyTo == replyTo'
  {
    MsgParts(id, ts, body, replyTo);
    MsgParts(id', ts', body', replyTo');
    var head := Ascii("{\"t\":\"msg\"") + Key("id");
    var p, p' := head + Quoted(id) + Key("ts"), head + Quoted(id') + Key("ts");
    var b, b' := Key("body")[1..] + [0x22], Key("body")[1..] + [0x22];
    var z := Escape(body) + [0x22] + (ReplyPart(replyTo) + [0x7D]);
    var z' := Escape(body') + [0x22] + (ReplyPart(replyTo') + [0x7D]);
    CutPrefix(p, ts + [0x2C] + (b + z), p', ts' + [0x2C] + (b' + z'));
    assert id == p[|head| + 1..|head| + 33] && id' == p'[|head| + 1..|head| + 33];
    CutAtComma(ts, b + z, ts', b' + z');
    CutPrefix(b, z, b', z');
    CutText(body, ReplyPart(replyTo) + [0x7D], body', ReplyPart(replyTo') + [0x7D]);
    ReplyDetermined(replyTo, replyTo');
  }

  lemma RoomMsgParts(id: Bytes, ts: Bytes, body: Bytes, room: Bytes, num: Bytes)
    ensures RoomMsgText(id, ts, body, room, num) ==
      (Ascii("{\"t\":\"roommsg\"") + Key("id") + Quoted(id) + Key("ts"))
      + (ts + [0x2C] + ((Key("body")[1..] + [0x22])
         + (Escape(body) + [0x22] + ((Key("room") + Quoted(room) + Key("seq")) + (num + [0x7D])))))
  {
    var head := Ascii("{\"t\":\"roommsg\"") + Key("id") + Quoted(id) + Key("ts");
    var tail := (Key("room") + Quoted(room) + Key("seq")) + (num + [0x7D]);
    TimeAndBody(ts, body, tail);
    Regroup(head, ts, Key("body"), Quoted(Escape(body)), Key("room"), Quoted(room), Key("seq"), num, [0x7D]);
  }

  lemma Regroup(h: Bytes, a: Bytes, b: Bytes, c: Bytes, d: Bytes, e: Bytes, f: Bytes, g: Bytes, z: Bytes)
    ensures h + a + b + c + d + e + f + g + z == h + (a + b + c + ((d + e + f) + (g + z)))
  {
  }

  /** The text of a room message determines its id, time, body, room and number. */
  lemma RoomMsgTextDetermines(
    id: Bytes, ts: Bytes, body: Bytes, room: Bytes, num: Bytes,
    id': Bytes, ts': Bytes, body': Bytes, room': Bytes, num': Bytes)
    requires |id| == 32 && |id'| == 32 && 0x2C !in ts && 0x2C !in ts' && ValidUtf8(body) && ValidUtf8(body')
    requires |room| == 32 && |room'| == 32
    requires RoomMsgText(id, ts, body, room, num) == RoomMsgText(id', ts', body', room', num')
    ensures id == id' && ts == ts' && body == body' && room == room' && num == num'
  {
    RoomMsgParts(id, ts, body, room, num);
    RoomMsgParts(id', ts', body', room', num');
    var head := Ascii("{\"t\":\"roommsg\"") + Key("id");
    var p, p' := head + Quoted(id) + Key("ts"), head + Quoted(id') + Key("ts");
    var b := Key("body")[1..] + [0x22];
    var r, r' := Key("room") + Quoted(room) + Key("seq"), Key("room") + Quoted(room') + Key("seq");
    var z, z' := Escape(body) + [0x22] + (r + (num + [0x7D])), Escape(body') + [0x22] + (r' + (num' + [0x7D]));
    CutPrefix(p, ts + [0x2C] + (b + z), p', ts' + [0x2C] + (b + z'));
    assert id == p[|head| + 1..|head| + 33] && id' == p'[|head| + 1..|head| + 33];
    CutAtComma(ts, b + z, ts', b + z');
    CutPrefix(b, z, b, z');
    CutText(body, r + (num + [0x7D]), body', r' + (num' + [0x7D]));
    CutPrefix(r, num + [0x7D], r', num' + [0x7D]);
    var k := |Key("room")| + 1;
    assert room == r[k..k + 32] && room' == r'[k..k + 32];
    CutPrefix(num, [0x7D], num', [0x7D]);
  }

  function OffsetPart(off: Bytes): Bytes {
    if off == [] then [] else Key("offset") + off
  }

  lemma KeysDiffer()
    ensures |Key("chunk")| == 9 && Key("chunk")[0] == 0x2C && Key("chunk")[2] == 0x63
    ensures |Key("offset")| == 10 && Key("offset")[2] == 0x6F
  {
  }

  lemma Grouped(o: Bytes, off: Bytes, k: Bytes, x: Bytes)
    requires |k| > 0 && k[0] == 0x2C && |o| > 2
    ensures o + off + (k + x) == o + (off + [0x2C] + (k[1..] + x)) && (o + off + (k + x))[2] == o[2]
  {
    assert k == [0x2C] + k[1..];
  }

  lemma OffsetParts(off: Bytes, x: Bytes)
    ensures var s, c := OffsetPart(off) + (Key("chunk") + x), Key("chunk")[1..];
      && (off == [] ==> s == Key("chunk") + x && s[2] == 0x63)
      && (off != [] ==> s == Key("offset") + (off + [0x2C] + (c + x)) && s[2] == 0x6F)
  {
    KeysDiffer();
    if off != [] {
      Grouped(Key("offset"), off, Key("chunk"), x);
    } else {
      assert OffsetPart(off) + (Key("chunk") + x) == Key("chunk") + x;
    }
  }

  lemma OffsetDetermined(off: Bytes, x: Bytes, off': Bytes, x': Bytes)
    requires 0x2C !in off && 0x2C !in off'
    requires OffsetPart(off) + (Key("chunk") + x) == OffsetPart(off') + (Key("chunk") + x')
    ensures off == off' && x == x'
  {
    OffsetParts(off, x);
    OffsetParts(off', x');
    if off == [] {
      CutPrefix(Key("chunk"), x, Key("chunk"), x');
    } else {
      var c := Key("chunk")[1..];
      CutPrefix(Key("offset"), off + [0x2C] + (c + x), Key("offset"), off' + [0x2C] + (c + x'));
      CutAtComma(off, c + x, off', c + x');
      CutPrefix(c, x, c, x');
    }
  }

  lemma ChunkParts(id: Bytes, off: Bytes, chunk: Bytes)
    ensures ChunkText(id, off, chunk) ==
      (Ascii("{\"t\":\"chunk\"") + Key("id") + Quoted(id))
      + (OffsetPart(off) + (Key("chunk") + ([0x22] + (Base64(chunk) + [0x22, 0x7D]))))
  {
  }

  lemma Base64Determines(a: Bytes, b: Bytes)
    requires Base64(a) == Base64(b)
    ensures a == b
  {
    Base64ReadsBack(a);
    Base64ReadsBack(b);
  }

  /** The text of a chunk determines its file, its place and its bytes. */
  lemma ChunkTextDetermines(id: Bytes, off: Bytes, chunk: Bytes, id': Bytes, off': Bytes, chunk': Bytes)
    requires |id| == 32 && |id'| == 32 && 0x2C !in off && 0x2C !in off'
    requires ChunkText(id, off, chunk) == ChunkText(id', off', chunk')
    ensures id == id' && off == off' && chunk == chunk'
  {
    ChunkParts(id, off, chunk);
    ChunkParts(id', off', chunk');
    var head := Ascii("{\"t\":\"chunk\"") + Key("id");
    var b, b' := Base64(chunk) + [0x22, 0x7D], Base64(chunk') + [0x22, 0x7D];
    var y, y' := OffsetPart(off) + (Key("chunk") + ([0x22] + b)), OffsetPart(off') + (Key("chunk") + ([0x22] + b'));
    CutPrefix(head + Quoted(id), y, head + Quoted(id'), y');
    assert id == (head + Quoted(id))[|head| + 1..|head| + 33] && id' == (head + Quoted(id'))[|head| + 1..|head| + 33];
    OffsetDetermined(off, [0x22] + b, off', [0x22] + b');
    CutPrefix([0x22], b, [0x22], b');
    CutPrefix(Base64(chunk), [0x22, 0x7D], Base64(chunk'), [0x22, 0x7D]);
    Base64Determines(chunk, chunk');
  }
}
