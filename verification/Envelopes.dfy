/**
  How large an envelope can get on the wire: JSON text, a 16-byte cipher tag and
  a frame of at most 65535 bytes.
 */
module Envelopes {
  import opened ByteOrder
  import opened Names
  import opened Framing

  const MAX_BODY: nat := 4096
  const CHUNK_SIZE: nat := 32 * 1024
  const TAG: nat := 16

  /** \u00XX */
  function UnicodeEscape(c: Byte): Bytes {
    [0x5C, 0x75, 0x30, 0x30, HexDigit(c / 16), HexDigit(c % 16)]
  }

  /**
    One byte inside a JSON string: quotes, backslashes and control characters are
    escaped, and < > & for HTML's sake.
   */
  function EscapeByte(c: Byte): Bytes {
    if c == 0x22 || c == 0x5C then [0x5C, c]
    else if c == 0x08 then [0x5C, 0x62]
    else if c == 0x0C then [0x5C, 0x66]
    else if c == 0x0A then [0x5C, 0x6E]
    else if c == 0x0D then [0x5C, 0x72]
    else if c == 0x09 then [0x5C, 0x74]
    else if c < 0x20 || c == 0x3C || c == 0x3E || c == 0x26 then UnicodeEscape(c)
    else [c]
  }

  predicate Continues(c: Byte) {
    0x80 <= c <= 0xBF
  }

  /** Length of the UTF-8 character at the head, 0 where the bytes are not one. */
  function RuneLength(s: Bytes): (n: nat)
    requires s != []
    ensures n <= 4 && n <= |s|
  {
    var c: int := s[0];
    if c < 0x80 then 1
    else if 0xC2 <= c <= 0xDF && |s| >= 2 && Continues(s[1]) then 2
    else if 0xE0 <= c <= 0xEF && |s| >= 3 && Continues(s[1]) && Continues(s[2])
            && (c == 0xE0 ==> s[1] >= 0xA0) && (c == 0xED ==> s[1] <= 0x9F) then 3
    else if 0xF0 <= c <= 0xF4 && |s| >= 4 && Continues(s[1]) && Continues(s[2]) && Continues(s[3])
            && (c == 0xF0 ==> s[1] >= 0x90) && (c == 0xF4 ==> s[1] <= 0x8F) then 4
    else 0
  }

  predicate ValidUtf8(s: Bytes) {
    s == [] || (RuneLength(s) > 0 && ValidUtf8(s[RuneLength(s)..]))
  }

  /** What a message body must be to be queued at all. */
  predicate ValidBody(body: Bytes) {
    0 < |body| <= MAX_BODY && ValidUtf8(body)
  }

  /** A JSON string body: stray bytes become U+FFFD, and U+2028 and U+2029 become escapes, six bytes each. */
  function Escape(s: Bytes): Bytes {
    if s == [] then [] else
      var n := RuneLength(s);
      if n == 0 then [0x5C, 0x75, 0x66, 0x66, 0x66, 0x64] + Escape(s[1..])
      else if n == 1 then EscapeByte(s[0]) + Escape(s[1..])
      else if n == 3 && s[0] == 0xE2 && s[1] == 0x80 && (s[2] == 0xA8 || s[2] == 0xA9) then
        [0x5C, 0x75, 0x32, 0x30, 0x32, if s[2] == 0xA8 then 0x38 else 0x39] + Escape(s[3..])
      else s[..n] + Escape(s[n..])
  }

  lemma {:induction false} EscapeGrowth(s: Bytes)
    ensures |Escape(s)| <= 6 * |s|
  {
    if s != [] {
      var n := RuneLength(s);
      EscapeGrowth(s[if n == 0 then 1 else n..]);
    }
  }

  function Digit64(n: nat): Byte
    requires n < 64
  {
    if n < 26 then 0x41 + n
    else if n < 52 then 0x61 + n - 26
    else if n < 62 then 0x30 + n - 52
    else if n == 62 then 0x2B else 0x2F
  }

  /** Base64 of one group of one to three bytes. */
  function Group(a: Byte, b: Byte, c: Byte, n: nat): (g: Bytes)
    requires 1 <= n <= 3
    ensures |g| == 4
  {
    [Digit64(a / 4), Digit64(a % 4 * 16 + b / 16),
     if n > 1 then Digit64(b % 16 * 4 + c / 64) else 0x3D,
     if n > 2 then Digit64(c % 64) else 0x3D]
  }

  function Base64(s: Bytes): Bytes {
    if |s| == 0 then []
    else if |s| == 1 then Group(s[0], 0, 0, 1)
    else if |s| == 2 then Group(s[0], s[1], 0, 2)
    else Group(s[0], s[1], s[2], 3) + Base64(s[3..])
  }

  lemma {:induction false} Base64Length(s: Bytes)
    ensures |Base64(s)| == 4 * ((|s| + 2) / 3)
  {
    if |s| >= 3 {
      Base64Length(s[3..]);
      assert |Base64(s)| == 4 + |Base64(s[3..])|;
    }
  }

  // ---- envelope texts ----

  function Ascii(s: string): Bytes {
    seq(|s|, i requires 0 <= i < |s| => if s[i] < 128 as char then s[i] as int else 0x3F)
  }

  /** ,"name": */
  function Key(name: string): Bytes {
    [0x2C, 0x22] + Ascii(name) + [0x22, 0x3A]
  }

  function Quoted(s: Bytes): Bytes {
    [0x22] + s + [0x22]
  }

  /** {"t":"msg","id":…,"ts":…,"body":…,"replyTo":…}; ts is already in decimal. */
  function MsgText(id: Bytes, ts: Bytes, body: Bytes, replyTo: Bytes): Bytes {
    Ascii("{\"t\":\"msg\"") + Key("id") + Quoted(id) + Key("ts") + ts + Key("body") + Quoted(Escape(body))
    + (if replyTo == [] then [] else Key("replyTo") + Quoted(replyTo)) + [0x7D]
  }

  function RoomMsgText(id: Bytes, ts: Bytes, body: Bytes, room: Bytes, num: Bytes): Bytes {
    Ascii("{\"t\":\"roommsg\"") + Key("id") + Quoted(id) + Key("ts") + ts + Key("body") + Quoted(Escape(body))
    + Key("room") + Quoted(room) + Key("seq") + num + [0x7D]
  }

  /** An offset of zero is left out. */
  function ChunkText(id: Bytes, off: Bytes, chunk: Bytes): Bytes {
    Ascii("{\"t\":\"chunk\"") + Key("id") + Quoted(id) + (if off == [] then [] else Key("offset") + off)
    + Key("chunk") + Quoted(Base64(chunk)) + [0x7D]
  }

  /** A text of n bytes is sealed and framed. */
  predicate FitsFrame(text: Bytes) {
    0 < |text| + TAG <= MAX_FRAME
  }

  /** Everything flush can send fits a frame, however much the body is escaped. */
  lemma MsgFits(id: Bytes, ts: Bytes, body: Bytes, replyTo: Bytes)
    requires |id| == 32 && |ts| <= 20 && |body| <= MAX_BODY && (replyTo == [] || |replyTo| == 32)
    ensures FitsFrame(MsgText(id, ts, body, replyTo))
  {
    EscapeGrowth(body);
  }

  lemma RoomMsgFits(id: Bytes, ts: Bytes, body: Bytes, room: Bytes, num: Bytes)
    requires |id| == 32 && |ts| <= 20 && |body| <= MAX_BODY && |room| == 32 && |num| <= 20
    ensures FitsFrame(RoomMsgText(id, ts, body, room, num))
  {
    EscapeGrowth(body);
  }

  /** A chunk fits exactly when its base64 text leaves room for the rest; so 33 KB fit, and 48 KB do not. */
  lemma ChunkFits(id: Bytes, off: Bytes, chunk: Bytes)
    requires |id| == 32 && |off| <= 20
    ensures FitsFrame(ChunkText(id, off, chunk)) <==>
      4 * ((|chunk| + 2) / 3) + (if off == [] then 0 else 10 + |off|) <= 65535 - 16 - 64
    ensures |chunk| <= 33 * 1024 ==> FitsFrame(ChunkText(id, off, chunk))
    ensures |chunk| >= 48 * 1024 ==> !FitsFrame(ChunkText(id, off, chunk))
  {
    Base64Length(chunk);
  }
}
