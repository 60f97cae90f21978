/**
  Display names and ids. A Go string is a byte string; case folding is modelled
  on ASCII letters, and every use below goes through Lower and EqualFold alone.
 */
module Names {
  import opened ByteOrder

  type Name = Bytes
  type Id = Bytes

  function LowerByte(c: Byte): Byte {
    if 0x41 <= c <= 0x5A then c + 0x20 else c
  }

  /** strings.ToLower */
  function Lower(s: Bytes): Bytes {
    seq(|s|, i requires 0 <= i < |s| => LowerByte(s[i]))
  }

  /** strings.EqualFold */
  predicate EqualFold(a: Bytes, b: Bytes) {
    Lower(a) == Lower(b)
  }

  predicate IsSpace(c: Byte) {
    c == 0x20 || 0x09 <= c <= 0x0D
  }

  function TrimLeft(s: Bytes): Bytes {
    if s != [] && IsSpace(s[0]) then TrimLeft(s[1..]) else s
  }

  function TrimRight(s: Bytes): Bytes {
    if s != [] && IsSpace(s[|s| - 1]) then TrimRight(s[..|s| - 1]) else s
  }

  /** strings.TrimSpace */
  function TrimSpace(s: Bytes): Bytes {
    TrimRight(TrimLeft(s))
  }

  predicate Trimmed(s: Bytes) {
    TrimSpace(s) == s
  }

  /** What ValidateName lets through: trimmed, not empty, no control characters. */
  predicate ValidName(s: Name) {
    && s != []
    && Trimmed(s)
    && forall i :: 0 <= i < |s| ==> s[i] >= 0x20 && s[i] != 0x7F
  }

  /** The handle a peer is pinned and stored under. */
  function PeerKey(name: Name): Bytes {
    Lower(TrimSpace(name))
  }

  predicate IsHexDigit(c: Byte) {
    0x30 <= c <= 0x39 || 0x41 <= c <= 0x46 || 0x61 <= c <= 0x66
  }

  /** checkID: sixteen bytes in hexadecimal. */
  predicate IsId(s: Bytes) {
    |s| == 32 && forall i :: 0 <= i < |s| ==> IsHexDigit(s[i])
  }

  lemma ValidNameKey(name: Name)
    requires ValidName(name)
    ensures PeerKey(name) == Lower(name)
    ensures 0 !in PeerKey(name)
  {
  }

  // ---- what folding, trimming and hexadecimal come to ----

  /** The same byte, or the same letter in upper and lower case. */
  predicate SameLetter(x: Byte, y: Byte) {
    x == y || (0x41 <= x <= 0x5A && y == x + 0x20) || (0x41 <= y <= 0x5A && x == y + 0x20)
  }

  /** Names fold to one another exactly when they differ in nothing but the case of letters. */
  lemma EqualFoldMeans(a: Bytes, b: Bytes)
    ensures EqualFold(a, b) <==> |a| == |b| && forall i :: 0 <= i < |a| ==> SameLetter(a[i], b[i])
  {
    if EqualFold(a, b) {
      assert |a| == |Lower(a)| == |Lower(b)| == |b|;
      forall i | 0 <= i < |a| ensures SameLetter(a[i], b[i]) {
        assert Lower(a)[i] == Lower(b)[i];
      }
    }
  }

  /** Folding changes the case of letters alone, and leaves no capitals. */
  lemma LowerMeans(s: Bytes)
    ensures EqualFold(Lower(s), s) && forall i :: 0 <= i < |s| ==> !(0x41 <= Lower(s)[i] <= 0x5A)
  {
    assert Lower(Lower(s)) == Lower(s);
  }

  /** A blank, as the C locale counts them. */
  predicate Blank(c: Byte) {
    c in {0x09, 0x0A, 0x0B, 0x0C, 0x0D, 0x20}
  }

  lemma {:induction false} TrimLeftMeans(s: Bytes) returns (i: nat)
    ensures i <= |s| && TrimLeft(s) == s[i..]
    ensures (forall k :: 0 <= k < i ==> Blank(s[k])) && (i < |s| ==> !Blank(s[i]))
  {
    i := 0;
    if s != [] && IsSpace(s[0]) {
      i := TrimLeftMeans(s[1..]);
      assert s[1..][i..] == s[i + 1..];
      forall k | 0 <= k < i + 1 ensures Blank(s[k]) {
        assert k > 0 ==> s[1..][k - 1] == s[k];
      }
      i := i + 1;
    }
  }

  lemma {:induction false} TrimRightMeans(s: Bytes) returns (j: nat)
    ensures j <= |s| && TrimRight(s) == s[..j]
    ensures (forall k :: j <= k < |s| ==> Blank(s[k])) && (j > 0 ==> !Blank(s[j - 1]))
  {
    j := |s|;
    if s != [] && IsSpace(s[|s| - 1]) {
      j := TrimRightMeans(s[..|s| - 1]);
      assert s[..|s| - 1][..j] == s[..j];
      forall k | j <= k < |s| ensures Blank(s[k]) {
        assert k < |s| - 1 ==> s[..|s| - 1][k] == s[k];
      }
    }
  }

  /** Trimming takes exactly the blanks at either end. */
  lemma TrimMeans(s: Bytes) returns (i: nat, j: nat)
    ensures i <= j <= |s| && TrimSpace(s) == s[i..j]
    ensures forall k :: 0 <= k < i || j <= k < |s| ==> Blank(s[k])
    ensures i < j ==> !Blank(s[i]) && !Blank(s[j - 1])
  {
    i := TrimLeftMeans(s);
    var m := TrimRightMeans(s[i..]);
    j := i + m;
    assert s[i..][..m] == s[i..j];
    forall k | j <= k < |s| ensures Blank(s[k]) {
      assert s[i..][k - i] == s[k];
    }
    assert m > 0 ==> s[i..][m - 1] == s[j - 1];
  }

  function HexDigit(d: nat): Byte
    requires d < 16
  {
    if d < 10 then 0x30 + d else 0x61 + d - 10
  }

  /** hex.EncodeToString */
  function HexText(b: Bytes): Bytes {
    if b == [] then [] else [HexDigit(b[0] / 16), HexDigit(b[0] % 16)] + HexText(b[1..])
  }

  lemma DigitOf(c: Byte) returns (d: nat)
    requires IsHexDigit(c)
    ensures d < 16 && SameLetter(HexDigit(d), c)
  {
    d := if c <= 0x39 then c - 0x30 else if c <= 0x46 then c - 0x41 + 10 else c - 0x61 + 10;
  }

  ghost predicate AllHex(s: Bytes) {
    forall i :: 0 <= i < |s| ==> IsHexDigit(s[i])
  }

  /** Digits read in pairs, whatever their case, are the text of as many bytes. */
  lemma {:induction false} HexDecodes(s: Bytes) returns (b: Bytes)
    requires |s| % 2 == 0 && AllHex(s)
    ensures |b| == |s| / 2 && EqualFold(HexText(b), s)
    decreases |s|
  {
    if s == [] {
      b := [];
    } else {
      var rest := HexDecodes(s[2..]);
      var high := DigitOf(s[0]);
      var low := DigitOf(s[1]);
      b := [16 * high + low] + rest;
      var t := HexText(b);
      assert b[1..] == rest && t == [HexDigit(high), HexDigit(low)] + HexText(rest);
      EqualFoldMeans(HexText(rest), s[2..]);
      forall i | 0 <= i < |s| ensures SameLetter(t[i], s[i]) {
        assert i >= 2 ==> t[i] == HexText(rest)[i - 2] && s[i] == s[2..][i - 2];
      }
      EqualFoldMeans(t, s);
    }
  }

  lemma {:induction false} HexTextIsHex(b: Bytes)
    ensures |HexText(b)| == 2 * |b| && AllHex(HexText(b))
  {
    if b != [] {
      HexTextIsHex(b[1..]);
    }
  }

  /** An id is sixteen bytes in hexadecimal, in either case, and nothing else is one. */
  lemma IdMeans(s: Bytes)
    ensures IsId(s) <==> exists b: Bytes :: |b| == 16 && EqualFold(HexText(b), s)
  {
    if IsId(s) {
      var b := HexDecodes(s);
    } else if b: Bytes :| |b| == 16 && EqualFold(HexText(b), s) {
      HexTextIsHex(b);
      EqualFoldMeans(HexText(b), s);
    }
  }
}
