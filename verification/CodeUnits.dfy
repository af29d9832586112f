/** The three spellings of a text that meet in the browser: the UTF-16 code
    units a string is made of, the bytes a version is stored as, and the folded
    text an editor holds. Code points follow section 2.1 of RFC 2781, UTF-8
    bytes follow section 3 of RFC 3629. */
module CodeUnits {

  type Unit = u: int | 0 <= u < 0x1_0000
  type Byte = b: int | 0 <= b < 0x100
  type Text = seq<Unit>

  datatype Encoding = Utf8 | Utf8Bom | Utf16Le | Utf16Be

  const CR: Unit := 0x0D
  const LF: Unit := 0x0A
  const MARK: Unit := 0xFEFF

  predicate IsLead(u: Unit) { 0xD800 <= u < 0xDC00 }

  predicate IsTrail(u: Unit) { 0xDC00 <= u < 0xE000 }

  predicate IsSurrogate(code: int) { 0xD800 <= code < 0xE000 }

  /** Whether a surrogate pair begins at `i`. */
  predicate Paired(t: Text, i: nat) {
    i + 1 < |t| && IsLead(t[i]) && IsTrail(t[i + 1])
  }

  function CodePointAt(t: Text, i: nat): (code: int)
    requires i < |t|
    ensures 0 <= code < 0x11_0000
    ensures code > 0xFFFF <==> Paired(t, i)
  {
    if Paired(t, i) then 0x1_0000 + (t[i] as int - 0xD800) * 0x400 + (t[i + 1] as int - 0xDC00) else t[i]
  }

  predicate IsWide(enc: Encoding) { enc.Utf16Le? || enc.Utf16Be? }

  /** The bytes one code point takes in UTF-8. */
  function Utf8Width(code: int): nat {
    if code < 0x80 then 1 else if code < 0x800 then 2 else if code < 0x1_0000 then 3 else 4
  }

  function Width(enc: Encoding, code: int): nat {
    if IsWide(enc) then if code > 0xFFFF then 4 else 2 else Utf8Width(code)
  }

  // ------------------------------------------------------------ bytes

  function Utf8Of(code: int): (bytes: seq<Byte>)
    requires 0 <= code < 0x11_0000
    ensures |bytes| == Utf8Width(code)
  {
    if code < 0x80 then [code]
    else if code < 0x800 then [0xC0 + code / 0x40, 0x80 + code % 0x40]
    else if code < 0x1_0000 then
      [0xE0 + code / 0x1000, 0x80 + code / 0x40 % 0x40, 0x80 + code % 0x40]
    else
      [0xF0 + code / 0x4_0000, 0x80 + code / 0x1000 % 0x40, 0x80 + code / 0x40 % 0x40, 0x80 + code % 0x40]
  }

  function Utf16Of(enc: Encoding, u: Unit): (bytes: seq<Byte>)
    ensures |bytes| == 2
  {
    if enc.Utf16Be? then [u / 0x100, u % 0x100] else [u % 0x100, u / 0x100]
  }

  /** The bytes one character of `t` is stored as, and so how wide it is. */
  function CharBytes(enc: Encoding, t: Text, i: nat): (bytes: seq<Byte>)
    requires i < |t|
    ensures |bytes| == Width(enc, CodePointAt(t, i))
  {
    if !IsWide(enc) then Utf8Of(CodePointAt(t, i))
    else if Paired(t, i) then Utf16Of(enc, t[i]) + Utf16Of(enc, t[i + 1])
    else Utf16Of(enc, t[i])
  }

  function CharUnits(t: Text, i: nat): (n: nat)
    requires i < |t|
    ensures 1 <= n && i + n <= |t|
  {
    if Paired(t, i) then 2 else 1
  }

  /** A text as the bytes of its version, its mark included. */
  function Encoded(enc: Encoding, t: Text): seq<Byte>
    decreases |t|
  {
    if t == [] then [] else CharBytes(enc, t, 0) + Encoded(enc, t[CharUnits(t, 0)..])
  }

  /** No code point is cut: every surrogate stands in a pair. */
  predicate WellFormed(t: Text)
    decreases |t|
  {
    t == [] || (if Paired(t, 0) then WellFormed(t[2..])
                else !IsLead(t[0]) && !IsTrail(t[0]) && WellFormed(t[1..]))
  }

  /** Whether a cut at `i` falls inside a surrogate pair. */
  predicate SplitsPair(t: Text, i: nat) {
    0 < i && Paired(t, i - 1)
  }

  lemma Reassociated<T>(a: seq<T>, b: seq<T>, c: seq<T>)
    ensures a + (b + c) == (a + b) + c
  {}

  /** A character's bytes are its own units' alone. */
  lemma CharBytesLocal(enc: Encoding, s: Text, t: Text, i: nat)
    requires i < |s| && i < |t| && s[i] == t[i]
    requires Paired(s, i) == Paired(t, i) && (Paired(s, i) ==> s[i + 1] == t[i + 1])
    ensures CharBytes(enc, s, i) == CharBytes(enc, t, i)
  {
    assert CodePointAt(s, i) == CodePointAt(t, i);
  }

  /** The first character of `a + b` is the first of `a`, unless the seam made it. */
  lemma FirstOfJoined(enc: Encoding, a: Text, b: Text)
    requires a != [] && !(b != [] && IsLead(a[|a| - 1]) && IsTrail(b[0]))
    ensures CharUnits(a + b, 0) == CharUnits(a, 0)
    ensures CharBytes(enc, a + b, 0) == CharBytes(enc, a, 0)
    ensures (a + b)[CharUnits(a, 0)..] == a[CharUnits(a, 0)..] + b
  {
    assert Paired(a + b, 0) == Paired(a, 0);
    CharBytesLocal(enc, a + b, a, 0);
  }

  lemma {:induction false} EncodedJoins(enc: Encoding, a: Text, b: Text)
    requires !(a != [] && b != [] && IsLead(a[|a| - 1]) && IsTrail(b[0]))
    ensures Encoded(enc, a + b) == Encoded(enc, a) + Encoded(enc, b)
    decreases |a|
  {
    if a == [] {
      assert a + b == b;
    } else {
      var rest := a[CharUnits(a, 0)..];
      FirstOfJoined(enc, a, b);
      assert rest != [] ==> rest[|rest| - 1] == a[|a| - 1];
      EncodedJoins(enc, rest, b);
      Reassociated(CharBytes(enc, a, 0), Encoded(enc, rest), Encoded(enc, b));
    }
  }

  lemma {:induction false} WellFormedEnds(t: Text)
    requires WellFormed(t) && t != []
    ensures !IsLead(t[|t| - 1]) && !IsTrail(t[0])
    decreases |t|
  {
    var n := CharUnits(t, 0);
    if n < |t| { WellFormedEnds(t[n..]); }
  }

  lemma {:induction false} WellFormedJoins(a: Text, b: Text)
    requires WellFormed(a) && WellFormed(b)
    ensures WellFormed(a + b)
    decreases |a|
  {
    if a == [] {
      assert a + b == b;
    } else {
      var n := CharUnits(a, 0);
      assert (a + b)[n..] == a[n..] + b;
      WellFormedJoins(a[n..], b);
    }
  }

  /** A cut past the first character, seen from the text without it. */
  lemma CutPast(t: Text, i: nat)
    requires 0 < i <= |t| && !SplitsPair(t, i)
    ensures var n := CharUnits(t, 0);
            && n <= i && !SplitsPair(t[n..], i - n)
            && t[..i][n..] == t[n..][..i - n] && t[i..] == t[n..][i - n..]
            && Paired(t[..i], 0) == Paired(t, 0) && t[..i][0] == t[0]
  {
    var n := CharUnits(t, 0);
    assert i > n ==> t[n..][i - n - 1] == t[i - 1];
    assert i > n && i < |t| ==> t[n..][i - n] == t[i];
  }

  /** A well-formed text cut anywhere but inside a pair is two well-formed texts. */
  lemma {:induction false} WellFormedCut(t: Text, i: nat)
    requires WellFormed(t) && i <= |t| && !SplitsPair(t, i)
    ensures WellFormed(t[..i]) && WellFormed(t[i..])
    decreases |t|
  {
    if i == 0 {
      assert t[0..] == t;
    } else {
      hide Paired, SplitsPair;
      CutPast(t, i);
      WellFormedCut(t[CharUnits(t, 0)..], i - CharUnits(t, 0));
    }
  }

  // ------------------------------------------------------------ reading bytes back

  predicate IsTail(b: Byte) { 0x80 <= b < 0xC0 }

  /** The first code point of UTF-8 bytes, or -1 where none is spelled. */
  function CodeIn(b: seq<Byte>): (code: int)
    ensures -1 <= code
    ensures code >= 0 ==> Utf8Width(code) <= |b|
  {
    if b == [] then -1
    else if b[0] < 0x80 then b[0]
    else if |b| < 2 || !IsTail(b[1]) then -1
    else if 0xC2 <= b[0] < 0xE0 then (b[0] as int - 0xC0) * 0x40 + (b[1] as int - 0x80)
    else if |b| < 3 || !IsTail(b[2]) then -1
    else if 0xE0 <= b[0] < 0xF0 then
      var code := (b[0] as int - 0xE0) * 0x1000 + (b[1] as int - 0x80) * 0x40 + (b[2] as int - 0x80);
      if code < 0x800 || IsSurrogate(code) then -1 else code
    else if |b| < 4 || !IsTail(b[3]) then -1
    else if 0xF0 <= b[0] then
      var code := (b[0] as int - 0xF0) * 0x4_0000 + (b[1] as int - 0x80) * 0x1000 + (b[2] as int - 0x80) * 0x40 + (b[3] as int - 0x80);
      if 0x1_0000 <= code < 0x11_0000 then code else -1
    else -1
  }

  function UnitsOf(code: int): (t: Text)
    requires 0 <= code < 0x11_0000
    ensures |t| == if code > 0xFFFF then 2 else 1
  {
    if code > 0xFFFF then [0xD800 + (code - 0x1_0000) / 0x400, 0xDC00 + (code - 0x1_0000) % 0x400]
    else [code]
  }

  /** The text bytes spell; reading stops at the first bytes that spell nothing. */
  function Decoded(enc: Encoding, b: seq<Byte>): Text
    decreases |b|
  {
    if IsWide(enc) then
      if |b| < 2 then []
      else [if enc.Utf16Be? then b[0] as int * 0x100 + b[1] else b[1] as int * 0x100 + b[0]] + Decoded(enc, b[2..])
    else
      var code := CodeIn(b);
      if code < 0 || code >= 0x11_0000 then [] else UnitsOf(code) + Decoded(enc, b[Utf8Width(code)..])
  }

  lemma ShortReads(code: int, rest: seq<Byte>)
    requires 0 <= code < 0x800
    ensures CodeIn(Utf8Of(code) + rest) == code
  {
    var b := Utf8Of(code) + rest;
    if code < 0x80 {
      assert b[0] == code;
    } else {
      assert b[0] == 0xC0 + code / 0x40 && b[1] == 0x80 + code % 0x40;
    }
  }

  lemma ThreeBytesRead(code: int, rest: seq<Byte>)
    requires 0x800 <= code < 0x1_0000 && !IsSurrogate(code)
    ensures CodeIn(Utf8Of(code) + rest) == code
  {
    var b := Utf8Of(code) + rest;
    var x, y, z := code / 0x1000, code / 0x40 % 0x40, code % 0x40;
    assert b[0] == 0xE0 + x && b[1] == 0x80 + y && b[2] == 0x80 + z;
    assert code == x * 0x1000 + y * 0x40 + z;
  }

  lemma FourParts(code: int)
    requires 0x1_0000 <= code < 0x11_0000
    ensures var w, x, y, z := code / 0x4_0000, code / 0x1000 % 0x40, code / 0x40 % 0x40, code % 0x40;
            code == w * 0x4_0000 + x * 0x1000 + y * 0x40 + z && 0 <= w <= 4
  {}

  lemma FourBytesRead(code: int, rest: seq<Byte>)
    requires 0x1_0000 <= code < 0x11_0000
    ensures CodeIn(Utf8Of(code) + rest) == code
  {
    var w, x, y, z: int := code / 0x4_0000, code / 0x1000 % 0x40, code / 0x40 % 0x40, code % 0x40;
    FourParts(code);
    var b := Utf8Of(code) + rest;
    assert b[0] == 0xF0 + w && b[1] == 0x80 + x && b[2] == 0x80 + y && b[3] == 0x80 + z;
    FourReads(b, w, x, y, z);
  }

  lemma FourReads(b: seq<Byte>, w: int, x: int, y: int, z: int)
    requires |b| >= 4 && 0 <= w <= 4 && 0 <= x < 0x40 && 0 <= y < 0x40 && 0 <= z < 0x40
    requires b[0] == 0xF0 + w && b[1] == 0x80 + x && b[2] == 0x80 + y && b[3] == 0x80 + z
    requires 0x1_0000 <= w * 0x4_0000 + x * 0x1000 + y * 0x40 + z < 0x11_0000
    ensures CodeIn(b) == w * 0x4_0000 + x * 0x1000 + y * 0x40 + z
  {}

  lemma Utf8Reads(code: int, rest: seq<Byte>)
    requires 0 <= code < 0x11_0000 && !IsSurrogate(code)
    ensures CodeIn(Utf8Of(code) + rest) == code
  {
    if code < 0x800 { ShortReads(code, rest); }
    else if code < 0x1_0000 { ThreeBytesRead(code, rest); }
    else { FourBytesRead(code, rest); }
  }

  lemma PairReads(t: Text)
    requires Paired(t, 0)
    ensures UnitsOf(CodePointAt(t, 0)) == t[..2]
  {
    var code := CodePointAt(t, 0);
    assert (code - 0x1_0000) / 0x400 == t[0] - 0xD800;
    assert (code - 0x1_0000) % 0x400 == t[1] - 0xDC00;
  }

  lemma Utf16Reads(enc: Encoding, u: Unit, rest: seq<Byte>)
    requires IsWide(enc)
    ensures Decoded(enc, Utf16Of(enc, u) + rest) == [u] + Decoded(enc, rest)
  {
    var b := Utf16Of(enc, u) + rest;
    assert b[2..] == rest;
    assert b[0] == Utf16Of(enc, u)[0] && b[1] == Utf16Of(enc, u)[1];
  }

  /** One character's bytes, with more after them, read back as its units. */
  lemma CharReads(enc: Encoding, t: Text, rest: seq<Byte>)
    requires t != [] && WellFormed(t)
    ensures Decoded(enc, CharBytes(enc, t, 0) + rest) == t[..CharUnits(t, 0)] + Decoded(enc, rest)
  {
    if !IsWide(enc) {
      NarrowCharReads(enc, t, rest);
    } else if Paired(t, 0) {
      assert CharBytes(enc, t, 0) + rest == Utf16Of(enc, t[0]) + (Utf16Of(enc, t[1]) + rest);
      Utf16Reads(enc, t[1], rest);
      Utf16Reads(enc, t[0], Utf16Of(enc, t[1]) + rest);
      assert t[..2] + Decoded(enc, rest) == [t[0]] + ([t[1]] + Decoded(enc, rest));
    } else {
      Utf16Reads(enc, t[0], rest);
      assert t[..1] == [t[0]];
    }
  }

  lemma NarrowCharReads(enc: Encoding, t: Text, rest: seq<Byte>)
    requires t != [] && WellFormed(t) && !IsWide(enc)
    ensures Decoded(enc, CharBytes(enc, t, 0) + rest) == t[..CharUnits(t, 0)] + Decoded(enc, rest)
  {
    var code := CodePointAt(t, 0);
    var b := Utf8Of(code) + rest;
    Utf8Reads(code, rest);
    assert b[Utf8Width(code)..] == rest;
    if Paired(t, 0) { PairReads(t); } else { assert UnitsOf(code) == t[..1]; }
  }

  /** A well-formed text reads back from its bytes, so a version's bytes are the
      bytes of one text only. */
  lemma {:induction false} DecodedUndoesEncoded(enc: Encoding, t: Text)
    requires WellFormed(t)
    ensures Decoded(enc, Encoded(enc, t)) == t
    decreases |t|
  {
    if t != [] {
      var n := CharUnits(t, 0);
      CharReads(enc, t, Encoded(enc, t[n..]));
      DecodedUndoesEncoded(enc, t[n..]);
      assert t == t[..n] + t[n..];
    }
  }

  // ------------------------------------------------------------ folding

  /** A text with every line break, however spelled, read as one line feed. */
  function Folded(t: Text): (f: Text)
    decreases |t|
  {
    if t == [] then []
    else if t[0] == CR then [LF] + Folded(if |t| > 1 && t[1] == LF then t[2..] else t[1..])
    else [t[0]] + Folded(t[1..])
  }

  /** Whether a cut at `i` falls between the halves of one `\r\n`. */
  predicate SplitsBreak(t: Text, i: nat) {
    0 < i < |t| && t[i - 1] == CR && t[i] == LF
  }

  lemma {:induction false} FoldedJoins(a: Text, b: Text)
    requires !(a != [] && b != [] && a[|a| - 1] == CR && b[0] == LF)
    ensures Folded(a + b) == Folded(a) + Folded(b)
    decreases |a|
  {
    if a == [] {
      assert a + b == b;
    } else {
      var n := if |a| > 1 && a[0] == CR && a[1] == LF then 2 else 1;
      var rest, s := a[n..], a + b;
      assert s[n..] == rest + b;
      assert rest != [] ==> rest[|rest| - 1] == a[|a| - 1];
      FoldedJoins(rest, b);
      assert Folded(s) == [if a[0] == CR then LF else a[0]] + Folded(s[n..]);
      Reassociated([if a[0] == CR then LF else a[0]], Folded(rest), Folded(b));
    }
  }
}
