/** Percent-encoding (section 2.1 of RFC 3986) as the browser writes and reads it:
    `encodeURIComponent`, `decodeURIComponent`, and the form coding of
    `URLSearchParams`. */
module Percents {
  import opened CodeUnits
  import opened OrderedMaps

  predicate IsLetter(c: char) { 'a' <= c <= 'z' || 'A' <= c <= 'Z' }

  predicate IsAlnum(c: char) { IsLetter(c) || '0' <= c <= '9' }

  function HexDigit(n: nat): (c: char)
    requires n < 16
    ensures IsAlnum(c)
  {
    if n < 10 then '0' + n as char else 'A' + (n - 10) as char
  }

  function HexOf(c: char): (n: int)
    ensures -1 <= n < 16
  {
    if '0' <= c <= '9' then c as int - '0' as int
    else if 'A' <= c <= 'F' then c as int - 'A' as int + 10
    else if 'a' <= c <= 'f' then c as int - 'a' as int + 10
    else -1
  }

  lemma HexReads(n: nat)
    requires n < 16
    ensures HexOf(HexDigit(n)) == n
  {}

  function Percent(b: Byte): string {
    ['%', HexDigit(b / 16), HexDigit(b % 16)]
  }

  /** The byte an escape at the head of `s` spells, or -1. */
  function EscapeIn(s: string): (b: int)
    ensures -1 <= b < 256 && (b >= 0 ==> |s| >= 3 && s[0] == '%')
  {
    if |s| < 3 || s[0] != '%' || HexOf(s[1]) < 0 || HexOf(s[2]) < 0 then -1 else HexOf(s[1]) * 16 + HexOf(s[2])
  }

  lemma PercentReads(b: Byte, rest: string)
    ensures EscapeIn(Percent(b) + rest) == b && (Percent(b) + rest)[3..] == rest
  {
    HexReads(b / 16);
    HexReads(b % 16);
  }

  predicate Unreserved(c: char) {
    IsAlnum(c) || c == '-' || c == '_' || c == '.' || c == '!' || c == '~' || c == '*' || c == '\'' || c == '(' || c == ')'
  }

  predicate FormSafe(c: char) {
    IsAlnum(c) || c == '*' || c == '-' || c == '.' || c == '_'
  }

  /** What a printed component is made of: nothing that parts a fragment. */
  predicate Spelled(c: char) { Unreserved(c) || c == '%' || c == '+' }

  // ------------------------------------------------------------ components

  function Escape(b: seq<Byte>): (s: string)
    ensures forall i :: 0 <= i < |s| ==> Spelled(s[i])
    ensures b != [] ==> s != []
  {
    if b == [] then []
    else (if b[0] < 0x80 && Unreserved(b[0] as char) then [b[0] as char] else Percent(b[0])) + Escape(b[1..])
  }

  /** The bytes a component spells: escapes, and every other character's own. */
  function BytesIn(s: string): Option<seq<Byte>> {
    if s == [] then Some([])
    else if s[0] == '%' then
      if EscapeIn(s) < 0 then None
      else
        var rest := BytesIn(s[3..]);
        if rest.None? then None else Some([EscapeIn(s)] + rest.value)
    else
      var rest := BytesIn(s[1..]);
      if rest.None? then None else Some(Utf8Of(s[0] as int) + rest.value)
  }

  lemma {:induction false} BytesUndoEscape(b: seq<Byte>)
    ensures BytesIn(Escape(b)) == Some(b)
  {
    if b != [] {
      BytesUndoEscape(b[1..]);
      var rest := Escape(b[1..]);
      if b[0] < 0x80 && Unreserved(b[0] as char) {
        assert ([b[0] as char] + rest)[1..] == rest;
        assert Utf8Of(b[0]) == [b[0]];
      } else {
        PercentReads(b[0], rest);
      }
      assert [b[0]] + b[1..] == b;
    }
  }

  /** The text UTF-8 bytes spell, when they are UTF-8. */
  function Utf8Read(b: seq<Byte>): Option<Text> {
    var t := Decoded(Utf8, b);
    if Encoded(Utf8, t) == b then Some(t) else None
  }

  /** `encodeURIComponent`, which throws on half a surrogate pair. */
  function Component(t: Text): Option<string> {
    if WellFormed(t) then Some(Escape(Encoded(Utf8, t))) else None
  }

  /** `decodeURIComponent`, which throws on what spells no text. */
  function ComponentIn(s: string): Option<Text> {
    if BytesIn(s).None? then None else Utf8Read(BytesIn(s).value)
  }

  /** A component written is read back. */
  lemma ComponentReads(t: Text)
    requires WellFormed(t)
    ensures ComponentIn(Component(t).value) == Some(t)
  {
    BytesUndoEscape(Encoded(Utf8, t));
    DecodedUndoesEncoded(Utf8, t);
  }

  // ------------------------------------------------------------ forms

  /** A text with every half of a surrogate pair replaced, as the browser hands it on. */
  function Usv(t: Text): Text {
    if t == [] then []
    else if Paired(t, 0) then t[..2] + Usv(t[2..])
    else [if IsLead(t[0]) || IsTrail(t[0]) then 0xFFFD else t[0]] + Usv(t[1..])
  }

  lemma {:induction false} UsvKeepsWellFormed(t: Text)
    ensures WellFormed(Usv(t)) && (Usv(t) == t <==> WellFormed(t))
    decreases |t|
  {
    if t != [] {
      if Paired(t, 0) {
        UsvKeepsWellFormed(t[2..]);
        assert Usv(t)[2..] == Usv(t[2..]) && t == t[..2] + t[2..];
      } else {
        UsvKeepsWellFormed(t[1..]);
        assert Usv(t)[1..] == Usv(t[1..]) && t == [t[0]] + t[1..];
      }
    }
  }

  function FormEscape(b: seq<Byte>): (s: string)
    ensures forall i :: 0 <= i < |s| ==> Spelled(s[i])
  {
    if b == [] then []
    else
      (if b[0] == 0x20 then ['+']
       else if b[0] < 0x80 && FormSafe(b[0] as char) then [b[0] as char]
       else Percent(b[0]))
      + FormEscape(b[1..])
  }

  /** The bytes a form's text spells; a `%` that begins no escape is itself. */
  function FormBytes(s: string): seq<Byte> {
    if s == [] then []
    else if s[0] == '+' then [0x20] + FormBytes(s[1..])
    else if EscapeIn(s) >= 0 then [EscapeIn(s)] + FormBytes(s[3..])
    else Utf8Of(s[0] as int) + FormBytes(s[1..])
  }

  lemma {:induction false} FormBytesUndo(b: seq<Byte>)
    ensures FormBytes(FormEscape(b)) == b
  {
    if b != [] {
      FormBytesUndo(b[1..]);
      var rest := FormEscape(b[1..]);
      if b[0] == 0x20 {
        assert (['+'] + rest)[1..] == rest;
      } else if b[0] < 0x80 && FormSafe(b[0] as char) {
        assert ([b[0] as char] + rest)[1..] == rest;
        assert Utf8Of(b[0]) == [b[0]];
      } else {
        PercentReads(b[0], rest);
      }
      assert [b[0]] + b[1..] == b;
    }
  }

  /** How many bytes of malformed UTF-8 one replacement character stands for: the
      longest beginning of a character they could have been. */
  function Spoilt(b: seq<Byte>): (n: nat)
    requires b != []
    ensures 1 <= n <= |b|
  {
    if |b| < 2 || b[0] < 0xC2 || b[0] > 0xF4 then 1
    else
      var low := if b[0] == 0xE0 then 0xA0 else if b[0] == 0xF0 then 0x90 else 0x80;
      var high := if b[0] == 0xED then 0x9F else if b[0] == 0xF4 then 0x8F else 0xBF;
      if b[0] < 0xE0 || !(low <= b[1] <= high) then 1
      else if b[0] < 0xF0 || |b| < 3 || !IsTail(b[2]) then 2
      else 3
  }

  /** UTF-8 read with a replacement for what spells nothing. */
  function Lossy(b: seq<Byte>): Text
    decreases |b|
  {
    if b == [] then []
    else
      var code := CodeIn(b);
      if 0 <= code < 0x11_0000 then UnitsOf(code) + Lossy(b[Utf8Width(code)..]) else [0xFFFD] + Lossy(b[Spoilt(b)..])
  }

  function FormRead(b: seq<Byte>): Text {
    if Utf8Read(b).Some? then Utf8Read(b).value else Lossy(b)
  }

  /** A name or a value as a form writes it, and as it is read. */
  function FormOf(t: Text): string {
    FormEscape(Encoded(Utf8, Usv(t)))
  }

  function FormIn(s: string): Text {
    FormRead(FormBytes(s))
  }

  lemma FormReads(t: Text)
    ensures FormIn(FormOf(t)) == Usv(t)
  {
    UsvKeepsWellFormed(t);
    FormBytesUndo(Encoded(Utf8, Usv(t)));
    DecodedUndoesEncoded(Utf8, Usv(t));
  }

  // ------------------------------------------------------------ plain text

  /** Characters as code units. */
  function Units(s: string): Text {
    if s == [] then [] else UnitsOf(s[0] as int) + Units(s[1..])
  }

  predicate Plain(s: string) {
    forall i :: 0 <= i < |s| ==> s[i] as int < 0x80
  }

  /** Plain code units as characters. */
  function Narrow(t: Text): Option<string> {
    if t == [] then Some([])
    else if t[0] >= 0x80 || Narrow(t[1..]).None? then None
    else Some([t[0] as char] + Narrow(t[1..]).value)
  }

  lemma {:induction false} NarrowReads(s: string)
    requires Plain(s)
    ensures Narrow(Units(s)) == Some(s) && |Units(s)| == |s| && WellFormed(Units(s))
  {
    if s != [] {
      NarrowReads(s[1..]);
      assert Units(s) == [s[0] as int] + Units(s[1..]);
      assert s == [s[0]] + s[1..];
    }
  }

  /** Characters a form writes as they are are read as they are. */
  lemma {:induction false} SafeReads(s: string)
    requires forall i :: 0 <= i < |s| ==> FormSafe(s[i])
    ensures Plain(s) && FormOf(Units(s)) == s && FormIn(s) == Units(s)
  {
    NarrowReads(s);
    UsvKeepsWellFormed(Units(s));
    SafeEncodes(s);
    FormReads(Units(s));
  }

  lemma PlainHead(t: Text)
    requires t != [] && t[0] < 0x80
    ensures Encoded(Utf8, t) == [t[0]] + Encoded(Utf8, t[1..])
  {
    assert CharUnits(t, 0) == 1 && CharBytes(Utf8, t, 0) == [t[0]];
  }

  lemma SafeEscapes(c: char, rest: seq<Byte>)
    requires FormSafe(c) && c as int < 0x80
    ensures FormEscape([c as int] + rest) == [c] + FormEscape(rest)
  {
    assert ([c as int] + rest)[1..] == rest;
  }

  lemma {:induction false} SafeEncodes(s: string)
    requires forall i :: 0 <= i < |s| ==> FormSafe(s[i])
    ensures Plain(s) && FormEscape(Encoded(Utf8, Units(s))) == s
  {
    if s != [] {
      SafeEncodes(s[1..]);
      var t := Units(s);
      assert t == [s[0] as int] + Units(s[1..]) && t[1..] == Units(s[1..]);
      PlainHead(t);
      SafeEscapes(s[0], Encoded(Utf8, t[1..]));
      hide Encoded, FormEscape, Units;
      assert s == [s[0]] + s[1..];
    }
  }
}
