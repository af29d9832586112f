/** Standard base64 (section 4 of RFC 4648) and the browser's forgiving reading of it,
    `atob`. */
module Base64 {
  import opened CodeUnits
  import opened OrderedMaps

  type Six = v: int | 0 <= v < 64

  function SixChar(v: Six): char {
    if v < 26 then 'A' + v as char
    else if v < 52 then 'a' + (v - 26) as char
    else if v < 62 then '0' + (v - 52) as char
    else if v == 62 then '+' else '/'
  }

  function SixOf(c: char): Option<Six> {
    if 'A' <= c <= 'Z' then Some(c as int - 'A' as int)
    else if 'a' <= c <= 'z' then Some(c as int - 'a' as int + 26)
    else if '0' <= c <= '9' then Some(c as int - '0' as int + 52)
    else if c == '+' then Some(62)
    else if c == '/' then Some(63)
    else None
  }

  lemma SixReads(v: Six)
    ensures SixOf(SixChar(v)) == Some(v)
    ensures SixChar(v) != '=' && !IsSpace(SixChar(v))
  {}

  predicate IsSpace(c: char) {
    c == '\t' || c == '\n' || c as int == 0x0C || c == '\r' || c == ' '
  }

  function Six1(x: Byte): Six { x / 4 }

  function Six2(x: Byte, y: Byte): Six { x % 4 * 16 + y / 16 }

  function Six3(y: Byte, z: Byte): Six { y % 16 * 4 + z / 64 }

  function Six4(z: Byte): Six { z % 64 }

  /** The bits of the bytes, six by six, the last filled up with zeros. */
  function SixesOf(b: seq<Byte>): seq<Six> {
    if b == [] then []
    else if |b| == 1 then [Six1(b[0]), Six2(b[0], 0)]
    else if |b| == 2 then [Six1(b[0]), Six2(b[0], b[1]), Six3(b[1], 0)]
    else [Six1(b[0]), Six2(b[0], b[1]), Six3(b[1], b[2]), Six4(b[2])] + SixesOf(b[3..])
  }

  function Chars(v: seq<Six>): (s: string)
    ensures |s| == |v| && forall i :: 0 <= i < |v| ==> s[i] == SixChar(v[i])
  {
    if v == [] then [] else [SixChar(v[0])] + Chars(v[1..])
  }

  function Padding(n: nat): string {
    if n % 3 == 1 then "==" else if n % 3 == 2 then "=" else ""
  }

  function Encode(b: seq<Byte>): string {
    Chars(SixesOf(b)) + Padding(|b|)
  }

  function Unspaced(s: string): string {
    if s == [] then [] else (if IsSpace(s[0]) then [] else [s[0]]) + Unspaced(s[1..])
  }

  /** The padding dropped from a text whose length is a multiple of four. */
  function Unpadded(s: string): string {
    if |s| % 4 != 0 || s == [] || s[|s| - 1] != '=' then s
    else if s[|s| - 2] != '=' then s[..|s| - 1]
    else s[..|s| - 2]
  }

  /** The six bits of each character, when every one has some. */
  function Sixes(s: string): Option<seq<Six>> {
    if s == [] then Some([])
    else if SixOf(s[0]).None? || Sixes(s[1..]).None? then None
    else Some([SixOf(s[0]).value] + Sixes(s[1..]).value)
  }

  function First(a: Six, b: Six): Byte { a as int * 4 + b as int / 16 }

  function Second(b: Six, c: Six): Byte { b as int % 16 * 16 + c as int / 4 }

  function Third(c: Six, d: Six): Byte { c as int % 4 * 64 + d as int }

  /** The sixes regrouped into bytes; what does not fill one is lost. */
  function Bytes(v: seq<Six>): seq<Byte> {
    if |v| < 2 then []
    else if |v| == 2 then [First(v[0], v[1])]
    else if |v| == 3 then [First(v[0], v[1]), Second(v[1], v[2])]
    else [First(v[0], v[1]), Second(v[1], v[2]), Third(v[2], v[3])] + Bytes(v[4..])
  }

  /** What `atob` reads: spaces aside, padding or none, nothing else. */
  function Decode(s: string): Option<seq<Byte>> {
    var text := Unpadded(Unspaced(s));
    if |text| % 4 == 1 || Sixes(text).None? then None else Some(Bytes(Sixes(text).value))
  }

  // ------------------------------------------------------------ the round trip

  lemma EightUndo(x: Byte, y: Byte, z: Byte)
    ensures First(Six1(x), Six2(x, y)) == x
    ensures Second(Six2(x, y), Six3(y, z)) == y
    ensures Third(Six3(y, z), Six4(z)) == z
  {}

  lemma ThreeUndo(x: Byte, y: Byte, z: Byte, rest: seq<Six>)
    ensures Bytes([Six1(x), Six2(x, y), Six3(y, z), Six4(z)] + rest) == [x, y, z] + Bytes(rest)
  {
    hide First, Second, Third, Six1, Six2, Six3, Six4;
    EightUndo(x, y, z);
    assert ([Six1(x), Six2(x, y), Six3(y, z), Six4(z)] + rest)[4..] == rest;
  }

  lemma FewUndo(b: seq<Byte>)
    requires |b| <= 2
    ensures Bytes(SixesOf(b)) == b
  {
    hide First, Second, Third, Six1, Six2, Six3, Six4;
    if |b| > 0 { EightUndo(b[0], if |b| == 2 then b[1] else 0, 0); }
  }

  lemma {:induction false} BytesUndo(b: seq<Byte>)
    ensures Bytes(SixesOf(b)) == b
    decreases |b|
  {
    hide First, Second, Third, Six1, Six2, Six3, Six4;
    if |b| > 2 {
      BytesUndo(b[3..]);
      ThreeUndo(b[0], b[1], b[2], SixesOf(b[3..]));
      assert b == [b[0], b[1], b[2]] + b[3..];
    } else {
      FewUndo(b);
    }
  }

  lemma {:induction false} SixesUndo(v: seq<Six>)
    ensures Sixes(Chars(v)) == Some(v)
  {
    hide SixOf, SixChar;
    if v != [] {
      SixReads(v[0]);
      assert Chars(v)[1..] == Chars(v[1..]);
      assert v == [v[0]] + v[1..];
      SixesUndo(v[1..]);
    }
  }

  /** Four for every three bytes, and one more than the bytes left over. */
  lemma {:induction false} SixesInFours(b: seq<Byte>) returns (q: nat, r: nat)
    ensures r < 3 && |b| == 3 * q + r && |SixesOf(b)| == 4 * q + (if r == 0 then 0 else r + 1)
    decreases |b|
  {
    hide Six1, Six2, Six3, Six4;
    if |b| > 2 {
      q, r := SixesInFours(b[3..]);
      q := q + 1;
    } else {
      q, r := 0, |b|;
    }
  }

  lemma LeftOfThrees(q: nat, r: nat)
    requires r < 3
    ensures (3 * q + r) % 3 == r
  {}

  lemma LeftOfFours(q: nat, r: nat)
    requires r < 4
    ensures (4 * q + r) % 4 == r
  {}

  lemma PaddedToFour(b: seq<Byte>)
    ensures |SixesOf(b)| % 4 == (if |b| % 3 == 0 then 0 else |b| % 3 + 1)
  {
    hide SixesOf;
    var q, r := SixesInFours(b);
    LeftOfThrees(q, r);
    LeftOfFours(q, if r == 0 then 0 else r + 1);
  }

  lemma {:induction false} UnspacedKeeps(s: string)
    requires forall i :: 0 <= i < |s| ==> !IsSpace(s[i])
    ensures Unspaced(s) == s
  {
    if s != [] { UnspacedKeeps(s[1..]); }
  }

  lemma PaddingDrops(text: string, n: nat)
    requires |text| % 4 == (if n % 3 == 0 then 0 else n % 3 + 1)
    requires text != [] ==> text[|text| - 1] != '='
    ensures Unpadded(text + Padding(n)) == text
  {
    var s := text + Padding(n);
    if n % 3 == 0 { assert s == text; }
    if n % 3 == 1 { assert s[..|s| - 2] == text; }
    if n % 3 == 2 { assert s[|s| - 2] == text[|text| - 1] && s[..|s| - 1] == text; }
  }

  /** Every object's bytes come back from their base64. */
  lemma DecodeUndoesEncode(b: seq<Byte>)
    ensures Decode(Encode(b)) == Some(b)
  {
    hide SixesOf, Bytes, SixOf, SixChar, Sixes, Unpadded, Unspaced;
    var v := SixesOf(b);
    var text := Chars(v);
    forall i | 0 <= i < |Encode(b)| ensures !IsSpace(Encode(b)[i]) {
      if i < |v| { SixReads(v[i]); }
    }
    UnspacedKeeps(Encode(b));
    if v != [] { SixReads(v[|v| - 1]); }
    PaddedToFour(b);
    PaddingDrops(text, |b|);
    SixesUndo(v);
    BytesUndo(b);
  }
}
