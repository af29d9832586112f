/** What the starts of `DocumentPos` mean in each coordinate, and the places a
    person counts: `place` and `utf16At` of `client/src/core/document_pos.ts`. */
module DocumentPlaces {
  import opened CodeUnits
  import opened DocumentPos
  import opened Splitting

  function Breaks(t: Text): nat { multiset(t)[LF] }

  /** A cut no character straddles: neither a pair nor a `\r\n`. */
  predicate CutsClean(t: Text, i: nat) {
    i <= |t| && !SplitsPair(t, i) && !SplitsBreak(t, i)
  }

  lemma FoldSeam(t: Text, i: nat, j: nat, k: nat)
    requires i <= j <= k <= |t| && CutsClean(t, j)
    ensures Folded(t[i..k]) == Folded(t[i..j]) + Folded(t[j..k])
  {
    var a, b := t[i..j], t[j..k];
    assert t[i..k] == a + b;
    if a != [] && b != [] {
      assert a[|a| - 1] == t[j - 1] && b[0] == t[j];
    }
    FoldedJoins(a, b);
  }

  lemma ByteSeam(enc: Encoding, t: Text, i: nat, j: nat, k: nat)
    requires i <= j <= k <= |t| && CutsClean(t, j)
    ensures Encoded(enc, t[i..k]) == Encoded(enc, t[i..j]) + Encoded(enc, t[j..k])
  {
    var a, b := t[i..j], t[j..k];
    assert t[i..k] == a + b;
    if a != [] && b != [] {
      assert a[|a| - 1] == t[j - 1] && b[0] == t[j];
    }
    EncodedJoins(enc, a, b);
  }

  /** One character of the text, in every coordinate. */
  lemma BreakAlone(enc: Encoding)
    ensures |Encoded(enc, [CR, LF])| == 2 * Width(enc, CR) && Folded([CR, LF]) == [LF] && Breaks([LF]) == 1
  {
    var c := [CR, LF];
    assert Encoded(enc, c) == CharBytes(enc, c, 0) + Encoded(enc, c[1..]);
    assert c[1..] == [LF];
    assert Encoded(enc, [LF]) == CharBytes(enc, [LF], 0) + Encoded(enc, []);
    assert Folded(c) == [LF] + Folded([]);
  }

  lemma OneCharacter(enc: Encoding, t: Text, i: nat)
    requires i < |t|
    ensures var next := StepAt(enc, t, i);
            |Encoded(enc, t[i..i + next.units])| == next.bytes
            && |Folded(t[i..i + next.units])| == next.editor
            && Breaks(Folded(t[i..i + next.units])) == if t[i] == CR || t[i] == LF then 1 else 0
  {
    hide Encoded, Folded;
    var next := StepAt(enc, t, i);
    if t[i] == CR && i + 1 < |t| && t[i + 1] == LF {
      assert t[i..i + next.units] == [CR, LF];
      BreakAlone(enc);
    } else if next.units == 2 {
      PairAlone(enc, t, i);
    } else {
      UnitAlone(enc, t, i);
    }
  }

  lemma PairAlone(enc: Encoding, t: Text, i: nat)
    requires Paired(t, i)
    ensures |Encoded(enc, t[i..i + 2])| == Width(enc, CodePointAt(t, i))
    ensures Folded(t[i..i + 2]) == t[i..i + 2] && Breaks(t[i..i + 2]) == 0
  {
    var c := t[i..i + 2];
    assert c == [t[i], t[i + 1]] && CodePointAt(c, 0) == CodePointAt(t, i);
    assert Encoded(enc, c) == CharBytes(enc, c, 0) + Encoded(enc, c[2..]);
    assert c[1..] == [t[i + 1]] && Folded(c[1..]) == [t[i + 1]] + Folded([]);
  }

  lemma UnitAlone(enc: Encoding, t: Text, i: nat)
    requires i < |t| && !Paired(t, i)
    ensures |Encoded(enc, t[i..i + 1])| == Width(enc, CodePointAt(t, i))
    ensures Folded(t[i..i + 1]) == [if t[i] == CR then LF else t[i]]
  {
    var c := t[i..i + 1];
    assert c == [t[i]] && CodePointAt(c, 0) == CodePointAt(t, i);
    assert Encoded(enc, c) == CharBytes(enc, c, 0) + Encoded(enc, []);
    assert Folded(c) == [if t[i] == CR then LF else t[i]] + Folded([]);
  }

  /** What a start's four numbers say: the bytes before it, the folded text
      before it, and the line breaks in that. */
  ghost predicate Means(enc: Encoding, t: Text, at: Checkpoint) {
    var f := First(enc, t).offset;
    && f <= at.offset <= |t| && CutsClean(t, at.offset)
    && at.byte == |Encoded(enc, t[..at.offset])|
    && at.position == |Folded(t[f..at.offset])|
    && at.line == 1 + Breaks(Folded(t[f..at.offset]))
  }

  lemma FirstMeans(enc: Encoding, t: Text)
    ensures Means(enc, t, First(enc, t))
  {
    if Marked(enc, t) {
      UnitAlone(enc, t, 0);
      assert t[..1] == t[0..1] && t[1..1] == [];
    } else {
      assert t[..0] == [] && t[0..0] == [];
    }
  }

  lemma MovedCutsClean(enc: Encoding, t: Text, at: Checkpoint)
    requires at.offset < |t| && CutsClean(t, at.offset)
    ensures CutsClean(t, Moved(enc, t, at).offset)
  {}

  lemma BytesMove(enc: Encoding, t: Text, o: nat)
    requires o < |t| && CutsClean(t, o)
    ensures var next := StepAt(enc, t, o);
            |Encoded(enc, t[..o + next.units])| == |Encoded(enc, t[..o])| + next.bytes
  {
    var o' := o + StepAt(enc, t, o).units;
    assert o <= o' <= |t|;
    hide *;
    OneCharacter(enc, t, o);
    ByteSeam(enc, t, 0, o, o');
    assert t[0..o] == t[..o] && t[0..o'] == t[..o'];
  }

  lemma BreaksJoined(a: Text, b: Text, c: Text)
    requires c == a + b
    ensures |c| == |a| + |b| && Breaks(c) == Breaks(a) + Breaks(b)
  {}

  lemma FoldMoves(t: Text, f: nat, o: nat, n: nat)
    requires f <= o <= n <= |t| && CutsClean(t, o)
    ensures |Folded(t[f..n])| == |Folded(t[f..o])| + |Folded(t[o..n])|
    ensures Breaks(Folded(t[f..n])) == Breaks(Folded(t[f..o])) + Breaks(Folded(t[o..n]))
  {
    FoldSeam(t, f, o, n);
    BreaksJoined(Folded(t[f..o]), Folded(t[o..n]), Folded(t[f..n]));
  }

  lemma MovedMeans(enc: Encoding, t: Text, at: Checkpoint)
    requires Means(enc, t, at) && at.offset < |t|
    ensures Means(enc, t, Moved(enc, t, at))
  {
    hide Encoded, Folded, Breaks, CutsClean, First;
    var next := StepAt(enc, t, at.offset);
    MovedCutsClean(enc, t, at);
    BytesMove(enc, t, at.offset);
    OneCharacter(enc, t, at.offset);
    FoldMoves(t, First(enc, t).offset, at.offset, at.offset + next.units);
  }

  lemma {:induction false} StartMeans(enc: Encoding, t: Text, k: nat)
    requires k < |Starts(enc, t)|
    ensures Means(enc, t, Starts(enc, t)[k])
  {
    if k == 0 {
      FirstMeans(enc, t);
    } else {
      StartMeans(enc, t, k - 1);
      SpotsChain(enc, t, First(enc, t), k - 1);
      MovedMeans(enc, t, Starts(enc, t)[k - 1]);
    }
  }

  /** The folded text cut at a start is the text cut there, folded. */
  lemma StartCutsEditor(enc: Encoding, t: Text, k: nat)
    requires k < |Starts(enc, t)|
    ensures var at := Starts(enc, t)[k];
            at.position <= |EditorText(enc, t)|
            && at.offset <= |t| && First(enc, t).offset <= at.offset
            && EditorText(enc, t)[..at.position] == Folded(t[First(enc, t).offset..at.offset])
            && EditorText(enc, t)[at.position..] == Folded(t[at.offset..])
            && at.line == 1 + Breaks(EditorText(enc, t)[..at.position])
  {
    StartMeans(enc, t, k);
    var f, at := First(enc, t).offset, Starts(enc, t)[k];
    assert t[f..|t|] == t[f..] && t[at.offset..|t|] == t[at.offset..];
    hide First, Starts, Folded, Breaks, CutsClean, Encoded;
    FoldSeam(t, f, at.offset, |t|);
  }

  /** The text's end is a start, so the editor's length is one. */
  lemma EndIsStart(enc: Encoding, t: Text)
    ensures var s := Starts(enc, t);
            s[|s| - 1].offset == |t| && s[|s| - 1].position == |EditorText(enc, t)|
            && s[|s| - 1].byte == |Encoded(enc, t)|
  {
    var s := Starts(enc, t);
    SpotsChain(enc, t, First(enc, t), |s| - 1);
    hide Starts, EditorText, Encoded, CutsClean, First, Breaks;
    StartCutsEditor(enc, t, |s| - 1);
    StartMeans(enc, t, |s| - 1);
    assert t[..|t|] == t && t[|t|..] == [];
  }

  // ------------------------------------------------------------ lines and columns

  datatype Place = Place(line: nat, column: nat)

  /** `indexOf` from a position on. */
  function IndexFrom(t: Text, u: Unit, from: nat): (i: int)
    ensures i == -1 || (from <= i < |t| && t[i] == u && u !in t[from..i])
    ensures i == -1 ==> from >= |t| || u !in t[from..]
  {
    if from >= |t| then -1
    else
      var i := IndexOf(t[from..], u);
      assert i >= 0 ==> t[from..][..i] == t[from..from + i];
      if i < 0 then -1 else from + i
  }

  /** `lastIndexOf` up to a position, which reads as zero below zero. */
  function LastUpTo(t: Text, u: Unit, bound: int): int {
    var b := if bound < 0 then 0 else bound;
    LastIndexOf(if b < |t| then t[..b + 1] else t, u)
  }

  /** Characters outside the basic plane. */
  function Astral(t: Text): nat
    decreases |t|
  {
    if t == [] then 0 else if Paired(t, 0) then 1 + Astral(t[2..]) else Astral(t[1..])
  }

  function Characters(t: Text): nat
    decreases |t|
  {
    if t == [] then 0 else 1 + Characters(t[CharUnits(t, 0)..])
  }

  lemma {:induction false} AstralCounts(t: Text)
    ensures |t| == Characters(t) + Astral(t)
    decreases |t|
  {
    if t != [] { AstralCounts(t[CharUnits(t, 0)..]); }
  }

  /** What follows the last line break of a text. */
  function LastLine(t: Text): Text {
    if t == [] || t[|t| - 1] == LF then [] else LastLine(t[..|t| - 1]) + [t[|t| - 1]]
  }

  function LineHead(t: Text, at: nat): Text
    requires at <= |t|
  {
    var i := LastUpTo(t, LF, at - 1);
    if i + 1 < at then t[i + 1..at] else []
  }

  lemma LastIndexGrows(front: Text, last: Unit)
    ensures LastIndexOf(front + [last], LF) == if last == LF then |front| else LastIndexOf(front, LF)
  {
    assert (front + [last])[..|front|] == front;
  }

  lemma {:induction false} LastLineIs(t: Text)
    ensures LastLine(t) == t[LastIndexOf(t, LF) + 1..]
    decreases |t|
  {
    if t != [] {
      hide LastIndexOf;
      var front, last := t[..|t| - 1], t[|t| - 1];
      var i := LastIndexOf(front, LF);
      assert t == front + [last];
      LastIndexGrows(front, last);
      if last != LF {
        LastLineIs(front);
        assert t[i + 1..] == front[i + 1..] + [last];
      }
    }
  }

  lemma LastLineFound(t: Text, at: nat)
    requires at <= |t|
    ensures LineHead(t, at) == LastLine(t[..at])
  {
    if at > 0 {
      LastLineIs(t[..at]);
      var i := LastIndexOf(t[..at], LF);
      assert (if at - 1 < |t| then t[..at] else t) == t[..at];
      assert t[..at][i + 1..] == t[i + 1..at];
    }
  }

  lemma NoBreaksBetween(t: Text, from: nat, to: nat)
    requires from <= to <= |t| && LF !in t[from..to]
    ensures Breaks(t[..to]) == Breaks(t[..from])
  {
    assert t[..to] == t[..from] + t[from..to];
  }

  lemma BreakFound(t: Text, from: nat, at: nat)
    requires from <= at < |t| && t[at] == LF && LF !in t[from..at]
    ensures Breaks(t[..at + 1]) == Breaks(t[..from]) + 1
  {
    NoBreaksBetween(t, from, at);
    assert t[..at + 1] == t[..at] + [LF];
  }

  lemma KeptLine(p: Positions, at: nat)
    requires Built(p) && at < |p.kept|
    ensures p.kept[at].position <= |p.editor|
    ensures p.kept[at].line == 1 + Breaks(p.editor[..p.kept[at].position])
  {
    var k := KeptIsStart(Starts(p.enc, p.text), p.kept, at);
    StartCutsEditor(p.enc, p.text, k);
  }

  lemma KeptFromZero(p: Positions)
    requires Built(p)
    ensures p.kept[0].position == 0
  {}

  /** The lines passed between a checkpoint and a position, one break at a time. */
  method LineFrom(editor: Text, from: nat, began: nat, at: nat) returns (line: nat)
    requires from <= at <= |editor| && began == 1 + Breaks(editor[..from])
    ensures line == 1 + Breaks(editor[..at])
  {
    hide IndexFrom, Breaks;
    line := began;
    var index := IndexFrom(editor, LF, from);
    ghost var searched := from;
    while index >= 0 && index < at
      invariant searched <= at && index == IndexFrom(editor, LF, searched)
      invariant line == 1 + Breaks(editor[..searched])
      decreases at - searched
    {
      BreakFound(editor, searched, index);
      line := line + 1;
      searched := index + 1;
      index := IndexFrom(editor, LF, index + 1);
    }
    NoneBefore(editor, searched, at);
    NoBreaksBetween(editor, searched, at);
  }

  /** The line and column of an editor position, clamped into the text. */
  method PlaceOf(p: Positions, target: int) returns (place: Place)
    requires Built(p)
    ensures var at := if target < 0 then 0 else if target > |p.editor| then |p.editor| else target;
            place.line == 1 + Breaks(p.editor[..at])
            && place.column == 1 + Characters(LastLine(p.editor[..at]))
  {
    var at := if target < 0 then 0 else if target > |p.editor| then |p.editor| else target;
    var admits := (each: Checkpoint) => each.position <= at;
    var from := Nearest(p.kept, admits);
    ghost var kept :| 0 <= kept < |p.kept| && from == p.kept[kept] && LastAdmitted(p.kept, admits, kept);
    KeptLine(p, kept);
    KeptFromZero(p);
    var line := LineFrom(p.editor, from.position, from.line, at);
    LastLineFound(p.editor, at);
    var head := LineHead(p.editor, at);
    AstralCounts(head);
    place := Place(line, |head| - Astral(head) + 1);
  }

  lemma NoneBefore(t: Text, from: nat, at: nat)
    requires from <= at <= |t|
    requires var i := IndexFrom(t, LF, from); i == -1 || i >= at
    ensures LF !in t[from..at]
  {
    var i := IndexFrom(t, LF, from);
    if i == -1 {
      if from < |t| {
        forall k | from <= k < at ensures t[k] != LF { assert t[from..][k - from] == t[k]; }
      }
    } else {
      forall k | from <= k < at ensures t[k] != LF { assert t[from..i][k - from] == t[k]; }
    }
  }

  // ------------------------------------------------------------ a reply's bytes

  /** Where `utf16At` stops: the end of the longest run of whole characters that
      takes at most `byte` bytes. */
  ghost predicate StopsAt(text: Text, byte: int, at: nat) {
    && at <= |text| && !SplitsPair(text, at)
    && (at > 0 ==> |Encoded(Utf8, text[..at])| <= byte)
    && (at < |text| ==> byte < |Encoded(Utf8, text[..at + CharUnits(text, at)])|)
  }

  lemma CharacterSteps(text: Text, at: nat)
    requires at < |text| && !SplitsPair(text, at)
    ensures var next := at + CharUnits(text, at);
            !SplitsPair(text, next)
            && |Encoded(Utf8, text[..next])| == |Encoded(Utf8, text[..at])| + Utf8Width(CodePointAt(text, at))
  {
    var next := at + CharUnits(text, at);
    assert text[..next] == text[..at] + text[at..next];
    if at > 0 { assert text[..at][|text[..at]| - 1] == text[at - 1]; }
    EncodedJoins(Utf8, text[..at], text[at..next]);
    if Paired(text, at) { PairAlone(Utf8, text, at); } else { UnitAlone(Utf8, text, at); }
  }

  /** The walk of `utf16At`, from a character's start and the bytes before it. */
  function Utf16Stop(text: Text, from: nat, walked: nat, byte: int): (at: nat)
    requires from <= |text|
    ensures from <= at <= |text|
    decreases |text| - from
  {
    if from == |text| then from
    else
      var next := walked + Utf8Width(CodePointAt(text, from));
      if next > byte then from else Utf16Stop(text, from + CharUnits(text, from), next, byte)
  }

  method Utf16At(text: Text, byte: int) returns (at: nat)
    ensures at == Utf16Stop(text, 0, 0, byte)
  {
    at := 0;
    var walked: nat := 0;
    while at < |text|
      invariant at <= |text|
      invariant Utf16Stop(text, at, walked, byte) == Utf16Stop(text, 0, 0, byte)
      decreases |text| - at
    {
      walked := walked + Utf8Width(CodePointAt(text, at));
      if walked > byte { return; }
      at := at + CharUnits(text, at);
    }
  }

  lemma {:induction false} StopStops(text: Text, from: nat, byte: int)
    requires from <= |text| && !SplitsPair(text, from)
    requires from > 0 ==> |Encoded(Utf8, text[..from])| <= byte
    ensures StopsAt(text, byte, Utf16Stop(text, from, |Encoded(Utf8, text[..from])|, byte))
    decreases |text| - from
  {
    if from < |text| {
      CharacterSteps(text, from);
      var next := from + CharUnits(text, from);
      if |Encoded(Utf8, text[..next])| <= byte { StopStops(text, next, byte); }
    }
  }

  /** The offset a byte falls in, whatever the text and the byte: never inside a
      character, never past the byte, and no whole character short of it. */
  lemma Utf16AtStops(text: Text, byte: int)
    ensures StopsAt(text, byte, Utf16Stop(text, 0, 0, byte))
  {
    assert text[..0] == [];
    StopStops(text, 0, byte);
  }
}
