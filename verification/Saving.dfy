/** What a save means (`textEdits` and `saveOf` of `client/src/core/document_pos.ts`
    and `document_save.ts`): the byte edits sent for a version leave a version
    that reads back as the text the editor shows, and exactly when they do. */
module Saving {
  import opened CodeUnits
  import opened DocumentPos
  import opened DocumentPlaces

  /** A stretch replaced: of the editor's text, of the version's text, or of its bytes. */
  datatype Edit<T> = Edit(start: nat, end: nat, insert: seq<T>)

  type Change = Edit<Unit>

  /** Edits one after the other, none past the end. */
  predicate Apart<T>(edits: seq<Edit<T>>, from: nat, length: nat) {
    from <= length
    && (edits != [] ==> from <= edits[0].start <= edits[0].end <= length
                        && Apart(edits[1..], edits[0].end, length))
  }

  function Spliced<T>(base: seq<T>, edits: seq<Edit<T>>, from: nat): seq<T>
    requires Apart(edits, from, |base|)
  {
    if edits == [] then base[from..]
    else base[from..edits[0].start] + edits[0].insert + Spliced(base, edits[1..], edits[0].end)
  }

  function Rewritten(insert: Text, lineBreak: Text): Text {
    if insert == [] then []
    else (if insert[0] == LF then lineBreak else [insert[0]]) + Rewritten(insert[1..], lineBreak)
  }

  lemma {:induction false} RewrittenPlain(insert: Text)
    ensures Rewritten(insert, [LF]) == insert
  {
    if insert != [] { RewrittenPlain(insert[1..]); }
  }

  /** One change as it is sent: the version's bytes, and the text in their place. */
  function SentEdit(enc: Encoding, t: Text, c: Change): Edit<Unit> {
    Edit(ByteOf(enc, t, c.start), ByteOf(enc, t, c.end), Rewritten(c.insert, LineBreak(t)))
  }

  function SentEdits(enc: Encoding, t: Text, changes: seq<Change>): seq<Edit<Unit>> {
    if changes == [] then [] else [SentEdit(enc, t, changes[0])] + SentEdits(enc, t, changes[1..])
  }

  lemma {:induction false} SentEditsAt(enc: Encoding, t: Text, changes: seq<Change>, i: nat)
    requires i < |changes|
    ensures |SentEdits(enc, t, changes)| == |changes|
    ensures SentEdits(enc, t, changes)[i] == SentEdit(enc, t, changes[i])
  {
    if |changes| > 1 { SentEditsAt(enc, t, changes[1..], if i == 0 then 0 else i - 1); }
  }

  method TextEdits(p: Positions, changes: seq<Change>) returns (edits: seq<Edit<Unit>>)
    requires Built(p)
    ensures edits == SentEdits(p.enc, p.text, changes)
  {
    edits := [];
    for i := 0 to |changes|
      invariant |edits| == i
      invariant forall k :: 0 <= k < i ==> edits[k] == SentEdit(p.enc, p.text, changes[k])
    {
      var c := changes[i];
      var start := BytesAt(p, c.start);
      var end := BytesAt(p, c.end);
      if p.lineBreak == [LF] { RewrittenPlain(c.insert); }
      var text := if p.lineBreak == [LF] then c.insert else Rewritten(c.insert, p.lineBreak);
      edits := edits + [Edit(start, end, text)];
    }
    forall k | 0 <= k < |changes|
      ensures |SentEdits(p.enc, p.text, changes)| == |changes|
      ensures edits[k] == SentEdits(p.enc, p.text, changes)[k]
    {
      SentEditsAt(p.enc, p.text, changes, k);
    }
  }

  /** The edits as the city splices them: each text in the version's encoding. */
  function InBytes(enc: Encoding, edits: seq<Edit<Unit>>): seq<Edit<Byte>> {
    if edits == [] then []
    else [Edit(edits[0].start, edits[0].end, Encoded(enc, edits[0].insert))] + InBytes(enc, edits[1..])
  }

  /** The changes as edits of the version's own text. */
  function InText(enc: Encoding, t: Text, changes: seq<Change>): seq<Edit<Unit>> {
    if changes == [] then []
    else
      var c := changes[0];
      [Edit(PlainWalk(enc, t, ByPosition, c.start).offset, PlainWalk(enc, t, ByPosition, c.end).offset,
            Rewritten(c.insert, LineBreak(t)))]
      + InText(enc, t, changes[1..])
  }

  ghost predicate IsStart(enc: Encoding, t: Text, position: nat) {
    exists k :: 0 <= k < |Starts(enc, t)| && Starts(enc, t)[k].position == position
  }

  /** An insert as the editor makes one: whole characters, its breaks line feeds. */
  predicate IsInsert(insert: Text) {
    WellFormed(insert) && CR !in insert
  }

  ghost predicate OnStarts(enc: Encoding, t: Text, changes: seq<Change>) {
    forall c :: c in changes ==> IsStart(enc, t, c.start) && IsStart(enc, t, c.end) && IsInsert(c.insert)
  }

  // ------------------------------------------------------------ what a start is worth

  /** A start's position, offset and byte rise together. */
  lemma StartAt(enc: Encoding, t: Text, position: nat) returns (k: nat)
    requires IsStart(enc, t, position)
    ensures k < |Starts(enc, t)| && Starts(enc, t)[k].position == position
    ensures PlainWalk(enc, t, ByPosition, position) == Starts(enc, t)[k].(line := 1)
    ensures Means(enc, t, Starts(enc, t)[k])
  {
    k :| 0 <= k < |Starts(enc, t)| && Starts(enc, t)[k].position == position;
    StartConverts(enc, t, ByPosition, k);
    StartMeans(enc, t, k);
  }

  lemma Climbs(enc: Encoding, t: Text, i: nat, j: nat)
    requires i < |Starts(enc, t)| && j < |Starts(enc, t)|
    requires Starts(enc, t)[i].position <= Starts(enc, t)[j].position
    ensures i == j || Before(Starts(enc, t)[i], Starts(enc, t)[j])
  {
    if j < i { SpotsClimb(enc, t, First(enc, t), j, i); }
    if i < j { SpotsClimb(enc, t, First(enc, t), i, j); }
  }

  lemma StartInside(enc: Encoding, t: Text, p: nat)
    requires IsStart(enc, t, p)
    ensures var a := PlainWalk(enc, t, ByPosition, p);
            a.position == p && p <= |EditorText(enc, t)|
            && First(enc, t).offset <= a.offset <= |t| && CutsClean(t, a.offset)
            && First(enc, t).byte <= a.byte <= |Encoded(enc, t)|
            && a.byte == |Encoded(enc, t[..a.offset])|
  {
    hide PlainWalk, Encoded, Folded, CutsClean, Moved, StepAt;
    var i := StartAt(enc, t, p);
    var s := Starts(enc, t);
    Climbs(enc, t, 0, i);
    EndIsStart(enc, t);
    if i < |s| - 1 { SpotsClimb(enc, t, First(enc, t), i, |s| - 1); }
  }

  lemma StartsRise(enc: Encoding, t: Text, p: nat, q: nat)
    requires IsStart(enc, t, p) && IsStart(enc, t, q) && p <= q
    ensures var a, b := PlainWalk(enc, t, ByPosition, p), PlainWalk(enc, t, ByPosition, q);
            a.offset <= b.offset && a.byte <= b.byte
  {
    var i := StartAt(enc, t, p);
    var j := StartAt(enc, t, q);
    Climbs(enc, t, i, j);
  }

  lemma BytesBetween(enc: Encoding, t: Text, o: nat, o': nat)
    requires o <= o' <= |t| && CutsClean(t, o) && CutsClean(t, o')
    ensures var x, y := |Encoded(enc, t[..o])|, |Encoded(enc, t[..o'])|;
            x <= y <= |Encoded(enc, t)| && Encoded(enc, t)[x..y] == Encoded(enc, t[o..o'])
  {
    ByteSeam(enc, t, 0, o, o');
    ByteSeam(enc, t, 0, o', |t|);
    assert t[0..o] == t[..o] && t[0..o'] == t[..o'] && t[0..|t|] == t;
  }

  lemma FoldBetween(enc: Encoding, t: Text, i: nat, j: nat)
    requires i < |Starts(enc, t)| && j < |Starts(enc, t)|
    requires Starts(enc, t)[i].position <= Starts(enc, t)[j].position
    ensures var a, b := Starts(enc, t)[i], Starts(enc, t)[j];
            b.position <= |EditorText(enc, t)| && a.offset <= b.offset <= |t|
            && EditorText(enc, t)[a.position..b.position] == Folded(t[a.offset..b.offset])
  {
    var a, b, f := Starts(enc, t)[i], Starts(enc, t)[j], First(enc, t).offset;
    StartCutsEditor(enc, t, i);
    StartCutsEditor(enc, t, j);
    StartMeans(enc, t, i);
    Climbs(enc, t, i, j);
    FoldSeam(t, f, a.offset, b.offset);
    assert EditorText(enc, t)[a.position..b.position] == EditorText(enc, t)[..b.position][a.position..];
  }

  /** Between two starts, the editor's stretch is the text's, folded, and the
      bytes are the text's, encoded. */
  lemma StretchBetween(enc: Encoding, t: Text, p: nat, q: nat)
    requires IsStart(enc, t, p) && IsStart(enc, t, q) && p <= q
    ensures var a, b := PlainWalk(enc, t, ByPosition, p), PlainWalk(enc, t, ByPosition, q);
            a.offset <= b.offset <= |t| && a.byte <= b.byte <= |Encoded(enc, t)| && q <= |EditorText(enc, t)|
            && EditorText(enc, t)[p..q] == Folded(t[a.offset..b.offset])
            && Encoded(enc, t)[a.byte..b.byte] == Encoded(enc, t[a.offset..b.offset])
  {
    var i := StartAt(enc, t, p);
    var j := StartAt(enc, t, q);
    FoldBetween(enc, t, i, j);
    BytesBetween(enc, t, Starts(enc, t)[i].offset, Starts(enc, t)[j].offset);
  }

  lemma TailFrom(enc: Encoding, t: Text, p: nat)
    requires IsStart(enc, t, p)
    ensures var a := PlainWalk(enc, t, ByPosition, p);
            a.offset <= |t| && a.byte <= |Encoded(enc, t)| && p <= |EditorText(enc, t)|
            && EditorText(enc, t)[p..] == Folded(t[a.offset..])
            && Encoded(enc, t)[a.byte..] == Encoded(enc, t[a.offset..])
  {
    var i := StartAt(enc, t, p);
    var o := Starts(enc, t)[i].offset;
    StartCutsEditor(enc, t, i);
    BytesTail(enc, t, o);
  }

  lemma BytesTail(enc: Encoding, t: Text, o: nat)
    requires o <= |t| && CutsClean(t, o)
    ensures |Encoded(enc, t[..o])| <= |Encoded(enc, t)|
    ensures Encoded(enc, t)[|Encoded(enc, t[..o])|..] == Encoded(enc, t[o..])
  {
    ByteSeam(enc, t, 0, o, |t|);
    assert t[0..o] == t[..o] && t[o..|t|] == t[o..] && t[0..|t|] == t;
  }

  // ------------------------------------------------------------ the bytes are the text's

  ghost predicate Admissible(enc: Encoding, t: Text, changes: seq<Change>, from: nat) {
    Apart(changes, from, |EditorText(enc, t)|) && OnStarts(enc, t, changes) && IsStart(enc, t, from)
  }

  lemma AdmissibleTail(enc: Encoding, t: Text, changes: seq<Change>, from: nat)
    requires Admissible(enc, t, changes, from) && changes != []
    ensures IsStart(enc, t, changes[0].start) && IsStart(enc, t, changes[0].end) && IsInsert(changes[0].insert)
    ensures from <= changes[0].start <= changes[0].end
    ensures Admissible(enc, t, changes[1..], changes[0].end)
  {
    assert changes[0] in changes;
  }

  function OffsetOf(enc: Encoding, t: Text, position: nat): nat {
    PlainWalk(enc, t, ByPosition, position).offset
  }

  function ByteEdits(enc: Encoding, t: Text, changes: seq<Change>): seq<Edit<Byte>> {
    InBytes(enc, SentEdits(enc, t, changes))
  }

  lemma ByteEditsStep(enc: Encoding, t: Text, changes: seq<Change>)
    requires changes != []
    ensures ByteEdits(enc, t, changes) ==
            [Edit(ByteOf(enc, t, changes[0].start), ByteOf(enc, t, changes[0].end),
                  Encoded(enc, Rewritten(changes[0].insert, LineBreak(t))))]
            + ByteEdits(enc, t, changes[1..])
  {
    assert SentEdits(enc, t, changes)[1..] == SentEdits(enc, t, changes[1..]);
  }

  lemma {:induction false} TextApart(enc: Encoding, t: Text, changes: seq<Change>, from: nat)
    requires Admissible(enc, t, changes, from)
    ensures Apart(InText(enc, t, changes), OffsetOf(enc, t, from), |t|)
    decreases changes
  {
    StartInside(enc, t, from);
    if changes != [] {
      var c := changes[0];
      AdmissibleTail(enc, t, changes, from);
      StartsRise(enc, t, from, c.start);
      StartsRise(enc, t, c.start, c.end);
      StartInside(enc, t, c.end);
      TextApart(enc, t, changes[1..], c.end);
      assert InText(enc, t, changes)[1..] == InText(enc, t, changes[1..]);
    }
  }

  lemma {:induction false} BytesApart(enc: Encoding, t: Text, changes: seq<Change>, from: nat)
    requires Admissible(enc, t, changes, from)
    ensures Apart(ByteEdits(enc, t, changes), ByteOf(enc, t, from), |Encoded(enc, t)|)
    decreases changes
  {
    StartInside(enc, t, from);
    if changes != [] {
      var c := changes[0];
      AdmissibleTail(enc, t, changes, from);
      StartsRise(enc, t, from, c.start);
      StartsRise(enc, t, c.start, c.end);
      StartInside(enc, t, c.end);
      BytesApart(enc, t, changes[1..], c.end);
      ByteEditsStep(enc, t, changes);
    }
  }

  /** The version's text once the changes are made in it. */
  function NewText(enc: Encoding, t: Text, changes: seq<Change>, from: nat): Text
    requires Apart(InText(enc, t, changes), OffsetOf(enc, t, from), |t|)
  {
    Spliced(t, InText(enc, t, changes), OffsetOf(enc, t, from))
  }

  lemma NewTextStep(enc: Encoding, t: Text, changes: seq<Change>, from: nat)
    requires Admissible(enc, t, changes, from) && changes != []
    ensures Admissible(enc, t, changes[1..], changes[0].end)
    ensures Apart(InText(enc, t, changes), OffsetOf(enc, t, from), |t|)
    ensures Apart(InText(enc, t, changes[1..]), OffsetOf(enc, t, changes[0].end), |t|)
    ensures OffsetOf(enc, t, from) <= OffsetOf(enc, t, changes[0].start) <= OffsetOf(enc, t, changes[0].end) <= |t|
    ensures NewText(enc, t, changes, from) ==
            t[OffsetOf(enc, t, from)..OffsetOf(enc, t, changes[0].start)]
            + Rewritten(changes[0].insert, LineBreak(t)) + NewText(enc, t, changes[1..], changes[0].end)
  {
    AdmissibleTail(enc, t, changes, from);
    TextApart(enc, t, changes, from);
    TextApart(enc, t, changes[1..], changes[0].end);
    assert InText(enc, t, changes)[1..] == InText(enc, t, changes[1..]);
  }

  lemma NewBytesStep(enc: Encoding, t: Text, changes: seq<Change>, from: nat)
    requires Admissible(enc, t, changes, from) && changes != []
    ensures Admissible(enc, t, changes[1..], changes[0].end)
    ensures Apart(ByteEdits(enc, t, changes), ByteOf(enc, t, from), |Encoded(enc, t)|)
    ensures Apart(ByteEdits(enc, t, changes[1..]), ByteOf(enc, t, changes[0].end), |Encoded(enc, t)|)
    ensures ByteOf(enc, t, from) <= ByteOf(enc, t, changes[0].start) <= |Encoded(enc, t)|
    ensures Spliced(Encoded(enc, t), ByteEdits(enc, t, changes), ByteOf(enc, t, from)) ==
            Encoded(enc, t)[ByteOf(enc, t, from)..ByteOf(enc, t, changes[0].start)]
            + Encoded(enc, Rewritten(changes[0].insert, LineBreak(t)))
            + Spliced(Encoded(enc, t), ByteEdits(enc, t, changes[1..]), ByteOf(enc, t, changes[0].end))
  {
    AdmissibleTail(enc, t, changes, from);
    BytesApart(enc, t, changes, from);
    BytesApart(enc, t, changes[1..], changes[0].end);
    ByteEditsStep(enc, t, changes);
  }

  predicate IsBreak(b: Text) { b == [LF] || b == [CR] || b == [CR, LF] }

  lemma {:induction false} RewrittenWellFormed(insert: Text, lineBreak: Text)
    requires WellFormed(insert) && IsBreak(lineBreak)
    ensures WellFormed(Rewritten(insert, lineBreak))
    decreases |insert|
  {
    if insert != [] {
      if Paired(insert, 0) {
        RewrittenWellFormed(insert[2..], lineBreak);
        var tail := insert[1..];
        assert tail[0] == insert[1] && tail[0] != LF && tail[1..] == insert[2..];
        assert Rewritten(tail, lineBreak) == [insert[1]] + Rewritten(insert[2..], lineBreak);
        var r := Rewritten(insert, lineBreak);
        assert r == [insert[0]] + ([insert[1]] + Rewritten(insert[2..], lineBreak));
        assert r[2..] == Rewritten(insert[2..], lineBreak);
      } else {
        RewrittenWellFormed(insert[1..], lineBreak);
        var head := if insert[0] == LF then lineBreak else [insert[0]];
        BreakWellFormed(head);
        WellFormedJoins(head, Rewritten(insert[1..], lineBreak));
      }
    }
  }

  lemma BreakWellFormed(head: Text)
    requires IsBreak(head) || (|head| == 1 && !IsLead(head[0]) && !IsTrail(head[0]))
    ensures WellFormed(head)
  {
    if |head| == 2 {
      assert head[1..] == [LF] && [LF][1..] == [];
    } else {
      assert head[1..] == [];
    }
  }

  lemma EncodedJoinsWell(enc: Encoding, a: Text, b: Text)
    requires WellFormed(a) && WellFormed(b)
    ensures WellFormed(a + b) && Encoded(enc, a + b) == Encoded(enc, a) + Encoded(enc, b)
  {
    WellFormedJoins(a, b);
    if a != [] { WellFormedEnds(a); }
    EncodedJoins(enc, a, b);
  }

  lemma WellFormedStretch(t: Text, i: nat, j: nat)
    requires WellFormed(t) && i <= j <= |t| && CutsClean(t, i) && CutsClean(t, j)
    ensures WellFormed(t[i..j]) && WellFormed(t[i..])
  {
    WellFormedCut(t, i);
    assert j > i ==> Paired(t[i..], j - i - 1) == Paired(t, j - 1);
    WellFormedCut(t[i..], j - i);
    assert t[i..][..j - i] == t[i..j];
  }

  lemma {:induction false} LineBreakIsBreak(t: Text)
    ensures IsBreak(LineBreak(t))
  {
    if t != [] { LineBreakIsBreak(t[1..]); }
  }

  /** Splicing the bytes is encoding the spliced text, and no character of it is cut. */
  lemma {:induction false} BytesAreTheTexts(enc: Encoding, t: Text, changes: seq<Change>, from: nat)
    requires Admissible(enc, t, changes, from) && WellFormed(t)
    ensures Apart(InText(enc, t, changes), OffsetOf(enc, t, from), |t|)
    ensures Apart(ByteEdits(enc, t, changes), ByteOf(enc, t, from), |Encoded(enc, t)|)
    ensures WellFormed(NewText(enc, t, changes, from))
    ensures Spliced(Encoded(enc, t), ByteEdits(enc, t, changes), ByteOf(enc, t, from))
         == Encoded(enc, NewText(enc, t, changes, from))
    decreases changes
  {
    TextApart(enc, t, changes, from);
    BytesApart(enc, t, changes, from);
    StartInside(enc, t, from);
    var o := OffsetOf(enc, t, from);
    if changes == [] {
      TailFrom(enc, t, from);
      WellFormedStretch(t, o, o);
    } else {
      var c, rest := changes[0], changes[1..];
      AdmissibleTail(enc, t, changes, from);
      BytesAreTheTexts(enc, t, rest, c.end);
      NewTextStep(enc, t, changes, from);
      NewBytesStep(enc, t, changes, from);
      StretchBetween(enc, t, from, c.start);
      StartInside(enc, t, c.start);
      PiecesEncode(enc, t, o, OffsetOf(enc, t, c.start), c.insert, NewText(enc, t, rest, c.end));
    }
  }

  lemma PiecesEncode(enc: Encoding, t: Text, o: nat, o': nat, insert: Text, rest: Text)
    requires WellFormed(t) && o <= o' <= |t| && CutsClean(t, o) && CutsClean(t, o')
    requires WellFormed(insert) && WellFormed(rest)
    ensures var whole := t[o..o'] + Rewritten(insert, LineBreak(t)) + rest;
            WellFormed(whole)
            && Encoded(enc, whole) ==
               Encoded(enc, t[o..o']) + Encoded(enc, Rewritten(insert, LineBreak(t))) + Encoded(enc, rest)
  {
    LineBreakIsBreak(t);
    RewrittenWellFormed(insert, LineBreak(t));
    WellFormedStretch(t, o, o');
    EncodedJoinsWell(enc, t[o..o'], Rewritten(insert, LineBreak(t)));
    EncodedJoinsWell(enc, t[o..o'] + Rewritten(insert, LineBreak(t)), rest);
  }
}
