/** The saved version reads back as what the editor shows: for every list of
    changes an editor can make, exactly when no lone carriage return of the
    version can come to stand before a lone line feed. */
module SavingShown {
  import opened CodeUnits
  import opened DocumentPos
  import opened DocumentPlaces
  import opened Saving

  predicate LoneCR(t: Text, i: nat) {
    i < |t| && t[i] == CR && !(i + 1 < |t| && t[i + 1] == LF)
  }

  predicate LoneLF(t: Text, i: nat) {
    i < |t| && t[i] == LF && !(i > 0 && t[i - 1] == CR)
  }

  /** The version's own line breaks, judged before anything is typed: a lone
      carriage return neither meets new line feeds nor stands before a lone one. */
  predicate SafeBreaks(t: Text) {
    forall i :: 0 <= i < |t| && LoneCR(t, i) ==>
      LineBreak(t) != [LF] && forall j :: i < j < |t| ==> !LoneLF(t, j)
  }

  predicate BeginsLF(t: Text) { t != [] && t[0] == LF }

  predicate EndsCR(t: Text) { t != [] && t[|t| - 1] == CR }

  // ------------------------------------------------------------ inserts

  lemma {:induction false} RewrittenShape(insert: Text, lineBreak: Text)
    requires CR !in insert && IsBreak(lineBreak)
    ensures BeginsLF(Rewritten(insert, lineBreak)) ==> lineBreak == [LF]
    ensures EndsCR(Rewritten(insert, lineBreak)) ==> lineBreak == [CR]
    ensures Rewritten(insert, lineBreak) == [] <==> insert == []
  {
    if insert != [] {
      assert forall u :: u in insert[1..] ==> u in insert;
      RewrittenShape(insert[1..], lineBreak);
      var head, tail := if insert[0] == LF then lineBreak else [insert[0]], Rewritten(insert[1..], lineBreak);
      assert insert[0] != CR;
      assert Rewritten(insert, lineBreak) == head + tail;
      assert tail == [] ==> head + tail == head;
      assert tail != [] ==> (head + tail)[|head + tail| - 1] == tail[|tail| - 1];
    }
  }

  /** An insert, its breaks written the version's way, folds back to itself. */
  lemma {:induction false} RewrittenFolds(insert: Text, lineBreak: Text)
    requires CR !in insert && IsBreak(lineBreak)
    ensures Folded(Rewritten(insert, lineBreak)) == insert
  {
    if insert != [] {
      assert forall u :: u in insert[1..] ==> u in insert;
      var head, tail := if insert[0] == LF then lineBreak else [insert[0]], Rewritten(insert[1..], lineBreak);
      RewrittenFolds(insert[1..], lineBreak);
      RewrittenShape(insert[1..], lineBreak);
      assert insert[0] != CR;
      FoldedJoins(head, tail);
      HeadFolds(insert[0], head);
      assert insert == [insert[0]] + insert[1..];
    }
  }

  lemma HeadFolds(u: Unit, head: Text)
    requires u != CR && (if u == LF then IsBreak(head) else head == [u])
    ensures Folded(head) == [u]
  {
    if |head| == 2 {
      assert head[2..] == [];
    } else {
      assert head[1..] == [];
    }
  }

  // ------------------------------------------------------------ seams

  lemma {:induction false} FirstBreak(t: Text, j: nat)
    requires j < |t| && (t[j] == LF || t[j] == CR) && LineBreak(t) == [CR]
    ensures exists i :: 0 <= i <= j && LoneCR(t, i)
  {
    if t[0] == CR {
      assert LoneCR(t, 0);
    } else {
      FirstBreak(t[1..], j - 1);
      var i :| 0 <= i <= j - 1 && LoneCR(t[1..], i);
      assert LoneCR(t, i + 1);
    }
  }

  /** What the rest of a spliced text can begin with. */
  lemma {:induction false} RestBegins(enc: Encoding, t: Text, changes: seq<Change>, from: nat)
    requires Admissible(enc, t, changes, from)
    requires Apart(InText(enc, t, changes), OffsetOf(enc, t, from), |t|)
    requires BeginsLF(NewText(enc, t, changes, from))
    ensures LineBreak(t) == [LF] || exists j :: OffsetOf(enc, t, from) <= j < |t| && LoneLF(t, j)
    decreases changes
  {
    hide PlainWalk, Rewritten, LineBreak, First, Encoded, Folded;
    var o := OffsetOf(enc, t, from);
    StartInside(enc, t, from);
    if changes == [] {
      assert LoneLF(t, o);
    } else {
      var c := changes[0];
      AdmissibleTail(enc, t, changes, from);
      NewTextStep(enc, t, changes, from);
      var kept := t[o..OffsetOf(enc, t, c.start)];
      LineBreakIsBreak(t);
      RewrittenShape(c.insert, LineBreak(t));
      if kept != [] {
        assert LoneLF(t, o);
      } else if c.insert == [] {
        RestBegins(enc, t, changes[1..], c.end);
      }
    }
  }

  /** A lone carriage return of a safe version is never followed by a rest that
      begins with a line feed. */
  lemma NoSeamAfter(enc: Encoding, t: Text, changes: seq<Change>, from: nat, i: nat)
    requires Admissible(enc, t, changes, from) && SafeBreaks(t)
    requires Apart(InText(enc, t, changes), OffsetOf(enc, t, from), |t|)
    requires LoneCR(t, i) && i < OffsetOf(enc, t, from)
    ensures !BeginsLF(NewText(enc, t, changes, from))
  {
    if BeginsLF(NewText(enc, t, changes, from)) {
      RestBegins(enc, t, changes, from);
    }
  }

  /** A lone line feed in a version whose first break is a carriage return
      stands after it. */
  lemma FeedAfterReturn(t: Text, j: nat)
    requires LoneLF(t, j) && LineBreak(t) == [CR]
    ensures !SafeBreaks(t)
  {
    FirstBreak(t, j);
    var i :| 0 <= i <= j && LoneCR(t, i);
    assert i < j;
  }

  lemma NoFeedAfterReturn(t: Text)
    requires SafeBreaks(t) && LineBreak(t) == [CR]
    ensures forall j: nat :: !LoneLF(t, j)
  {
    forall j: nat ensures !LoneLF(t, j) {
      if LoneLF(t, j) { FeedAfterReturn(t, j); }
    }
  }

  lemma NoSeamAfterInsert(enc: Encoding, t: Text, changes: seq<Change>, from: nat, insert: Text)
    requires Admissible(enc, t, changes, from) && SafeBreaks(t) && CR !in insert
    requires Apart(InText(enc, t, changes), OffsetOf(enc, t, from), |t|)
    ensures !(EndsCR(Rewritten(insert, LineBreak(t))) && BeginsLF(NewText(enc, t, changes, from)))
  {
    LineBreakIsBreak(t);
    RewrittenShape(insert, LineBreak(t));
    if LineBreak(t) == [CR] {
      NoFeedAfterReturn(t);
      if BeginsLF(NewText(enc, t, changes, from)) { RestBegins(enc, t, changes, from); }
    }
  }

  lemma NoSeamAfterKept(enc: Encoding, t: Text, o: nat, changes: seq<Change>, from: nat)
    requires Admissible(enc, t, changes, from) && changes != [] && SafeBreaks(t)
    requires o == OffsetOf(enc, t, from)
    ensures Admissible(enc, t, changes[1..], changes[0].end)
    ensures Apart(InText(enc, t, changes[1..]), OffsetOf(enc, t, changes[0].end), |t|)
    ensures o <= OffsetOf(enc, t, changes[0].start) <= |t|
    ensures EndsCR(t[o..OffsetOf(enc, t, changes[0].start)]) ==>
              !BeginsLF(Rewritten(changes[0].insert, LineBreak(t)) + NewText(enc, t, changes[1..], changes[0].end))
  {
    hide PlainWalk, Rewritten, First, Encoded, Folded, NewText, SafeBreaks, LoneCR;
    var c, o' := changes[0], OffsetOf(enc, t, changes[0].start);
    AdmissibleTail(enc, t, changes, from);
    NewTextStep(enc, t, changes, from);
    if EndsCR(t[o..o']) {
      KeptEndsLone(enc, t, o, c.start);
      hide *;
      ReturnNoFeed(enc, t, changes[1..], c, o' - 1);
    }
  }

  /** Text kept up to a character's start ends with a carriage return only if that one
      stands alone. */
  lemma KeptEndsLone(enc: Encoding, t: Text, o: nat, start: nat)
    requires IsStart(enc, t, start) && o <= OffsetOf(enc, t, start) <= |t|
    requires EndsCR(t[o..OffsetOf(enc, t, start)])
    ensures LoneCR(t, OffsetOf(enc, t, start) - 1)
  {
    hide PlainWalk, First, Encoded, Folded, EditorText;
    StartInside(enc, t, start);
  }

  lemma ReturnNoFeed(enc: Encoding, t: Text, rest: seq<Change>, c: Change, i: nat)
    requires SafeBreaks(t) && LoneCR(t, i) && IsInsert(c.insert)
    requires Admissible(enc, t, rest, c.end) && Apart(InText(enc, t, rest), OffsetOf(enc, t, c.end), |t|)
    requires i < OffsetOf(enc, t, c.end)
    ensures !BeginsLF(Rewritten(c.insert, LineBreak(t)) + NewText(enc, t, rest, c.end))
  {
    hide Rewritten, NewText, OffsetOf, Apart, Admissible, LineBreak;
    LineBreakIsBreak(t);
    RewrittenShape(c.insert, LineBreak(t));
    NoSeamAfter(enc, t, rest, c.end, i);
  }

  /** A safe version's spliced text folds to the editor's spliced text. */
  lemma {:induction false} FoldIsTheEditors(enc: Encoding, t: Text, changes: seq<Change>, from: nat)
    requires Admissible(enc, t, changes, from) && SafeBreaks(t)
    ensures Apart(InText(enc, t, changes), OffsetOf(enc, t, from), |t|)
    ensures Folded(NewText(enc, t, changes, from)) == Spliced(EditorText(enc, t), changes, from)
    decreases changes
  {
    TextApart(enc, t, changes, from);
    if changes == [] {
      TailFrom(enc, t, from);
    } else {
      var c, rest := changes[0], changes[1..];
      AdmissibleTail(enc, t, changes, from);
      NewTextStep(enc, t, changes, from);
      FoldIsTheEditors(enc, t, rest, c.end);
      StretchBetween(enc, t, from, c.start);
      var o, o' := OffsetOf(enc, t, from), OffsetOf(enc, t, c.start);
      NoSeamAfterKept(enc, t, o, changes, from);
      NoSeamAfterInsert(enc, t, rest, c.end, c.insert);
      PiecesFold(t[o..o'], c.insert, LineBreak(t), NewText(enc, t, rest, c.end), t);
    }
  }

  lemma PiecesFold(kept: Text, insert: Text, lineBreak: Text, rest: Text, t: Text)
    requires CR !in insert && lineBreak == LineBreak(t)
    requires EndsCR(kept) ==> !BeginsLF(Rewritten(insert, lineBreak) + rest)
    requires !(EndsCR(Rewritten(insert, lineBreak)) && BeginsLF(rest))
    ensures Folded(kept + Rewritten(insert, lineBreak) + rest) == Folded(kept) + insert + Folded(rest)
  {
    var ins := Rewritten(insert, lineBreak);
    LineBreakIsBreak(t);
    RewrittenFolds(insert, lineBreak);
    FoldedJoins(ins, rest);
    FoldedJoins(kept, ins + rest);
    Reassociated(kept, ins, rest);
    Reassociated(Folded(kept), insert, Folded(rest));
  }

  // ------------------------------------------------------------ the theorem

  /** An encoding with a mark states one the version begins with. */
  predicate States(enc: Encoding, t: Text) {
    enc == Utf8 || Marked(enc, t)
  }

  /** The bytes the city holds once it has spliced the edits of a save. */
  function Landed(enc: Encoding, t: Text, changes: seq<Change>): seq<Byte>
    requires Apart(ByteEdits(enc, t, changes), 0, |Encoded(enc, t)|)
  {
    Spliced(Encoded(enc, t), ByteEdits(enc, t, changes), 0)
  }

  /** The landed version reads, in its own encoding, as the edited text. */
  ghost predicate Shown(enc: Encoding, t: Text, changes: seq<Change>) {
    Apart(ByteEdits(enc, t, changes), 0, |Encoded(enc, t)|)
    && Apart(changes, 0, |EditorText(enc, t)|)
    && var saved := Decoded(enc, Landed(enc, t, changes));
       Encoded(enc, saved) == Landed(enc, t, changes)
       && EditorText(enc, saved) == Spliced(EditorText(enc, t), changes, 0)
  }

  lemma {:induction false} SplicedFrom<T>(base: seq<T>, edits: seq<Edit<T>>, m: nat)
    requires Apart(edits, m, |base|)
    ensures Apart(edits, 0, |base|)
    ensures Spliced(base, edits, 0) == base[..m] + Spliced(base, edits, m)
  {
    if edits == [] {
      assert base == base[..m] + base[m..] && base[0..] == base;
    } else {
      assert base[0..edits[0].start] == base[..m] + base[m..edits[0].start];
    }
  }

  /** The mark, if any, and what is spliced after it. */
  lemma NewBytes(enc: Encoding, t: Text, changes: seq<Change>)
    requires Admissible(enc, t, changes, 0) && WellFormed(t)
    ensures Apart(InText(enc, t, changes), OffsetOf(enc, t, 0), |t|)
    ensures Apart(ByteEdits(enc, t, changes), 0, |Encoded(enc, t)|)
    ensures var saved := t[..First(enc, t).offset] + NewText(enc, t, changes, 0);
            Encoded(enc, saved) == Landed(enc, t, changes) && Decoded(enc, Landed(enc, t, changes)) == saved
  {
    var f := First(enc, t);
    BytesAreTheTexts(enc, t, changes, 0);
    MarkedPart(enc, t);
    hide Encoded, Decoded, NewText, WellFormed, Apart, Spliced, Admissible, First, CutsClean, OffsetOf, ByteOf, PlainWalk;
    SplicedFrom(Encoded(enc, t), ByteEdits(enc, t, changes), f.byte);
    var rest := NewText(enc, t, changes, 0);
    EncodedJoinsWell(enc, t[..f.offset], rest);
    DecodedUndoesEncoded(enc, t[..f.offset] + rest);
  }

  /** The mark, if any, stands before the first editor position. */
  lemma MarkedPart(enc: Encoding, t: Text)
    requires WellFormed(t)
    ensures var f := First(enc, t);
            && f.offset <= |t| && f.byte <= |Encoded(enc, t)| && WellFormed(t[..f.offset])
            && Encoded(enc, t)[..f.byte] == Encoded(enc, t[..f.offset])
            && OffsetOf(enc, t, 0) == f.offset && ByteOf(enc, t, 0) == f.byte
  {
    var f := First(enc, t);
    StartConverts(enc, t, ByPosition, 0);
    assert IsStart(enc, t, 0) by { assert Starts(enc, t)[0].position == 0; }
    StartInside(enc, t, 0);
    BytesBetween(enc, t, 0, f.offset);
    WellFormedStretch(t, 0, f.offset);
    assert t[0..f.offset] == t[..f.offset] && t[..0] == [] && Encoded(enc, t[..0]) == [];
  }

  lemma NewVersion(enc: Encoding, t: Text, changes: seq<Change>)
    requires Admissible(enc, t, changes, 0) && WellFormed(t) && States(enc, t)
    ensures Apart(InText(enc, t, changes), OffsetOf(enc, t, 0), |t|)
    ensures Apart(ByteEdits(enc, t, changes), 0, |Encoded(enc, t)|)
    ensures var saved := Decoded(enc, Landed(enc, t, changes));
            Encoded(enc, saved) == Landed(enc, t, changes)
            && EditorText(enc, saved) == Folded(NewText(enc, t, changes, 0))
  {
    NewBytes(enc, t, changes);
    hide Encoded, Decoded, Folded, Admissible, Landed, NewText, WellFormed, Apart;
    var f := First(enc, t);
    var rest := NewText(enc, t, changes, 0);
    assert (t[..f.offset] + rest)[f.offset..] == rest;
  }

  lemma SafeIsShown(enc: Encoding, t: Text, changes: seq<Change>)
    requires Admissible(enc, t, changes, 0) && WellFormed(t) && States(enc, t) && SafeBreaks(t)
    ensures Shown(enc, t, changes)
  {
    NewVersion(enc, t, changes);
    FoldIsTheEditors(enc, t, changes, 0);
  }

  // ------------------------------------------------------------ and only then

  /** No clean cut lies inside a character. */
  lemma NoCutInside(enc: Encoding, t: Text, at: Checkpoint, o: nat)
    requires at.offset < o && CutsClean(t, o)
    ensures Moved(enc, t, at).offset <= o
  {
    var next := StepAt(enc, t, at.offset);
    assert next.units == 2 ==> SplitsPair(t, at.offset + 1) || SplitsBreak(t, at.offset + 1);
  }

  /** Every clean cut past the mark is a start. */
  lemma {:induction false} CleanIsStart(enc: Encoding, t: Text, o: nat, k: nat) returns (m: nat)
    requires CutsClean(t, o) && k < |Starts(enc, t)| && Starts(enc, t)[k].offset <= o
    ensures m < |Starts(enc, t)| && Starts(enc, t)[m].offset == o
    decreases |Starts(enc, t)| - k
  {
    var s := Starts(enc, t);
    SpotsChain(enc, t, First(enc, t), k);
    if s[k].offset == o {
      m := k;
    } else {
      NoCutInside(enc, t, s[k], o);
      m := CleanIsStart(enc, t, o, k + 1);
    }
  }

  /** A carriage return brought before a line feed folds with it into one break. */
  lemma {:induction false} FoldMerges(a: Text, b: Text)
    requires EndsCR(a) && BeginsLF(b)
    ensures |Folded(a + b)| == |Folded(a)| + |Folded(b)| - 1
    decreases |a|
  {
    var s := a + b;
    if |a| == 1 {
      assert s[2..] == b[1..] && a[1..] == [];
    } else {
      var n := if a[0] == CR && a[1] == LF then 2 else 1;
      assert s[n..] == a[n..] + b;
      assert a[n..] != [] && a[n..][|a[n..]| - 1] == a[|a| - 1];
      FoldMerges(a[n..], b);
    }
  }

  lemma StartOfCut(enc: Encoding, t: Text, o: nat) returns (p: nat)
    requires CutsClean(t, o) && First(enc, t).offset <= o
    ensures IsStart(enc, t, p) && OffsetOf(enc, t, p) == o && p <= |EditorText(enc, t)|
    ensures EditorText(enc, t)[..p] == Folded(t[First(enc, t).offset..o])
    ensures EditorText(enc, t)[p..] == Folded(t[o..])
  {
    var k := CleanIsStart(enc, t, o, 0);
    p := Starts(enc, t)[k].position;
    StartConverts(enc, t, ByPosition, k);
    StartCutsEditor(enc, t, k);
  }

  /** One change, at two clean cuts of the version. */
  lemma OneChange(enc: Encoding, t: Text, o: nat, o': nat, insert: Text) returns (c: Change)
    requires IsInsert(insert)
    requires CutsClean(t, o) && CutsClean(t, o') && First(enc, t).offset <= o <= o'
    ensures Admissible(enc, t, [c], 0)
    ensures c.insert == insert && OffsetOf(enc, t, c.start) == o && OffsetOf(enc, t, c.end) == o'
    ensures EditorText(enc, t)[..c.start] == Folded(t[First(enc, t).offset..o])
    ensures EditorText(enc, t)[c.end..] == Folded(t[o'..])
  {
    var p := StartOfCut(enc, t, o);
    var q := StartOfCut(enc, t, o');
    CutsRise(enc, t, p, q);
    assert IsStart(enc, t, 0) by { assert Starts(enc, t)[0].position == 0; }
    c := Edit(p, q, insert);
    assert [c][1..] == [];
  }

  /** What one change leaves in the version's text. */
  lemma OneChangeLeaves(enc: Encoding, t: Text, c: Change)
    requires Admissible(enc, t, [c], 0)
    ensures Apart(InText(enc, t, [c]), OffsetOf(enc, t, 0), |t|)
    ensures First(enc, t).offset <= OffsetOf(enc, t, c.start) <= OffsetOf(enc, t, c.end) <= |t|
    ensures NewText(enc, t, [c], 0) ==
            t[First(enc, t).offset..OffsetOf(enc, t, c.start)] + Rewritten(c.insert, LineBreak(t))
            + t[OffsetOf(enc, t, c.end)..]
  {
    StartConverts(enc, t, ByPosition, 0);
    assert [c][1..] == [];
    NewTextStep(enc, t, [c], 0);
  }

  /** A version that folds to fewer characters than the editor holds is not shown. */
  lemma TooShort(enc: Encoding, t: Text, c: Change)
    requires Admissible(enc, t, [c], 0) && WellFormed(t) && States(enc, t)
    requires Apart(InText(enc, t, [c]), OffsetOf(enc, t, 0), |t|)
    requires |Folded(NewText(enc, t, [c], 0))|
           < |EditorText(enc, t)[..c.start]| + |c.insert| + |EditorText(enc, t)[c.end..]|
    ensures !Shown(enc, t, [c])
  {
    NewVersion(enc, t, [c]);
    EditorSplice(EditorText(enc, t), c);
  }

  lemma EditorSplice(editor: Text, c: Change)
    requires c.start <= c.end <= |editor|
    ensures Apart([c], 0, |editor|)
    ensures Spliced(editor, [c], 0) == editor[..c.start] + c.insert + editor[c.end..]
  {
    assert [c][1..] == [] && editor[0..c.start] == editor[..c.start];
  }

  lemma CutsRise(enc: Encoding, t: Text, p: nat, q: nat)
    requires IsStart(enc, t, p) && IsStart(enc, t, q) && OffsetOf(enc, t, p) <= OffsetOf(enc, t, q)
    ensures p <= q
  {
    if q < p {
      var i := StartAt(enc, t, p);
      var j := StartAt(enc, t, q);
      Climbs(enc, t, j, i);
    }
  }

  lemma FirstBeforeBreak(enc: Encoding, t: Text, i: nat)
    requires LoneCR(t, i)
    ensures First(enc, t).offset <= i && CutsClean(t, i + 1)
  {}

  /** Where new breaks are line feeds, one typed after a lone carriage return. */
  lemma InsertMerges(enc: Encoding, t: Text, i: nat) returns (c: Change)
    requires WellFormed(t) && States(enc, t) && LoneCR(t, i) && LineBreak(t) == [LF]
    ensures Admissible(enc, t, [c], 0) && !Shown(enc, t, [c])
  {
    FirstBeforeBreak(enc, t, i);
    var a, b := t[First(enc, t).offset..i + 1], [LF] + t[i + 1..];
    assert IsInsert([LF]) by { BreakWellFormed([LF]); }
    c := OneChange(enc, t, i + 1, i + 1, [LF]);
    OneChangeLeaves(enc, t, c);
    RewrittenPlain([LF]);
    Reassociated(a, [LF], t[i + 1..]);
    FoldMerges(a, b);
    assert b[1..] == t[i + 1..] && Folded(b) == [LF] + Folded(b[1..]);
    TooShort(enc, t, c);
  }

  /** All between two cuts deleted, the first after a carriage return, the second before
      a line feed: one break fewer. */
  lemma DeletedFolds(enc: Encoding, t: Text, c: Change)
    requires Admissible(enc, t, [c], 0) && c.insert == []
    requires First(enc, t).offset <= OffsetOf(enc, t, c.start) <= OffsetOf(enc, t, c.end) <= |t|
    requires EndsCR(t[First(enc, t).offset..OffsetOf(enc, t, c.start)]) && BeginsLF(t[OffsetOf(enc, t, c.end)..])
    ensures Apart(InText(enc, t, [c]), OffsetOf(enc, t, 0), |t|)
    ensures |Folded(NewText(enc, t, [c], 0))|
         == |Folded(t[First(enc, t).offset..OffsetOf(enc, t, c.start)])| + |Folded(t[OffsetOf(enc, t, c.end)..])| - 1
  {
    OneChangeLeaves(enc, t, c);
    assert Rewritten([], LineBreak(t)) == [];
    hide *;
    var a, b := t[First(enc, t).offset..OffsetOf(enc, t, c.start)], t[OffsetOf(enc, t, c.end)..];
    assert a + [] + b == a + b;
    FoldMerges(a, b);
  }

  /** Otherwise, all that stands between the two breaks deleted. */
  lemma DeleteMerges(enc: Encoding, t: Text, i: nat, j: nat) returns (c: Change)
    requires WellFormed(t) && States(enc, t) && LoneCR(t, i) && LoneLF(t, j) && i < j
    ensures Admissible(enc, t, [c], 0) && !Shown(enc, t, [c])
  {
    FirstBeforeBreak(enc, t, i);
    assert CutsClean(t, j) && IsInsert([]);
    assert EndsCR(t[First(enc, t).offset..i + 1]) && BeginsLF(t[j..]);
    hide *;
    c := OneChange(enc, t, i + 1, j, []);
    DeletedFolds(enc, t, c);
    TooShort(enc, t, c);
  }

  /** An unsafe version has a change whose saved text is not the one shown: the
      two breaks the editor counts apart fold into one. */
  lemma UnsafeMerges(enc: Encoding, t: Text) returns (c: Change)
    requires WellFormed(t) && States(enc, t) && !SafeBreaks(t)
    ensures Admissible(enc, t, [c], 0) && !Shown(enc, t, [c])
  {
    var i :| 0 <= i < |t| && LoneCR(t, i)
          && !(LineBreak(t) != [LF] && forall j :: i < j < |t| ==> !LoneLF(t, j));
    if LineBreak(t) == [LF] {
      c := InsertMerges(enc, t, i);
    } else {
      var j :| i < j < |t| && LoneLF(t, j);
      c := DeleteMerges(enc, t, i, j);
    }
  }

  /** A version without the mark its encoding has one of: a mark typed in front is
      dropped where it is read again. */
  lemma UnmarkedDrops(enc: Encoding, t: Text) returns (c: Change)
    requires WellFormed(t) && !States(enc, t)
    ensures Admissible(enc, t, [c], 0) && !Shown(enc, t, [c])
  {
    MarkIsInsert();
    c := OneChange(enc, t, 0, 0, [MARK]);
    OneChangeLeaves(enc, t, c);
    NewBytes(enc, t, [c]);
    MarkStays(LineBreak(t));
    EditorSplice(EditorText(enc, t), c);
    assert t[0..0] == [] && t[..0] == [];
    MarkIsDropped(enc, t);
    hide Encoded, Decoded, Admissible, PlainWalk, Folded, Rewritten;
    var saved := t[..0] + NewText(enc, t, [c], 0);
    assert saved == [MARK] + t;
    assert |EditorText(enc, saved)| < |Spliced(EditorText(enc, t), [c], 0)|;
  }

  lemma MarkIsInsert()
    ensures IsInsert([MARK])
  {
    var none: Text := [];
    assert [MARK][1..] == none && WellFormed(none);
    assert !IsLead(MARK) && !IsTrail(MARK);
  }

  lemma MarkStays(lineBreak: Text)
    ensures Rewritten([MARK], lineBreak) == [MARK]
  {
    assert [MARK][1..] == [];
  }

  lemma MarkIsDropped(enc: Encoding, t: Text)
    requires enc != Utf8 && !Marked(enc, t)
    ensures EditorText(enc, [MARK] + t) == EditorText(enc, t)
  {
    assert ([MARK] + t)[1..] == t && t[0..] == t;
  }

  /** Saving means what the editor shows, for every version and every list of changes an
      editor can make, if and only if the version begins with the mark its encoding
      states and its line breaks are safe. */
  lemma SavingMeansWhatIsShown(enc: Encoding, t: Text)
    requires WellFormed(t)
    ensures (forall changes :: Admissible(enc, t, changes, 0) ==> Shown(enc, t, changes))
            <==> States(enc, t) && SafeBreaks(t)
  {
    if !States(enc, t) {
      var c := UnmarkedDrops(enc, t);
    } else if SafeBreaks(t) {
      forall changes | Admissible(enc, t, changes, 0) ensures Shown(enc, t, changes) {
        SafeIsShown(enc, t, changes);
      }
    } else {
      var c := UnsafeMerges(enc, t);
    }
  }

  /** A version whose line breaks are all spelled alike is safe. */
  lemma AlikeIsSafe(t: Text)
    requires (forall i: nat :: !LoneCR(t, i)) || (forall i :: 0 <= i < |t| ==> t[i] != LF)
    ensures SafeBreaks(t)
  {
    if forall i :: 0 <= i < |t| ==> t[i] != LF {
      NoFeedBreak(t);
    }
  }

  lemma {:induction false} NoFeedBreak(t: Text)
    requires forall i :: 0 <= i < |t| ==> t[i] != LF
    ensures LineBreak(t) == [LF] ==> forall i :: 0 <= i < |t| ==> t[i] != CR
  {
    if t != [] && t[0] != CR {
      NoFeedBreak(t[1..]);
      assert forall i :: 1 <= i < |t| ==> t[i] == t[1..][i - 1];
    }
  }
}
