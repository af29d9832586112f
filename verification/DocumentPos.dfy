/** `client/src/core/document_pos.ts`: byte spans of a version, editor positions
    of its folded text, and the lines and columns a person counts, converted by
    checkpoints and a binary search. */
module DocumentPos {
  import opened CodeUnits

  const STRIDE := 1024

  /** One character: its code units, editor positions and bytes. */
  datatype Step = Step(units: nat, editor: nat, bytes: nat)

  /** A position with its offset in the text, its byte and its line. */
  datatype Checkpoint = Checkpoint(position: nat, offset: nat, byte: nat, line: nat)

  datatype Positions = Positions(
    version: string, enc: Encoding, text: Text, editor: Text, lineBreak: Text, kept: seq<Checkpoint>)

  /** The coordinate a conversion starts from. */
  datatype Axis = ByPosition | ByByte

  function Along(axis: Axis, at: Checkpoint): nat {
    if axis.ByPosition? then at.position else at.byte
  }

  predicate Marked(enc: Encoding, t: Text) {
    t != [] && t[0] == MARK && enc != Utf8
  }

  function StepAt(enc: Encoding, t: Text, i: nat): (s: Step)
    requires i < |t|
    ensures 1 <= s.units && i + s.units <= |t|
    ensures 1 <= s.editor <= 2 && 1 <= s.bytes
  {
    var code := CodePointAt(t, i);
    if code == CR && i + 1 < |t| && t[i + 1] == LF then Step(2, 1, Width(enc, CR) * 2)
    else Step(CharUnits(t, i), CharUnits(t, i), Width(enc, code))
  }

  function First(enc: Encoding, t: Text): Checkpoint {
    if Marked(enc, t) then Checkpoint(0, 1, Width(enc, MARK), 1) else Checkpoint(0, 0, 0, 1)
  }

  /** What is edited: all past the mark, breaks folded. */
  function EditorText(enc: Encoding, t: Text): Text {
    Folded(t[First(enc, t).offset..])
  }

  /** The spelling new breaks take: that of the first break, a line feed for want of one. */
  function LineBreak(t: Text): Text {
    if t == [] then [LF]
    else if t[0] == CR then if |t| > 1 && t[1] == LF then [CR, LF] else [CR]
    else if t[0] == LF then [LF]
    else LineBreak(t[1..])
  }

  /** The next character's start. */
  function Moved(enc: Encoding, t: Text, at: Checkpoint): Checkpoint
    requires at.offset < |t|
  {
    var next := StepAt(enc, t, at.offset);
    Checkpoint(at.position + next.editor, at.offset + next.units, at.byte + next.bytes,
               at.line + if t[at.offset] == CR || t[at.offset] == LF then 1 else 0)
  }

  /** Every character's start from `at` on, the text's end last. */
  function Spots(enc: Encoding, t: Text, at: Checkpoint): (spots: seq<Checkpoint>)
    requires at.offset <= |t|
    ensures spots != [] && spots[0] == at
    decreases |t| - at.offset
  {
    [at] + if at.offset == |t| then [] else Spots(enc, t, Moved(enc, t, at))
  }

  function Starts(enc: Encoding, t: Text): (spots: seq<Checkpoint>)
    ensures spots != [] && spots[0] == First(enc, t)
  {
    Spots(enc, t, First(enc, t))
  }

  /** The walk on from `at`, a character at a time while none passes; the line is the
      one it set out from, as only the checkpoints count lines. */
  function WalkOn(enc: Encoding, t: Text, at: Checkpoint, passes: (Checkpoint, Step) -> bool): Checkpoint
    decreases |t| - at.offset
  {
    if at.offset < |t| && !passes(at, StepAt(enc, t, at.offset))
    then WalkOn(enc, t, Moved(enc, t, at).(line := at.line), passes)
    else at
  }

  function Passing(axis: Axis, target: int): (Checkpoint, Step) -> bool {
    if axis.ByPosition?
    then (at: Checkpoint, next: Step) => at.position + next.editor > target
    else (at: Checkpoint, next: Step) => at.byte + next.bytes > target
  }

  /** The conversion without checkpoints: the plain walk from the first character. */
  function PlainWalk(enc: Encoding, t: Text, axis: Axis, target: int): Checkpoint {
    WalkOn(enc, t, First(enc, t), Passing(axis, target))
  }

  function ByteOf(enc: Encoding, t: Text, position: int): nat {
    PlainWalk(enc, t, ByPosition, position).byte
  }

  function PositionOf(enc: Encoding, t: Text, byte: int): nat {
    PlainWalk(enc, t, ByByte, byte).position
  }

  // ------------------------------------------------------------ character starts

  lemma SpotsFirst(enc: Encoding, t: Text, at: Checkpoint)
    requires at.offset <= |t|
    ensures var s := Spots(enc, t, at);
            && s[0] == at && (|s| == 1 <==> at.offset == |t|)
            && (at.offset < |t| ==>
                  Moved(enc, t, at).offset <= |t|
                  && s == [at] + Spots(enc, t, Moved(enc, t, at)) && s[1] == Moved(enc, t, at))
  {}

  lemma {:induction false} SpotsChain(enc: Encoding, t: Text, at: Checkpoint, k: nat)
    requires at.offset <= |t| && k < |Spots(enc, t, at)|
    ensures Spots(enc, t, at)[k].offset <= |t|
    ensures Spots(enc, t, at)[k..] == Spots(enc, t, Spots(enc, t, at)[k])
    ensures k + 1 == |Spots(enc, t, at)| <==> Spots(enc, t, at)[k].offset == |t|
    ensures k + 1 < |Spots(enc, t, at)| ==>
              Spots(enc, t, at)[k + 1] == Moved(enc, t, Spots(enc, t, at)[k])
    decreases k
  {
    hide StepAt, Moved, Spots;
    var s := Spots(enc, t, at);
    SpotsFirst(enc, t, at);
    if k > 0 {
      var rest := Spots(enc, t, Moved(enc, t, at));
      SpotsChain(enc, t, Moved(enc, t, at), k - 1);
      assert s[k..] == rest[k - 1..];
    }
  }

  predicate Before(a: Checkpoint, b: Checkpoint) {
    a.position < b.position && a.offset < b.offset && a.byte < b.byte && a.line <= b.line
  }

  /** The starts climb in every coordinate. */
  lemma {:induction false} SpotsClimb(enc: Encoding, t: Text, at: Checkpoint, i: nat, j: nat)
    requires at.offset <= |t| && i < j < |Spots(enc, t, at)|
    ensures Before(Spots(enc, t, at)[i], Spots(enc, t, at)[j])
    decreases j
  {
    SpotsChain(enc, t, at, j - 1);
    if i < j - 1 { SpotsClimb(enc, t, at, i, j - 1); }
  }

  /** `j` is where a walk for `target` stops: the last start at or before it. */
  predicate Lands(s: seq<Checkpoint>, j: nat, axis: Axis, target: int) {
    j < |s| && (j == 0 || Along(axis, s[j]) <= target)
    && (j + 1 == |s| || target < Along(axis, s[j + 1]))
  }

  lemma LandsOnce(enc: Encoding, t: Text, axis: Axis, target: int, i: nat, j: nat)
    requires Lands(Starts(enc, t), i, axis, target) && Lands(Starts(enc, t), j, axis, target)
    ensures i == j
  {
    var s := Starts(enc, t);
    if i + 1 < j { SpotsClimb(enc, t, First(enc, t), i + 1, j); }
    if j + 1 < i { SpotsClimb(enc, t, First(enc, t), j + 1, i); }
  }

  lemma OneStep(enc: Encoding, t: Text, at: Checkpoint, line: nat, axis: Axis, target: int)
    requires at.offset < |t|
    ensures WalkOn(enc, t, at.(line := line), Passing(axis, target)) ==
            if target < Along(axis, Moved(enc, t, at)) then at.(line := line)
            else WalkOn(enc, t, Moved(enc, t, at).(line := line), Passing(axis, target))
  {
    var here := at.(line := line);
    assert Moved(enc, t, here).(line := line) == Moved(enc, t, at).(line := line);
    assert Passing(axis, target)(here, StepAt(enc, t, here.offset)) <==> target < Along(axis, Moved(enc, t, at));
  }

  /** From any start not past the target the walk stops at the same place. */
  lemma {:induction false} WalkLands(enc: Encoding, t: Text, i: nat, line: nat, axis: Axis, target: int)
      returns (j: nat)
    requires i < |Starts(enc, t)|
    requires i == 0 || Along(axis, Starts(enc, t)[i]) <= target
    ensures i <= j && Lands(Starts(enc, t), j, axis, target)
    ensures WalkOn(enc, t, Starts(enc, t)[i].(line := line), Passing(axis, target))
         == Starts(enc, t)[j].(line := line)
    decreases |Starts(enc, t)| - i
  {
    var s := Starts(enc, t);
    SpotsChain(enc, t, First(enc, t), i);
    j := i;
    if i + 1 < |s| {
      OneStep(enc, t, s[i], line, axis, target);
      if Along(axis, s[i + 1]) <= target {
        j := WalkLands(enc, t, i + 1, line, axis, target);
      }
    }
  }

  // ------------------------------------------------------------ the checkpoints

  /** What the kept checkpoints are: character starts, climbing, the first one
      first, and one in every stride a start falls in. */
  ghost predicate Covering(s: seq<Checkpoint>, kept: seq<Checkpoint>, upTo: nat)
    requires s != [] && upTo <= |s|
  {
    && kept != [] && kept[0] == s[0]
    && (forall i :: 0 <= i < |kept| ==> kept[i] in s)
    && (forall i, j :: 0 <= i < j < |kept| ==> Before(kept[i], kept[j]))
    && (forall k {:trigger InStride(kept, s[k])} :: 0 <= k < upTo ==> InStride(kept, s[k]))
  }

  ghost predicate InStride(kept: seq<Checkpoint>, at: Checkpoint) {
    exists i :: 0 <= i < |kept| && (kept[i] == at || Before(kept[i], at))
             && kept[i].position / STRIDE == at.position / STRIDE
  }

  /** What the loop of `Checkpoints` has done once the starts before `k` are walked. */
  ghost predicate Walking(s: seq<Checkpoint>, kept: seq<Checkpoint>, k: nat) {
    k < |s| && Covering(s, kept, k + 1)
    && forall i :: 0 <= i < |kept| ==> kept[i] == s[k] || Before(kept[i], s[k])
  }

  lemma WalkingOn(s: seq<Checkpoint>, kept: seq<Checkpoint>, k: nat, next: seq<Checkpoint>)
    requires Walking(s, kept, k) && k + 1 < |s| && Before(s[k], s[k + 1])
    requires next == if s[k + 1].position / STRIDE > s[k].position / STRIDE then kept + [s[k + 1]] else kept
    ensures Walking(s, next, k + 1)
  {
    var moved := s[k + 1];
    forall m | 0 <= m < k + 2 ensures InStride(next, s[m]) {
      if m <= k { KeepsStride(kept, next, s[m]); } else { StrideOfNext(kept, next, s[k], moved); }
    }
    forall i | 0 <= i < |next| ensures next[i] in s && (next[i] == moved || Before(next[i], moved)) {
      if i < |kept| { assert next[i] == kept[i]; } else { assert next[i] == moved; }
    }
    forall i, j | 0 <= i < j < |next| ensures Before(next[i], next[j]) {
      assert next[i] == kept[i];
      if j < |kept| { assert next[j] == kept[j]; } else { assert next[j] == moved; }
    }
  }

  lemma KeepsStride(a: seq<Checkpoint>, b: seq<Checkpoint>, at: Checkpoint)
    requires a <= b && InStride(a, at)
    ensures InStride(b, at)
  {
    var i :| 0 <= i < |a| && (a[i] == at || Before(a[i], at)) && a[i].position / STRIDE == at.position / STRIDE;
    assert b[i] == a[i];
  }

  lemma StrideOfNext(a: seq<Checkpoint>, b: seq<Checkpoint>, at: Checkpoint, moved: Checkpoint)
    requires Before(at, moved) && InStride(a, at)
    requires b == if moved.position / STRIDE > at.position / STRIDE then a + [moved] else a
    ensures InStride(b, moved)
  {
    if moved.position / STRIDE > at.position / STRIDE {
      assert b[|b| - 1] == moved;
    } else {
      var i :| 0 <= i < |a| && (a[i] == at || Before(a[i], at)) && a[i].position / STRIDE == at.position / STRIDE;
      assert b[i] == a[i] && Before(b[i], moved);
      assert at.position / STRIDE <= moved.position / STRIDE;
    }
  }

  method Checkpoints(enc: Encoding, t: Text) returns (kept: seq<Checkpoint>)
    ensures Covering(Starts(enc, t), kept, |Starts(enc, t)|)
  {
    ghost var s := Starts(enc, t);
    ghost var k := 0;
    kept := [First(enc, t)];
    var at := First(enc, t);
    assert InStride(kept, s[0]) by { assert kept[0] == s[0]; }
    while at.offset < |t|
      invariant Walking(s, kept, k) && at == s[k] && at.offset <= |t|
      decreases |t| - at.offset
    {
      SpotsChain(enc, t, First(enc, t), k);
      SpotsClimb(enc, t, First(enc, t), k, k + 1);
      var moved := Moved(enc, t, at);
      ghost var before := kept;
      if moved.position / STRIDE > at.position / STRIDE { kept := kept + [moved]; }
      WalkingOn(s, before, k, kept);
      at := moved;
      k := k + 1;
      SpotsChain(enc, t, First(enc, t), k);
    }
    SpotsChain(enc, t, First(enc, t), k);
  }

  /** The last of the checkpoints a test admits, or the first where it admits none. */
  ghost predicate LastAdmitted(walk: seq<Checkpoint>, admits: Checkpoint -> bool, at: nat) {
    && at < |walk|
    && (at == 0 || admits(walk[at]))
    && (forall i :: at < i < |walk| ==> !admits(walk[i]))
  }

  method Nearest(walk: seq<Checkpoint>, admits: Checkpoint -> bool)
      returns (found: Checkpoint)
    requires walk != []
    requires forall i, j :: 0 <= i < j < |walk| && admits(walk[j]) ==> admits(walk[i])
    ensures exists at :: 0 <= at < |walk| && found == walk[at] && LastAdmitted(walk, admits, at)
  {
    var low, high := 0, |walk|;
    while low < high
      invariant 0 <= low <= high <= |walk|
      invariant forall i :: 0 <= i < low ==> admits(walk[i])
      invariant forall i :: high <= i < |walk| ==> !admits(walk[i])
    {
      var middle := (low + high) / 2;
      if admits(walk[middle]) { low := middle + 1; } else { high := middle; }
    }
    var at := if low == 0 then 0 else low - 1;
    assert LastAdmitted(walk, admits, at);
    found := walk[at];
  }

  method Walked(enc: Encoding, t: Text, from: Checkpoint, passes: (Checkpoint, Step) -> bool)
      returns (at: Checkpoint)
    ensures at == WalkOn(enc, t, from, passes)
  {
    at := from;
    while at.offset < |t| && !passes(at, StepAt(enc, t, at.offset))
      invariant WalkOn(enc, t, from, passes) == WalkOn(enc, t, at, passes)
      decreases |t| - at.offset
    {
      var next := StepAt(enc, t, at.offset);
      assert Moved(enc, t, at).(line := at.line)
          == Checkpoint(at.position + next.editor, at.offset + next.units, at.byte + next.bytes, at.line);
      at := Checkpoint(at.position + next.editor, at.offset + next.units, at.byte + next.bytes, at.line);
    }
  }

  ghost predicate Built(p: Positions) {
    && p.editor == EditorText(p.enc, p.text)
    && p.lineBreak == LineBreak(p.text)
    && Covering(Starts(p.enc, p.text), p.kept, |Starts(p.enc, p.text)|)
  }

  method PositionsOf(version: string, enc: Encoding, text: Text) returns (p: Positions)
    ensures Built(p) && p.version == version && p.enc == enc && p.text == text
  {
    var kept := Checkpoints(enc, text);
    p := Positions(version, enc, text, EditorText(enc, text), LineBreak(text), kept);
  }

  /** The checkpoint a start's stride holds is not past that start. */
  lemma StrideHolder(s: seq<Checkpoint>, kept: seq<Checkpoint>, j: nat) returns (i: nat)
    requires s != [] && j < |s| && Covering(s, kept, |s|)
    ensures i < |kept| && s[j].position < kept[i].position + STRIDE
    ensures kept[i] == s[j] || Before(kept[i], s[j])
  {
    assert InStride(kept, s[j]);
    i :| 0 <= i < |kept| && (kept[i] == s[j] || Before(kept[i], s[j]))
      && kept[i].position / STRIDE == s[j].position / STRIDE;
  }

  lemma KeptClimbs(s: seq<Checkpoint>, kept: seq<Checkpoint>, i: nat, j: nat)
    requires s != [] && Covering(s, kept, |s|) && i <= j < |kept|
    ensures kept[i] == kept[j] || Before(kept[i], kept[j])
  {}

  lemma CoveringClimbs(s: seq<Checkpoint>, kept: seq<Checkpoint>, axis: Axis)
    requires s != [] && Covering(s, kept, |s|)
    ensures kept != []
    ensures forall i, j :: 0 <= i < j < |kept| ==> Along(axis, kept[i]) < Along(axis, kept[j])
  {}

  /** The checkpoint nearest a target is a start no more than a stride behind
      where the walk stops. */
  lemma NearestIsClose(s: seq<Checkpoint>, kept: seq<Checkpoint>, axis: Axis, target: int, at: nat, j: nat)
    requires s != [] && Covering(s, kept, |s|) && at < |kept| && j < |s|
    requires forall i :: at < i < |kept| ==> Along(axis, kept[i]) > target
    requires kept[at] == s[j] || Before(kept[at], s[j])
    requires j == 0 || Along(axis, s[j]) <= target
    ensures kept[at].position <= s[j].position < kept[at].position + STRIDE
  {
    var i := StrideHolder(s, kept, j);
    assert i <= at by {
      assert i > 0 ==> Before(kept[0], kept[i]);
    }
    KeptClimbs(s, kept, i, at);
  }

  lemma KeptIsStart(s: seq<Checkpoint>, kept: seq<Checkpoint>, at: nat) returns (m: nat)
    requires s != [] && Covering(s, kept, |s|) && at < |kept|
    ensures m < |s| && s[m] == kept[at] && (at == 0 ==> m == 0)
  {
    m := 0;
    if at > 0 { m :| 0 <= m < |s| && s[m] == kept[at]; }
  }

  lemma WalksAgree(enc: Encoding, t: Text, m: nat, line: nat, axis: Axis, target: int) returns (j: nat)
    requires m < |Starts(enc, t)|
    requires m == 0 || Along(axis, Starts(enc, t)[m]) <= target
    ensures m <= j < |Starts(enc, t)|
    ensures j == 0 || Along(axis, Starts(enc, t)[j]) <= target
    ensures m < j ==> Before(Starts(enc, t)[m], Starts(enc, t)[j])
    ensures PlainWalk(enc, t, axis, target) == Starts(enc, t)[j].(line := 1)
    ensures WalkOn(enc, t, Starts(enc, t)[m].(line := line), Passing(axis, target))
         == Starts(enc, t)[j].(line := line)
  {
    j := WalkLands(enc, t, m, line, axis, target);
    var j0 := WalkLands(enc, t, 0, 1, axis, target);
    LandsOnce(enc, t, axis, target, j, j0);
    if m < j { SpotsClimb(enc, t, First(enc, t), m, j); }
  }

  /** Walking on from the nearest checkpoint is the plain walk, and a short one. */
  lemma NearWalk(enc: Encoding, t: Text, kept: seq<Checkpoint>, axis: Axis, target: int, at: nat)
    requires Covering(Starts(enc, t), kept, |Starts(enc, t)|) && at < |kept|
    requires at == 0 || Along(axis, kept[at]) <= target
    requires forall i :: at < i < |kept| ==> Along(axis, kept[i]) > target
    ensures var far := WalkOn(enc, t, kept[at], Passing(axis, target));
            && far.(line := 1) == PlainWalk(enc, t, axis, target)
            && far.line == kept[at].line
            && kept[at].position <= far.position < kept[at].position + STRIDE
  {
    var s := Starts(enc, t);
    var m := KeptIsStart(s, kept, at);
    var j := WalksAgree(enc, t, m, kept[at].line, axis, target);
    NearestIsClose(s, kept, axis, target, at, j);
  }

  /** A conversion by checkpoint and binary search, the shared half of `bytes`
      and `editorAt`. */
  method Converted(p: Positions, axis: Axis, target: int)
      returns (at: Checkpoint)
    requires Built(p)
    ensures at.(line := 1) == PlainWalk(p.enc, p.text, axis, target)
    ensures exists from :: from in p.kept && from.line == at.line && from.position <= at.position < from.position + STRIDE
  {
    hide Covering, Starts, PlainWalk, WalkOn, EditorText, LineBreak;
    var admits := (each: Checkpoint) => Along(axis, each) <= target;
    CoveringClimbs(Starts(p.enc, p.text), p.kept, axis);
    var from := Nearest(p.kept, admits);
    ghost var index :| 0 <= index < |p.kept| && from == p.kept[index] && LastAdmitted(p.kept, admits, index);
    NearWalk(p.enc, p.text, p.kept, axis, target, index);
    at := Walked(p.enc, p.text, from, Passing(axis, target));
  }

  method BytesAt(p: Positions, position: int) returns (byte: nat)
    requires Built(p)
    ensures byte == ByteOf(p.enc, p.text, position)
  {
    var at := Converted(p, ByPosition, position);
    byte := at.byte;
  }

  method EditorAt(p: Positions, byte: int) returns (position: nat)
    requires Built(p)
    ensures position == PositionOf(p.enc, p.text, byte)
  {
    var at := Converted(p, ByByte, byte);
    position := at.position;
  }

  // ------------------------------------------------------------ the conversions

  /** The plain walk, told by the starts alone. */
  lemma PlainLands(enc: Encoding, t: Text, axis: Axis, target: int) returns (j: nat)
    ensures Lands(Starts(enc, t), j, axis, target)
    ensures PlainWalk(enc, t, axis, target) == Starts(enc, t)[j].(line := 1)
  {
    j := WalkLands(enc, t, 0, 1, axis, target);
  }

  lemma Monotone(enc: Encoding, t: Text, axis: Axis, low: int, high: int)
    requires low <= high
    ensures var a, b := PlainWalk(enc, t, axis, low), PlainWalk(enc, t, axis, high);
            a.position <= b.position && a.byte <= b.byte
  {
    var i := PlainLands(enc, t, axis, low);
    var j := PlainLands(enc, t, axis, high);
    if i < j { SpotsClimb(enc, t, First(enc, t), i, j); }
    if j + 1 <= i { SpotsClimb(enc, t, First(enc, t), j, i); }
    if j + 1 < i { SpotsClimb(enc, t, First(enc, t), j + 1, i); }
  }

  /** A character start converts to itself on every axis, so the two
      conversions undo each other there. */
  lemma StartConverts(enc: Encoding, t: Text, axis: Axis, k: nat)
    requires k < |Starts(enc, t)|
    ensures PlainWalk(enc, t, axis, Along(axis, Starts(enc, t)[k])) == Starts(enc, t)[k].(line := 1)
  {
    var s := Starts(enc, t);
    var j := PlainLands(enc, t, axis, Along(axis, s[k]));
    if k + 1 < |s| { SpotsClimb(enc, t, First(enc, t), k, k + 1); }
    LandsOnce(enc, t, axis, Along(axis, s[k]), j, k);
  }

  lemma ConversionsUndo(enc: Encoding, t: Text, k: nat)
    requires k < |Starts(enc, t)|
    ensures PositionOf(enc, t, ByteOf(enc, t, Starts(enc, t)[k].position)) == Starts(enc, t)[k].position
    ensures ByteOf(enc, t, PositionOf(enc, t, Starts(enc, t)[k].byte)) == Starts(enc, t)[k].byte
  {
    StartConverts(enc, t, ByPosition, k);
    StartConverts(enc, t, ByByte, k);
  }

  /** Any target, however placed, converts to the start of the character it falls
      in, and converting back and forth again changes nothing. */
  lemma ConversionsSettle(enc: Encoding, t: Text, target: int)
    ensures var byte := ByteOf(enc, t, target);
            ByteOf(enc, t, PositionOf(enc, t, byte)) == byte
    ensures var position := PositionOf(enc, t, target);
            PositionOf(enc, t, ByteOf(enc, t, position)) == position
  {
    var i := PlainLands(enc, t, ByPosition, target);
    ConversionsUndo(enc, t, i);
    var j := PlainLands(enc, t, ByByte, target);
    ConversionsUndo(enc, t, j);
  }
}
