/** `client/src/views/changes.ts`, `numbered`: the line numbers of a patch, some of whose
    lines may be withheld. */
module ChangeNumbers {
  import opened Decimals
  import opened OrderedMaps

  /** A line number; none while a line it would count is missing. */
  type Place = Option<nat>

  /** A line of the answer: its text, or that it was withheld and why. */
  datatype Line = Shown(number: nat, text: string) | Held(number: nat, reason: string)

  datatype Drawn =
    | Head(number: nat, text: string)
    | HunkAt(number: nat, text: string, folded: nat)
    | Context(number: nat, text: string, was: Place, now: Place)
    | Added(number: nat, text: string, now: Place)
    | Removed(number: nat, text: string, was: Place)
    | Withheld(number: nat, reason: string)

  datatype Counts = Counts(was: Place, now: Place, end: Place)

  const UNKNOWN := Counts(None, None, None)

  // ------------------------------------------------------------ hunk headers

  /** What a hunk header tells: both starts, and how long the new side is if it says. */
  datatype Starts = Starts(was: nat, now: nat, length: Option<nat>)

  /** How many digits `s` opens with. */
  function Span(s: string): (n: nat)
    ensures n <= |s| && forall i :: 0 <= i < n ==> IsDigit(s[i])
  {
    if s != [] && IsDigit(s[0]) then 1 + Span(s[1..]) else 0
  }

  /** The optional length after a start, and what follows it. */
  function LengthIn(s: string): (Option<nat>, string) {
    if s != [] && s[0] == ',' && Span(s[1..]) > 0 then
      (Some(Number(s[1..][..Span(s[1..])])), s[1..][Span(s[1..])..])
    else (None, s)
  }

  /** What the header pattern takes from a line that matches it. */
  function HeaderOf(text: string): Option<Starts> {
    if !("@@ -" <= text) then None
    else
      var first := text[4..];
      var a := Span(first);
      if a == 0 then None
      else
        var (_, gap) := LengthIn(first[a..]);
        if !(" +" <= gap) then None
        else
          var second := gap[2..];
          var c := Span(second);
          if c == 0 then None
          else
            var (length, rest) := LengthIn(second[c..]);
            if " @@" <= rest then Some(Starts(Number(first[..a]), Number(second[..c]), length)) else None
  }

  // ------------------------------------------------------------ the walk

  /** A line past its sign. */
  function Past(text: string): string {
    if text == [] then [] else text[1..]
  }

  function More(p: Place): Place {
    if p.Some? then Some(p.value + 1) else None
  }

  function Fold(start: nat, end: Place): nat {
    var from := if end.Some? then end.value else 1;
    if start < from then 0 else start - from
  }

  /** One line drawn, and the counts after it. */
  function Step(c: Counts, line: Line): (Drawn, Counts) {
    match line
    case Held(number, reason) => (Withheld(number, reason), Counts(None, None, c.end))
    case Shown(number, text) =>
      var header := HeaderOf(text);
      if header.Some? then
        var h := header.value;
        (HunkAt(number, text, Fold(h.now, c.end)),
         Counts(Some(h.was), Some(h.now), Some(h.now + (if h.length.Some? then h.length.value else 1))))
      else if c.end.None? then (Head(number, text), c)
      else if "+" <= text then (Added(number, Past(text), c.now), c.(now := More(c.now)))
      else if "-" <= text then (Removed(number, Past(text), c.was), c.(was := More(c.was)))
      else (Context(number, Past(text), c.was, c.now), c.(was := More(c.was), now := More(c.now)))
  }

  function Walked(lines: seq<Line>, c: Counts): seq<Drawn> {
    if lines == [] then []
    else
      var (drawn, next) := Step(c, lines[0]);
      [drawn] + Walked(lines[1..], next)
  }

  function After(lines: seq<Line>, c: Counts): Counts {
    if lines == [] then c else After(lines[1..], Step(c, lines[0]).1)
  }

  lemma {:induction false} WalkJoins(a: seq<Line>, b: seq<Line>, c: Counts)
    ensures Walked(a + b, c) == Walked(a, c) + Walked(b, After(a, c))
    ensures After(a + b, c) == After(b, After(a, c))
    decreases |a|
  {
    if a == [] {
      assert a + b == b;
    } else {
      assert (a + b)[1..] == a[1..] + b;
      WalkJoins(a[1..], b, Step(c, a[0]).1);
    }
  }

  /** `line` in its place: before the first line not numbered below it. */
  function Insert(line: Line, lines: seq<Line>): (r: seq<Line>)
    ensures multiset(r) == multiset(lines) + multiset{line}
  {
    if lines == [] || line.number <= lines[0].number then [line] + lines
    else
      assert lines == [lines[0]] + lines[1..];
      [lines[0]] + Insert(line, lines[1..])
  }

  /** The lines in order of their numbers, alike ones as they came. */
  function ByNumber(lines: seq<Line>): (r: seq<Line>)
    ensures multiset(r) == multiset(lines)
  {
    if lines == [] then []
    else
      assert lines == [lines[0]] + lines[1..];
      Insert(lines[0], ByNumber(lines[1..]))
  }

  /** The patch drawn line by line, in the order of the numbers. */
  method Numbered(lines: seq<Line>, withheld: seq<Line>) returns (drawn: seq<Drawn>)
    ensures drawn == Walked(ByNumber(lines + withheld), UNKNOWN)
  {
    var walk := ByNumber(lines + withheld);
    drawn := [];
    var counts := UNKNOWN;
    for i := 0 to |walk|
      invariant drawn + Walked(walk[i..], counts) == Walked(walk, UNKNOWN)
    {
      assert walk[i..][0] == walk[i] && walk[i..][1..] == walk[i + 1..];
      var (line, next) := Step(counts, walk[i]);
      assert drawn + ([line] + Walked(walk[i + 1..], next)) == (drawn + [line]) + Walked(walk[i + 1..], next);
      drawn, counts := drawn + [line], next;
    }
    assert drawn + [] == drawn;
  }

  // ------------------------------------------------------------ the order restored

  ghost predicate Rising(lines: seq<Line>) {
    forall i, j :: 0 <= i < j < |lines| ==> lines[i].number < lines[j].number
  }

  ghost predicate Climbs(lines: seq<Line>) {
    forall i, j :: 0 <= i < j < |lines| ==> lines[i].number <= lines[j].number
  }

  lemma {:induction false} InsertedIn(line: Line, lines: seq<Line>, x: Line)
    requires x in Insert(line, lines)
    ensures x == line || x in lines
    decreases |lines|
  {
    if lines != [] && lines[0].number < line.number && x != lines[0] { InsertedIn(line, lines[1..], x); }
  }

  lemma ClimbsOn(first: Line, rest: seq<Line>)
    requires Climbs(rest) && forall j :: 0 <= j < |rest| ==> first.number <= rest[j].number
    ensures Climbs([first] + rest)
  {}

  lemma {:induction false} InsertClimbs(line: Line, lines: seq<Line>)
    requires Climbs(lines)
    ensures Climbs(Insert(line, lines))
    decreases |lines|
  {
    if lines != [] && lines[0].number < line.number {
      var rest := Insert(line, lines[1..]);
      InsertClimbs(line, lines[1..]);
      forall j | 0 <= j < |rest| ensures lines[0].number <= rest[j].number {
        InsertedIn(line, lines[1..], rest[j]);
      }
      ClimbsOn(lines[0], rest);
    }
  }

  lemma {:induction false} ByNumberClimbs(lines: seq<Line>)
    ensures Climbs(ByNumber(lines))
  {
    if lines != [] {
      ByNumberClimbs(lines[1..]);
      InsertClimbs(lines[0], ByNumber(lines[1..]));
    }
  }

  lemma Headless(a: seq<Line>)
    requires a != []
    ensures multiset(a[1..]) == multiset(a) - multiset{a[0]}
    ensures a == [a[0]] + a[1..]
  {
    assert a == [a[0]] + a[1..];
  }

  lemma OneFirst(a: seq<Line>, b: seq<Line>)
    requires Climbs(a) && Rising(b) && multiset(a) == multiset(b) && a != []
    ensures b != [] && a[0] == b[0]
  {
    assert a[0] in multiset(b);
    var i :| 0 <= i < |b| && b[i] == a[0];
    assert b[0] in multiset(a);
    var j :| 0 <= j < |a| && a[j] == b[0];
    assert b[0].number <= b[i].number && a[0].number <= a[j].number;
  }

  lemma {:induction false} OneOrder(a: seq<Line>, b: seq<Line>)
    requires Climbs(a) && Rising(b) && multiset(a) == multiset(b)
    ensures a == b
    decreases |a|
  {
    assert |a| == |multiset(a)| && |b| == |multiset(b)|;
    if a != [] {
      OneFirst(a, b);
      Headless(a);
      Headless(b);
      assert Climbs(a[1..]) && Rising(b[1..]);
      hide Climbs, Rising;
      OneOrder(a[1..], b[1..]);
    }
  }

  // ------------------------------------------------------------ a unified diff

  /** A line of a hunk, past its sign: in both files, only the old one, only the new
      one, or the backslash line saying a file ends without a line break. */
  datatype Piece = Kept(text: string) | Gone(text: string) | Come(text: string) | Marker(text: string)

  datatype Hunk = Hunk(was: nat, oldLength: Option<nat>, now: nat, nowLength: Option<nat>, tail: string,
                       body: seq<Piece>)

  /** One file's diff: lines before the first hunk, then the hunks. */
  datatype Diff = Diff(head: seq<string>, hunks: seq<Hunk>)

  function LengthText(n: Option<nat>): string {
    if n.Some? then "," + Decimal(n.value) else ""
  }

  function HeaderText(h: Hunk): string {
    "@@ -" + (Decimal(h.was) + (LengthText(h.oldLength)
      + (" +" + (Decimal(h.now) + (LengthText(h.nowLength) + (" @@" + h.tail))))))
  }

  function PieceText(p: Piece): string {
    match p
    case Kept(text) => " " + text
    case Gone(text) => "-" + text
    case Come(text) => "+" + text
    case Marker(text) => "\\" + text
  }

  function BodyTexts(body: seq<Piece>): seq<string> {
    if body == [] then [] else [PieceText(body[0])] + BodyTexts(body[1..])
  }

  function HunkTexts(h: Hunk): seq<string> {
    [HeaderText(h)] + BodyTexts(h.body)
  }

  function HunksTexts(hunks: seq<Hunk>): seq<string> {
    if hunks == [] then [] else HunkTexts(hunks[0]) + HunksTexts(hunks[1..])
  }

  function Texts(d: Diff): seq<string> {
    d.head + HunksTexts(d.hunks)
  }

  /** The lines of a patch numbered from `from`, those in `held` withheld. */
  function Entries(texts: seq<string>, held: map<nat, string>, from: nat): (r: seq<Line>)
    ensures |r| == |texts| && forall i :: 0 <= i < |r| ==> r[i].number == from + i
  {
    if texts == [] then []
    else
      [if from in held then Held(from, held[from]) else Shown(from, texts[0])]
      + Entries(texts[1..], held, from + 1)
  }

  lemma {:induction false} EntriesJoin(a: seq<string>, b: seq<string>, held: map<nat, string>, from: nat)
    ensures Entries(a + b, held, from) == Entries(a, held, from) + Entries(b, held, from + |a|)
    decreases |a|
  {
    if a == [] {
      assert a + b == b;
    } else {
      assert (a + b)[1..] == a[1..] + b;
      EntriesJoin(a[1..], b, held, from + 1);
      var first := [if from in held then Held(from, held[from]) else Shown(from, a[0])];
      assert first + (Entries(a[1..], held, from + 1) + Entries(b, held, from + |a|))
          == (first + Entries(a[1..], held, from + 1)) + Entries(b, held, from + |a|);
    }
  }

  /** Line `n` of the file reads `text`. */
  ghost predicate Holds(file: seq<string>, n: nat, text: string) {
    1 <= n <= |file| && file[n - 1] == text
  }

  /** The body is what the two files read from lines `o` and `n` on; a marker stands
      only where a file has ended. */
  ghost predicate Fits(body: seq<Piece>, o: nat, n: nat, was: seq<string>, now: seq<string>) {
    body != [] ==>
      match body[0]
      case Kept(text) => Holds(was, o, text) && Holds(now, n, text) && Fits(body[1..], o + 1, n + 1, was, now)
      case Gone(text) => Holds(was, o, text) && Fits(body[1..], o + 1, n, was, now)
      case Come(text) => Holds(now, n, text) && Fits(body[1..], o, n + 1, was, now)
      case Marker(_) => (o == |was| + 1 || n == |now| + 1) && Fits(body[1..], o, n, was, now)
  }

  ghost predicate DiffOf(d: Diff, was: seq<string>, now: seq<string>) {
    && (forall i :: 0 <= i < |d.head| ==> HeaderOf(d.head[i]) == None)
    && (forall h :: h in d.hunks ==> Fits(h.body, h.was, h.now, was, now))
  }

  lemma {:induction false} SpanReads(digits: string, rest: string)
    requires forall i :: 0 <= i < |digits| ==> IsDigit(digits[i])
    requires rest == [] || !IsDigit(rest[0])
    ensures Span(digits + rest) == |digits|
    ensures (digits + rest)[..|digits|] == digits && (digits + rest)[|digits|..] == rest
    decreases |digits|
  {
    if digits == [] {
      assert digits + rest == rest;
    } else {
      assert (digits + rest)[1..] == digits[1..] + rest;
      SpanReads(digits[1..], rest);
    }
  }

  lemma LengthReads(n: Option<nat>, rest: string)
    requires rest != [] && rest[0] == ' '
    ensures LengthIn(LengthText(n) + rest) == (n, rest)
  {
    if n.Some? {
      var digits := Decimal(n.value);
      assert ("," + digits + rest)[1..] == digits + rest;
      SpanReads(digits, rest);
      NumberUndoesDecimal(n.value);
    } else {
      assert LengthText(n) + rest == rest;
    }
  }

  /** A header line reads as the starts it was written from. */
  lemma HeaderReads(h: Hunk)
    ensures HeaderOf(HeaderText(h)) == Some(Starts(h.was, h.now, h.nowLength))
  {
    hide Span, LengthIn, LengthText, Decimal, Number;
    var end := " @@" + h.tail;
    var length := LengthText(h.nowLength) + end;
    var second := Decimal(h.now) + length;
    var gap := " +" + second;
    var lengths := LengthText(h.oldLength) + gap;
    var first := Decimal(h.was) + lengths;
    assert HeaderText(h) == "@@ -" + first && HeaderText(h)[4..] == first;
    LengthOpens(h.oldLength, gap);
    SpanReads(Decimal(h.was), lengths);
    NumberUndoesDecimal(h.was);
    LengthReads(h.oldLength, gap);
    assert gap[2..] == second;
    LengthOpens(h.nowLength, end);
    SpanReads(Decimal(h.now), length);
    NumberUndoesDecimal(h.now);
    LengthReads(h.nowLength, end);
  }

  lemma LengthOpens(n: Option<nat>, rest: string)
    requires rest != [] && rest[0] == ' '
    ensures LengthText(n) + rest != [] && !IsDigit((LengthText(n) + rest)[0])
  {}

  lemma PieceIsNoHeader(p: Piece)
    ensures HeaderOf(PieceText(p)) == None
    ensures Past(PieceText(p)) == p.text
    ensures ("+" <= PieceText(p)) == p.Come? && ("-" <= PieceText(p)) == p.Gone?
  {
    assert PieceText(p)[0] != '@';
    assert PieceText(p)[1..] == p.text;
  }

  // ------------------------------------------------------------ no number is wrong

  /** Every number drawn names the line of that file holding the text drawn. */
  ghost predicate Right(d: Drawn, was: seq<string>, now: seq<string>) {
    match d
    case Context(_, text, o, n) => (o.Some? ==> Holds(was, o.value, text)) && (n.Some? ==> Holds(now, n.value, text))
    case Added(_, text, n) => n.Some? ==> Holds(now, n.value, text)
    case Removed(_, text, o) => o.Some? ==> Holds(was, o.value, text)
    case _ => true
  }

  ghost predicate AllRight(drawn: seq<Drawn>, was: seq<string>, now: seq<string>) {
    forall i :: 0 <= i < |drawn| ==> Right(drawn[i], was, now)
  }

  /** No marker of the body is shown while the count is known: each is withheld, or
      stands behind a withheld line of its hunk. */
  predicate Unmarked(body: seq<Piece>, held: map<nat, string>, from: nat, known: bool) {
    known && body != [] ==>
      if from in held then true
      else !body[0].Marker? && Unmarked(body[1..], held, from + 1, true)
  }

  predicate HunksUnmarked(hunks: seq<Hunk>, held: map<nat, string>, from: nat) {
    hunks != [] ==>
      Unmarked(hunks[0].body, held, from + 1, from !in held)
      && HunksUnmarked(hunks[1..], held, from + 1 + |hunks[0].body|)
  }

  /** What the counts know where the files stand at lines `o` and `n`. */
  ghost predicate Standing(c: Counts, o: nat, n: nat, known: bool) {
    if known then c.was == Some(o) && c.now == Some(n) && c.end.Some? else c.was == None && c.now == None
  }

  lemma BodyTextsLength(body: seq<Piece>)
    ensures |BodyTexts(body)| == |body|
  {}

  /** One piece of a body: its number is right unless it is a marker counted, and the
      counts after it stand where the files do. */
  lemma PieceRight(p: Piece, line: Line, c: Counts, known: bool, o: nat, n: nat, was: seq<string>, now: seq<string>)
    requires Fits([p], o, n, was, now) && Standing(c, o, n, known)
    requires line.Shown? ==> line.text == PieceText(p)
    ensures var (drawn, next) := Step(c, line);
            && (Right(drawn, was, now) <==> !(line.Shown? && p.Marker? && known))
            && (line.Held? || !p.Marker? || !known ==>
                  Standing(next, if p.Kept? || p.Gone? then o + 1 else o, if p.Kept? || p.Come? then n + 1 else n,
                           known && line.Shown?))
  {
    hide HeaderOf, PieceText;
    PieceIsNoHeader(p);
  }

  lemma {:induction false} BodyRight(body: seq<Piece>, held: map<nat, string>, from: nat, c: Counts, known: bool,
                                     o: nat, n: nat, was: seq<string>, now: seq<string>)
    requires Fits(body, o, n, was, now) && Standing(c, o, n, known)
    ensures AllRight(Walked(Entries(BodyTexts(body), held, from), c), was, now) <==> Unmarked(body, held, from, known)
    decreases |body|, 1
  {
    if body != [] {
      hide Step, Right, AllRight, Standing, PieceText;
      var entries := Entries(BodyTexts(body), held, from);
      var (drawn, next) := Step(c, entries[0]);
      var p, rest := body[0], body[1..];
      assert BodyTexts(body)[1..] == BodyTexts(rest);
      assert entries[1..] == Entries(BodyTexts(rest), held, from + 1);
      PieceRight(p, entries[0], c, known, o, n, was, now);
      RightHeaded(drawn, Walked(entries[1..], next), was, now);
      if from in held || !p.Marker? || !known {
        BodyGoesOn(p, rest, held, from, next, known && from !in held, o, n, was, now);
      }
    }
  }

  /** `BodyRight` for what follows one piece. */
  lemma BodyGoesOn(p: Piece, rest: seq<Piece>, held: map<nat, string>, from: nat, next: Counts, known: bool,
                   o: nat, n: nat, was: seq<string>, now: seq<string>)
    requires var o' := if p.Kept? || p.Gone? then o + 1 else o;
             var n' := if p.Kept? || p.Come? then n + 1 else n;
             Fits(rest, o', n', was, now) && Standing(next, o', n', known)
    ensures AllRight(Walked(Entries(BodyTexts(rest), held, from + 1), next), was, now)
            <==> Unmarked(rest, held, from + 1, known)
    decreases |rest| + 1, 0
  {
    var o' := if p.Kept? || p.Gone? then o + 1 else o;
    var n' := if p.Kept? || p.Come? then n + 1 else n;
    BodyRight(rest, held, from + 1, next, known, o', n', was, now);
  }

  lemma RightHeaded(d: Drawn, rest: seq<Drawn>, was: seq<string>, now: seq<string>)
    ensures AllRight([d] + rest, was, now) <==> Right(d, was, now) && AllRight(rest, was, now)
  {
    if Right(d, was, now) && AllRight(rest, was, now) {
    } else if !Right(d, was, now) {
      assert ([d] + rest)[0] == d;
    } else {
      var i :| 0 <= i < |rest| && !Right(rest[i], was, now);
      assert ([d] + rest)[i + 1] == rest[i];
    }
  }

  lemma RightJoined(a: seq<Drawn>, b: seq<Drawn>, was: seq<string>, now: seq<string>)
    ensures AllRight(a + b, was, now) <==> AllRight(a, was, now) && AllRight(b, was, now)
  {
    if !AllRight(a, was, now) {
      var i :| 0 <= i < |a| && !Right(a[i], was, now);
      assert (a + b)[i] == a[i];
    } else if !AllRight(b, was, now) {
      var i :| 0 <= i < |b| && !Right(b[i], was, now);
      assert (a + b)[|a| + i] == b[i];
    }
  }

  lemma HunkRight(h: Hunk, held: map<nat, string>, from: nat, c: Counts, was: seq<string>, now: seq<string>)
    requires Fits(h.body, h.was, h.now, was, now)
    ensures AllRight(Walked(Entries(HunkTexts(h), held, from), c), was, now)
            <==> Unmarked(h.body, held, from + 1, from !in held)
  {
    hide Step, Fits, Right, Unmarked, HeaderText, BodyTexts;
    var entries, body := Entries(HunkTexts(h), held, from), BodyTexts(h.body);
    assert HunkTexts(h)[1..] == body;
    assert entries[1..] == Entries(body, held, from + 1);
    var (drawn, next) := Step(c, entries[0]);
    HeaderSteps(h, held, from, c, entries[0]);
    HeaderDrawn(c, entries[0], h, held, from, was, now);
    BodyRight(h.body, held, from + 1, next, from !in held, h.was, h.now, was, now);
    RightHeaded(drawn, Walked(entries[1..], next), was, now);
  }

  lemma {:induction false} HunksRight(hunks: seq<Hunk>, held: map<nat, string>, from: nat, c: Counts,
                                      was: seq<string>, now: seq<string>)
    requires forall h :: h in hunks ==> Fits(h.body, h.was, h.now, was, now)
    ensures AllRight(Walked(Entries(HunksTexts(hunks), held, from), c), was, now) <==> HunksUnmarked(hunks, held, from)
    decreases |hunks|
  {
    hide Step, Fits, Right, Unmarked, HeaderText, BodyTexts, AllRight;
    if hunks != [] {
      var h, rest := hunks[0], hunks[1..];
      HunkLength(h);
      HunkRight(h, held, from, c, was, now);
      var first, second := Entries(HunkTexts(h), held, from), Entries(HunksTexts(rest), held, from + 1 + |h.body|);
      EntriesJoin(HunkTexts(h), HunksTexts(rest), held, from);
      WalkJoins(first, second, c);
      RightJoined(Walked(first, c), Walked(second, After(first, c)), was, now);
      HunksRight(rest, held, from + 1 + |h.body|, After(first, c), was, now);
    } else {
      NoneRight(was, now);
    }
  }

  lemma NoneRight(was: seq<string>, now: seq<string>)
    ensures AllRight([], was, now)
  {}

  lemma HunkLength(h: Hunk)
    ensures |HunkTexts(h)| == 1 + |h.body|
  {
    hide HeaderText;
    BodyTextsLength(h.body);
  }

  lemma HeaderSteps(h: Hunk, held: map<nat, string>, from: nat, c: Counts, line: Line)
    requires line == if from in held then Held(from, held[from]) else Shown(from, HeaderText(h))
    ensures Standing(Step(c, line).1, h.was, h.now, from !in held)
  {
    hide HeaderText, HeaderOf;
    HeaderReads(h);
  }

  lemma HeaderDrawn(c: Counts, line: Line, h: Hunk, held: map<nat, string>, from: nat, was: seq<string>, now: seq<string>)
    requires line == if from in held then Held(from, held[from]) else Shown(from, HeaderText(h))
    ensures Right(Step(c, line).0, was, now)
  {
    hide HeaderText, HeaderOf;
    HeaderReads(h);
  }

  lemma {:induction false} HeadRight(head: seq<string>, held: map<nat, string>, from: nat, was: seq<string>, now: seq<string>)
    requires forall i :: 0 <= i < |head| ==> HeaderOf(head[i]) == None
    ensures AllRight(Walked(Entries(head, held, from), UNKNOWN), was, now)
    ensures After(Entries(head, held, from), UNKNOWN) == UNKNOWN
    decreases |head|
  {
    hide HeaderOf;
    if head != [] { HeadRight(head[1..], held, from + 1, was, now); }
  }

  /** The numbers drawn for a diff of `was` and `now`, some lines withheld and the
      answer in any order, are all right if and only if no backslash line is shown
      where the count is known. */
  lemma NumbersAreRight(d: Diff, held: map<nat, string>, answer: seq<Line>, was: seq<string>, now: seq<string>)
    requires DiffOf(d, was, now)
    requires multiset(answer) == multiset(Entries(Texts(d), held, 1))
    ensures AllRight(Walked(ByNumber(answer), UNKNOWN), was, now) <==> HunksUnmarked(d.hunks, held, 1 + |d.head|)
  {
    hide Walked, Right, AllRight, HunksUnmarked, HunksTexts, Fits, HeaderOf, Climbs, ByNumber;
    ByNumberClimbs(answer);
    OneOrder(ByNumber(answer), Entries(Texts(d), held, 1));
    var head, hunks := Entries(d.head, held, 1), Entries(HunksTexts(d.hunks), held, 1 + |d.head|);
    EntriesJoin(d.head, HunksTexts(d.hunks), held, 1);
    WalkJoins(head, hunks, UNKNOWN);
    HeadRight(d.head, held, 1, was, now);
    HunksRight(d.hunks, held, 1 + |d.head|, UNKNOWN, was, now);
    RightJoined(Walked(head, UNKNOWN), Walked(hunks, UNKNOWN), was, now);
  }

  ghost predicate Plain(d: Diff) {
    forall h, p :: h in d.hunks && p in h.body ==> !p.Marker?
  }

  lemma {:induction false} PlainBody(body: seq<Piece>, held: map<nat, string>, from: nat, known: bool)
    requires forall p :: p in body ==> !p.Marker?
    ensures Unmarked(body, held, from, known)
    decreases |body|
  {
    if body != [] && known && from !in held { PlainBody(body[1..], held, from + 1, known); }
  }

  lemma {:induction false} PlainHunks(hunks: seq<Hunk>, held: map<nat, string>, from: nat)
    requires forall h, p :: h in hunks && p in h.body ==> !p.Marker?
    ensures HunksUnmarked(hunks, held, from)
    decreases |hunks|
  {
    hide Unmarked;
    if hunks != [] {
      assert hunks[0] in hunks;
      PlainBody(hunks[0].body, held, from + 1, from !in held);
      PlainHunks(hunks[1..], held, from + 1 + |hunks[0].body|);
    }
  }

  /** Where every body line begins with a space, a plus or a minus, no number is ever
      wrong, whatever is withheld. */
  lemma PlainIsRight(d: Diff, held: map<nat, string>, answer: seq<Line>, was: seq<string>, now: seq<string>)
    requires DiffOf(d, was, now) && Plain(d)
    requires multiset(answer) == multiset(Entries(Texts(d), held, 1))
    ensures AllRight(Walked(ByNumber(answer), UNKNOWN), was, now)
  {
    NumbersAreRight(d, held, answer, was, now);
    PlainHunks(d.hunks, held, 1 + |d.head|);
  }

  // ------------------------------------------------------------ no number is missing

  ghost predicate Placed(d: Drawn) {
    match d
    case Context(_, _, o, n) => o.Some? && n.Some?
    case Added(_, _, n) => n.Some?
    case Removed(_, _, o) => o.Some?
    case _ => true
  }

  ghost predicate Counting(c: Counts) {
    c.end.Some? ==> c.was.Some? && c.now.Some?
  }

  lemma {:induction false} ShownIsPlaced(texts: seq<string>, from: nat, c: Counts)
    requires Counting(c)
    ensures forall d :: d in Walked(Entries(texts, map[], from), c) ==> Placed(d)
    decreases |texts|
  {
    hide HeaderOf;
    if texts != [] {
      var entries := Entries(texts, map[], from);
      var (drawn, next) := Step(c, entries[0]);
      assert entries[1..] == Entries(texts[1..], map[], from + 1);
      ShownIsPlaced(texts[1..], from + 1, next);
    }
  }

  lemma {:induction false} DrawnInPlace(texts: seq<string>, held: map<nat, string>, from: nat, c: Counts)
    ensures var drawn := Walked(Entries(texts, held, from), c);
            && |drawn| == |texts|
            && forall i :: 0 <= i < |texts| ==> drawn[i].number == from + i && (drawn[i].Withheld? <==> from + i in held)
    decreases |texts|
  {
    hide HeaderOf;
    if texts != [] {
      var entries := Entries(texts, held, from);
      var (drawn, next) := Step(c, entries[0]);
      assert entries[1..] == Entries(texts[1..], held, from + 1);
      DrawnInPlace(texts[1..], held, from + 1, next);
      forall i | 0 <= i < |texts|
        ensures Walked(entries, c)[i].number == from + i && (Walked(entries, c)[i].Withheld? <==> from + i in held)
      {
        if i > 0 { assert Walked(entries, c)[i] == Walked(entries[1..], next)[i - 1]; }
      }
    }
  }

  /** Every line is drawn in its place, and with nothing withheld no line of code
      lacks its number. */
  lemma NothingIsMissing(texts: seq<string>, held: map<nat, string>, answer: seq<Line>)
    requires multiset(answer) == multiset(Entries(texts, held, 1))
    ensures var drawn := Walked(ByNumber(answer), UNKNOWN);
            && |drawn| == |texts|
            && (forall i :: 0 <= i < |texts| ==> drawn[i].number == 1 + i && (drawn[i].Withheld? <==> 1 + i in held))
            && (held == map[] ==> forall d :: d in drawn ==> Placed(d))
  {
    hide Walked, Placed;
    ByNumberClimbs(answer);
    OneOrder(ByNumber(answer), Entries(texts, held, 1));
    DrawnInPlace(texts, held, 1, UNKNOWN);
    ShownIsPlaced(texts, 1, UNKNOWN);
  }

  /** A file whose last line gains a line break: the backslash line is counted, and
      the line after it is named one too far down. */
  lemma MarkerMisnumbers()
    ensures var d := Diff([], [Hunk(1, None, 1, None, "", [Gone("end"), Marker(" No newline at end of file"), Come("end")])]);
            DiffOf(d, ["end"], ["end"]) && Added(4, "end", Some(2)) in Walked(Entries(Texts(d), map[], 1), UNKNOWN)
  {
    var body := [Gone("end"), Marker(" No newline at end of file"), Come("end")];
    var h := Hunk(1, None, 1, None, "", body);
    assert body[1..] == [Marker(" No newline at end of file"), Come("end")];
    assert body[1..][1..] == [Come("end")];
    assert Fits(body, 1, 1, ["end"], ["end"]);
    assert [] + HunksTexts([h]) == HunksTexts([h]);
    assert [h][1..] == [];
    assert HunkTexts(h) + [] == HunkTexts(h);
    MarkerShifts(h);
  }

  lemma MarkerShifts(h: Hunk)
    requires h.was == 1 && h.now == 1
    requires h.body == [Gone("end"), Marker(" No newline at end of file"), Come("end")]
    ensures Added(4, "end", Some(2)) in Walked(Entries(HunkTexts(h), map[], 1), UNKNOWN)
  {
    hide HeaderOf, HeaderText, BodyTexts, Walked, Step, Entries, HunkTexts;
    var c := Step(UNKNOWN, Shown(1, HeaderText(h))).1;
    var gone, marker, come := PieceText(h.body[0]), PieceText(h.body[1]), PieceText(h.body[2]);
    MarkerTexts(h);
    MarkerEntries(HeaderText(h), gone, marker, come);
    HeaderSteps(h, map[], 1, UNKNOWN, Shown(1, HeaderText(h)));
    MarkerWalk(h, gone, marker, come, c);
    WalkOne(Shown(1, HeaderText(h)), [Shown(2, gone), Shown(3, marker), Shown(4, come)], UNKNOWN);
  }

  lemma WalkOne(line: Line, rest: seq<Line>, c: Counts)
    ensures Walked([line] + rest, c) == [Step(c, line).0] + Walked(rest, Step(c, line).1)
  {
    assert ([line] + rest)[1..] == rest;
  }

  lemma MarkerTexts(h: Hunk)
    requires |h.body| == 3
    ensures HunkTexts(h) == [HeaderText(h), PieceText(h.body[0]), PieceText(h.body[1]), PieceText(h.body[2])]
  {
    assert h.body[1..][1..] == h.body[2..] && h.body[2..][1..] == [];
    assert BodyTexts(h.body[2..]) == [PieceText(h.body[2])];
    assert h.body[1..][0] == h.body[1];
    assert BodyTexts(h.body[1..]) == [PieceText(h.body[1]), PieceText(h.body[2])];
  }

  lemma MarkerEntries(a: string, b: string, c: string, d: string)
    ensures Entries([a, b, c, d], map[], 1) == [Shown(1, a)] + [Shown(2, b), Shown(3, c), Shown(4, d)]
  {
    assert [a, b, c, d][1..] == [b, c, d] && [b, c, d][1..] == [c, d] && [c, d][1..] == [d] && [d][1..] == [];
    assert Entries([d], map[], 4) == [Shown(4, d)];
    assert Entries([c, d], map[], 3) == [Shown(3, c), Shown(4, d)];
  }

  lemma MarkerWalk(h: Hunk, gone: string, marker: string, come: string, c: Counts)
    requires h.body == [Gone("end"), Marker(" No newline at end of file"), Come("end")]
    requires gone == PieceText(h.body[0]) && marker == PieceText(h.body[1]) && come == PieceText(h.body[2])
    requires Standing(c, 1, 1, true)
    ensures Added(4, "end", Some(2)) in Walked([Shown(2, gone), Shown(3, marker), Shown(4, come)], c)
  {
    hide HeaderOf, Walked, PieceText;
    PieceIsNoHeader(h.body[0]);
    PieceIsNoHeader(h.body[1]);
    PieceIsNoHeader(h.body[2]);
    var c1 := Step(c, Shown(2, gone)).1;
    var c2 := Step(c1, Shown(3, marker)).1;
    assert Step(c2, Shown(4, come)).0 == Added(4, "end", Some(2));
    WalkOne(Shown(2, gone), [Shown(3, marker), Shown(4, come)], c);
    WalkOne(Shown(3, marker), [Shown(4, come)], c1);
    WalkOne(Shown(4, come), [], c2);
    assert [Shown(4, come)] + [] == [Shown(4, come)];
    assert Walked([Shown(4, come)], c2)[0] == Added(4, "end", Some(2));
    assert [Shown(3, marker)] + [Shown(4, come)] == [Shown(3, marker), Shown(4, come)];
    assert Walked([Shown(3, marker), Shown(4, come)], c1)[1] == Added(4, "end", Some(2));
    assert [Shown(2, gone)] + [Shown(3, marker), Shown(4, come)] == [Shown(2, gone), Shown(3, marker), Shown(4, come)];
    assert Walked([Shown(2, gone), Shown(3, marker), Shown(4, come)], c)[2] == Added(4, "end", Some(2));
  }
}
