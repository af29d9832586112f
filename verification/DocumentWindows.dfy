/** `client/src/core/document_windows.ts`: the whole text of a document version,
    gathered window by window in whatever order the city's answers come. */
module DocumentWindows {
  import opened CodeUnits
  import opened OrderedMaps

  const EDITABLE_BYTES_MAX := 4 * 1024 * 1024

  datatype Span = Span(start: nat, end: nat)

  datatype Window = Window(span: Span, text: Text)

  datatype RangeAnswer = RangeAnswer(version: string, window: Window)

  /** A version's text and the byte it has reached; its length, once known. */
  datatype Gathering = Gathering(
    version: string, format: string, enc: Encoding, bytes: Option<nat>, text: Text, through: nat)

  /** What the city answers of a document. */
  datatype State =
    | Missing
    | Unreadable(reason: string)
    | Empty(version: string, format: string)
    | HeldOpaque(version: string, bytes: nat)
    | HeldText(version: string, format: string, bytes: nat, enc: Encoding, head: Window)

  datatype Opening =
    | NotThere
    | NotRead(reason: string)
    | NotText(version: string, bytes: nat)
    | Opened(gathering: Gathering)

  function Open(state: State): Opening {
    match state
    case Missing => NotThere
    case Unreadable(reason) => NotRead(reason)
    case Empty(version, format) => Opened(Gathering(version, format, Utf8, Some(0), [], 0))
    case HeldOpaque(version, bytes) => NotText(version, bytes)
    case HeldText(version, format, bytes, enc, head) =>
      Opened(Gathering(version, format, enc, Some(bytes), head.text, head.span.end))
  }

  /** What is known of an older version: its name, and nothing yet of its length. */
  function Recorded(version: string, format: string): Gathering {
    Gathering(version, format, Utf8, None, [], 0)
  }

  predicate Whole(g: Gathering) {
    g.bytes.Some? && g.through >= g.bytes.value
  }

  /** The span the next question names, while one is due. */
  function NextSpan(g: Gathering): Option<Span> {
    var end := if g.bytes.Some? then g.bytes.value else EDITABLE_BYTES_MAX;
    if Whole(g) || end > EDITABLE_BYTES_MAX || g.through >= EDITABLE_BYTES_MAX then None
    else Some(Span(g.through, end))
  }

  function Joined(g: Gathering, answer: RangeAnswer): Gathering {
    var w := answer.window;
    if answer.version != g.version || w.span.start != g.through then g
    else if w.span.end == w.span.start then g.(bytes := Some(g.through))
    else g.(text := g.text + w.text, through := w.span.end)
  }

  function JoinedAll(g: Gathering, answers: seq<RangeAnswer>): Gathering
    decreases |answers|
  {
    if answers == [] then g else JoinedAll(Joined(g, answers[0]), answers[1..])
  }

  // ------------------------------------------------------------ what the city holds

  /** A version as it is stored. */
  datatype File = File(enc: Encoding, bytes: seq<Byte>)

  /** A window of a version: whole characters of it, empty only past its end. */
  ghost predicate WindowOf(w: Window, file: File) {
    && w.span.start <= w.span.end
    && (w.span.end == w.span.start ==> w.span.start >= |file.bytes|)
    && (w.span.end > w.span.start ==>
          w.span.end <= |file.bytes| && WellFormed(w.text)
          && Encoded(file.enc, w.text) == file.bytes[w.span.start..w.span.end])
  }

  /** An answer for `version` tells its windows; one for another version tells nothing
      of it. */
  ghost predicate Truthful(answer: RangeAnswer, version: string, file: File) {
    answer.version == version ==> WindowOf(answer.window, file)
  }

  /** The text gathered is exactly the version up to where it reaches. */
  ghost predicate Prefix(g: Gathering, file: File) {
    && g.through <= |file.bytes| && WellFormed(g.text)
    && Encoded(file.enc, g.text) == file.bytes[..g.through]
    && (g.bytes.Some? ==> g.bytes.value == |file.bytes|)
  }

  /** A true answer about a document: its first window starts it, and an empty document
      is an empty version. */
  ghost predicate Describes(state: State, file: File) {
    match state
    case Empty(_, _) => file.bytes == []
    case HeldText(_, _, bytes, enc, head) =>
      && bytes == |file.bytes| && enc == file.enc && head.span.start == 0 && WindowOf(head, file)
      && (head.span.end == 0 ==> head.text == [])
    case _ => true
  }

  lemma OpensAtPrefix(state: State, file: File)
    requires Describes(state, file) && Open(state).Opened?
    ensures Prefix(Open(state).gathering, file)
  {
    var g := Open(state).gathering;
    if g.through == 0 { assert g.text == [] && file.bytes[..0] == []; }
  }

  lemma RecordsAtPrefix(version: string, format: string, file: File)
    ensures Prefix(Recorded(version, format), file)
  {
    assert file.bytes[..0] == [];
  }

  lemma JoinKeepsPrefix(g: Gathering, answer: RangeAnswer, file: File)
    requires Prefix(g, file) && Truthful(answer, g.version, file)
    ensures Prefix(Joined(g, answer), file) && Joined(g, answer).version == g.version
  {
    hide Encoded, WellFormed;
    var w := answer.window;
    if answer.version == g.version && w.span.start == g.through && w.span.end > w.span.start {
      JoinsText(file.enc, g.text, w.text);
      assert file.bytes[..g.through] + file.bytes[g.through..w.span.end] == file.bytes[..w.span.end];
    }
  }

  lemma JoinsText(enc: Encoding, a: Text, b: Text)
    requires WellFormed(a) && WellFormed(b)
    ensures WellFormed(a + b) && Encoded(enc, a + b) == Encoded(enc, a) + Encoded(enc, b)
  {
    if a != [] { WellFormedEnds(a); }
    EncodedJoins(enc, a, b);
    WellFormedJoins(a, b);
  }

  /** Whatever true answers arrive, in any order, however often, of this version or not:
      the text is the version's own up to the byte it has reached. */
  lemma {:induction false} GatheredIsPrefix(g: Gathering, answers: seq<RangeAnswer>, file: File)
    requires Prefix(g, file) && forall a :: a in answers ==> Truthful(a, g.version, file)
    ensures Prefix(JoinedAll(g, answers), file)
    ensures JoinedAll(g, answers).version == g.version && JoinedAll(g, answers).through >= g.through
    decreases |answers|
  {
    hide Prefix, Truthful, WindowOf;
    if answers != [] {
      JoinKeepsPrefix(g, answers[0], file);
      JoinGoesOn(g, answers[0], file);
      GatheredIsPrefix(Joined(g, answers[0]), answers[1..], file);
    }
  }

  /** The same from whatever a true answer about the document opens. */
  lemma OpenedIsPrefix(state: State, answers: seq<RangeAnswer>, file: File)
    requires Describes(state, file) && Open(state).Opened?
    requires forall a :: a in answers ==> Truthful(a, Open(state).gathering.version, file)
    ensures Prefix(JoinedAll(Open(state).gathering, answers), file)
  {
    hide Prefix, Truthful, JoinedAll, Describes;
    OpensAtPrefix(state, file);
    GatheredIsPrefix(Open(state).gathering, answers, file);
  }

  /** The same from an older version, of which nothing is held yet. */
  lemma RecordedIsPrefix(version: string, format: string, answers: seq<RangeAnswer>, file: File)
    requires forall a :: a in answers ==> Truthful(a, version, file)
    ensures Prefix(JoinedAll(Recorded(version, format), answers), file)
  {
    hide Prefix, Truthful, JoinedAll;
    RecordsAtPrefix(version, format, file);
    GatheredIsPrefix(Recorded(version, format), answers, file);
  }

  lemma JoinGoesOn(g: Gathering, answer: RangeAnswer, file: File)
    requires Truthful(answer, g.version, file)
    ensures Joined(g, answer).through >= g.through
  {}

  /** A text that is whole is the version read to its end. */
  lemma WholeIsEntire(g: Gathering, file: File)
    requires Prefix(g, file) && Whole(g)
    ensures Encoded(file.enc, g.text) == file.bytes && g.text == Decoded(file.enc, file.bytes)
  {
    assert file.bytes[..|file.bytes|] == file.bytes;
    DecodedUndoesEncoded(file.enc, g.text);
  }

  // ------------------------------------------------------------ it ends

  /** What is still to come: bytes, and the word that they are all there. */
  function Owed(g: Gathering, file: File): int {
    2 * (|file.bytes| - g.through) + (if g.bytes.None? then 1 else 0)
  }

  /** A true answer to the question asked brings the text closer to its end. */
  lemma AnswersMakeProgress(g: Gathering, answer: RangeAnswer, file: File)
    requires Prefix(g, file) && NextSpan(g).Some?
    requires answer.version == g.version && answer.window.span.start == NextSpan(g).value.start
    requires WindowOf(answer.window, file)
    ensures 0 <= Owed(Joined(g, answer), file) < Owed(g, file)
  {}

  ghost predicate Answering(g: Gathering, answers: seq<RangeAnswer>, file: File)
    decreases |answers|
  {
    answers != [] ==>
      && NextSpan(g).Some? && answers[0].version == g.version
      && answers[0].window.span.start == g.through && WindowOf(answers[0].window, file)
      && Answering(Joined(g, answers[0]), answers[1..], file)
  }

  /** A text asked for window after window is finished after finitely many answers. */
  lemma {:induction false} GatheringEnds(g: Gathering, answers: seq<RangeAnswer>, file: File)
    requires Prefix(g, file) && Answering(g, answers, file)
    ensures |answers| <= Owed(g, file)
    decreases |answers|
  {
    hide Prefix, WindowOf;
    if answers != [] {
      AnswersMakeProgress(g, answers[0], file);
      JoinKeepsPrefix(g, answers[0], file);
      GatheringEnds(Joined(g, answers[0]), answers[1..], file);
    } else {
      OwedIsNatural(g, file);
    }
  }

  /** Asked window after window until nothing is left to ask, the text ends whole exactly
      when it was whole, or is below the bound, or is exactly as long and its length was
      known: the end of an older one is then never told. */
  lemma {:induction false} GatheringFinishes(g: Gathering, answers: seq<RangeAnswer>, file: File)
    requires Prefix(g, file) && Answering(g, answers, file) && NextSpan(JoinedAll(g, answers)) == None
    ensures Whole(JoinedAll(g, answers)) <==>
            Whole(g) || |file.bytes| < EDITABLE_BYTES_MAX || (|file.bytes| == EDITABLE_BYTES_MAX && g.bytes.Some?)
    decreases |answers|
  {
    if answers != [] {
      JoinKeepsPrefix(g, answers[0], file);
      GatheringFinishes(Joined(g, answers[0]), answers[1..], file);
    }
  }

  lemma OwedIsNatural(g: Gathering, file: File)
    requires Prefix(g, file)
    ensures Owed(g, file) >= 0
  {}
}
