/** `client/src/core/replying.ts`: what to ask of a growing reply, and where its answers
    leave it; asked one question at a time, as
    `client/src/views/reply.svelte.ts` does. */
module Replying {
  import opened CodeUnits
  import opened DocumentPlaces
  import opened OrderedMaps

  datatype Block = Block(text: string)

  /** The blocks drawn, how far they cover the text, and what past that was judged to
      close nothing. */
  datatype Laying = Laying(blocks: seq<Block>, reached: nat, judged: Option<Text>, refused: bool)

  const UNLAID := Laying([], 0, None, false)

  /** What came back: nothing yet, a refusal, or blocks up to a byte of the question. */
  datatype Read = Asking | Unavailable | Held(end: nat, blocks: seq<Block>)

  /** How much of `t` its complete lines are. */
  function Complete(t: Text): (n: nat)
    ensures n <= |t| && (n > 0 ==> t[n - 1] == LF)
    ensures forall i :: n <= i < |t| ==> t[i] != LF
  {
    if t == [] then 0 else if t[|t| - 1] == LF then |t| else Complete(t[..|t| - 1])
  }

  /** What is due to be asked: all that is unread, its complete lines while it streams. */
  function Question(text: Text, laying: Laying, streaming: bool): Option<Text>
    requires laying.reached <= |text|
  {
    var rest := text[laying.reached..];
    var asked := if streaming then rest[..Complete(rest)] else rest;
    if laying.refused || asked == [] || laying.judged == Some(asked) then None else Some(asked)
  }

  function Answered(laying: Laying, asked: Text, read: Read, streaming: bool): Laying {
    match read
    case Asking => laying
    case Unavailable => laying.(refused := true)
    case Held(byte, blocks) =>
      var end := Utf16Stop(asked, 0, 0, byte);
      Laying(laying.blocks + blocks, laying.reached + end,
             if streaming then Some(asked[end..]) else if end == 0 then Some(asked) else None, false)
  }

  // ------------------------------------------------------------ one reply laid

  datatype World = World(text: Text, laying: Laying, asked: Option<Text>)

  datatype Event = Grow(more: Text) | Answer(read: Read)

  /** What the city is asked while nothing else is out. */
  function Asked(text: Text, laying: Laying, asked: Option<Text>, streaming: bool): Option<Text>
    requires laying.reached <= |text|
  {
    if asked.Some? then asked else Question(text, laying, streaming)
  }

  predicate Sound(w: World) {
    && w.laying.reached <= |w.text|
    && (w.asked.Some? ==> w.asked.value != [] && w.asked.value <= w.text[w.laying.reached..])
  }

  function Next(w: World, e: Event, streaming: bool): (w': World)
    requires Sound(w)
    ensures w'.laying.reached <= |w'.text|
  {
    match e
    case Grow(more) => World(w.text + more, w.laying, Asked(w.text + more, w.laying, w.asked, streaming))
    case Answer(read) =>
      if w.asked.None? || read.Asking? then w
      else
        var laying := Answered(w.laying, w.asked.value, read, streaming);
        World(w.text, laying, Question(w.text, laying, streaming))
  }

  /** A piece that does not begin inside a character. */
  predicate Whole(text: Text, more: Text) {
    !(text != [] && more != [] && IsLead(text[|text| - 1]) && IsTrail(more[0]))
  }

  /** A piece that a reply may grow by: a streaming one may be cut anywhere, even inside
      a character. */
  predicate Fits(text: Text, more: Text, streaming: bool) {
    streaming || Whole(text, more)
  }

  /** A cut inside no character, nor, while streaming, where one may still be unfinished. */
  predicate Clean(text: Text, i: nat, streaming: bool)
    requires i <= |text|
  {
    !SplitsPair(text, i) && (streaming && 0 < i == |text| ==> !IsLead(text[i - 1]))
  }

  /** The text is covered up to a character's start, and the question out is the
      unread rest's own beginning, ending between characters; a streaming one is
      complete lines. */
  ghost predicate Good(w: World, streaming: bool) {
    && Sound(w) && Clean(w.text, w.laying.reached, streaming)
    && (w.asked.Some? ==>
          && Clean(w.text, w.laying.reached + |w.asked.value|, streaming)
          && (streaming ==> w.asked.value[|w.asked.value| - 1] == LF))
    && (w.asked.None? ==> Question(w.text, w.laying, streaming) == None)
  }

  lemma BoundaryStays(text: Text, more: Text, i: nat, streaming: bool)
    requires Fits(text, more, streaming) && i <= |text| && Clean(text, i, streaming)
    ensures Clean(text + more, i, streaming)
  {}

  lemma BreakIsBoundary(text: Text, i: nat, streaming: bool)
    requires 0 < i <= |text| && text[i - 1] == LF
    ensures Clean(text, i, streaming)
  {}

  /** A question is the beginning of the unread rest, and ends between characters. */
  lemma QuestionIsPrefix(text: Text, laying: Laying, streaming: bool)
    requires laying.reached <= |text| && Question(text, laying, streaming).Some?
    ensures var asked := Question(text, laying, streaming).value;
            && asked != [] && asked <= text[laying.reached..]
            && Clean(text, laying.reached + |asked|, streaming)
            && (streaming ==> asked[|asked| - 1] == LF)
  {
    var asked := Question(text, laying, streaming).value;
    var end := laying.reached + |asked|;
    if streaming {
      assert text[end - 1] == text[laying.reached..][|asked| - 1];
      BreakIsBoundary(text, end, streaming);
    }
  }

  lemma AnsweredReaches(w: World, read: Read, streaming: bool)
    requires Good(w, streaming) && w.asked.Some?
    ensures var laying := Answered(w.laying, w.asked.value, read, streaming);
            laying.reached <= |w.text| && Clean(w.text, laying.reached, streaming)
  {
    if read.Held? {
      var asked := w.asked.value;
      var end := Utf16Stop(asked, 0, 0, read.end);
      Utf16AtStops(asked, read.end);
      if 0 < end < |asked| {
        assert asked[end - 1] == w.text[w.laying.reached..][end - 1] && asked[end] == w.text[w.laying.reached..][end];
      }
    }
  }

  lemma GrowStaysGood(w: World, more: Text, streaming: bool)
    requires Good(w, streaming) && Fits(w.text, more, streaming)
    ensures Good(Next(w, Grow(more), streaming), streaming)
  {
    hide Clean, Complete, Question, Fits;
    var next := Next(w, Grow(more), streaming);
    BoundaryStays(w.text, more, w.laying.reached, streaming);
    assert (w.text + more)[w.laying.reached..] == w.text[w.laying.reached..] + more;
    if w.asked.Some? {
      BoundaryStays(w.text, more, w.laying.reached + |w.asked.value|, streaming);
    } else if next.asked.Some? {
      QuestionIsPrefix(next.text, next.laying, streaming);
    }
  }

  lemma AnswerStaysGood(w: World, read: Read, streaming: bool)
    requires Good(w, streaming)
    ensures Good(Next(w, Answer(read), streaming), streaming)
  {
    hide Clean, Complete, Question, Answered;
    var next := Next(w, Answer(read), streaming);
    if w.asked.Some? && !read.Asking? {
      AnsweredReaches(w, read, streaming);
      if next.asked.Some? { QuestionIsPrefix(next.text, next.laying, streaming); }
    }
  }

  lemma StaysGood(w: World, e: Event, streaming: bool)
    requires Good(w, streaming) && (e.Grow? ==> Fits(w.text, e.more, streaming))
    ensures Good(Next(w, e, streaming), streaming)
  {
    hide Good, Next, Fits;
    if e.Grow? { GrowStaysGood(w, e.more, streaming); } else { AnswerStaysGood(w, e.read, streaming); }
  }

  ghost predicate Run(w: World, es: seq<Event>, streaming: bool)
    decreases |es|
  {
    es != [] ==>
      Sound(w) && (es[0].Grow? ==> Fits(w.text, es[0].more, streaming)) && Run(Next(w, es[0], streaming), es[1..], streaming)
  }

  function Reached(w: World, es: seq<Event>, streaming: bool): World
    requires Run(w, es, streaming)
    decreases |es|
  {
    if es == [] then w else Reached(Next(w, es[0], streaming), es[1..], streaming)
  }

  /** In every run of growing and answering, whatever bytes the answers name, the text
      laid never passes the reply's end nor splits a character, and what is asked is
      the beginning of what is left. */
  lemma {:induction false} RunStaysGood(w: World, es: seq<Event>, streaming: bool)
    requires Good(w, streaming) && Run(w, es, streaming)
    ensures Good(Reached(w, es, streaming), streaming)
    decreases |es|
  {
    hide Good, Next;
    if es != [] {
      StaysGood(w, es[0], streaming);
      RunStaysGood(Next(w, es[0], streaming), es[1..], streaming);
    }
  }

  /** A reply opens with nothing laid. */
  lemma OpensGood(text: Text, streaming: bool)
    ensures Good(World(text, UNLAID, Question(text, UNLAID, streaming)), streaming)
  {
    if Question(text, UNLAID, streaming).Some? { QuestionIsPrefix(text, UNLAID, streaming); }
  }

  /** The same in every run from a reply's opening. */
  lemma EveryRunIsGood(text: Text, es: seq<Event>, streaming: bool)
    requires Run(World(text, UNLAID, Question(text, UNLAID, streaming)), es, streaming)
    ensures Good(Reached(World(text, UNLAID, Question(text, UNLAID, streaming)), es, streaming), streaming)
  {
    OpensGood(text, streaming);
    RunStaysGood(World(text, UNLAID, Question(text, UNLAID, streaming)), es, streaming);
  }

  // ------------------------------------------------------------ questions end

  lemma HasBreak(t: Text)
    ensures Breaks(t) > 0 <==> exists i :: 0 <= i < |t| && t[i] == LF
  {
    assert Breaks(t) > 0 <==> LF in t;
  }

  lemma CompleteIs(t: Text, n: nat)
    requires n <= |t| && (n > 0 ==> t[n - 1] == LF) && forall i :: n <= i < |t| ==> t[i] != LF
    ensures Complete(t) == n
  {}

  lemma CompleteJoins(a: Text, b: Text)
    ensures Complete(a + b) == if Breaks(b) > 0 then |a| + Complete(b) else Complete(a)
  {
    HasBreak(b);
    hide Breaks, Complete;
    if Breaks(b) > 0 {
      CompleteIs(a + b, |a| + Complete(b));
    } else {
      CompleteIs(a + b, Complete(a));
    }
  }

  /** The complete lines of an open stretch and what came after it: the stretch alone,
      unless a line break came. */
  lemma OpenLines(open: Text, tail: Text)
    requires open != [] ==> open[|open| - 1] == LF
    ensures var rest := open + tail;
            if Breaks(tail) > 0 then Complete(rest) > |open| && Breaks(rest[Complete(rest)..]) == 0
            else rest[..Complete(rest)] == open
  {
    CompleteJoins(open, tail);
    CompleteIs(open, |open|);
    NoBreakAfter(open + tail);
  }

  /** What is asked of a stretch judged open and what came after it. */
  lemma DueAfter(text: Text, laying: Laying, open: Text, tail: Text)
    requires laying.reached <= |text| && text[laying.reached..] == open + tail
    requires laying.judged == Some(open) && !laying.refused && (open != [] ==> open[|open| - 1] == LF)
    ensures Question(text, laying, true).Some? <==> Breaks(tail) > 0
    ensures Question(text, laying, true).Some? ==>
      var next := Question(text, laying, true).value;
      next <= text[laying.reached..] && Breaks(text[laying.reached + |next|..]) == 0
  {
    hide Complete, Breaks;
    var rest := open + tail;
    OpenLines(open, tail);
    assert rest[Complete(rest)..] == text[laying.reached + Complete(rest)..];
  }

  /** Once a streaming question is answered, another is due exactly when a line break
      has arrived past the stretch that was asked. */
  lemma NoQuestionRepeats(text: Text, laying: Laying, asked: Text, byte: nat, blocks: seq<Block>)
    requires laying.reached <= |text| && asked <= text[laying.reached..]
    requires asked != [] && asked[|asked| - 1] == LF
    ensures var after := Answered(laying, asked, Held(byte, blocks), true);
            after.reached <= |text|
            && (Question(text, after, true).Some? <==> Breaks(text[laying.reached + |asked|..]) > 0)
            && (Question(text, after, true).Some? ==>
                  var next := Question(text, after, true).value;
                  next <= text[after.reached..] && Breaks(text[after.reached + |next|..]) == 0)
  {
    hide Question, Breaks, Utf16Stop;
    var after := Answered(laying, asked, Held(byte, blocks), true);
    var end := Utf16Stop(asked, 0, 0, byte);
    RestSplits(text, laying.reached, asked, end);
    DueAfter(text, after, asked[end..], text[laying.reached + |asked|..]);
  }

  lemma RestSplits(text: Text, reached: nat, asked: Text, end: nat)
    requires reached <= |text| && asked <= text[reached..] && end <= |asked|
    ensures text[reached + end..] == asked[end..] + text[reached + |asked|..]
  {
    assert text[reached..] == asked + text[reached..][|asked|..];
    assert text[reached + end..] == text[reached..][end..];
  }

  lemma NoBreakAfter(t: Text)
    ensures Breaks(t[Complete(t)..]) == 0
  {
    var tail := t[Complete(t)..];
    HasBreak(tail);
    assert forall i :: 0 <= i < |tail| ==> tail[i] == t[Complete(t) + i];
  }

  /** Questions a streaming reply may still ask before another line break: the one out,
      and one for each break past it. */
  function Due(w: World): nat
    requires Sound(w)
  {
    if w.asked.None? then 0 else 1 + Breaks(w.text[w.laying.reached + |w.asked.value|..])
  }

  predicate Replies(w: World, e: Event) {
    e.Answer? && !e.read.Asking? && w.asked.Some?
  }

  lemma AskingUsesUp(w: World, e: Event)
    requires Good(w, true) && Sound(Next(w, e, true))
    ensures Due(Next(w, e, true)) + (if Replies(w, e) then 1 else 0)
            <= Due(w) + (if e.Grow? then Breaks(e.more) else 0)
  {
    hide Good, Question, Answered, Breaks;
    GoodIsSound(w, true);
    match e
    case Grow(more) =>
      if w.asked.Some? {
        var at := w.laying.reached + |w.asked.value|;
        assert (w.text + more)[at..] == w.text[at..] + more;
        BreaksJoined(w.text[at..], more, w.text[at..] + more);
      } else {
        GrowsDue(w, more);
      }
    case Answer(read) =>
      if Replies(w, e) { AnswerUsesUp(w, read); }
  }

  lemma AnswerUsesUp(w: World, read: Read)
    requires Good(w, true) && Replies(w, Answer(read)) && Sound(Next(w, Answer(read), true))
    ensures Due(Next(w, Answer(read), true)) < Due(w)
  {
    hide Complete, Clean, Breaks, Utf16Stop;
    if read.Held? {
      NoQuestionRepeats(w.text, w.laying, w.asked.value, read.end, read.blocks);
    }
  }

  lemma GrowsDue(w: World, more: Text)
    requires Good(w, true) && w.asked.None?
    ensures var next := Next(w, Grow(more), true);
            Sound(next) && Due(next) <= Breaks(more)
  {
    hide Clean, Complete, Breaks;
    var next := Next(w, Grow(more), true);
    var rest := w.text[w.laying.reached..];
    assert next.text[w.laying.reached..] == rest + more;
    CompleteJoins(rest, more);
    NoBreakAfter(rest + more);
    assert next.text[w.laying.reached + Complete(rest + more)..] == (rest + more)[Complete(rest + more)..];
    assert Breaks(more) == 0 ==> (rest + more)[..Complete(rest)] == rest[..Complete(rest)];
  }

  function Answers(w: World, es: seq<Event>, streaming: bool): nat
    requires Run(w, es, streaming)
    decreases |es|
  {
    if es == [] then 0
    else (if Replies(w, es[0]) then 1 else 0) + Answers(Next(w, es[0], streaming), es[1..], streaming)
  }

  function Grown(es: seq<Event>): Text {
    if es == [] then [] else (if es[0].Grow? then es[0].more else []) + Grown(es[1..])
  }

  /** A streaming reply asks no more often than line breaks arrive. */
  lemma {:induction false} StreamingAsksPerBreak(w: World, es: seq<Event>)
    requires Good(w, true) && Run(w, es, true)
    ensures Answers(w, es, true) <= Due(w) + Breaks(Grown(es))
    decreases |es|
  {
    hide Good, Next, Due, Breaks;
    if es != [] {
      StaysGood(w, es[0], true);
      assert Sound(Next(w, es[0], true)) by { GoodIsSound(Next(w, es[0], true), true); }
      AskingUsesUp(w, es[0]);
      StreamingAsksPerBreak(Next(w, es[0], true), es[1..]);
      BreaksJoined(if es[0].Grow? then es[0].more else [], Grown(es[1..]), Grown(es));
      NoBreaks();
    }
  }

  lemma NoBreaks()
    ensures Breaks([]) == 0
  {}

  lemma GoodIsSound(w: World, streaming: bool)
    requires Good(w, streaming)
    ensures Sound(w)
  {}

  /** What may still be asked of a settled reply. */
  function Left(w: World): nat
    requires Sound(w)
  {
    if w.asked.None? then 0 else |w.text| - w.laying.reached + 1
  }

  /** The question out on a settled reply is all that is unread. */
  predicate AsksRest(w: World) {
    Sound(w) && (w.asked.Some? ==> w.asked.value == w.text[w.laying.reached..])
  }

  lemma SettledUsesUp(w: World, e: Event)
    requires Good(w, false) && AsksRest(w) && Replies(w, e)
    ensures AsksRest(Next(w, e, false)) && Left(Next(w, e, false)) < Left(w)
  {}

  /** A settled reply is done after finitely many answers, whatever they name. */
  lemma {:induction false} SettledStops(w: World, es: seq<Event>)
    requires Good(w, false) && AsksRest(w) && Run(w, es, false)
    requires forall e :: e in es ==> e.Answer?
    ensures Answers(w, es, false) <= |w.text| - w.laying.reached + 1
    ensures Answers(w, es, false) <= Left(w)
    decreases |es|
  {
    hide Good, Next, SplitsPair;
    if es != [] {
      StaysGood(w, es[0], false);
      if Replies(w, es[0]) {
        SettledUsesUp(w, es[0]);
      } else {
        WaitsOn(w, es[0]);
      }
      SettledStops(Next(w, es[0], false), es[1..]);
    }
  }

  lemma WaitsOn(w: World, e: Event)
    requires Sound(w) && e.Answer? && !Replies(w, e)
    ensures Next(w, e, false) == w
  {}
}
