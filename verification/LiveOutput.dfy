/** `client/src/core/live_output.ts`: the output of a command still going, bounded as it
    comes. */
module LiveOutput {
  import opened Splitting

  datatype Stream = Out | Err

  datatype Piece = Piece(stream: Stream, text: string)

  datatype Tail = Tail(out: string, err: string, cut: int)

  const NO_TAIL := Tail("", "", 0)

  /** The lines of a text, as it is cut at its line feeds. */
  function Split(text: string): (lines: seq<string>)
    ensures lines != [] && forall i :: 0 <= i < |lines| ==> '\n' !in lines[i]
  {
    SplitOn(text, '\n')
  }

  /** The last lines of `text`, `cap` of them, and the count of the lines before. */
  function Bounded(text: string, cap: int): (string, nat) {
    var lines := Split(text);
    var cut := if |lines| - cap < 0 then 0 else |lines| - cap;
    if cut == 0 then (text, 0) else (JoinOn(if cut < |lines| then lines[cut..] else [], '\n'), cut)
  }

  function Of(tail: Tail, stream: Stream): string {
    if stream == Out then tail.out else tail.err
  }

  /** A piece written to its own stream, which is then bounded again. */
  function Appended(tail: Tail, piece: Piece, cap: int): Tail {
    var (text, cut) := Bounded(Of(tail, piece.stream) + piece.text, cap);
    match piece.stream
    case Out => tail.(out := text, cut := tail.cut + cut)
    case Err => tail.(err := text, cut := tail.cut + cut)
  }

  function After(pieces: seq<Piece>, cap: int): Tail {
    if pieces == [] then NO_TAIL else Appended(After(pieces[..|pieces| - 1], cap), pieces[|pieces| - 1], cap)
  }

  /** All a stream has been sent. */
  function Written(pieces: seq<Piece>, stream: Stream): string {
    if pieces == [] then ""
    else
      var last := pieces[|pieces| - 1];
      Written(pieces[..|pieces| - 1], stream) + (if last.stream == stream then last.text else "")
  }

  // ------------------------------------------------------------ lines joined and cut

  function Least(n: int, m: int): int { if n < m then n else m }

  /** What is kept is the newest lines, as many as the bound, and what went is the
      rest. */
  lemma BoundedKeeps(text: string, cap: int)
    requires cap >= 1
    ensures var (kept, cut) := Bounded(text, cap);
            && cut < |Split(text)| && Split(kept) == Split(text)[cut..]
            && |Split(kept)| == Least(|Split(text)|, cap)
            && kept == JoinOn(Split(text)[cut..], '\n')
  {
    var (kept, cut) := Bounded(text, cap);
    if cut > 0 {
      SplitUndoesJoin(Split(text)[cut..], '\n');
    } else {
      JoinUndoesSplit(text, '\n');
      assert Split(text)[0..] == Split(text);
    }
  }

  /** Bounding what was bounded and grew is bounding the whole. */
  lemma BoundingOnce(text: string, more: string, cap: int)
    requires cap >= 1
    ensures var (kept, cut) := Bounded(text, cap);
            var (again, cut') := Bounded(kept + more, cap);
            Bounded(text + more, cap) == (again, cut + cut')
  {
    var (kept, cut) := Bounded(text, cap);
    hide SplitOn, JoinOn;
    BoundedKeeps(text, cap);
    BoundedKeeps(kept + more, cap);
    BoundedKeeps(text + more, cap);
    SplitJoins(kept, more, '\n');
    SplitJoins(text, more, '\n');
    assert Glued(Split(text)[cut..], Split(more)) == Glued(Split(text), Split(more))[cut..];
    assert |Split(text + more)| >= |Split(text)|;
    CutAgain(text, kept, more, cut, cap);
  }

  lemma CutAgain(text: string, kept: string, more: string, cut: nat, cap: int)
    requires cap >= 1 && cut == (if |Split(text)| - cap < 0 then 0 else |Split(text)| - cap)
    requires cut < |Split(text)| <= |Split(text + more)|
    requires Split(kept + more) == Split(text + more)[cut..]
    ensures var (again, cut') := Bounded(kept + more, cap);
            Bounded(text + more, cap) == (again, cut + cut')
  {
    hide SplitOn, JoinOn;
    var (again, cut') := Bounded(kept + more, cap);
    var (once, all) := Bounded(text + more, cap);
    assert all == cut + cut';
    BoundedKeeps(kept + more, cap);
    BoundedKeeps(text + more, cap);
    assert Split(text + more)[cut..][cut'..] == Split(text + more)[all..];
  }

  // ------------------------------------------------------------ the tail

  /** Each stream holds what bounding all it was sent would leave, and `cut` counts what
      that drops of both. */
  ghost predicate Right(pieces: seq<Piece>, cap: int) {
    var tail := After(pieces, cap);
    forall s: Stream :: Of(tail, s) == Bounded(Written(pieces, s), cap).0
  }

  /** The lines of a stream past the newest `cap`; a stream sent nothing has none. */
  function Gone(text: string, cap: int): nat {
    if text == "" then 0 else Bounded(text, cap).1
  }

  ghost predicate Counted(pieces: seq<Piece>, cap: int) {
    After(pieces, cap).cut == Gone(Written(pieces, Out), cap) + Gone(Written(pieces, Err), cap)
  }

  lemma {:induction false} TailIsRight(pieces: seq<Piece>, cap: int)
    requires cap >= 1
    ensures Right(pieces, cap) && Counted(pieces, cap)
    decreases |pieces|
  {
    hide Split, JoinOn, Bounded;
    NothingIsBounded(cap);
    if pieces != [] {
      var before, last := pieces[..|pieces| - 1], pieces[|pieces| - 1];
      TailIsRight(before, cap);
      BoundingOnce(Written(before, last.stream), last.text, cap);
      assert Written(pieces, last.stream) == Written(before, last.stream) + last.text;
      var other := if last.stream == Out then Err else Out;
      assert Written(pieces, other) == Written(before, other) + "" == Written(before, other);
    }
  }

  lemma NothingIsBounded(cap: int)
    requires cap >= 1
    ensures Bounded("", cap) == ("", 0)
  {}

  lemma LineIsDropped(line: string, cap: int)
    requires cap < 1 && '\n' !in line
    ensures Bounded(line, cap) == ("", 1 - cap)
  {
    SplitOfPart(line, '\n');
  }

  /** With a bound below one, two pieces of one line are counted as two lines. */
  lemma NoCapMiscounts(cap: int)
    requires cap < 1
    ensures !Counted([Piece(Out, "a"), Piece(Out, "b")], cap)
  {
    hide Bounded;
    var a, b := Piece(Out, "a"), Piece(Out, "b");
    var pieces := [a, b];
    assert pieces[..1] == [a] && [a][..0] == [];
    LineIsDropped("a", cap);
    LineIsDropped("b", cap);
    LineIsDropped("ab", cap);
    assert "" + "a" == "a" && "" + "b" == "b" && "a" + "b" == "ab" && "" + "" == "";
    assert After([a], cap) == Tail("", "", 1 - cap);
    assert After(pieces, cap) == Tail("", "", 2 * (1 - cap));
    assert Written([a], Out) == Written([], Out) + "a" && Written([a], Err) == Written([], Err) + "";
    assert Written(pieces, Out) == Written([a], Out) + "b" && Written(pieces, Err) == Written([a], Err) + "";
  }

  /** Appending piece by piece is bounding once, for every output, exactly when the
      bound is at least one line. */
  lemma TailIsRightIff(cap: int)
    ensures (forall pieces :: Right(pieces, cap) && Counted(pieces, cap)) <==> cap >= 1
  {
    if cap >= 1 {
      forall pieces ensures Right(pieces, cap) && Counted(pieces, cap) { TailIsRight(pieces, cap); }
    } else {
      NoCapMiscounts(cap);
    }
  }
}
