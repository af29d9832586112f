/** `client/src/core/document_bytes.ts`: a stored object's bytes, joined window after
    window as their base64 arrives. */
module DocumentBytes {
  import opened Base64
  import opened CodeUnits
  import opened DocumentWindows
  import opened OrderedMaps

  const DRAWN_BYTES_MAX := 64 * 1024 * 1024
  const MAX_SAFE_INTEGER := 0x1F_FFFF_FFFF_FFFF

  datatype BytesAnswer = BytesAnswer(base64: string, size: nat, span: Span, version: string)

  datatype Fetching = Fetching(version: string, size: Option<nat>, through: nat, parts: seq<seq<Byte>>)

  datatype Fetched =
    | StillFetching(reached: nat, known: Option<nat>)
    | Ready(bytes: array<Byte>)
    | TooLarge(length: nat)

  function Started(version: string): Fetching {
    Fetching(version, None, 0, [])
  }

  function NextBytes(f: Fetching): Option<Span> {
    if f.size.None? then Some(Span(f.through, MAX_SAFE_INTEGER))
    else if f.size.value > DRAWN_BYTES_MAX || f.through >= f.size.value then None
    else Some(Span(f.through, f.size.value))
  }

  function JoinedBytes(f: Fetching, answer: BytesAnswer): Fetching {
    if answer.version != f.version || answer.span.start != f.through then f
    else
      var bytes := Decode(answer.base64);
      if bytes.None? || |bytes.value| != answer.span.end - answer.span.start then f
      else Fetching(f.version, Some(answer.size), answer.span.end, f.parts + [bytes.value])
  }

  function JoinedAllBytes(f: Fetching, answers: seq<BytesAnswer>): Fetching
    decreases |answers|
  {
    if answers == [] then f else JoinedAllBytes(JoinedBytes(f, answers[0]), answers[1..])
  }

  function Flat(parts: seq<seq<Byte>>): seq<Byte> {
    if parts == [] then [] else Flat(parts[..|parts| - 1]) + parts[|parts| - 1]
  }

  lemma FlatAdds(parts: seq<seq<Byte>>, part: seq<Byte>)
    ensures Flat(parts + [part]) == Flat(parts) + part
  {
    assert (parts + [part])[..|parts|] == parts;
  }

  lemma {:induction false} FlatLonger(parts: seq<seq<Byte>>, i: nat)
    requires i <= |parts|
    ensures |Flat(parts[..i])| <= |Flat(parts)|
    decreases |parts|
  {
    if i < |parts| {
      FlatLonger(parts[..|parts| - 1], i);
      assert parts[..|parts| - 1][..i] == parts[..i];
    } else {
      assert parts[..i] == parts;
    }
  }

  /** The parts held are as long as the bytes have reached. */
  ghost predicate Measured(f: Fetching) {
    |Flat(f.parts)| == f.through
  }

  /** Whatever is answered, true or not, the parts add up to where the bytes reach. */
  lemma {:induction false} PartsAddUp(f: Fetching, answers: seq<BytesAnswer>)
    requires Measured(f)
    ensures Measured(JoinedAllBytes(f, answers))
    decreases |answers|
  {
    if answers != [] {
      var bytes := Decode(answers[0].base64);
      if bytes.Some? { FlatAdds(f.parts, bytes.value); }
      PartsAddUp(JoinedBytes(f, answers[0]), answers[1..]);
    }
  }

  /** An answer for the object's own version spells its bytes. */
  ghost predicate Spells(answer: BytesAnswer, version: string, file: seq<Byte>) {
    answer.version == version ==>
      && answer.size == |file|
      && answer.span.start <= answer.span.end
      && (answer.span.start <= |file| ==>
            answer.span.end <= |file| && answer.base64 == Encode(file[answer.span.start..answer.span.end]))
  }

  ghost predicate PrefixOf(f: Fetching, file: seq<Byte>) {
    f.through <= |file| && Flat(f.parts) == file[..f.through] && (f.size.Some? ==> f.size.value == |file|)
  }

  lemma JoinKeepsBytes(f: Fetching, answer: BytesAnswer, file: seq<Byte>)
    requires PrefixOf(f, file) && Spells(answer, f.version, file)
    ensures PrefixOf(JoinedBytes(f, answer), file) && JoinedBytes(f, answer).version == f.version
    ensures answer.version == f.version && answer.span.start == f.through ==>
      JoinedBytes(f, answer).through == answer.span.end
  {
    hide Decode, Encode, Flat;
    if answer.version == f.version && answer.span.start == f.through {
      var bytes := file[answer.span.start..answer.span.end];
      DecodeUndoesEncode(bytes);
      FlatAdds(f.parts, bytes);
      assert file[..f.through] + bytes == file[..answer.span.end];
    }
  }

  /** Whatever true answers arrive, in any order and however often, the parts are the
      object's bytes up to where they reach, and all of them once nothing is left to
      ask of an object small enough to draw. */
  lemma {:induction false} FetchedIsPrefix(f: Fetching, answers: seq<BytesAnswer>, file: seq<Byte>)
    requires PrefixOf(f, file) && forall a :: a in answers ==> Spells(a, f.version, file)
    ensures var g := JoinedAllBytes(f, answers);
            PrefixOf(g, file)
            && (NextBytes(g) == None && |file| <= DRAWN_BYTES_MAX ==> Flat(g.parts) == file)
    decreases |answers|
  {
    hide Spells, Decode, Flat;
    if answers != [] {
      JoinKeepsBytes(f, answers[0], file);
      FetchedIsPrefix(JoinedBytes(f, answers[0]), answers[1..], file);
    } else if f.through == |file| {
      assert file[..f.through] == file;
    }
  }

  /** The same from nothing: a fetch of one object, whatever true answers it gets. */
  lemma FetchFromNothing(version: string, answers: seq<BytesAnswer>, file: seq<Byte>)
    requires forall a :: a in answers ==> Spells(a, version, file)
    ensures var g := JoinedAllBytes(Started(version), answers);
            && Measured(g)
            && PrefixOf(g, file)
            && (NextBytes(g) == None && |file| <= DRAWN_BYTES_MAX ==> Flat(g.parts) == file)
  {
    hide Spells;
    PartsAddUp(Started(version), answers);
    FetchedIsPrefix(Started(version), answers, file);
  }

  /** A true window of what was asked, not empty before the end, is joined and moves on. */
  lemma WindowMovesOn(f: Fetching, answer: BytesAnswer, file: seq<Byte>)
    requires PrefixOf(f, file) && NextBytes(f).Some? && Spells(answer, f.version, file)
    requires answer.version == f.version && answer.span.start == NextBytes(f).value.start
    requires f.through < |file| ==> answer.span.end > answer.span.start
    ensures JoinedBytes(f, answer).through > f.through || NextBytes(JoinedBytes(f, answer)) == None
  {
    hide Decode, Flat;
    JoinKeepsBytes(f, answer, file);
    DecodeUndoesEncode(file[answer.span.start..answer.span.end]);
  }

  /** The bytes once they are whole, in one buffer filled part after part. */
  method FetchedOf(f: Fetching) returns (r: Fetched)
    requires Measured(f)
    ensures r.TooLarge? <==> f.size.Some? && f.size.value > DRAWN_BYTES_MAX
    ensures r.TooLarge? ==> r.length == f.size.value
    ensures r.Ready? <==> f.size.Some? && f.size.value <= DRAWN_BYTES_MAX && f.through >= f.size.value
    ensures r.Ready? ==> fresh(r.bytes) && r.bytes[..] == Flat(f.parts)
    ensures r.StillFetching? ==> r.reached == f.through && r.known == f.size
  {
    if f.size.Some? && f.size.value > DRAWN_BYTES_MAX { return TooLarge(f.size.value); }
    if f.size.None? || f.through < f.size.value { return StillFetching(f.through, f.size); }
    var whole := new Byte[f.through];
    var offset := 0;
    for i := 0 to |f.parts|
      invariant offset == |Flat(f.parts[..i])| <= whole.Length
      invariant whole[..offset] == Flat(f.parts[..i])
    {
      FlatLonger(f.parts, i + 1);
      FlatAdds(f.parts[..i], f.parts[i]);
      assert f.parts[..i + 1] == f.parts[..i] + [f.parts[i]];
      Set(whole, f.parts[i], offset);
      offset := offset + |f.parts[i]|;
    }
    assert f.parts[..|f.parts|] == f.parts;
    return Ready(whole);
  }

  /** Writes `part` into the buffer at `offset`. */
  method Set(whole: array<Byte>, part: seq<Byte>, offset: nat)
    requires offset + |part| <= whole.Length
    modifies whole
    ensures whole[..] == old(whole[..offset]) + part + old(whole[offset + |part|..])
  {
    forall k | 0 <= k < |part| {
      whole[offset + k] := part[k];
    }
  }
}
