/** Texts cut at a separator and put together again, as `split` and `join` do. */
module Splitting {

  function SplitOn<T(==)>(s: seq<T>, sep: T): (parts: seq<seq<T>>)
    ensures parts != [] && forall i :: 0 <= i < |parts| ==> sep !in parts[i]
  {
    if s == [] then [[]]
    else
      var rest := SplitOn(s[1..], sep);
      if s[0] == sep then [[]] + rest else [[s[0]] + rest[0]] + rest[1..]
  }

  function JoinOn<T>(parts: seq<seq<T>>, sep: T): seq<T> {
    if parts == [] then []
    else if |parts| == 1 then parts[0]
    else parts[0] + [sep] + JoinOn(parts[1..], sep)
  }

  /** The parts of two texts, one after the other: the part they meet in is one. */
  function Glued<T>(a: seq<seq<T>>, b: seq<seq<T>>): seq<seq<T>>
    requires a != [] && b != []
  {
    a[..|a| - 1] + [a[|a| - 1] + b[0]] + b[1..]
  }

  lemma {:induction false} SplitJoins<T>(a: seq<T>, b: seq<T>, sep: T)
    ensures SplitOn(a + b, sep) == Glued(SplitOn(a, sep), SplitOn(b, sep))
    decreases |a|
  {
    if a == [] {
      assert a + b == b;
      assert [] + SplitOn(b, sep)[0] == SplitOn(b, sep)[0];
    } else {
      assert (a + b)[1..] == a[1..] + b;
      SplitJoins(a[1..], b, sep);
      GlueHeads(a[0], SplitOn(a[1..], sep), SplitOn(b, sep));
    }
  }

  lemma GlueHeads<T>(c: T, a: seq<seq<T>>, b: seq<seq<T>>)
    requires a != [] && b != []
    ensures [[]] + Glued(a, b) == Glued([[]] + a, b)
    ensures [[c] + Glued(a, b)[0]] + Glued(a, b)[1..] == Glued([[c] + a[0]] + a[1..], b)
  {
    assert ([[]] + a)[|a|] == a[|a| - 1];
    if |a| == 1 {
      assert [c] + (a[0] + b[0]) == ([c] + a[0]) + b[0];
      assert Glued(a, b)[1..] == b[1..];
    } else {
      var headed := [[c] + a[0]] + a[1..];
      assert headed[|a| - 1] == a[|a| - 1];
      assert Glued(a, b)[0] == a[0];
    }
  }

  lemma {:induction false} SplitOfPart<T>(part: seq<T>, sep: T)
    requires sep !in part
    ensures SplitOn(part, sep) == [part]
  {
    if part != [] {
      assert part == [part[0]] + part[1..];
      SplitOfPart(part[1..], sep);
    }
  }

  /** The first part ends at the first separator. */
  lemma SplitAtFirst<T>(part: seq<T>, rest: seq<T>, sep: T)
    requires sep !in part
    ensures SplitOn(part + [sep] + rest, sep) == [part] + SplitOn(rest, sep)
  {
    assert part + [sep] + rest == part + ([sep] + rest);
    SplitOfPart(part, sep);
    SplitJoins(part, [sep] + rest, sep);
    assert ([sep] + rest)[1..] == rest;
    assert SplitOn([sep] + rest, sep) == [[]] + SplitOn(rest, sep);
    assert part + [] == part;
  }

  lemma {:induction false} SplitUndoesJoin<T>(parts: seq<seq<T>>, sep: T)
    requires parts != [] && forall i :: 0 <= i < |parts| ==> sep !in parts[i]
    ensures SplitOn(JoinOn(parts, sep), sep) == parts
  {
    if |parts| == 1 {
      SplitOfPart(parts[0], sep);
    } else {
      SplitUndoesJoin(parts[1..], sep);
      SplitAtFirst(parts[0], JoinOn(parts[1..], sep), sep);
    }
  }

  lemma {:induction false} JoinUndoesSplit<T>(s: seq<T>, sep: T)
    ensures JoinOn(SplitOn(s, sep), sep) == s
  {
    if s != [] {
      JoinUndoesSplit(s[1..], sep);
      var rest := SplitOn(s[1..], sep);
      assert s == [s[0]] + s[1..];
      if s[0] == sep {
        assert ([[]] + rest)[1..] == rest;
        assert [] + [sep] + JoinOn(rest, sep) == [sep] + JoinOn(rest, sep);
      } else {
        var headed := [[s[0]] + rest[0]] + rest[1..];
        assert headed[1..] == rest[1..];
      }
    }
  }

  /** Where `c` first stands, or -1. */
  function IndexOf<T(==)>(s: seq<T>, c: T): (i: int)
    ensures -1 <= i < |s| && (i < 0 <==> c !in s)
    ensures i >= 0 ==> s[i] == c && c !in s[..i]
  {
    if s == [] then -1
    else
      assert s == [s[0]] + s[1..];
      if s[0] == c then 0
      else
        var i := IndexOf(s[1..], c);
        if i < 0 then -1
        else
          assert s[..i + 1] == [s[0]] + s[1..][..i];
          i + 1
  }

  /** Where `c` last stands, or -1. */
  function LastIndexOf<T(==)>(s: seq<T>, c: T): (i: int)
    ensures -1 <= i < |s| && (i < 0 <==> c !in s)
    ensures i >= 0 ==> s[i] == c && c !in s[i + 1..]
  {
    if s == [] then -1
    else
      assert s == s[..|s| - 1] + [s[|s| - 1]];
      if s[|s| - 1] == c then |s| - 1
      else
        var i := LastIndexOf(s[..|s| - 1], c);
        if i < 0 then -1
        else
          assert s[i + 1..] == s[..|s| - 1][i + 1..] + [s[|s| - 1]];
          i
  }

  lemma {:induction false} FirstIs<T>(a: seq<T>, c: T, b: seq<T>)
    requires c !in a
    ensures IndexOf(a + [c] + b, c) == |a|
    decreases |a|
  {
    if a != [] {
      assert (a + [c] + b)[1..] == a[1..] + [c] + b;
      FirstIs(a[1..], c, b);
    }
  }

  lemma {:induction false} LastIs<T>(a: seq<T>, c: T, b: seq<T>)
    requires c !in b
    ensures LastIndexOf(a + [c] + b, c) == |a|
    decreases |b|
  {
    var s := a + [c] + b;
    if b != [] {
      assert s[|s| - 1] == b[|b| - 1];
      assert s[..|s| - 1] == a + [c] + b[..|b| - 1];
      LastIs(a, c, b[..|b| - 1]);
    }
  }
}
