/** What the printed parts of a fragment are read back as: addresses, queries and
    paths, each on its own. */
module RouteParts {
  import opened CodeUnits
  import opened Grammars
  import opened OrderedMaps
  import opened Percents
  import opened Route
  import opened Splitting

  // ------------------------------------------------------------ plain text

  lemma {:induction false} UnitsJoin(a: string, b: string)
    ensures Units(a + b) == Units(a) + Units(b)
    decreases |a|
  {
    hide UnitsOf;
    if a == [] {
      assert a + b == b;
    } else {
      assert (a + b)[1..] == a[1..] + b;
      UnitsJoin(a[1..], b);
    }
  }

  /** A character of neither end, nor the one between, is not in the whole. */
  lemma NotAmong(c: char, a: string, m: string, b: string)
    requires c !in a && c !in m && c !in b
    ensures c !in a + m + b
  {
    assert forall d :: d in a + m + b ==> d in a || d in m || d in b;
  }

  lemma UnitsDiffer(a: string, b: string)
    requires Plain(a) && Plain(b) && a != b
    ensures Units(a) != Units(b)
  {
    NarrowReads(a);
    NarrowReads(b);
  }

  // ------------------------------------------------------------ addresses

  ghost predicate AllWhole(parts: seq<Text>) {
    forall i :: 0 <= i < |parts| ==> WellFormed(parts[i])
  }

  lemma AllWholeHeaded(head: Text, rest: seq<Text>)
    ensures AllWhole([head] + rest) <==> WellFormed(head) && AllWhole(rest)
  {
    var parts := [head] + rest;
    if AllWhole(parts) {
      assert parts[0] == head;
      assert forall i :: 0 <= i < |rest| ==> rest[i] == parts[i + 1];
    }
  }

  /** An address's own text is whole characters exactly when each name in it is. */
  lemma {:induction false} NamesAreWhole(t: Text)
    ensures WellFormed(t) <==> AllWhole(SplitOn(t, SLASH))
    decreases |t|
  {
    hide AllWhole;
    if t != [] {
      var parts := SplitOn(t, SLASH);
      var rest := SplitOn(if Paired(t, 0) then t[2..] else t[1..], SLASH);
      NamesAreWhole(if Paired(t, 0) then t[2..] else t[1..]);
      assert rest == [rest[0]] + rest[1..] && parts == [parts[0]] + parts[1..];
      AllWholeHeaded(rest[0], rest[1..]);
      AllWholeHeaded(parts[0], parts[1..]);
      if Paired(t, 0) {
        PairedHead(t, rest);
      } else if t[0] == SLASH {
        assert parts == [[]] + rest;
        AllWholeHeaded([], rest);
      } else {
        assert parts[1..] == rest[1..];
        UnpairedHead(t, rest[0]);
      }
    } else {
      AllWholeNone();
    }
  }

  lemma AllWholeNone()
    ensures AllWhole([[]])
  {}

  lemma PairedHead(t: Text, rest: seq<Text>)
    requires t != [] && Paired(t, 0) && rest == SplitOn(t[2..], SLASH)
    ensures var parts := SplitOn(t, SLASH);
            parts[1..] == rest[1..] && (WellFormed(parts[0]) <==> WellFormed(rest[0]))
  {
    assert t[1..][1..] == t[2..];
    assert SplitOn(t[1..], SLASH) == [[t[1]] + rest[0]] + rest[1..];
    var head := SplitOn(t, SLASH)[0];
    assert head == [t[0]] + ([t[1]] + rest[0]) && head[2..] == rest[0];
    assert Paired(head, 0);
  }

  lemma UnpairedHead(t: Text, rest: Text)
    requires t != [] && !Paired(t, 0) && t[0] != SLASH
    requires rest == SplitOn(t[1..], SLASH)[0]
    ensures WellFormed([t[0]] + rest) <==> !IsLead(t[0]) && !IsTrail(t[0]) && WellFormed(rest)
  {
    var s := [t[0]] + rest;
    assert s[1..] == rest;
    if rest != [] {
      assert rest[0] == t[1];
    }
  }

  lemma {:induction false} ComponentsWritten(segments: seq<Text>)
    ensures AllComponents(segments).Some? <==> AllWhole(segments)
    ensures AllComponents(segments).Some? ==>
      var parts := AllComponents(segments).value;
      |parts| == |segments| && forall i :: 0 <= i < |segments| ==> Component(segments[i]) == Some(parts[i])
  {
    hide Encoded, Escape;
    if segments != [] {
      ComponentsWritten(segments[1..]);
      assert segments == [segments[0]] + segments[1..];
      AllWholeHeaded(segments[0], segments[1..]);
    }
  }

  lemma {:induction false} ComponentsRead(segments: seq<Text>, parts: seq<string>)
    requires |parts| == |segments| && forall i :: 0 <= i < |segments| ==> Component(segments[i]) == Some(parts[i])
    ensures AllRead(parts) == Some(segments)
    decreases |parts|
  {
    hide ComponentIn, Encoded, Escape;
    if parts != [] {
      ComponentReads(segments[0]);
      ComponentsRead(segments[1..], parts[1..]);
      assert segments == [segments[0]] + segments[1..];
    }
  }

  /** What an address is written with: what a component is, and slashes. */
  predicate Roomy(s: string) {
    forall i :: 0 <= i < |s| ==> Spelled(s[i]) || s[i] == '/'
  }

  predicate AllSpelled(part: string) {
    forall j :: 0 <= j < |part| ==> Spelled(part[j])
  }

  lemma {:induction false} JoinIsRoomy(parts: seq<string>)
    requires forall i :: 0 <= i < |parts| ==> AllSpelled(parts[i])
    ensures Roomy(JoinOn(parts, '/'))
    ensures parts != [] && parts[0] != [] ==> JoinOn(parts, '/') != [] && JoinOn(parts, '/')[0] == parts[0][0]
    decreases |parts|
  {
    hide Spelled;
    if |parts| > 1 {
      var rest := parts[1..];
      assert AllSpelled(parts[0]);
      forall i | 0 <= i < |rest| ensures AllSpelled(rest[i]) {
        assert rest[i] == parts[i + 1];
      }
      JoinIsRoomy(rest);
    } else if |parts| == 1 {
      assert AllSpelled(parts[0]);
    }
  }

  lemma ComponentIsSpelled(t: Text)
    requires WellFormed(t)
    ensures forall j :: 0 <= j < |Component(t).value| ==> Spelled(Component(t).value[j])
    ensures t != [] ==> Component(t).value != []
  {
    if t != [] { assert Encoded(Utf8, t) != []; }
  }

  /** An address can be written exactly when it is whole characters, and is then read
      back. */
  lemma AddressReads(address: Text)
    requires IsAddress(address)
    ensures Escaped(address).Some? <==> WellFormed(address)
    ensures Escaped(address).Some? ==>
      var s := Escaped(address).value;
      ReadEscaped(s) == Some(address) && Roomy(s) && s != [] && s[0] != '/'
  {
    hide WellFormed, Component, ComponentIn, IsSegment, AllSpelled, AllWhole, Roomy;
    var segments := SplitOn(address, SLASH);
    NamesAreWhole(address);
    ComponentsWritten(segments);
    if Escaped(address).Some? {
      var parts := AllComponents(segments).value;
      forall i | 0 <= i < |parts|
        ensures AllSpelled(parts[i]) && '/' !in parts[i] && parts[i] != []
      {
        assert IsSegment(segments[i]);
        SegmentIsWritten(segments[i], parts[i]);
      }
      JoinIsRoomy(parts);
      ComponentsRead(segments, parts);
      SplitUndoesJoin(parts, '/');
      JoinUndoesSplit(address, SLASH);
      assert parts[0][0] in parts[0];
    }
  }

  lemma SegmentIsWritten(segment: Text, part: string)
    requires IsSegment(segment) && Component(segment) == Some(part)
    ensures AllSpelled(part) && '/' !in part && part != []
  {
    ComponentIsSpelled(segment);
  }

  // ------------------------------------------------------------ the catalog's ending

  lemma {:induction false} JoinsLast(parts: seq<string>, sep: char)
    requires |parts| > 1
    ensures JoinOn(parts, sep) == JoinOn(parts[..|parts| - 1], sep) + [sep] + parts[|parts| - 1]
    decreases |parts|
  {
    var before := parts[..|parts| - 1];
    if |parts| > 2 {
      JoinsLast(parts[1..], sep);
      assert parts[1..][..|parts| - 2] == before[1..];
      var last := parts[|parts| - 1];
      assert parts[0] + [sep] + (JoinOn(before[1..], sep) + [sep] + last)
        == (parts[0] + [sep] + JoinOn(before[1..], sep)) + [sep] + last;
    } else {
      assert before == [parts[0]] && parts[1..] == [parts[1]];
    }
  }

  lemma EndsInLast(before: string, last: string)
    requires '/' !in last
    ensures EndsWith(before + "/" + last, CATALOG) <==> last == "catalog"
  {
    var s := before + "/" + last;
    assert CATALOG == "/" + "catalog";
    if last == "catalog" {
      assert s[|before|..] == "/" + last;
    }
    if EndsWith(s, CATALOG) {
      CatalogIsLast(s);
      LastIs(before, '/', last);
      assert last == s[|before| + 1..];
    }
  }

  lemma CatalogParts()
    ensures CATALOG == "/" + "catalog" && '/' !in "catalog"
  {}

  lemma EndedBy(s: string, end: string)
    requires EndsWith(s, end)
    ensures s == s[..|s| - |end|] + end
  {}

  lemma CatalogIsLast(s: string)
    requires EndsWith(s, CATALOG)
    ensures LastIndexOf(s, '/') == |s| - |CATALOG| && s[|s| - |CATALOG| + 1..] == "catalog" && '/' in s
  {
    var head := s[..|s| - |CATALOG|];
    CatalogParts();
    EndedBy(s, CATALOG);
    hide EndsWith, LastIndexOf;
    assert s == head + "/" + "catalog";
    LastIs(head, '/', "catalog");
    assert s[|head|] == '/';
  }

  /** The address ends in a name `catalog` below another. */
  predicate InCatalog(address: Text) {
    var names := SplitOn(address, SLASH);
    |names| > 1 && names[|names| - 1] == Units("catalog")
  }

  lemma CatalogComponent(name: Text)
    requires WellFormed(name)
    ensures Component(name) == Some("catalog") <==> name == Units("catalog")
  {
    hide ComponentIn, WellFormed, Encoded, Escape;
    PlainComponent("catalog");
    ComponentReads(name);
    ComponentReads(Units("catalog"));
  }

  lemma {:induction false} PlainComponent(s: string)
    requires forall i :: 0 <= i < |s| ==> IsAlnum(s[i])
    ensures Plain(s) && Component(Units(s)) == Some(s)
  {
    NarrowReads(s);
    if s != [] {
      PlainComponent(s[1..]);
      var t := Units(s);
      assert t == [s[0] as int] + Units(s[1..]) && t[1..] == Units(s[1..]);
      PlainHead(t);
      assert ([t[0]] + Encoded(Utf8, t[1..]))[1..] == Encoded(Utf8, t[1..]);
      assert s == [s[0]] + s[1..];
    }
  }

  /** An address written ends like a catalog's page exactly when it names one. */
  lemma CatalogEnds(address: Text)
    requires IsAddress(address) && WellFormed(address)
    ensures Escaped(address).Some? && (EndsWith(Escaped(address).value, CATALOG) <==> InCatalog(address))
  {
    hide WellFormed, Component, IsSegment, AllSpelled, Roomy, EndsWith;
    var names := SplitOn(address, SLASH);
    AddressReads(address);
    ComponentsWritten(names);
    NamesAreWhole(address);
    var parts := AllComponents(names).value;
    var n := |parts| - 1;
    assert IsSegment(names[n]);
    SegmentIsWritten(names[n], parts[n]);
    CatalogComponent(names[n]);
    if n > 0 {
      JoinsLast(parts, '/');
      EndsInLast(JoinOn(parts[..n], '/'), parts[n]);
    } else if EndsWith(parts[0], CATALOG) {
      CatalogIsLast(parts[0]);
    }
  }

  // ------------------------------------------------------------ queries

  lemma FieldReads(name: string, value: Text)
    requires forall i :: 0 <= i < |name| ==> IsAlnum(name[i])
    ensures FieldIn(name + "=" + FormOf(value)) == Field(Units(name), Usv(value))
  {
    hide FormOf, FormIn, Usv;
    FirstIs(name, '=', FormOf(value));
    var piece := name + "=" + FormOf(value);
    assert piece[..|name|] == name && piece[|name| + 1..] == FormOf(value);
    SafeReads(name);
    FormReads(value);
  }

  lemma FormHasNoMark(t: Text)
    ensures '&' !in FormOf(t) && '?' !in FormOf(t)
  {
    hide FormEscape, Usv;
    assert forall c :: c in FormOf(t) ==> Spelled(c);
  }

  lemma PieceIsWhole(name: string, value: Text)
    requires forall i :: 0 <= i < |name| ==> IsAlnum(name[i])
    ensures '&' !in name + "=" + FormOf(value) && '?' !in name + "=" + FormOf(value)
  {
    FormHasNoMark(value);
    assert forall c :: c in name + "=" + FormOf(value) ==> c in name || c == '=' || c in FormOf(value);
  }

  function Piece(name: string, value: Text): string {
    name + "=" + FormOf(value)
  }

  lemma QueryOf(s: string)
    requires s != [] && s[0] != '?'
    ensures Query(s) == Fields(SplitOn(s, '&'))
  {}

  lemma FieldsOf(a: string, b: string, c: string)
    requires a != [] && b != [] && c != []
    ensures Fields([a, b]) == [FieldIn(a), FieldIn(b)]
    ensures Fields([a, b, c]) == [FieldIn(a), FieldIn(b), FieldIn(c)]
  {
    hide FieldIn;
    assert [a, b][1..] == [b] && [b][1..] == [];
    assert [a, b, c][1..] == [b, c] && [b, c][1..] == [c] && [c][1..] == [];
    assert Fields([b]) == [FieldIn(b)] && Fields([c]) == [FieldIn(c)];
    assert Fields([b, c]) == [FieldIn(b), FieldIn(c)];
  }

  lemma TwoPieces(a: string, b: string)
    requires '&' !in a && '&' !in b && a != [] && b != [] && a[0] != '?'
    ensures Query(a + "&" + b) == [FieldIn(a), FieldIn(b)]
  {
    hide FieldIn, Query, SplitOn, Fields;
    SplitAtFirst(a, b, '&');
    SplitOfPart(b, '&');
    assert [a] + [b] == [a, b];
    QueryOf(a + "&" + b);
    FieldsOf(a, b, a);
  }

  lemma ThreePieces(a: string, b: string, c: string)
    requires '&' !in a && '&' !in b && '&' !in c && a != [] && b != [] && c != [] && a[0] != '?'
    ensures Query(a + "&" + (b + "&" + c)) == [FieldIn(a), FieldIn(b), FieldIn(c)]
  {
    hide FieldIn, Query, SplitOn, Fields;
    SplitAtFirst(b, c, '&');
    SplitOfPart(c, '&');
    SplitAtFirst(a, b + "&" + c, '&');
    assert [a] + ([b] + [c]) == [a, b, c];
    QueryOf(a + "&" + (b + "&" + c));
    FieldsOf(a, b, c);
  }

  lemma TwoFields(a: Field, b: Field)
    ensures Names([a, b]) == [a.name, b.name]
    ensures ValueOf([a, b], a.name) == a.value
    ensures a.name != b.name ==> ValueOf([a, b], b.name) == b.value
  {
    assert [a, b][1..] == [b] && [b][1..] == [];
    assert Names([b]) == [b.name];
  }

  lemma ThreeFields(a: Field, b: Field, c: Field)
    ensures Names([a, b, c]) == [a.name, b.name, c.name]
    ensures ValueOf([a, b, c], a.name) == a.value
    ensures a.name != b.name ==> ValueOf([a, b, c], b.name) == b.value
    ensures a.name != c.name && b.name != c.name ==> ValueOf([a, b, c], c.name) == c.value
  {
    assert [a, b, c][1..] == [b, c];
    TwoFields(b, c);
  }

  lemma NotBefore(a: Text, b: Text)
    requires a != [] && b != [] && a[0] > b[0]
    ensures !Before(a, b)
  {}

  lemma SortTwo(a: Text, b: Text)
    ensures Sorted([a, b]) == if Before(b, a) then [b, a] else [a, b]
  {
    assert [a, b][1..] == [b] && [b][1..] == [];
    assert Sorted([b]) == [b];
    assert InsertName(a, []) == [a];
  }

  lemma SortRising(a: Text, b: Text, c: Text)
    requires !Before(b, a) && !Before(c, b)
    ensures Sorted([a, b, c]) == [a, b, c]
  {
    assert [a, b, c][1..] == [b, c];
    SortTwo(b, c);
  }

  lemma KeysJoin(a: string, b: string)
    ensures JoinOn([Units(a), Units(b)], SPACE) == Units(a + " " + b)
  {
    assert [Units(a), Units(b)][1..] == [Units(b)];
    SpaceUnit();
    UnitsJoin(a, " ");
    UnitsJoin(a + " ", b);
  }

  lemma SpaceUnit()
    ensures Units(" ") == [SPACE]
  {
    assert " "[1..] == "";
  }

  lemma KeysJoinThree(a: string, b: string, c: string)
    ensures JoinOn([Units(a), Units(b), Units(c)], SPACE) == Units(a + " " + (b + " " + c))
  {
    assert [Units(a), Units(b), Units(c)][1..] == [Units(b), Units(c)];
    KeysJoin(b, c);
    SpaceUnit();
    UnitsJoin(a, " ");
    UnitsJoin(a + " ", b + " " + c);
  }

  lemma FirstUnit(s: string)
    requires s != [] && s[0] as int < 0x80
    ensures Units(s) != [] && Units(s)[0] == s[0] as int
  {}
}
