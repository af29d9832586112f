/** A view printed and read is that view: for which views, exactly. */
module RouteTrip {
  import opened CodeUnits
  import opened Decimals
  import opened Grammars
  import opened OrderedMaps
  import opened Percents
  import opened Route
  import opened RouteParts
  import opened Splitting

  // ------------------------------------------------------------ items

  lemma PlainHex(s: string)
    requires IsRunId(s) || IsHash(s) || AllDigits(s)
    ensures Plain(s) && forall i :: 0 <= i < |s| ==> FormSafe(s[i])
  {}

  lemma CallPieces(run: string, at: nat)
    requires IsRunId(run)
    ensures Query(ItemQuery(Call(run, at))) == [Field(Units("call"), Units(run)), Field(Units("at"), Units(Decimal(at)))]
    ensures '?' !in ItemQuery(Call(run, at))
  {
    hide FieldIn, FormOf, Query, Usv, FormIn, Decimal;
    PlainHex(run);
    SafeReads(run);
    var digits := Decimal(at);
    assert AllDigits(digits);
    PlainHex(digits);
    SafeReads(digits);
    NarrowReads(run);
    NarrowReads(digits);
    UsvKeepsWellFormed(Units(run));
    UsvKeepsWellFormed(Units(digits));
    FieldReads("call", Units(run));
    FieldReads("at", Units(digits));
    var a, b := "call" + "=" + FormOf(Units(run)), "at" + "=" + FormOf(Units(digits));
    PieceIsWhole("call", Units(run));
    PieceIsWhole("at", Units(digits));
    TwoPieces(a, b);
    CallQueryText(run, digits, a, b);
  }

  lemma CallQueryText(run: string, digits: string, a: string, b: string)
    requires a == "call" + "=" + FormOf(Units(run)) && b == "at" + "=" + FormOf(Units(digits))
    requires '?' !in a && '?' !in b
    ensures "call=" + FormOf(Units(run)) + "&at=" + FormOf(Units(digits)) == a + "&" + b
    ensures '?' !in a + "&" + b
  {
    hide FormOf, Units;
    assert "call" + "=" == "call=" && "at" + "=" == "at=";
    assert "&at=" == "&" + "at=";
    assert forall c :: c in a + "&" + b ==> c in a || c == '&' || c in b;
  }

  lemma CallKeys()
    ensures JoinOn(Sorted([KEY_CALL, KEY_AT]), SPACE) == CALL_KEYS && KEY_CALL != KEY_AT
  {
    hide Units;
    FirstUnit("call");
    FirstUnit("at");
    SortTwo(KEY_CALL, KEY_AT);
    KeysJoin("at", "call");
    assert "at" + " " + "call" == "at call";
  }

  /** A call's link is read back as that call. */
  lemma CallReads(run: string, at: nat)
    requires IsRunId(run) && at <= MAX_SAFE_INTEGER
    ensures ReadItem(ItemQuery(Call(run, at))) == Some(Call(run, at))
  {
    hide Query, ItemQuery, Sorted, Names, ValueOf, Units, FormOf, IsRunId;
    CallPieces(run, at);
    var digits := Decimal(at);
    TwoFields(Field(KEY_CALL, Units(run)), Field(KEY_AT, Units(digits)));
    CallKeys();
    PlainHex(run);
    PlainHex(digits);
    NarrowReads(run);
    NarrowReads(digits);
    NumberUndoesDecimal(at);
  }

  lemma DocumentPieces(building: Text, path: Text, version: Option<string>)
    requires version.Some? ==> IsHash(version.value)
    ensures Query(ItemQuery(Document(building, path, version))) ==
            [Field(Units("building"), Usv(building)), Field(Units("path"), Usv(path))]
            + (if version.Some? then [Field(Units("version"), Units(version.value))] else [])
    ensures '?' !in ItemQuery(Document(building, path, version))
  {
    hide FieldIn, FormOf, Query, Usv, FormIn, Units;
    FieldReads("building", building);
    FieldReads("path", path);
    var a, b := "building" + "=" + FormOf(building), "path" + "=" + FormOf(path);
    PieceIsWhole("building", building);
    PieceIsWhole("path", path);
    if version.Some? {
      var v := version.value;
      PlainHex(v);
      SafeReads(v);
      NarrowReads(v);
      UsvKeepsWellFormed(Units(v));
      FieldReads("version", Units(v));
      PieceIsWhole("version", Units(v));
      var c := "version" + "=" + FormOf(Units(v));
      ThreePieces(a, b, c);
      VersionedText(building, path, v, a, b, c);
    } else {
      TwoPieces(a, b);
      UnversionedText(building, path, a, b);
    }
  }

  lemma TwoJoined(p: string, x: string, q: string, y: string)
    ensures p + x + ("&" + q) + y == (p + x) + "&" + (q + y)
  {}

  lemma ThreeJoined(a: string, b: string, c: string)
    ensures a + "&" + b + ("&" + c) == a + "&" + (b + "&" + c)
  {}

  lemma UnversionedText(building: Text, path: Text, a: string, b: string)
    requires a == "building" + "=" + FormOf(building) && b == "path" + "=" + FormOf(path)
    requires '?' !in a && '?' !in b
    ensures ItemQuery(Document(building, path, None)) == a + "&" + b && '?' !in a + "&" + b
  {
    hide FormOf;
    assert "building" + "=" == "building=" && "path" + "=" == "path=" && "&" + "path=" == "&path=";
    TwoJoined("building=", FormOf(building), "path=", FormOf(path));
    assert a + "&" + b + "" == a + "&" + b;
    NotAmong('?', a, "&", b);
  }

  lemma ItemVersioned(building: Text, path: Text, v: string)
    ensures ItemQuery(Document(building, path, Some(v)))
            == ItemQuery(Document(building, path, None)) + ("&version=" + FormOf(Units(v)))
  {
    hide FormOf, Units;
    var plain := "building=" + FormOf(building) + "&path=" + FormOf(path);
    assert plain + "" == plain;
  }

  lemma VersionedText(building: Text, path: Text, v: string, a: string, b: string, c: string)
    requires a == "building" + "=" + FormOf(building) && b == "path" + "=" + FormOf(path)
    requires c == "version" + "=" + FormOf(Units(v)) && '?' !in a && '?' !in b && '?' !in c
    ensures ItemQuery(Document(building, path, Some(v))) == a + "&" + (b + "&" + c)
    ensures '?' !in a + "&" + (b + "&" + c)
  {
    UnversionedText(building, path, a, b);
    ItemVersioned(building, path, v);
    VersionedTail(v, c);
    hide *;
    ThreeJoined(a, b, c);
    NotAmong('?', b, "&", c);
    NotAmong('?', a, "&", b + "&" + c);
  }

  lemma VersionedTail(v: string, c: string)
    requires c == "version" + "=" + FormOf(Units(v))
    ensures "&version=" + FormOf(Units(v)) == "&" + c
  {
    hide FormOf, Units;
    assert "version" + "=" == "version=" && "&version=" == "&" + "version=";
    assert ("&" + "version=") + FormOf(Units(v)) == "&" + ("version=" + FormOf(Units(v)));
  }

  lemma DocumentKeys()
    ensures JoinOn(Sorted([KEY_BUILDING, KEY_PATH]), SPACE) == DOCUMENT_KEYS && KEY_BUILDING != KEY_PATH
  {
    hide Units;
    FirstUnit("building");
    FirstUnit("path");
    SortTwo(KEY_BUILDING, KEY_PATH);
    KeysJoin("building", "path");
    assert "building" + " " + "path" == "building path";
  }

  lemma VersionedKeys()
    ensures JoinOn(Sorted([KEY_BUILDING, KEY_PATH, KEY_VERSION]), SPACE) == VERSIONED_KEYS
    ensures KEY_BUILDING != KEY_PATH && KEY_BUILDING != KEY_VERSION && KEY_PATH != KEY_VERSION
  {
    hide Units, Before, Sorted, JoinOn;
    FirstUnit("building");
    FirstUnit("path");
    FirstUnit("version");
    NotBefore(KEY_PATH, KEY_BUILDING);
    NotBefore(KEY_VERSION, KEY_PATH);
    SortRising(KEY_BUILDING, KEY_PATH, KEY_VERSION);
    KeysJoinThree("building", "path", "version");
    assert "building" + " " + ("path" + " " + "version") == "building path version";
  }

  lemma KeysDiffer()
    ensures CALL_KEYS != DOCUMENT_KEYS && CALL_KEYS != VERSIONED_KEYS && DOCUMENT_KEYS != VERSIONED_KEYS
  {
    hide Units;
    UnitsDiffer("building path", "at call");
    UnitsDiffer("building path version", "at call");
    UnitsDiffer("building path", "building path version");
  }

  lemma DocumentFields(building: Text, path: Text)
    ensures var fields := [Field(KEY_BUILDING, Usv(building)), Field(KEY_PATH, Usv(path))];
            && JoinOn(Sorted(Names(fields)), SPACE) == DOCUMENT_KEYS
            && ValueOf(fields, KEY_BUILDING) == Usv(building) && ValueOf(fields, KEY_PATH) == Usv(path)
  {
    hide *;
    DocumentKeys();
    TwoFields(Field(KEY_BUILDING, Usv(building)), Field(KEY_PATH, Usv(path)));
  }

  lemma VersionedFields(building: Text, path: Text, version: string)
    ensures var fields := [Field(KEY_BUILDING, Usv(building)), Field(KEY_PATH, Usv(path)), Field(KEY_VERSION, Units(version))];
            && JoinOn(Sorted(Names(fields)), SPACE) == VERSIONED_KEYS
            && ValueOf(fields, KEY_BUILDING) == Usv(building) && ValueOf(fields, KEY_PATH) == Usv(path)
            && ValueOf(fields, KEY_VERSION) == Units(version)
  {
    hide *;
    VersionedKeys();
    ThreeFields(Field(KEY_BUILDING, Usv(building)), Field(KEY_PATH, Usv(path)), Field(KEY_VERSION, Units(version)));
  }

  /** A document's link is read back as that document exactly when its path is not
      empty and neither name holds half a surrogate pair. */
  lemma DocumentReads(building: Text, path: Text, version: Option<string>)
    requires IsAddress(building) && (version.Some? ==> IsHash(version.value))
    ensures ReadItem(ItemQuery(Document(building, path, version))) == Some(Document(building, path, version))
            <==> path != [] && WellFormed(path) && WellFormed(building)
  {
    hide Query, ItemQuery, Sorted, Names, ValueOf, Units, FormOf, IsHash, IsAddress, Usv, JoinOn, WellFormed;
    DocumentPieces(building, path, version);
    KeysDiffer();
    UsvKeepsWellFormed(path);
    UsvKeepsWellFormed(building);
    UsvEmpty(path);
    var a, b := Field(KEY_BUILDING, Usv(building)), Field(KEY_PATH, Usv(path));
    if version.Some? {
      VersionedFields(building, path, version.value);
      PlainHex(version.value);
      NarrowReads(version.value);
      assert [a, b] + [Field(KEY_VERSION, Units(version.value))] == [a, b, Field(KEY_VERSION, Units(version.value))];
    } else {
      DocumentFields(building, path);
      assert [a, b] + [] == [a, b];
    }
  }

  lemma UsvEmpty(t: Text)
    ensures Usv(t) == [] <==> t == []
  {}

  /** The item can be linked to. */
  predicate Linkable(item: Item) {
    item.Document? ==> item.path != [] && WellFormed(item.path) && WellFormed(item.building)
  }

  predicate TypedItem(item: Item) {
    match item
    case Call(run, at) => IsRunId(run) && at <= MAX_SAFE_INTEGER
    case Document(building, _, version) => IsAddress(building) && (version.Some? ==> IsHash(version.value))
  }

  lemma ItemReads(item: Item)
    requires TypedItem(item)
    ensures ReadItem(ItemQuery(item)) == Some(item) <==> Linkable(item)
    ensures '?' !in ItemQuery(item)
  {
    hide ReadItem, ItemQuery, IsRunId, IsHash, IsAddress, WellFormed;
    match item
    case Call(run, at) =>
      CallPieces(run, at);
      CallReads(run, at);
    case Document(building, path, version) =>
      DocumentPieces(building, path, version);
      DocumentReads(building, path, version);
  }

  // ------------------------------------------------------------ conversations

  lemma DigitsHaveNoMark(n: nat)
    ensures ':' !in Decimal(n) && '?' !in Decimal(n) && '/' !in Decimal(n) && '&' !in Decimal(n)
    ensures AllDigits(Decimal(n)) && Number(Decimal(n)) == n
  {
    NumberUndoesDecimal(n);
    assert forall c :: c in Decimal(n) ==> IsDigit(c);
  }

  lemma RoomHasNoMark(s: string)
    requires Roomy(s)
    ensures ':' !in s && '?' !in s && '&' !in s && '#' !in s
  {
    assert forall c :: c in s ==> Spelled(c) || c == '/';
  }

  lemma SessionReads(room: string, address: Text, n: nat)
    requires ReadEscaped(room) == Some(address) && '?' !in room && '&' !in room && n <= MAX_SAFE_INTEGER
    ensures var tail := room + (":" + Decimal(n));
            TalkIn(tail) == Some(Talk(address, None, Some(n))) && '?' !in tail && '&' !in tail
  {
    hide ReadEscaped, Decimal, Number, LastIndexOf, AllDigits;
    var digits := Decimal(n);
    DigitsHaveNoMark(n);
    LastIs(room, ':', digits);
    var tail := room + ":" + digits;
    assert tail == room + (":" + digits);
    assert tail[..|room|] == room && tail[|room| + 1..] == digits;
    NotAmong('?', room, ":", digits);
    NotAmong('&', room, ":", digits);
  }

  lemma TalkReads(address: Text, session: Option<nat>)
    requires IsAddress(address) && WellFormed(address) && (session.Some? ==> session.value <= MAX_SAFE_INTEGER)
    ensures Escaped(address).Some?
    ensures var tail := Escaped(address).value + Stretch(session);
            TalkIn(tail) == Some(Talk(address, None, session)) && tail != [] && '?' !in tail && '&' !in tail
  {
    hide IsAddress, WellFormed, Escaped, ReadEscaped, Decimal, Number, Roomy;
    AddressReads(address);
    var room := Escaped(address).value;
    RoomHasNoMark(room);
    if session.Some? {
      hide TalkIn;
      SessionReads(room, address, session.value);
    } else {
      assert room + "" == room;
    }
  }

  // ------------------------------------------------------------ paths

  /** A fragment that opens a path names what the path does, and is no invitation. */
  predicate Opens(p: string) {
    p == "" || (p[0] != '/' && p[0] != '#')
  }

  lemma StripsToPath(p: string)
    requires Opens(p)
    ensures Stripped(Stripped("#/" + p, '#'), '/') == p
  {
    var s := "#/" + p;
    assert s[1..] == "/" + p;
    assert ("/" + p)[1..] == p;
    assert Stripped("/" + p, '#') == "/" + p;
    assert Stripped(p, '/') == p;
  }

  lemma {:induction false} SlashOpensName(piece: string)
    requires piece != [] && piece[0] == '/'
    ensures FieldIn(piece).name != [] && FieldIn(piece).name[0] == SLASH
  {
    var cut := IndexOf(piece, '=');
    var name := if cut < 0 then piece else piece[..cut];
    assert name[0] == '/';
    SlashOpensForm(name);
  }

  lemma SlashOpensForm(s: string)
    requires s != [] && s[0] == '/'
    ensures FormIn(s) != [] && FormIn(s)[0] == SLASH
  {
    var b := FormBytes(s);
    assert b == [0x2F] + FormBytes(s[1..]);
    assert CodeIn(b) == 0x2F && Utf8Width(0x2F) == 1;
    assert UnitsOf(0x2F) == [0x2F];
    assert Decoded(Utf8, b)[0] == 0x2F;
    assert Lossy(b)[0] == 0x2F;
  }

  lemma PairUnit()
    ensures Units("pair") != [] && Units("pair")[0] == 0x70
  {}

  /** A path with no ampersand is one name, and it opens with a slash. */
  lemma PlainIsNoInvitation(p: string)
    requires '&' !in p
    ensures !IsInvitation("#/" + p)
  {
    hide FieldIn;
    var s := "/" + p;
    assert ("#/" + p)[1..] == s;
    assert forall c :: c in s ==> c == '/' || c in p;
    SplitOfPart(s, '&');
    assert [s][1..] == [];
    assert Fields([s]) == [FieldIn(s)];
    SlashOpensName(s);
    PairUnit();
    assert Names([FieldIn(s)]) == [FieldIn(s).name];
  }

  /** A conversation's query adds names of its own, none of them the invitation's. */
  lemma QueryIsNoInvitation(room: string, item: Item)
    requires TypedItem(item) && '&' !in room
    ensures !IsInvitation("#/" + ("talk/" + (room + ("?" + ItemQuery(item)))))
  {
    hide FieldIn, Query, Units, FormOf, Names, IsRunId, IsHash;
    ItemReads(item);
    var head := "/talk/" + (room + "?");
    if item.Call? {
      var a := head + ("call" + "=" + FormOf(Units(item.run)));
      var b := "at" + "=" + FormOf(Units(Decimal(item.at)));
      PieceIsWhole("call", Units(item.run));
      PieceIsWhole("at", Units(Decimal(item.at)));
      HeadPiece(head, room, "call" + "=" + FormOf(Units(item.run)));
      CallQueryTextOnly(item.run, Decimal(item.at));
      FragmentText(room, "call" + "=" + FormOf(Units(item.run)) + "&" + b, ItemQuery(item));
      assert a + "&" + b == head + ("call" + "=" + FormOf(Units(item.run)) + "&" + b);
      FieldReads("at", Units(Decimal(item.at)));
      UnitsDiffer("at", "pair");
      NoPair(a, b, "");
    } else {
      DocumentIsNoInvitation(room, item.building, item.path, item.version, head);
    }
  }

  lemma CallQueryTextOnly(run: string, digits: string)
    ensures "call=" + FormOf(Units(run)) + "&at=" + FormOf(Units(digits))
            == "call" + "=" + FormOf(Units(run)) + "&" + ("at" + "=" + FormOf(Units(digits)))
  {
    hide FormOf, Units;
    assert "call" + "=" == "call=" && "&" + ("at" + "=") == "&at=";
    var x, y := FormOf(Units(run)), FormOf(Units(digits));
    assert "call=" + x + "&at=" + y == "call=" + x + ("&" + ("at" + "=" + y));
  }

  lemma HeadPiece(head: string, room: string, piece: string)
    requires head == "/talk/" + (room + "?") && '&' !in room && '&' !in piece
    ensures '&' !in head + piece && (head + piece)[0] == '/'
  {
    assert forall c :: c in head + piece ==> c in "/talk/" || c in room || c == '?' || c in piece;
  }

  lemma FragmentText(room: string, query: string, printed: string)
    requires query == printed
    ensures ("#/" + ("talk/" + (room + ("?" + printed))))[1..] == "/talk/" + (room + "?") + query
  {
    assert ("#/" + ("talk/" + (room + ("?" + printed)))) == "#" + ("/talk/" + (room + "?") + query);
  }

  /** No field of such a query is called `pair`. */
  lemma NoPair(a: string, b: string, c: string)
    requires '&' !in a && a != [] && a[0] == '/' && '&' !in b && b != [] && '&' !in c
    requires FieldIn(b).name != Units("pair")
    requires c != [] ==> FieldIn(c).name != Units("pair")
    ensures Units("pair") !in Names(Query(if c == [] then a + "&" + b else a + "&" + (b + "&" + c)))
  {
    hide FieldIn, Query, Units;
    SlashOpensName(a);
    FirstUnit("pair");
    if c == [] {
      TwoPieces(a, b);
      TwoFields(FieldIn(a), FieldIn(b));
    } else {
      ThreePieces(a, b, c);
      ThreeFields(FieldIn(a), FieldIn(b), FieldIn(c));
    }
  }

  lemma DocumentIsNoInvitation(room: string, building: Text, path: Text, version: Option<string>, head: string)
    requires head == "/talk/" + (room + "?") && '&' !in room
    ensures !IsInvitation("#/" + ("talk/" + (room + ("?" + ItemQuery(Document(building, path, version))))))
  {
    hide *;
    if version.Some? {
      VersionedIsNoInvitation(room, building, path, version.value, head);
    } else {
      UnversionedIsNoInvitation(room, building, path, head);
    }
  }

  lemma UnversionedIsNoInvitation(room: string, building: Text, path: Text, head: string)
    requires head == "/talk/" + (room + "?") && '&' !in room
    ensures !IsInvitation("#/" + ("talk/" + (room + ("?" + ItemQuery(Document(building, path, None))))))
  {
    hide FieldIn, Query, Units, FormOf, Names, ItemQuery;
    var first, b := "building" + "=" + FormOf(building), "path" + "=" + FormOf(path);
    PieceIsWhole("building", building);
    PieceIsWhole("path", path);
    HeadPiece(head, room, first);
    var a := head + first;
    FieldReads("path", path);
    UnitsDiffer("path", "pair");
    UnversionedText(building, path, first, b);
    FragmentText(room, first + "&" + b, ItemQuery(Document(building, path, None)));
    assert a + "&" + b == head + (first + "&" + b);
    NoPair(a, b, "");
  }

  lemma VersionedIsNoInvitation(room: string, building: Text, path: Text, v: string, head: string)
    requires head == "/talk/" + (room + "?") && '&' !in room
    ensures !IsInvitation("#/" + ("talk/" + (room + ("?" + ItemQuery(Document(building, path, Some(v)))))))
  {
    hide FieldIn, Query, Units, FormOf, Names, ItemQuery;
    var first, b := "building" + "=" + FormOf(building), "path" + "=" + FormOf(path);
    var c := "version" + "=" + FormOf(Units(v));
    PieceIsWhole("building", building);
    PieceIsWhole("path", path);
    PieceIsWhole("version", Units(v));
    HeadPiece(head, room, first);
    var a := head + first;
    FieldReads("path", path);
    FieldReads("version", Units(v));
    UnitsDiffer("path", "pair");
    UnitsDiffer("version", "pair");
    VersionedText(building, path, v, first, b, c);
    FragmentText(room, first + "&" + (b + "&" + c), ItemQuery(Document(building, path, Some(v))));
    assert a + "&" + (b + "&" + c) == head + (first + "&" + (b + "&" + c));
    NoPair(a, b, c);
  }
}
