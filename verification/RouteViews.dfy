/** The round trip of `client/src/core/route.ts`: printing then reading gives every view
    back, but for the ones named here. */
module RouteViews {
  import opened CodeUnits
  import opened Decimals
  import opened Grammars
  import opened OrderedMaps
  import opened Percents
  import opened Route
  import opened RouteParts
  import opened RouteTrip
  import opened Splitting

  lemma NamedIsRead(p: string, v: View)
    requires Opens(p) && !IsInvitation("#/" + p)
    ensures FromFragment("#/" + p) == FromWhole(p)
  {
    hide FromWhole, IsInvitation;
    StripsToPath(p);
  }

  /** A path of a head and what follows it, with no mark in either. */
  lemma HeadAndTail(head: string, tail: string)
    requires head != [] && tail != [] && head[0] != '#'
    requires '/' !in head && '?' !in head && '&' !in head && '?' !in tail && '&' !in tail
    ensures var p := head + "/" + tail;
            Opens(p) && !IsInvitation("#/" + p) && FromWhole(p) == FromTail(head, tail)
  {
    hide FromTail, IsInvitation;
    var p := head + "/" + tail;
    assert p[0] == head[0] && head[0] in head;
    assert forall c :: c in p ==> c in head || c == '/' || c in tail;
    PlainIsNoInvitation(p);
    FirstIs(head, '/', tail);
    assert p[..|head|] == head && p[|head| + 1..] == tail;
  }

  lemma HeadAlone(head: string)
    requires head == "" || (head[0] != '#')
    requires '/' !in head && '?' !in head && '&' !in head
    ensures Opens(head) && !IsInvitation("#/" + head) && FromWhole(head) == Page(head)
  {
    hide Page, IsInvitation;
    if head != "" { assert head[0] in head; }
    PlainIsNoInvitation(head);
  }

  predicate Word(s: string) {
    s != [] && forall i :: 0 <= i < |s| ==> IsLetter(s[i])
  }

  lemma WordHasNoMark(s: string)
    requires Word(s)
    ensures '/' !in s && '?' !in s && '&' !in s && s[0] != '#'
  {
    assert forall c :: c in s ==> IsLetter(c);
  }

  lemma PlacesAreWords()
    ensures forall s :: s in RUN_LENSES ==> Word(s)
    ensures forall s :: s in GUIDE_STEPS ==> Word(s)
    ensures forall s :: s in LENSES ==> Word(s)
  {}

  lemma FirstGroups()
    ensures Word("you") && Word("accounts") && Word("agents") && Word("network") && Word("remote") && Word("devices")
  {}

  lemma MiddleGroups()
    ensures Word("run") && Word("rules") && Word("automation") && Word("skills") && Word("tools") && Word("performance")
  {}

  lemma LastGroups()
    ensures Word("appearance") && Word("colours") && Word("keys") && Word("advanced") && Word("privacy") && Word("about")
  {}

  lemma GroupsAreWords()
    ensures forall s :: s in SETUP_GROUPS ==> Word(s)
  {
    hide Word;
    FirstGroups();
    MiddleGroups();
    LastGroups();
  }

  lemma WordsRead(head: string, tail: string)
    requires Word(head) && Word(tail)
    ensures Opens(head + "/" + tail) && !IsInvitation("#/" + (head + "/" + tail))
            && FromWhole(head + "/" + tail) == FromTail(head, tail)
  {
    hide FromTail, FromWhole, IsInvitation, Opens;
    WordHasNoMark(head);
    WordHasNoMark(tail);
    HeadAndTail(head, tail);
  }

  // ------------------------------------------------------------ view by view

  /** The views whose fragment reads back as them: no half surrogate pairs, no page of
      a building whose own name ends in `catalog` below another, no item without a path. */
  predicate Spellable(v: View) {
    match v
    case Talk(address, item, _) =>
      (address == MAYOR || WellFormed(address)) && (item.Some? ==> WellFormed(address) && Linkable(item.value))
    case Building(address, catalog) => WellFormed(address) && (catalog || !InCatalog(address))
    case Raise(name) => name.Some? ==> WellFormed(name.value)
    case _ => true
  }

  /** What is printed of a view is read back as it. */
  ghost predicate Trips(v: View)
    requires Typed(v)
  {
    ToFragment(v).Some? && FromFragment(ToFragment(v).value) == Some(v)
  }

  lemma TripsBy(v: View, p: string)
    requires Typed(v) && Path(v) == Some(p) && Opens(p) && !IsInvitation("#/" + p)
    ensures Trips(v) <==> FromWhole(p) == Some(v)
  {
    hide FromWhole, IsInvitation, Path, Opens;
    NamedIsRead(p, v);
  }

  lemma BareTrips(v: View)
    requires Typed(v)
    requires v.City? || v.Mcp? || v.Cost? || v.Registry? || v.Monitor? || v.Gallery? || v == Setup(None)
             || v == Welcome(None) || v == Record("ledger") || v == Raise(None)
    ensures Trips(v)
  {
    var p := BareHead(v);
    hide *;
    WordHasNoMark(p);
    HeadAlone(p);
    TripsBy(v, p);
  }

  lemma FirstHeads()
    ensures Word("city") && Page("city") == Some(City)
    ensures Word("setup") && Page("setup") == Some(Setup(None))
    ensures Word("mcp") && Page("mcp") == Some(Mcp)
    ensures Word("record") && Page("record") == Some(Record("ledger"))
  {
    hide Old;
  }

  lemma MiddleHeads()
    ensures Word("cost") && Page("cost") == Some(Cost)
    ensures Word("registry") && Page("registry") == Some(Registry)
    ensures Word("raise") && Page("raise") == Some(Raise(None))
  {
    hide Old;
  }

  lemma LastHeads()
    ensures Word("welcome") && Page("welcome") == Some(Welcome(None))
    ensures Word("monitor") && Page("monitor") == Some(Monitor)
    ensures Word("gallery") && Page("gallery") == Some(Gallery)
  {
    hide Old;
    LastWords();
    hide Word;
  }

  lemma LastWords()
    ensures Word("welcome") && Word("monitor") && Word("gallery")
  {}

  lemma BareHead(v: View) returns (p: string)
    requires Typed(v)
    requires v.City? || v.Mcp? || v.Cost? || v.Registry? || v.Monitor? || v.Gallery? || v == Setup(None)
             || v == Welcome(None) || v == Record("ledger") || v == Raise(None)
    ensures Path(v) == Some(p) && Word(p) && Page(p) == Some(v)
  {
    hide Word, Page;
    FirstHeads();
    MiddleHeads();
    LastHeads();
    p := Path(v).value;
  }

  lemma SetupTrips(group: string)
    requires group in SETUP_GROUPS
    ensures Trips(Setup(Some(group)))
  {
    hide FromWhole, IsInvitation, Opens;
    GroupsAreWords();
    assert Word("setup");
    WordsRead("setup", group);
    assert "setup/" + group == "setup" + "/" + group;
    TripsBy(Setup(Some(group)), "setup/" + group);
  }

  lemma RecordTrips(kept: string)
    requires kept in LENSES && kept != "ledger"
    ensures Trips(Record(kept))
  {
    hide FromWhole, IsInvitation, Opens;
    PlacesAreWords();
    assert Word("record");
    WordsRead("record", kept);
    assert "record/" + kept == "record" + "/" + kept;
    TripsBy(Record(kept), "record/" + kept);
  }

  lemma WelcomeTrips(step: string)
    requires step in GUIDE_STEPS
    ensures Trips(Welcome(Some(step)))
  {
    hide FromWhole, IsInvitation, Opens;
    PlacesAreWords();
    assert Word("welcome");
    WordsRead("welcome", step);
    assert "welcome/" + step == "welcome" + "/" + step;
    TripsBy(Welcome(Some(step)), "welcome/" + step);
  }

  lemma RunHasNoMark(run: string)
    requires IsRunId(run)
    ensures '/' !in run && '?' !in run && '&' !in run && run != []
  {
    assert forall c :: c in run ==> IsHex(c) || c == '-';
  }

  lemma RunReads(run: string, lens: Option<string>)
    requires IsRunId(run) && (lens.Some? ==> lens.value in RUN_LENSES && Word(lens.value))
    ensures var tail := run + (if lens.Some? then "/" + lens.value else "");
            RunIn(tail) == Some(Run(run, lens)) && tail != [] && '?' !in tail && '&' !in tail
  {
    hide IsRunId, Word, IndexOf;
    RunHasNoMark(run);
    if lens.Some? {
      WordHasNoMark(lens.value);
      FirstIs(run, '/', lens.value);
      var tail := run + "/" + lens.value;
      assert tail == run + ("/" + lens.value);
      assert tail[..|run|] == run && tail[|run| + 1..] == lens.value;
      assert forall c :: c in tail ==> c in run || c == '/' || c in lens.value;
    } else {
      assert run + "" == run;
    }
  }

  lemma RunTrips(run: string, lens: Option<string>)
    requires IsRunId(run) && (lens.Some? ==> lens.value in RUN_LENSES)
    ensures Trips(Run(run, lens))
  {
    hide FromWhole, IsInvitation, Opens, IsRunId, RunIn, Word;
    PlacesAreWords();
    RunReads(run, lens);
    var tail := run + (if lens.Some? then "/" + lens.value else "");
    HeadAndTail("run", tail);
    assert "run/" + tail == "run" + "/" + tail;
    TripsBy(Run(run, lens), "run/" + tail);
  }

  lemma RaiseTrips(name: Text)
    requires IsAddress(name)
    ensures Trips(Raise(Some(name))) <==> WellFormed(name)
  {
    hide FromWhole, IsInvitation, Opens, IsAddress, WellFormed, Escaped, ReadEscaped;
    AddressReads(name);
    if Escaped(name).Some? {
      var tail := Escaped(name).value;
      RoomHasNoMark(tail);
      HeadAndTail("raise", tail);
      assert tail + "" == tail;
      TripsBy(Raise(Some(name)), "raise" + "/" + tail);
    }
  }

  lemma BuildingTrips(address: Text, catalog: bool)
    requires IsAddress(address)
    ensures Trips(Building(address, catalog)) <==> WellFormed(address) && (catalog || !InCatalog(address))
  {
    hide FromWhole, IsInvitation, Opens, IsAddress, WellFormed, Escaped, ReadEscaped, InCatalog, EndsWith;
    AddressReads(address);
    if Escaped(address).Some? {
      var room := Escaped(address).value;
      var tail := room + (if catalog then "/catalog" else "");
      RoomHasNoMark(room);
      CatalogTail(room, catalog);
      HeadAndTail("building", tail);
      CatalogEnds(address);
      assert tail == if catalog then room + CATALOG else room;
      TripsBy(Building(address, catalog), "building" + "/" + tail);
    }
  }

  lemma CatalogTail(room: string, catalog: bool)
    requires '?' !in room && '&' !in room && room != []
    ensures var tail := room + (if catalog then "/catalog" else "");
            '?' !in tail && '&' !in tail && tail != []
            && (catalog ==> EndsWith(tail, CATALOG) && tail[..|tail| - |CATALOG|] == room)
  {
    var tail := room + (if catalog then "/catalog" else "");
    assert forall c :: c in tail ==> c in room || c in "/catalog";
  }

  lemma TalkPath(address: Text, item: Option<Item>, session: Option<nat>)
    requires Typed(Talk(address, item, session))
    requires item.Some? || session.Some? || address != MAYOR
    ensures Escaped(address).None? ==> Path(Talk(address, item, session)) == None
    ensures Escaped(address).Some? && item.None? ==>
      Path(Talk(address, item, session)) == Some("talk" + "/" + (Escaped(address).value + Stretch(session)))
    ensures Escaped(address).Some? && item.Some? ==>
      Path(Talk(address, item, session))
      == Some("talk/" + ((Escaped(address).value + Stretch(session)) + ("?" + ItemQuery(item.value))))
  {
    hide Escaped, ItemQuery, Stretch, Typed, Units;
    if Escaped(address).Some? {
      var tail := Escaped(address).value + Stretch(session);
      assert tail + "" == tail;
      assert "talk" + "/" + tail == "talk/" + tail;
    }
  }

  lemma TalkTrips(address: Text, item: Option<Item>, session: Option<nat>)
    requires Typed(Talk(address, item, session))
    requires item.Some? || session.Some? || address != MAYOR
    ensures Trips(Talk(address, item, session)) <==> WellFormed(address) && (item.Some? ==> Linkable(item.value))
  {
    var v := Talk(address, item, session);
    assert IsAddress(address) && (session.Some? ==> session.value <= MAX_SAFE_INTEGER);
    AddressReads(address);
    TalkPath(address, item, session);
    assert Path(v).None? ==> !Trips(v);
    hide *;
    if Escaped(address).Some? {
      TalkReads(address, session);
      var tail := Escaped(address).value + Stretch(session);
      if item.None? {
        TalkTail(v, tail);
      } else {
        ItemTrips(address, item.value, session, tail);
      }
    }
  }

  lemma TalkTail(v: View, tail: string)
    requires Typed(v) && Path(v) == Some("talk" + "/" + tail) && TalkIn(tail) == Some(v)
    requires tail != [] && '?' !in tail && '&' !in tail
    ensures Trips(v)
  {
    hide Typed, Path, TalkIn, FromWhole, IsInvitation, Opens, Trips;
    HeadAndTail("talk", tail);
    TripsBy(v, "talk" + "/" + tail);
  }

  lemma ItemTrips(address: Text, item: Item, session: Option<nat>, tail: string)
    requires Typed(Talk(address, Some(item), session)) && Escaped(address).Some?
    requires tail == Escaped(address).value + Stretch(session) && '?' !in tail && '&' !in tail
    requires TalkIn(tail) == Some(Talk(address, None, session))
    ensures Trips(Talk(address, Some(item), session)) <==> Linkable(item)
  {
    TalkPath(address, Some(item), session);
    assert TypedItem(item);
    hide Escaped, Stretch, TalkIn, ReadItem, Path, Typed, Trips, FromWhole, IsInvitation, Opens, Linkable, TypedItem;
    ItemReads(item);
    var query := ItemQuery(item);
    hide ItemQuery;
    var p := "talk/" + (tail + ("?" + query));
    QueryIsNoInvitation(tail, item);
    ItemWhole(tail, query);
    OpensTalk(tail + ("?" + query));
    TripsBy(Talk(address, Some(item), session), p);
  }

  lemma OpensTalk(rest: string)
    ensures Opens("talk/" + rest)
  {
    assert ("talk/" + rest)[0] == 't';
  }

  lemma ItemWhole(tail: string, query: string)
    requires '?' !in tail
    ensures FromWhole("talk/" + (tail + ("?" + query))) ==
            if TalkIn(tail).None? || ReadItem(query).None? then None
            else if TalkIn(tail).value.Talk? then Some(TalkIn(tail).value.(item := ReadItem(query)))
            else TalkWith("talk/" + tail, query)
  {
    hide TalkIn, ReadItem, IndexOf, FromPath;
    var p := "talk/" + (tail + ("?" + query));
    var path := "talk/" + tail;
    assert forall c :: c in path ==> c in "talk/" || c in tail;
    FirstIs(path, '?', query);
    assert p == path + "?" + query;
    assert p[..|path|] == path && p[|path| + 1..] == query && path[5..] == tail;
  }

  /** Printing then reading gives the view back for exactly these views. */
  lemma RoundTrip(v: View)
    requires Typed(v)
    ensures Trips(v) <==> Spellable(v)
  {
    hide FromFragment, ToFragment, Trips, InCatalog, WellFormed, IsAddress, IsRunId, Linkable, IsHash;
    match v
    case Talk(address, item, session) =>
      if item.None? && session.None? && address == MAYOR {
        MayorTrips();
      } else {
        TalkTrips(address, item, session);
        MayorIsWhole();
      }
    case Building(address, catalog) => BuildingTrips(address, catalog);
    case Raise(name) => if name.Some? { RaiseTrips(name.value); } else { BareTrips(v); }
    case Run(run, lens) => RunTrips(run, lens);
    case Setup(group) => if group.Some? { SetupTrips(group.value); } else { BareTrips(v); }
    case Record(kept) => if kept != "ledger" { RecordTrips(kept); } else { BareTrips(v); }
    case Welcome(step) => if step.Some? { WelcomeTrips(step.value); } else { BareTrips(v); }
    case _ => BareTrips(v);
  }

  lemma MayorIsWhole()
    ensures WellFormed(MAYOR)
  {
    NarrowReads("hall/mayor");
  }

  lemma MayorTrips()
    requires Typed(DEFAULT_VIEW)
    ensures Trips(DEFAULT_VIEW)
  {
    hide FromWhole, IsInvitation, Opens, IsAddress;
    HeadAlone("");
    TripsBy(DEFAULT_VIEW, "");
  }

  /** Two views that can be spelled never share a spelling. */
  lemma SpellingsDiffer(v: View, w: View)
    requires Typed(v) && Typed(w) && Spellable(v) && Spellable(w) && ToFragment(v) == ToFragment(w)
    ensures v == w
  {
    hide FromFragment, ToFragment, Spellable, Typed;
    RoundTrip(v);
    RoundTrip(w);
  }

  // ------------------------------------------------------------ what is read is a view

  /** Whatever fragment is read, its names are in their grammars. */
  lemma ReadIsTyped(raw: string)
    ensures FromFragment(raw).Some? ==> Typed(FromFragment(raw).value)
  {
    RemoteIsTyped();
    MayorIsAddress();
    hide IsInvitation, Typed, FromWhole, IsAddress, Stripped;
    WholeIsTyped(Stripped(Stripped(raw, '#'), '/'));
  }

  lemma RemoteIsTyped()
    ensures Typed(Setup(Some("remote")))
  {
    assert SETUP_GROUPS[4] == "remote";
  }

  lemma {:induction false} UnitsAre(s: string)
    requires Plain(s)
    ensures |Units(s)| == |s| && forall i :: 0 <= i < |s| ==> Units(s)[i] == s[i] as int
  {
    if s != [] {
      UnitsAre(s[1..]);
      assert Units(s) == [s[0] as int] + Units(s[1..]);
    }
  }

  lemma WordIsSegment(s: string)
    requires Word(s)
    ensures IsSegment(Units(s)) && SLASH !in Units(s)
  {
    UnitsAre(s);
  }

  lemma MayorWords()
    ensures Word("hall") && Word("mayor")
  {}

  lemma MayorText()
    ensures MAYOR == Units("hall") + [SLASH] + Units("mayor") && Word("hall") && Word("mayor")
  {
    hide Word, Units;
    MayorWords();
    assert "hall" + "/mayor" == "hall/mayor" && "/" + "mayor" == "/mayor";
    UnitsJoin("hall", "/mayor");
    UnitsJoin("/", "mayor");
    UnitsAre("/");
    assert Units("/") == [SLASH];
  }

  lemma MayorIsAddress()
    ensures IsAddress(MAYOR)
  {
    hide Units, IsSegment, Word, SplitOn;
    MayorText();
    WordIsSegment("hall");
    WordIsSegment("mayor");
    SplitAtFirst(Units("hall"), Units("mayor"), SLASH);
    SplitOfPart(Units("mayor"), SLASH);
  }

  lemma TalkWithIsTyped(path: string, query: string)
    ensures TalkWith(path, query).Some? ==> Typed(TalkWith(path, query).value)
  {
    hide IsAddress, IsRunId, IsHash, TalkIn, ReadItem;
    ItemIsTyped(query);
    TalkIsTyped(path[if "talk/" <= path then 5 else if "s/" <= path then 2 else 0..]);
  }

  lemma PathIsTyped(path: string)
    requires IsAddress(MAYOR)
    ensures FromPath(path).Some? ==> Typed(FromPath(path).value)
  {
    hide Typed, FromTail, Page, IndexOf, IsAddress;
    var slash := IndexOf(path, '/');
    if slash < 0 {
      PageIsTyped(path);
    } else {
      PageIsTyped(path[..slash]);
      TailIsTyped(path[..slash], path[slash + 1..]);
    }
  }

  lemma WholeIsTyped(whole: string)
    requires IsAddress(MAYOR)
    ensures FromWhole(whole).Some? ==> Typed(FromWhole(whole).value)
  {
    hide Typed, TalkWith, FromPath, IndexOf, IsAddress;
    var mark := IndexOf(whole, '?');
    if mark >= 0 { TalkWithIsTyped(whole[..mark], whole[mark + 1..]); } else { PathIsTyped(whole); }
  }

  lemma CallIsTyped(fields: seq<Field>)
    ensures ReadCall(fields).Some? ==> TypedItem(ReadCall(fields).value)
  {
    hide IsRunId, ValueOf, Narrow, AllDigits;
  }

  lemma DocumentIsTyped(fields: seq<Field>, versioned: bool)
    ensures ReadDocument(fields, versioned).Some? ==> TypedItem(ReadDocument(fields, versioned).value)
  {
    hide IsAddress, IsHash, ValueOf, Narrow;
  }

  lemma ItemIsTyped(query: string)
    ensures ReadItem(query).Some? ==> TypedItem(ReadItem(query).value)
  {
    hide ReadCall, ReadDocument, Query, Sorted, Names, TypedItem, JoinOn, Units;
    CallIsTyped(Query(query));
    DocumentIsTyped(Query(query), false);
    DocumentIsTyped(Query(query), true);
  }

  lemma EscapedIsAddress(tail: string)
    ensures ReadEscaped(tail).Some? ==> IsAddress(ReadEscaped(tail).value)
  {
    hide IsAddress, SplitOn, AllRead, JoinOn;
  }

  lemma TalkIsTyped(tail: string)
    ensures TalkIn(tail).Some? ==> TalkIn(tail).value.Talk? && TalkIn(tail).value.item == None && Typed(TalkIn(tail).value)
  {
    hide IsAddress, ReadEscaped, LastIndexOf, AllDigits, Number;
    var cut := LastIndexOf(tail, ':');
    EscapedIsAddress(if cut < 0 then tail else tail[..cut]);
  }

  lemma PageIsTyped(name: string)
    requires IsAddress(MAYOR)
    ensures Page(name).Some? ==> Typed(Page(name).value)
  {
    hide Bare, Old, Typed, IsAddress;
    BareIsTyped(name);
    OldIsTyped(name);
  }

  lemma BareIsTyped(name: string)
    requires IsAddress(MAYOR)
    ensures Bare(name).Some? ==> Typed(Bare(name).value)
  {
    hide IsAddress, Units;
    assert LENSES[0] == "ledger";
  }

  lemma OldIsTyped(name: string)
    requires IsAddress(MAYOR)
    ensures Old(name).Some? ==> Typed(Old(name).value)
  {
    hide IsAddress, Units;
    assert LENSES[0] == "ledger" && LENSES[1] == "archive" && LENSES[2] == "bin";
  }

  lemma TailIsTyped(head: string, tail: string)
    ensures FromTail(head, tail).Some? ==> Typed(FromTail(head, tail).value)
  {
    hide IsAddress, IsRunId, TalkIn;
    TalkIsTyped(tail);
  }
}
