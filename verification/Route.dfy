/** `client/src/core/route.ts`: views printed as fragments and fragments read as
    views. The address bar's text is characters, what it names is UTF-16. */
module Route {
  import opened CodeUnits
  import opened Decimals
  import opened Grammars
  import opened OrderedMaps
  import opened Percents
  import opened Splitting

  const MAX_SAFE_INTEGER := 0x1F_FFFF_FFFF_FFFF

  const LENSES := ["ledger", "archive", "bin", "log"]

  const SETUP_GROUPS := [
    "you", "accounts", "agents", "network", "remote", "devices", "run", "rules", "automation",
    "skills", "tools", "performance", "appearance", "colours", "keys", "advanced", "privacy", "about"]

  const RUN_LENSES := ["time", "turns", "monitor", "prompt", "context", "changes", "evidence"]

  const GUIDE_STEPS := ["provider", "dependencies", "texts", "skills", "mcp"]

  /** A call or a document a conversation links to. */
  datatype Item =
    | Call(run: string, at: nat)
    | Document(building: Text, path: Text, version: Option<string>)

  datatype View =
    | Talk(address: Text, item: Option<Item>, session: Option<nat>)
    | City
    | Building(address: Text, catalog: bool)
    | Raise(name: Option<Text>)
    | Run(run: string, lens: Option<string>)
    | Setup(group: Option<string>)
    | Mcp
    | Record(kept: string)
    | Cost
    | Registry
    | Welcome(step: Option<string>)
    | Monitor
    | Gallery

  const MAYOR: Text := Units("hall/mayor")
  const DEFAULT_VIEW := Talk(MAYOR, None, None)

  // ------------------------------------------------------------ printing

  function AllComponents(segments: seq<Text>): Option<seq<string>> {
    if segments == [] then Some([])
    else
      var rest := AllComponents(segments[1..]);
      if Component(segments[0]).None? || rest.None? then None
      else Some([Component(segments[0]).value] + rest.value)
  }

  /** An address printed name by name; there is no spelling for half a pair. */
  function Escaped(address: Text): Option<string> {
    var segments := AllComponents(SplitOn(address, SLASH));
    if segments.None? then None else Some(JoinOn(segments.value, '/'))
  }

  function ItemQuery(item: Item): string {
    match item
    case Call(run, at) => "call=" + FormOf(Units(run)) + "&at=" + FormOf(Units(Decimal(at)))
    case Document(building, path, version) =>
      "building=" + FormOf(building) + "&path=" + FormOf(path)
      + (if version.Some? then "&version=" + FormOf(Units(version.value)) else "")
  }

  /** The end that names an earlier stretch of a room. */
  function Stretch(session: Option<nat>): string {
    if session.Some? then ":" + Decimal(session.value) else ""
  }

  function Beside(item: Option<Item>): string {
    if item.Some? then "?" + ItemQuery(item.value) else ""
  }

  /** What the types of a view promise: each name in its own grammar. */
  predicate Typed(v: View) {
    match v
    case Talk(address, item, session) =>
      && IsAddress(address)
      && (session.Some? ==> session.value <= MAX_SAFE_INTEGER)
      && (item.Some? ==>
            match item.value
            case Call(run, at) => IsRunId(run) && at <= MAX_SAFE_INTEGER
            case Document(building, _, version) => IsAddress(building) && (version.Some? ==> IsHash(version.value)))
    case Building(address, _) => IsAddress(address)
    case Raise(name) => name.Some? ==> IsAddress(name.value)
    case Run(run, lens) => IsRunId(run) && (lens.Some? ==> lens.value in RUN_LENSES)
    case Setup(group) => group.Some? ==> group.value in SETUP_GROUPS
    case Record(kept) => kept in LENSES
    case Welcome(step) => step.Some? ==> step.value in GUIDE_STEPS
    case _ => true
  }

  /** What follows the `#/` of a view's fragment; none where an address holds half a
      surrogate pair and the encoding throws. */
  function Path(v: View): Option<string>
    requires Typed(v)
  {
    match v
    case Talk(address, item, session) =>
      if item.None? && session.None? && address == MAYOR then Some("")
      else
        var room := Escaped(address);
        if room.None? then None
        else Some("talk/" + (room.value + Stretch(session) + Beside(item)))
    case City => Some("city")
    case Building(address, catalog) => Under("building", Escaped(address), if catalog then "/catalog" else "")
    case Raise(name) => if name.None? then Some("raise") else Under("raise", Escaped(name.value), "")
    case Run(run, lens) => Some("run/" + (run + (if lens.Some? then "/" + lens.value else "")))
    case Setup(group) => Some(if group.Some? then "setup/" + group.value else "setup")
    case Mcp => Some("mcp")
    case Record(kept) => Some(if kept == "ledger" then "record" else "record/" + kept)
    case Cost => Some("cost")
    case Registry => Some("registry")
    case Welcome(step) => Some(if step.Some? then "welcome/" + step.value else "welcome")
    case Monitor => Some("monitor")
    case Gallery => Some("gallery")
  }

  function Under(head: string, address: Option<string>, end: string): Option<string> {
    if address.None? then None else Some(head + "/" + (address.value + end))
  }

  function ToFragment(v: View): Option<string>
    requires Typed(v)
  {
    if Path(v).None? then None else Some("#/" + Path(v).value)
  }

  // ------------------------------------------------------------ reading

  /** A name and its value in a query. */
  datatype Field = Field(name: Text, value: Text)

  function FieldIn(piece: string): Field {
    var cut := IndexOf(piece, '=');
    if cut < 0 then Field(FormIn(piece), []) else Field(FormIn(piece[..cut]), FormIn(piece[cut + 1..]))
  }

  function Fields(pieces: seq<string>): seq<Field> {
    if pieces == [] then []
    else (if pieces[0] == [] then [] else [FieldIn(pieces[0])]) + Fields(pieces[1..])
  }

  /** A query's fields, one question mark before them aside. */
  function Query(text: string): seq<Field> {
    Fields(SplitOn(if text != [] && text[0] == '?' then text[1..] else text, '&'))
  }

  function Names(fields: seq<Field>): seq<Text> {
    if fields == [] then [] else [fields[0].name] + Names(fields[1..])
  }

  /** The first value under a name, or none at all. */
  function ValueOf(fields: seq<Field>, name: Text): Text {
    if fields == [] then [] else if fields[0].name == name then fields[0].value else ValueOf(fields[1..], name)
  }

  predicate Before(a: Text, b: Text) {
    b != [] && (a == [] || a[0] < b[0] || (a[0] == b[0] && Before(a[1..], b[1..])))
  }

  function InsertName(name: Text, names: seq<Text>): seq<Text> {
    if names == [] || !Before(names[0], name) then [name] + names else [names[0]] + InsertName(name, names[1..])
  }

  function Sorted(names: seq<Text>): seq<Text> {
    if names == [] then [] else InsertName(names[0], Sorted(names[1..]))
  }

  function ReadRun(t: Text): Option<string> {
    if Narrow(t).Some? && IsRunId(Narrow(t).value) then Narrow(t) else None
  }

  function ReadHash(t: Text): Option<string> {
    if Narrow(t).Some? && IsHash(Narrow(t).value) then Narrow(t) else None
  }

  predicate AllDigits(s: string) {
    s != [] && forall i :: 0 <= i < |s| ==> IsDigit(s[i])
  }

  function ReadSeq(s: string): Option<nat> {
    if AllDigits(s) && Number(s) <= MAX_SAFE_INTEGER then Some(Number(s)) else None
  }

  function ReadSeqText(t: Text): Option<nat> {
    if Narrow(t).Some? then ReadSeq(Narrow(t).value) else None
  }

  function ReadAddress(t: Text): Option<Text> {
    if IsAddress(t) then Some(t) else None
  }

  const SPACE: Unit := 0x20

  const KEY_CALL: Text := Units("call")
  const KEY_AT: Text := Units("at")
  const KEY_BUILDING: Text := Units("building")
  const KEY_PATH: Text := Units("path")
  const KEY_VERSION: Text := Units("version")
  const CALL_KEYS: Text := Units("at call")
  const DOCUMENT_KEYS: Text := Units("building path")
  const VERSIONED_KEYS: Text := Units("building path version")

  function ReadCall(fields: seq<Field>): Option<Item> {
    var run, at := ReadRun(ValueOf(fields, KEY_CALL)), ReadSeqText(ValueOf(fields, KEY_AT));
    if run.Some? && at.Some? then Some(Call(run.value, at.value)) else None
  }

  function ReadDocument(fields: seq<Field>, versioned: bool): Option<Item> {
    var path := ValueOf(fields, KEY_PATH);
    var building := ReadAddress(ValueOf(fields, KEY_BUILDING));
    var version := if versioned then ReadHash(ValueOf(fields, KEY_VERSION)) else None;
    if path == [] || building.None? || (versioned && version.None?) then None
    else Some(Document(building.value, path, version))
  }

  /** A query read as an item only when its keys are those of one kind of item, no more
      and no fewer. */
  function ReadItem(query: string): Option<Item> {
    var fields := Query(query);
    var keys := JoinOn(Sorted(Names(fields)), SPACE);
    if keys == CALL_KEYS then ReadCall(fields)
    else if keys == DOCUMENT_KEYS then ReadDocument(fields, false)
    else if keys == VERSIONED_KEYS then ReadDocument(fields, true)
    else None
  }

  /** The one-word fragments that are printed. */
  function Bare(name: string): Option<View> {
    if name == "" || name == "talk" then Some(DEFAULT_VIEW)
    else if name == "city" then Some(City)
    else if name == "setup" then Some(Setup(None))
    else if name == "mcp" then Some(Mcp)
    else if name == "record" then Some(Record("ledger"))
    else if name == "cost" then Some(Cost)
    else if name == "registry" then Some(Registry)
    else if name == "raise" then Some(Raise(None))
    else if name == "welcome" then Some(Welcome(None))
    else if name == "monitor" then Some(Monitor)
    else if name == "gallery" then Some(Gallery)
    else None
  }

  /** The one-word fragments that are read but no longer printed. */
  function Old(name: string): Option<View> {
    if name == "overview" then Some(City)
    else if name == "live" || name == "sessions" || name == "waiting" || name == "approvals" then Some(DEFAULT_VIEW)
    else if name == "ledger" then Some(Record("ledger"))
    else if name == "archive" then Some(Record("archive"))
    else if name == "recycle-bin" then Some(Record("bin"))
    else if name == "dashboard" then Some(Cost)
    else if name == "settings" then Some(Setup(None))
    else None
  }

  function Page(name: string): Option<View> {
    if Bare(name).Some? then Bare(name) else Old(name)
  }

  function AllRead(parts: seq<string>): Option<seq<Text>> {
    if parts == [] then Some([])
    else
      var rest := AllRead(parts[1..]);
      if ComponentIn(parts[0]).None? || rest.None? then None else Some([ComponentIn(parts[0]).value] + rest.value)
  }

  function ReadEscaped(tail: string): Option<Text> {
    var segments := AllRead(SplitOn(tail, '/'));
    if segments.None? then None else ReadAddress(JoinOn(segments.value, SLASH))
  }

  function TalkIn(tail: string): Option<View> {
    var cut := LastIndexOf(tail, ':');
    var room := ReadEscaped(if cut < 0 then tail else tail[..cut]);
    if room.None? then None
    else if cut < 0 then Some(Talk(room.value, None, None))
    else
      var session := ReadSeq(tail[cut + 1..]);
      if session.None? then None else Some(Talk(room.value, None, session))
  }

  function TalkWith(path: string, query: string): Option<View> {
    var head := if "talk/" <= path then 5 else if "s/" <= path then 2 else 0;
    if head == 0 then None
    else
      var view := TalkIn(path[head..]);
      var item := ReadItem(query);
      if view.None? || item.None? then None else Some(view.value.(item := item))
  }

  const CATALOG := "/catalog"

  predicate EndsWith(s: string, end: string) {
    |end| <= |s| && s[|s| - |end|..] == end
  }

  function BuildingIn(tail: string): Option<View> {
    var catalog := EndsWith(tail, CATALOG);
    var address := ReadEscaped(if catalog then tail[..|tail| - |CATALOG|] else tail);
    if address.None? then None else Some(Building(address.value, catalog))
  }

  function RunIn(tail: string): Option<View> {
    var cut := IndexOf(tail, '/');
    var run := if cut < 0 then tail else tail[..cut];
    if !IsRunId(run) then None
    else if cut < 0 then Some(Run(run, None))
    else if tail[cut + 1..] in RUN_LENSES then Some(Run(run, Some(tail[cut + 1..])))
    else None
  }

  function FromTail(head: string, tail: string): Option<View> {
    if head == "talk" || head == "s" then TalkIn(tail)
    else if head == "building" || head == "b" then BuildingIn(tail)
    else if head == "raise" then
      var address := ReadEscaped(tail);
      if address.None? then None else Some(Raise(address))
    else if head == "setup" || head == "settings" then
      if tail in SETUP_GROUPS then Some(Setup(Some(tail))) else None
    else if head == "record" then
      if tail in LENSES && tail != "ledger" then Some(Record(tail)) else None
    else if head == "run" || head == "live" then RunIn(tail)
    else if head == "welcome" then
      if tail in GUIDE_STEPS then Some(Welcome(Some(tail))) else None
    else None
  }

  /** A path that no query follows. */
  function FromPath(path: string): Option<View> {
    var slash := IndexOf(path, '/');
    var head := if slash < 0 then path else path[..slash];
    var tail := if slash < 0 then "" else path[slash + 1..];
    if tail == "" then Page(head) else FromTail(head, tail)
  }

  function FromWhole(whole: string): Option<View> {
    var mark := IndexOf(whole, '?');
    if mark >= 0 then TalkWith(whole[..mark], whole[mark + 1..]) else FromPath(whole)
  }

  function Stripped(s: string, c: char): string {
    if s != [] && s[0] == c then Stripped(s[1..], c) else s
  }

  /** An invitation to pair, which is no view. */
  predicate IsInvitation(raw: string) {
    Units("pair") in Names(Query(if raw != [] && raw[0] == '#' then raw[1..] else raw))
  }

  /** A fragment read back. */
  function FromFragment(raw: string): Option<View> {
    if IsInvitation(raw) then Some(Setup(Some("remote")))
    else FromWhole(Stripped(Stripped(raw, '#'), '/'))
  }
}
