/** `client/src/core/document_save.ts`: the receipt of unsaved work, over every run of edits, saves, receipts, refusals and lost links. */
module DocumentSave {
  import opened CodeUnits
  import opened DocumentPos
  import opened Grammars
  import opened OrderedMaps
  import opened Saving

  // ------------------------------------------------------------ the draft kept

  /** A change as it is stored: any whole numbers. */
  datatype Stored = Stored(start: int, end: int, insert: Text)

  function AsChange(s: Stored): Change
    requires 0 <= s.start && 0 <= s.end
  {
    Edit(s.start, s.end, s.insert)
  }

  predicate SoundAt(changes: seq<Stored>, i: nat, length: nat)
    requires i < |changes|
  {
    && 0 <= changes[i].start <= changes[i].end <= length
    && (i > 0 ==> changes[i - 1].end <= changes[i].start)
  }

  /** Changes one after the other, none past `length`. */
  ghost predicate Sound(changes: seq<Stored>, length: nat) {
    forall i :: 0 <= i < |changes| ==> SoundAt(changes, i, length)
  }

  ghost predicate ReadAs(changes: seq<Stored>, kept: seq<Change>) {
    && |kept| <= |changes|
    && forall j :: 0 <= j < |kept| ==>
      kept[j].start == changes[j].start && kept[j].end == changes[j].end && kept[j].insert == changes[j].insert
  }

  /** Exactly the changes that fit the version are read back, as they were written. */
  method ReadDraft(parsed: Option<seq<Stored>>, length: nat) returns (draft: Option<seq<Change>>)
    ensures draft.Some? <==> parsed.Some? && Sound(parsed.value, length)
    ensures draft.Some? ==> |draft.value| == |parsed.value| && ReadAs(parsed.value, draft.value)
    ensures draft.Some? ==> Apart(draft.value, 0, length)
  {
    hide Apart;
    if parsed.None? { return None; }
    var changes := parsed.value;
    var reached := 0;
    var kept: seq<Change> := [];
    for i := 0 to |changes|
      invariant 0 <= reached <= length && reached == if i == 0 then 0 else changes[i - 1].end
      invariant forall j :: 0 <= j < i ==> SoundAt(changes, j, length)
      invariant |kept| == i && ReadAs(changes, kept)
    {
      var change := changes[i];
      if change.start < reached || change.end < change.start || change.end > length {
        assert !SoundAt(changes, i, length);
        return None;
      }
      kept := kept + [AsChange(change)];
      reached := change.end;
    }
    SoundIsOrdered(changes, kept, length);
    OrderedIsApart(kept, 0, length);
    return Some(kept);
  }

  lemma SoundIsOrdered(changes: seq<Stored>, kept: seq<Change>, length: nat)
    requires Sound(changes, length) && ReadAs(changes, kept)
    ensures Ordered(kept, length)
  {
    forall i | 0 <= i < |kept|
      ensures kept[i].start <= kept[i].end <= length && (i > 0 ==> kept[i - 1].end <= kept[i].start)
    {
      assert SoundAt(changes, i, length);
    }
  }

  ghost predicate Ordered(changes: seq<Change>, length: nat) {
    forall i :: 0 <= i < |changes| ==>
      changes[i].start <= changes[i].end <= length && (i > 0 ==> changes[i - 1].end <= changes[i].start)
  }

  lemma {:induction false} OrderedIsApart(changes: seq<Change>, from: nat, length: nat)
    requires Ordered(changes, length) && from <= length && (changes != [] ==> from <= changes[0].start)
    ensures Apart(changes, from, length)
    decreases |changes|
  {
    if changes != [] {
      var rest := changes[1..];
      forall i | 0 <= i < |rest|
        ensures rest[i].start <= rest[i].end <= length && (i > 0 ==> rest[i - 1].end <= rest[i].start)
      {
        assert rest[i] == changes[i + 1];
      }
      OrderedIsApart(rest, changes[0].end, length);
    }
  }

  // ------------------------------------------------------------ the save sent

  /** The command that writes part of a document, and the key it is deduplicated by. */
  datatype Command = PutRange(doc: string, baseline: string, edits: seq<Edit<Unit>>, idem: string)

  datatype Sent = Sent(doc: string, baseline: string, command: Command)

  /** The command a save sends: the changes as byte edits of their version; `idem` is minted. */
  method SaveOf(doc: string, p: Positions, changes: seq<Change>, idem: string) returns (sent: Sent)
    requires Built(p)
    ensures sent == Sent(doc, p.version, PutRange(doc, p.version, SentEdits(p.enc, p.text, changes), idem))
  {
    var edits := TextEdits(p, changes);
    sent := Sent(doc, p.version, PutRange(doc, p.version, edits, idem));
  }

  /** A ledger line: what it records, the key it carries, the version it names. */
  datatype Line = Line(written: bool, idem: Option<string>, version: string)

  predicate Carries(line: Line, sent: Sent) {
    line.written && line.idem == Some(sent.command.idem)
  }

  /** Of the lines that carry the key of a save, the first names what it left. */
  function ReceiptIn(lines: seq<Line>, sent: Sent): (r: Option<string>)
    ensures r.Some? ==>
      IsHash(r.value) && exists i :: 0 <= i < |lines| && Carries(lines[i], sent) && lines[i].version == r.value
    ensures (forall i :: 0 <= i < |lines| && Carries(lines[i], sent) ==> IsHash(lines[i].version)) ==>
      (r.None? <==> forall i :: 0 <= i < |lines| ==> !Carries(lines[i], sent))
  {
    if lines == [] then None
    else if Carries(lines[0], sent) then
      if IsHash(lines[0].version) then Some(lines[0].version) else None
    else
      var r := ReceiptIn(lines[1..], sent);
      assert forall i :: 0 <= i < |lines| - 1 ==> lines[1..][i] == lines[i + 1];
      assert r.None? ==> forall i :: 0 < i < |lines| ==> lines[i] == lines[1..][i - 1];
      r
  }

  // ------------------------------------------------------------ the receipt

  datatype Error = Error(action: string, code: string)

  datatype Receipt =
    | Clean
    | Draft
    | Saving(sent: Sent, edited: bool)
    | Pending(sent: Sent, edited: bool)
    | Saved(version: string)
    | Conflict(current: Option<string>)
    | Refused(error: Error)

  datatype Happened =
    | Edited(empty: bool)
    | Based(empty: bool)
    | SentOff(sent: Sent)
    | Lost
    | Relinked
    | Landed(version: string)
    | Refusal(error: Error)
    | MovedTo(version: string)

  const SAVE_ACTION := "save a document"
  const VERSION_CONFLICT := "E_VERSION_CONFLICT"

  predicate InFlight(r: Receipt) { r.Saving? || r.Pending? }

  function Unsaved(empty: bool): Receipt {
    if empty then Clean else Draft
  }

  function Advance(r: Receipt, h: Happened): Receipt {
    match r
    case Clean => AtRest(r, h)
    case Saved(_) => AtRest(r, h)
    case Draft => AtRest(r, h)
    case Refused(_) => AtRest(r, h)
    case Saving(_, _) => Flying(r, h)
    case Pending(_, _) => Flying(r, h)
    case Conflict(_) => if h.Based? then Unsaved(h.empty) else r
  }

  /** With nothing in flight. */
  function AtRest(r: Receipt, h: Happened): Receipt {
    match h
    case Edited(empty) => Unsaved(empty)
    case Based(empty) => Unsaved(empty)
    case SentOff(sent) => Saving(sent, false)
    case MovedTo(version) => if r.Draft? || r.Refused? then Conflict(Some(version)) else r
    case _ => r
  }

  /** While a save flies. */
  function Flying(r: Receipt, h: Happened): Receipt
    requires InFlight(r)
  {
    match h
    case Edited(empty) => r.(edited := !empty)
    case Landed(version) => if r.edited then Draft else Saved(version)
    case Refusal(error) =>
      if error.action != SAVE_ACTION then r
      else if error.code == VERSION_CONFLICT then Conflict(None)
      else Refused(error)
    case Lost => Pending(r.sent, r.edited)
    case Relinked => Saving(r.sent, r.edited)
    case _ => r
  }

  // ------------------------------------------------------------ the texts behind it

  /** The receipt beside what it speaks of: the text edited, the text last known to be
      stored, and the text last sent. */
  datatype World = World(receipt: Receipt, text: Text, acked: Text, flown: Text)

  /** What the page does (`client/src/views/refrain/session.svelte.ts`); `changed` is
      whether the editor holds any change, be it one that writes what was there. */
  datatype Event =
    | Type(text: Text, changed: bool)
    | Save(sent: Sent)
    | Rebase(theirs: Text, text: Text, changed: bool)
    | Drop
    | Relink
    | Land(version: string)
    | Refuse(error: Error)
    | CityMoved(version: string, theirs: Text)

  /** What the editor's changes are counted from. */
  function Base(w: World): Text {
    if InFlight(w.receipt) then w.flown else w.acked
  }

  /** The page saves only unsaved work, and rebases only with nothing in flight; an
      editor without changes shows what they are counted from. */
  predicate Allowed(w: World, e: Event) {
    match e
    case Save(_) => w.receipt.Draft? || w.receipt.Refused?
    case Type(text, changed) => changed || text == Base(w)
    case Rebase(theirs, text, changed) => !InFlight(w.receipt) && (changed || text == theirs)
    case Land(_) => InFlight(w.receipt)
    case _ => true
  }

  function HappenedBy(w: World, e: Event): Happened {
    match e
    case Type(_, changed) => Edited(!changed)
    case Save(sent) => SentOff(sent)
    case Rebase(_, _, changed) => Based(!changed)
    case Drop => Lost
    case Relink => Relinked
    case Land(version) => Landed(version)
    case Refuse(error) => Refusal(error)
    case CityMoved(version, _) => MovedTo(version)
  }

  function Next(w: World, e: Event): World
    requires Allowed(w, e)
  {
    var receipt := Advance(w.receipt, HappenedBy(w, e));
    match e
    case Type(text, _) => w.(receipt := receipt, text := text)
    case Save(_) => w.(receipt := receipt, flown := w.text)
    case Rebase(theirs, text, _) => w.(receipt := receipt, text := text, acked := theirs)
    case Land(_) => w.(receipt := receipt, acked := w.flown)
    case CityMoved(_, theirs) =>
      // With nothing unsaved the editor follows the city's version.
      if w.receipt.Clean? || w.receipt.Saved? then w.(receipt := receipt, text := theirs, acked := theirs)
      else w.(receipt := receipt)
    case _ => w.(receipt := receipt)
  }

  /** Where the receipt says nothing is unsaved, the texts agree. */
  ghost predicate Honest(w: World) {
    match w.receipt
    case Clean => w.text == w.acked
    case Saved(_) => w.text == w.acked
    case Saving(_, edited) => !edited ==> w.text == w.flown
    case Pending(_, edited) => !edited ==> w.text == w.flown
    case _ => true
  }

  /** Where it says something is, they differ. */
  ghost predicate Exact(w: World) {
    match w.receipt
    case Draft => w.text != w.acked
    case Saving(_, edited) => edited ==> w.text != w.flown
    case Pending(_, edited) => edited ==> w.text != w.flown
    case _ => true
  }

  /** The step leaves no changes that change nothing, where the receipt minds them. */
  predicate Plain(w: World, e: Event) {
    match e
    case Type(text, changed) => w.receipt.Conflict? || (changed ==> text != Base(w))
    case Rebase(theirs, text, changed) => changed ==> text != theirs
    case _ => true
  }

  ghost predicate Run(w: World, es: seq<Event>)
    decreases |es|
  {
    es != [] ==> Allowed(w, es[0]) && Run(Next(w, es[0]), es[1..])
  }

  function Reached(w: World, es: seq<Event>): World
    requires Run(w, es)
    decreases |es|
  {
    if es == [] then w else Reached(Next(w, es[0]), es[1..])
  }

  lemma StaysHonest(w: World, e: Event)
    requires Honest(w) && Allowed(w, e)
    ensures Honest(Next(w, e))
    ensures Exact(w) ==> (Exact(Next(w, e)) <==> Plain(w, e))
  {}

  ghost predicate HonestThroughout(w: World, es: seq<Event>)
    requires Run(w, es)
    decreases |es|
  {
    Honest(w) && (es == [] || HonestThroughout(Next(w, es[0]), es[1..]))
  }

  ghost predicate ExactThroughout(w: World, es: seq<Event>)
    requires Run(w, es)
    decreases |es|
  {
    Exact(w) && (es == [] || ExactThroughout(Next(w, es[0]), es[1..]))
  }

  ghost predicate PlainRun(w: World, es: seq<Event>)
    requires Run(w, es)
    decreases |es|
  {
    es == [] || (Plain(w, es[0]) && PlainRun(Next(w, es[0]), es[1..]))
  }

  /** In every run nothing unsaved means the texts agree; and a draft always means that
      they differ, and `edited` in flight that the text left what was sent, exactly when
      no step leaves changes that change nothing. */
  lemma {:induction false} RunIsHonest(w: World, es: seq<Event>)
    requires Honest(w) && Exact(w) && Run(w, es)
    ensures HonestThroughout(w, es)
    ensures ExactThroughout(w, es) <==> PlainRun(w, es)
    decreases |es|
  {
    if es != [] {
      hide Honest, Exact, Plain, Next, Allowed;
      StaysHonest(w, es[0]);
      HonestGoesOn(Next(w, es[0]), es[1..]);
      if Exact(Next(w, es[0])) { RunIsHonest(Next(w, es[0]), es[1..]); }
    }
  }

  lemma {:induction false} HonestGoesOn(w: World, es: seq<Event>)
    requires Honest(w) && Run(w, es)
    ensures HonestThroughout(w, es)
    decreases |es|
  {
    if es != [] {
      hide Honest, Exact, Plain, Next, Allowed;
      StaysHonest(w, es[0]);
      HonestGoesOn(Next(w, es[0]), es[1..]);
    }
  }

  /** A stretch replaced by itself: unsaved work that is no different. */
  lemma SameStretchIsDraft(text: Text)
    ensures var w := World(Clean, text, text, []);
            Allowed(w, Type(text, true)) && Next(w, Type(text, true)).receipt.Draft? && !Exact(Next(w, Type(text, true)))
  {}

  /** The save in flight at the end of a run is the last one sent in it, whole, its
      key included, or the one in flight before it. */
  function LastSent(r: Receipt, es: seq<Event>): Option<Sent> {
    if es == [] then if InFlight(r) then Some(r.sent) else None
    else if es[|es| - 1].Save? then Some(es[|es| - 1].sent)
    else LastSent(r, es[..|es| - 1])
  }

  lemma {:induction false} ReachedLast(w: World, es: seq<Event>)
    requires Run(w, es) && es != []
    ensures var before := es[..|es| - 1];
            Run(w, before) && Allowed(Reached(w, before), es[|es| - 1])
            && Reached(w, es) == Next(Reached(w, before), es[|es| - 1])
    decreases |es|
  {
    var before := es[..|es| - 1];
    if |es| > 1 {
      ReachedLast(Next(w, es[0]), es[1..]);
      assert es[1..][..|es[1..]| - 1] == before[1..];
    } else {
      assert es == [es[0]] && before == [];
      assert Run(Next(w, es[0]), es[1..]);
    }
  }

  /** Losing the link and coming back sends the same command again, edited meanwhile
      or not, so its key is unchanged. */
  lemma {:induction false} SameSaveInFlight(w: World, es: seq<Event>)
    requires Run(w, es) && InFlight(Reached(w, es).receipt)
    ensures LastSent(w.receipt, es) == Some(Reached(w, es).receipt.sent)
    decreases |es|
  {
    if es != [] {
      var before, last := es[..|es| - 1], es[|es| - 1];
      ReachedLast(w, es);
      if !last.Save? {
        SameSaveInFlight(w, before);
      }
    }
  }

  predicate EndsFlight(e: Event) {
    e.Land? || (e.Refuse? && e.error.action == SAVE_ACTION)
  }

  /** Only its answer ends a flight: not an edit, not the link, not what version the
      city answers. */
  lemma OnlyItsAnswerEndsIt(w: World, e: Event)
    requires Allowed(w, e) && InFlight(w.receipt)
    ensures InFlight(Next(w, e).receipt) <==> !EndsFlight(e)
    ensures InFlight(Next(w, e).receipt) ==>
      Next(w, e).receipt.sent == w.receipt.sent && Next(w, e).flown == w.flown
  {}

  /** The step to "saved" is a receipt with nothing changed since the save was sent. */
  lemma SavedIsReceipted(w: World, e: Event)
    requires Allowed(w, e) && !w.receipt.Saved?
    ensures Next(w, e).receipt.Saved? <==> e.Land? && !w.receipt.edited
  {}

  /** Through any run in which it is not answered a save flies on, the command and the
      text it carries as they were sent. */
  lemma {:induction false} FliesUntilAnswered(w: World, es: seq<Event>)
    requires Run(w, es) && InFlight(w.receipt) && forall e :: e in es ==> !EndsFlight(e)
    ensures var v := Reached(w, es);
            InFlight(v.receipt) && v.receipt.sent == w.receipt.sent && v.flown == w.flown
    decreases |es|
  {
    if es != [] {
      OnlyItsAnswerEndsIt(w, es[0]);
      hide Next, Allowed;
      FliesUntilAnswered(Next(w, es[0]), es[1..]);
    }
  }

  /** At step `k` a receipt came with nothing changed since its save was sent. */
  ghost predicate Receipted(w: World, es: seq<Event>, k: int) {
    0 <= k < |es| && es[k].Land? && Run(w, es[..k])
    && InFlight(Reached(w, es[..k]).receipt) && !Reached(w, es[..k]).receipt.edited
  }

  /** A run comes to say "saved" only through such a receipt. */
  lemma {:induction false} SavedWasReceipted(w: World, es: seq<Event>)
    requires Run(w, es) && !w.receipt.Saved? && Reached(w, es).receipt.Saved?
    ensures exists k :: Receipted(w, es, k)
    decreases |es|
  {
    var n := |es| - 1;
    var before := es[..n];
    ReachedLast(w, es);
    if Reached(w, before).receipt.Saved? {
      SavedWasReceipted(w, before);
      var k :| Receipted(w, before, k);
      assert es[..k] == before[..k];
      assert Receipted(w, es, k);
    } else {
      SavedIsReceipted(Reached(w, before), es[n]);
      assert Receipted(w, es, n);
    }
  }
}
