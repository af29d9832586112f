/** No ledger record is lost: what the gap walk keeps over every interleaving of
    live records, lagged ranges, page answers, lost connections and welcomes. */
module GapWalkRuns {
  import opened OrderedMaps
  import opened GapWalkModel

  /** A run so far. `passed` is the stream's position: every record up to it was
      delivered or declared skipped; `base` is the position of the last snapshot,
      when every answer was asked again; `news` are the records no answer held can
      have seen, written or skipped before the socket last died;
      `ledger` is the ledger the city really serves. */
  datatype World = World(st: State, passed: int, base: int, news: set<nat>, ledger: string)

  datatype Event =
    | Live(entry: Entry)
    | Lags(from: nat, to: nat, reply: Option<AskId>)
    | Answers(id: AskId, outcome: Outcome, reply: Option<AskId>)
    | Welcomes(named: Option<string>, head: Option<nat>, reply: Option<AskId>, ledger: string, standing: int)

  predicate InGap(gap: Gap, s: int) { gap.at <= s <= gap.to }

  ghost predicate Queued(gaps: seq<Gap>, s: int) {
    exists i :: 0 <= i < |gaps| && InGap(gaps[i], s)
  }

  ghost predicate QueuedAsNews(gaps: seq<Gap>, s: int) {
    exists i :: 0 <= i < |gaps| && gaps[i].records.Invalidating? && InGap(gaps[i], s)
  }

  /** The records the store holds: those applied since it was last told to forget. */
  function FoldedIn(calls: seq<Call>): set<nat> {
    if calls == [] then {}
    else
      var last := calls[|calls| - 1];
      var rest := FoldedIn(calls[..|calls| - 1]);
      if last.Applied? then rest + {last.position} else if last.Forgotten? then {} else rest
  }

  /** The records the answers were told of since all were last asked again. */
  function ToldIn(calls: seq<Call>): set<nat> {
    if calls == [] then {}
    else
      var last := calls[|calls| - 1];
      var rest := ToldIn(calls[..|calls| - 1]);
      if last.Invalidated? then rest + {last.position} else if last.AskedAgain? then {} else rest
  }

  lemma CallAdds(calls: seq<Call>, call: Call)
    ensures FoldedIn(calls + [call]) ==
            if call.Applied? then FoldedIn(calls) + {call.position} else if call.Forgotten? then {} else FoldedIn(calls)
    ensures ToldIn(calls + [call]) ==
            if call.Invalidated? then ToldIn(calls) + {call.position} else if call.AskedAgain? then {} else ToldIn(calls)
  {
    assert (calls + [call])[..|calls + [call]| - 1] == calls;
  }

  // ------------------------------------------------------------ the environment

  /** The positions a page's records stand at, in order. */
  predicate RecordsFrom(records: seq<Entry>, from: int, upTo: int) {
    |records| == upTo - from && forall i :: 0 <= i < |records| ==> records[i].position == from + i
  }

  /** A page answered truthfully for the range its question named: the ledger's own
      records from where it began up to the cursor, which moves forward. */
  predicate Truthful(gap: Gap, range: Range) {
    && range.from == gap.at
    && (range.next.Some? ==> gap.at < range.next.value <= gap.to)
    && RecordsFrom(range.records, gap.at, if range.next.Some? then range.next.value else gap.to + 1)
  }

  /** The city, the link and the ledger keep their side: the stream skips no record
      it does not declare (it may repeat some), pages are truthful, the head of one
      ledger never goes back, and a change of ledger is told to a page that knows
      which ledger it holds. */
  predicate Fair(w: World, e: Event) {
    match e
    case Live(entry) => entry.position <= w.passed + 1
    case Lags(from, to, reply) => from <= w.passed + 1 && from <= to
    case Answers(id, outcome, reply) =>
      w.st.gapAsk == Some(id) && outcome.Page? && w.st.gaps != [] ==> Truthful(w.st.gaps[0], outcome.range)
    case Welcomes(named, head, reply, ledger, standing) =>
      && (head.Some? ==> head.value == standing) && -1 <= standing
      && (named.Some? ==> named.value == ledger)
      && (ledger == w.ledger ==> w.passed <= standing)
      && (ledger != w.ledger ==> named.Some? && w.st.epoch.Some? && w.st.epoch.value == w.ledger)
  }

  function Max(a: int, b: int): int { if a < b then b else a }

  function News(w: World, st: State, head: Option<nat>): set<nat> {
    if Snapshots(st, head) then {}
    else set s: nat | 0 <= s <= head.value
                      && (s in w.news || w.passed < s || exists i :: 0 <= i < |st.gaps| && InGap(st.gaps[i], s))
  }

  function Step(w: World, e: Event): World {
    match e
    case Live(entry) => w.(st := Fold(w.st, entry), passed := Max(w.passed, entry.position))
    case Lags(from, to, reply) => w.(st := Lagged(w.st, from, to, reply), passed := Max(w.passed, to))
    case Answers(id, outcome, reply) => w.(st := Answered(w.st, id, outcome, reply))
    case Welcomes(named, head, reply, ledger, standing) =>
      var renewed := Renewed(w.st.(fetching := None, gapAsk := None), named);
      World(Welcomed(w.st, named, head, reply), standing,
            if Snapshots(renewed, head) then standing else w.base,
            News(w, renewed, head), ledger)
  }

  // ------------------------------------------------------------ what a run keeps

  /** Each record after the last snapshot and up to the stream's position is folded
      or inside a range still queued. */
  ghost predicate NothingLost(w: World) {
    forall s: nat :: w.base < s <= w.passed ==> s in FoldedIn(w.st.calls) || Queued(w.st.gaps, s)
  }

  /** Each record the answers cannot have seen has been told to them, or waits in a
      range whose records will be. */
  ghost predicate NewsTold(w: World) {
    forall s :: s in w.news ==> s in ToldIn(w.st.calls) || QueuedAsNews(w.st.gaps, s)
  }

  /** At most one page is awaited, and it starts at the front range's cursor. */
  predicate OnePage(st: State) {
    && (st.fetching.Some? ==> st.gaps != [] && st.gaps[0].at == st.fetching.value)
    && (st.gapAsk.Some? ==> st.fetching.Some?)
  }

  /** The mark and the ranges never run ahead of the stream; ranges are not empty. */
  ghost predicate Behind(w: World) {
    && -1 <= w.passed
    && (w.st.mark.Some? ==> w.st.mark.value <= w.passed)
    && (forall i :: 0 <= i < |w.st.gaps| ==> w.st.gaps[i].at <= w.st.gaps[i].to <= w.passed)
    && (forall s :: s in FoldedIn(w.st.calls) ==> w.st.mark.Some? && s <= w.st.mark.value)
    && (forall s :: s in w.news ==> s <= w.passed)
    && (w.st.epoch.Some? ==> w.st.epoch.value == w.ledger)
  }

  ghost predicate Good(w: World) {
    NothingLost(w) && NewsTold(w) && OnePage(w.st) && Behind(w)
  }

  function Beginning(ledger: string): World { World(Initial, -1, -1, {}, ledger) }

  lemma BeginningGood(ledger: string)
    ensures Good(Beginning(ledger))
  {}

  // ------------------------------------------------------------ folding

  lemma FoldKeeps(w: World, entry: Entry)
    requires Good(w) && Fair(w, Live(entry))
    ensures Good(Step(w, Live(entry)))
  {
    CallAdds(w.st.calls, Applied(entry.position));
  }

  function PositionsIn(records: seq<Entry>): set<nat> {
    set e | e in records :: e.position
  }

  lemma PositionsStep(records: seq<Entry>)
    requires records != []
    ensures PositionsIn(records) == {records[0].position} + PositionsIn(records[1..])
  {
    assert forall e :: e in records <==> e == records[0] || e in records[1..];
    assert records[0] in records;
  }

  lemma {:induction false} FoldAllAdds(st: State, records: seq<Entry>, invalidating: bool)
    ensures var out := FoldAll(st, records, invalidating);
            FoldedIn(out.calls) == FoldedIn(st.calls) + PositionsIn(records)
            && ToldIn(out.calls) == ToldIn(st.calls) + (if invalidating then PositionsIn(records) else {})
            && out == st.(mark := out.mark, calls := out.calls)
    decreases records
  {
    if records != [] {
      var e := records[0];
      var folded := Fold(st, e);
      CallAdds(st.calls, Applied(e.position));
      CallAdds(folded.calls, Invalidated(e.position));
      FoldAllAdds(if invalidating then folded.(calls := folded.calls + [Invalidated(e.position)]) else folded,
                  records[1..], invalidating);
      PositionsStep(records);
    }
  }

  lemma {:induction false} FoldAllMarks(st: State, records: seq<Entry>, invalidating: bool, bound: int)
    requires st.mark.Some? ==> st.mark.value <= bound
    requires forall p :: p in PositionsIn(records) ==> p <= bound
    ensures var mark := FoldAll(st, records, invalidating).mark;
            (mark.Some? ==> mark.value <= bound)
            && (st.mark.Some? ==> mark.Some? && st.mark.value <= mark.value)
            && (forall p :: p in PositionsIn(records) ==> mark.Some? && p <= mark.value)
    decreases records
  {
    if records != [] {
      var e := records[0];
      var folded := Fold(st, e);
      PositionsStep(records);
      FoldAllMarks(if invalidating then folded.(calls := folded.calls + [Invalidated(e.position)]) else folded,
                   records[1..], invalidating, bound);
    }
  }

  /** What one page leaves: its records folded, and told where the range is news. */
  lemma PageFoldedAdds(st: State, range: Range)
    ensures var out := PageFolded(st, range);
            FoldedIn(out.calls) == FoldedIn(st.calls) + PositionsIn(range.records)
            && ToldIn(out.calls) == ToldIn(st.calls) +
               (if st.gaps != [] && st.gaps[0].records.Invalidating? then PositionsIn(range.records) else {})
            && out == st.(mark := out.mark, calls := out.calls)
            && out.mark == FoldAll(st, range.records, st.gaps != [] && st.gaps[0].records.Invalidating?).mark
  {
    var invalidating := st.gaps != [] && st.gaps[0].records.Invalidating?;
    FoldAllAdds(st, range.records, invalidating);
    var bad := FirstUnreadable(range.records);
    if bad.Some? { CallAdds(FoldAll(st, range.records, invalidating).calls, Unreadable(bad.value)); }
  }

  lemma AskKeeps(w: World, reply: Option<AskId>)
    requires NothingLost(w) && NewsTold(w) && Behind(w) && OnePage(w.st)
    ensures Good(w.(st := AskGap(w.st, reply)))
  {
    hide Queued, QueuedAsNews, FoldedIn, ToldIn;
    if w.st.gaps != [] && w.st.fetching.None? {
      CallAdds(w.st.calls, Asked(w.st.gaps[0].at, w.st.gaps[0].to));
    }
  }

  // ------------------------------------------------------------ lagging

  lemma LagKeeps(w: World, from: nat, to: nat, reply: Option<AskId>)
    requires Good(w) && Fair(w, Lags(from, to, reply))
    ensures Good(Step(w, Lags(from, to, reply)))
  {
    var gap := Gap(from, to, FoldedOnly);
    var v := w.(st := w.st.(gaps := w.st.gaps + [gap]), passed := Max(w.passed, to));
    forall s: nat | v.base < s <= v.passed ensures s in FoldedIn(v.st.calls) || Queued(v.st.gaps, s) {
      if s <= w.passed {
        if Queued(w.st.gaps, s) { QueuedMore(w.st.gaps, [gap], s); }
      } else {
        assert InGap(v.st.gaps[|w.st.gaps|], s);
      }
    }
    forall s | s in v.news ensures s in ToldIn(v.st.calls) || QueuedAsNews(v.st.gaps, s) {
      if QueuedAsNews(w.st.gaps, s) { NewsMore(w.st.gaps, [gap], s); }
    }
    AskKeeps(v, reply);
  }

  lemma QueuedMore(a: seq<Gap>, b: seq<Gap>, s: int)
    requires Queued(a, s)
    ensures Queued(a + b, s)
  {
    var i :| 0 <= i < |a| && InGap(a[i], s);
    assert (a + b)[i] == a[i];
  }

  lemma NewsMore(a: seq<Gap>, b: seq<Gap>, s: int)
    requires QueuedAsNews(a, s)
    ensures QueuedAsNews(a + b, s)
  {
    var i :| 0 <= i < |a| && a[i].records.Invalidating? && InGap(a[i], s);
    assert (a + b)[i] == a[i];
  }

  // ------------------------------------------------------------ a page

  /** What leaves the queue with a truthful page is exactly the page. */
  lemma AdvanceLoses(gaps: seq<Gap>, range: Range, s: int)
    requires gaps != [] && Truthful(gaps[0], range)
    ensures Queued(gaps, s) ==> Queued(Advanced(gaps, range.next), s) || s in PositionsIn(range.records)
    ensures QueuedAsNews(gaps, s) ==>
              QueuedAsNews(Advanced(gaps, range.next), s)
              || (gaps[0].records.Invalidating? && s in PositionsIn(range.records))
  {
    var out := Advanced(gaps, range.next);
    if InGap(gaps[0], s) && (range.next.None? || s < range.next.value) {
      assert range.records[s - gaps[0].at].position == s && range.records[s - gaps[0].at] in range.records;
    }
    forall i | 0 <= i < |gaps| && InGap(gaps[i], s) && (i > 0 || (range.next.Some? && range.next.value <= s))
      ensures Queued(out, s) && (gaps[i].records.Invalidating? ==> QueuedAsNews(out, s))
    {
      var j := if range.next.Some? then i else i - 1;
      assert InGap(out[j], s) && out[j].records == gaps[i].records;
    }
  }

  lemma AdvanceBehind(gaps: seq<Gap>, range: Range, passed: int)
    requires gaps != [] && Truthful(gaps[0], range)
    requires forall i :: 0 <= i < |gaps| ==> gaps[i].at <= gaps[i].to <= passed
    ensures var out := Advanced(gaps, range.next); forall i :: 0 <= i < |out| ==> out[i].at <= out[i].to <= passed
    ensures forall p :: p in PositionsIn(range.records) ==> p <= passed
  {
    forall p | p in PositionsIn(range.records) ensures p <= passed {
      var e :| e in range.records && e.position == p;
      var i :| 0 <= i < |range.records| && range.records[i] == e;
    }
  }

  /** The world once a truthful page is folded and its range has moved on. */
  function Turned(w: World, range: Range): World {
    w.(st := PageFolded(w.st.(gapAsk := None), range).(fetching := None, gaps := Advanced(w.st.gaps, range.next)))
  }

  lemma TurnedLosesNothing(w: World, range: Range)
    requires Good(w) && w.st.gaps != [] && Truthful(w.st.gaps[0], range)
    ensures NothingLost(Turned(w, range)) && NewsTold(Turned(w, range))
  {
    hide Truthful, PageFolded, Behind, OnePage;
    var v := Turned(w, range);
    PageFoldedAdds(w.st.(gapAsk := None), range);
    forall s: nat | v.base < s <= v.passed ensures s in FoldedIn(v.st.calls) || Queued(v.st.gaps, s) {
      AdvanceLoses(w.st.gaps, range, s);
    }
    forall s | s in v.news ensures s in ToldIn(v.st.calls) || QueuedAsNews(v.st.gaps, s) {
      AdvanceLoses(w.st.gaps, range, s);
    }
  }

  lemma TurnedBehind(w: World, range: Range)
    requires Good(w) && w.st.gaps != [] && Truthful(w.st.gaps[0], range)
    ensures Behind(Turned(w, range))
  {
    var taken := w.st.(gapAsk := None);
    PageFoldedAdds(taken, range);
    AdvanceBehind(w.st.gaps, range, w.passed);
    FoldAllMarks(taken, range.records, w.st.gaps[0].records.Invalidating?, w.passed);
  }

  lemma PageKeeps(w: World, id: AskId, range: Range, reply: Option<AskId>)
    requires Good(w) && w.st.gapAsk == Some(id) && Fair(w, Answers(id, Page(range), reply))
    ensures Good(Step(w, Answers(id, Page(range), reply)))
  {
    hide NothingLost, NewsTold, Behind, PageFolded;
    assert Truthful(w.st.gaps[0], range) && w.st.fetching == Some(range.from);
    PageFoldedAdds(w.st.(gapAsk := None), range);
    TurnedLosesNothing(w, range);
    TurnedBehind(w, range);
    AskKeeps(Turned(w, range), reply);
  }

  lemma AnswerKeeps(w: World, id: AskId, outcome: Outcome, reply: Option<AskId>)
    requires Good(w) && Fair(w, Answers(id, outcome, reply))
    ensures Good(Step(w, Answers(id, outcome, reply)))
  {
    if w.st.gapAsk == Some(id) {
      if outcome.Page? { PageKeeps(w, id, outcome.range, reply); }
    }
  }

  // ------------------------------------------------------------ a welcome

  lemma {:induction false} AllInvalidatingAt(gaps: seq<Gap>)
    ensures |AllInvalidating(gaps)| == |gaps|
    ensures forall i :: 0 <= i < |gaps| ==> AllInvalidating(gaps)[i] == gaps[i].(records := Invalidating)
  {
    if gaps != [] { AllInvalidatingAt(gaps[1..]); }
  }

  lemma {:induction false} OwedBound(gaps: seq<Gap>, far: int, bound: int)
    requires far <= bound && forall i :: 0 <= i < |gaps| ==> gaps[i].to <= bound
    ensures Owed(gaps, far) <= bound
    decreases gaps
  {
    if gaps != [] { OwedBound(gaps[1..], if gaps[0].to > far then gaps[0].to else far, bound); }
  }

  lemma AllQueued(gaps: seq<Gap>, s: int)
    ensures Queued(gaps, s) <==> QueuedAsNews(AllInvalidating(gaps), s)
    ensures Queued(gaps, s) <==> Queued(AllInvalidating(gaps), s)
  {
    AllInvalidatingAt(gaps);
    if Queued(gaps, s) {
      var i :| 0 <= i < |gaps| && InGap(gaps[i], s);
      assert InGap(AllInvalidating(gaps)[i], s);
    }
    if Queued(AllInvalidating(gaps), s) {
      var i :| 0 <= i < |gaps| && InGap(AllInvalidating(gaps)[i], s);
      assert InGap(gaps[i], s);
    }
  }

  /** A resume queues exactly what it adds: the ranges owed, all of them news now,
      and the records from what the page was told of up to the head. */
  lemma ResumeQueues(st: State, head: nat, s: int)
    requires !Snapshots(st, Some(head))
    ensures Queued(Resume(st, Some(head)).gaps, s) <==>
            Queued(st.gaps, s) || Owed(st.gaps, st.mark.value) < s <= head
    ensures QueuedAsNews(Resume(st, Some(head)).gaps, s) <==> Queued(Resume(st, Some(head)).gaps, s)
  {
    var owed := Owed(st.gaps, st.mark.value);
    var more := if head > owed then [Gap(owed + 1, head, Invalidating)] else [];
    var all := AllInvalidating(st.gaps);
    var out := all + more;
    AllInvalidatingAt(st.gaps);
    AllQueued(st.gaps, s);
    if Queued(st.gaps, s) {
      QueuedMore(all, more, s);
      NewsMore(all, more, s);
    }
    if owed < s <= head {
      assert InGap(out[|all|], s) && out[|all|].records.Invalidating?;
    }
    if Queued(out, s) {
      var i :| 0 <= i < |out| && InGap(out[i], s);
      if i < |all| { assert InGap(all[i], s); }
    }
  }

  /** The part of a welcome before the resume: another ledger leaves no mark, no
      range and no fold, and the same one leaves everything as it was. */
  lemma RenewedKeeps(w: World, named: Option<string>, ledger: string)
    requires Good(w)
    requires named.Some? ==> named.value == ledger
    requires ledger != w.ledger ==> named.Some? && w.st.epoch.Some? && w.st.epoch.value == w.ledger
    ensures var st := Renewed(w.st.(fetching := None, gapAsk := None), named);
            (ledger == w.ledger ==> st.gaps == w.st.gaps && st.mark == w.st.mark && st.calls == w.st.calls)
            && (ledger != w.ledger ==> st.gaps == [] && st.mark.None? && FoldedIn(st.calls) == {})
            && (st.epoch.Some? ==> st.epoch.value == ledger)
  {
    CallAdds(w.st.calls, Forgotten);
  }

  lemma SnapshotKeeps(w: World, st: State, ledger: string, standing: int)
    requires -1 <= standing
    requires st.mark.Some? ==> st.mark.value <= standing
    requires forall i :: 0 <= i < |st.gaps| ==> st.gaps[i].at <= st.gaps[i].to <= standing
    requires forall s :: s in FoldedIn(st.calls) ==> st.mark.Some? && s <= st.mark.value
    requires st.epoch.Some? ==> st.epoch.value == ledger
    requires st.fetching.None? && st.gapAsk.None?
    ensures Good(World(st.(calls := st.calls + [AskedAgain]), standing, standing, {}, ledger))
  {
    CallAdds(st.calls, AskedAgain);
  }

  lemma ResumeKeeps(w: World, st: State, head: nat)
    requires Good(w) && st.mark == w.st.mark && st.gaps == w.st.gaps && st.calls == w.st.calls
    requires st.epoch.Some? ==> st.epoch.value == w.ledger
    requires st.fetching.None? && st.gapAsk.None?
    requires w.passed <= head && !Snapshots(st, Some(head))
    ensures Good(World(Resume(st, Some(head)), head, w.base, News(w, st, Some(head)), w.ledger))
  {
    var out := Resume(st, Some(head));
    var v := World(out, head, w.base, News(w, st, Some(head)), w.ledger);
    CallAdds(st.calls, AskedInFlight);
    AllInvalidatingAt(st.gaps);
    OwedBound(st.gaps, st.mark.value, w.passed);
    forall s: nat | v.base < s <= v.passed ensures s in FoldedIn(out.calls) || Queued(out.gaps, s) {
      ResumeQueues(st, head, s);
      assert s <= w.passed ==> s in FoldedIn(w.st.calls) || Queued(w.st.gaps, s);
    }
    forall s | s in v.news ensures s in ToldIn(out.calls) || QueuedAsNews(out.gaps, s) {
      ResumeQueues(st, head, s);
      if s in w.news { NewsWasQueued(w, s); }
    }
  }

  lemma NewsWasQueued(w: World, s: nat)
    requires Good(w) && s in w.news
    ensures s in ToldIn(w.st.calls) || Queued(w.st.gaps, s)
  {
    if QueuedAsNews(w.st.gaps, s) {
      var i :| 0 <= i < |w.st.gaps| && w.st.gaps[i].records.Invalidating? && InGap(w.st.gaps[i], s);
    }
  }

  lemma WelcomeKeeps(w: World, named: Option<string>, head: Option<nat>, reply: Option<AskId>, ledger: string, standing: int)
    requires Good(w) && Fair(w, Welcomes(named, head, reply, ledger, standing))
    ensures Good(Step(w, Welcomes(named, head, reply, ledger, standing)))
  {
    var st := Renewed(w.st.(fetching := None, gapAsk := None), named);
    RenewedKeeps(w, named, ledger);
    if Snapshots(st, head) {
      SnapshotKeeps(w, st, ledger, standing);
      AskKeeps(World(st.(calls := st.calls + [AskedAgain]), standing, standing, {}, ledger), reply);
    } else {
      assert ledger == w.ledger;
      ResumeKeeps(w, st, head.value);
      AskKeeps(World(Resume(st, head), standing, w.base, News(w, st, head), ledger), reply);
    }
  }

  // ------------------------------------------------------------ every run

  lemma StepKeeps(w: World, e: Event)
    requires Good(w) && Fair(w, e)
    ensures Good(Step(w, e))
  {
    match e
    case Live(entry) => FoldKeeps(w, entry);
    case Lags(from, to, reply) => LagKeeps(w, from, to, reply);
    case Answers(id, outcome, reply) => AnswerKeeps(w, id, outcome, reply);
    case Welcomes(named, head, reply, ledger, standing) => WelcomeKeeps(w, named, head, reply, ledger, standing);
  }

  function RunOf(w: World, es: seq<Event>): World
    decreases es
  {
    if es == [] then w else RunOf(Step(w, es[0]), es[1..])
  }

  ghost predicate FairRun(w: World, es: seq<Event>)
    decreases es
  {
    es == [] || (Fair(w, es[0]) && FairRun(Step(w, es[0]), es[1..]))
  }

  lemma {:induction false} RunKeeps(w: World, es: seq<Event>)
    requires Good(w) && FairRun(w, es)
    ensures Good(RunOf(w, es))
    decreases es
  {
    if es != [] {
      StepKeeps(w, es[0]);
      RunKeeps(Step(w, es[0]), es[1..]);
    }
  }

  /** In every fair run no record is lost, none the answers missed goes untold, and
      at most one page is awaited, from the front range's cursor. */
  lemma NoRecordLost(ledger: string, es: seq<Event>)
    requires FairRun(Beginning(ledger), es)
    ensures var w := RunOf(Beginning(ledger), es); NothingLost(w) && NewsTold(w) && OnePage(w.st)
  {
    BeginningGood(ledger);
    RunKeeps(Beginning(ledger), es);
  }

  /** A welcome naming another ledger leaves no mark, no range and no fold from the
      old one, and asks every answer again; naming the same one, or none, or being
      the first to name any, forgets nothing. */
  lemma OnlyAnotherLedgerForgets(st: State, named: Option<string>, head: Option<nat>, reply: Option<AskId>)
    ensures var out := Welcomed(st, named, head, reply);
            if st.epoch.Some? && named.Some? && named.value != st.epoch.value
            then out.mark.None? && out.gaps == [] && FoldedIn(out.calls) == {} && ToldIn(out.calls) == {}
            else out.mark == st.mark && FoldedIn(out.calls) == FoldedIn(st.calls)
  {
    var renewed := Renewed(st.(fetching := None, gapAsk := None), named);
    var resumed := Resume(renewed, head);
    CallAdds(st.calls, Forgotten);
    CallAdds(renewed.calls, if Snapshots(renewed, head) then AskedAgain else AskedInFlight);
    if resumed.gaps != [] { CallAdds(resumed.calls, Asked(resumed.gaps[0].at, resumed.gaps[0].to)); }
  }

  // ------------------------------------------------------------ every range finishes

  /** How many records are still to fetch. */
  function Total(gaps: seq<Gap>): nat {
    if gaps == [] then 0
    else (if gaps[0].to < gaps[0].at then 0 else gaps[0].to - gaps[0].at + 1) + Total(gaps[1..])
  }

  lemma {:induction false} TotalAdds(gaps: seq<Gap>, gap: Gap)
    ensures Total(gaps + [gap]) == Total(gaps) + Total([gap])
  {
    if gaps == [] {
      assert gaps + [gap] == [gap];
    } else {
      assert (gaps + [gap])[1..] == gaps[1..] + [gap];
      TotalAdds(gaps[1..], gap);
    }
  }

  /** The page awaited comes. */
  predicate Pages(w: World, e: Event) {
    e.Answers? && w.st.gapAsk == Some(e.id) && e.outcome.Page?
  }

  /** How many records a lag declares skipped. */
  function LagOf(e: Event): nat {
    if e.Lags? then Total([Gap(e.from, e.to, FoldedOnly)]) else 0
  }

  /** A truthful page takes at least one record off what is owed, and leaves the rest. */
  lemma PageShrinks(w: World, e: Event)
    requires Good(w) && Fair(w, e) && Pages(w, e)
    ensures Total(Step(w, e).st.gaps) < Total(w.st.gaps)
    ensures Step(w, e).st.gaps == Advanced(w.st.gaps, e.outcome.range.next)
  {
    var taken := w.st.(gapAsk := None);
    PageFoldedAdds(taken, e.outcome.range);
    hide FoldedIn, ToldIn, PageFolded, NothingLost, NewsTold;
    var gaps := Advanced(w.st.gaps, e.outcome.range.next);
    assert e.outcome.range.next.Some? ==> gaps[1..] == w.st.gaps[1..];
  }

  lemma StepOwes(w: World, e: Event)
    requires Good(w) && Fair(w, e) && !e.Welcomes?
    ensures Total(Step(w, e).st.gaps) + (if Pages(w, e) then 1 else 0) <= Total(w.st.gaps) + LagOf(e)
  {
    if Pages(w, e) {
      PageShrinks(w, e);
    } else if e.Lags? {
      TotalAdds(w.st.gaps, Gap(e.from, e.to, FoldedOnly));
    }
  }

  function PagesIn(w: World, es: seq<Event>): nat
    decreases es
  {
    if es == [] then 0 else (if Pages(w, es[0]) then 1 else 0) + PagesIn(Step(w, es[0]), es[1..])
  }

  function LaggedIn(es: seq<Event>): nat {
    if es == [] then 0 else LagOf(es[0]) + LaggedIn(es[1..])
  }

  /** Between two welcomes, whatever streams and lags among the pages: no more pages
      come than records were owed and lagged, and once as many have come nothing is owed. */
  lemma {:induction false} EveryRangeFinishes(w: World, es: seq<Event>)
    requires Good(w) && FairRun(w, es) && forall e :: e in es ==> !e.Welcomes?
    ensures PagesIn(w, es) + Total(RunOf(w, es).st.gaps) <= Total(w.st.gaps) + LaggedIn(es)
    ensures PagesIn(w, es) == Total(w.st.gaps) + LaggedIn(es) ==> RunOf(w, es).st.gaps == []
    decreases es
  {
    hide Fair, Step, Pages;
    if es == [] {
      hide NothingLost, NewsTold;
    } else {
      hide Good;
      StepKeeps(w, es[0]);
      StepOwes(w, es[0]);
      EveryRangeFinishes(Step(w, es[0]), es[1..]);
    }
  }

  // ------------------------------------------------------------ and what stops one

  /** A page refused, or never sent: it is awaited still, and no answer will come. */
  predicate Stalled(st: State) { st.fetching.Some? && st.gapAsk.None? }

  /** Ranges owed are being walked: a page of the first is awaited, if only in vain. */
  predicate Walking(st: State) { st.gaps != [] ==> st.fetching.Some? }

  /** The awaited page is refused, or the question for the next one does not go out. */
  predicate Stops(w: World, e: Event) {
    match e
    case Live(_) => false
    case Lags(_, _, reply) => w.st.gaps == [] && reply.None?
    case Answers(id, outcome, reply) =>
      w.st.gapAsk == Some(id)
      && (outcome.Other? || (Advanced(w.st.gaps, outcome.range.next) != [] && reply.None?))
    case Welcomes(_, _, reply, _, _) => reply.None? && Step(w, e).st.gaps != []
  }

  lemma StepStallsIff(w: World, e: Event)
    requires Good(w) && Fair(w, e) && Walking(w.st)
    ensures Walking(Step(w, e).st)
    ensures Stalled(Step(w, e).st) <==> Stops(w, e) || (Stalled(w.st) && !e.Welcomes?)
  {
    hide NothingLost, NewsTold, Behind, FoldedIn, ToldIn;
    if Pages(w, e) {
      PageShrinks(w, e);
      PageFoldedAdds(w.st.(gapAsk := None), e.outcome.range);
      hide PageFolded;
    }
  }

  /** Something stopped the walk, and no welcome came after. */
  ghost predicate Stopped(w: World, es: seq<Event>) {
    exists k :: 0 <= k < |es| && StopsAt(w, es, k)
  }

  ghost predicate StopsAt(w: World, es: seq<Event>, k: nat)
    requires k < |es|
  {
    Stops(RunOf(w, es[..k]), es[k]) && forall j :: k < j < |es| ==> !es[j].Welcomes?
  }

  lemma {:induction false} RunOfLast(w: World, es: seq<Event>, e: Event)
    ensures RunOf(w, es + [e]) == Step(RunOf(w, es), e)
    ensures FairRun(w, es + [e]) <==> FairRun(w, es) && Fair(RunOf(w, es), e)
    decreases es
  {
    if es == [] {
      assert es + [e] == [e] && [e][1..] == [];
    } else {
      assert (es + [e])[1..] == es[1..] + [e];
      RunOfLast(Step(w, es[0]), es[1..], e);
    }
  }

  lemma StoppedGrows(w: World, es: seq<Event>, e: Event)
    ensures Stopped(w, es + [e]) <==> Stops(RunOf(w, es), e) || (Stopped(w, es) && !e.Welcomes?)
  {
    hide Stops, Step;
    var all := es + [e];
    assert all[..|es|] == es && all[|es|] == e;
    assert StopsAt(w, all, |es|) <==> Stops(RunOf(w, es), e);
    forall k | 0 <= k < |es| ensures StopsAt(w, all, k) <==> StopsAt(w, es, k) && !e.Welcomes? {
      assert all[..k] == es[..k] && all[k] == es[k];
      assert forall j :: k < j < |es| ==> all[j] == es[j];
    }
  }

  lemma {:induction false} StalledIff(ledger: string, es: seq<Event>)
    requires FairRun(Beginning(ledger), es)
    ensures var v := RunOf(Beginning(ledger), es);
            Good(v) && Walking(v.st) && (Stalled(v.st) <==> Stopped(Beginning(ledger), es))
    decreases |es|
  {
    var w := Beginning(ledger);
    if es == [] {
      BeginningGood(ledger);
    } else {
      hide Good, Fair, Step, Stops, Stopped, Stalled, Walking;
      var before, e := es[..|es| - 1], es[|es| - 1];
      assert es == before + [e];
      RunOfLast(w, before, e);
      StalledIff(ledger, before);
      StepKeeps(RunOf(w, before), e);
      StepStallsIff(RunOf(w, before), e);
      StoppedGrows(w, before, e);
    }
  }

  /** Over every fair run: while a range is owed its next page is on its way, exactly
      unless since the last welcome a page was refused or a question did not go out; then
      nothing is on its way. */
  lemma WalksUnlessStopped(ledger: string, es: seq<Event>)
    requires FairRun(Beginning(ledger), es)
    ensures var st := RunOf(Beginning(ledger), es).st;
            && (Stopped(Beginning(ledger), es) ==> st.gaps != [] && st.gapAsk.None?)
            && (!Stopped(Beginning(ledger), es) && st.gaps != [] ==> st.gapAsk.Some?)
  {
    hide Stopped;
    StalledIff(ledger, es);
  }

  predicate Stalls(w: World, e: Event) {
    !e.Welcomes? && (Stalled(w.st) || (e.Answers? && w.st.gapAsk == Some(e.id) && e.outcome.Other?))
  }

  lemma StepStalls(w: World, e: Event)
    requires Stalls(w, e) && (w.st.gapAsk.Some? ==> w.st.fetching.Some?)
    ensures var v := Step(w, e);
            Stalled(v.st) && w.st.gaps <= v.st.gaps && v.st.fetching == w.st.fetching
            && (v.st.calls == w.st.calls || (e.Live? && v.st.calls == w.st.calls + [Applied(e.entry.position)]))
  {}

  /** A refused page stalls the walk: however long the stream, lags and answers go
      on after it, no range moves and nothing is asked, until a welcome. */
  lemma {:induction false} RefusalStalls(w: World, es: seq<Event>)
    requires es != [] && Stalls(w, es[0]) && (w.st.gapAsk.Some? ==> w.st.fetching.Some?)
    requires forall e :: e in es ==> !e.Welcomes?
    ensures var v := RunOf(w, es);
            && Stalled(v.st) && w.st.gaps <= v.st.gaps && v.st.fetching == w.st.fetching
            && w.st.calls <= v.st.calls
            && (forall c :: c in v.st.calls[|w.st.calls|..] ==> c.Applied?)
    decreases es
  {
    hide Step;
    StepStalls(w, es[0]);
    var next := Step(w, es[0]);
    assert es == [es[0]] + es[1..];
    if es[1..] != [] {
      RefusalStalls(next, es[1..]);
      var v := RunOf(next, es[1..]);
      assert v.st.calls[|w.st.calls|..] == next.st.calls[|w.st.calls|..] + v.st.calls[|next.st.calls|..];
    }
  }
}
