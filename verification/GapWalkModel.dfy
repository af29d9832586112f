/** `client/src/core/gap_walk.ts` as one state and its steps: the ranges owed, the
    page awaited, the mark, and the calls made to the store and the asking. */
module GapWalkModel {
  import opened OrderedMaps

  const GAP_PAGE := 200
  const RESUME_PAGES := 2

  type AskId = nat

  datatype GapRecords = FoldedOnly | Invalidating

  /** Ledger records owed: `at` is the next to fetch, `to` the last. */
  datatype Gap = Gap(at: nat, to: nat, records: GapRecords)

  /** A record by its position and, where the store fails on one, a field. */
  datatype Entry = Entry(position: nat, unreadable: Option<string>)

  datatype Range = Range(from: nat, next: Option<nat>, records: seq<Entry>)

  datatype Outcome = Page(range: Range) | Other

  /** What the walk told the store and the asking, and what it asked for. */
  datatype Call =
    | Applied(position: nat)
    | Unreadable(field: string)
    | Forgotten
    | Invalidated(position: nat)
    | AskedAgain
    | AskedInFlight
    | Asked(from: nat, to: nat)

  datatype State = State(
    gaps: seq<Gap>,
    fetching: Option<nat>,
    gapAsk: Option<AskId>,
    mark: Option<nat>,
    epoch: Option<string>,
    calls: seq<Call>)

  const Initial := State([], None, None, None, None, [])

  function Later(mark: Option<nat>, position: nat): Option<nat> {
    if mark.None? || position > mark.value then Some(position) else mark
  }

  function Fold(st: State, entry: Entry): State {
    st.(mark := Later(st.mark, entry.position), calls := st.calls + [Applied(entry.position)])
  }

  /** `reply` is what `ask` answers: an id, or none where nothing was sent. */
  function AskGap(st: State, reply: Option<AskId>): State {
    if st.gaps == [] || st.fetching.Some? then st
    else st.(fetching := Some(st.gaps[0].at), gapAsk := reply,
             calls := st.calls + [Asked(st.gaps[0].at, st.gaps[0].to)])
  }

  function FoldAll(st: State, records: seq<Entry>, invalidating: bool): State
    decreases records
  {
    if records == [] then st
    else
      var folded := Fold(st, records[0]);
      var told := if invalidating then folded.(calls := folded.calls + [Invalidated(records[0].position)]) else folded;
      FoldAll(told, records[1..], invalidating)
  }

  function FirstUnreadable(records: seq<Entry>): Option<string> {
    if records == [] then None
    else if records[0].unreadable.Some? then records[0].unreadable
    else FirstUnreadable(records[1..])
  }

  /** A page folded record by record, with one report of what did not read. */
  function PageFolded(st: State, range: Range): State {
    var folded := FoldAll(st, range.records, st.gaps != [] && st.gaps[0].records.Invalidating?);
    var bad := FirstUnreadable(range.records);
    if bad.Some? then folded.(calls := folded.calls + [Unreadable(bad.value)]) else folded
  }

  /** The front range after its page: gone, or from the server's cursor on. */
  function Advanced(gaps: seq<Gap>, next: Option<nat>): seq<Gap> {
    if gaps == [] then []
    else if next.Some? then [gaps[0].(at := next.value)] + gaps[1..]
    else gaps[1..]
  }

  function Filled(st: State, range: Range, reply: Option<AskId>): State {
    var folded := PageFolded(st, range);
    if st.fetching != Some(range.from) then folded
    else AskGap(folded.(fetching := None, gaps := Advanced(st.gaps, range.next)), reply)
  }

  function Renewed(st: State, named: Option<string>): State {
    var epoch := if named.Some? then named else st.epoch;
    if st.epoch.Some? && named.Some? && named != st.epoch
    then st.(mark := None, gaps := [], calls := st.calls + [Forgotten], epoch := epoch)
    else st.(epoch := epoch)
  }

  /** How far the page has been told of: its mark and every range still owed. */
  function Owed(gaps: seq<Gap>, far: int): (owed: int)
    ensures owed >= far
    decreases gaps
  {
    if gaps == [] then far else Owed(gaps[1..], if gaps[0].to > far then gaps[0].to else far)
  }

  function AllInvalidating(gaps: seq<Gap>): seq<Gap> {
    if gaps == [] then [] else [gaps[0].(records := Invalidating)] + AllInvalidating(gaps[1..])
  }

  predicate Snapshots(st: State, head: Option<nat>) {
    st.mark.None? || head.None? || head.value < st.mark.value
    || head.value - Owed(st.gaps, st.mark.value) > RESUME_PAGES * GAP_PAGE
  }

  function Resume(st: State, head: Option<nat>): State {
    if Snapshots(st, head) then st.(calls := st.calls + [AskedAgain])
    else
      var owed := Owed(st.gaps, st.mark.value);
      st.(gaps := AllInvalidating(st.gaps)
                  + (if head.value > owed then [Gap(owed + 1, head.value, Invalidating)] else []),
          calls := st.calls + [AskedInFlight])
  }

  function Lagged(st: State, from: nat, to: nat, reply: Option<AskId>): State {
    AskGap(st.(gaps := st.gaps + [Gap(from, to, FoldedOnly)]), reply)
  }

  function Welcomed(st: State, named: Option<string>, head: Option<nat>, reply: Option<AskId>): State {
    AskGap(Resume(Renewed(st.(fetching := None, gapAsk := None), named), head), reply)
  }

  function Answered(st: State, id: AskId, outcome: Outcome, reply: Option<AskId>): State {
    if st.gapAsk != Some(id) then st
    else
      var taken := st.(gapAsk := None);
      if outcome.Page? then Filled(taken, outcome.range, reply) else taken
  }
}
