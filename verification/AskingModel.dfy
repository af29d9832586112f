/** `client/src/core/asking.ts` as one state and the steps its functions take:
    the specification the class `Asking.Asking` is proved against, and the
    machine `AskingIndex` and `AskingFresh` prove its properties of. */
module AskingModel {
  import opened OrderedMaps
  import opened Staleness

  const PATIENCE_MS := 15_000
  const SLOW_MS := 120_000
  const HELD_CAP := 128

  type AskId = nat
  type Answer = string

  /** A question's own text, which is what its answer is held under. */
  datatype Key = Key(text: string)

  /** A question: the name the wire gives it and its key. */
  datatype Query = Query(name: Name, key: Key)

  datatype Record = Record(position: nat, kind: EventKind, run: string)

  /** `staleAt`: how far an answer must have read to clear the mark; `Forever` for one
      no answer clears. */
  datatype Mark = At(position: int) | Forever

  datatype Slot = Slot(
    value: Option<Answer>,
    reported: bool,
    stale: bool,
    staleAt: Mark,
    asOf: Option<nat>,
    inflight: bool,
    watchers: nat,
    timer: bool)

  datatype Asked = Asked(key: Key, query: Query, due: int)

  /** What `send` did with a question, and the clock when it went out. */
  datatype Sent = Offline | Went(id: AskId, at: int)

  datatype Outcome = Refused | Landed(answer: Answer)

  datatype State = State(
    held: OMap<Key, Slot>,
    pending: OMap<AskId, Asked>,
    late: OMap<AskId, Key>,
    parsed: map<Key, Query>,
    byName: map<Name, set<Key>>,
    patience: Option<int>,
    reports: seq<Key>)

  const Initial := State(Empty(), Empty(), Empty(), map[], map[], None, [])

  const NewSlot := Slot(None, false, true, At(-1), None, false, 0, false)

  function PatienceOf(query: Query): int {
    if query.name == OtherName("privacy") then SLOW_MS else PATIENCE_MS
  }

  predicate Pinned(slot: Slot) {
    slot.watchers > 0 || slot.inflight || slot.timer
  }

  // ------------------------------------------------------------ the patience timer

  function Earliest(keys: seq<AskId>, at: map<AskId, Asked>): Option<int> {
    if keys == [] then None
    else
      var rest := Earliest(keys[1..], at);
      if keys[0] !in at then rest
      else if rest.None? || at[keys[0]].due < rest.value then Some(at[keys[0]].due) else rest
  }

  /** When the patience timer is set for, once a queue has been looked at. */
  function Rearmed(pending: OMap<AskId, Asked>, patience: Option<int>): Option<int> {
    var due := Earliest(pending.keys, pending.at);
    if due.None? || (patience.Some? && patience.value <= due.value) then patience else due
  }

  function Watch(st: State): State {
    st.(patience := Rearmed(st.pending, st.patience))
  }

  // ------------------------------------------------------------ one slot's steps

  function SetSlot(st: State, key: Key, slot: Slot): State {
    st.(held := OMap(st.held.keys, st.held.at[key := slot]))
  }

  /** The queue once a question went out for a slot. */
  function Queued(st: State, key: Key, query: Query, slot: Slot, sent: Sent): State {
    if slot.inflight || sent.Offline? then st
    else Watch(st.(pending := st.pending.Put(sent.id, Asked(key, query, sent.at + PatienceOf(query)))))
  }

  /** The slot once its question was, or could not be, sent. */
  function Sending(slot: Slot, sent: Sent): Slot {
    if slot.inflight then slot
    else if sent.Offline? then slot.(stale := true)
    else slot.(inflight := true, stale := false, staleAt := At(-1))
  }

  /** `dispatch` on a slot, which a full cache may already have dropped. */
  function Dispatch(st: State, key: Key, query: Query, slot: Slot, sent: Sent): State {
    var queued := Queued(st, key, query, slot, sent);
    if key in st.held.at then SetSlot(queued, key, Sending(slot, sent)) else queued
  }

  function Scheduled(slot: Slot): Slot {
    if slot.watchers > 0 then slot.(timer := true) else slot
  }

  // ------------------------------------------------------------ the cache

  function FirstLoose(keys: seq<Key>, at: map<Key, Slot>): Option<Key> {
    if keys == [] then None
    else if keys[0] in at && !Pinned(at[keys[0]]) then Some(keys[0])
    else FirstLoose(keys[1..], at)
  }

  function Unnamed(byName: map<Name, set<Key>>, name: Name, key: Key): map<Name, set<Key>> {
    if name in byName then byName[name := byName[name] - {key}] else byName
  }

  function Named(byName: map<Name, set<Key>>, name: Name, key: Key): map<Name, set<Key>> {
    byName[name := (if name in byName then byName[name] else {}) + {key}]
  }

  function Dropped(st: State, key: Key): State {
    st.(held := st.held.Drop(key), parsed := st.parsed - {key},
        byName := if key in st.parsed then Unnamed(st.byName, st.parsed[key].name, key) else st.byName)
  }

  function DropLeastRecent(st: State): State {
    var key := FirstLoose(st.held.keys, st.held.at);
    if key.None? then st else Dropped(st, key.value)
  }

  function Reused(st: State, key: Key): State
    requires key in st.held.at
  {
    st.(held := st.held.Drop(key).Put(key, st.held.at[key]))
  }

  function Added(st: State, query: Query): State {
    st.(held := st.held.Put(query.key, NewSlot), parsed := st.parsed[query.key := query],
        byName := Named(st.byName, query.name, query.key))
  }

  /** The state once a question's slot is found or made; a full cache makes room. */
  function SlotFor(st: State, query: Query): State {
    if query.key in st.held.at then Reused(st, query.key)
    else
      var added := Added(st, query);
      if |added.held.keys| > HELD_CAP then DropLeastRecent(added) else added
  }

  /** The slot `slotFor` hands out, whether or not the cache kept it. */
  function FoundSlot(st: State, query: Query): Slot {
    if query.key in st.held.at then st.held.at[query.key] else NewSlot
  }

  // ------------------------------------------------------------ the public steps

  function Ask(st: State, query: Query, sent: Sent): State {
    var slot := FoundSlot(st, query);
    var found := SlotFor(st, query);
    if slot.stale then Dispatch(found, query.key, query, slot, sent) else found
  }

  function Refreshed(slot: Slot): Slot { slot.(stale := true, staleAt := Forever) }

  function Refresh(st: State, query: Query, sent: Sent): State {
    var slot := FoundSlot(st, query);
    Dispatch(SlotFor(st, query), query.key, query, Refreshed(slot), sent)
  }

  function Watched(st: State, key: Key, change: int): State {
    if key !in st.held.at || st.held.at[key].watchers + change < 0 then st
    else SetSlot(st, key, st.held.at[key].(watchers := st.held.at[key].watchers + change))
  }

  /** The pace timer of a slot fires; the question is the one it was set for. */
  function TimerFires(st: State, key: Key, query: Query, sent: Sent): State {
    if key !in st.held.at || !st.held.at[key].timer then st
    else
      var slot := st.held.at[key].(timer := false);
      if slot.stale && slot.watchers > 0 then Dispatch(st, key, query, slot, sent)
      else SetSlot(st, key, slot)
  }

  function Expired(slot: Slot): Slot {
    Scheduled(slot.(inflight := false, stale := true, reported := true))
  }

  function Bounded(late: OMap<AskId, Key>): OMap<AskId, Key> {
    if |late.keys| > HELD_CAP then late.Drop(late.keys[0]) else late
  }

  /** One pending question at one reading of the clock. */
  function SweepOne(st: State, id: AskId, at: int): State {
    if id !in st.pending.at || st.pending.at[id].due > at then st
    else
      var key := st.pending.at[id].key;
      var out := st.(pending := st.pending.Drop(id), late := Bounded(st.late.Put(id, key)));
      if key !in st.held.at then out
      else
        var slot := st.held.at[key];
        SetSlot(out, key, Expired(slot)).(reports := if slot.reported then out.reports else out.reports + [key])
  }

  function SweepAll(st: State, ids: seq<AskId>, at: int): State
    decreases ids
  {
    if ids == [] then st else SweepAll(SweepOne(st, ids[0], at), ids[1..], at)
  }

  function Sweep(st: State, at: int): State {
    Watch(SweepAll(st.(patience := None), st.pending.keys, at))
  }

  function Below(mark: Mark, asOf: nat): bool { mark.At? && mark.position < asOf }

  function Settled(slot: Slot, asOf: nat, answer: Answer, awaited: bool, known: bool): Slot {
    var stale := slot.stale && !Below(slot.staleAt, asOf);
    var kept := slot.(inflight := slot.inflight && !awaited, reported := false, asOf := Some(asOf),
                      stale := stale, value := Some(answer));
    if stale && known then Scheduled(kept) else kept
  }

  function KeyAwaiting(st: State, id: AskId): Option<Key> {
    if id in st.pending.at then Some(st.pending.at[id].key)
    else if id in st.late.at then Some(st.late.at[id])
    else None
  }

  function Answered(st: State, id: AskId, asOf: nat, outcome: Outcome): State {
    var key := KeyAwaiting(st, id);
    var awaited := id in st.pending.at;
    var out := st.(pending := st.pending.Drop(id), late := st.late.Drop(id));
    if key.None? || key.value !in st.held.at then out
    else
      var slot := st.held.at[key.value];
      SetSlot(out, key.value,
              if outcome.Refused? then slot.(inflight := slot.inflight && !awaited, stale := true)
              else Settled(slot, asOf, outcome.answer, awaited, key.value in st.parsed))
  }

  function Later(mark: Mark, position: nat): Mark {
    if mark.At? && mark.position < position then At(position) else mark
  }

  function Marked(slot: Slot, r: Record): Slot {
    if slot.asOf.Some? && r.position < slot.asOf.value then slot
    else Scheduled(slot.(stale := true, staleAt := Later(slot.staleAt, r.position)))
  }

  /** Whether the walk by name comes to a key for a record. */
  predicate IndexReaches(st: State, key: Key, r: Record) {
    key in st.parsed
    && exists name :: name in st.byName && key in st.byName[name]
                   && !ReachOf(name, r.kind).Nothing? && Reaches(ReachOf(name, r.kind), key.text, r.run)
  }

  function Invalidate(st: State, r: Record): State {
    st.(held := OMap(st.held.keys,
      map k | k in st.held.at :: if IndexReaches(st, k, r) then Marked(st.held.at[k], r) else st.held.at[k]))
  }

  function SentFor(sends: map<Key, Sent>, key: Key): Sent {
    if key in sends then sends[key] else Offline
  }

  function Revived(slot: Slot): Slot {
    slot.(stale := slot.stale || slot.inflight, inflight := false, reported := false)
  }

  function ResumeOne(st: State, key: Key, sent: Sent): State {
    if key !in st.held.at then st
    else
      var slot := Revived(st.held.at[key]);
      if slot.stale && key in st.parsed && slot.watchers > 0
      then Dispatch(st, key, st.parsed[key], slot, sent)
      else SetSlot(st, key, slot)
  }

  function ResumeAll(st: State, keys: seq<Key>, sends: map<Key, Sent>): State
    decreases keys
  {
    if keys == [] then st
    else ResumeAll(ResumeOne(st, keys[0], SentFor(sends, keys[0])), keys[1..], sends)
  }

  function Resumed(st: State, sends: map<Key, Sent>): State {
    ResumeAll(st.(pending := Empty(), late := Empty(), patience := None), st.held.keys, sends)
  }

  function Reconnected(st: State, sends: map<Key, Sent>): State {
    Resumed(st.(held := OMap(st.held.keys, map k | k in st.held.at :: st.held.at[k].(stale := true))), sends)
  }
}
