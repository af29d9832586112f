/** What every step of the answer cache keeps, whatever the city, the link, the
    clock and the page do: one index over one set of keys, a bounded cache that
    drops nothing in use, and a patience timer that never lags its queue. */
module AskingIndex {
  import opened OrderedMaps
  import opened Staleness
  import opened AskingModel

  /** Anything that can happen to the cache. */
  datatype Event =
    | Asks(query: Query, sent: Sent)
    | Refreshes(query: Query, sent: Sent)
    | Watches(key: Key, change: int)
    | PaceOver(key: Key, query: Query, sent: Sent)
    | PatienceOver(at: int)
    | Answers(id: AskId, asOf: nat, outcome: Outcome)
    | Records(record: Record)
    | Reconnects(sends: map<Key, Sent>)
    | Resumes(sends: map<Key, Sent>)

  function Next(st: State, e: Event): State {
    match e
    case Asks(query, sent) => Ask(st, query, sent)
    case Refreshes(query, sent) => Refresh(st, query, sent)
    case Watches(key, change) => Watched(st, key, change)
    case PaceOver(key, query, sent) => TimerFires(st, key, query, sent)
    case PatienceOver(at) => Sweep(st, at)
    case Answers(id, asOf, outcome) => Answered(st, id, asOf, outcome)
    case Records(record) => Invalidate(st, record)
    case Reconnects(sends) => Reconnected(st, sends)
    case Resumes(sends) => Resumed(st, sends)
  }

  ghost predicate NamesAgree(keys: set<Key>, parsed: map<Key, Query>, byName: map<Name, set<Key>>) {
    && parsed.Keys == keys
    && (forall n, k :: n in byName && k in byName[n] ==> k in parsed && parsed[k].name == n)
    && (forall k :: k in parsed ==> parsed[k].name in byName && k in byName[parsed[k].name])
  }

  /** `held`, `parsed` and `byName` name the same keys, each key under its own
      question's name, and no more than the cap of them. */
  ghost predicate Index(st: State) {
    && st.held.Valid() && |st.held.keys| <= HELD_CAP
    && NamesAgree(st.held.at.Keys, st.parsed, st.byName)
  }

  ghost predicate Queues(st: State) { st.pending.Valid() && st.late.Valid() }

  /** Whenever a question is pending the patience timer is set, and no later than
      the first question due. */
  ghost predicate Armed(st: State) {
    forall id :: id in st.pending.at ==> st.patience.Some? && st.patience.value <= st.pending.at[id].due
  }

  /** Two states whose caches hold the same keys in the same order under the same index. */
  predicate SameKeys(a: State, b: State) {
    a.held.keys == b.held.keys && a.held.at.Keys == b.held.at.Keys
    && a.parsed == b.parsed && a.byName == b.byName
  }

  lemma SameKeysIndex(a: State, b: State)
    requires SameKeys(a, b) && Index(a)
    ensures Index(b)
  {}

  // ------------------------------------------------------------ the patience timer

  lemma {:induction false} EarliestIsFirst(keys: seq<AskId>, at: map<AskId, Asked>)
    ensures forall id :: id in keys && id in at ==>
              Earliest(keys, at).Some? && Earliest(keys, at).value <= at[id].due
  {
    if keys != [] {
      EarliestIsFirst(keys[1..], at);
      assert forall id :: id in keys <==> id == keys[0] || id in keys[1..];
    }
  }

  lemma WatchArms(st: State)
    requires st.pending.Valid()
    ensures Armed(Watch(st))
  {
    EarliestIsFirst(st.pending.keys, st.pending.at);
  }

  /** Fewer questions pending under the same timer. */
  lemma ArmedFewer(a: State, b: State)
    requires Armed(a) && a.patience == b.patience
    requires forall id :: id in b.pending.at ==> id in a.pending.at && b.pending.at[id] == a.pending.at[id]
    ensures Armed(b)
  {}

  // ------------------------------------------------------------ dispatching

  lemma QueuedKeeps(st: State, key: Key, query: Query, slot: Slot, sent: Sent)
    requires Queues(st) && Armed(st)
    ensures Queues(Queued(st, key, query, slot, sent)) && Armed(Queued(st, key, query, slot, sent))
  {
    if !slot.inflight && sent.Went? {
      var asked := Asked(key, query, sent.at + PatienceOf(query));
      PutValid(st.pending, sent.id, asked);
      WatchArms(st.(pending := st.pending.Put(sent.id, asked)));
    }
  }

  lemma DispatchKeeps(st: State, key: Key, query: Query, slot: Slot, sent: Sent)
    requires Queues(st) && Armed(st)
    ensures Queues(Dispatch(st, key, query, slot, sent)) && Armed(Dispatch(st, key, query, slot, sent))
  {
    QueuedKeeps(st, key, query, slot, sent);
  }

  lemma DispatchSameKeys(st: State, key: Key, query: Query, slot: Slot, sent: Sent)
    ensures SameKeys(st, Dispatch(st, key, query, slot, sent))
  {}

  // ------------------------------------------------------------ finding a slot

  lemma ReusedKeeps(st: State, key: Key)
    requires Index(st) && key in st.held.at
    ensures Index(Reused(st, key)) && Reused(st, key).held.at == st.held.at
  {
    var dropped := st.held.Drop(key);
    DropValid(st.held, key);
    WithoutShorter(st.held.keys, key);
    PutValid(dropped, key, st.held.at[key]);
    assert dropped.Put(key, st.held.at[key]).at == st.held.at;
  }

  lemma DroppedNames(keys: set<Key>, parsed: map<Key, Query>, byName: map<Name, set<Key>>, key: Key)
    requires NamesAgree(keys, parsed, byName) && key in keys
    ensures NamesAgree(keys - {key}, parsed - {key}, Unnamed(byName, parsed[key].name, key))
  {}

  lemma DroppedKeeps(st: State, key: Key)
    requires st.held.Valid() && key in st.held.at && |st.held.keys| <= HELD_CAP + 1
    requires NamesAgree(st.held.at.Keys, st.parsed, st.byName)
    ensures Index(Dropped(st, key)) && Dropped(st, key).held.at == st.held.at - {key}
  {
    DropValid(st.held, key);
    WithoutShorter(st.held.keys, key);
    DroppedNames(st.held.at.Keys, st.parsed, st.byName, key);
    assert (st.held.at - {key}).Keys == st.held.at.Keys - {key};
  }

  lemma {:induction false} FirstLooseIs(keys: seq<Key>, at: map<Key, Slot>)
    ensures var key := FirstLoose(keys, at);
            (key.Some? ==> key.value in keys && key.value in at && !Pinned(at[key.value]))
            && (key.None? ==> forall k :: k in keys && k in at ==> Pinned(at[k]))
  {
    if keys != [] {
      FirstLooseIs(keys[1..], at);
      assert forall k :: k in keys <==> k == keys[0] || k in keys[1..];
    }
  }

  lemma AddedNames(keys: set<Key>, parsed: map<Key, Query>, byName: map<Name, set<Key>>, query: Query)
    requires NamesAgree(keys, parsed, byName) && query.key !in keys
    ensures NamesAgree(keys + {query.key}, parsed[query.key := query], Named(byName, query.name, query.key))
  {}

  lemma AddedKeeps(st: State, query: Query)
    requires Index(st) && query.key !in st.held.at
    ensures var out := Added(st, query);
            out.held.Valid() && out.held.keys == st.held.keys + [query.key]
            && NamesAgree(out.held.at.Keys, out.parsed, out.byName)
  {
    PutValid(st.held, query.key, NewSlot);
    AddedNames(st.held.at.Keys, st.parsed, st.byName, query);
    assert st.held.at[query.key := NewSlot].Keys == st.held.at.Keys + {query.key};
  }

  /** Whether a slot made for `key` stays: someone else can be dropped for it. */
  ghost predicate Room(st: State, key: Key) {
    key in st.held.at || |st.held.keys| < HELD_CAP || exists k :: k in st.held.at && !Pinned(st.held.at[k])
  }

  lemma {:induction false} FirstLooseOlder(keys: seq<Key>, last: Key, at: map<Key, Slot>)
    requires last !in keys
    requires exists k :: k in keys && k in at && !Pinned(at[k])
    ensures FirstLoose(keys + [last], at) == FirstLoose(keys, at)
    ensures FirstLoose(keys, at).Some? && FirstLoose(keys, at).value in keys
  {
    FirstLooseIs(keys, at);
    assert (keys + [last])[1..] == keys[1..] + [last];
    if !(keys[0] in at && !Pinned(at[keys[0]])) {
      assert forall k :: k in keys <==> k == keys[0] || k in keys[1..];
      FirstLooseOlder(keys[1..], last, at);
    }
  }

  lemma SomeLoose(st: State, key: Key)
    requires st.held.Valid() && key !in st.held.at
    ensures (exists k :: k in st.held.at && !Pinned(st.held.at[k])) <==>
            FirstLoose(st.held.keys + [key], st.held.at[key := NewSlot]) != Some(key)
    ensures FirstLoose(st.held.keys + [key], st.held.at[key := NewSlot]).Some?
  {
    var at := st.held.at[key := NewSlot];
    FirstLooseIs(st.held.keys + [key], at);
    assert (st.held.keys + [key])[|st.held.keys|] == key && !Pinned(at[key]);
    if k :| k in st.held.at && !Pinned(st.held.at[k]) {
      assert k in st.held.keys && k in at && at[k] == st.held.at[k];
      FirstLooseOlder(st.held.keys, key, at);
    }
  }

  /** The slot `slotFor` hands out is the cache's own if and only if there was
      room: with every older slot in use the new one is dropped at once. */
  lemma SlotKeptIffRoom(st: State, query: Query)
    requires Index(st)
    ensures query.key in SlotFor(st, query).held.at <==> Room(st, query.key)
    ensures Room(st, query.key) ==> SlotFor(st, query).held.at[query.key] == FoundSlot(st, query)
  {
    hide NamesAgree, Without, FirstLoose, Named, Unnamed, Pinned;
    if query.key in st.held.at {
      ReusedKeeps(st, query.key);
    } else {
      AddedKeeps(st, query);
      SomeLoose(st, query.key);
    }
  }

  lemma PinnedNew()
    ensures !Pinned(NewSlot)
  {}

  lemma SlotForKeeps(st: State, query: Query)
    requires Index(st)
    ensures Index(SlotFor(st, query))
    ensures forall k :: k in SlotFor(st, query).held.at ==>
              k == query.key || (k in st.held.at && SlotFor(st, query).held.at[k] == st.held.at[k])
    ensures forall k :: k in st.held.at && Pinned(st.held.at[k]) ==> k in SlotFor(st, query).held.at
    ensures SlotFor(st, query).pending == st.pending && SlotFor(st, query).late == st.late
    ensures SlotFor(st, query).patience == st.patience
  {
    hide NamesAgree, Without, FirstLoose, Named, Unnamed, Pinned;
    if query.key in st.held.at {
      ReusedKeeps(st, query.key);
    } else {
      AddedKeeps(st, query);
      PinnedNew();
      var added := Added(st, query);
      if |added.held.keys| > HELD_CAP {
        FirstLooseIs(added.held.keys, added.held.at);
        assert query.key in added.held.keys && !Pinned(added.held.at[query.key]);
        DroppedKeeps(added, FirstLoose(added.held.keys, added.held.at).value);
      }
    }
  }

  // ------------------------------------------------------------ the sweep

  lemma BoundedKeeps(late: OMap<AskId, Key>)
    requires late.Valid()
    ensures Bounded(late).Valid()
    ensures forall id :: id in Bounded(late).at ==> id in late.at && Bounded(late).at[id] == late.at[id]
  {
    if |late.keys| > HELD_CAP { DropValid(late, late.keys[0]); }
  }

  lemma SweepOneKeeps(st: State, id: AskId, at: int)
    requires Queues(st)
    ensures var out := SweepOne(st, id, at);
            SameKeys(st, out) && Queues(out) && out.patience == st.patience
            && (forall i :: i in out.pending.at <==> i in st.pending.at && (i != id || st.pending.at[i].due > at))
            && (forall i :: i in out.pending.at ==> out.pending.at[i] == st.pending.at[i])
  {
    hide Bounded, Without, Expired;
    if id in st.pending.at && st.pending.at[id].due <= at {
      DropValid(st.pending, id);
      PutValid(st.late, id, st.pending.at[id].key);
      BoundedKeeps(st.late.Put(id, st.pending.at[id].key));
    }
  }

  lemma {:induction false} SweepAllKeeps(st: State, ids: seq<AskId>, at: int)
    requires Queues(st)
    ensures var out := SweepAll(st, ids, at);
            SameKeys(st, out) && Queues(out) && out.patience == st.patience
            && (forall i :: i in out.pending.at <==> i in st.pending.at && (i in ids ==> st.pending.at[i].due > at))
            && (forall i :: i in out.pending.at ==> out.pending.at[i] == st.pending.at[i])
    decreases ids
  {
    if ids != [] {
      SweepOneKeeps(st, ids[0], at);
      SweepAllKeeps(SweepOne(st, ids[0], at), ids[1..], at);
      assert forall i :: i in ids <==> i == ids[0] || i in ids[1..];
    }
  }

  /** After a sweep no overdue question is pending, every other one still is, and
      the timer is armed for the first of those. */
  lemma SweepClears(st: State, at: int)
    requires Queues(st)
    ensures var out := Sweep(st, at);
            SameKeys(st, out) && Queues(out) && Armed(out)
            && (forall id :: id in out.pending.at <==> id in st.pending.at && st.pending.at[id].due > at)
            && (forall id :: id in out.pending.at ==> out.pending.at[id] == st.pending.at[id])
  {
    var from := st.(patience := None);
    SweepAllKeeps(from, st.pending.keys, at);
    WatchArms(SweepAll(from, st.pending.keys, at));
    assert forall id :: id in st.pending.at ==> id in st.pending.keys;
  }

  // ------------------------------------------------------------ the reconnects

  lemma ResumeOneKeeps(st: State, key: Key, sent: Sent)
    requires Queues(st) && Armed(st)
    ensures var out := ResumeOne(st, key, sent); SameKeys(st, out) && Queues(out) && Armed(out)
  {
    if key in st.held.at && key in st.parsed {
      var slot := Revived(st.held.at[key]);
      DispatchKeeps(st, key, st.parsed[key], slot, sent);
      DispatchSameKeys(st, key, st.parsed[key], slot, sent);
    }
  }

  lemma {:induction false} ResumeAllKeeps(st: State, keys: seq<Key>, sends: map<Key, Sent>)
    requires Queues(st) && Armed(st)
    ensures var out := ResumeAll(st, keys, sends); SameKeys(st, out) && Queues(out) && Armed(out)
    decreases keys
  {
    if keys != [] {
      var sent := SentFor(sends, keys[0]);
      ResumeOneKeeps(st, keys[0], sent);
      ResumeAllKeeps(ResumeOne(st, keys[0], sent), keys[1..], sends);
    }
  }

  // ------------------------------------------------------------ every step

  ghost predicate Sound(st: State) { Index(st) && Queues(st) && Armed(st) }

  lemma InitialSound()
    ensures Sound(Initial)
  {}

  lemma SameKeysSound(a: State, b: State)
    requires Sound(a) && SameKeys(a, b) && Queues(b) && Armed(b)
    ensures Sound(b)
  {}

  lemma FoundThenDispatched(st: State, query: Query, slot: Slot, sent: Sent)
    requires Sound(st)
    ensures Sound(SlotFor(st, query))
    ensures Sound(Dispatch(SlotFor(st, query), query.key, query, slot, sent))
    ensures forall k :: k in st.held.at && Pinned(st.held.at[k]) ==>
              k in SlotFor(st, query).held.at && k in Dispatch(SlotFor(st, query), query.key, query, slot, sent).held.at
  {
    SlotForKeeps(st, query);
    DispatchKeeps(SlotFor(st, query), query.key, query, slot, sent);
    DispatchSameKeys(SlotFor(st, query), query.key, query, slot, sent);
    SameKeysSound(SlotFor(st, query), Dispatch(SlotFor(st, query), query.key, query, slot, sent));
  }

  lemma AnsweredKeeps(st: State, id: AskId, asOf: nat, outcome: Outcome)
    requires Sound(st)
    ensures Sound(Answered(st, id, asOf, outcome)) && SameKeys(st, Answered(st, id, asOf, outcome))
  {
    DropValid(st.pending, id);
    DropValid(st.late, id);
  }

  lemma ResumedKeeps(st: State, sends: map<Key, Sent>)
    requires Sound(st)
    ensures Sound(Resumed(st, sends)) && SameKeys(st, Resumed(st, sends))
  {
    var from := st.(pending := Empty(), late := Empty(), patience := None);
    ResumeAllKeeps(from, st.held.keys, sends);
    SameKeysSound(from, Resumed(st, sends));
  }

  lemma WatchedSound(st: State, key: Key, change: int)
    requires Sound(st)
    ensures Sound(Watched(st, key, change)) && SameKeys(st, Watched(st, key, change))
  {
    hide Index;
    ArmedFewer(st, Watched(st, key, change));
    SameKeysSound(st, Watched(st, key, change));
  }

  lemma PaceSound(st: State, key: Key, query: Query, sent: Sent)
    requires Sound(st)
    ensures Sound(TimerFires(st, key, query, sent)) && SameKeys(st, TimerFires(st, key, query, sent))
  {
    hide Index, Dispatch;
    if key in st.held.at {
      var slot := st.held.at[key].(timer := false);
      DispatchKeeps(st, key, query, slot, sent);
      DispatchSameKeys(st, key, query, slot, sent);
      SameKeysSound(st, Dispatch(st, key, query, slot, sent));
      ArmedFewer(st, SetSlot(st, key, slot));
      SameKeysSound(st, SetSlot(st, key, slot));
    }
  }

  lemma RecordedSound(st: State, record: Record)
    requires Sound(st)
    ensures Sound(Invalidate(st, record)) && SameKeys(st, Invalidate(st, record))
  {
    hide Index, IndexReaches;
    ArmedFewer(st, Invalidate(st, record));
    SameKeysSound(st, Invalidate(st, record));
  }

  lemma ReconnectedSound(st: State, sends: map<Key, Sent>)
    requires Sound(st)
    ensures Sound(Reconnected(st, sends)) && SameKeys(st, Reconnected(st, sends))
  {
    hide Index, Resumed;
    var from := st.(held := OMap(st.held.keys, map k | k in st.held.at :: st.held.at[k].(stale := true)));
    ArmedFewer(st, from);
    SameKeysSound(st, from);
    ResumedKeeps(from, sends);
  }

  /** Every step, whatever happens, keeps one index over a bounded cache and an
      armed timer, and drops no slot that is watched, awaited or due to be asked. */
  lemma NextKeeps(st: State, e: Event)
    requires Sound(st)
    ensures Sound(Next(st, e))
    ensures forall k :: k in st.held.at && Pinned(st.held.at[k]) ==> k in Next(st, e).held.at
  {
    hide Index, Queues, Armed, Dispatch, SlotFor, Watched, TimerFires, Sweep, Answered, Invalidate, Reconnected, Resumed;
    match e
    case Asks(query, sent) =>
      FoundThenDispatched(st, query, FoundSlot(st, query), sent);
    case Refreshes(query, sent) =>
      FoundThenDispatched(st, query, Refreshed(FoundSlot(st, query)), sent);
    case Watches(key, change) => WatchedSound(st, key, change);
    case PaceOver(key, query, sent) => PaceSound(st, key, query, sent);
    case PatienceOver(at) =>
      SweepClears(st, at);
      SameKeysSound(st, Sweep(st, at));
    case Answers(id, asOf, outcome) => AnsweredKeeps(st, id, asOf, outcome);
    case Records(record) => RecordedSound(st, record);
    case Reconnects(sends) => ReconnectedSound(st, sends);
    case Resumes(sends) => ResumedKeeps(st, sends);
  }

  function Run(st: State, es: seq<Event>): State
    decreases es
  {
    if es == [] then st else Run(Next(st, es[0]), es[1..])
  }

  /** So in every run whatever. */
  lemma {:induction false} RunSound(st: State, es: seq<Event>)
    requires Sound(st)
    ensures Sound(Run(st, es))
    decreases es
  {
    if es != [] {
      NextKeeps(st, es[0]);
      RunSound(Next(st, es[0]), es[1..]);
    }
  }

  /** In every run from an empty cache the index names what is held, no more than
      the cap is held, and the timer is armed for the first question due. */
  lemma EveryRunSound(es: seq<Event>)
    ensures Sound(Run(Initial, es))
  {
    InitialSound();
    RunSound(Initial, es);
  }

  // ------------------------------------------------------------ one judgement per name

  /** What a record would reach if every held answer were judged by itself. */
  predicate Touches(st: State, key: Key, r: Record) {
    key in st.parsed && Reaches(ReachOf(st.parsed[key].name, r.kind), key.text, r.run)
  }

  /** Judging once per name marks exactly the answers a scan of them all would. */
  lemma IndexIsScan(st: State, r: Record, key: Key)
    requires Index(st) && key in st.held.at
    ensures IndexReaches(st, key, r) <==> Touches(st, key, r)
    ensures Invalidate(st, r).held.at[key]
         == if Touches(st, key, r) then Marked(st.held.at[key], r) else st.held.at[key]
  {
    if Touches(st, key, r) {
      var name := st.parsed[key].name;
      assert name in st.byName && key in st.byName[name];
      assert !ReachOf(name, r.kind).Nothing?;
    }
  }
}
