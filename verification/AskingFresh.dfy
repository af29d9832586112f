/** Freshness of the answer cache over whole runs: an answer that is neither
    stale nor awaited holds every record the page was told of that reaches it,
    in exactly those runs in which no superseded question's answer lands past a
    record told in between. */
module AskingFresh {
  import opened OrderedMaps
  import opened Staleness
  import opened AskingModel
  import opened AskingIndex

  /** A run so far: the cache, every record it was told of, the records told before
      each question went out, and those told before each slot's mark was last reset. */
  datatype World = World(
    st: State,
    heard: set<Record>,
    before: map<AskId, set<Record>>,
    reset: map<Key, set<Record>>)

  const Beginning := World(Initial, {}, map[], map[])

  // ------------------------------------------------------------ the steps of a run

  /** A slot just made starts with its mark reset. */
  function Kept(w: World, st: State): map<Key, set<Record>> {
    map k | k in st.held.at :: if k in w.reset then w.reset[k] else w.heard
  }

  function WithState(w: World, st: State): World {
    World(st, w.heard, w.before, Kept(w, st))
  }

  /** A dispatch, remembering what had been told when the question went out. */
  function Dispatching(w: World, key: Key, query: Query, slot: Slot, sent: Sent): World {
    var st := Dispatch(w.st, key, query, slot, sent);
    if slot.inflight || sent.Offline? then World(st, w.heard, w.before, w.reset)
    else World(st, w.heard, w.before[sent.id := w.heard],
               if key in w.st.held.at then w.reset[key := w.heard] else w.reset)
  }

  function Reviving(w: World, key: Key, sent: Sent): World {
    if key !in w.st.held.at then w
    else
      var slot := Revived(w.st.held.at[key]);
      if slot.stale && key in w.st.parsed && slot.watchers > 0
      then Dispatching(w, key, w.st.parsed[key], slot, sent)
      else WithState(w, SetSlot(w.st, key, slot))
  }

  function RevivingAll(w: World, keys: seq<Key>, sends: map<Key, Sent>): World
    decreases keys
  {
    if keys == [] then w else RevivingAll(Reviving(w, keys[0], SentFor(sends, keys[0])), keys[1..], sends)
  }

  function Resuming(w: World, sends: map<Key, Sent>): World {
    RevivingAll(WithState(w, w.st.(pending := Empty(), late := Empty(), patience := None)), w.st.held.keys, sends)
  }

  function AllStale(st: State): State {
    st.(held := OMap(st.held.keys, map k | k in st.held.at :: st.held.at[k].(stale := true)))
  }

  function Step(w: World, e: Event): World {
    match e
    case Asks(query, sent) =>
      var found := WithState(w, SlotFor(w.st, query));
      var slot := FoundSlot(w.st, query);
      if slot.stale then Dispatching(found, query.key, query, slot, sent) else found
    case Refreshes(query, sent) =>
      Dispatching(WithState(w, SlotFor(w.st, query)), query.key, query, Refreshed(FoundSlot(w.st, query)), sent)
    case PaceOver(key, query, sent) =>
      if key !in w.st.held.at || !w.st.held.at[key].timer then w
      else
        var slot := w.st.held.at[key].(timer := false);
        if slot.stale && slot.watchers > 0 then Dispatching(w, key, query, slot, sent)
        else WithState(w, SetSlot(w.st, key, slot))
    case Records(record) => WithState(w, Invalidate(w.st, record)).(heard := w.heard + {record})
    case Reconnects(sends) => Resuming(WithState(w, AllStale(w.st)), sends)
    case Resumes(sends) => Resuming(w, sends)
    case _ => WithState(w, Next(w.st, e))
  }

  lemma {:induction false} RevivingIsResuming(w: World, keys: seq<Key>, sends: map<Key, Sent>)
    ensures RevivingAll(w, keys, sends).st == ResumeAll(w.st, keys, sends)
    decreases keys
  {
    if keys != [] {
      RevivingIsResuming(Reviving(w, keys[0], SentFor(sends, keys[0])), keys[1..], sends);
    }
  }

  /** A run's step is the cache's own, with the history beside it. */
  lemma StepIsNext(w: World, e: Event)
    ensures Step(w, e).st == Next(w.st, e)
  {
    match e
    case Reconnects(sends) =>
      RevivingIsResuming(WithState(WithState(w, AllStale(w.st)), AllStale(w.st).(pending := Empty(), late := Empty(), patience := None)),
                         w.st.held.keys, sends);
    case Resumes(sends) =>
      RevivingIsResuming(WithState(w, w.st.(pending := Empty(), late := Empty(), patience := None)), w.st.held.keys, sends);
    case _ =>
  }

  // ------------------------------------------------------------ what the city and the link owe

  /** Ids are minted once. */
  ghost predicate Minted(w: World, sends: map<Key, Sent>) {
    (forall k :: k in sends && sends[k].Went? ==> sends[k].id !in w.before)
    && (forall j, k :: j in sends && k in sends && j != k && sends[j].Went? && sends[k].Went? ==>
          sends[j].id != sends[k].id)
  }

  /** An answer that lands was read past every record told before its question
      went out, and not before the answer the slot already holds. */
  ghost predicate Truthful(w: World, id: AskId, asOf: nat) {
    var key := KeyAwaiting(w.st, id);
    key.Some? && key.value in w.st.held.at ==> (
      && (id in w.before ==> forall r :: r in w.before[id] ==> r.position < asOf)
      && (w.st.held.at[key.value].asOf.Some? ==> w.st.held.at[key.value].asOf.value <= asOf))
  }

  /** What the city and the link owe the page at each step. */
  ghost predicate Honest(w: World, e: Event) {
    match e
    case Asks(query, sent) => Minted(w, map[query.key := sent])
    case Refreshes(query, sent) => Minted(w, map[query.key := sent])
    case PaceOver(key, _, sent) => Minted(w, map[key := sent])
    case Answers(id, asOf, outcome) => outcome.Landed? ==> Truthful(w, id, asOf)
    case Reconnects(sends) => Minted(w, sends)
    case Resumes(sends) => Minted(w, sends)
    case _ => true
  }

  /** A record told after a question went out and before its slot's mark was reset,
      by a newer question or by the slot being made again: the mark no longer
      remembers it, and the question does not cover it. */
  ghost predicate ToldBetween(w: World, id: AskId, key: Key, r: Record) {
    && key in w.reset && r in w.reset[key]
    && !(id in w.before && r in w.before[id])
    && Touches(w.st, key, r)
  }

  /** An answer that lands on a slot awaiting another, or whose mark keeps it stale,
      or past every record told in between. */
  ghost predicate Undisturbed(w: World, id: AskId, asOf: nat) {
    var key := KeyAwaiting(w.st, id);
    key.Some? && key.value in w.st.held.at ==>
      var slot := w.st.held.at[key.value];
      || (slot.inflight && id !in w.st.pending.at)
      || (slot.stale && !Below(slot.staleAt, asOf))
      || forall r :: ToldBetween(w, id, key.value, r) ==> r.position < asOf
  }

  ghost predicate Harmless(w: World, e: Event) {
    e.Answers? && e.outcome.Landed? ==> Undisturbed(w, e.id, e.asOf)
  }

  ghost predicate Fair(w: World, e: Event) { Honest(w, e) && Harmless(w, e) }

  // ------------------------------------------------------------ what a run keeps

  predicate Reflects(slot: Slot, r: Record) {
    slot.asOf.Some? && r.position < slot.asOf.value
  }

  predicate Covers(slot: Slot, r: Record) {
    slot.stale && (slot.staleAt.Forever? || slot.staleAt.position >= r.position)
  }

  ghost predicate Forgotten(w: World, key: Key, r: Record) {
    key in w.reset && r in w.reset[key]
  }

  /** One record and one slot: a settled answer holds the record; and a record told
      since the mark was reset is in the answer or keeps the slot stale. */
  ghost predicate Accounted(w: World, key: Key, slot: Slot, r: Record) {
    && (!slot.stale && !slot.inflight ==> Reflects(slot, r))
    && (Forgotten(w, key, r) || Reflects(slot, r) || Covers(slot, r))
  }

  ghost predicate SlotOk(w: World, key: Key, slot: Slot) {
    && (slot.stale || slot.inflight || slot.asOf.Some?)
    && (forall r :: r in w.heard && Touches(w.st, key, r) ==> Accounted(w, key, slot, r))
  }

  ghost predicate SlotsOk(w: World) {
    forall k :: k in w.st.held.at ==> SlotOk(w, k, w.st.held.at[k])
  }

  /** What was told before each question out, and before each slot's reset, is known. */
  ghost predicate Ids(w: World) {
    && (forall id :: id in w.st.pending.at ==> id in w.before)
    && (forall id :: id in w.st.late.at ==> id in w.before && id !in w.st.pending.at)
    && w.reset.Keys == w.st.held.at.Keys
    && (forall k :: k in w.reset ==> w.reset[k] <= w.heard)
  }

  ghost predicate Linked(w: World) {
    Queues(w.st) && Ids(w) && SlotsOk(w)
  }

  ghost predicate Good(w: World) {
    Sound(w.st) && Linked(w)
  }

  /** The claim itself. */
  ghost predicate Fresh(w: World) {
    forall k, r :: (k in w.st.held.at && !w.st.held.at[k].stale && !w.st.held.at[k].inflight
                    && r in w.heard && Touches(w.st, k, r)) ==> Reflects(w.st.held.at[k], r)
  }

  lemma GoodIsFresh(w: World)
    requires Good(w)
    ensures Fresh(w)
  {
    forall k, r | k in w.st.held.at && !w.st.held.at[k].stale && !w.st.held.at[k].inflight
               && r in w.heard && Touches(w.st, k, r)
      ensures Reflects(w.st.held.at[k], r)
    {
      assert SlotOk(w, k, w.st.held.at[k]);
      assert Accounted(w, k, w.st.held.at[k], r);
    }
  }

  lemma GoodFrom(w: World)
    requires Sound(w.st) && Ids(w) && SlotsOk(w)
    ensures Good(w)
  {}

  lemma GoodParts(w: World)
    requires Good(w)
    ensures Sound(w.st) && Queues(w.st) && Index(w.st) && Linked(w) && Ids(w) && SlotsOk(w)
  {}

  /** Over the same slots nothing about their marks is forgotten. */
  lemma KeptSame(w: World, st: State)
    requires Ids(w) && st.held.at.Keys == w.st.held.at.Keys
    ensures Kept(w, st) == w.reset
  {}

  /** The same questions out, over the same keys. */
  lemma IdsCarry(w: World, v: World)
    requires Ids(w) && v.st.pending == w.st.pending && v.st.late == w.st.late && v.before == w.before
    requires v.st.held.at.Keys == w.st.held.at.Keys && v.reset == w.reset && w.heard <= v.heard
    ensures Ids(v)
  {}

  // ------------------------------------------------------------ a slot that changes little

  /** A slot as good as another: no less stale, its answer and its marks no older,
      and settled only where the other was. */
  predicate NoWorse(was: Slot, slot: Slot) {
    && (slot.stale || slot.inflight || slot.asOf.Some?)
    && (!slot.stale && !slot.inflight ==> !was.stale && !was.inflight)
    && slot.asOf == was.asOf
    && (was.stale ==> slot.stale)
    && (slot.staleAt == was.staleAt || (slot.stale && slot.staleAt == Forever))
  }

  /** The same world but for one slot, perhaps with questions gone. */
  lemma SlotOkCarries(w: World, v: World, key: Key, was: Slot, slot: Slot)
    requires SlotOk(w, key, was) && NoWorse(was, slot)
    requires v.heard == w.heard
    requires key in v.st.parsed ==> key in w.st.parsed && v.st.parsed[key] == w.st.parsed[key]
    requires key in w.reset ==> key in v.reset && v.reset[key] == w.reset[key]
    ensures SlotOk(v, key, slot)
  {
    forall r | r in v.heard && Touches(v.st, key, r) ensures Accounted(v, key, slot, r) {
      assert Accounted(w, key, was, r);
    }
  }

  lemma SameSlotOk(w: World, v: World, key: Key, slot: Slot)
    requires SlotOk(w, key, slot) && v.heard == w.heard
    requires key in v.st.parsed ==> key in w.st.parsed && v.st.parsed[key] == w.st.parsed[key]
    requires key in w.reset ==> key in v.reset && v.reset[key] == w.reset[key]
    ensures SlotOk(v, key, slot)
  {
    SlotOkCarries(w, v, key, slot, slot);
  }

  // ------------------------------------------------------------ finding a slot

  lemma SlotForParsed(st: State, query: Query, k: Key)
    requires k in st.parsed && k in st.held.at && k in SlotFor(st, query).held.at
    ensures k in SlotFor(st, query).parsed && SlotFor(st, query).parsed[k] == st.parsed[k]
  {
    if query.key !in st.held.at {
      var added := Added(st, query);
      var drop := FirstLoose(added.held.keys, added.held.at);
      assert added.parsed[k] == st.parsed[k];
      if |added.held.keys| > HELD_CAP && drop.Some? {
        assert k in (added.held.at - {drop.value});
      }
    }
  }

  lemma NewIsLoose(st: State, query: Query)
    requires Index(st)
    ensures query.key in SlotFor(st, query).held.at ==>
              SlotFor(st, query).held.at[query.key] == FoundSlot(st, query)
  {
    SlotKeptIffRoom(st, query);
  }

  lemma FoundIds(w: World, query: Query)
    requires Good(w)
    ensures Ids(WithState(w, SlotFor(w.st, query)))
  {
    SlotForKeeps(w.st, query);
  }

  lemma FoundSlotOk(w: World, query: Query, k: Key)
    requires Good(w) && k in SlotFor(w.st, query).held.at
    ensures SlotOk(WithState(w, SlotFor(w.st, query)), k, SlotFor(w.st, query).held.at[k])
  {
    var v := WithState(w, SlotFor(w.st, query));
    SlotForKeeps(w.st, query);
    if k in w.st.held.at {
      OldFoundSlotOk(w, query, k);
    } else {
      NewIsLoose(w.st, query);
      NewSlotOk(v, k);
    }
  }

  lemma StandsAsBefore(w: World, st: State, k: Key)
    requires k in st.held.at
    ensures var v := WithState(w, st);
            && (k in w.reset ==> k in v.reset && v.reset[k] == w.reset[k])
            && v.before == w.before && v.heard == w.heard && v.st == st
  {}

  lemma OldFoundSlotOk(w: World, query: Query, k: Key)
    requires Linked(w) && Index(w.st) && k in w.st.held.at && k in SlotFor(w.st, query).held.at
    ensures SlotOk(WithState(w, SlotFor(w.st, query)), k, w.st.held.at[k])
  {
    assert k in w.st.parsed;
    assert SlotOk(w, k, w.st.held.at[k]);
    hide *;
    var st := SlotFor(w.st, query);
    SlotForKeeps(w.st, query);
    SlotForParsed(w.st, query, k);
    StandsAsBefore(w, st, k);
    SameSlotOk(w, WithState(w, st), k, w.st.held.at[k]);
  }

  lemma NewSlotOk(w: World, k: Key)
    requires k in w.reset && w.reset[k] == w.heard
    ensures SlotOk(w, k, NewSlot)
  {}

  lemma FoundKeeps(w: World, query: Query)
    requires Good(w)
    ensures Good(WithState(w, SlotFor(w.st, query)))
  {
    var v := WithState(w, SlotFor(w.st, query));
    SlotForKeeps(w.st, query);
    FoundIds(w, query);
    forall k | k in v.st.held.at ensures SlotOk(v, k, v.st.held.at[k]) {
      FoundSlotOk(w, query, k);
    }
  }

  // ------------------------------------------------------------ asking

  lemma DispatchQueue(st: State, key: Key, query: Query, slot: Slot, sent: Sent)
    ensures var out := Dispatch(st, key, query, slot, sent);
            out.late == st.late
            && out.pending.at == (if slot.inflight || sent.Offline? then st.pending.at
                                  else st.pending.at[sent.id := Asked(key, query, sent.at + PatienceOf(query))])
            && out.held.at == (if key in st.held.at then st.held.at[key := Sending(slot, sent)] else st.held.at)
  {}

  lemma DispatchingIds(w: World, key: Key, query: Query, slot: Slot, sent: Sent)
    requires Linked(w)
    requires sent.Went? ==> sent.id !in w.before
    ensures Ids(Dispatching(w, key, query, slot, sent))
  {
    hide Dispatch, SlotsOk, PatienceOf;
    DispatchQueue(w.st, key, query, slot, sent);
  }

  lemma DispatchedSlotOk(w: World, key: Key, query: Query, slot: Slot, sent: Sent, k: Key)
    requires Linked(w) && k in w.st.held.at
    requires key in w.st.held.at ==> NoWorse(w.st.held.at[key], slot)
    requires sent.Went? ==> sent.id !in w.before
    ensures SlotOk(Dispatching(w, key, query, slot, sent), k,
                   if k == key then Sending(slot, sent) else w.st.held.at[k])
  {
    var v := Dispatching(w, key, query, slot, sent);
    DispatchQueue(w.st, key, query, slot, sent);
    assert SlotOk(w, k, w.st.held.at[k]);
    if k != key {
      SameSlotOk(w, v, k, w.st.held.at[k]);
    } else if slot.inflight || sent.Offline? {
      SlotOkCarries(w, v, k, w.st.held.at[k], Sending(slot, sent));
    } else {
      SentIsOk(v, k, Sending(slot, sent));
    }
  }

  lemma DispatchingSound(st: State, key: Key, query: Query, slot: Slot, sent: Sent)
    requires Sound(st)
    ensures Sound(Dispatch(st, key, query, slot, sent))
  {
    DispatchKeeps(st, key, query, slot, sent);
    DispatchSameKeys(st, key, query, slot, sent);
    SameKeysSound(st, Dispatch(st, key, query, slot, sent));
  }

  lemma DispatchedSlots(w: World, key: Key, query: Query, slot: Slot, sent: Sent)
    requires Linked(w) && (key in w.st.held.at ==> NoWorse(w.st.held.at[key], slot))
    requires sent.Went? ==> sent.id !in w.before
    ensures SlotsOk(Dispatching(w, key, query, slot, sent))
  {
    hide Linked, SlotOk, NoWorse, Dispatch;
    var v := Dispatching(w, key, query, slot, sent);
    DispatchQueue(w.st, key, query, slot, sent);
    forall k | k in v.st.held.at ensures SlotOk(v, k, v.st.held.at[k]) {
      DispatchedSlotOk(w, key, query, slot, sent, k);
    }
  }

  lemma DispatchingKeeps(w: World, key: Key, query: Query, slot: Slot, sent: Sent)
    requires Good(w) && (key in w.st.held.at ==> NoWorse(w.st.held.at[key], slot))
    requires sent.Went? ==> sent.id !in w.before
    ensures Good(Dispatching(w, key, query, slot, sent))
  {
    GoodParts(w);
    assert Dispatching(w, key, query, slot, sent).st == Dispatch(w.st, key, query, slot, sent);
    hide *;
    DispatchingSound(w.st, key, query, slot, sent);
    DispatchingIds(w, key, query, slot, sent);
    DispatchedSlots(w, key, query, slot, sent);
    GoodFrom(Dispatching(w, key, query, slot, sent));
  }

  /** A question just sent has every record told so far before it. */
  lemma SentIsOk(v: World, key: Key, slot: Slot)
    requires slot.inflight && key in v.reset && v.reset[key] == v.heard
    ensures SlotOk(v, key, slot)
  {
    forall r | r in v.heard && Touches(v.st, key, r) ensures Accounted(v, key, slot, r) {}
  }

  // ------------------------------------------------------------ the clock

  lemma SweptStands(w: World, id: AskId, at: int, k: Key)
    requires Linked(w) && k in w.st.held.at && id in w.st.pending.at && w.st.pending.at[id].due <= at
    ensures var v := WithState(w, SweepOne(w.st, id, at));
            && v.reset == w.reset && v.before == w.before && v.heard == w.heard && v.st.parsed == w.st.parsed
  {
    hide SlotsOk, Without, Expired;
    var key := w.st.pending.at[id].key;
    SweepOneKeeps(w.st, id, at);
    PutValid(w.st.late, id, key);
    BoundedKeeps(w.st.late.Put(id, key));
  }

  lemma SweptSlotOk(w: World, id: AskId, at: int, k: Key)
    requires Linked(w) && k in w.st.held.at
    requires id in w.st.pending.at && w.st.pending.at[id].due <= at
    ensures SlotOk(WithState(w, SweepOne(w.st, id, at)), k,
                   if k == w.st.pending.at[id].key then Expired(w.st.held.at[k]) else w.st.held.at[k])
  {
    var was := w.st.held.at[k];
    assert SlotOk(w, k, was) && NoWorse(was, was) && NoWorse(was, Expired(was));
    hide *;
    SweptStands(w, id, at, k);
    SlotOkCarries(w, WithState(w, SweepOne(w.st, id, at)), k, was,
                  if k == w.st.pending.at[id].key then Expired(was) else was);
  }

  lemma SweptIds(w: World, id: AskId, at: int)
    requires Linked(w) && id in w.st.pending.at && w.st.pending.at[id].due <= at
    ensures Ids(WithState(w, SweepOne(w.st, id, at)))
  {
    SweepOneKeeps(w.st, id, at);
    BoundedKeeps(w.st.late.Put(id, w.st.pending.at[id].key));
  }

  lemma SweepingKeeps(w: World, id: AskId, at: int)
    requires Linked(w)
    ensures Linked(WithState(w, SweepOne(w.st, id, at)))
  {
    var v := WithState(w, SweepOne(w.st, id, at));
    if id in w.st.pending.at && w.st.pending.at[id].due <= at {
      SweepOneKeeps(w.st, id, at);
      SweptIds(w, id, at);
      SweptSlotsOk(w, id, at);
    } else {
      KeptSame(w, w.st);
    }
  }

  lemma SweptSlotsOk(w: World, id: AskId, at: int)
    requires Linked(w) && id in w.st.pending.at && w.st.pending.at[id].due <= at
    ensures SlotsOk(WithState(w, SweepOne(w.st, id, at)))
  {
    hide SlotOk;
    var v := WithState(w, SweepOne(w.st, id, at));
    forall k | k in v.st.held.at ensures SlotOk(v, k, v.st.held.at[k]) {
      SweptSlotOk(w, id, at, k);
    }
  }

  lemma WithStateTwice(w: World, a: State, b: State)
    requires a.held.at.Keys == b.held.at.Keys
    ensures WithState(WithState(w, a), b) == WithState(w, b)
  {
    assert Kept(WithState(w, a), b) == Kept(w, b);
  }

  lemma {:induction false} SweepingAllKeeps(w: World, ids: seq<AskId>, at: int)
    requires Linked(w)
    ensures Linked(WithState(w, SweepAll(w.st, ids, at)))
    decreases ids
  {
    if ids == [] {
      KeptSame(w, w.st);
    } else {
      var st := SweepOne(w.st, ids[0], at);
      SweepOneKeeps(w.st, ids[0], at);
      SweepingKeeps(w, ids[0], at);
      SweepingAllKeeps(WithState(w, st), ids[1..], at);
      SweepAllKeeps(st, ids[1..], at);
      WithStateTwice(w, st, SweepAll(st, ids[1..], at));
    }
  }

  /** Setting or clearing the timer touches nothing else. */
  lemma PatienceAside(w: World, patience: Option<int>)
    requires Linked(w)
    ensures Linked(w.(st := w.st.(patience := patience)))
  {
    var v := w.(st := w.st.(patience := patience));
    forall k | k in v.st.held.at ensures SlotOk(v, k, v.st.held.at[k]) {
      SameSlotOk(w, v, k, w.st.held.at[k]);
    }
  }

  lemma SweepKeeps(w: World, at: int)
    requires Good(w)
    ensures Good(WithState(w, Sweep(w.st, at)))
  {
    var from := w.(st := w.st.(patience := None));
    PatienceAside(w, None);
    SweepingAllKeeps(from, w.st.pending.keys, at);
    var swept := SweepAll(from.st, w.st.pending.keys, at);
    PatienceAside(WithState(from, swept), Watch(swept).patience);
    assert WithState(from, swept).(st := swept.(patience := Watch(swept).patience)) == WithState(w, Sweep(w.st, at));
    SweepClears(w.st, at);
    SameKeysSound(w.st, Sweep(w.st, at));
  }

  // ------------------------------------------------------------ answers

  /** Where a truthful answer lands, every record is in it or still marks it. */
  lemma LandedSlotOk(w: World, v: World, key: Key, id: AskId, asOf: nat, slot: Slot,
                     answer: Answer, awaited: bool, known: bool)
    requires SlotOk(w, key, slot) && v.heard == w.heard && v.reset == w.reset
    requires key in v.st.parsed ==> key in w.st.parsed && v.st.parsed[key] == w.st.parsed[key]
    requires id in w.before && forall r :: r in w.before[id] ==> r.position < asOf
    requires slot.asOf.Some? ==> slot.asOf.value <= asOf
    requires || (slot.inflight && !awaited)
             || (slot.stale && !Below(slot.staleAt, asOf))
             || forall r :: ToldBetween(w, id, key, r) ==> r.position < asOf
    ensures SlotOk(v, key, Settled(slot, asOf, answer, awaited, known))
  {
    hide ReachOf, Reaches;
    var after := Settled(slot, asOf, answer, awaited, known);
    forall r | r in v.heard && Touches(v.st, key, r) ensures Accounted(v, key, after, r) {
      assert Touches(w.st, key, r);
      assert Accounted(w, key, slot, r);
      if Forgotten(w, key, r) && !(r in w.before[id]) { assert ToldBetween(w, id, key, r); }
    }
  }

  lemma AnsweredIds(w: World, id: AskId, asOf: nat, outcome: Outcome)
    requires Linked(w)
    ensures Ids(WithState(w, Answered(w.st, id, asOf, outcome)))
  {}

  /** The slot an answer goes to. */
  lemma AwaitedSlotOk(w: World, id: AskId, asOf: nat, outcome: Outcome, k: Key)
    requires Linked(w) && k in w.st.held.at && KeyAwaiting(w.st, id) == Some(k)
    requires outcome.Landed? ==> Truthful(w, id, asOf) && Undisturbed(w, id, asOf)
    ensures var st := Answered(w.st, id, asOf, outcome); SlotOk(WithState(w, st), k, st.held.at[k])
  {
    var st := Answered(w.st, id, asOf, outcome);
    var v := WithState(w, st);
    KeptSame(w, st);
    assert SlotOk(w, k, w.st.held.at[k]);
    if outcome.Landed? {
      LandedSlotOk(w, v, k, id, asOf, w.st.held.at[k], outcome.answer, id in w.st.pending.at, k in w.st.parsed);
    } else {
      SlotOkCarries(w, v, k, w.st.held.at[k], st.held.at[k]);
    }
  }

  lemma OtherSlotOk(w: World, id: AskId, asOf: nat, outcome: Outcome, k: Key)
    requires Linked(w) && k in w.st.held.at && KeyAwaiting(w.st, id) != Some(k)
    ensures var st := Answered(w.st, id, asOf, outcome); SlotOk(WithState(w, st), k, w.st.held.at[k])
  {
    assert SlotOk(w, k, w.st.held.at[k]);
    SameSlotOk(w, WithState(w, Answered(w.st, id, asOf, outcome)), k, w.st.held.at[k]);
  }

  lemma AnswerKeeps(w: World, id: AskId, asOf: nat, outcome: Outcome)
    requires Good(w)
    requires outcome.Landed? ==> Truthful(w, id, asOf) && Undisturbed(w, id, asOf)
    ensures Good(WithState(w, Answered(w.st, id, asOf, outcome)))
  {
    hide SlotOk, Truthful, Undisturbed, Armed, NamesAgree, ReachOf;
    var st := Answered(w.st, id, asOf, outcome);
    var v := WithState(w, st);
    AnsweredKeeps(w.st, id, asOf, outcome);
    AnsweredIds(w, id, asOf, outcome);
    forall k | k in v.st.held.at ensures SlotOk(v, k, v.st.held.at[k]) {
      if KeyAwaiting(w.st, id) == Some(k) {
        AwaitedSlotOk(w, id, asOf, outcome, k);
      } else {
        OtherSlotOk(w, id, asOf, outcome, k);
      }
    }
  }

  // ------------------------------------------------------------ records

  /** A slot a record was told of, marked where the record reaches it. */
  lemma HeardSlotOk(w: World, v: World, k: Key, was: Slot, record: Record)
    requires SlotOk(w, k, was) && v.heard == w.heard + {record} && v.st.parsed == w.st.parsed
    requires k in w.reset ==> k in v.reset && v.reset[k] == w.reset[k]
    ensures SlotOk(v, k, if Touches(w.st, k, record) then Marked(was, record) else was)
  {
    hide ReachOf, Reaches;
    var slot := if Touches(w.st, k, record) then Marked(was, record) else was;
    forall r | r in v.heard && Touches(v.st, k, r) ensures Accounted(v, k, slot, r) {
      assert Touches(w.st, k, r);
      if r in w.heard { assert Accounted(w, k, was, r); }
    }
  }

  lemma RecordedSlotOk(w: World, record: Record, k: Key)
    requires Linked(w) && Index(w.st) && k in w.st.held.at
    ensures SlotOk(WithState(w, Invalidate(w.st, record)).(heard := w.heard + {record}), k,
                   Invalidate(w.st, record).held.at[k])
  {
    hide Touches, Index, Marked, SlotOk, IndexReaches;
    IndexIsScan(w.st, record, k);
    HeardSlotOk(w, WithState(w, Invalidate(w.st, record)).(heard := w.heard + {record}), k, w.st.held.at[k], record);
  }

  lemma InvalidateSame(st: State, record: Record)
    ensures Invalidate(st, record).pending == st.pending && Invalidate(st, record).late == st.late
    ensures Invalidate(st, record).held.at.Keys == st.held.at.Keys
  {
    hide IndexReaches;
  }

  lemma RecordKeeps(w: World, record: Record)
    requires Good(w)
    ensures Good(WithState(w, Invalidate(w.st, record)).(heard := w.heard + {record}))
  {
    GoodParts(w);
    hide Good, Linked, SlotOk, Sound, Index, Ids, Invalidate;
    var v := WithState(w, Invalidate(w.st, record)).(heard := w.heard + {record});
    NextKeeps(w.st, Records(record));
    InvalidateSame(w.st, record);
    KeptSame(w, Invalidate(w.st, record));
    IdsCarry(w, v);
    forall k | k in v.st.held.at ensures SlotOk(v, k, v.st.held.at[k]) {
      RecordedSlotOk(w, record, k);
    }
    GoodFrom(v);
  }

  // ------------------------------------------------------------ one slot set in place

  lemma SetSlotOk(w: World, key: Key, slot: Slot, k: Key)
    requires Linked(w) && key in w.st.held.at && k in w.st.held.at && NoWorse(w.st.held.at[key], slot)
    ensures SlotOk(WithState(w, SetSlot(w.st, key, slot)), k, if k == key then slot else w.st.held.at[k])
  {
    hide Accounted, Touches;
    var v := WithState(w, SetSlot(w.st, key, slot));
    assert SlotOk(w, k, w.st.held.at[k]);
    if k == key { SlotOkCarries(w, v, k, w.st.held.at[k], slot); } else { SameSlotOk(w, v, k, w.st.held.at[k]); }
  }

  lemma SettingSound(st: State, key: Key, slot: Slot)
    requires Sound(st) && key in st.held.at
    ensures Sound(SetSlot(st, key, slot))
  {
    hide Index;
    SameKeysSound(st, SetSlot(st, key, slot));
  }

  lemma SettingSlots(w: World, key: Key, slot: Slot)
    requires Linked(w) && key in w.st.held.at && NoWorse(w.st.held.at[key], slot)
    ensures SlotsOk(WithState(w, SetSlot(w.st, key, slot)))
  {
    hide Linked, SlotOk, NoWorse, Kept;
    var v := WithState(w, SetSlot(w.st, key, slot));
    forall k | k in v.st.held.at ensures SlotOk(v, k, v.st.held.at[k]) {
      SetSlotOk(w, key, slot, k);
    }
  }

  lemma SettingIds(w: World, key: Key, slot: Slot)
    requires Ids(w) && key in w.st.held.at
    ensures Ids(WithState(w, SetSlot(w.st, key, slot)))
  {
    hide Ids, Kept;
    assert SetSlot(w.st, key, slot).held.at.Keys == w.st.held.at.Keys;
    KeptSame(w, SetSlot(w.st, key, slot));
    IdsCarry(w, WithState(w, SetSlot(w.st, key, slot)));
  }

  /** A slot replaced by one no worse, awaited as before. */
  lemma SettingKeeps(w: World, key: Key, slot: Slot)
    requires Good(w) && key in w.st.held.at
    requires NoWorse(w.st.held.at[key], slot)
    ensures Good(WithState(w, SetSlot(w.st, key, slot)))
  {
    GoodParts(w);
    hide *;
    SettingSound(w.st, key, slot);
    SettingIds(w, key, slot);
    SettingSlots(w, key, slot);
    WithStateIs(w, SetSlot(w.st, key, slot));
    GoodFrom(WithState(w, SetSlot(w.st, key, slot)));
  }

  lemma WithStateIs(w: World, st: State)
    ensures WithState(w, st).st == st
  {}

  lemma NoWorseItself(w: World, key: Key)
    requires SlotsOk(w) && key in w.st.held.at
    ensures NoWorse(w.st.held.at[key], w.st.held.at[key])
  {
    assert SlotOk(w, key, w.st.held.at[key]);
  }

  // ------------------------------------------------------------ the reconnects

  ghost predicate Distinct(keys: seq<Key>) {
    forall i, j :: 0 <= i < j < |keys| ==> keys[i] != keys[j]
  }

  /** With every question cleared a run goes on good. */
  lemma ClearedKeeps(w: World)
    requires Good(w)
    ensures Good(WithState(w, w.st.(pending := Empty(), late := Empty(), patience := None)))
  {
    GoodParts(w);
    hide Good, Linked, Sound, Index, SlotOk;
    var v := WithState(w, w.st.(pending := Empty(), late := Empty(), patience := None));
    assert v.reset == w.reset by { KeptSame(w, v.st); }
    ClearedSound(w.st);
    forall k | k in v.st.held.at ensures SlotOk(v, k, v.st.held.at[k]) {
      SameSlotOk(w, v, k, w.st.held.at[k]);
    }
    GoodFrom(v);
  }

  lemma ClearedSound(st: State)
    requires Sound(st)
    ensures Sound(st.(pending := Empty(), late := Empty(), patience := None))
  {
    SameKeysIndex(st, st.(pending := Empty(), late := Empty(), patience := None));
  }

  lemma RevivingKeeps(w: World, key: Key, sent: Sent)
    requires Good(w) && (sent.Went? ==> sent.id !in w.before)
    ensures Good(Reviving(w, key, sent))
  {
    hide Good, Linked, Sound, Dispatching, WithState;
    if key in w.st.held.at {
      var slot := Revived(w.st.held.at[key]);
      RevivedNoWorse(w, key);
      if slot.stale && key in w.st.parsed && slot.watchers > 0 {
        DispatchingKeeps(w, key, w.st.parsed[key], slot, sent);
      } else {
        SettingKeeps(w, key, slot);
      }
    }
  }

  lemma RevivedNoWorse(w: World, key: Key)
    requires Good(w) && key in w.st.held.at
    ensures NoWorse(w.st.held.at[key], Revived(w.st.held.at[key]))
  {
    NoWorseItself(w, key);
  }

  lemma RevivingBefore(w: World, key: Key, sent: Sent)
    ensures forall id :: id in Reviving(w, key, sent).before ==> id in w.before || (sent.Went? && id == sent.id)
  {}

  lemma {:induction false} RevivingAllKeeps(w: World, keys: seq<Key>, sends: map<Key, Sent>)
    requires Good(w) && Distinct(keys)
    requires forall k :: k in keys && k in sends && sends[k].Went? ==> sends[k].id !in w.before
    requires forall j, k :: j in sends && k in sends && j != k && sends[j].Went? && sends[k].Went? ==>
               sends[j].id != sends[k].id
    ensures Good(RevivingAll(w, keys, sends))
    decreases keys
  {
    hide Good, Reviving;
    if keys != [] {
      var key, rest, sent := keys[0], keys[1..], SentFor(sends, keys[0]);
      assert key in keys;
      RevivingKeeps(w, key, sent);
      RevivingBefore(w, key, sent);
      var v := Reviving(w, key, sent);
      forall k | k in rest ensures k in sends && sends[k].Went? ==> sends[k].id !in v.before {
        assert k in keys && k != key;
      }
      RevivingAllKeeps(v, rest, sends);
    }
  }

  lemma ResumingKeeps(w: World, sends: map<Key, Sent>)
    requires Good(w) && Minted(w, sends)
    ensures Good(Resuming(w, sends))
  {
    var from := WithState(w, w.st.(pending := Empty(), late := Empty(), patience := None));
    ClearedKeeps(w);
    assert Distinct(w.st.held.keys);
    RevivingAllKeeps(from, w.st.held.keys, sends);
  }

  lemma AllStaleSound(st: State)
    requires Sound(st)
    ensures Sound(AllStale(st))
  {
    hide Index;
    SameKeysSound(st, AllStale(st));
  }

  lemma AllStaleKeeps(w: World)
    requires Good(w)
    ensures Good(WithState(w, AllStale(w.st)))
  {
    GoodParts(w);
    hide Good, Linked, Sound, Ids, SlotOk;
    var v := WithState(w, AllStale(w.st));
    AllStaleSound(w.st);
    KeptSame(w, AllStale(w.st));
    IdsCarry(w, v);
    forall k | k in v.st.held.at ensures SlotOk(v, k, v.st.held.at[k]) {
      StaleSlotOk(w, k);
    }
    GoodFrom(v);
  }

  lemma StaleSlotOk(w: World, k: Key)
    requires Linked(w) && k in w.st.held.at
    ensures SlotOk(WithState(w, AllStale(w.st)), k, w.st.held.at[k].(stale := true))
  {
    assert SlotOk(w, k, w.st.held.at[k]);
    SlotOkCarries(w, WithState(w, AllStale(w.st)), k, w.st.held.at[k], w.st.held.at[k].(stale := true));
  }

  // ------------------------------------------------------------ every step of every fair run

  lemma FoundSlotHeld(w: World, query: Query)
    requires Good(w)
    ensures var v := WithState(w, SlotFor(w.st, query));
            Good(v) && v.before == w.before
            && (query.key in v.st.held.at ==> v.st.held.at[query.key] == FoundSlot(w.st, query))
            && NoWorse(FoundSlot(w.st, query), FoundSlot(w.st, query))
            && NoWorse(FoundSlot(w.st, query), Refreshed(FoundSlot(w.st, query)))
  {
    FoundKeeps(w, query);
    SlotKeptIffRoom(w.st, query);
    if query.key in w.st.held.at { NoWorseItself(w, query.key); }
  }

  lemma PaceKeeps(w: World, key: Key, query: Query, sent: Sent)
    requires Good(w) && Minted(w, map[key := sent])
    ensures Good(Step(w, PaceOver(key, query, sent)))
  {
    hide Good, Dispatching, WithState;
    if key in w.st.held.at && w.st.held.at[key].timer {
      var slot := w.st.held.at[key].(timer := false);
      assert NoWorse(w.st.held.at[key], slot) by { assert SlotsOk(w) by { GoodSlots(w); } NoWorseItself(w, key); }
      assert sent.Went? ==> map[key := sent][key].id !in w.before;
      if slot.stale && slot.watchers > 0 {
        DispatchingKeeps(w, key, query, slot, sent);
      } else {
        SettingKeeps(w, key, slot);
      }
    }
  }

  lemma GoodSlots(w: World)
    requires Good(w)
    ensures SlotsOk(w)
  {}

  lemma WithItself(w: World)
    requires Good(w)
    ensures WithState(w, w.st) == w
  {
    KeptSame(w, w.st);
  }

  lemma WatchedNoWorse(slot: Slot, watchers: nat)
    requires NoWorse(slot, slot)
    ensures NoWorse(slot, slot.(watchers := watchers))
  {}

  lemma WatchedIs(st: State, key: Key, change: int) returns (slot: Slot)
    ensures Watched(st, key, change) == st
            || (key in st.held.at && st.held.at[key].watchers + change >= 0
                && slot == st.held.at[key].(watchers := st.held.at[key].watchers + change)
                && Watched(st, key, change) == SetSlot(st, key, slot))
  {
    slot := NewSlot;
    if key in st.held.at && st.held.at[key].watchers + change >= 0 {
      slot := st.held.at[key].(watchers := st.held.at[key].watchers + change);
    }
  }

  lemma WatchKeeps(w: World, key: Key, change: int)
    requires Good(w)
    ensures Good(WithState(w, Watched(w.st, key, change)))
  {
    hide *;
    WithItself(w);
    GoodSlots(w);
    var slot := WatchedIs(w.st, key, change);
    if Watched(w.st, key, change) != w.st {
      NoWorseItself(w, key);
      WatchedNoWorse(w.st.held.at[key], slot.watchers);
      SettingKeeps(w, key, slot);
    }
  }

  lemma AskKeeps(w: World, query: Query, slot: Slot, sent: Sent)
    requires Good(w) && Minted(w, map[query.key := sent])
    requires slot == FoundSlot(w.st, query) || slot == Refreshed(FoundSlot(w.st, query))
    ensures Good(Dispatching(WithState(w, SlotFor(w.st, query)), query.key, query, slot, sent))
  {
    FoundSlotHeld(w, query);
    assert sent.Went? ==> map[query.key := sent][query.key].id !in w.before;
    DispatchingKeeps(WithState(w, SlotFor(w.st, query)), query.key, query, slot, sent);
  }

  lemma StepKeeps(w: World, e: Event)
    requires Good(w) && Fair(w, e)
    ensures Good(Step(w, e))
  {
    hide Good, Dispatching, WithState, Resuming, Truthful, Undisturbed, Minted;
    match e
    case Asks(query, sent) =>
      if FoundSlot(w.st, query).stale { AskKeeps(w, query, FoundSlot(w.st, query), sent); }
      else { FoundKeeps(w, query); }
    case Refreshes(query, sent) =>
      AskKeeps(w, query, Refreshed(FoundSlot(w.st, query)), sent);
    case Watches(key, change) =>
      WatchKeeps(w, key, change);
    case PaceOver(key, query, sent) =>
      PaceKeeps(w, key, query, sent);
    case PatienceOver(at) =>
      SweepKeeps(w, at);
    case Answers(id, asOf, outcome) =>
      AnswerKeeps(w, id, asOf, outcome);
    case Records(record) =>
      RecordKeeps(w, record);
    case Reconnects(sends) =>
      AllStaleKeeps(w);
      AllStaleMinted(w, sends);
      ResumingKeeps(WithState(w, AllStale(w.st)), sends);
    case Resumes(sends) =>
      ResumingKeeps(w, sends);
  }

  lemma AllStaleMinted(w: World, sends: map<Key, Sent>)
    requires Minted(w, sends)
    ensures Minted(WithState(w, AllStale(w.st)), sends)
  {}

  function RunOf(w: World, es: seq<Event>): World
    decreases es
  {
    if es == [] then w else RunOf(Step(w, es[0]), es[1..])
  }

  ghost predicate FairRun(w: World, es: seq<Event>)
    decreases es
  {
    es == [] || (Fair(w, es[0]) && FairRun(Step(w, es[0]), es[1..]))
  }

  lemma {:induction false} RunKeeps(w: World, es: seq<Event>)
    requires Good(w) && FairRun(w, es)
    ensures Good(RunOf(w, es))
    decreases es
  {
    if es != [] {
      StepKeeps(w, es[0]);
      RunKeeps(Step(w, es[0]), es[1..]);
    }
  }

  lemma BeginningGood()
    ensures Good(Beginning)
  {}

  /** In every fair run of asks, refreshes, records, answers, refusals, timeouts
      and reconnects, an answer that is neither stale nor awaited holds every
      record told that reaches it. */
  lemma FreshInEveryRun(es: seq<Event>)
    requires FairRun(Beginning, es)
    ensures Fresh(RunOf(Beginning, es))
  {
    BeginningGood();
    RunKeeps(Beginning, es);
    GoodIsFresh(RunOf(Beginning, es));
  }

  // ------------------------------------------------------------ and in no other

  /** What an answer leaves of the slot it lands on. */
  lemma LandsOn(w: World, id: AskId, asOf: nat, answer: Answer, key: Key)
    requires KeyAwaiting(w.st, id) == Some(key) && key in w.st.held.at
    ensures var was, v := w.st.held.at[key], Step(w, Answers(id, asOf, Landed(answer)));
            && v.heard == w.heard && key in v.st.held.at && v.st.parsed == w.st.parsed
            && v.st.held.at[key].asOf == Some(asOf)
            && v.st.held.at[key].inflight == (was.inflight && id !in w.st.pending.at)
            && v.st.held.at[key].stale == (was.stale && !Below(was.staleAt, asOf))
  {
    hide ReachOf, Reaches, Without;
  }

  /** Whenever what is true of a run so far holds, a truthful answer leaves every
      slot honest exactly when it is undisturbed: the mark a newer question reset,
      or a slot made again lost, is all the guard against an old answer has. */
  lemma LandsFreshIff(w: World, id: AskId, asOf: nat, answer: Answer)
    requires Good(w) && Truthful(w, id, asOf)
    ensures Fresh(Step(w, Answers(id, asOf, Landed(answer)))) <==> Undisturbed(w, id, asOf)
  {
    var e := Answers(id, asOf, Landed(answer));
    var key := KeyAwaiting(w.st, id);
    if Undisturbed(w, id, asOf) {
      AnswerKeeps(w, id, asOf, Landed(answer));
      GoodIsFresh(Step(w, e));
    } else {
      GoodParts(w);
      hide Good, Linked, Sound, Index, Queues, SlotsOk, Touches, Step, KeyAwaiting;
      var r :| ToldBetween(w, id, key.value, r) && r.position >= asOf;
      LandsOn(w, id, asOf, answer, key.value);
      BetweenWasHeard(w, id, key.value, r);
      TouchesBy(w.st, Step(w, e).st, key.value, r);
      assert !Reflects(Step(w, e).st.held.at[key.value], r);
    }
  }

  lemma BetweenWasHeard(w: World, id: AskId, key: Key, r: Record)
    requires Ids(w) && ToldBetween(w, id, key, r)
    ensures r in w.heard
  {}

  lemma TouchesBy(a: State, b: State, key: Key, r: Record)
    requires a.parsed == b.parsed
    ensures Touches(a, key, r) <==> Touches(b, key, r)
  {}

  ghost predicate HonestRun(w: World, es: seq<Event>)
    decreases es
  {
    es == [] || (Honest(w, es[0]) && HonestRun(Step(w, es[0]), es[1..]))
  }

  ghost predicate HarmlessRun(w: World, es: seq<Event>)
    decreases es
  {
    es == [] || (Harmless(w, es[0]) && HarmlessRun(Step(w, es[0]), es[1..]))
  }

  ghost predicate FreshThroughout(w: World, es: seq<Event>)
    decreases es
  {
    Fresh(w) && (es == [] || FreshThroughout(Step(w, es[0]), es[1..]))
  }

  lemma {:induction false} GoodRunIff(w: World, es: seq<Event>)
    requires Good(w) && HonestRun(w, es)
    ensures FreshThroughout(w, es) <==> HarmlessRun(w, es)
    decreases es
  {
    hide Good, Honest, Fresh, Step, Truthful, Undisturbed;
    GoodIsFresh(w);
    if es != [] {
      if Harmless(w, es[0]) {
        StepKeeps(w, es[0]);
        GoodRunIff(Step(w, es[0]), es[1..]);
      } else {
        HonestAnswer(w, es[0]);
        LandsFreshIff(w, es[0].id, es[0].asOf, es[0].outcome.answer);
        assert !Fresh(Step(w, es[0]));
        StartsFresh(Step(w, es[0]), es[1..]);
      }
    }
  }

  lemma HonestAnswer(w: World, e: Event)
    requires Honest(w, e) && e.Answers? && e.outcome.Landed?
    ensures Truthful(w, e.id, e.asOf) && e == Answers(e.id, e.asOf, Landed(e.outcome.answer))
  {}

  lemma StartsFresh(w: World, es: seq<Event>)
    ensures FreshThroughout(w, es) ==> Fresh(w)
  {}

  /** Over every run of an honest city and link from an empty cache: the cache never
      calls an answer fresh that a record told is not in, if and only if no answer
      lands past a record told between its question and its slot's last reset. */
  lemma FreshIffHarmless(es: seq<Event>)
    requires HonestRun(Beginning, es)
    ensures FreshThroughout(Beginning, es) <==> HarmlessRun(Beginning, es)
  {
    BeginningGood();
    GoodRunIff(Beginning, es);
  }
}
