/** Pending questions and awaited slots correspond one to one, in every run in which
    each question asked finds room for its slot. */
module AskingPairs {
  import opened OrderedMaps
  import opened Staleness
  import opened AskingModel
  import opened AskingIndex
  import opened AskingFresh

  /** Pending questions and awaited slots, one to one. */
  ghost predicate Paired(st: State) {
    && (forall id :: id in st.pending.at ==>
          st.pending.at[id].key in st.held.at && st.held.at[st.pending.at[id].key].inflight)
    && (forall i, j :: i in st.pending.at && j in st.pending.at && st.pending.at[i].key == st.pending.at[j].key ==> i == j)
    && (forall k :: k in st.held.at && st.held.at[k].inflight ==> Awaited(st, k))
  }

  ghost predicate Awaited(st: State, key: Key) {
    exists id :: id in st.pending.at && st.pending.at[id].key == key
  }

  // ------------------------------------------------------------ asking

  lemma FoundPaired(st: State, query: Query)
    requires Index(st) && Paired(st)
    ensures Paired(SlotFor(st, query))
  {
    FoundInflight(st, query);
    hide SlotFor, Index;
    PairedWhere(st, SlotFor(st, query));
  }

  /** The slots in flight are the same ones. */
  ghost predicate SameFlights(a: State, b: State) {
    && (forall k :: k in b.held.at && b.held.at[k].inflight ==> k in a.held.at && a.held.at[k].inflight)
    && (forall k :: k in a.held.at && a.held.at[k].inflight ==> k in b.held.at && b.held.at[k].inflight)
  }

  lemma PairedWhere(a: State, b: State)
    requires Paired(a) && b.pending == a.pending && SameFlights(a, b)
    ensures Paired(b)
  {
    forall k | k in b.held.at && b.held.at[k].inflight ensures Awaited(b, k) {
      assert Awaited(a, k);
    }
  }

  lemma FoundInflight(st: State, query: Query)
    requires Index(st)
    ensures SlotFor(st, query).pending == st.pending && SameFlights(st, SlotFor(st, query))
  {
    hide SlotFor, Index;
    SlotForKeeps(st, query);
    NewIsLoose(st, query);
  }

  lemma DispatchPairs(st: State, key: Key, query: Query, slot: Slot, sent: Sent)
    requires Paired(st) && key in st.held.at && slot.inflight == st.held.at[key].inflight
    requires sent.Went? ==> sent.id !in st.pending.at
    ensures Paired(Dispatch(st, key, query, slot, sent))
  {
    var out := Dispatch(st, key, query, slot, sent);
    if !slot.inflight && sent.Went? {
      assert out.pending.at == st.pending.at[sent.id := Asked(key, query, sent.at + PatienceOf(query))];
      forall k | k in out.held.at && out.held.at[k].inflight ensures Awaited(out, k) {
        if k == key {
          assert out.pending.at[sent.id].key == key;
        } else {
          assert Awaited(st, k);
          var id :| id in st.pending.at && st.pending.at[id].key == k;
          assert id in out.pending.at && out.pending.at[id].key == k;
        }
      }
    } else {
      assert out.pending == st.pending;
      forall k | k in out.held.at && out.held.at[k].inflight ensures Awaited(out, k) {
        assert Awaited(st, k);
      }
    }
  }

  // ------------------------------------------------------------ the clock and the answers

  predicate SameInflight(a: map<Key, Slot>, b: map<Key, Slot>, but: Option<Key>) {
    a.Keys == b.Keys && forall k :: k in a && but != Some(k) ==> a[k].inflight == b[k].inflight
  }

  /** The pairing goes on where one question, and its slot's wait, are gone. */
  lemma PairedLess(a: State, b: State, id: AskId)
    requires Paired(a) && b.pending.at == a.pending.at - {id}
    requires SameInflight(a.held.at, b.held.at, if id in a.pending.at then Some(a.pending.at[id].key) else None)
    requires id in a.pending.at ==> !b.held.at[a.pending.at[id].key].inflight
    ensures Paired(b)
  {
    forall k | k in b.held.at && b.held.at[k].inflight ensures Awaited(b, k) {
      assert a.held.at[k].inflight && Awaited(a, k);
      var i :| i in a.pending.at && a.pending.at[i].key == k;
      assert i in b.pending.at && b.pending.at[i].key == k;
    }
  }

  lemma SweepPairs(st: State, id: AskId, at: int)
    requires Queues(st) && Paired(st)
    ensures Paired(SweepOne(st, id, at))
  {
    hide Awaited, Bounded, Without;
    var out := SweepOne(st, id, at);
    if id in st.pending.at && st.pending.at[id].due <= at {
      PairedLess(st, out, id);
    }
  }

  lemma {:induction false} SweepAllPairs(st: State, ids: seq<AskId>, at: int)
    requires Queues(st) && Paired(st)
    ensures Paired(SweepAll(st, ids, at))
    decreases ids
  {
    hide Paired;
    if ids != [] {
      SweepOneKeeps(st, ids[0], at);
      SweepPairs(st, ids[0], at);
      SweepAllPairs(SweepOne(st, ids[0], at), ids[1..], at);
    }
  }

  lemma PairedCarries(a: State, b: State)
    requires Paired(a) && b.pending == a.pending && SameInflight(a.held.at, b.held.at, None)
    ensures Paired(b)
  {
    forall k | k in b.held.at && b.held.at[k].inflight ensures Awaited(b, k) {
      assert Awaited(a, k);
    }
  }

  lemma OutcomeInflight(slot: Slot, asOf: nat, answer: Answer, awaited: bool, known: bool)
    ensures Settled(slot, asOf, answer, awaited, known).inflight == (slot.inflight && !awaited)
  {}

  lemma AnsweredPairs(st: State, id: AskId, asOf: nat, outcome: Outcome)
    requires Queues(st) && Paired(st)
    ensures Paired(Answered(st, id, asOf, outcome))
  {
    hide Awaited, Settled, Without;
    var out, key := Answered(st, id, asOf, outcome), KeyAwaiting(st, id);
    if outcome.Landed? && key.Some? && key.value in st.held.at {
      OutcomeInflight(st.held.at[key.value], asOf, outcome.answer, id in st.pending.at, key.value in st.parsed);
    }
    PairedLess(st, out, id);
  }

  lemma SweptPairs(st: State, at: int)
    requires Queues(st) && Paired(st)
    ensures Paired(Sweep(st, at))
  {
    hide Paired;
    var from := st.(patience := None);
    PairedCarries(st, from);
    SweepAllPairs(from, st.pending.keys, at);
    PairedCarries(SweepAll(from, st.pending.keys, at), Sweep(st, at));
  }

  // ------------------------------------------------------------ the reconnects

  /** The slots of `keys` as `resumed` first makes them: nothing awaited. */
  function RevivedIn(w: World, keys: seq<Key>): World {
    w.(st := w.st.(held := OMap(w.st.held.keys, RevivedMap(w.st.held.at, keys))))
  }

  lemma QueuedAside(st: State, held: OMap<Key, Slot>, key: Key, query: Query, slot: Slot, sent: Sent)
    ensures Queued(st.(held := held), key, query, slot, sent) == Queued(st, key, query, slot, sent).(held := held)
  {}

  function RevivedMap(at: map<Key, Slot>, keys: seq<Key>): map<Key, Slot> {
    map k | k in at :: if k in keys then Revived(at[k]) else at[k]
  }

  lemma RevivedMapStep(at: map<Key, Slot>, keys: seq<Key>, slot: Slot)
    requires keys != [] && Distinct(keys)
    ensures keys[0] in at ==> RevivedMap(at, keys)[keys[0] := slot] == RevivedMap(at[keys[0] := slot], keys[1..])
    ensures keys[0] !in at ==> RevivedMap(at, keys) == RevivedMap(at, keys[1..])
  {
    assert forall k :: k in keys <==> k == keys[0] || k in keys[1..];
  }

  lemma ReviveFirst(w: World, keys: seq<Key>, sent: Sent)
    requires keys != [] && Distinct(keys)
    ensures Reviving(RevivedIn(w, keys), keys[0], sent) == RevivedIn(Reviving(w, keys[0], sent), keys[1..])
  {
    hide Queued;
    var key, rest := keys[0], keys[1..];
    if key in w.st.held.at {
      var slot := Revived(w.st.held.at[key]);
      assert Revived(slot) == slot && RevivedIn(w, keys).st.held.at[key] == slot;
      RevivedMapStep(w.st.held.at, keys, slot);
      RevivedMapStep(w.st.held.at, keys, Sending(slot, sent));
      if slot.stale && key in w.st.parsed && slot.watchers > 0 {
        QueuedAside(w.st, RevivedIn(w, keys).st.held, key, w.st.parsed[key], slot, sent);
        QueuedHeld(w.st, key, w.st.parsed[key], slot, sent);
      } else {
        assert Kept(RevivedIn(w, keys), SetSlot(RevivedIn(w, keys).st, key, slot)) == Kept(w, SetSlot(w.st, key, slot));
      }
    } else {
      RevivedMapStep(w.st.held.at, keys, NewSlot);
    }
  }

  lemma QueuedHeld(st: State, key: Key, query: Query, slot: Slot, sent: Sent)
    ensures Queued(st, key, query, slot, sent).held == st.held
  {}

  /** Reviving a slot as its turn comes is reviving them all before any is asked. */
  lemma {:induction false} ReviveAllFirst(w: World, keys: seq<Key>, sends: map<Key, Sent>)
    requires Distinct(keys)
    ensures RevivingAll(RevivedIn(w, keys), keys, sends) == RevivingAll(w, keys, sends)
    decreases keys
  {
    if keys == [] {
      assert RevivedIn(w, keys).st.held.at == w.st.held.at;
    } else {
      var sent := SentFor(sends, keys[0]);
      ReviveFirst(w, keys, sent);
      ReviveAllFirst(Reviving(w, keys[0], sent), keys[1..], sends);
    }
  }

  lemma RevivingPairs(w: World, key: Key, sent: Sent)
    requires Paired(w.st) && (key in w.st.held.at ==> !w.st.held.at[key].inflight)
    requires sent.Went? ==> sent.id !in w.st.pending.at
    ensures Paired(Reviving(w, key, sent).st)
  {
    hide Paired;
    if key in w.st.held.at {
      var slot := Revived(w.st.held.at[key]);
      if slot.stale && key in w.st.parsed && slot.watchers > 0 {
        DispatchPairs(w.st, key, w.st.parsed[key], slot, sent);
      } else {
        PairedCarries(w.st, SetSlot(w.st, key, slot));
      }
    }
  }

  lemma RevivingElsewhere(w: World, key: Key, sent: Sent, k: Key)
    requires k != key
    ensures k in Reviving(w, key, sent).st.held.at <==> k in w.st.held.at
    ensures k in w.st.held.at ==> Reviving(w, key, sent).st.held.at[k] == w.st.held.at[k]
  {}

  lemma RevivingQueues(w: World, key: Key, sent: Sent)
    ensures forall id :: id in Reviving(w, key, sent).st.pending.at ==>
              id in w.st.pending.at || (sent.Went? && id == sent.id)
  {}

  lemma {:induction false} RevivingAllPairs(w: World, keys: seq<Key>, sends: map<Key, Sent>)
    requires Paired(w.st) && Distinct(keys) && OnceEach(sends)
    requires forall k :: k in keys && k in w.st.held.at ==> !w.st.held.at[k].inflight
    requires forall k :: k in keys && k in sends && sends[k].Went? ==> sends[k].id !in w.st.pending.at
    ensures Paired(RevivingAll(w, keys, sends).st)
    decreases keys
  {
    hide Reviving, Paired;
    if keys != [] {
      var key, rest, sent := keys[0], keys[1..], SentFor(sends, keys[0]);
      assert key in keys;
      RevivingPairs(w, key, sent);
      RevivingQueues(w, key, sent);
      var v := Reviving(w, key, sent);
      forall k | k in rest
        ensures k in v.st.held.at ==> !v.st.held.at[k].inflight
        ensures k in sends && sends[k].Went? ==> sends[k].id !in v.st.pending.at
      {
        assert k in keys && k != key;
        RevivingElsewhere(w, key, sent, k);
      }
      RevivingAllPairs(v, rest, sends);
    }
  }

  /** No two questions go out under one id. */
  ghost predicate OnceEach(sends: map<Key, Sent>) {
    forall j, k :: j in sends && k in sends && j != k && sends[j].Went? && sends[k].Went? ==>
      sends[j].id != sends[k].id
  }

  lemma ResumedPairs(st: State, sends: map<Key, Sent>)
    requires Sound(st) && OnceEach(sends)
    ensures Paired(Resumed(st, sends))
  {
    var from := World(st.(pending := Empty(), late := Empty(), patience := None), {}, map[], map[]);
    var revived := RevivedIn(from, st.held.keys);
    SoundKeys(st);
    RevivingIsResuming(from, st.held.keys, sends);
    ReviveAllFirst(from, st.held.keys, sends);
    assert Paired(revived.st);
    RevivingAllPairs(revived, st.held.keys, sends);
  }

  lemma SoundKeys(st: State)
    requires Sound(st)
    ensures Distinct(st.held.keys) && forall k :: k in st.held.at ==> k in st.held.keys
  {}

  // ------------------------------------------------------------ exactly the runs with room

  predicate Unused(st: State, sent: Sent) {
    sent.Went? ==> sent.id !in st.pending.at
  }

  /** Questions go out under ids no question awaited has. */
  ghost predicate Minting(st: State, e: Event) {
    match e
    case Asks(_, sent) => Unused(st, sent)
    case Refreshes(_, sent) => Unused(st, sent)
    case PaceOver(_, _, sent) => Unused(st, sent)
    case Reconnects(sends) => OnceEach(sends)
    case Resumes(sends) => OnceEach(sends)
    case _ => true
  }

  /** A question that goes out finds its slot, or room for one. */
  ghost predicate Roomy(st: State, e: Event) {
    match e
    case Asks(query, sent) => sent.Went? ==> Room(st, query.key)
    case Refreshes(query, sent) => sent.Went? ==> Room(st, query.key)
    case _ => true
  }

  lemma AskPairsIff(st: State, query: Query, slot: Slot, sent: Sent)
    requires Sound(st) && Paired(st) && Unused(st, sent)
    requires slot.inflight == FoundSlot(st, query).inflight
    ensures Paired(Dispatch(SlotFor(st, query), query.key, query, slot, sent)) <==> (sent.Went? ==> Room(st, query.key))
  {
    var found := SlotFor(st, query);
    FoundPaired(st, query);
    SlotKeptIffRoom(st, query);
    SlotForKeeps(st, query);
    hide Paired, Sound, SlotFor, Dispatch, Room;
    if query.key in found.held.at {
      DispatchPairs(found, query.key, query, slot, sent);
    } else {
      NoRoomIsNew(st, query);
      DroppedPairs(found, query.key, query, slot, sent);
    }
  }

  lemma NoRoomIsNew(st: State, query: Query)
    requires !Room(st, query.key)
    ensures !FoundSlot(st, query).inflight
  {}

  /** A question sent for a slot already dropped is paired with none. */
  lemma DroppedPairs(st: State, key: Key, query: Query, slot: Slot, sent: Sent)
    requires Paired(st) && key !in st.held.at && !slot.inflight
    ensures Paired(Dispatch(st, key, query, slot, sent)) <==> sent.Offline?
  {
    if sent.Went? { assert Dispatch(st, key, query, slot, sent).pending.at[sent.id].key == key; }
  }

  lemma PacePairs(st: State, key: Key, query: Query, sent: Sent)
    requires Paired(st) && Unused(st, sent)
    ensures Paired(TimerFires(st, key, query, sent))
  {
    hide Paired, Dispatch;
    if key in st.held.at && st.held.at[key].timer {
      var slot := st.held.at[key].(timer := false);
      if slot.stale && slot.watchers > 0 {
        DispatchPairs(st, key, query, slot, sent);
      } else {
        PairedCarries(st, SetSlot(st, key, slot));
      }
    }
  }

  lemma ReconnectedPairs(st: State, sends: map<Key, Sent>)
    requires Sound(st) && OnceEach(sends)
    ensures Paired(Reconnected(st, sends))
  {
    AllStaleSound(st);
    hide Sound;
    ResumedPairs(AllStale(st), sends);
  }

  lemma InvalidatedPairs(st: State, record: Record)
    requires Paired(st)
    ensures Paired(Invalidate(st, record))
  {
    hide IndexReaches, Paired;
    PairedCarries(st, Invalidate(st, record));
  }

  lemma FreshSlotHasRoom(st: State, query: Query)
    requires !FoundSlot(st, query).stale
    ensures Room(st, query.key)
  {}

  lemma AsksPairsIff(st: State, query: Query, sent: Sent)
    requires Sound(st) && Paired(st) && Unused(st, sent)
    ensures Paired(Ask(st, query, sent)) <==> (sent.Went? ==> Room(st, query.key))
  {
    assert Index(st);
    hide Paired, Sound, Room, Unused, SlotFor, Dispatch, FoundSlot, Index;
    if FoundSlot(st, query).stale {
      AskPairsIff(st, query, FoundSlot(st, query), sent);
    } else {
      FoundPaired(st, query);
      FreshSlotHasRoom(st, query);
    }
  }

  lemma RefreshPairsIff(st: State, query: Query, sent: Sent)
    requires Sound(st) && Paired(st) && Unused(st, sent)
    ensures Paired(Refresh(st, query, sent)) <==> (sent.Went? ==> Room(st, query.key))
  {
    hide Paired, Sound, Room, Unused, SlotFor, Dispatch, FoundSlot;
    AskPairsIff(st, query, Refreshed(FoundSlot(st, query)), sent);
  }

  lemma WatchedPairs(st: State, key: Key, change: int)
    requires Paired(st)
    ensures Paired(Watched(st, key, change))
  {
    hide Paired;
    PairedCarries(st, Watched(st, key, change));
  }

  /** Each step keeps the pairing exactly when it is roomy. */
  lemma NextPairsIff(st: State, e: Event)
    requires Sound(st) && Paired(st) && Minting(st, e)
    ensures Paired(Next(st, e)) <==> Roomy(st, e)
  {
    assert Index(st) && Queues(st);
    hide Paired, Sound, Room, OnceEach, Unused, Ask, Refresh, Watched, Sweep, Answered, Invalidate, Resumed, Reconnected,
         TimerFires, Index, Queues;
    match e
    case Asks(query, sent) =>
      AsksPairsIff(st, query, sent);
    case Refreshes(query, sent) =>
      RefreshPairsIff(st, query, sent);
    case Watches(key, change) =>
      WatchedPairs(st, key, change);
    case PaceOver(key, query, sent) =>
      PacePairs(st, key, query, sent);
    case PatienceOver(at) =>
      SweptPairs(st, at);
    case Answers(id, asOf, outcome) =>
      AnsweredPairs(st, id, asOf, outcome);
    case Records(record) =>
      InvalidatedPairs(st, record);
    case Reconnects(sends) =>
      ReconnectedPairs(st, sends);
    case Resumes(sends) =>
      ResumedPairs(st, sends);
  }

  ghost predicate MintingRun(st: State, es: seq<Event>)
    decreases es
  {
    es == [] || (Minting(st, es[0]) && MintingRun(Next(st, es[0]), es[1..]))
  }

  ghost predicate RoomyRun(st: State, es: seq<Event>)
    decreases es
  {
    es == [] || (Roomy(st, es[0]) && RoomyRun(Next(st, es[0]), es[1..]))
  }

  ghost predicate PairedThroughout(st: State, es: seq<Event>)
    decreases es
  {
    Paired(st) && (es == [] || PairedThroughout(Next(st, es[0]), es[1..]))
  }

  lemma {:induction false} RunPairsIff(st: State, es: seq<Event>)
    requires Sound(st) && Paired(st) && MintingRun(st, es)
    ensures PairedThroughout(st, es) <==> RoomyRun(st, es)
    decreases es
  {
    if es != [] {
      hide Sound, Paired, Minting, Roomy, Next;
      NextPairsIff(st, es[0]);
      if Roomy(st, es[0]) {
        NextKeeps(st, es[0]);
        RunPairsIff(Next(st, es[0]), es[1..]);
      }
    }
  }

  /** Over every run from an empty cache whose ids are minted once, whatever is answered:
      the questions pending and the slots awaiting one correspond one to one all the way
      exactly when every question that goes out finds its slot or room for one. */
  lemma PairedIffRoomy(es: seq<Event>)
    requires MintingRun(Initial, es)
    ensures PairedThroughout(Initial, es) <==> RoomyRun(Initial, es)
  {
    InitialSound();
    RunPairsIff(Initial, es);
  }
}
