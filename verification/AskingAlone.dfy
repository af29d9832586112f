/** A condition on a run that the page itself can see, under which the answer cache
    is fresh throughout: no slot is asked, or made again, while an earlier question of
    its own is unanswered. */
module AskingAlone {
  import opened OrderedMaps
  import opened Staleness
  import opened AskingModel
  import opened AskingIndex
  import opened AskingFresh

  /** A question of the slot is out, awaited or late. */
  ghost predicate OutFor(st: State, key: Key) {
    exists id :: KeyAwaiting(st, id) == Some(key)
  }

  /** The step makes a slot, or sends a question for it and so resets its mark. */
  predicate Renews(st: State, key: Key, asks: bool, sent: Sent) {
    key !in st.held.at || (asks && !st.held.at[key].inflight && sent.Went?)
  }

  predicate Paces(st: State, key: Key) {
    key in st.held.at && st.held.at[key].timer && st.held.at[key].stale && st.held.at[key].watchers > 0
  }

  /** No slot is renewed while one of its questions is out. */
  ghost predicate Alone(st: State, e: Event) {
    match e
    case Asks(query, sent) =>
      Renews(st, query.key, FoundSlot(st, query).stale, sent) ==> !OutFor(st, query.key)
    case Refreshes(query, sent) =>
      Renews(st, query.key, true, sent) ==> !OutFor(st, query.key)
    case PaceOver(key, _, sent) =>
      Paces(st, key) && Renews(st, key, true, sent) ==> !OutFor(st, key)
    case _ => true
  }

  ghost predicate AloneRun(w: World, es: seq<Event>)
    decreases es
  {
    es == [] || (Alone(w.st, es[0]) && AloneRun(Step(w, es[0]), es[1..]))
  }

  /** Nothing was forgotten of a slot since its questions out were sent. */
  ghost predicate Remembered(w: World) {
    forall id :: KeyAwaiting(w.st, id).Some? ==> Remembers(w, id, KeyAwaiting(w.st, id).value)
  }

  ghost predicate Remembers(w: World, id: AskId, key: Key) {
    id in w.before && (key in w.reset ==> w.reset[key] <= w.before[id])
  }

  /** So no landing answer is disturbed. */
  lemma RememberedIsHarmless(w: World, e: Event)
    requires Remembered(w)
    ensures Harmless(w, e)
  {
    hide Touches, KeyAwaiting;
    if e.Answers? && KeyAwaiting(w.st, e.id).Some? {
      assert Remembers(w, e.id, KeyAwaiting(w.st, e.id).value);
    }
  }

  // ------------------------------------------------------------ what every step keeps

  /** The questions out in one state are those of another, or some of them. */
  ghost predicate Within(a: State, b: State) {
    forall id :: KeyAwaiting(b, id).Some? ==> KeyAwaiting(a, id) == KeyAwaiting(b, id)
  }

  /** Slots with a question out are the same ones, no later reset. */
  lemma RememberedCarries(w: World, v: World)
    requires Remembered(w) && Within(w.st, v.st)
    requires forall id :: id in w.before ==> id in v.before && v.before[id] == w.before[id]
    requires forall k :: k in v.reset && OutFor(w.st, k) ==> k in w.reset && v.reset[k] == w.reset[k]
    ensures Remembered(v)
  {
    hide KeyAwaiting;
    forall id | KeyAwaiting(v.st, id).Some? ensures Remembers(v, id, KeyAwaiting(v.st, id).value) {
      assert Remembers(w, id, KeyAwaiting(w.st, id).value);
      assert OutFor(w.st, KeyAwaiting(w.st, id).value);
    }
  }

  lemma SameQueues(a: State, b: State)
    requires b.pending.at == a.pending.at && b.late.at == a.late.at
    ensures Within(a, b) && forall k :: OutFor(b, k) <==> OutFor(a, k)
  {
    assert forall id :: KeyAwaiting(b, id) == KeyAwaiting(a, id);
  }

  lemma FoundRemembers(w: World, query: Query)
    requires Good(w) && Remembered(w)
    requires query.key !in w.st.held.at ==> !OutFor(w.st, query.key)
    ensures Remembered(WithState(w, SlotFor(w.st, query)))
  {
    hide Good, Sound, Linked, Index, Queues, SlotsOk, SlotFor, OutFor, Remembered, Within, KeyAwaiting;
    GoodParts(w);
    SlotForKeeps(w.st, query);
    var st := SlotFor(w.st, query);
    SameQueues(w.st, st);
    RememberedCarries(w, WithState(w, st));
  }

  /** A question just sent had everything told before it. */
  lemma DispatchingRemembers(w: World, key: Key, query: Query, slot: Slot, sent: Sent)
    requires Remembered(w) && Ids(w)
    requires sent.Went? ==> sent.id !in w.before
    requires slot.inflight || sent.Offline? || !OutFor(w.st, key)
    ensures Remembered(Dispatching(w, key, query, slot, sent))
  {
    var v := Dispatching(w, key, query, slot, sent);
    DispatchQueue(w.st, key, query, slot, sent);
    DispatchAwaits(w.st, key, query, slot, sent);
    hide Dispatch, OutFor, KeyAwaiting;
    forall id | KeyAwaiting(v.st, id).Some? ensures Remembers(v, id, KeyAwaiting(v.st, id).value) {
      if slot.inflight || sent.Offline? || id != sent.id {
        var k := KeyAwaiting(w.st, id).value;
        assert Remembers(w, id, k) && OutFor(w.st, k) by { IsOut(w.st, id, k); }
      }
    }
  }

  lemma IsOut(st: State, id: AskId, key: Key)
    requires KeyAwaiting(st, id) == Some(key)
    ensures OutFor(st, key)
  {}

  lemma DispatchAwaits(st: State, key: Key, query: Query, slot: Slot, sent: Sent)
    ensures var out := Dispatch(st, key, query, slot, sent);
            forall id :: KeyAwaiting(out, id) ==
              if !slot.inflight && sent.Went? && id == sent.id then Some(key) else KeyAwaiting(st, id)
  {
    DispatchQueue(st, key, query, slot, sent);
    hide Dispatch;
  }

  lemma AskRemembers(w: World, query: Query, slot: Slot, sent: Sent)
    requires Good(w) && Remembered(w) && Minted(w, map[query.key := sent])
    requires Renews(w.st, query.key, true, sent) ==> !OutFor(w.st, query.key)
    requires slot.inflight == FoundSlot(w.st, query).inflight
    ensures Remembered(Dispatching(WithState(w, SlotFor(w.st, query)), query.key, query, slot, sent))
  {
    var found := WithState(w, SlotFor(w.st, query));
    FoundRemembers(w, query);
    FoundKeeps(w, query);
    GoodParts(found);
    GoodParts(w);
    SlotForKeeps(w.st, query);
    SameQueues(w.st, found.st);
    assert sent.Went? ==> map[query.key := sent][query.key].id !in w.before;
    hide Good, Ids, Remembered, SlotFor, OutFor, Within;
    DispatchingRemembers(found, query.key, query, slot, sent);
  }

  lemma SettingRemembers(w: World, st: State)
    requires Ids(w) && Remembered(w) && st.held.at.Keys == w.st.held.at.Keys && Within(w.st, st)
    ensures Remembered(WithState(w, st))
  {
    KeptSame(w, st);
    hide Remembered, Within, OutFor;
    RememberedCarries(w, WithState(w, st));
  }

  lemma PaceRemembers(w: World, key: Key, query: Query, sent: Sent)
    requires Good(w) && Remembered(w) && Honest(w, PaceOver(key, query, sent)) && Alone(w.st, PaceOver(key, query, sent))
    ensures Remembered(Step(w, PaceOver(key, query, sent)))
  {
    GoodParts(w);
    hide Good, Remembered, Ids, OutFor, Within;
    if key in w.st.held.at && w.st.held.at[key].timer {
      var slot := w.st.held.at[key].(timer := false);
      assert sent.Went? ==> map[key := sent][key].id !in w.before;
      if slot.stale && slot.watchers > 0 {
        DispatchingRemembers(w, key, query, slot, sent);
      } else {
        SameQueues(w.st, SetSlot(w.st, key, slot));
        SettingRemembers(w, SetSlot(w.st, key, slot));
      }
    }
  }

  // ------------------------------------------------------------ giving up on questions

  lemma SweepOneQueues(st: State, id: AskId, at: int)
    requires id in st.pending.at && st.pending.at[id].due <= at
    ensures var out := SweepOne(st, id, at);
            out.pending.at == st.pending.at - {id} && out.late == Bounded(st.late.Put(id, st.pending.at[id].key))
  {
    hide Bounded, Expired, Without;
  }

  lemma SweepOneWithin(st: State, id: AskId, at: int)
    requires Queues(st)
    ensures Within(st, SweepOne(st, id, at))
  {
    if id in st.pending.at && st.pending.at[id].due <= at {
      var key := st.pending.at[id].key;
      var put := st.late.Put(id, key);
      SweepOneQueues(st, id, at);
      PutValid(st.late, id, key);
      BoundedKeeps(put);
      assert put.at == st.late.at[id := key];
      hide Bounded, SweepOne, Without;
    }
  }

  lemma {:induction false} SweepAllWithin(st: State, ids: seq<AskId>, at: int)
    requires Queues(st)
    ensures Within(st, SweepAll(st, ids, at)) && SweepAll(st, ids, at).held.at.Keys == st.held.at.Keys
    decreases ids
  {
    if ids != [] {
      SweepOneKeeps(st, ids[0], at);
      SweepOneWithin(st, ids[0], at);
      SweepAllWithin(SweepOne(st, ids[0], at), ids[1..], at);
    }
  }

  lemma SweptWithin(st: State, at: int)
    requires Queues(st)
    ensures Within(st, Sweep(st, at)) && Sweep(st, at).held.at.Keys == st.held.at.Keys
  {
    var from := st.(patience := None);
    SweepAllWithin(from, st.pending.keys, at);
    var swept := SweepAll(from, st.pending.keys, at);
    hide SweepAll;
    assert forall id :: KeyAwaiting(Sweep(st, at), id) == KeyAwaiting(swept, id);
    assert forall id :: KeyAwaiting(from, id) == KeyAwaiting(st, id);
  }

  lemma SweepRemembers(w: World, at: int)
    requires Good(w) && Remembered(w)
    ensures Remembered(WithState(w, Sweep(w.st, at)))
  {
    GoodParts(w);
    hide Good, Remembered, Sweep;
    SweptWithin(w.st, at);
    SettingRemembers(w, Sweep(w.st, at));
  }

  // ------------------------------------------------------------ the reconnects

  lemma RevivingRemembers(w: World, key: Key, sent: Sent)
    requires Remembered(w) && Ids(w) && (sent.Went? ==> sent.id !in w.before) && !OutFor(w.st, key)
    ensures Remembered(Reviving(w, key, sent))
    ensures forall k :: k != key && !OutFor(w.st, k) ==> !OutFor(Reviving(w, key, sent).st, k)
  {
    hide Remembered, Ids, OutFor, Within, Dispatch;
    if key in w.st.held.at {
      var slot := Revived(w.st.held.at[key]);
      if slot.stale && key in w.st.parsed && slot.watchers > 0 {
        DispatchingRemembers(w, key, w.st.parsed[key], slot, sent);
        DispatchOuts(w.st, key, w.st.parsed[key], slot, sent);
      } else {
        SameQueues(w.st, SetSlot(w.st, key, slot));
        SettingRemembers(w, SetSlot(w.st, key, slot));
      }
    }
  }

  lemma DispatchOuts(st: State, key: Key, query: Query, slot: Slot, sent: Sent)
    ensures forall k :: k != key && !OutFor(st, k) ==> !OutFor(Dispatch(st, key, query, slot, sent), k)
  {
    DispatchAwaits(st, key, query, slot, sent);
    hide Dispatch, KeyAwaiting;
  }

  lemma {:induction false} RevivingAllRemembers(w: World, keys: seq<Key>, sends: map<Key, Sent>)
    requires Good(w) && Remembered(w) && Distinct(keys)
    requires forall k :: k in keys ==> !OutFor(w.st, k)
    requires forall k :: k in keys && k in sends && sends[k].Went? ==> sends[k].id !in w.before
    requires forall j, k :: j in sends && k in sends && j != k && sends[j].Went? && sends[k].Went? ==>
               sends[j].id != sends[k].id
    ensures Remembered(RevivingAll(w, keys, sends))
    decreases keys
  {
    GoodParts(w);
    hide Good, Remembered, Reviving, OutFor, Ids;
    if keys != [] {
      var key, rest, sent := keys[0], keys[1..], SentFor(sends, keys[0]);
      assert key in keys;
      RevivingKeeps(w, key, sent);
      RevivingRemembers(w, key, sent);
      RevivingBefore(w, key, sent);
      var v := Reviving(w, key, sent);
      forall k | k in rest
        ensures !OutFor(v.st, k)
        ensures k in sends && sends[k].Went? ==> sends[k].id !in v.before
      {
        assert k in keys && k != key;
      }
      RevivingAllRemembers(v, rest, sends);
    }
  }

  lemma ResumingRemembers(w: World, sends: map<Key, Sent>)
    requires Good(w) && Minted(w, sends)
    ensures Remembered(Resuming(w, sends))
  {
    var from := WithState(w, w.st.(pending := Empty(), late := Empty(), patience := None));
    ClearedKeeps(w);
    assert Distinct(w.st.held.keys);
    NoneOut(from);
    hide Good, Remembered, OutFor;
    RevivingAllRemembers(from, w.st.held.keys, sends);
  }

  lemma NoneOut(w: World)
    requires w.st.pending == Empty() && w.st.late == Empty()
    ensures Remembered(w) && forall k :: !OutFor(w.st, k)
  {}

  // ------------------------------------------------------------ every step

  lemma AnsweredWithin(st: State, id: AskId, asOf: nat, outcome: Outcome)
    requires Queues(st)
    ensures Answered(st, id, asOf, outcome).held.at.Keys == st.held.at.Keys
    ensures Within(st, Answered(st, id, asOf, outcome))
  {
    hide Settled;
  }

  lemma RecordRemembers(w: World, record: Record)
    requires Ids(w) && Remembered(w)
    ensures Remembered(Step(w, Records(record)))
  {
    InvalidateSame(w.st, record);
    SameQueues(w.st, Invalidate(w.st, record));
    hide Remembered, OutFor, Within, Invalidate;
    KeptSame(w, Invalidate(w.st, record));
    RememberedCarries(w, Step(w, Records(record)));
  }

  lemma AnswerRemembers(w: World, id: AskId, asOf: nat, outcome: Outcome)
    requires Good(w) && Remembered(w)
    ensures Remembered(WithState(w, Answered(w.st, id, asOf, outcome)))
  {
    GoodParts(w);
    hide Good, Remembered, Within, Answered;
    AnsweredWithin(w.st, id, asOf, outcome);
    SettingRemembers(w, Answered(w.st, id, asOf, outcome));
  }

  lemma WatchRemembers(w: World, key: Key, change: int)
    requires Good(w) && Remembered(w)
    ensures Remembered(WithState(w, Watched(w.st, key, change)))
  {
    GoodParts(w);
    hide Good, Remembered, Within;
    SameQueues(w.st, Watched(w.st, key, change));
    SettingRemembers(w, Watched(w.st, key, change));
  }

  lemma ReconnectRemembers(w: World, sends: map<Key, Sent>)
    requires Good(w) && Minted(w, sends)
    ensures Remembered(Resuming(WithState(w, AllStale(w.st)), sends))
  {
    AllStaleKeeps(w);
    AllStaleMinted(w, sends);
    hide Good, Remembered;
    ResumingRemembers(WithState(w, AllStale(w.st)), sends);
  }

  lemma StepRemembers(w: World, e: Event)
    requires Good(w) && Remembered(w) && Honest(w, e) && Alone(w.st, e)
    ensures Remembered(Step(w, e))
  {
    hide Good, Remembered, Dispatching, WithState, Resuming, Truthful, Minted, OutFor, SlotFor;
    match e
    case Asks(query, sent) =>
      if FoundSlot(w.st, query).stale { AskRemembers(w, query, FoundSlot(w.st, query), sent); }
      else { FoundRemembers(w, query); }
    case Refreshes(query, sent) =>
      AskRemembers(w, query, Refreshed(FoundSlot(w.st, query)), sent);
    case Watches(key, change) =>
      WatchRemembers(w, key, change);
    case PaceOver(key, query, sent) =>
      PaceRemembers(w, key, query, sent);
    case PatienceOver(at) =>
      SweepRemembers(w, at);
    case Answers(id, asOf, outcome) =>
      AnswerRemembers(w, id, asOf, outcome);
    case Records(record) =>
      RecordRemembers(w, record) by { GoodParts(w); }
    case Reconnects(sends) =>
      ReconnectRemembers(w, sends);
    case Resumes(sends) =>
      ResumingRemembers(w, sends);
  }

  lemma {:induction false} AloneIsHarmless(w: World, es: seq<Event>)
    requires Good(w) && Remembered(w) && HonestRun(w, es) && AloneRun(w, es)
    ensures HarmlessRun(w, es)
    decreases es
  {
    if es != [] {
      hide Good, Remembered, Honest, Alone, Step, Harmless;
      RememberedIsHarmless(w, es[0]);
      assert Fair(w, es[0]);
      StepKeeps(w, es[0]);
      StepRemembers(w, es[0]);
      AloneIsHarmless(Step(w, es[0]), es[1..]);
    }
  }

  /** Over every run of an honest city and link in which no slot is asked, or made
      again, while an earlier question of its own is unanswered: no answer is ever
      called fresh that a record told is not in. */
  lemma AloneIsFresh(es: seq<Event>)
    requires HonestRun(Beginning, es) && AloneRun(Beginning, es)
    ensures FreshThroughout(Beginning, es)
  {
    BeginningGood();
    NoneOut(Beginning);
    AloneIsHarmless(Beginning, es);
    FreshIffHarmless(es);
  }
}
