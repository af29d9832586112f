/** `createAsking` of `client/src/core/asking.ts` in its own form: slots updated in
    place and shared with their watchers and timers, maps updated by every call.
    Each method is proved to take the step `AskingModel` gives it; `send`, the
    clock and the timers are the environment and arrive as arguments. */
module Asking {
  import opened OrderedMaps
  import opened Staleness
  import M = AskingModel

  /** One held answer, as every closure over it sees it. */
  class Held {
    var value: Option<M.Answer>
    var reported: bool
    var stale: bool
    var staleAt: M.Mark
    var asOf: Option<nat>
    var inflight: bool
    var watchers: nat
    var timer: bool

    constructor ()
      ensures View() == M.NewSlot
    {
      value, reported, stale, staleAt := None, false, true, M.At(-1);
      asOf, inflight, watchers, timer := None, false, 0, false;
    }

    function View(): M.Slot
      reads this
    {
      M.Slot(value, reported, stale, staleAt, asOf, inflight, watchers, timer)
    }
  }

  predicate Goes(slot: M.Slot, sent: M.Sent) { !slot.inflight && sent.Went? }

  /** The queue once a question went out, and the timer with it. */
  function Awaiting(pending: OMap<M.AskId, M.Asked>, key: M.Key, query: M.Query, slot: M.Slot, sent: M.Sent)
    : OMap<M.AskId, M.Asked>
  {
    if Goes(slot, sent) then pending.Put(sent.id, M.Asked(key, query, sent.at + M.PatienceOf(query))) else pending
  }

  /** A dispatch, field by field. */
  lemma DispatchParts(st: M.State, key: M.Key, query: M.Query, slot: M.Slot, sent: M.Sent)
    ensures var end := M.Dispatch(st, key, query, slot, sent);
            var pending := Awaiting(st.pending, key, query, slot, sent);
            && end.held.keys == st.held.keys
            && end.held.at == (if key in st.held.at then st.held.at[key := M.Sending(slot, sent)] else st.held.at)
            && end.pending == pending
            && end.patience == (if Goes(slot, sent) then M.Rearmed(pending, st.patience) else st.patience)
            && end.late == st.late && end.parsed == st.parsed && end.byName == st.byName && end.reports == st.reports
  {}

  /** An answer nobody held waits for. */
  lemma AnsweredNowhere(st: M.State, id: M.AskId, asOf: nat, outcome: M.Outcome)
    requires M.KeyAwaiting(st, id).None? || M.KeyAwaiting(st, id).value !in st.held.at
    ensures M.Answered(st, id, asOf, outcome) == st.(pending := st.pending.Drop(id), late := st.late.Drop(id))
  {}

  function Outcomed(slot: M.Slot, asOf: nat, outcome: M.Outcome, awaited: bool, known: bool): M.Slot {
    if outcome.Refused? then slot.(inflight := slot.inflight && !awaited, stale := true)
    else M.Settled(slot, asOf, outcome.answer, awaited, known)
  }

  /** An answer a held slot waits for, field by field. */
  lemma AnsweredHere(st: M.State, id: M.AskId, asOf: nat, outcome: M.Outcome, key: M.Key)
    requires M.KeyAwaiting(st, id) == Some(key) && key in st.held.at
    ensures var end := M.Answered(st, id, asOf, outcome);
            && end.held.keys == st.held.keys
            && end.held.at
               == st.held.at[key := Outcomed(st.held.at[key], asOf, outcome, id in st.pending.at, key in st.parsed)]
            && end.pending == st.pending.Drop(id) && end.late == st.late.Drop(id)
            && end.parsed == st.parsed && end.byName == st.byName && end.patience == st.patience
            && end.reports == st.reports
  {}

  /** A subscription counted on the slot the cache holds for its key, if it holds it. */
  lemma WatchedOver(st: M.State, key: M.Key, was: M.Slot, change: int)
    requires was.watchers + change >= 0 && (key in st.held.at ==> st.held.at[key] == was)
    ensures M.Watched(st, key, change) ==
            if key in st.held.at then M.SetSlot(st, key, was.(watchers := was.watchers + change)) else st
  {}

  /** What giving up on a question does to its slot, field by field. */
  lemma SweptHere(st: M.State, id: M.AskId, at: int, key: M.Key)
    requires id in st.pending.at && st.pending.at[id].due <= at && st.pending.at[id].key == key
    ensures var end := M.SweepOne(st, id, at);
            && end.held.keys == st.held.keys
            && end.held.at == (if key in st.held.at then st.held.at[key := M.Expired(st.held.at[key])] else st.held.at)
            && end.pending == st.pending.Drop(id) && end.late == M.Bounded(st.late.Put(id, key))
            && end.parsed == st.parsed && end.byName == st.byName && end.patience == st.patience
            && end.reports == if key in st.held.at && !st.held.at[key].reported then st.reports + [key] else st.reports
  {}

  lemma Same(a: M.State, b: M.State)
    requires a.held.keys == b.held.keys && a.held.at == b.held.at && a.pending == b.pending && a.late == b.late
    requires a.parsed == b.parsed && a.byName == b.byName && a.patience == b.patience && a.reports == b.reports
    ensures a == b
  {}

  function StaleIn(at: map<M.Key, M.Slot>, keys: seq<M.Key>): map<M.Key, M.Slot> {
    map k | k in at :: if k in keys then at[k].(stale := true) else at[k]
  }

  lemma StaleNone(at: map<M.Key, M.Slot>)
    ensures StaleIn(at, []) == at
  {}

  lemma StaleNext(at: map<M.Key, M.Slot>, keys: seq<M.Key>, key: M.Key)
    requires key in at
    ensures key in StaleIn(at, keys)
    ensures StaleIn(at, keys + [key]) == StaleIn(at, keys)[key := StaleIn(at, keys)[key].(stale := true)]
  {}

  /** Marking twice is marking once. */
  lemma MarkedOnce(slot: M.Slot, r: M.Record)
    ensures M.Marked(M.Marked(slot, r), r) == M.Marked(slot, r)
  {}

  /** What the slot itself last was does not matter to a dispatch that sets it. */
  lemma DispatchOver(st: M.State, key: M.Key, slot: M.Slot, query: M.Query, sent: M.Sent)
    ensures key in st.held.at ==>
              M.Dispatch(M.SetSlot(st, key, slot), key, query, slot, sent) == M.Dispatch(st, key, query, slot, sent)
  {
    DispatchParts(st, key, query, slot, sent);
    DispatchParts(M.SetSlot(st, key, slot), key, query, slot, sent);
    if key in st.held.at {
      assert st.held.at[key := slot][key := M.Sending(slot, sent)] == st.held.at[key := M.Sending(slot, sent)];
    }
  }

  /** One slot changed, and what the cache holds changed at its key alone. */
  lemma OneView(before: map<M.Key, M.Slot>, after: map<M.Key, M.Slot>, key: M.Key, slot: M.Slot)
    requires after.Keys == before.Keys
    requires forall k :: k in after && k != key ==> after[k] == before[k]
    requires key in after ==> after[key] == slot
    ensures after == if key in before then before[key := slot] else before
  {}

  /** The slots `was` with those at `reached` marked. */
  ghost predicate MarkedOf(now: map<M.Key, M.Slot>, was: map<M.Key, M.Slot>, reached: set<M.Key>, r: M.Record) {
    now.Keys == was.Keys
    && forall k :: k in now ==> now[k] == if k in reached then M.Marked(was[k], r) else was[k]
  }

  lemma MarkedMore(before: map<M.Key, M.Slot>, was: map<M.Key, M.Slot>, reached: set<M.Key>, r: M.Record, key: M.Key)
    requires MarkedOf(before, was, reached, r) && key in before
    ensures MarkedOf(before[key := M.Marked(before[key], r)], was, reached + {key}, r)
  {
    hide M.Marked;
    MarkedOnce(was[key], r);
  }

  /** A slot found again, field by field. */
  lemma ReusedParts(st: M.State, key: M.Key)
    requires key in st.held.at
    ensures var end := M.Reused(st, key);
            && end.held.keys == Without(st.held.keys, key) + [key] && end.held.at == st.held.at
            && end.pending == st.pending && end.late == st.late && end.parsed == st.parsed
            && end.byName == st.byName && end.patience == st.patience && end.reports == st.reports
  {
    hide Without;
    assert (st.held.at - {key})[key := st.held.at[key]] == st.held.at;
  }

  class Asking {
    var held: OMap<M.Key, Held>
    var pending: OMap<M.AskId, M.Asked>
    var late: OMap<M.AskId, M.Key>
    var parsed: map<M.Key, M.Query>
    var byName: map<Name, set<M.Key>>
    var patience: Option<int>
    var reports: seq<M.Key>

    constructor ()
      ensures Valid() && Abs() == M.Initial && held.at == map[]
    {
      held, pending, late := Empty(), Empty(), Empty();
      parsed, byName, patience, reports := map[], map[], None, [];
    }

    /** No slot is held under two keys. */
    ghost predicate Valid()
      reads this`held
    {
      && held.Valid()
      && forall j, k :: j in held.at && k in held.at && j != k ==> held.at[j] != held.at[k]
    }

    ghost function Slots(): set<Held>
      reads this`held
    {
      set k | k in held.at :: held.at[k]
    }

    ghost function Views(): map<M.Key, M.Slot>
      reads this`held, Slots()
    {
      map k | k in held.at :: held.at[k].View()
    }

    ghost function Abs(): M.State
      reads this, Slots()
    {
      M.State(OMap(held.keys, Views()), pending, late, parsed, byName, patience, reports)
    }

    /** The slot a call works on: the cache's own for its key, or one the full
        cache has already let go. */
    ghost predicate Owns(key: M.Key, slot: Held)
      reads this`held
    {
      if key in held.at then held.at[key] == slot else forall k :: k in held.at ==> held.at[k] != slot
    }

    method Watch()
      modifies this`patience
      ensures patience == M.Rearmed(pending, old(patience)) && Abs() == M.Watch(old(Abs()))
    {
      var due := M.Earliest(pending.keys, pending.at);
      if due.None? || (patience.Some? && patience.value <= due.value) { return; }
      patience := due;
    }

    /** A question sent, or not, for a slot. */
    method Send(key: M.Key, query: M.Query, slot: Held, sent: M.Sent)
      modifies this`pending, this`patience, slot
      ensures slot.View() == M.Sending(old(slot.View()), sent)
      ensures pending == Awaiting(old(pending), key, query, old(slot.View()), sent)
      ensures patience == if Goes(old(slot.View()), sent) then M.Rearmed(pending, old(patience)) else old(patience)
    {
      hide M.Rearmed, M.Watch, M.PatienceOf;
      if slot.inflight {
      } else if sent.Offline? {
        slot.stale := true;
      } else {
        slot.inflight := true;
        slot.stale := false;
        slot.staleAt := M.At(-1);
        pending := pending.Put(sent.id, M.Asked(key, query, sent.at + M.PatienceOf(query)));
        Watch();
      }
    }

    method Dispatch(key: M.Key, query: M.Query, slot: Held, sent: M.Sent)
      requires Valid() && Owns(key, slot)
      modifies this`pending, this`patience, slot
      ensures Valid() && Owns(key, slot) && slot.View() == M.Sending(old(slot.View()), sent)
      ensures Abs() == M.Dispatch(old(Abs()), key, query, old(slot.View()), sent)
    {
      hide M.Dispatch, M.Sending, Awaiting, M.Rearmed;
      ghost var was, st := slot.View(), Abs();
      Send(key, query, slot, sent);
      OneView(st.held.at, Views(), key, slot.View());
      DispatchParts(st, key, query, was, sent);
      Same(Abs(), M.Dispatch(st, key, query, was, sent));
    }

    method Schedule(slot: Held)
      modifies slot`timer
      ensures slot.timer
    {
      if slot.timer { return; }
      slot.timer := true;
    }

    /** The first slot, in order of use, that nothing holds open. */
    method FirstLoose() returns (loose: Option<M.Key>)
      requires Valid()
      ensures loose == M.FirstLoose(held.keys, Views())
      ensures loose.Some? ==> loose.value in held.at
    {
      loose := None;
      for i := 0 to |held.keys|
        invariant M.FirstLoose(held.keys, Views()) == M.FirstLoose(held.keys[i..], Views())
      {
        var key := held.keys[i];
        var slot := held.at[key];
        assert Views()[key] == slot.View();
        if slot.watchers > 0 || slot.inflight || slot.timer { continue; }
        return Some(key);
      }
    }

    /** The slot let go of, wherever else it is still held. */
    method Release(key: M.Key)
      requires Valid() && key in held.at
      modifies this`held
      ensures Valid() && held == old(held).Drop(key) && Views() == old(Views()) - {key}
    {
      DropValid(held, key);
      held := held.Drop(key);
    }

    method Drop(key: M.Key)
      requires Valid() && key in held.at
      modifies this`held, this`parsed, this`byName
      ensures Valid() && Abs() == M.Dropped(old(Abs()), key)
      ensures held.at == old(held.at) - {key}
    {
      hide M.Unnamed, Without, Valid;
      ghost var st := Abs();
      if key in parsed { byName := M.Unnamed(byName, parsed[key].name, key); }
      parsed := parsed - {key};
      assert Views() == st.held.at;
      Release(key);
    }

    method DropLeastRecent()
      requires Valid()
      modifies this`held, this`parsed, this`byName
      ensures Valid() && Abs() == M.DropLeastRecent(old(Abs()))
      ensures forall k :: k in held.at ==> k in old(held.at) && held.at[k] == old(held.at[k])
    {
      hide M.FirstLoose, M.Dropped;
      var loose := FirstLoose();
      assert Abs() == old(Abs());
      if loose.Some? { Drop(loose.value); }
    }

    /** The slot put back last in order of use. */
    method Touch(key: M.Key)
      requires Valid() && key in held.at
      modifies this`held
      ensures Valid() && Views() == old(Views())
      ensures held.at == old(held.at) && held.keys == Without(old(held).keys, key) + [key]
    {
      hide Without;
      var found := held.at[key];
      DropValid(held, key);
      held := held.Drop(key);
      PutValid(held, key, found);
      held := held.Put(key, found);
      assert held.at == old(held.at);
    }

    method Reuse(key: M.Key)
      requires Valid() && key in held.at
      modifies this`held
      ensures Valid() && held.at == old(held.at) && Abs() == M.Reused(old(Abs()), key)
    {
      hide Without, Valid, M.Reused;
      ghost var st := Abs();
      ReusedParts(st, key);
      hide Views;
      Touch(key);
      Same(Abs(), M.Reused(st, key));
    }

    /** A slot made just now, kept under a key that had none. */
    method Keep(key: M.Key, slot: Held)
      requires Valid() && key !in held.at && slot !in Slots()
      modifies this`held
      ensures Valid() && held == old(held).Put(key, slot) && Views() == old(Views())[key := slot.View()]
    {
      PutValid(held, key, slot);
      held := held.Put(key, slot);
    }

    method Add(query: M.Query) returns (slot: Held)
      requires Valid() && query.key !in held.at
      modifies this`held, this`parsed, this`byName
      ensures Valid() && Abs() == M.Added(old(Abs()), query)
      ensures fresh(slot) && slot.View() == M.NewSlot && held.at == old(held.at)[query.key := slot]
    {
      hide M.Named, Valid;
      ghost var st := Abs();
      slot := new Held();
      parsed := parsed[query.key := query];
      byName := M.Named(byName, query.name, query.key);
      assert Views() == st.held.at;
      Keep(query.key, slot);
    }

    method SlotFor(query: M.Query) returns (slot: Held)
      requires Valid()
      modifies this`held, this`parsed, this`byName
      ensures Valid() && Abs() == M.SlotFor(old(Abs()), query)
      ensures slot.View() == M.FoundSlot(old(Abs()), query) && Owns(query.key, slot)
      ensures fresh(slot) || slot in old(Slots())
      ensures forall k :: k in held.at ==> held.at[k] == slot || (k in old(held.at) && held.at[k] == old(held.at[k]))
    {
      if query.key in held.at {
        slot := held.at[query.key];
        Reuse(query.key);
      } else {
        slot := Add(query);
        if |held.keys| > M.HELD_CAP { DropLeastRecent(); }
      }
    }

    method Ask(query: M.Query, sent: M.Sent) returns (slot: Held)
      requires Valid()
      modifies this, Slots()
      ensures Valid() && Owns(query.key, slot) && Abs() == M.Ask(old(Abs()), query, sent)
    {
      hide M.Dispatch, M.SlotFor, M.FoundSlot;
      slot := SlotFor(query);
      assert slot.stale == slot.View().stale;
      if slot.stale { Dispatch(query.key, query, slot, sent); }
    }

    /** The slot doubted for good, until an answer asked from now on lands. */
    method Doubt(key: M.Key, slot: Held)
      requires Valid() && Owns(key, slot)
      modifies slot
      ensures Valid() && Owns(key, slot) && slot.View() == M.Refreshed(old(slot.View()))
      ensures Abs() == if key in held.at then M.SetSlot(old(Abs()), key, slot.View()) else old(Abs())
    {
      ghost var st := Abs();
      slot.stale := true;
      slot.staleAt := M.Forever;
      OneView(st.held.at, Views(), key, slot.View());
    }

    method Refresh(query: M.Query, sent: M.Sent)
      requires Valid()
      modifies this, Slots()
      ensures Valid() && Abs() == M.Refresh(old(Abs()), query, sent)
    {
      hide M.Dispatch, M.SlotFor, M.FoundSlot, M.Sending, M.Refreshed;
      var slot := SlotFor(query);
      ghost var st := Abs();
      Doubt(query.key, slot);
      DispatchOver(st, query.key, slot.View(), query, sent);
      Dispatch(query.key, query, slot, sent);
    }

    /** One watcher more or less on a slot. */
    method Count(ghost key: M.Key, slot: Held, watchers: nat)
      requires Valid() && Owns(key, slot)
      modifies slot`watchers
      ensures Valid() && slot.View() == old(slot.View()).(watchers := watchers)
      ensures Abs() == if key in held.at then M.SetSlot(old(Abs()), key, slot.View()) else old(Abs())
    {
      ghost var st := Abs();
      slot.watchers := watchers;
      OneView(st.held.at, Views(), key, slot.View());
    }

    /** Subscribing to what `Ask` handed out for `key`, and letting go of it: a
        slot the cache no longer holds is watched without the cache knowing. */
    method Watching(ghost key: M.Key, slot: Held, subscribing: bool)
      requires Valid() && Owns(key, slot) && (subscribing || slot.watchers > 0)
      modifies slot`watchers
      ensures Valid() && slot.watchers == old(slot.watchers) + (if subscribing then 1 else -1)
      ensures Abs() == M.Watched(old(Abs()), key, if subscribing then 1 else -1)
    {
      hide M.Watched, M.SetSlot, Valid;
      WatchedOver(Abs(), key, slot.View(), if subscribing then 1 else -1);
      Count(key, slot, if subscribing then slot.watchers + 1 else slot.watchers - 1);
    }

    /** The pace timer set for a slot the cache holds. */
    method PaceOver(key: M.Key, query: M.Query, sent: M.Sent)
      requires Valid() && key in held.at && held.at[key].timer
      modifies this`pending, this`patience, Slots()
      ensures Valid() && Abs() == M.TimerFires(old(Abs()), key, query, sent)
    {
      hide M.Dispatch, M.Sending;
      var slot := held.at[key];
      ghost var st := Abs();
      slot.timer := false;
      OneView(st.held.at, Views(), key, slot.View());
      assert Abs() == M.SetSlot(st, key, slot.View());
      if slot.stale && slot.watchers > 0 {
        DispatchOver(st, key, slot.View(), query, sent);
        Dispatch(key, query, slot, sent);
      }
    }

    /** One question out of patience: stale, and reported once a silence. */
    method Expire(key: M.Key, slot: Held)
      modifies this`reports, slot
      ensures slot.View() == M.Expired(old(slot.View()))
      ensures reports == if old(slot.reported) then old(reports) else old(reports) + [key]
    {
      slot.inflight := false;
      slot.stale := true;
      if !slot.reported {
        slot.reported := true;
        reports := reports + [key];
      }
      if slot.watchers > 0 { Schedule(slot); }
    }

    method ExpireHeld(key: M.Key)
      requires Valid() && key in held.at
      modifies this`reports, Slots()
      ensures Valid() && Views() == old(Views())[key := M.Expired(old(Views())[key])]
      ensures reports == if old(Views())[key].reported then old(reports) else old(reports) + [key]
    {
      hide M.Expired;
      ghost var was := Views();
      Expire(key, held.at[key]);
      OneView(was, Views(), key, held.at[key].View());
    }

    /** A pending question moved among the late ones, and its slot told. */
    method GiveUp(id: M.AskId)
      requires Valid() && id in pending.at
      modifies this`pending, this`late, this`reports, Slots()
      ensures Valid() && pending == old(pending).Drop(id)
      ensures var key := old(pending.at[id].key);
              && late == M.Bounded(old(late).Put(id, key))
              && Views() == (if key in held.at then old(Views())[key := M.Expired(old(Views())[key])] else old(Views()))
              && reports == if key in held.at && !old(Views())[key].reported then old(reports) + [key] else old(reports)
    {
      hide M.Bounded, M.Expired, Without;
      ghost var was := Views();
      var entry := pending.at[id];
      pending := pending.Drop(id);
      late := M.Bounded(late.Put(id, entry.key));
      assert Views() == was;
      if entry.key in held.at { ExpireHeld(entry.key); }
    }

    method SweepOne(id: M.AskId, at: int)
      requires Valid()
      modifies this`pending, this`late, this`reports, Slots()
      ensures Valid() && Abs() == M.SweepOne(old(Abs()), id, at)
    {
      hide M.Bounded, M.Expired, Without, Valid;
      ghost var st := Abs();
      if id !in pending.at || pending.at[id].due > at { return; }
      hide M.SweepOne, Views;
      SweptHere(st, id, at, pending.at[id].key);
      GiveUp(id);
      Same(Abs(), M.SweepOne(st, id, at));
    }

    method SweepIds(ids: seq<M.AskId>, at: int)
      requires Valid()
      modifies this`pending, this`late, this`reports, Slots()
      ensures Valid() && Abs() == M.SweepAll(old(Abs()), ids, at)
    {
      hide Abs, Views, M.SweepOne;
      ghost var st := Abs();
      for i := 0 to |ids|
        invariant held == old(held) && Valid()
        invariant M.SweepAll(Abs(), ids[i..], at) == M.SweepAll(st, ids, at)
      {
        assert ids[i..][0] == ids[i] && ids[i..][1..] == ids[i + 1..];
        SweepOne(ids[i], at);
      }
      assert ids[|ids|..] == [];
    }

    /** The patience timer has fired, or is dropped. */
    method Disarm()
      modifies this`patience
      ensures Abs() == old(Abs()).(patience := None)
    {
      patience := None;
    }

    method Sweep(at: int)
      requires Valid()
      modifies this`pending, this`late, this`reports, this`patience, Slots()
      ensures Valid() && Abs() == M.Sweep(old(Abs()), at)
    {
      hide M.SweepAll, M.Watch, Views, Valid;
      ghost var st := Abs();
      assert pending.keys == st.pending.keys;
      Disarm();
      SweepIds(pending.keys, at);
      Watch();
    }

    /** An outcome coming home to its slot, awaited still or given up on. */
    method Settle(slot: Held, known: bool, asOf: nat, outcome: M.Outcome, awaited: bool)
      modifies slot
      ensures slot.View() == Outcomed(old(slot.View()), asOf, outcome, awaited, known)
    {
      if awaited { slot.inflight := false; }
      if outcome.Refused? {
        slot.stale := true;
        return;
      }
      slot.reported := false;
      slot.asOf := Some(asOf);
      if slot.stale && M.Below(slot.staleAt, asOf) { slot.stale := false; }
      slot.value := Some(outcome.answer);
      if slot.stale && slot.watchers > 0 && known { Schedule(slot); }
    }

    method SettleHeld(key: M.Key, asOf: nat, outcome: M.Outcome, awaited: bool)
      requires Valid() && key in held.at
      modifies Slots()
      ensures Valid() && Views() == old(Views())[key := Outcomed(old(Views())[key], asOf, outcome, awaited, key in parsed)]
    {
      hide Outcomed;
      ghost var was := Views();
      Settle(held.at[key], key in parsed, asOf, outcome, awaited);
      OneView(was, Views(), key, held.at[key].View());
    }

    /** The question is no longer awaited, in time or late. */
    method Forget(id: M.AskId)
      requires Valid()
      modifies this`pending, this`late
      ensures Valid() && pending == old(pending).Drop(id) && late == old(late).Drop(id) && Views() == old(Views())
    {
      hide Without;
      pending := pending.Drop(id);
      late := late.Drop(id);
    }

    method Answered(id: M.AskId, asOf: nat, outcome: M.Outcome)
      requires Valid()
      modifies this`pending, this`late, Slots()
      ensures Valid() && Abs() == M.Answered(old(Abs()), id, asOf, outcome)
    {
      hide Outcomed, M.Answered, Without, Valid;
      ghost var st := Abs();
      var awaited := id in pending.at;
      var key := if awaited then Some(pending.at[id].key) else if id in late.at then Some(late.at[id]) else None;
      assert key == M.KeyAwaiting(st, id);
      hide M.KeyAwaiting;
      Forget(id);
      if key.None? || key.value !in held.at {
        AnsweredNowhere(st, id, asOf, outcome);
        return;
      }
      AnsweredHere(st, id, asOf, outcome, key.value);
      SettleHeld(key.value, asOf, outcome, awaited);
      Same(Abs(), M.Answered(st, id, asOf, outcome));
    }

    /** One slot within a record's reach. */
    method Mark(slot: Held, r: M.Record)
      modifies slot
      ensures slot.View() == M.Marked(old(slot.View()), r)
    {
      if slot.asOf.Some? && r.position < slot.asOf.value { return; }
      slot.stale := true;
      slot.staleAt := M.Later(slot.staleAt, r.position);
      if slot.watchers > 0 { Schedule(slot); }
    }

    /** The keys under one name a record reaches have been marked. */
    ghost predicate MarkedIn(st: M.State, reached: set<M.Key>, r: M.Record)
      reads this`held, Slots()
    {
      MarkedOf(Views(), st.held.at, reached, r)
    }

    /** The held keys among `keys` that a reach takes in. */
    ghost function InReach(keys: set<M.Key>, reach: Reach, r: M.Record): set<M.Key>
      reads this
    {
      set k | k in keys && k in held.at && k in parsed && Reaches(reach, k.text, r.run)
    }

    method MarkKey(key: M.Key, reach: Reach, r: M.Record, ghost st: M.State, ghost reached: set<M.Key>)
      requires Valid() && MarkedIn(st, reached, r)
      modifies Slots()
      ensures Valid() && MarkedIn(st, reached + InReach({key}, reach, r), r)
    {
      hide Reaches, M.Marked;
      if key !in held.at || key !in parsed || !Reaches(reach, key.text, r.run) {
        assert reached + InReach({key}, reach, r) == reached;
        return;
      }
      hide MarkedOf;
      assert InReach({key}, reach, r) == {key};
      ghost var before := Views();
      Mark(held.at[key], r);
      OneView(before, Views(), key, held.at[key].View());
      MarkedMore(before, st.held.at, reached, r, key);
    }

    method InvalidateNamed(name: Name, r: M.Record, ghost st: M.State, ghost reached: set<M.Key>)
      requires Valid() && name in byName && MarkedIn(st, reached, r)
      modifies Slots()
      ensures Valid() && MarkedIn(st, reached + InReach(byName[name], ReachOf(name, r.kind), r), r)
    {
      hide ReachOf, Reaches, MarkedIn;
      var reach := ReachOf(name, r.kind);
      var keys := byName[name];
      ghost var done := {};
      assert reached + InReach(done, reach, r) == reached;
      while keys != {}
        invariant done + keys == byName[name]
        invariant Valid() && held == old(held)
        invariant MarkedIn(st, reached + InReach(done, reach, r), r)
        decreases keys
      {
        var key :| key in keys;
        MarkKey(key, reach, r, st, reached + InReach(done, reach, r));
        assert reached + InReach(done, reach, r) + InReach({key}, reach, r) == reached + InReach(done + {key}, reach, r);
        keys := keys - {key};
        done := done + {key};
      }
      assert done == byName[name];
    }

    /** The keys a record reaches, name by name. */
    ghost function ReachedBy(names: set<Name>, r: M.Record): set<M.Key>
      reads this
      requires names <= byName.Keys
    {
      set name, k | name in names && !ReachOf(name, r.kind).Nothing?
                    && k in InReach(byName[name], ReachOf(name, r.kind), r) :: k
    }

    method Invalidate(r: M.Record)
      requires Valid()
      modifies Slots()
      ensures Valid() && Abs() == M.Invalidate(old(Abs()), r)
    {
      hide ReachOf, Reaches, MarkedIn, InReach, M.Marked;
      var names := byName.Keys;
      ghost var st := Abs();
      ghost var done: set<Name> := {};
      NothingMarked(st, r);
      assert ReachedBy(done, r) == {};
      while names != {}
        invariant done + names == byName.Keys
        invariant Valid() && held == old(held) && parsed == old(parsed) && byName == old(byName)
        invariant MarkedIn(st, ReachedBy(done, r), r)
        decreases names
      {
        var name :| name in names;
        names := names - {name};
        if ReachOf(name, r.kind).Nothing? {
          assert ReachedBy(done + {name}, r) == ReachedBy(done, r);
        } else {
          InvalidateNamed(name, r, st, ReachedBy(done, r));
          assert ReachedBy(done + {name}, r) == ReachedBy(done, r) + InReach(byName[name], ReachOf(name, r.kind), r);
        }
        done := done + {name};
      }
      assert done == byName.Keys;
      AllMarked(st, r);
    }

    lemma NothingMarked(st: M.State, r: M.Record)
      requires st == Abs()
      ensures MarkedIn(st, {}, r)
    {}

    lemma AllMarked(st: M.State, r: M.Record)
      requires MarkedIn(st, ReachedBy(byName.Keys, r), r)
      requires st.parsed == parsed && st.byName == byName
      ensures Views() == M.Invalidate(st, r).held.at
    {
      hide ReachOf, Reaches, M.Marked;
      forall k | k in held.at ensures Views()[k] == M.Invalidate(st, r).held.at[k] {
        if k in ReachedBy(byName.Keys, r) {
          var name :| name in byName && !ReachOf(name, r.kind).Nothing?
                   && k in InReach(byName[name], ReachOf(name, r.kind), r);
          assert k in byName[name] && Reaches(ReachOf(name, r.kind), k.text, r.run);
        }
        if M.IndexReaches(st, k, r) {
          var name :| name in byName && k in byName[name]
                   && !ReachOf(name, r.kind).Nothing? && Reaches(ReachOf(name, r.kind), k.text, r.run);
          assert k in InReach(byName[name], ReachOf(name, r.kind), r);
        }
      }
    }

    method ResumeOne(key: M.Key, sent: M.Sent)
      requires Valid() && key in held.at
      modifies this`pending, this`patience, Slots()
      ensures Valid() && Abs() == M.ResumeOne(old(Abs()), key, sent)
    {
      hide M.Dispatch, M.Sending;
      var slot := held.at[key];
      ghost var st := Abs();
      if slot.inflight { slot.stale := true; }
      slot.inflight := false;
      slot.reported := false;
      assert slot.View() == M.Revived(st.held.at[key]);
      OneView(st.held.at, Views(), key, slot.View());
      assert Abs() == M.SetSlot(st, key, slot.View());
      if slot.stale && key in parsed && slot.watchers > 0 {
        DispatchOver(st, key, slot.View(), parsed[key], sent);
        Dispatch(key, parsed[key], slot, sent);
      }
    }

    method ResumeKeys(keys: seq<M.Key>, sends: map<M.Key, M.Sent>)
      requires Valid() && forall k :: k in keys ==> k in held.at
      modifies this`pending, this`patience, Slots()
      ensures Valid() && Abs() == M.ResumeAll(old(Abs()), keys, sends)
    {
      hide Abs, Views, M.ResumeOne, M.SentFor;
      ghost var st := Abs();
      for i := 0 to |keys|
        invariant held == old(held) && Valid()
        invariant M.ResumeAll(Abs(), keys[i..], sends) == M.ResumeAll(st, keys, sends)
      {
        assert keys[i..][0] == keys[i] && keys[i..][1..] == keys[i + 1..];
        assert keys[i] in keys;
        ResumeOne(keys[i], M.SentFor(sends, keys[i]));
      }
      assert keys[|keys|..] == [];
    }

    method Resumed(sends: map<M.Key, M.Sent>)
      requires Valid()
      modifies this`pending, this`late, this`patience, Slots()
      ensures Valid() && Abs() == M.Resumed(old(Abs()), sends)
    {
      hide M.ResumeAll;
      ghost var st := Abs();
      pending := Empty();
      late := Empty();
      patience := None;
      assert Views() == st.held.at;
      assert Abs() == st.(pending := Empty(), late := Empty(), patience := None);
      ResumeKeys(held.keys, sends);
    }

    method MarkStale(key: M.Key)
      requires Valid() && key in held.at
      modifies Slots()
      ensures Valid() && Views() == old(Views())[key := old(Views())[key].(stale := true)]
    {
      ghost var was := Views();
      var slot := held.at[key];
      slot.stale := true;
      OneView(was, Views(), key, slot.View());
    }

    method MarkAllStale()
      requires Valid()
      modifies Slots()
      ensures Valid() && Views() == StaleIn(old(Views()), held.keys)
    {
      hide StaleIn;
      ghost var was := Views();
      var keys := held.keys;
      StaleNone(was);
      assert keys[..0] == [];
      for i := 0 to |keys|
        invariant held == old(held) && Valid() && Views() == StaleIn(was, keys[..i])
      {
        assert keys[i] in held.keys;
        StaleNext(was, keys[..i], keys[i]);
        assert keys[..i + 1] == keys[..i] + [keys[i]];
        MarkStale(keys[i]);
      }
      assert keys[..|keys|] == keys;
    }

    method Reconnected(sends: map<M.Key, M.Sent>)
      requires Valid()
      modifies this`pending, this`late, this`patience, Slots()
      ensures Valid() && Abs() == M.Reconnected(old(Abs()), sends)
    {
      hide M.Resumed;
      ghost var st := Abs();
      MarkAllStale();
      assert StaleIn(st.held.at, held.keys) == map k | k in st.held.at :: st.held.at[k].(stale := true);
      assert Abs() == st.(held := OMap(st.held.keys, map k | k in st.held.at :: st.held.at[k].(stale := true)));
      Resumed(sends);
    }
  }
}
